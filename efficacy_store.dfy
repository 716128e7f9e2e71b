/**
  The stored efficacy records and what the engine does with them: the record-level
  upsert of `update_efficacy` and the overlays of `load_efficacy_from_db`.

  The four tables are kept as sequences of rows in insertion order, which is the order
  an unordered `query(...).all()` or `.first()` is taken to return them in.
 */
module EfficacyStore {
  import opened Wrappers
  import opened PromptModels
  import opened Dicts

  /** A `component_efficacy` row: a task, a behaviour, both or neither may be set. */
  datatype EfficacyRow = EfficacyRow(
    component: ComponentType,
    task: Option<TaskType>,
    behavior: Option<BehaviorType>,
    value: real)

  /** A `position_effects` row. */
  datatype PositionRow = PositionRow(component: ComponentType, position: int, value: real)

  /** A `model_efficacy` row, with the name of the model it refers to. */
  datatype ModelRow = ModelRow(model: string, component: ComponentType, behavior: BehaviorType, value: real)

  /** A `domain_efficacy` row. */
  datatype DomainRow = DomainRow(domain: string, component: ComponentType, behavior: BehaviorType, value: real)

  type EfficacyKey = (ComponentType, TaskOrBehavior)
  type PositionKey = (ComponentType, int)
  type AdjustmentKey = (ComponentType, BehaviorType)

  // ---------------------------------------------------------------- upsert

  /** The filter of `update_efficacy`'s query: the component, and the task or the behaviour column. */
  predicate Matches(row: EfficacyRow, c: ComponentType, g: TaskOrBehavior) {
    row.component == c &&
    match g
    case Task(t) => row.task == Some(t)
    case Behavior(b) => row.behavior == Some(b)
  }

  /** `.first()`: the index of the first matching row. */
  function FirstMatch(rows: seq<EfficacyRow>, c: ComponentType, g: TaskOrBehavior): (r: Option<nat>)
    ensures r.None? <==> forall i :: 0 <= i < |rows| ==> !Matches(rows[i], c, g)
    ensures r.Some? ==> r.value < |rows| && Matches(rows[r.value], c, g)
    ensures r.Some? ==> forall i :: 0 <= i < r.value ==> !Matches(rows[i], c, g)
  {
    if rows == [] then None
    else if Matches(rows[0], c, g) then Some(0)
    else
      match FirstMatch(rows[1..], c, g)
      case None => None
      case Some(i) => Some(i + 1)
  }

  /** The row `update_efficacy` inserts: only the column of the given kind is set. */
  function NewRow(c: ComponentType, g: TaskOrBehavior, v: real): EfficacyRow {
    match g
    case Task(t) => EfficacyRow(c, Some(t), None, v)
    case Behavior(b) => EfficacyRow(c, None, Some(b), v)
  }

  /** Overwrite the value of the first matching row, or append a new row. */
  function Upsert(rows: seq<EfficacyRow>, c: ComponentType, g: TaskOrBehavior, v: real): seq<EfficacyRow> {
    match FirstMatch(rows, c, g)
    case Some(i) => rows[i := rows[i].(value := v)]
    case None => rows + [NewRow(c, g, v)]
  }

  /** An existing record is overwritten where it stands: nothing is inserted and no other row changes. */
  lemma UpsertOverwrites(rows: seq<EfficacyRow>, c: ComponentType, g: TaskOrBehavior, v: real, i: nat)
    requires i < |rows| && Matches(rows[i], c, g)
    ensures var r := Upsert(rows, c, g, v);
      && |r| == |rows|
      && exists k :: 0 <= k < |rows| && Matches(rows[k], c, g) && r[k] == rows[k].(value := v)
           && forall j :: 0 <= j < |rows| && j != k ==> r[j] == rows[j]
  {
    var k := FirstMatch(rows, c, g).value;
    assert Matches(rows[k], c, g);
  }

  /** Without a matching record, exactly one is appended, carrying only the column of the key's kind. */
  lemma UpsertInserts(rows: seq<EfficacyRow>, c: ComponentType, g: TaskOrBehavior, v: real)
    requires forall i :: 0 <= i < |rows| ==> !Matches(rows[i], c, g)
    ensures var r := Upsert(rows, c, g, v);
      && r[..|rows|] == rows && |r| == |rows| + 1
      && r[|rows|].component == c && r[|rows|].value == v
      && (g.Task? ==> r[|rows|].task == Some(g.task) && r[|rows|].behavior == None)
      && (g.Behavior? ==> r[|rows|].behavior == Some(g.behavior) && r[|rows|].task == None)
  {
    assert (rows + [NewRow(c, g, v)])[..|rows|] == rows;
  }

  /** Repeating an upsert changes nothing more. */
  lemma UpsertIdempotent(rows: seq<EfficacyRow>, c: ComponentType, g: TaskOrBehavior, v: real)
    ensures Upsert(Upsert(rows, c, g, v), c, g, v) == Upsert(rows, c, g, v)
  {
    var r := Upsert(rows, c, g, v);
    match FirstMatch(rows, c, g)
    case Some(i) =>
      assert forall j :: 0 <= j < i ==> r[j] == rows[j];
      assert FirstMatch(r, c, g) == Some(i) by {
        assert Matches(r[i], c, g);
      }
    case None =>
      assert Matches(r[|rows|], c, g);
      assert forall j :: 0 <= j < |rows| ==> r[j] == rows[j];
      assert FirstMatch(r, c, g) == Some(|rows|);
  }

  // ---------------------------------------------------------------- overlays

  /** Where `load_efficacy_from_db` puts a row: a task key when `task_type` is set, else a behaviour key. */
  function RowKey(row: EfficacyRow): Option<EfficacyKey> {
    if row.task.Some? then Some((row.component, Task(row.task.value)))
    else if row.behavior.Some? then Some((row.component, Behavior(row.behavior.value)))
    else None
  }

  /** The assignments the first query's loop makes, in row order; a row with neither column is skipped. */
  function EfficacyUpdates(rows: seq<EfficacyRow>): (ups: seq<(EfficacyKey, real)>)
    ensures |ups| <= |rows|
    decreases |rows|
  {
    if rows == [] then []
    else
      var last := rows[|rows| - 1];
      EfficacyUpdates(rows[..|rows| - 1]) + (if RowKey(last).Some? then [(RowKey(last).value, last.value)] else [])
  }

  function PositionUpdates(rows: seq<PositionRow>): (ups: seq<(PositionKey, real)>)
    ensures |ups| == |rows| && forall i :: 0 <= i < |rows| ==> ups[i] == ((rows[i].component, rows[i].position), rows[i].value)
  {
    seq(|rows|, i requires 0 <= i < |rows| => ((rows[i].component, rows[i].position), rows[i].value))
  }

  function ModelUpdates(rows: seq<ModelRow>): (ups: seq<((string, AdjustmentKey), real)>)
    ensures |ups| == |rows| && forall i :: 0 <= i < |rows| ==> ups[i] == ((rows[i].model, (rows[i].component, rows[i].behavior)), rows[i].value)
  {
    seq(|rows|, i requires 0 <= i < |rows| => ((rows[i].model, (rows[i].component, rows[i].behavior)), rows[i].value))
  }

  function DomainUpdates(rows: seq<DomainRow>): (ups: seq<((string, AdjustmentKey), real)>)
    ensures |ups| == |rows| && forall i :: 0 <= i < |rows| ==> ups[i] == ((rows[i].domain, (rows[i].component, rows[i].behavior)), rows[i].value)
  {
    seq(|rows|, i requires 0 <= i < |rows| => ((rows[i].domain, (rows[i].component, rows[i].behavior)), rows[i].value))
  }

  /** The updates of one more row, appended to those of the rows before it. */
  lemma EfficacyUpdatesSnoc(rows: seq<EfficacyRow>, i: nat)
    requires i < |rows|
    ensures EfficacyUpdates(rows[..i + 1]) == EfficacyUpdates(rows[..i]) +
      (if RowKey(rows[i]).Some? then [(RowKey(rows[i]).value, rows[i].value)] else [])
  {
    assert rows[..i + 1][..i] == rows[..i];
  }

  lemma PositionUpdatesSnoc(rows: seq<PositionRow>, i: nat)
    requires i < |rows|
    ensures PositionUpdates(rows[..i + 1]) == PositionUpdates(rows[..i]) + [((rows[i].component, rows[i].position), rows[i].value)]
  {
  }

  lemma ModelUpdatesSnoc(rows: seq<ModelRow>, i: nat)
    requires i < |rows|
    ensures ModelUpdates(rows[..i + 1]) == ModelUpdates(rows[..i]) + [((rows[i].model, (rows[i].component, rows[i].behavior)), rows[i].value)]
  {
  }

  lemma DomainUpdatesSnoc(rows: seq<DomainRow>, i: nat)
    requires i < |rows|
    ensures DomainUpdates(rows[..i + 1]) == DomainUpdates(rows[..i]) + [((rows[i].domain, (rows[i].component, rows[i].behavior)), rows[i].value)]
  {
  }

  /** The last row stored under a key decides the value the load leaves under it. */
  lemma {:induction false} LastRowWins(rows: seq<EfficacyRow>, k: EfficacyKey, i: nat)
    requires i < |rows| && RowKey(rows[i]) == Some(k)
    requires forall j :: i < j < |rows| ==> RowKey(rows[j]) != Some(k)
    ensures LastValue(EfficacyUpdates(rows), k) == Some(rows[i].value)
    decreases |rows|
  {
    var front := rows[..|rows| - 1];
    var ups := EfficacyUpdates(rows);
    if i < |rows| - 1 {
      forall j | i < j < |front| ensures RowKey(front[j]) != Some(k) {
        assert front[j] == rows[j];
      }
      assert front[i] == rows[i];
      LastRowWins(front, k, i);
      if RowKey(rows[|rows| - 1]).Some? {
        assert ups[..|ups| - 1] == EfficacyUpdates(front);
      } else {
        assert ups == EfficacyUpdates(front);
      }
    }
  }

  /** No row stored under a key: the load assigns nothing to it. */
  lemma {:induction false} NoRowNoUpdate(rows: seq<EfficacyRow>, k: EfficacyKey)
    requires forall j :: 0 <= j < |rows| ==> RowKey(rows[j]) != Some(k)
    ensures LastValue(EfficacyUpdates(rows), k) == None
    decreases |rows|
  {
    if rows != [] {
      var front := rows[..|rows| - 1];
      var ups := EfficacyUpdates(rows);
      forall j | 0 <= j < |front| ensures RowKey(front[j]) != Some(k) {
        assert front[j] == rows[j];
      }
      NoRowNoUpdate(front, k);
      if RowKey(rows[|rows| - 1]).Some? {
        assert ups[..|ups| - 1] == EfficacyUpdates(front);
      } else {
        assert ups == EfficacyUpdates(front);
      }
    }
  }

  // ---------------------------------------------------------------- well-formed tables

  /** Exactly one of `task_type` and `behavior_type` is set, as the application promises. */
  predicate WellFormedRow(row: EfficacyRow) {
    row.task.Some? != row.behavior.Some?
  }

  /** Well-formed rows, and no two stored under the same key. */
  predicate WellFormedRows(rows: seq<EfficacyRow>) {
    && (forall i :: 0 <= i < |rows| ==> WellFormedRow(rows[i]))
    && (forall i, j :: 0 <= i < j < |rows| ==> RowKey(rows[i]) != RowKey(rows[j]))
  }

  /** On a well-formed row, the upsert's filter and the load's key agree. */
  lemma MatchesIffKey(row: EfficacyRow, c: ComponentType, g: TaskOrBehavior)
    requires WellFormedRow(row)
    ensures Matches(row, c, g) <==> RowKey(row) == Some((c, g))
  {
  }

  lemma UpsertKeepsWellFormed(rows: seq<EfficacyRow>, c: ComponentType, g: TaskOrBehavior, v: real)
    requires WellFormedRows(rows)
    ensures WellFormedRows(Upsert(rows, c, g, v))
  {
    var r := Upsert(rows, c, g, v);
    match FirstMatch(rows, c, g)
    case Some(i) =>
      assert forall j :: 0 <= j < |r| ==> RowKey(r[j]) == RowKey(rows[j]) && WellFormedRow(r[j]);
    case None =>
      forall j | 0 <= j < |rows| ensures RowKey(rows[j]) != Some((c, g)) {
        MatchesIffKey(rows[j], c, g);
      }
      assert forall j :: 0 <= j < |rows| ==> r[j] == rows[j];
  }

  /**
    Round trip: after an upsert into well-formed rows, loading the rows assigns the
    upserted value to the upserted key last.
   */
  lemma UpsertThenLoad(rows: seq<EfficacyRow>, c: ComponentType, g: TaskOrBehavior, v: real)
    requires WellFormedRows(rows)
    ensures LastValue(EfficacyUpdates(Upsert(rows, c, g, v)), (c, g)) == Some(v)
  {
    var r := Upsert(rows, c, g, v);
    UpsertKeepsWellFormed(rows, c, g, v);
    match FirstMatch(rows, c, g)
    case Some(i) =>
      MatchesIffKey(rows[i], c, g);
      assert RowKey(r[i]) == Some((c, g));
      LastRowWins(r, (c, g), i);
    case None =>
      assert RowKey(r[|rows|]) == Some((c, g));
      LastRowWins(r, (c, g), |rows|);
  }

  // ---------------------------------------------------------------- the store

  /** The contents of the four tables at one moment. */
  datatype StoredRows = StoredRows(
    efficacy: seq<EfficacyRow>,
    positions: seq<PositionRow>,
    models: seq<ModelRow>,
    domains: seq<DomainRow>)

  /** The four efficacy tables of the database. */
  class EfficacyDatabase {
    var efficacyRows: seq<EfficacyRow>
    var positionRows: seq<PositionRow>
    var modelRows: seq<ModelRow>
    var domainRows: seq<DomainRow>

    function Rows(): StoredRows
      reads this
    {
      StoredRows(efficacyRows, positionRows, modelRows, domainRows)
    }

    predicate Valid()
      reads this
    {
      WellFormedRows(efficacyRows)
    }

    constructor(efficacy: seq<EfficacyRow>, positions: seq<PositionRow>, models: seq<ModelRow>, domains: seq<DomainRow>)
      ensures efficacyRows == efficacy && positionRows == positions
      ensures modelRows == models && domainRows == domains
    {
      efficacyRows := efficacy;
      positionRows := positions;
      modelRows := models;
      domainRows := domains;
    }

    /** The database half of `update_efficacy`: the upsert is kept only when the commit succeeds. */
    method CommitEfficacy(c: ComponentType, g: TaskOrBehavior, v: real, commitOk: bool)
      requires Valid()
      modifies this
      ensures Valid()
      ensures Rows() == if commitOk then old(Rows()).(efficacy := Upsert(old(efficacyRows), c, g, v)) else old(Rows())
    {
      if commitOk {
        UpsertKeepsWellFormed(efficacyRows, c, g, v);
        efficacyRows := Upsert(efficacyRows, c, g, v);
      }
    }
  }
}
