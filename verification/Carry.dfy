/** Carrying the vector tables from one database into another, exactly or not at all (`extension_data.py`). */
module Carry {
  import opened Results

  type Table = string
  type Column = string
  datatype Value = Null | Int(n: int) | Text(s: string)
  type Row = map<Column, Value>
  type Rows = map<Table, seq<Row>>

  /** In foreign-key order. */
  const CARRIED_TABLES: seq<Table> := [
    "malu$vector_subject", "malu$vector_verb", "malu$vector_compartment", "malu$vector_chunk",
    "malu$vector_tombstone", "malu$ann_index", "malu$ann_delta" ]

  datatype ForeignKey = ForeignKey(child: Table, column: Column, parent: Table, parentColumn: Column)

  /** A sequence owned by a column; `nextval` returns `last` itself while `called` is false. */
  datatype Sequence = Sequence(table: Table, column: Column, increment: int, last: int, called: bool)

  /** The target's catalogue. A table without columns does not exist. */
  datatype Schema = Schema(columns: map<Table, seq<Column>>, defaults: map<(Table, Column), Value>, keys: seq<ForeignKey>)

  /** What the source answers. Its rows are read once by `copy_out` and once more by each `count`, so the three
      answers need not agree. `linked` counts the rows with a value in a column; it is None, an SQL error, where
      the source has no such column. */
  datatype Source = Source(registered: map<Table, string>, columns: map<Table, seq<Column>>,
                           rows: map<Table, seq<Row>>, counted: map<Table, nat>,
                           linked: (Table, Column) -> Option<nat>)

  datatype CarryError =
    | RegisteredWithFilter(table: Table)
    | MissingInTarget(table: Table)
    | ColumnsLost(table: Table)
    | TargetHoldsRows(table: Table)
    | SourceQueryFailed(table: Table, column: Column)
    | LinkedOutside(table: Table, column: Column)
    | KeyViolated(table: Table)
    | CountDiffers(table: Table)
    | ConnectionLost

  /** Where the connection breaks, if it does. */
  datatype Fault = NoFault | WhilePlanning | AtCopy(table: Table) | AtSetval(index: nat) | AtCommit

  datatype Planned = Planned(table: Table, columns: seq<Column>)
  datatype Plan = Plan(tables: seq<Planned>, byDump: seq<Table>)
  datatype Report = Report(rows: map<Table, nat>, byDump: seq<Table>)

  function Of<T>(m: map<Table, seq<T>>, t: Table): seq<T> {
    if t in m then m[t] else []
  }

  function Get(row: Row, c: Column): Value {
    if c in row then row[c] else Null
  }

  // ------------------------------------------------------------ the decisions

  predicate Loses(source: seq<Column>, target: seq<Column>) {
    exists c <- source :: c !in target
  }

  /** The first loop of `carry`, from the tables still to be looked at. */
  function PlanRest(source: Source, schema: Schema, rows: Rows, todo: seq<Table>, plan: Plan): Result<Plan, CarryError>
    decreases |todo|
  {
    if todo == [] then Ok(plan)
    else
      var t := todo[0];
      var from, to := Of(source.columns, t), Of(schema.columns, t);
      if t in source.registered then
        if source.registered[t] != "" then Raised(RegisteredWithFilter(t))
        else PlanRest(source, schema, rows, todo[1..], plan.(byDump := plan.byDump + [t]))
      else if from == [] then PlanRest(source, schema, rows, todo[1..], plan)
      else if to == [] then Raised(MissingInTarget(t))
      else if Loses(from, to) then Raised(ColumnsLost(t))
      else if Of(rows, t) != [] then Raised(TargetHoldsRows(t))
      else PlanRest(source, schema, rows, todo[1..], plan.(tables := plan.tables + [Planned(t, from)]))
  }

  function Tables(plan: seq<Planned>): set<Table> {
    set p <- plan :: p.table
  }

  /** `_links_outside`, then the count of each link it finds. */
  function LinkError(source: Source, keys: seq<ForeignKey>, planned: set<Table>): Option<CarryError> {
    if keys == [] then None
    else
      var k := keys[0];
      if k.child !in planned || k.parent in planned then LinkError(source, keys[1..], planned)
      else match source.linked(k.child, k.column)
        case None => Some(SourceQueryFailed(k.child, k.column))
        case Some(n) => if n > 0 then Some(LinkedOutside(k.child, k.column)) else LinkError(source, keys[1..], planned)
  }

  /** A copied row: the source's value in the columns it has, the default in the others. */
  function Fill(schema: Schema, p: Planned, row: Row): Row {
    map c | c in Of(schema.columns, p.table) ::
      if c in p.columns then Get(row, c)
      else if (p.table, c) in schema.defaults then schema.defaults[(p.table, c)] else Null
  }

  function FillAll(schema: Schema, p: Planned, rows: seq<Row>): (r: seq<Row>)
    ensures |r| == |rows| && forall i :: 0 <= i < |rows| ==> r[i] == Fill(schema, p, rows[i])
  {
    seq(|rows|, i requires 0 <= i < |rows| => Fill(schema, p, rows[i]))
  }

  predicate KeyHolds(rows: Rows, k: ForeignKey) {
    forall r <- Of(rows, k.child) ::
      Get(r, k.column) != Null ==> exists q <- Of(rows, k.parent) :: Get(q, k.parentColumn) == Get(r, k.column)
  }

  /** One `COPY table (columns) FROM STDIN`, with its foreign keys checked at the end of the statement. */
  function Copied(source: Source, schema: Schema, rows: Rows, p: Planned): Rows {
    rows[p.table := Of(rows, p.table) + FillAll(schema, p, Of(source.rows, p.table))]
  }

  predicate CopyAccepted(schema: Schema, rows: Rows, t: Table) {
    forall k <- schema.keys :: k.child == t ==> KeyHolds(rows, k)
  }

  /** The copying loop: the loaded rows, or the error that stops it. */
  function CopyRest(source: Source, schema: Schema, rows: Rows, todo: seq<Planned>, fault: Fault): Result<Rows, CarryError>
    decreases |todo|
  {
    if todo == [] then Ok(rows)
    else
      var p := todo[0];
      var next := Copied(source, schema, rows, p);
      if fault == AtCopy(p.table) then Raised(ConnectionLost)
      else if !CopyAccepted(schema, next, p.table) then Raised(KeyViolated(p.table))
      else if p.table !in source.counted || |next[p.table]| != source.counted[p.table] then Raised(CountDiffers(p.table))
      else CopyRest(source, schema, next, todo[1..], fault)
  }

  /** `SELECT max(column)`, which skips nulls. */
  function MaxInt(rows: seq<Row>, c: Column): Option<int> {
    if rows == [] then None
    else
      var rest := MaxInt(rows[1..], c);
      match Get(rows[0], c)
      case Int(n) => if rest.None? || n > rest.value then Some(n) else rest
      case _ => rest
  }

  /** `setval(seq, GREATEST(max, 1), max IS NOT NULL)` */
  function Repaired(s: Sequence, rows: Rows): Sequence {
    match MaxInt(Of(rows, s.table), s.column)
    case None => s.(last := 1, called := false)
    case Some(m) => s.(last := if m > 1 then m else 1, called := true)
  }

  /** The sequences after the `setval` loop has dealt with the first `n` of them. */
  function RepairedTo(sequences: seq<Sequence>, planned: set<Table>, rows: Rows, n: nat): (r: seq<Sequence>)
    requires n <= |sequences|
    ensures |r| == |sequences|
  {
    seq(|sequences|, i requires 0 <= i < |sequences| =>
      if i < n && sequences[i].table in planned then Repaired(sequences[i], rows) else sequences[i])
  }

  datatype Outcome = Outcome(rows: Rows, sequences: seq<Sequence>, result: Result<Report, CarryError>)

  /** How far the `setval` loop gets. */
  function Reached(sequences: seq<Sequence>, planned: set<Table>, fault: Fault): (n: nat)
    ensures n <= |sequences|
  {
    if fault.AtSetval? && fault.index < |sequences| && sequences[fault.index].table in planned
    then fault.index else |sequences|
  }

  function Count(plan: seq<Planned>, rows: Rows): map<Table, nat> {
    map t | t in Tables(plan) :: |Of(rows, t)|
  }

  /** All of `carry`. */
  function Run(source: Source, schema: Schema, rows: Rows, sequences: seq<Sequence>, fault: Fault): Outcome {
    match PlanRest(source, schema, rows, CARRIED_TABLES, Plan([], []))
    case Raised(e) => Outcome(rows, sequences, Raised(e))
    case Ok(plan) =>
      if fault == WhilePlanning then Outcome(rows, sequences, Raised(ConnectionLost))
      else match LinkError(source, schema.keys, Tables(plan.tables))
      case Some(e) => Outcome(rows, sequences, Raised(e))
      case None =>
        match CopyRest(source, schema, rows, plan.tables, fault)
        case Raised(e) => Outcome(rows, sequences, Raised(e))
        case Ok(loaded) =>
          var n := Reached(sequences, Tables(plan.tables), fault);
          var repaired := RepairedTo(sequences, Tables(plan.tables), loaded, n);
          if n < |sequences| || fault == AtCommit then Outcome(rows, repaired, Raised(ConnectionLost))
          else Outcome(loaded, repaired, Ok(Report(Count(plan.tables, loaded), plan.byDump)))
  }

  /** The target connection, in one transaction. */
  class Target {
    const schema: Schema
    var rows: Rows
    var sequences: seq<Sequence>

    constructor (schema: Schema, rows: Rows, sequences: seq<Sequence>)
      ensures this.schema == schema && this.rows == rows && this.sequences == sequences
    {
      this.schema, this.rows, this.sequences := schema, rows, sequences;
    }

    method BuildPlan(source: Source) returns (r: Result<Plan, CarryError>)
      ensures r == PlanRest(source, schema, rows, CARRIED_TABLES, Plan([], []))
    {
      var plan := Plan([], []);
      var i := 0;
      while i < |CARRIED_TABLES|
        invariant 0 <= i <= |CARRIED_TABLES|
        invariant PlanRest(source, schema, rows, CARRIED_TABLES[i..], plan)
                  == PlanRest(source, schema, rows, CARRIED_TABLES, Plan([], []))
      {
        var table := CARRIED_TABLES[i];
        assert CARRIED_TABLES[i..][1..] == CARRIED_TABLES[i + 1..];
        i := i + 1;
        if table in source.registered {
          if source.registered[table] != "" {
            return Raised(RegisteredWithFilter(table));
          }
          plan := plan.(byDump := plan.byDump + [table]);
          continue;
        }
        var sourceColumns, targetColumns := Of(source.columns, table), Of(schema.columns, table);
        if sourceColumns == [] {
          continue;
        }
        if targetColumns == [] {
          return Raised(MissingInTarget(table));
        }
        if Loses(sourceColumns, targetColumns) {
          return Raised(ColumnsLost(table));
        }
        if Of(rows, table) != [] {
          return Raised(TargetHoldsRows(table));
        }
        plan := plan.(tables := plan.tables + [Planned(table, sourceColumns)]);
      }
      r := Ok(plan);
    }

    method CheckLinks(source: Source, planned: set<Table>) returns (e: Option<CarryError>)
      ensures e == LinkError(source, schema.keys, planned)
    {
      var i := 0;
      while i < |schema.keys|
        invariant 0 <= i <= |schema.keys|
        invariant LinkError(source, schema.keys[i..], planned) == LinkError(source, schema.keys, planned)
      {
        var k := schema.keys[i];
        assert schema.keys[i..][1..] == schema.keys[i + 1..];
        i := i + 1;
        if k.child in planned && k.parent !in planned {
          var linked := source.linked(k.child, k.column);
          if linked.None? {
            return Some(SourceQueryFailed(k.child, k.column));
          }
          if linked.value > 0 {
            return Some(LinkedOutside(k.child, k.column));
          }
        }
      }
      e := None;
    }

    /** The copying loop, inside the transaction: on an error the rows already copied are still there. */
    method CopyAll(source: Source, plan: seq<Planned>, fault: Fault) returns (e: Option<CarryError>)
      modifies this`rows
      ensures match CopyRest(source, schema, old(rows), plan, fault)
        case Ok(loaded) => e == None && rows == loaded
        case Raised(error) => e == Some(error)
    {
      var i := 0;
      while i < |plan|
        invariant 0 <= i <= |plan|
        invariant CopyRest(source, schema, rows, plan[i..], fault) == CopyRest(source, schema, old(rows), plan, fault)
      {
        var p := plan[i];
        assert plan[i..][1..] == plan[i + 1..];
        if fault == AtCopy(p.table) {
          return Some(ConnectionLost);
        }
        rows := rows[p.table := Of(rows, p.table) + FillAll(schema, p, Of(source.rows, p.table))];
        if !CopyAccepted(schema, rows, p.table) {
          return Some(KeyViolated(p.table));
        }
        var carried := |rows[p.table]|;
        if p.table !in source.counted || carried != source.counted[p.table] {
          return Some(CountDiffers(p.table));
        }
        i := i + 1;
      }
      e := None;
    }

    /** The `setval` loop. Sequences are not part of the transaction. */
    method RepairSequences(planned: set<Table>, fault: Fault) returns (ok: bool)
      modifies this`sequences
      ensures sequences == RepairedTo(old(sequences), planned, rows, Reached(old(sequences), planned, fault))
      ensures ok <==> Reached(old(sequences), planned, fault) == |old(sequences)|
    {
      var i := 0;
      while i < |sequences|
        invariant 0 <= i <= |sequences| == |old(sequences)|
        invariant i <= Reached(old(sequences), planned, fault)
        invariant sequences == RepairedTo(old(sequences), planned, rows, i)
      {
        if sequences[i].table in planned {
          if fault == AtSetval(i) {
            return false;
          }
          sequences := sequences[i := Repaired(sequences[i], rows)];
        }
        i := i + 1;
      }
      ok := true;
    }

    method Carry(source: Source, fault: Fault) returns (r: Result<Report, CarryError>)
      modifies this`rows, this`sequences
      ensures Outcome(rows, sequences, r) == Run(source, schema, old(rows), old(sequences), fault)
    {
      hide PlanRest, LinkError, CopyRest, RepairedTo, Reached, Count;
      var saved := rows;
      var plan := BuildPlan(source);
      if plan.Raised? {
        return Raised(plan.error);
      }
      if fault == WhilePlanning {
        return Raised(ConnectionLost);
      }
      var planned := set p <- plan.value.tables :: p.table;
      var error := CheckLinks(source, planned);
      if error.None? {
        error := CopyAll(source, plan.value.tables, fault);
      }
      if error.Some? {
        rows := saved;
        return Raised(error.value);
      }
      var repaired := RepairSequences(planned, fault);
      if !repaired || fault == AtCommit {
        rows := saved;
        return Raised(ConnectionLost);
      }
      r := Ok(Report(Count(plan.value.tables, rows), plan.value.byDump));
    }
  }

  // --------------------------------------------------------------- the plan

  /** A table the carry takes on: the source has it, and the dump does not carry it. */
  predicate Taken(source: Source, t: Table) {
    t !in source.registered && Of(source.columns, t) != []
  }

  /** Nothing in the catalogues or the target stands in the way of table `t`. */
  predicate Plannable(source: Source, schema: Schema, rows: Rows, t: Table) {
    && (t in source.registered ==> source.registered[t] == "")
    && (Taken(source, t) ==>
          && Of(schema.columns, t) != []
          && (forall c <- Of(source.columns, t) :: c in Of(schema.columns, t))
          && Of(rows, t) == [])
  }

  function TakenOf(source: Source, todo: seq<Table>): seq<Planned> {
    if todo == [] then []
    else if Taken(source, todo[0]) then [Planned(todo[0], Of(source.columns, todo[0]))] + TakenOf(source, todo[1..])
    else TakenOf(source, todo[1..])
  }

  lemma {:induction false} TakenIs(source: Source, todo: seq<Table>, p: Planned)
    ensures p in TakenOf(source, todo)
            <==> p.table in todo && Taken(source, p.table) && p.columns == Of(source.columns, p.table)
  {
    hide Taken;
    if todo != [] {
      TakenIs(source, todo[1..], p);
      assert p.table in todo <==> p.table == todo[0] || p.table in todo[1..];
    }
  }

  function RegisteredOf(source: Source, todo: seq<Table>): seq<Table> {
    if todo == [] then []
    else (if todo[0] in source.registered then [todo[0]] else []) + RegisteredOf(source, todo[1..])
  }

  ghost predicate AllPlannable(source: Source, schema: Schema, rows: Rows, todo: seq<Table>) {
    forall t <- todo :: Plannable(source, schema, rows, t)
  }

  lemma {:induction false} AllPlannableCons(source: Source, schema: Schema, rows: Rows, todo: seq<Table>)
    requires todo != []
    ensures AllPlannable(source, schema, rows, todo)
            <==> Plannable(source, schema, rows, todo[0]) && AllPlannable(source, schema, rows, todo[1..])
  {
    hide Plannable;
    assert forall t :: t in todo <==> t == todo[0] || t in todo[1..];
  }

  lemma {:induction false} PlanIs(source: Source, schema: Schema, rows: Rows, todo: seq<Table>, plan: Plan)
    ensures var r := PlanRest(source, schema, rows, todo, plan);
      && (r.Ok? <==> AllPlannable(source, schema, rows, todo))
      && (r.Ok? ==> r.value == Plan(plan.tables + TakenOf(source, todo), plan.byDump + RegisteredOf(source, todo)))
    decreases |todo|
  {
    hide AllPlannable, Loses;
    if todo == [] {
      NothingPlannable(source, schema, rows);
      assert plan.tables + [] == plan.tables && plan.byDump + [] == plan.byDump;
    } else {
      var t, rest := todo[0], todo[1..];
      AllPlannableCons(source, schema, rows, todo);
      LosesIs(Of(source.columns, t), Of(schema.columns, t));
      if t in source.registered {
        PlanIs(source, schema, rows, rest, plan.(byDump := plan.byDump + [t]));
        assert plan.byDump + [t] + RegisteredOf(source, rest) == plan.byDump + ([t] + RegisteredOf(source, rest));
      } else if Of(source.columns, t) == [] {
        PlanIs(source, schema, rows, rest, plan);
        assert [] + RegisteredOf(source, rest) == RegisteredOf(source, rest);
      } else {
        var p := Planned(t, Of(source.columns, t));
        PlanIs(source, schema, rows, rest, plan.(tables := plan.tables + [p]));
        assert plan.tables + [p] + TakenOf(source, rest) == plan.tables + ([p] + TakenOf(source, rest));
        assert [] + RegisteredOf(source, rest) == RegisteredOf(source, rest);
      }
    }
  }

  lemma {:induction false} NothingPlannable(source: Source, schema: Schema, rows: Rows)
    ensures AllPlannable(source, schema, rows, [])
  {
  }

  lemma {:induction false} LosesIs(source: seq<Column>, target: seq<Column>)
    ensures Loses(source, target) <==> !forall c <- source :: c in target
  {
  }

  /** A planning that stops does so at the first table that cannot be planned, and says what is wrong with it. */
  lemma {:induction false} PlanRefusal(source: Source, schema: Schema, rows: Rows, todo: seq<Table>, plan: Plan)
      returns (i: nat)
    requires PlanRest(source, schema, rows, todo, plan).Raised?
    ensures i < |todo| && AllPlannable(source, schema, rows, todo[..i]) && !Plannable(source, schema, rows, todo[i])
    ensures var t, error := todo[i], PlanRest(source, schema, rows, todo, plan).error;
      && (t in source.registered ==> error == RegisteredWithFilter(t))
      && (t !in source.registered ==>
            if t !in schema.columns || schema.columns[t] == [] then error == MissingInTarget(t)
            else if exists c <- source.columns[t] :: c !in schema.columns[t] then error == ColumnsLost(t)
            else error == TargetHoldsRows(t))
    decreases |todo|
  {
    var t, rest := todo[0], todo[1..];
    LosesIs(Of(source.columns, t), Of(schema.columns, t));
    if !Plannable(source, schema, rows, t) {
      i := 0;
    } else {
      if t in source.registered {
        i := PlanRefusal(source, schema, rows, rest, plan.(byDump := plan.byDump + [t]));
      } else if Of(source.columns, t) == [] {
        i := PlanRefusal(source, schema, rows, rest, plan);
      } else {
        i := PlanRefusal(source, schema, rows, rest, plan.(tables := plan.tables + [Planned(t, Of(source.columns, t))]));
      }
      assert todo[..i + 1][1..] == rest[..i] && todo[..i + 1][0] == t;
      AllPlannableCons(source, schema, rows, todo[..i + 1]);
      i := i + 1;
    }
  }

  ghost predicate Distinct(tables: seq<Table>) {
    forall i, j :: 0 <= i < j < |tables| ==> tables[i] != tables[j]
  }

  /** Where the `j`-th planned table stands in the list. */
  lemma {:induction false} PlannedAt(source: Source, todo: seq<Table>, j: nat) returns (at: nat)
    requires j < |TakenOf(source, todo)|
    ensures at < |todo| && TakenOf(source, todo)[j].table == todo[at]
    ensures TakenOf(source, todo[..at]) == TakenOf(source, todo)[..j]
  {
    hide Taken;
    var rest := todo[1..];
    if Taken(source, todo[0]) && j == 0 {
      at := 0;
    } else {
      var skip := if Taken(source, todo[0]) then 1 else 0;
      var k := PlannedAt(source, rest, j - skip);
      at := k + 1;
      assert todo[..at] == [todo[0]] + rest[..k];
      TakenCons(source, todo[0], rest[..k]);
    }
  }

  lemma {:induction false} TakenCons(source: Source, t: Table, rest: seq<Table>)
    ensures TakenOf(source, [t] + rest)
            == (if Taken(source, t) then [Planned(t, Of(source.columns, t))] else []) + TakenOf(source, rest)
  {
    assert ([t] + rest)[1..] == rest;
  }

  // --------------------------------------------------- exactly, or not at all

  function Loaded(source: Source, schema: Schema, rows: Rows, plan: seq<Planned>): Rows {
    if plan == [] then rows
    else Copied(source, schema, Loaded(source, schema, rows, plan[..|plan| - 1]), plan[|plan| - 1])
  }

  /** A copy that satisfied every key and came out as many rows as the source counted. */
  predicate CopyCounts(source: Source, schema: Schema, after: Rows, t: Table) {
    CopyAccepted(schema, after, t) && t in source.counted && t in after && |after[t]| == source.counted[t]
  }

  lemma {:induction false} CopyLoads(source: Source, schema: Schema, rows: Rows, plan: seq<Planned>, fault: Fault)
    ensures var r := CopyRest(source, schema, rows, plan, fault);
            r.Ok? ==>
              && r.value == Loaded(source, schema, rows, plan)
              && forall j :: 0 <= j < |plan| ==>
                   CopyCounts(source, schema, Loaded(source, schema, rows, plan[..j + 1]), plan[j].table)
  {
    assert plan[..0] == [] && plan[0..] == plan;
    CopiesLoad(source, schema, rows, plan, 0, fault);
  }

  ghost predicate DistinctTables(plan: seq<Planned>) {
    forall i, j :: 0 <= i < j < |plan| ==> plan[i].table != plan[j].table
  }

  lemma {:induction false} CopiedOwn(source: Source, schema: Schema, rows: Rows, p: Planned)
    requires Of(rows, p.table) == []
    ensures p.table in Copied(source, schema, rows, p)
    ensures Of(Copied(source, schema, rows, p), p.table) == FillAll(schema, p, Of(source.rows, p.table))
  {
    hide FillAll;
    assert [] + FillAll(schema, p, Of(source.rows, p.table)) == FillAll(schema, p, Of(source.rows, p.table));
  }

  lemma {:induction false} CopiedOther(source: Source, schema: Schema, rows: Rows, p: Planned, t: Table)
    requires t != p.table
    ensures Of(Copied(source, schema, rows, p), t) == Of(rows, t)
    ensures t in rows ==> t in Copied(source, schema, rows, p)
  {
    hide FillAll;
  }

  lemma {:induction false} LoadedLeaves(source: Source, schema: Schema, rows: Rows, plan: seq<Planned>, t: Table)
    requires forall p <- plan :: p.table != t
    ensures Of(Loaded(source, schema, rows, plan), t) == Of(rows, t)
    decreases |plan|
  {
    hide Copied, Of;
    if plan != [] {
      var n := |plan| - 1;
      LoadedLeaves(source, schema, rows, plan[..n], t);
      assert plan[n] in plan;
      CopiedOther(source, schema, Loaded(source, schema, rows, plan[..n]), plan[n], t);
    }
  }

  lemma {:induction false} LoadedIs(source: Source, schema: Schema, rows: Rows, plan: seq<Planned>, i: nat)
    requires DistinctTables(plan) && i < |plan| && Of(rows, plan[i].table) == []
    ensures plan[i].table in Loaded(source, schema, rows, plan)
    ensures Of(Loaded(source, schema, rows, plan), plan[i].table)
            == FillAll(schema, plan[i], Of(source.rows, plan[i].table))
    decreases |plan|
  {
    hide Copied, Of, FillAll;
    var n, t := |plan| - 1, plan[i].table;
    if i == n {
      LoadedLeaves(source, schema, rows, plan[..n], t);
      CopiedOwn(source, schema, Loaded(source, schema, rows, plan[..n]), plan[n]);
    } else {
      LoadedIs(source, schema, rows, plan[..n], i);
      CopiedOther(source, schema, Loaded(source, schema, rows, plan[..n]), plan[n], t);
    }
  }

  lemma {:induction false} LoadedNext(source: Source, schema: Schema, rows: Rows, plan: seq<Planned>, i: nat)
    requires i < |plan|
    ensures Loaded(source, schema, rows, plan[..i + 1]) == Copied(source, schema, Loaded(source, schema, rows, plan[..i]), plan[i])
  {
    hide Copied;
    assert plan[..i + 1][..i] == plan[..i];
  }

  lemma {:induction false} CopiesLoad(source: Source, schema: Schema, rows: Rows, plan: seq<Planned>, i: nat, fault: Fault)
    requires i <= |plan|
    ensures var r := CopyRest(source, schema, Loaded(source, schema, rows, plan[..i]), plan[i..], fault);
            r.Ok? ==>
              && r.value == Loaded(source, schema, rows, plan)
              && forall j :: i <= j < |plan| ==>
                   CopyCounts(source, schema, Loaded(source, schema, rows, plan[..j + 1]), plan[j].table)
    decreases |plan| - i
  {
    hide CopyAccepted, Loaded;
    if i == |plan| {
      assert plan[..i] == plan;
    } else {
      LoadedNext(source, schema, rows, plan, i);
      assert plan[i..][1..] == plan[i + 1..];
      CopiesLoad(source, schema, rows, plan, i + 1, fault);
    }
  }

  lemma {:induction false} DistinctPlan(source: Source, todo: seq<Table>)
    requires Distinct(todo)
    ensures DistinctTables(TakenOf(source, todo))
  {
    hide Taken;
    if todo != [] {
      var rest := todo[1..];
      DistinctPlan(source, rest);
      forall p | p in TakenOf(source, rest) ensures p.table != todo[0] {
        TakenIs(source, rest, p);
      }
    }
  }

  lemma {:induction false} CarriedTablesAreDistinct()
    ensures Distinct(CARRIED_TABLES)
  {
    var c := CARRIED_TABLES;
    assert |c[0]| == 19 && |c[1]| == 16 && |c[2]| == 23 && |c[3]| == 17 && |c[4]| == 21 && |c[5]| == 14 && |c[6]| == 14;
    assert c[5][9] != c[6][9];
  }

  function Planning(source: Source): seq<Planned> {
    TakenOf(source, CARRIED_TABLES)
  }

  /** A carry that raises leaves every table as it was. One that returns leaves every planned table with
      exactly the rows that were copied out, source columns kept and further columns at their defaults, as
      many as the source counted; and every other table as it was. */
  lemma {:induction false} ExactOrNothing(source: Source, schema: Schema, rows: Rows, sequences: seq<Sequence>, fault: Fault)
    ensures var out := Run(source, schema, rows, sequences, fault);
      match out.result
      case Raised(_) => out.rows == rows
      case Ok(report) =>
        && (forall p <- Planning(source) ::
              && Of(rows, p.table) == []
              && Of(out.rows, p.table) == FillAll(schema, p, Of(source.rows, p.table))
              && p.table in source.counted && |Of(source.rows, p.table)| == source.counted[p.table]
              && p.table in report.rows && report.rows[p.table] == |Of(source.rows, p.table)|)
        && (forall t :: t !in Tables(Planning(source)) ==> Of(out.rows, t) == Of(rows, t))
        && report.rows.Keys == Tables(Planning(source))
        && report.byDump == RegisteredOf(source, CARRIED_TABLES)
  {
    hide Taken, Fill, CopyRest, PlanRest, LinkError, Loaded, RegisteredOf;
    RunLoads(source, schema, rows, sequences, fault);
    if Run(source, schema, rows, sequences, fault).result.Ok? {
      forall t | t !in Tables(Planning(source))
        ensures Of(Loaded(source, schema, rows, Planning(source)), t) == Of(rows, t)
      {
        LoadedLeaves(source, schema, rows, Planning(source), t);
      }
      forall p <- Planning(source) ensures PlannedAsCopied(source, schema, rows, p) {
        PlannedIsCopied(source, schema, rows, fault, p);
      }
    }
  }

  /** What the target holds after a carry that returned, value by value: each row of a taken table, in its place, has just the
      target's columns; where the source has the column the source's own value, elsewhere the target's default or null. */
  lemma {:induction false} CarriedValues(
      source: Source, schema: Schema, rows: Rows, sequences: seq<Sequence>, fault: Fault, t: Table, i: nat, c: Column)
    requires Run(source, schema, rows, sequences, fault).result.Ok?
    requires t in ["malu$vector_subject", "malu$vector_verb", "malu$vector_compartment", "malu$vector_chunk",
                   "malu$vector_tombstone", "malu$ann_index", "malu$ann_delta"]
    requires t !in source.registered && t in source.columns && source.columns[t] != []
    requires t in source.rows && i < |source.rows[t]|
    ensures var after := Run(source, schema, rows, sequences, fault).rows;
      && t in after && |after[t]| == |source.rows[t]|
      && t in schema.columns && (forall d <- source.columns[t] :: d in schema.columns[t])
      && (c in after[t][i] <==> c in schema.columns[t])
      && (c in source.columns[t] && c in source.rows[t][i] ==> after[t][i][c] == source.rows[t][i][c])
      && (c in source.columns[t] && c !in source.rows[t][i] ==> after[t][i][c] == Null)
      && (c in schema.columns[t] && c !in source.columns[t] && (t, c) in schema.defaults ==>
            after[t][i][c] == schema.defaults[(t, c)])
      && (c in schema.columns[t] && c !in source.columns[t] && (t, c) !in schema.defaults ==> after[t][i][c] == Null)
  {
    hide CopyRest, PlanRest, LinkError, Loaded, RegisteredOf, TakenOf, Run;
    var p := Planned(t, source.columns[t]);
    TakenIs(source, CARRIED_TABLES, p);
    ExactOrNothing(source, schema, rows, sequences, fault);
    RunLoads(source, schema, rows, sequences, fault);
    assert Plannable(source, schema, rows, t);
    var after := Run(source, schema, rows, sequences, fault).rows;
    assert Of(after, t) == FillAll(schema, p, Of(source.rows, t));
    assert after[t][i] == Fill(schema, p, source.rows[t][i]);
  }

  /** Every table that is not one of the seven, that the dump carries, or that the source does not have, is left alone and
      not reported as copied. */
  lemma {:induction false} NothingElseIsCarried(
      source: Source, schema: Schema, rows: Rows, sequences: seq<Sequence>, fault: Fault, t: Table)
    requires t !in ["malu$vector_subject", "malu$vector_verb", "malu$vector_compartment", "malu$vector_chunk",
                    "malu$vector_tombstone", "malu$ann_index", "malu$ann_delta"]
             || t in source.registered || t !in source.columns || source.columns[t] == []
    ensures var out := Run(source, schema, rows, sequences, fault);
      Of(out.rows, t) == Of(rows, t) && (out.result.Ok? ==> t !in out.result.value.rows)
  {
    hide CopyRest, PlanRest, LinkError, Loaded, RegisteredOf, TakenOf, Run;
    TakenIs(source, CARRIED_TABLES, Planned(t, Of(source.columns, t)));
    forall p <- Planning(source) ensures p.table != t {
      TakenIs(source, CARRIED_TABLES, p);
    }
    ExactOrNothing(source, schema, rows, sequences, fault);
  }

  ghost predicate PlannedAsCopied(source: Source, schema: Schema, rows: Rows, p: Planned) {
    && Of(rows, p.table) == []
    && Of(Loaded(source, schema, rows, Planning(source)), p.table) == FillAll(schema, p, Of(source.rows, p.table))
    && p.table in source.counted && |Of(source.rows, p.table)| == source.counted[p.table]
  }

  lemma {:induction false} RunLoads(source: Source, schema: Schema, rows: Rows, sequences: seq<Sequence>, fault: Fault)
    ensures var plan, out := Planning(source), Run(source, schema, rows, sequences, fault);
      && (out.result.Raised? ==> out.rows == rows)
      && (out.result.Ok? ==>
            && AllPlannable(source, schema, rows, CARRIED_TABLES)
            && LinkError(source, schema.keys, Tables(plan)).None?
            && CopyRest(source, schema, rows, plan, fault).Ok?
            && out.rows == Loaded(source, schema, rows, plan)
            && out.result.value == Report(Count(plan, out.rows), RegisteredOf(source, CARRIED_TABLES)))
  {
    hide AllPlannable, TakenOf, Fill, CopyRest, PlanRest, LinkError, Loaded, RegisteredOf, CopyAccepted;
    var plan := Planning(source);
    PlanIs(source, schema, rows, CARRIED_TABLES, Plan([], []));
    assert [] + plan == plan && [] + RegisteredOf(source, CARRIED_TABLES) == RegisteredOf(source, CARRIED_TABLES);
    CopyLoads(source, schema, rows, plan, fault);
  }

  lemma {:induction false} PlannedIsCopied(source: Source, schema: Schema, rows: Rows, fault: Fault, p: Planned)
    requires AllPlannable(source, schema, rows, CARRIED_TABLES) && p in Planning(source)
    requires CopyRest(source, schema, rows, Planning(source), fault).Ok?
    ensures PlannedAsCopied(source, schema, rows, p)
  {
    hide AllPlannable, Taken, Fill;
    var plan := Planning(source);
    var j :| 0 <= j < |plan| && plan[j] == p;
    PlannedTablesWereEmpty(source, schema, rows);
    CopyLoads(source, schema, rows, plan, fault);
    LoadedIs(source, schema, rows, plan, j);
    CountedAt(source, schema, rows, plan, j);
  }

  lemma {:induction false} PlannedTablesWereEmpty(source: Source, schema: Schema, rows: Rows)
    requires AllPlannable(source, schema, rows, CARRIED_TABLES)
    ensures DistinctTables(Planning(source))
    ensures forall p <- Planning(source) :: Of(rows, p.table) == []
  {
    CarriedTablesAreDistinct();
    DistinctPlan(source, CARRIED_TABLES);
    forall p <- Planning(source) ensures Of(rows, p.table) == [] {
      TakenIs(source, CARRIED_TABLES, p);
      assert Plannable(source, schema, rows, p.table);
    }
  }

  lemma {:induction false} CountedAt(source: Source, schema: Schema, rows: Rows, plan: seq<Planned>, j: nat)
    requires DistinctTables(plan) && j < |plan| && Of(rows, plan[j].table) == []
    ensures var after := Loaded(source, schema, rows, plan[..j + 1]);
            plan[j].table in after && |after[plan[j].table]| == |Of(source.rows, plan[j].table)|
  {
    assert plan[..j + 1][j] == plan[j];
    LoadedIs(source, schema, rows, plan[..j + 1], j);
  }

  // ------------------------------------------------------------ foreign keys

  function NonNull(rows: seq<Row>, c: Column): nat {
    if rows == [] then 0 else (if Get(rows[0], c) != Null then 1 else 0) + NonNull(rows[1..], c)
  }

  /** A source that does not change while it is read, and is asked only for columns it has. */
  ghost predicate Steady(source: Source) {
    && (forall t <- source.columns :: Of(source.columns, t) != [] ==>
          t in source.counted && source.counted[t] == |Of(source.rows, t)|)
    && forall t, c :: source.linked(t, c)
         == if c in Of(source.columns, t) then Some(NonNull(Of(source.rows, t), c)) else None
  }

  /** A key of a listed table leads to a table listed no later than it. */
  ghost predicate InOrder(tables: seq<Table>, k: ForeignKey) {
    forall i, j :: 0 <= i < |tables| && 0 <= j < |tables| && tables[j] == k.child && tables[i] == k.parent ==> i <= j
  }

  /** Between two taken tables the source satisfies the key where it has the column, and the target adds the
      column empty where it does not. */
  ghost predicate SourceKeeps(source: Source, schema: Schema, k: ForeignKey) {
    Taken(source, k.child) && Taken(source, k.parent) ==>
      if k.column in Of(source.columns, k.child)
      then k.parentColumn in Of(source.columns, k.parent) && KeyHolds(source.rows, k)
      else (k.child, k.column) in schema.defaults ==> schema.defaults[(k.child, k.column)] == Null
  }

  /** No taken row is linked to a table that is not taken, and the source has the columns that could link it. */
  ghost predicate Unlinked(source: Source, planned: set<Table>, k: ForeignKey) {
    k.child in planned && k.parent !in planned ==>
      && k.column in Of(source.columns, k.child)
      && forall r <- Of(source.rows, k.child) :: Get(r, k.column) == Null
  }

  lemma {:induction false} NonNullIs(rows: seq<Row>, c: Column)
    ensures NonNull(rows, c) == 0 <==> forall r <- rows :: Get(r, c) == Null
  {
    if rows != [] {
      NonNullIs(rows[1..], c);
      assert forall r :: r in rows <==> r == rows[0] || r in rows[1..];
    }
  }

  lemma {:induction false} LinksAreClearIff(source: Source, keys: seq<ForeignKey>, planned: set<Table>)
    requires Steady(source)
    ensures LinkError(source, keys, planned).None? <==> forall k <- keys :: Unlinked(source, planned, k)
  {
    if keys != [] {
      var k := keys[0];
      LinksAreClearIff(source, keys[1..], planned);
      NonNullIs(Of(source.rows, k.child), k.column);
      var linked := source.linked(k.child, k.column);
      assert Unlinked(source, planned, k) <==> (k.child in planned && k.parent !in planned ==> linked == Some(0));
      assert (forall x <- keys :: Unlinked(source, planned, x))
        <==> Unlinked(source, planned, k) && forall x <- keys[1..] :: Unlinked(source, planned, x);
    }
  }

  /** A carry refused for its links names the first key leaving the planned tables that has rows, or cannot be counted. */
  lemma {:induction false} LinkRefusal(source: Source, keys: seq<ForeignKey>, planned: set<Table>) returns (i: nat)
    requires LinkError(source, keys, planned).Some?
    ensures i < |keys| && keys[i].child in planned && keys[i].parent !in planned
    ensures forall j :: 0 <= j < i && keys[j].child in planned && keys[j].parent !in planned ==>
              source.linked(keys[j].child, keys[j].column) == Some(0)
    ensures match source.linked(keys[i].child, keys[i].column)
      case None => LinkError(source, keys, planned) == Some(SourceQueryFailed(keys[i].child, keys[i].column))
      case Some(n) => n > 0 && LinkError(source, keys, planned) == Some(LinkedOutside(keys[i].child, keys[i].column))
  {
    var k := keys[0];
    if k.child in planned && k.parent !in planned && source.linked(k.child, k.column) != Some(0) {
      i := 0;
    } else {
      var rest := LinkRefusal(source, keys[1..], planned);
      forall j | 0 <= j < rest + 1 && keys[j].child in planned && keys[j].parent !in planned
        ensures source.linked(keys[j].child, keys[j].column) == Some(0)
      {
        assert j > 0 ==> keys[j] == keys[1..][j - 1];
      }
      i := rest + 1;
    }
  }

  /** The parent of a planned table's key, if planned at all, is loaded by the time the child is. */
  lemma {:induction false} ParentIsLoaded(source: Source, todo: seq<Table>, k: ForeignKey, j: nat)
    requires Distinct(todo) && InOrder(todo, k)
    requires j < |TakenOf(source, todo)| && TakenOf(source, todo)[j].table == k.child
    requires k.parent in Tables(TakenOf(source, todo))
    ensures k.parent in Tables(TakenOf(source, todo)[..j + 1])
  {
    hide Taken;
    var plan := TakenOf(source, todo);
    var i :| 0 <= i < |plan| && plan[i].table == k.parent;
    if i > j {
      var at := PlannedAt(source, todo, i);
      var kid := PlannedAt(source, todo, j);
      assert at <= kid;
      TakenPrefix(source, todo, at, kid);
    }
    assert plan[..j + 1][i] == plan[i];
  }

  lemma {:induction false} TakenPrefix(source: Source, todo: seq<Table>, a: nat, b: nat)
    requires a <= b <= |todo|
    ensures |TakenOf(source, todo[..a])| <= |TakenOf(source, todo[..b])|
    decreases a
  {
    if a > 0 {
      assert todo[..a] == [todo[0]] + todo[1..][..a - 1] && todo[..b] == [todo[0]] + todo[1..][..b - 1];
      TakenCons(source, todo[0], todo[1..][..a - 1]);
      TakenCons(source, todo[0], todo[1..][..b - 1]);
      TakenPrefix(source, todo[1..], a - 1, b - 1);
    }
  }

  /** After each single-table copy every foreign key of the target holds. */
  lemma {:induction false} KeyHoldsAfter(source: Source, schema: Schema, rows: Rows, k: ForeignKey, n: nat)
    requires AllPlannable(source, schema, rows, CARRIED_TABLES)
    requires n <= |Planning(source)|
    requires KeyHolds(rows, k) && SourceKeeps(source, schema, k) && InOrder(CARRIED_TABLES, k)
    requires Unlinked(source, Tables(Planning(source)), k)
    ensures KeyHolds(Loaded(source, schema, rows, Planning(source)[..n]), k)
  {
    hide Taken, AllPlannable, KeyHolds, InOrder, Unlinked, SourceKeeps, Plannable, Loaded, Copied, FillAll, TakenOf;
    var plan := Planning(source);
    var some := plan[..n];
    var loaded := Loaded(source, schema, rows, some);
    PlannedTablesWereEmpty(source, schema, rows);
    if j :| 0 <= j < n && plan[j].table == k.child {
      LoadedIs(source, schema, rows, some, j);
      TakenIs(source, CARRIED_TABLES, plan[j]);
      if k.parent in Tables(plan) {
        CarriedTablesAreDistinct();
        ParentIsLoaded(source, CARRIED_TABLES, k, j);
        var i :| 0 <= i <= j && plan[i].table == k.parent;
        LoadedIs(source, schema, rows, some, i);
        TakenIs(source, CARRIED_TABLES, plan[i]);
        assert Plannable(source, schema, rows, k.parent) by {
          ListedIsPlannable(source, schema, rows, k.parent);
        }
        InnerKeyHolds(source, schema, rows, k, plan[j], plan[i], loaded);
      } else {
        OuterKeyHolds(source, schema, k, plan[j], Tables(plan), loaded);
      }
    } else {
      LoadedLeaves(source, schema, rows, some, k.child);
      if i :| 0 <= i < n && plan[i].table == k.parent {
        LateParentKeyHolds(rows, k, loaded);
      } else {
        LoadedLeaves(source, schema, rows, some, k.parent);
        SameKeyHolds(rows, k, loaded);
      }
    }
  }

  lemma {:induction false} ListedIsPlannable(source: Source, schema: Schema, rows: Rows, t: Table)
    requires AllPlannable(source, schema, rows, CARRIED_TABLES) && t in CARRIED_TABLES
    ensures Plannable(source, schema, rows, t)
  {
  }

  lemma {:induction false} SameKeyHolds(rows: Rows, k: ForeignKey, loaded: Rows)
    requires KeyHolds(rows, k)
    requires Of(loaded, k.child) == Of(rows, k.child) && Of(loaded, k.parent) == Of(rows, k.parent)
    ensures KeyHolds(loaded, k)
  {
  }

  lemma {:induction false} LateParentKeyHolds(rows: Rows, k: ForeignKey, loaded: Rows)
    requires KeyHolds(rows, k) && Of(rows, k.parent) == []
    requires Of(loaded, k.child) == Of(rows, k.child)
    ensures KeyHolds(loaded, k)
  {
  }

  lemma {:induction false} InnerKeyHolds(
      source: Source, schema: Schema, rows: Rows, k: ForeignKey, child: Planned, parent: Planned, loaded: Rows)
    requires child == Planned(k.child, Of(source.columns, k.child)) && Taken(source, k.child)
    requires parent == Planned(k.parent, Of(source.columns, k.parent)) && Taken(source, k.parent)
    requires SourceKeeps(source, schema, k) && Plannable(source, schema, rows, k.parent)
    requires Of(loaded, k.child) == FillAll(schema, child, Of(source.rows, k.child))
    requires Of(loaded, k.parent) == FillAll(schema, parent, Of(source.rows, k.parent))
    ensures KeyHolds(loaded, k)
  {
    hide Plannable, SourceKeeps, Taken, Fill;
    forall r <- Of(loaded, k.child) | Get(r, k.column) != Null
      ensures exists q <- Of(loaded, k.parent) :: Get(q, k.parentColumn) == Get(r, k.column)
    {
      var i :| 0 <= i < |Of(source.rows, k.child)| && r == Fill(schema, child, Of(source.rows, k.child)[i]);
      InnerRowHolds(source, schema, rows, k, child, parent, loaded, Of(source.rows, k.child)[i]);
    }
  }

  lemma {:induction false} InnerRowHolds(
      source: Source, schema: Schema, rows: Rows, k: ForeignKey, child: Planned, parent: Planned, loaded: Rows, r0: Row)
    requires child == Planned(k.child, Of(source.columns, k.child)) && Taken(source, k.child)
    requires parent == Planned(k.parent, Of(source.columns, k.parent)) && Taken(source, k.parent)
    requires SourceKeeps(source, schema, k) && Plannable(source, schema, rows, k.parent)
    requires Of(loaded, k.parent) == FillAll(schema, parent, Of(source.rows, k.parent))
    requires r0 in Of(source.rows, k.child) && Get(Fill(schema, child, r0), k.column) != Null
    ensures exists q <- Of(loaded, k.parent) :: Get(q, k.parentColumn) == Get(Fill(schema, child, r0), k.column)
  {
    var r := Fill(schema, child, r0);
    assert Get(r0, k.column) == Get(r, k.column);
    var q0 :| q0 in Of(source.rows, k.parent) && Get(q0, k.parentColumn) == Get(r0, k.column);
    var m :| 0 <= m < |Of(source.rows, k.parent)| && Of(source.rows, k.parent)[m] == q0;
    var q := Fill(schema, parent, q0);
    assert Of(loaded, k.parent)[m] == q;
    assert Get(q, k.parentColumn) == Get(r, k.column);
  }

  lemma {:induction false} OuterKeyHolds(
      source: Source, schema: Schema, k: ForeignKey, child: Planned, planned: set<Table>, loaded: Rows)
    requires child == Planned(k.child, Of(source.columns, k.child)) && k.child in planned && k.parent !in planned
    requires Unlinked(source, planned, k)
    requires Of(loaded, k.child) == FillAll(schema, child, Of(source.rows, k.child))
    ensures KeyHolds(loaded, k)
  {
    forall r <- Of(loaded, k.child) ensures Get(r, k.column) == Null {
      var i :| 0 <= i < |Of(source.rows, k.child)| && r == Fill(schema, child, Of(source.rows, k.child)[i]);
      assert Of(source.rows, k.child)[i] in Of(source.rows, k.child);
    }
  }

  /** Given sound keys and a steady source, an unbroken carry succeeds exactly when every listed table can be
      planned and no taken row is linked to a table left behind. In particular a key that leaves the taken
      tables from a column the source does not have yet makes it raise, although such a column is elsewhere
      left to its default. */
  lemma {:induction false} SucceedsIff(source: Source, schema: Schema, rows: Rows, sequences: seq<Sequence>)
    requires Steady(source)
    requires forall k <- schema.keys ::
      KeyHolds(rows, k) && SourceKeeps(source, schema, k) && InOrder(CARRIED_TABLES, k)
    ensures Run(source, schema, rows, sequences, NoFault).result.Ok?
      <==> AllPlannable(source, schema, rows, CARRIED_TABLES)
           && forall k <- schema.keys :: Unlinked(source, Tables(Planning(source)), k)
  {
    hide Taken, AllPlannable, KeyHolds, InOrder, Unlinked, SourceKeeps, Plannable, CopyRest, PlanRest, LinkError, TakenOf;
    var plan := Planning(source);
    LinksAreClearIff(source, schema.keys, Tables(plan));
    RunLoads(source, schema, rows, sequences, NoFault);
    if AllPlannable(source, schema, rows, CARRIED_TABLES)
       && forall k <- schema.keys :: Unlinked(source, Tables(plan), k) {
      forall k <- schema.keys, n | 0 <= n <= |plan| ensures KeyHolds(Loaded(source, schema, rows, plan[..n]), k) {
        KeyHoldsAfter(source, schema, rows, k, n);
      }
      CopiesSucceed(source, schema, rows, 0);
      assert plan[..0] == [] && plan[0..] == plan;
      RunGoesOn(source, schema, rows, sequences);
    }
  }

  /** With nothing broken, the outcome is decided by the plan, the links and the copies. */
  lemma {:induction false} RunGoesOn(source: Source, schema: Schema, rows: Rows, sequences: seq<Sequence>)
    requires AllPlannable(source, schema, rows, CARRIED_TABLES)
    requires LinkError(source, schema.keys, Tables(Planning(source))).None?
    requires CopyRest(source, schema, rows, Planning(source), NoFault).Ok?
    ensures Run(source, schema, rows, sequences, NoFault).result.Ok?
  {
    hide AllPlannable, TakenOf, Fill, CopyRest, PlanRest, LinkError, Loaded, RegisteredOf, CopyAccepted;
    PlanIs(source, schema, rows, CARRIED_TABLES, Plan([], []));
    assert [] + Planning(source) == Planning(source);
  }

  lemma {:induction false} CopiesSucceed(source: Source, schema: Schema, rows: Rows, i: nat)
    requires Steady(source) && AllPlannable(source, schema, rows, CARRIED_TABLES)
    requires i <= |Planning(source)|
    requires forall k <- schema.keys, n | 0 <= n <= |Planning(source)| ::
      KeyHolds(Loaded(source, schema, rows, Planning(source)[..n]), k)
    ensures var plan := Planning(source);
            CopyRest(source, schema, Loaded(source, schema, rows, plan[..i]), plan[i..], NoFault).Ok?
    decreases |Planning(source)| - i
  {
    hide Taken, AllPlannable, KeyHolds, Plannable, CopyRest, Loaded, TakenOf, CopyAccepted, Steady, Copied;
    var plan := Planning(source);
    if i < |plan| {
      CopyCountsAt(source, schema, rows, i);
      LoadedNext(source, schema, rows, plan, i);
      CopyGoesOn(source, schema, Loaded(source, schema, rows, plan[..i]), plan[i..]);
      assert plan[i..][1..] == plan[i + 1..];
      CopiesSucceed(source, schema, rows, i + 1);
    } else {
      assert plan[i..] == [];
      NothingToCopy(source, schema, Loaded(source, schema, rows, plan[..i]));
    }
  }

  lemma {:induction false} NothingToCopy(source: Source, schema: Schema, rows: Rows)
    ensures CopyRest(source, schema, rows, [], NoFault).Ok?
  {
  }

  lemma {:induction false} CopyGoesOn(source: Source, schema: Schema, rows: Rows, todo: seq<Planned>)
    requires todo != [] && CopyCounts(source, schema, Copied(source, schema, rows, todo[0]), todo[0].table)
    ensures CopyRest(source, schema, rows, todo, NoFault)
            == CopyRest(source, schema, Copied(source, schema, rows, todo[0]), todo[1..], NoFault)
  {
    hide Copied, CopyAccepted;
  }

  lemma {:induction false} CopyCountsAt(source: Source, schema: Schema, rows: Rows, i: nat)
    requires Steady(source) && AllPlannable(source, schema, rows, CARRIED_TABLES)
    requires i < |Planning(source)|
    requires forall k <- schema.keys, n | 0 <= n <= |Planning(source)| ::
      KeyHolds(Loaded(source, schema, rows, Planning(source)[..n]), k)
    ensures var plan := Planning(source);
            CopyCounts(source, schema, Loaded(source, schema, rows, plan[..i + 1]), plan[i].table)
  {
    hide Taken, AllPlannable, KeyHolds, Plannable, Steady, TakenOf, Loaded, Copied;
    var plan := Planning(source);
    PlannedTablesWereEmpty(source, schema, rows);
    CountedAt(source, schema, rows, plan, i);
    TakenIs(source, CARRIED_TABLES, plan[i]);
    TakenHasColumns(source, plan[i].table);
  }

  lemma {:induction false} TakenHasColumns(source: Source, t: Table)
    requires Steady(source) && Taken(source, t)
    ensures t in source.counted && source.counted[t] == |Of(source.rows, t)|
  {
  }

  lemma {:induction false} CopiedGrows(source: Source, schema: Schema, rows: Rows, p: Planned, t: Table)
    ensures Of(rows, t) <= Of(Copied(source, schema, rows, p), t)
  {
    hide FillAll;
  }

  lemma {:induction false} LoadedGrows(source: Source, schema: Schema, rows: Rows, plan: seq<Planned>, n: nat, t: Table)
    requires n <= |plan|
    ensures Of(Loaded(source, schema, rows, plan[..n]), t) <= Of(Loaded(source, schema, rows, plan), t)
    decreases |plan|
  {
    hide Copied, Of;
    if n == |plan| {
      assert plan[..n] == plan;
    } else {
      var k := |plan| - 1;
      assert plan[..k][..n] == plan[..n];
      LoadedGrows(source, schema, rows, plan[..k], n, t);
      CopiedGrows(source, schema, Loaded(source, schema, rows, plan[..k]), plan[k], t);
    }
  }

  /** As the table of a planned key is copied, it has all the rows it will have and the key holds. */
  lemma {:induction false} KeyHeldAtCopy(
      source: Source, schema: Schema, rows: Rows, plan: seq<Planned>, fault: Fault, k: ForeignKey, j: nat)
    requires CopyRest(source, schema, rows, plan, fault).Ok? && DistinctTables(plan)
    requires k in schema.keys && j < |plan| && plan[j].table == k.child && Of(rows, k.child) == []
    ensures KeyHolds(Loaded(source, schema, rows, plan[..j + 1]), k)
    ensures Of(Loaded(source, schema, rows, plan[..j + 1]), k.child) == Of(Loaded(source, schema, rows, plan), k.child)
  {
    hide CopyRest, Loaded, FillAll, KeyHolds;
    CopyLoads(source, schema, rows, plan, fault);
    assert CopyAccepted(schema, Loaded(source, schema, rows, plan[..j + 1]), k.child);
    assert plan[..j + 1][j] == plan[j] && forall i :: 0 <= i < j + 1 ==> plan[..j + 1][i] == plan[i];
    LoadedIs(source, schema, rows, plan[..j + 1], j);
    LoadedIs(source, schema, rows, plan, j);
  }

  /** A carry that returns leaves every foreign key of a carried table satisfied, whatever the source held: a value in a key
      column is the value of some row of the parent. */
  lemma {:induction false} ReturnedKeysHold(
      source: Source, schema: Schema, rows: Rows, sequences: seq<Sequence>, fault: Fault, k: ForeignKey, r: Row)
    requires Run(source, schema, rows, sequences, fault).result.Ok?
    requires k in schema.keys && k.child in Tables(Planning(source))
    requires r in Of(Run(source, schema, rows, sequences, fault).rows, k.child) && k.column in r && r[k.column] != Null
    ensures exists q: Row <- Of(Run(source, schema, rows, sequences, fault).rows, k.parent) ::
              k.parentColumn in q && q[k.parentColumn] == r[k.column]
  {
    hide Run, CopyRest, PlanRest, LinkError, TakenOf, Loaded, FillAll, AllPlannable, CopyAccepted;
    var plan := Planning(source);
    RunLoads(source, schema, rows, sequences, fault);
    PlannedTablesWereEmpty(source, schema, rows);
    var j :| 0 <= j < |plan| && plan[j].table == k.child;
    KeyHeldAtCopy(source, schema, rows, plan, fault, k, j);
    LoadedGrows(source, schema, rows, plan, j + 1, k.parent);
    ParentIsThere(Loaded(source, schema, rows, plan[..j + 1]), Loaded(source, schema, rows, plan), k, r);
  }

  lemma {:induction false} ParentIsThere(copied: Rows, after: Rows, k: ForeignKey, r: Row)
    requires KeyHolds(copied, k) && Of(copied, k.parent) <= Of(after, k.parent)
    requires r in Of(copied, k.child) && k.column in r && r[k.column] != Null
    ensures exists q: Row <- Of(after, k.parent) :: k.parentColumn in q && q[k.parentColumn] == r[k.column]
  {
    var q :| q in Of(copied, k.parent) && Get(q, k.parentColumn) == Get(r, k.column);
    assert q in Of(after, k.parent);
  }

  // --------------------------------------------------------------- sequences

  /** `nextval` */
  function NextVal(s: Sequence): (int, Sequence) {
    if s.called then (s.last + s.increment, s.(last := s.last + s.increment)) else (s.last, s.(called := true))
  }

  /** The `n`-th id drawn from now on, counted from zero. */
  function Draw(s: Sequence, n: nat): int
    decreases n
  {
    if n == 0 then NextVal(s).0 else Draw(NextVal(s).1, n - 1)
  }

  lemma {:induction false} MaxIsUpperBound(rows: seq<Row>, c: Column, r: Row, m: int)
    requires r in rows && Get(r, c) == Int(m)
    ensures MaxInt(rows, c).Some? && m <= MaxInt(rows, c).value
  {
    if rows[0] != r {
      MaxIsUpperBound(rows[1..], c, r, m);
    }
  }

  /** The ids drawn are an increment apart; the first is the last one itself if nothing was drawn yet. */
  lemma {:induction false} DrawsAre(s: Sequence, n: nat)
    ensures Draw(s, n) == s.last + (if s.called then s.increment else 0) + n * s.increment
    decreases n
  {
    if n > 0 {
      DrawsAre(NextVal(s).1, n - 1);
      assert (n - 1) * s.increment + s.increment == n * s.increment;
    }
  }

  lemma {:induction false} DrawsAscend(s: Sequence, bound: int, n: nat)
    requires s.increment > 0 && s.called && bound <= s.last
    ensures bound < Draw(s, n)
    decreases n
  {
    if n > 0 {
      DrawsAscend(NextVal(s).1, bound, n - 1);
    }
  }

  /** After a carry that returned, no id drawn from an owned sequence, however many are drawn, is the id of a
      carried row: whether the table is empty, or its highest id is positive, zero or negative. */
  lemma {:induction false} DrawsAreFresh(
      source: Source, schema: Schema, rows: Rows, sequences: seq<Sequence>, fault: Fault, i: nat, n: nat, r: Row)
    requires Run(source, schema, rows, sequences, fault).result.Ok?
    requires i < |sequences| && sequences[i].table in Tables(Planning(source)) && sequences[i].increment > 0
    requires r in Of(Run(source, schema, rows, sequences, fault).rows, sequences[i].table)
    ensures Get(r, sequences[i].column) != Int(Draw(Run(source, schema, rows, sequences, fault).sequences[i], n))
  {
    hide CopyRest, PlanRest, LinkError, Loaded, RegisteredOf, TakenOf;
    PlanIs(source, schema, rows, CARRIED_TABLES, Plan([], []));
    assert [] + Planning(source) == Planning(source);
    var out := Run(source, schema, rows, sequences, fault);
    var s, id := sequences[i], Get(r, sequences[i].column);
    assert out.sequences[i] == Repaired(s, out.rows);
    if id.Int? {
      MaxIsUpperBound(Of(out.rows, s.table), s.column, r, id.n);
      DrawsAscend(Repaired(s, out.rows), id.n, n);
    }
  }

  /** Whether a carry gets as far as the sequences. */
  ghost predicate ReachesSequences(source: Source, schema: Schema, rows: Rows, fault: Fault) {
    && fault != WhilePlanning && AllPlannable(source, schema, rows, CARRIED_TABLES)
    && LinkError(source, schema.keys, Tables(Planning(source))).None?
    && CopyRest(source, schema, rows, Planning(source), fault).Ok?
  }

  /** A copying that stops does so at the first table whose connection breaks, whose keys do not hold, or whose rows come
      out fewer or more than the source counts; and says which. */
  lemma {:induction false} CopyRefusal(source: Source, schema: Schema, rows: Rows, plan: seq<Planned>, i: nat, fault: Fault)
      returns (at: nat)
    requires i <= |plan|
    requires CopyRest(source, schema, Loaded(source, schema, rows, plan[..i]), plan[i..], fault).Raised?
    ensures i <= at < |plan|
    ensures forall j: nat :: i <= j < at ==>
              && fault != AtCopy(plan[j].table)
              && CopyCounts(source, schema, Loaded(source, schema, rows, plan[..j + 1]), plan[j].table)
    ensures var t, after := plan[at].table, Loaded(source, schema, rows, plan[..at + 1]);
            var error := CopyRest(source, schema, Loaded(source, schema, rows, plan[..i]), plan[i..], fault).error;
      if fault == AtCopy(t) then error == ConnectionLost
      else if !CopyAccepted(schema, after, t) then error == KeyViolated(t)
      else !CopyCounts(source, schema, after, t) && error == CountDiffers(t)
    decreases |plan| - i
  {
    hide CopyAccepted, Loaded, Of, FillAll;
    LoadedNext(source, schema, rows, plan, i);
    var t := plan[i].table;
    if fault == AtCopy(t) || !CopyCounts(source, schema, Loaded(source, schema, rows, plan[..i + 1]), t) {
      at := i;
    } else {
      assert plan[i..][1..] == plan[i + 1..];
      at := CopyRefusal(source, schema, rows, plan, i + 1, fault);
    }
  }

  /** Exactly when a carry returns: it gets as far as the sequences, and neither the `setval` of a planned table's sequence
      nor the commit breaks. */
  lemma {:induction false} ReturnsIff(source: Source, schema: Schema, rows: Rows, sequences: seq<Sequence>, fault: Fault)
    ensures Run(source, schema, rows, sequences, fault).result.Ok?
      <==> && ReachesSequences(source, schema, rows, fault) && fault != AtCommit
           && forall i :: 0 <= i < |sequences| && fault == AtSetval(i) ==> sequences[i].table !in Tables(Planning(source))
  {
    hide CopyRest, PlanRest, LinkError, Loaded, RegisteredOf, TakenOf, Repaired, RepairedTo, AllPlannable;
    PlanIs(source, schema, rows, CARRIED_TABLES, Plan([], []));
    assert [] + Planning(source) == Planning(source);
  }

  lemma {:induction false} MaxIsOneOfThem(rows: seq<Row>, c: Column)
    ensures MaxInt(rows, c).None? <==> forall r: Row <- rows :: c !in r || !r[c].Int?
    ensures MaxInt(rows, c).Some? ==> exists r: Row <- rows :: c in r && r[c] == Int(MaxInt(rows, c).value)
  {
    if rows != [] {
      MaxIsOneOfThem(rows[1..], c);
      assert forall r :: r in rows <==> r == rows[0] || r in rows[1..];
      assert rows[0] in rows;
    }
  }

  /** What a carry that returned leaves of an owned sequence: without any id it starts again at 1; else it goes on after the
      highest carried id, or after 1 if that is higher. Every other sequence is as it was. */
  lemma {:induction false} SequenceGoesOnFrom(
      source: Source, schema: Schema, rows: Rows, sequences: seq<Sequence>, fault: Fault, i: nat)
    requires Run(source, schema, rows, sequences, fault).result.Ok? && i < |sequences|
    ensures var out, s := Run(source, schema, rows, sequences, fault), sequences[i];
      && |out.sequences| == |sequences|
      && (s.table !in Tables(Planning(source)) ==> out.sequences[i] == s)
      && (s.table in Tables(Planning(source)) ==>
            var after, ids := out.sequences[i], set r: Row <- Of(out.rows, s.table) | s.column in r && r[s.column].Int? :: r[s.column].n;
            && (ids == {} ==> after == s.(last := 1, called := false))
            && (ids != {} ==>
                  && after == s.(last := after.last, called := true)
                  && 1 <= after.last && (after.last == 1 || after.last in ids)
                  && forall id <- ids :: id <= after.last))
  {
    hide CopyRest, PlanRest, LinkError, Loaded, RegisteredOf, TakenOf, Repaired;
    PlanIs(source, schema, rows, CARRIED_TABLES, Plan([], []));
    assert [] + Planning(source) == Planning(source);
    RepairedIs(sequences[i], Run(source, schema, rows, sequences, fault).rows);
  }

  lemma {:induction false} RepairedIs(s: Sequence, rows: Rows)
    ensures var after, ids := Repaired(s, rows), set r: Row <- Of(rows, s.table) | s.column in r && r[s.column].Int? :: r[s.column].n;
      && (ids == {} ==> after == s.(last := 1, called := false))
      && (ids != {} ==>
            && after == s.(last := after.last, called := true)
            && 1 <= after.last && (after.last == 1 || after.last in ids)
            && forall id <- ids :: id <= after.last)
  {
    var ids := set r: Row <- Of(rows, s.table) | s.column in r && r[s.column].Int? :: r[s.column].n;
    var max := MaxInt(Of(rows, s.table), s.column);
    MaxIsOneOfThem(Of(rows, s.table), s.column);
    assert max.Some? ==> max.value in ids;
    forall id <- ids ensures max.Some? && id <= max.value {
      var r :| r in Of(rows, s.table) && s.column in r && r[s.column] == Int(id);
      MaxIsUpperBound(Of(rows, s.table), s.column, r, id);
    }
  }

  /** Rolling back does not undo `setval`. Whatever becomes of a carry, the sequences are exactly as they were if it did not
      reach them; else every sequence of a planned table up to the failure has its repaired value, and no other moved. */
  lemma {:induction false} CarriedSequences(
      source: Source, schema: Schema, rows: Rows, sequences: seq<Sequence>, fault: Fault)
    ensures var plan, out := Planning(source), Run(source, schema, rows, sequences, fault);
      out.sequences ==
        if ReachesSequences(source, schema, rows, fault)
        then RepairedTo(sequences, Tables(plan), CopyRest(source, schema, rows, plan, fault).value,
                        Reached(sequences, Tables(plan), fault))
        else sequences
  {
    hide CopyRest, PlanRest, LinkError, Loaded, RegisteredOf, TakenOf, Repaired, RepairedTo, AllPlannable;
    PlanIs(source, schema, rows, CARRIED_TABLES, Plan([], []));
    assert [] + Planning(source) == Planning(source);
  }

  /** A carry that would have succeeded and is broken at its commit: every row is as it was, and every sequence is as the
      successful carry would have left it. */
  lemma {:induction false} BrokenCommitMovesSequences(source: Source, schema: Schema, rows: Rows, sequences: seq<Sequence>)
    requires Run(source, schema, rows, sequences, NoFault).result.Ok?
    ensures var out := Run(source, schema, rows, sequences, AtCommit);
      && out.result.Raised? && out.rows == rows
      && out.sequences == Run(source, schema, rows, sequences, NoFault).sequences
  {
    hide PlanRest, LinkError, Loaded, RegisteredOf, TakenOf, Repaired, RepairedTo, AllPlannable, Copied, CopyAccepted;
    PlanIs(source, schema, rows, CARRIED_TABLES, Plan([], []));
    assert [] + Planning(source) == Planning(source);
    SameCopies(source, schema, rows, Planning(source), NoFault, AtCommit);
  }

  /** One broken at the `setval` of a planned table's sequence: the sequences before it are as success would have left them, that
      one and those after it as they were; and every row is as it was. */
  lemma {:induction false} BrokenSetvalMovesSomeSequences(
      source: Source, schema: Schema, rows: Rows, sequences: seq<Sequence>, k: nat, i: nat)
    requires Run(source, schema, rows, sequences, NoFault).result.Ok?
    requires k < |sequences| && sequences[k].table in Tables(Planning(source)) && i < |sequences|
    ensures var out, whole := Run(source, schema, rows, sequences, AtSetval(k)), Run(source, schema, rows, sequences, NoFault);
      && out.result.Raised? && out.rows == rows
      && |out.sequences| == |whole.sequences| == |sequences|
      && out.sequences[i] == if i < k then whole.sequences[i] else sequences[i]
  {
    hide PlanRest, LinkError, Loaded, RegisteredOf, TakenOf, Repaired, AllPlannable, Copied, CopyAccepted, CopyRest;
    PlanIs(source, schema, rows, CARRIED_TABLES, Plan([], []));
    assert [] + Planning(source) == Planning(source);
    SameCopies(source, schema, rows, Planning(source), NoFault, AtSetval(k));
  }

  lemma {:induction false} SameCopies(source: Source, schema: Schema, rows: Rows, todo: seq<Planned>, fault: Fault, fault': Fault)
    requires !fault.AtCopy? && !fault'.AtCopy?
    ensures CopyRest(source, schema, rows, todo, fault) == CopyRest(source, schema, rows, todo, fault')
    decreases |todo|
  {
    hide Copied, CopyAccepted;
    if todo != [] {
      SameCopies(source, schema, Copied(source, schema, rows, todo[0]), todo[1..], fault, fault');
    }
  }

  /** A source with one table of one column, which holds the number `m` once. */
  function OneRow(t: Table, m: int): Source {
    Source(map[], map[t := ["id"]], map[t := [map["id" := Int(m)]]], map[t := 1],
           (u, c) => if u == t && c == "id" then Some(1) else None)
  }

  lemma {:induction false} OneRowIsSteady(t: Table, m: int)
    ensures Steady(OneRow(t, m))
  {
    var source := OneRow(t, m);
    var row: Row := map["id" := Int(m)];
    assert [row][1..] == [];
    assert NonNull([row], "id") == 1;
  }

  lemma {:induction false} OneRowIsCarried(t: Table, m: int, sequences: seq<Sequence>)
    requires t in CARRIED_TABLES
    ensures var schema := Schema(map[t := ["id"]], map[], []);
      Run(OneRow(t, m), schema, map[], sequences, NoFault).result.Ok?
  {
    hide CopyRest, PlanRest, LinkError, Run, TakenOf, Steady;
    var source, schema := OneRow(t, m), Schema(map[t := ["id"]], map[], []);
    OneRowIsSteady(t, m);
    SucceedsIff(source, schema, map[], sequences);
  }

  /** A raised carry that moves a sequence: one number greater than 1, and a connection lost at the commit. */
  lemma {:induction false} RaisedCarryMovesASequence(t: Table, m: int)
    requires t in CARRIED_TABLES && m > 1
    ensures var schema := Schema(map[t := ["id"]], map[], []);
      var out := Run(OneRow(t, m), schema, map[], [Sequence(t, "id", 1, 1, false)], AtCommit);
      out.result.Raised? && out.rows == map[] && out.sequences == [Sequence(t, "id", 1, m, true)]
  {
    hide CopyRest, PlanRest, LinkError, Run, TakenOf, Loaded, AllPlannable;
    var source, schema, sequences := OneRow(t, m), Schema(map[t := ["id"]], map[], []), [Sequence(t, "id", 1, 1, false)];
    OneRowIsCarried(t, m, sequences);
    BrokenCommitMovesSequences(source, schema, map[], sequences);
    ExactOrNothing(source, schema, map[], sequences, NoFault);
    CarriedSequences(source, schema, map[], sequences, NoFault);
    CarriedRows(source, schema, map[], sequences);
    TakenIs(source, CARRIED_TABLES, Planned(t, ["id"]));
    var loaded := Run(source, schema, map[], sequences, NoFault).rows;
    assert Of(loaded, t) == FillAll(schema, Planned(t, ["id"]), Of(source.rows, t));
    OneRowMax(schema, t, m);
    assert Repaired(sequences[0], loaded) == Sequence(t, "id", 1, m, true);
    assert RepairedTo(sequences, Tables(Planning(source)), loaded, 1) == [Sequence(t, "id", 1, m, true)];
  }

  lemma {:induction false} OneRowMax(schema: Schema, t: Table, m: int)
    requires schema == Schema(map[t := ["id"]], map[], [])
    ensures MaxInt(FillAll(schema, Planned(t, ["id"]), [map["id" := Int(m)]]), "id") == Some(m)
  {
    var filled := FillAll(schema, Planned(t, ["id"]), [map["id" := Int(m)]]);
    assert |filled| == 1 && Get(filled[0], "id") == Int(m);
    assert filled[1..] == [];
  }

  /** The rows of a carry that returns are those its copies left. */
  lemma {:induction false} CarriedRows(source: Source, schema: Schema, rows: Rows, sequences: seq<Sequence>)
    requires Run(source, schema, rows, sequences, NoFault).result.Ok?
    ensures ReachesSequences(source, schema, rows, NoFault)
    ensures CopyRest(source, schema, rows, Planning(source), NoFault) == Ok(Run(source, schema, rows, sequences, NoFault).rows)
  {
    hide CopyRest, PlanRest, LinkError, Loaded, RegisteredOf, TakenOf, Repaired, RepairedTo, AllPlannable;
    PlanIs(source, schema, rows, CARRIED_TABLES, Plan([], []));
    assert [] + Planning(source) == Planning(source);
  }

  // ------------------------------------------------------------ a second carry

  /** A carry that brought at least one row cannot be repeated: it is refused and changes nothing, as long as
      the second source still has the table and does not register it for dumping. */
  lemma {:induction false} SecondCarryIsRefused(
      first: Source, second: Source, schema: Schema, rows: Rows, sequences: seq<Sequence>, fault: Fault, fault': Fault,
      t: Table)
    requires Run(first, schema, rows, sequences, fault).result.Ok?
    requires t in Tables(Planning(first)) && Of(first.rows, t) != []
    requires Taken(second, t)
    ensures var once := Run(first, schema, rows, sequences, fault);
            var again := Run(second, schema, once.rows, once.sequences, fault');
            again.result.Raised? && again.rows == once.rows && again.sequences == once.sequences
  {
    hide CopyRest, PlanRest, LinkError, Loaded, RegisteredOf, Taken;
    ExactOrNothing(first, schema, rows, sequences, fault);
    var once := Run(first, schema, rows, sequences, fault);
    var p :| p in Planning(first) && p.table == t;
    assert Of(once.rows, t) == FillAll(schema, p, Of(first.rows, t));
    TakenIs(first, CARRIED_TABLES, p);
    PlanIs(second, schema, once.rows, CARRIED_TABLES, Plan([], []));
    assert !Plannable(second, schema, once.rows, t);
  }
}
