/** `_ordered_delete` of `spike-memory-pipeline.py`: delete one space's rows from a list of tables whose order is
    not known, putting off every table a foreign key refuses.

    Foreign keys are NO ACTION, checked when the statement ends: a delete is refused when a row that is left
    refers to a row that went. */
module OrderedDelete {
  import opened Results

  type Table = string
  type Space = string
  type Id = int

  /** A reference names the row it points at. */
  datatype Ref = Ref(table: Table, id: Id)
  datatype Row = Row(owner: Space, refs: set<Ref>, content: string)
  type Rows = map<Id, Row>
  type Db = map<Table, Rows>

  datatype Deleted = Deleted(table: Table, rows: nat)
  datatype NoOrder = NoOrder(pending: seq<Table>)

  function Own(rows: Rows, space: Space): Rows {
    map id | id in rows && rows[id].owner == space :: rows[id]
  }

  function Others(rows: Rows, space: Space): Rows {
    map id | id in rows && rows[id].owner != space :: rows[id]
  }

  /** The database without the space's rows in `tables`. */
  function Cleared(db: Db, space: Space, tables: set<Table>): Db {
    map t | t in db :: if t in tables then Others(db[t], space) else db[t]
  }

  /** Row `id` of `from` refers to a row of `space` in `to`. */
  predicate PointsAt(db: Db, space: Space, from: Table, id: Id, to: Table)
    requires from in db && id in db[from] && to in db
  {
    exists ref <- db[from][id].refs :: ref.table == to && ref.id in db[to] && db[to][ref.id].owner == space
  }

  /** Deleting the space's rows of `t` would leave a row that refers to one of them. */
  predicate Blocked(db: Db, space: Space, t: Table)
    requires t in db
  {
    exists u <- db :: exists id <- db[u] ::
      (u != t || db[u][id].owner != space) && PointsAt(db, space, u, id, t)
  }

  /** A delete is refused exactly if it would leave a row that refers to one that went. */
  lemma {:induction false} RefusedIffDangling(db: Db, space: Space, t: Table)
    requires t in db
    ensures var after := db[t := map id | id in db[t] && db[t][id].owner != space :: db[t][id]];
      Blocked(db, space, t) <==>
        exists u <- after :: exists id <- after[u] :: exists ref <- after[u][id].refs ::
          ref.table == t && ref.id in db[t] && ref.id !in after[t]
  {
    var after := db[t := map id | id in db[t] && db[t][id].owner != space :: db[t][id]];
    if Blocked(db, space, t) {
      var u :| u in db && exists id <- db[u] :: (u != t || db[u][id].owner != space) && PointsAt(db, space, u, id, t);
      var id :| id in db[u] && (u != t || db[u][id].owner != space) && PointsAt(db, space, u, id, t);
      assert id in after[u] && after[u][id] == db[u][id];
    }
    if u :| u in after && exists id <- after[u] :: exists ref <- after[u][id].refs ::
         ref.table == t && ref.id in db[t] && ref.id !in after[t] {
      var id :| id in after[u] && exists ref <- after[u][id].refs :: ref.table == t && ref.id in db[t] && ref.id !in after[t];
      assert id in db[u] && after[u][id] == db[u][id];
      assert (u != t || db[u][id].owner != space) && PointsAt(db, space, u, id, t);
    }
  }

  // ----------------------------------------------------- what the loop computes

  datatype Pass = Pass(db: Db, kept: seq<Table>, done: seq<Deleted>)

  /** One sweep of the inner `for` over the tables still to be tried. */
  function Sweep(db: Db, space: Space, work: seq<Table>): (p: Pass)
    requires forall t <- work :: t in db
    ensures p.db.Keys == db.Keys
    ensures |p.kept| + |p.done| == |work|
    ensures forall t <- p.kept :: t in work
    decreases |work|
  {
    if work == [] then Pass(db, [], [])
    else
      var t := work[0];
      if Blocked(db, space, t) then
        var p := Sweep(db, space, work[1..]);
        Pass(p.db, [t] + p.kept, p.done)
      else
        var p := Sweep(Cleared(db, space, {t}), space, work[1..]);
        Pass(p.db, p.kept, [Deleted(t, |Own(db[t], space)|)] + p.done)
  }

  datatype Outcome = Outcome(db: Db, result: Result<seq<Deleted>, NoOrder>)

  /** Sweeps until nothing is pending, or until one makes no progress. */
  function Run(db: Db, space: Space, pending: seq<Table>, done: seq<Deleted>): Outcome
    requires forall t <- pending :: t in db
    decreases |pending|
  {
    if pending == [] then Outcome(db, Ok(done))
    else
      var p := Sweep(db, space, pending);
      if p.done == [] then Outcome(p.db, Raised(NoOrder(pending)))
      else Run(p.db, space, p.kept, done + p.done)
  }

  class Connection {
    var tables: Db

    constructor (tables: Db)
      ensures this.tables == tables
    {
      this.tables := tables;
    }

    /** `DELETE FROM table WHERE owner_schema = space` inside a savepoint; None is a foreign-key violation. */
    method Delete(table: Table, space: Space) returns (rowcount: Option<nat>)
      requires table in tables
      modifies this
      ensures tables.Keys == old(tables).Keys
      ensures Blocked(old(tables), space, table) ==> rowcount == None && tables == old(tables)
      ensures !Blocked(old(tables), space, table) ==>
                && rowcount == Some(|Own(old(tables)[table], space)|)
                && tables == Cleared(old(tables), space, {table})
    {
      if Blocked(tables, space, table) {
        return None;
      }
      rowcount := Some(|Own(tables[table], space)|);
      tables := tables[table := Others(tables[table], space)];
      assert tables == Cleared(old(tables), space, {table});
    }

    /** The inner `for`: every pending table is tried once. */
    method TryEach(space: Space, list: seq<Table>, before: seq<Deleted>)
      returns (pending: seq<Table>, done: seq<Deleted>, progress: bool)
      requires forall t <- list :: t in tables
      requires Distinct(list)
      modifies this
      ensures var p := Sweep(old(tables), space, list);
              tables == p.db && pending == p.kept && done == before + p.done && progress == (p.done != [])
    {
      hide *;
      pending, done, progress := list, before, false;
      ghost var kept: seq<Table> := [];
      ghost var gone: seq<Deleted> := [];
      ghost var rest := list;
      ThenNothing(kept, gone, Sweep(tables, space, rest));
      var i := 0;
      while i < |list|
        invariant 0 <= i <= |list| && rest == list[i..]
        invariant tables.Keys == old(tables).Keys
        invariant pending == kept + rest && done == before + gone && progress == (gone != [])
        invariant Distinct(pending)
        invariant Sweep(old(tables), space, list) == Then(kept, gone, Sweep(tables, space, rest))
      {
        var table := list[i];
        TakeNext(list, i, kept);
        i := i + 1;
        rest := list[i..];
        DistinctParts(kept, table, rest);
        SweepOn(kept, gone, tables, space, table, rest);
        var n := Delete(table, space);
        if n == None {
          kept := kept + [table];
          continue;
        }
        RemoveNext(kept, table, rest);
        pending := Remove(pending, table);
        ghost var d := Deleted(table, n.value);
        OneMoreGone(before, gone, d);
        done := done + [Deleted(table, n.value)];
        gone := gone + [d];
        progress := true;
      }
      assert rest == [];
      SweepNothing(tables, space);
      ThenNothing(kept, gone, Sweep(tables, space, rest));
    }

    method OrderedDelete(space: Space, list: seq<Table>)
      returns (result: Result<seq<Deleted>, NoOrder>, ghost attempts: nat)
      requires forall t <- list :: t in tables
      requires Distinct(list)
      modifies this
      ensures Outcome(tables, result) == Run(old(tables), space, list, [])
      ensures 2 * attempts <= |list| * (|list| + 1)
    {
      hide Blocked, Sweep;
      var pending, done := list, [];
      attempts := 0;
      while pending != []
        invariant forall t <- pending :: t in tables
        invariant Distinct(pending)
        invariant Run(tables, space, pending, done) == Run(old(tables), space, list, [])
        invariant 2 * attempts + |pending| * (|pending| + 1) <= |list| * (|list| + 1)
        decreases |pending|
      {
        ghost var n := |pending|;
        SweepKeepsDistinct(tables, space, pending);
        var progress;
        attempts := attempts + |pending|;
        pending, done, progress := TryEach(space, pending, done);
        if !progress {
          return Raised(NoOrder(pending)), attempts;
        }
        FewerAttempts(n, |pending|);
      }
      result := Ok(done);
    }
  }

  ghost predicate Distinct(list: seq<Table>) {
    forall i, j :: 0 <= i < j < |list| ==> list[i] != list[j]
  }

  lemma {:induction false} DistinctParts(kept: seq<Table>, t: Table, rest: seq<Table>)
    requires Distinct(kept + [t] + rest)
    ensures t !in kept && Distinct(kept + rest)
  {
    var whole, shorter := kept + [t] + rest, kept + rest;
    assert forall i :: 0 <= i < |kept| ==> whole[i] == kept[i];
    assert whole[|kept|] == t;
    assert forall i :: 0 <= i < |shorter| ==> shorter[i] == whole[if i < |kept| then i else i + 1];
  }

  lemma {:induction false} TakeNext(list: seq<Table>, i: nat, kept: seq<Table>)
    requires i < |list|
    ensures list[i..] == [list[i]] + list[i + 1..]
    ensures kept + list[i..] == kept + [list[i]] + list[i + 1..]
  {
    assert list[i..] == [list[i]] + list[i + 1..];
  }

  lemma {:induction false} OneMoreGone(before: seq<Deleted>, gone: seq<Deleted>, d: Deleted)
    ensures before + gone + [d] == before + (gone + [d]) && gone + [d] != []
  {
  }

  /** What a sweep amounts to when `kept` and `gone` were decided before the rest. */
  function Then(kept: seq<Table>, gone: seq<Deleted>, rest: Pass): Pass {
    Pass(rest.db, kept + rest.kept, gone + rest.done)
  }

  lemma {:induction false} ThenThen(k: seq<Table>, g: seq<Deleted>, k': seq<Table>, g': seq<Deleted>, rest: Pass)
    ensures Then(k, g, Then(k', g', rest)) == Then(k + k', g + g', rest)
    ensures g + [] == g && k + [] == k
  {
    assert k + (k' + rest.kept) == k + k' + rest.kept;
    assert g + (g' + rest.done) == g + g' + rest.done;
  }

  lemma {:induction false} ThenNothing(kept: seq<Table>, gone: seq<Deleted>, rest: Pass)
    ensures Then([], [], rest) == rest
    ensures rest.kept == [] && rest.done == [] ==> Then(kept, gone, rest) == Pass(rest.db, kept, gone)
  {
    assert [] + rest.kept == rest.kept && [] + rest.done == rest.done;
  }

  lemma {:induction false} SweepNothing(db: Db, space: Space)
    ensures Sweep(db, space, []) == Pass(db, [], [])
  {
  }

  lemma {:induction false} SweepNext(db: Db, space: Space, t: Table, rest: seq<Table>)
    requires t in db && forall u <- rest :: u in db
    ensures Blocked(db, space, t) ==>
              Sweep(db, space, [t] + rest) == Then([t], [], Sweep(db, space, rest))
    ensures !Blocked(db, space, t) ==>
              Sweep(db, space, [t] + rest)
              == Then([], [Deleted(t, |Own(db[t], space)|)], Sweep(Cleared(db, space, {t}), space, rest))
  {
    hide Blocked;
    assert ([t] + rest)[1..] == rest;
  }

  lemma {:induction false} SweepOn(kept: seq<Table>, gone: seq<Deleted>, db: Db, space: Space, t: Table, rest: seq<Table>)
    requires t in db && forall u <- rest :: u in db
    ensures Blocked(db, space, t) ==>
              Then(kept, gone, Sweep(db, space, [t] + rest)) == Then(kept + [t], gone, Sweep(db, space, rest))
    ensures !Blocked(db, space, t) ==>
              Then(kept, gone, Sweep(db, space, [t] + rest))
              == Then(kept, gone + [Deleted(t, |Own(db[t], space)|)], Sweep(Cleared(db, space, {t}), space, rest))
  {
    hide Blocked, Sweep, Then, Own;
    SweepNext(db, space, t, rest);
    if Blocked(db, space, t) {
      ThenThen(kept, gone, [t], [], Sweep(db, space, rest));
    } else {
      ThenThen(kept, gone, [], [Deleted(t, |Own(db[t], space)|)], Sweep(Cleared(db, space, {t}), space, rest));
    }
  }

  lemma {:induction false} FewerAttempts(n: nat, m: nat)
    requires m < n
    ensures 2 * n + m * (m + 1) <= n * (n + 1)
  {
    assert m * (m + 1) <= (n - 1) * n;
  }

  lemma {:induction false} SweepKeepsDistinct(db: Db, space: Space, work: seq<Table>)
    requires forall t <- work :: t in db
    requires Distinct(work)
    ensures Distinct(Sweep(db, space, work).kept)
    ensures Sweep(db, space, work).done == [] ==> Sweep(db, space, work).kept == work
    decreases |work|
  {
    hide Blocked;
    if work != [] {
      var t, rest := work[0], work[1..];
      var next := if Blocked(db, space, t) then db else Cleared(db, space, {t});
      SweepKeepsDistinct(next, space, rest);
      assert forall u <- rest :: u != t;
      ConsDistinct(t, Sweep(next, space, rest).kept);
    }
  }

  lemma {:induction false} ConsDistinct(t: Table, kept: seq<Table>)
    requires Distinct(kept)
    ensures t !in kept ==> Distinct([t] + kept)
  {
  }

  /** `pending.remove(table)`: the first occurrence goes. */
  function Remove(pending: seq<Table>, table: Table): seq<Table>
    requires table in pending
  {
    if pending[0] == table then pending[1..] else [pending[0]] + Remove(pending[1..], table)
  }

  lemma {:induction false} RemoveNext(kept: seq<Table>, table: Table, rest: seq<Table>)
    requires table !in kept
    ensures Remove(kept + [table] + rest, table) == kept + rest
  {
    var pending := kept + [table] + rest;
    if kept == [] {
      assert pending[1..] == rest;
    } else {
      assert pending[1..] == kept[1..] + [table] + rest;
      RemoveNext(kept[1..], table, rest);
    }
  }

  // ------------------------------------------------------------- which orders work

  function Names(done: seq<Deleted>): (names: seq<Table>)
    ensures |names| == |done|
    ensures forall t :: t in names <==> exists d <- done :: d.table == t
  {
    if done == [] then [] else [done[0].table] + Names(done[1..])
  }

  function Set(list: seq<Table>): set<Table> {
    set t <- list
  }

  /** Deleting the tables in this order is never refused. */
  ghost predicate Deletable(db: Db, space: Space, order: seq<Table>)
    requires forall t <- order :: t in db
  {
    forall i :: 0 <= i < |order| ==> !Blocked(Cleared(db, space, Set(order[..i])), space, order[i])
  }

  lemma {:induction false} ClearedTwice(db: Db, space: Space, a: set<Table>, b: set<Table>)
    ensures Cleared(Cleared(db, space, a), space, b) == Cleared(db, space, a + b)
  {
    forall t | t in db ensures Cleared(Cleared(db, space, a), space, b)[t] == Cleared(db, space, a + b)[t] {
      assert Others(Others(db[t], space), space) == Others(db[t], space);
    }
  }

  lemma {:induction false} ClearedNone(db: Db, space: Space)
    ensures Cleared(db, space, {}) == db
  {
  }

  /** Fewer rows can only block fewer deletes. */
  lemma {:induction false} BlockedBefore(db: Db, space: Space, fewer: set<Table>, more: set<Table>, t: Table)
    requires t in db && fewer <= more && t !in more
    requires Blocked(Cleared(db, space, more), space, t)
    ensures Blocked(Cleared(db, space, fewer), space, t)
  {
    var after: Db, before: Db := Cleared(db, space, more), Cleared(db, space, fewer);
    var u: Table, id: Id :| u in after && id in after[u] && (u != t || after[u][id].owner != space)
                 && PointsAt(after, space, u, id, t);
    assert id in before[u] && before[u][id] == after[u][id];
    assert before[t] == after[t];
    assert PointsAt(before, space, u, id, t);
  }

  lemma {:induction false} DeletableAppend(db: Db, space: Space, a: seq<Table>, b: seq<Table>)
    requires forall t <- a + b :: t in db
    requires forall t <- a :: t in db
    requires forall t <- b :: t in db
    requires Deletable(db, space, a)
    requires Deletable(Cleared(db, space, Set(a)), space, b)
    ensures Deletable(db, space, a + b)
  {
    hide Blocked;
    var mid := Cleared(db, space, Set(a));
    forall i | 0 <= i < |a + b|
      ensures (a + b)[i] in db && !Blocked(Cleared(db, space, Set((a + b)[..i])), space, (a + b)[i])
    {
      if i < |a| {
        assert (a + b)[..i] == a[..i];
      } else {
        assert (a + b)[..i] == a + b[..i - |a|];
        assert Set((a + b)[..i]) == Set(a) + Set(b[..i - |a|]);
        ClearedTwice(db, space, Set(a), Set(b[..i - |a|]));
      }
    }
  }

  // --------------------------------------------------------- what a run does

  /** `done` is a valid order of exactly the tables of `work` that are not in `kept`, each with the number of
      rows the space had in it, and `after` is what those deletes leave. */
  ghost predicate Progress(db: Db, space: Space, work: seq<Table>, after: Db, kept: seq<Table>, done: seq<Deleted>)
    requires forall t <- work :: t in db
  {
    && multiset(Names(done)) + multiset(kept) == multiset(work)
    && (forall d <- done :: d.table in work)
    && (forall t <- kept :: t in work && t !in Names(done))
    && after == Cleared(db, space, Set(Names(done)))
    && Deletable(db, space, Names(done))
    && forall d <- done :: d.rows == |Own(db[d.table], space)|
  }

  lemma {:induction false} NamesAppend(a: seq<Deleted>, b: seq<Deleted>)
    ensures Names(a + b) == Names(a) + Names(b)
    ensures Set(Names(a + b)) == Set(Names(a)) + Set(Names(b))
    decreases |a|
  {
    if a == [] {
      assert a + b == b;
    } else {
      assert (a + b)[1..] == a[1..] + b;
      NamesAppend(a[1..], b);
    }
  }

  lemma {:induction false} NoProgress(db: Db, space: Space, work: seq<Table>)
    requires forall t <- work :: t in db
    ensures Progress(db, space, work, db, work, [])
  {
    ClearedNone(db, space);
    assert Set(Names([])) == {};
  }

  lemma {:induction false} FirstProgress(db: Db, space: Space, t: Table, rest: seq<Table>)
    requires t in db && !Blocked(db, space, t)
    requires forall u <- rest :: u in db && u != t
    ensures Progress(db, space, [t] + rest, Cleared(db, space, {t}), rest, [Deleted(t, |Own(db[t], space)|)])
  {
    hide Blocked;
    var d := Deleted(t, |Own(db[t], space)|);
    assert Names([d]) == [t] && Set([t]) == {t};
    assert [t][..0] == [] && Set([]) == {};
    ClearedNone(db, space);
  }

  lemma {:induction false} SkipProgress(
      db: Db, space: Space, t: Table, rest: seq<Table>, after: Db, kept: seq<Table>, done: seq<Deleted>)
    requires t in db && forall u <- rest :: u in db && u != t
    requires Progress(db, space, rest, after, kept, done)
    ensures Progress(db, space, [t] + rest, after, [t] + kept, done)
  {
    hide Blocked, Deletable, Cleared;
  }

  lemma {:induction false} AppendParts(
      work: seq<Table>, kept: seq<Table>, first: seq<Deleted>, left: seq<Table>, second: seq<Deleted>)
    requires multiset(Names(first)) + multiset(kept) == multiset(work)
    requires multiset(Names(second)) + multiset(left) == multiset(kept)
    ensures multiset(Names(first + second)) + multiset(left) == multiset(work)
  {
    NamesAppend(first, second);
    assert multiset(Names(first) + Names(second)) == multiset(Names(first)) + multiset(Names(second));
  }

  lemma {:induction false} AppendMembers(
      work: seq<Table>, kept: seq<Table>, first: seq<Deleted>, left: seq<Table>, second: seq<Deleted>)
    requires (forall d <- first :: d.table in work) && (forall t <- kept :: t in work && t !in Names(first))
    requires (forall d <- second :: d.table in kept) && (forall t <- left :: t in kept && t !in Names(second))
    ensures forall d <- first + second :: d.table in work
    ensures forall t <- left :: t in work && t !in Names(first + second)
  {
    hide Names;
    NamesAppend(first, second);
  }

  lemma {:induction false} AppendCounts(
      db: Db, space: Space, kept: seq<Table>, first: seq<Deleted>, second: seq<Deleted>)
    requires forall d <- second :: d.table in kept && d.table in db
    requires forall t <- kept :: t !in Names(first)
    requires forall d <- first :: d.table in db && d.rows == |Own(db[d.table], space)|
    requires forall d <- second :: d.rows == |Own(Cleared(db, space, Set(Names(first)))[d.table], space)|
    ensures forall d <- first + second :: d.rows == |Own(db[d.table], space)|
  {
    hide Own, Names, Cleared;
    forall d <- second ensures d.rows == |Own(db[d.table], space)| {
      NotYetCleared(db, space, Set(Names(first)), d.table);
    }
  }

  lemma {:induction false} AppendOrder(db: Db, space: Space, first: seq<Deleted>, second: seq<Deleted>)
    requires (forall t <- Names(first) :: t in db) && (forall t <- Names(second) :: t in db)
    requires Deletable(db, space, Names(first))
    requires forall t <- Names(second) :: t in Cleared(db, space, Set(Names(first)))
    requires Deletable(Cleared(db, space, Set(Names(first))), space, Names(second))
    ensures forall t <- Names(first + second) :: t in db
    ensures Deletable(db, space, Names(first + second))
    ensures Cleared(Cleared(db, space, Set(Names(first))), space, Set(Names(second)))
            == Cleared(db, space, Set(Names(first + second)))
  {
    hide Blocked, Deletable, Cleared, Names;
    NamesAppend(first, second);
    ClearedTwice(db, space, Set(Names(first)), Set(Names(second)));
    DeletableAppend(db, space, Names(first), Names(second));
  }

  lemma {:induction false} ProgressAppend(
      db: Db, space: Space, work: seq<Table>, mid: Db, kept: seq<Table>, first: seq<Deleted>,
      after: Db, left: seq<Table>, second: seq<Deleted>)
    requires forall t <- work :: t in db
    requires Distinct(work)
    requires Progress(db, space, work, mid, kept, first)
    requires forall t <- kept :: t in mid
    requires Progress(mid, space, kept, after, left, second)
    ensures Progress(db, space, work, after, left, first + second)
  {
    hide Blocked, Deletable, Cleared, Own, Others, Names, Set, Distinct;
    AppendParts(work, kept, first, left, second);
    AppendMembers(work, kept, first, left, second);
    AppendCounts(db, space, kept, first, second);
    AppendOrder(db, space, first, second);
  }

  lemma {:induction false} NotYetCleared(db: Db, space: Space, tables: set<Table>, t: Table)
    requires t in db && t !in tables
    ensures Cleared(db, space, tables)[t] == db[t]
  {
  }

  lemma {:induction false} SweepProgress(db: Db, space: Space, work: seq<Table>)
    requires forall t <- work :: t in db
    requires Distinct(work)
    ensures var p := Sweep(db, space, work); Progress(db, space, work, p.db, p.kept, p.done)
    decreases |work|
  {
    hide Blocked;
    if work == [] {
      NoProgress(db, space, work);
    } else {
      hide Progress;
      var t, rest := work[0], work[1..];
      assert work == [t] + rest;
      assert forall u <- rest :: u in db && u != t;
      if Blocked(db, space, t) {
        SweepProgress(db, space, rest);
        var p := Sweep(db, space, rest);
        SkipProgress(db, space, t, rest, p.db, p.kept, p.done);
      } else {
        var mid := Cleared(db, space, {t});
        SweepProgress(mid, space, rest);
        var p := Sweep(mid, space, rest);
        FirstProgress(db, space, t, rest);
        ProgressAppend(db, space, work, mid, rest, [Deleted(t, |Own(db[t], space)|)], p.db, p.kept, p.done);
      }
    }
  }

  lemma {:induction false} RunProgress(db: Db, space: Space, pending: seq<Table>, done: seq<Deleted>)
    returns (more: seq<Deleted>, left: seq<Table>)
    requires forall t <- pending :: t in db
    requires Distinct(pending)
    ensures var out := Run(db, space, pending, done);
      && Progress(db, space, pending, out.db, left, more)
      && Distinct(left)
      && (out.result.Ok? ==> left == [] && out.result.value == done + more)
      && (out.result.Raised? ==>
            left != [] && out.result.error.pending == left
            && forall t <- left :: t in out.db && Blocked(out.db, space, t))
    decreases |pending|
  {
    hide Blocked, Progress, Run, Sweep, Distinct;
    if pending == [] {
      more, left := [], [];
      NoProgress(db, space, []);
      RunNothing(db, space, done);
      assert done + [] == done;
    } else {
      var p := Sweep(db, space, pending);
      SweepProgress(db, space, pending);
      SweepKeepsDistinct(db, space, pending);
      RunSweeps(db, space, pending, done);
      if p.done == [] {
        more, left := [], pending;
        StuckIsBlocked(db, space, pending);
        NoProgress(db, space, pending);
      } else {
        var rest;
        rest, left := RunProgress(p.db, space, p.kept, done + p.done);
        more := p.done + rest;
        assert done + p.done + rest == done + more;
        var out := Run(p.db, space, p.kept, done + p.done);
        ProgressAppend(db, space, pending, p.db, p.kept, p.done, out.db, left, rest);
      }
    }
  }

  lemma {:induction false} RunNothing(db: Db, space: Space, done: seq<Deleted>)
    ensures Run(db, space, [], done) == Outcome(db, Ok(done)) && Distinct([])
  {
  }

  lemma {:induction false} RunSweeps(db: Db, space: Space, pending: seq<Table>, done: seq<Deleted>)
    requires pending != [] && forall t <- pending :: t in db
    ensures var p := Sweep(db, space, pending);
      && (forall t <- p.kept :: t in p.db) && |p.kept| + |p.done| == |pending|
      && Run(db, space, pending, done) ==
           if p.done == [] then Outcome(p.db, Raised(NoOrder(pending))) else Run(p.db, space, p.kept, done + p.done)
  {
    hide Sweep;
  }

  lemma {:induction false} StuckIsBlocked(db: Db, space: Space, work: seq<Table>)
    requires forall t <- work :: t in db
    requires Sweep(db, space, work).done == []
    ensures Sweep(db, space, work).db == db
    ensures forall t <- work :: Blocked(db, space, t)
    decreases |work|
  {
    hide Blocked;
    if work != [] {
      StuckIsBlocked(db, space, work[1..]);
    }
  }

  /** A run that returns has deleted every listed table once, in a working order, and left exactly the rows
      of the other spaces; one that raises has left tables that are all still referred to. */
  lemma {:induction false} RunIsExact(db: Db, space: Space, list: seq<Table>)
    requires forall t <- list :: t in db
    requires Distinct(list)
    ensures var out := Run(db, space, list, []);
      match out.result
      case Ok(done) =>
        && multiset(Names(done)) == multiset(list)
        && (forall d <- done :: d.table in db)
        && Deletable(db, space, Names(done))
        && (forall d <- done :: d.rows == |Own(db[d.table], space)|)
        && (forall t <- db :: t in out.db && Others(out.db[t], space) == Others(db[t], space))
        && (forall t <- db :: Own(out.db[t], space) == if t in list then map[] else Own(db[t], space))
      case Raised(e) => e.pending != [] && forall t <- e.pending :: t in out.db && Blocked(out.db, space, t)
  {
    hide Blocked, Run, Deletable, Cleared, Own, Others, Names;
    var more, left := RunProgress(db, space, list, []);
    assert [] + more == more;
    var out := Run(db, space, list, []);
    if out.result.Ok? {
      assert multiset(left) == multiset{};
      SameMembers(Names(more), list);
      forall t | t in db
        ensures t in out.db && Others(out.db[t], space) == Others(db[t], space)
        ensures Own(out.db[t], space) == if t in list then map[] else Own(db[t], space)
      {
        ClearedRows(db, space, Set(Names(more)), t);
      }
    }
  }

  lemma {:induction false} SameMembers(a: seq<Table>, b: seq<Table>)
    requires multiset(a) == multiset(b)
    ensures forall t :: t in a <==> t in b
  {
    forall t ensures t in a <==> t in b {
      assert t in a <==> t in multiset(a);
      assert t in b <==> t in multiset(b);
    }
  }

  lemma {:induction false} ClearedRows(db: Db, space: Space, tables: set<Table>, t: Table)
    requires t in db
    ensures var after := Cleared(db, space, tables);
      && t in after && Others(after[t], space) == Others(db[t], space)
      && Own(after[t], space) == if t in tables then map[] else Own(db[t], space)
  {
  }

  // ------------------------------------------------ it succeeds when anything can

  /** If the tables can be deleted in any order at all, trying them in the given order with postponement
      succeeds; so the listing decides nothing but the order of the result. */
  lemma {:induction false} SucceedsIffSomeOrderDoes(db: Db, space: Space, list: seq<Table>)
    requires forall t <- list :: t in db
    requires Distinct(list)
    ensures Run(db, space, list, []).result.Ok?
            <==> exists order: seq<Table> ::
                   multiset(order) == multiset(list) && (forall t <- order :: t in db) && Deletable(db, space, order)
  {
    hide Blocked, Deletable;
    RunIsExact(db, space, list);
    var out := Run(db, space, list, []);
    if out.result.Ok? {
      var order := Names(out.result.value);
      assert multiset(order) == multiset(list) && Deletable(db, space, order);
    }
    if order: seq<Table> :|
        multiset(order) == multiset(list) && (forall t <- order :: t in db) && Deletable(db, space, order) {
      SucceedsWithOrder(db, space, list, order);
    }
  }

  lemma {:induction false} SucceedsWithOrder(db: Db, space: Space, list: seq<Table>, order: seq<Table>)
    requires forall t <- list :: t in db
    requires Distinct(list)
    requires multiset(order) == multiset(list) && (forall t <- order :: t in db) && Deletable(db, space, order)
    ensures Run(db, space, list, []).result.Ok?
  {
    hide Blocked, Deletable, Cleared;
    var more, left := RunProgress(db, space, list, []);
    if left != [] {
      var gone := Set(Names(more));
      var x := left[0];
      assert x in left && x in list && x in multiset(list);
      assert x in order && x !in gone;
      assert order[..0] == [] && Set([]) == {};
      var t := OneOfThemIsFree(db, space, gone, order, 0);
      assert t in multiset(list);
      LeftIsRest(list, Names(more), left, t);
    }
  }

  /** Along a working order, the first table not yet cleared is not blocked, however much else is gone. */
  lemma {:induction false} OneOfThemIsFree(db: Db, space: Space, gone: set<Table>, order: seq<Table>, i: nat)
    returns (t: Table)
    requires forall t <- order :: t in db
    requires Deletable(db, space, order)
    requires i <= |order| && Set(order[..i]) <= gone
    requires exists t <- order :: t !in gone
    ensures t in order && t !in gone && !Blocked(Cleared(db, space, gone), space, t)
    decreases |order| - i
  {
    hide Blocked;
    assert order[..|order|] == order;
    t := order[i];
    if t in gone {
      assert order[..i + 1] == order[..i] + [t];
      t := OneOfThemIsFree(db, space, gone, order, i + 1);
    } else if Blocked(Cleared(db, space, gone), space, t) {
      BlockedBefore(db, space, Set(order[..i]), gone, t);
    }
  }

  // ---------------------------------------------------- acyclic foreign keys

  /** A foreign key of the catalogue: rows of `child` may refer to rows of `parent`. */
  datatype ForeignKey = ForeignKey(child: Table, parent: Table)

  ghost predicate Conforms(db: Db, keys: set<ForeignKey>) {
    forall u <- db, id, t | id in db[u] :: (exists ref <- db[u][id].refs :: ref.table == t) ==> ForeignKey(u, t) in keys
  }

  /** Only the space's own rows, in the listed tables, refer to the rows to be deleted. */
  ghost predicate OnlyOwnReferences(db: Db, space: Space, list: seq<Table>)
    requires forall t <- list :: t in db
  {
    forall u <- db, id, t <- list | id in db[u] && PointsAt(db, space, u, id, t) ::
      u in list && db[u][id].owner == space
  }

  /** A closed walk along the foreign keys through listed tables; a key of a table to itself is no step. */
  ghost predicate Cycle(keys: set<ForeignKey>, list: seq<Table>, path: seq<Table>) {
    && |path| >= 2 && path[0] == path[|path| - 1]
    && (forall t <- path :: t in list)
    && forall i :: 0 <= i < |path| - 1 ==> path[i] != path[i + 1] && ForeignKey(path[i], path[i + 1]) in keys
  }

  ghost predicate Acyclic(keys: set<ForeignKey>, list: seq<Table>) {
    forall path :: !Cycle(keys, list, path)
  }

  /** What a table is blocked by, after some of the tables are gone, is another of the tables still there. */
  lemma {:induction false} BlockedByPending(db: Db, space: Space, list: seq<Table>, gone: set<Table>, t: Table)
    returns (u: Table, id: Id)
    requires forall x <- list :: x in db
    requires OnlyOwnReferences(db, space, list)
    requires t in list && t !in gone && Blocked(Cleared(db, space, gone), space, t)
    ensures u in list && u !in gone && u != t
    ensures id in db[u] && db[u][id].owner == space && PointsAt(db, space, u, id, t)
  {
    var after: Db := Cleared(db, space, gone);
    u, id :| u in after && id in after[u] && (u != t || after[u][id].owner != space)
             && PointsAt(after, space, u, id, t);
    assert after[t] == db[t] && after[u][id] == db[u][id];
    assert PointsAt(db, space, u, id, t);
  }

  /** `_ordered_delete` raises only on a cycle, or on references from outside what it deletes. */
  lemma {:induction false} AcyclicNeverRaises(db: Db, space: Space, list: seq<Table>, keys: set<ForeignKey>)
    requires forall t <- list :: t in db
    requires Distinct(list)
    requires Conforms(db, keys) && Acyclic(keys, list) && OnlyOwnReferences(db, space, list)
    ensures Run(db, space, list, []).result.Ok?
  {
    hide Blocked, Deletable, Cleared;
    var more, left := RunProgress(db, space, list, []);
    if left != [] {
      var gone := Set(Names(more));
      forall t <- left ensures HasBlocker(keys, left, t) {
        var u, id := BlockedByPending(db, space, list, gone, t);
        LeftIsRest(list, Names(more), left, u);
        assert exists ref <- db[u][id].refs :: ref.table == t;
      }
      BlockersMakeCycle(keys, list, left);
    }
  }

  ghost predicate HasBlocker(keys: set<ForeignKey>, left: seq<Table>, t: Table) {
    exists u <- left :: u != t && ForeignKey(u, t) in keys
  }

  lemma {:induction false} BlockersMakeCycle(keys: set<ForeignKey>, list: seq<Table>, left: seq<Table>)
    requires left != [] && forall t <- left :: t in list && HasBlocker(keys, left, t)
    ensures !Acyclic(keys, list)
  {
    var path := Walk(keys, left, |Set(left)|);
    var i, j := Pigeonhole(path, Set(left));
    var cycle := path[i..j + 1];
    assert forall k :: 0 <= k < |cycle| ==> cycle[k] == path[i + k];
    assert Cycle(keys, list, cycle);
  }

  /** If it raises although only the space's own listed rows refer to its rows, every table still pending is
      referred to from another table still pending. */
  lemma {:induction false} StuckTablesBlockEachOther(db: Db, space: Space, list: seq<Table>, t: Table)
    returns (u: Table, id: Id)
    requires forall x <- list :: x in db
    requires Distinct(list) && OnlyOwnReferences(db, space, list)
    requires Run(db, space, list, []).result.Raised?
    requires t in Run(db, space, list, []).result.error.pending
    ensures var pending := Run(db, space, list, []).result.error.pending;
            t in list && u in pending && u != t && u in db && id in db[u]
            && db[u][id].owner == space && PointsAt(db, space, u, id, t)
  {
    hide Blocked, Deletable;
    var more, left := RunProgress(db, space, list, []);
    u, id := BlockedByPending(db, space, list, Set(Names(more)), t);
    LeftIsRest(list, Names(more), left, u);
  }

  lemma {:induction false} LeftIsRest(list: seq<Table>, gone: seq<Table>, left: seq<Table>, u: Table)
    requires multiset(gone) + multiset(left) == multiset(list)
    requires u in list && u !in gone
    ensures u in left
  {
    assert u in multiset(list) && u !in multiset(gone);
    assert u in multiset(left);
  }

  /** A walk of `n` steps, found by going from table to blocking table. */
  lemma {:induction false} Walk(keys: set<ForeignKey>, left: seq<Table>, n: nat) returns (path: seq<Table>)
    requires left != []
    requires forall t <- left :: HasBlocker(keys, left, t)
    ensures |path| == n + 1 && forall t <- path :: t in left
    ensures forall i :: 0 <= i < |path| - 1 ==> path[i] != path[i + 1] && ForeignKey(path[i], path[i + 1]) in keys
  {
    if n == 0 {
      path := [left[0]];
    } else {
      var rest := Walk(keys, left, n - 1);
      assert HasBlocker(keys, left, rest[0]);
      var u :| u in left && u != rest[0] && ForeignKey(u, rest[0]) in keys;
      path := [u] + rest;
    }
  }

  lemma {:induction false} Pigeonhole(path: seq<Table>, holes: set<Table>) returns (i: nat, j: nat)
    requires forall t <- path :: t in holes
    requires |path| > |holes|
    ensures i < j < |path| && path[i] == path[j]
    decreases |path|
  {
    var last := path[|path| - 1];
    var init := path[..|path| - 1];
    if k :| 0 <= k < |init| && init[k] == last {
      i, j := k, |path| - 1;
    } else {
      assert last in holes;
      i, j := Pigeonhole(init, holes - {last});
    }
  }

  // -------------------------------------------------- which table comes first

  /** A row of the space in `c` refers to a row of the space in `p`. */
  ghost predicate Refers(db: Db, space: Space, c: Table, p: Table) {
    c != p && c in db && p in db && exists id <- db[c] :: db[c][id].owner == space && PointsAt(db, space, c, id, p)
  }

  ghost predicate Chain(db: Db, space: Space, list: seq<Table>, path: seq<Table>) {
    && |path| >= 2
    && (forall t <- path :: t in list)
    && forall i :: 0 <= i < |path| - 1 ==> Refers(db, space, path[i], path[i + 1])
  }

  /** The space's rows refer, table by table, from `c` to `p`. */
  ghost predicate Chained(db: Db, space: Space, list: seq<Table>, c: Table, p: Table) {
    exists path :: Chain(db, space, list, path) && path[0] == c && path[|path| - 1] == p
  }

  ghost predicate Before(names: seq<Table>, c: Table, p: Table) {
    exists i, j :: 0 <= i < j < |names| && names[i] == c && names[j] == p
  }

  lemma {:induction false} RefersBlocks(db: Db, space: Space, gone: set<Table>, c: Table, p: Table)
    requires Refers(db, space, c, p) && c !in gone && p !in gone
    ensures Blocked(Cleared(db, space, gone), space, p)
  {
    var after: Db := Cleared(db, space, gone);
    var id: Id :| id in db[c] && db[c][id].owner == space && PointsAt(db, space, c, id, p);
    assert after[c] == db[c] && after[p] == db[p];
    assert PointsAt(after, space, c, id, p);
  }

  lemma {:induction false} ReferringGoesFirst(db: Db, space: Space, order: seq<Table>, j: nat, c: Table)
    requires forall t <- order :: t in db
    requires Distinct(order) && Deletable(db, space, order)
    requires j < |order| && Refers(db, space, c, order[j])
    ensures c in order[..j]
  {
    hide Blocked, Refers;
    if c !in order[..j] {
      RefersBlocks(db, space, Set(order[..j]), c, order[j]);
    }
  }

  lemma {:induction false} ChainGoesFirst(db: Db, space: Space, list: seq<Table>, order: seq<Table>, path: seq<Table>)
    requires forall t <- order :: t in db
    requires Distinct(order) && Deletable(db, space, order)
    requires Chain(db, space, list, path) && forall t <- list :: t in order
    ensures Before(order, path[0], path[|path| - 1])
    decreases |path|
  {
    hide Blocked, Deletable, Refers;
    var n := |path|;
    assert path[0] in path && path[1] in path;
    assert Refers(db, space, path[0], path[0 + 1]);
    if n == 2 {
      var j :| 0 <= j < |order| && order[j] == path[1];
      ReferringGoesFirst(db, space, order, j, path[0]);
    } else {
      ChainGoesFirst(db, space, list, order, path[1..]);
      var j, k :| 0 <= j < k < |order| && order[j] == path[1] && order[k] == path[n - 1];
      ReferringGoesFirst(db, space, order, j, path[0]);
    }
  }

  function Select(order: seq<Table>, chosen: set<Table>): (r: seq<Table>)
    ensures forall t :: t in r <==> t in order && t in chosen
  {
    if order == [] then []
    else (if order[0] in chosen then [order[0]] else []) + Select(order[1..], chosen)
  }

  lemma {:induction false} SelectSplits(order: seq<Table>, chosen: set<Table>)
    ensures multiset(Select(order, chosen)) + multiset(Select(order, Set(order) - chosen)) == multiset(order)
  {
    SelectSplitsFrom(order, chosen, Set(order) - chosen);
  }

  lemma {:induction false} SelectSplitsFrom(order: seq<Table>, chosen: set<Table>, others: set<Table>)
    requires chosen !! others && forall t <- order :: t in chosen || t in others
    ensures multiset(Select(order, chosen)) + multiset(Select(order, others)) == multiset(order)
  {
    hide Select;
    if order == [] {
      SelectNone(chosen);
      SelectNone(others);
    } else {
      var h, rest := order[0], order[1..];
      assert order == [h] + rest;
      SelectSplitsFrom(rest, chosen, others);
      SelectCons(h, rest, chosen);
      SelectCons(h, rest, others);
      assert h in order;
    }
  }

  lemma {:induction false} SelectLast(order: seq<Table>, t: Table, chosen: set<Table>)
    ensures Select(order + [t], chosen) == Select(order, chosen) + (if t in chosen then [t] else [])
  {
    hide Select;
    if order == [] {
      assert order + [t] == [t] + [];
      SelectCons(t, [], chosen);
      SelectNone(chosen);
    } else {
      var h, rest := order[0], order[1..];
      assert order == [h] + rest && order + [t] == [h] + (rest + [t]);
      SelectLast(rest, t, chosen);
      SelectCons(h, rest, chosen);
      SelectCons(h, rest + [t], chosen);
    }
  }

  lemma {:induction false} SelectCons(h: Table, rest: seq<Table>, chosen: set<Table>)
    ensures Select([h] + rest, chosen) == (if h in chosen then [h] else []) + Select(rest, chosen)
  {
    assert ([h] + rest)[1..] == rest;
  }

  lemma {:induction false} SelectNone(chosen: set<Table>)
    ensures Select([], chosen) == []
  {
  }

  /** `chosen` holds every table whose rows refer to a chosen one. */
  ghost predicate Upward(db: Db, space: Space, order: seq<Table>, chosen: set<Table>) {
    forall u, t :: u in order && t in chosen && Refers(db, space, u, t) ==> u in chosen
  }

  /** Such tables can be deleted by themselves, in the order they had among the others. */
  lemma {:induction false} UpwardIsDeletable(db: Db, space: Space, order: seq<Table>, chosen: set<Table>, k: nat)
    requires forall t <- order :: t in db
    requires Distinct(order) && Deletable(db, space, order) && Upward(db, space, order, chosen)
    requires k <= |order|
    ensures Deletable(db, space, Select(order[..k], chosen))
    decreases k
  {
    hide Blocked;
    if k > 0 {
      var t := order[k - 1];
      var some := Select(order[..k - 1], chosen);
      assert order[..k] == order[..k - 1] + [t];
      SelectLast(order[..k - 1], t, chosen);
      UpwardIsDeletable(db, space, order, chosen, k - 1);
      if t in chosen {
        NextIsFree(db, space, order, chosen, k - 1);
        DeletableLast(db, space, some, t);
      } else {
        assert some + [] == some;
      }
    }
  }

  lemma {:induction false} DeletableLast(db: Db, space: Space, order: seq<Table>, t: Table)
    requires t in db && forall u <- order :: u in db
    requires Deletable(db, space, order) && !Blocked(Cleared(db, space, Set(order)), space, t)
    ensures Deletable(db, space, order + [t])
  {
    hide Blocked, Others;
    var whole := order + [t];
    forall i | 0 <= i < |whole| ensures whole[i] in db && !Blocked(Cleared(db, space, Set(whole[..i])), space, whole[i]) {
      if i < |order| {
        assert whole[..i] == order[..i];
      } else {
        assert whole[..i] == order;
      }
    }
  }

  /** Clearing more tables unblocks `t` only where a cleared row of the space referred to it. */
  lemma {:induction false} Unblocked(db: Db, space: Space, fewer: set<Table>, more: set<Table>, t: Table) returns (u: Table)
    requires t in db && fewer <= more && t !in more
    requires Blocked(Cleared(db, space, fewer), space, t) && !Blocked(Cleared(db, space, more), space, t)
    ensures u in more && u !in fewer && Refers(db, space, u, t)
  {
    var before: Db, after: Db := Cleared(db, space, fewer), Cleared(db, space, more);
    var id: Id;
    u, id :| u in before && id in before[u] && (u != t || before[u][id].owner != space)
             && PointsAt(before, space, u, id, t);
    assert before[t] == db[t] == after[t] && before[u][id] == db[u][id];
    assert PointsAt(db, space, u, id, t);
    if id in after[u] {
      assert PointsAt(after, space, u, id, t);
    }
  }

  lemma {:induction false} NextIsFree(db: Db, space: Space, order: seq<Table>, chosen: set<Table>, k: nat)
    requires forall t <- order :: t in db
    requires Distinct(order) && Deletable(db, space, order) && Upward(db, space, order, chosen)
    requires k < |order| && order[k] in chosen
    ensures !Blocked(Cleared(db, space, Set(Select(order[..k], chosen))), space, order[k])
  {
    hide Blocked, Refers;
    var some := Set(Select(order[..k], chosen));
    if Blocked(Cleared(db, space, some), space, order[k]) {
      var u := Unblocked(db, space, some, Set(order[..k]), order[k]);
    }
  }

  /** Tables that can be deleted in the listed order are deleted in it, before anything else. */
  lemma {:induction false} SweepTakesPrefix(db: Db, space: Space, a: seq<Table>, b: seq<Table>)
    requires forall t <- a :: t in db
    requires forall t <- b :: t in db
    requires Deletable(db, space, a)
    ensures forall t <- a + b :: t in db
    ensures a <= Names(Sweep(db, space, a + b).done)
    decreases |a|
  {
    hide Blocked, Deletable, Sweep, Own;
    assert forall t <- a + b :: t in a || t in b;
    if a != [] {
      var t, rest := a[0], a[1..];
      DeletableTail(db, space, a);
      SweepTakesPrefix(Cleared(db, space, {t}), space, rest, b);
      SweepNext(db, space, t, rest + b);
      assert a + b == [t] + (rest + b);
      NamesAfter(t, |Own(db[t], space)|, Sweep(Cleared(db, space, {t}), space, rest + b).done, rest);
    }
  }

  lemma {:induction false} NamesAfter(t: Table, n: nat, done: seq<Deleted>, rest: seq<Table>)
    requires rest <= Names(done)
    ensures [t] + rest <= Names([Deleted(t, n)] + done)
  {
    assert ([Deleted(t, n)] + done)[1..] == done;
  }

  lemma {:induction false} DeletableTailAt(db: Db, space: Space, order: seq<Table>, i: nat)
    requires forall t <- order :: t in db
    requires i + 1 < |order| && !Blocked(Cleared(db, space, Set(order[..i + 1])), space, order[i + 1])
    ensures order[1..][i] == order[i + 1] && order[i + 1] in Cleared(db, space, {order[0]})
    ensures !Blocked(Cleared(Cleared(db, space, {order[0]}), space, Set(order[1..][..i])), space, order[i + 1])
  {
    hide Blocked, Others;
    assert order[i + 1] in order;
    assert order[..i + 1] == [order[0]] + order[1..][..i];
    assert Set(order[..i + 1]) == {order[0]} + Set(order[1..][..i]);
    ClearedTwice(db, space, {order[0]}, Set(order[1..][..i]));
  }

  lemma {:induction false} DeletableTail(db: Db, space: Space, order: seq<Table>)
    requires forall t <- order :: t in db
    requires order != [] && Deletable(db, space, order)
    ensures forall t <- order[1..] :: t in Cleared(db, space, {order[0]})
    ensures !Blocked(db, space, order[0]) && Deletable(Cleared(db, space, {order[0]}), space, order[1..])
  {
    hide Blocked, Set;
    FirstDeletable(db, space, order);
    var mid, rest := Cleared(db, space, {order[0]}), order[1..];
    assert forall t <- rest :: t in order && t in mid;
    hide Cleared;
    forall i | 0 <= i < |rest| ensures !Blocked(Cleared(mid, space, Set(rest[..i])), space, rest[i]) {
      DeletableTailAt(db, space, order, i);
    }
  }

  lemma {:induction false} FirstDeletable(db: Db, space: Space, order: seq<Table>)
    requires forall t <- order :: t in db
    requires order != [] && Deletable(db, space, order)
    ensures !Blocked(db, space, order[0])
  {
    hide Blocked, Cleared;
    assert order[..0] == [] && Set([]) == {};
    ClearedNone(db, space);
  }

  lemma {:induction false} RunTakesPrefix(db: Db, space: Space, a: seq<Table>, b: seq<Table>)
    requires forall t <- a + b :: t in db
    requires forall t <- a :: t in db
    requires a != [] && Deletable(db, space, a) && Distinct(a + b)
    requires Run(db, space, a + b, []).result.Ok?
    ensures a <= Names(Run(db, space, a + b, []).result.value)
  {
    hide Blocked, Deletable, Sweep;
    assert forall t <- b :: t in a + b;
    SweepTakesPrefix(db, space, a, b);
    var p := Sweep(db, space, a + b);
    SweepProgress(db, space, a + b);
    SweepKeepsDistinct(db, space, a + b);
    var more, left := RunProgress(p.db, space, p.kept, [] + p.done);
    assert [] + p.done == p.done;
    NamesAppend(p.done, more);
  }

  ghost predicate Listing(list: seq<Table>, listing: seq<Table>) {
    multiset(listing) == multiset(list)
  }

  lemma {:induction false} ListingIsAlike(list: seq<Table>, listing: seq<Table>)
    requires Distinct(list) && Listing(list, listing)
    ensures Distinct(listing) && forall t :: t in listing <==> t in list
  {
    forall t ensures t in listing <==> t in list {
      assert t in listing <==> t in multiset(listing);
      assert t in list <==> t in multiset(list);
    }
    forall i, j | 0 <= i < j < |listing| ensures listing[i] != listing[j] {
      if listing[i] == listing[j] {
        TwiceInMultiset(listing, i, j);
        OnceInMultiset(list, listing[i]);
      }
    }
  }

  lemma {:induction false} TwiceInMultiset(list: seq<Table>, i: nat, j: nat)
    requires i < j < |list| && list[i] == list[j]
    ensures multiset(list)[list[i]] >= 2
  {
    assert list == list[..j] + [list[j]] + list[j + 1..];
    assert list[i] == list[..j][i];
  }

  lemma {:induction false} OnceInMultiset(list: seq<Table>, t: Table)
    requires Distinct(list)
    ensures multiset(list)[t] <= 1
  {
    if list != [] {
      OnceInMultiset(list[1..], t);
      assert list == [list[0]] + list[1..];
      assert t == list[0] ==> t !in list[1..];
    }
  }

  /** Whether `c` is deleted before `p`, for every way of listing the tables. */
  ghost predicate AlwaysBefore(db: Db, space: Space, list: seq<Table>, c: Table, p: Table)
    requires forall t <- list :: t in db
  {
    forall listing :: Listing(list, listing) && (forall t <- listing :: t in db) ==>
      var r := Run(db, space, listing, []).result;
      r.Ok? && Before(Names(r.value), c, p)
  }

  lemma {:induction false} ChainedIsUpward(db: Db, space: Space, list: seq<Table>, p: Table, u: Table, t: Table)
    requires u in list && p in list && Refers(db, space, u, t)
    requires t == p || Chained(db, space, list, t, p)
    ensures Chained(db, space, list, u, p)
  {
    hide Refers;
    if t == p {
      assert Chain(db, space, list, [u, p]);
    } else {
      var path :| Chain(db, space, list, path) && path[0] == t && path[|path| - 1] == p;
      var longer := [u] + path;
      assert forall i :: 1 <= i < |longer| ==> longer[i] == path[i - 1];
      assert Chain(db, space, list, longer);
    }
  }

  lemma {:induction false} PrefixGoesFirst(names: seq<Table>, a: seq<Table>, c: Table, p: Table)
    requires Distinct(names) && a <= names && p in a && c !in a
    ensures !Before(names, c, p)
  {
  }

  /** The tables chained to `p`, listed first, leave every other table behind `p`. */
  lemma {:induction false} ParentCanGoFirst(db: Db, space: Space, list: seq<Table>, c: Table, p: Table)
    requires forall t <- list :: t in db
    requires Distinct(list) && c in list && p in list && c != p
    requires Run(db, space, list, []).result.Ok? && !Chained(db, space, list, c, p)
    ensures !AlwaysBefore(db, space, list, c, p)
  {
    hide Blocked, Deletable, Run, Before, Refers, Chained, Cleared, Upward, Names, Select, Listing, Distinct;
    RunIsExact(db, space, list);
    var order := Names(Run(db, space, list, []).result.value);
    ListingIsAlike(list, order);
    var chosen := set t | t in list && (t == p || Chained(db, space, list, t, p));
    ChosenIsUpward(db, space, list, order, chosen, p);
    var a, b := Select(order, chosen), Select(order, Set(order) - chosen);
    SelectSplits(order, chosen);
    assert order[..|order|] == order;
    UpwardIsDeletable(db, space, order, chosen, |order|);
    JoinIsListing(list, order, a, b);
    ListingIsAlike(list, a + b);
    SucceedsWithOrder(db, space, a + b, order);
    PrefixRun(db, space, a, b, c, p);
  }

  lemma {:induction false} JoinIsListing(list: seq<Table>, order: seq<Table>, a: seq<Table>, b: seq<Table>)
    requires Listing(list, order) && multiset(a) + multiset(b) == multiset(order)
    ensures Listing(list, a + b) && Listing(order, a + b)
  {
  }

  lemma {:induction false} ChosenIsUpward(
      db: Db, space: Space, list: seq<Table>, order: seq<Table>, chosen: set<Table>, p: Table)
    requires forall t :: t in order <==> t in list
    requires p in list && chosen == set t | t in list && (t == p || Chained(db, space, list, t, p))
    ensures Upward(db, space, order, chosen)
  {
    hide Refers, Chained;
    forall u, t | u in order && t in chosen && Refers(db, space, u, t) ensures u in chosen {
      ChainedIsUpward(db, space, list, p, u, t);
    }
  }

  lemma {:induction false} PrefixRun(db: Db, space: Space, a: seq<Table>, b: seq<Table>, c: Table, p: Table)
    requires forall t <- a + b :: t in db
    requires forall t <- a :: t in db
    requires Deletable(db, space, a) && Distinct(a + b)
    requires p in a && c !in a
    requires Run(db, space, a + b, []).result.Ok?
    ensures !Before(Names(Run(db, space, a + b, []).result.value), c, p)
  {
    hide Blocked, Deletable, Run, Before, Cleared;
    RunTakesPrefix(db, space, a, b);
    RunIsExact(db, space, a + b);
    var names := Names(Run(db, space, a + b, []).result.value);
    ListingIsAlike(a + b, names);
    PrefixGoesFirst(names, a, c, p);
  }

  /** A child table is sure to go before its parent exactly when rows of the space chain them. A foreign key
      between them does not do it by itself: without a referring row the parent may go first. */
  lemma {:induction false} BeforeIffChained(db: Db, space: Space, list: seq<Table>, c: Table, p: Table)
    requires forall t <- list :: t in db
    requires Distinct(list) && c in list && p in list && c != p
    requires Run(db, space, list, []).result.Ok?
    ensures AlwaysBefore(db, space, list, c, p) <==> Chained(db, space, list, c, p)
  {
    hide Blocked, Deletable, Run, Before, Refers;
    if Chained(db, space, list, c, p) {
      var path :| Chain(db, space, list, path) && path[0] == c && path[|path| - 1] == p;
      forall listing | Listing(list, listing) && forall t <- listing :: t in db
        ensures var r := Run(db, space, listing, []).result; r.Ok? && Before(Names(r.value), c, p)
      {
        ListingIsAlike(list, listing);
        RunIsExact(db, space, list);
        SucceedsWithOrder(db, space, listing, Names(Run(db, space, list, []).result.value));
        RunIsExact(db, space, listing);
        var order := Names(Run(db, space, listing, []).result.value);
        ListingIsAlike(list, order);
        ChainGoesFirst(db, space, list, order, path);
      }
    } else {
      ParentCanGoFirst(db, space, list, c, p);
    }
  }

  /** A foreign key whose child has no row of the space does not order the two tables. */
  lemma {:induction false} ForeignKeyAloneDoesNotOrder(space: Space)
    ensures var db: Db, keys := map["child" := map[], "parent" := map[]], {ForeignKey("child", "parent")};
      && Conforms(db, keys) && Acyclic(keys, ["parent", "child"])
      && !AlwaysBefore(db, space, ["parent", "child"], "child", "parent")
  {
    hide Blocked, Deletable, Run, Before;
    var db: Db, keys := map["child" := map[], "parent" := map[]], {ForeignKey("child", "parent")};
    var list := ["parent", "child"];
    assert "parent" != "child" by {
      assert |"parent"| != |"child"|;
    }
    forall path ensures !Cycle(keys, list, path) {
      if |path| > 2 && ForeignKey(path[0], path[0 + 1]) in keys {
        assert ForeignKey(path[1], path[1 + 1]) !in keys;
      }
    }
    AcyclicNeverRaises(db, space, list, keys);
    BeforeIffChained(db, space, list, "child", "parent");
    forall path ensures !Chain(db, space, list, path) {
      assert |path| >= 2 ==> !Refers(db, space, path[0], path[0 + 1]);
    }
  }
}
