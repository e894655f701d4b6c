/** The call-graph fixpoints of `inventory` in `spike-memory-pipeline.py`.

    `calls` maps each function of the core schema to the core functions its body names. The same loop runs
    twice: with the session-user guard as its only target, and with the SECURITY DEFINER functions as targets. */
module Reachability {

  type Name = string
  type Calls = map<Name, set<Name>>
  type Marks = map<Name, bool>

  /** Bodies are searched for core names only, so every callee is itself a key. */
  ghost predicate Closed(calls: Calls) {
    forall f <- calls :: calls[f] <= calls.Keys
  }

  /** A walk along calls, with at least one call. */
  ghost predicate IsPath(calls: Calls, path: seq<Name>) {
    && |path| >= 2
    && forall i :: 0 <= i < |path| - 1 ==> path[i] in calls && path[i + 1] in calls[path[i]]
  }

  ghost predicate Reaches(calls: Calls, targets: set<Name>, f: Name) {
    exists path :: IsPath(calls, path) && path[0] == f && path[|path| - 1] in targets
  }

  function Unmarked(marks: Marks): set<Name> {
    set f | f in marks && !marks[f]
  }

  predicate CallsMarked(calls: Calls, marks: Marks, f: Name)
    requires f in calls
  {
    exists c <- calls[f] :: c in marks && marks[c]
  }

  /** Every mark is justified by a path. */
  ghost predicate Sound(calls: Calls, targets: set<Name>, marks: Marks) {
    forall f <- marks :: marks[f] ==> Reaches(calls, targets, f)
  }

  /** Nothing is left to mark: a direct caller of a target is marked, and a caller of a marked function. */
  ghost predicate Settled(calls: Calls, targets: set<Name>, marks: Marks) {
    forall f <- calls :: f in marks && (calls[f] * targets != {} || CallsMarked(calls, marks, f) ==> marks[f])
  }

  lemma {:induction false} DirectCall(calls: Calls, targets: set<Name>, f: Name)
    requires f in calls && calls[f] * targets != {}
    ensures Reaches(calls, targets, f)
  {
    var c :| c in calls[f] * targets;
    assert IsPath(calls, [f, c]);
  }

  lemma {:induction false} CallExtends(calls: Calls, targets: set<Name>, f: Name, c: Name)
    requires f in calls && c in calls[f] && Reaches(calls, targets, c)
    ensures Reaches(calls, targets, f)
  {
    var path :| IsPath(calls, path) && path[0] == c && path[|path| - 1] in targets;
    var longer := [f] + path;
    assert forall i :: 1 <= i < |longer| ==> longer[i] == path[i - 1];
    assert IsPath(calls, longer);
  }

  /** Walking a path backwards, every function on it but the last is marked. */
  lemma {:induction false} SettledMarksPath(calls: Calls, targets: set<Name>, marks: Marks, path: seq<Name>)
    requires Settled(calls, targets, marks)
    requires IsPath(calls, path) && path[|path| - 1] in targets
    ensures path[0] in marks && marks[path[0]]
    decreases |path|
  {
    var f, c := path[0], path[1];
    assert f in calls && c in calls[f];
    if |path| == 2 {
      assert c in calls[f] * targets;
    } else {
      var rest := path[1..];
      assert forall i :: 0 <= i < |rest| ==> rest[i] == path[i + 1];
      assert IsPath(calls, rest);
      SettledMarksPath(calls, targets, marks, rest);
      assert CallsMarked(calls, marks, f);
    }
  }

  lemma {:induction false} SettledIsExact(calls: Calls, targets: set<Name>, marks: Marks)
    requires marks.Keys == calls.Keys
    requires Sound(calls, targets, marks) && Settled(calls, targets, marks)
    ensures forall f <- calls :: marks[f] <==> Reaches(calls, targets, f)
  {
    forall f | f in calls && Reaches(calls, targets, f) ensures marks[f] {
      var path :| IsPath(calls, path) && path[0] == f && path[|path| - 1] in targets;
      SettledMarksPath(calls, targets, marks, path);
    }
  }

  ghost predicate Marking(calls: Calls, targets: set<Name>, marks: Marks) {
    && marks.Keys == calls.Keys
    && Sound(calls, targets, marks)
    && forall f <- calls :: calls[f] * targets != {} ==> marks[f]
  }

  /** One pass of `while changed` over the functions, in the order the dictionary lists them. */
  method Sweep(calls: Calls, order: seq<Name>, targets: set<Name>, before: Marks)
    returns (marks: Marks, changed: bool)
    requires Marking(calls, targets, before)
    requires forall f :: f in order <==> f in calls
    ensures Marking(calls, targets, marks)
    ensures if changed then Unmarked(marks) < Unmarked(before) else marks == before && Settled(calls, targets, marks)
  {
    marks, changed := before, false;
    var i := 0;
    while i < |order|
      invariant 0 <= i <= |order|
      invariant Marking(calls, targets, marks)
      invariant if changed then Unmarked(marks) < Unmarked(before) else marks == before
      invariant !changed ==> forall j :: 0 <= j < i && CallsMarked(calls, before, order[j]) ==> before[order[j]]
    {
      var f := order[i];
      if !marks[f] && CallsMarked(calls, marks, f) {
        var c :| c in calls[f] && c in marks && marks[c];
        CallExtends(calls, targets, f, c);
        assert f in Unmarked(marks);
        marks, changed := marks[f := true], true;
      }
      i := i + 1;
    }
    if !changed {
      assert forall f <- calls :: exists j :: 0 <= j < |order| && order[j] == f;
    }
  }

  /** `while changed`, to its end; `passes` counts the sweeps. */
  method Fixpoint(calls: Calls, order: seq<Name>, targets: set<Name>) returns (marks: Marks, passes: nat)
    requires forall f :: f in order <==> f in calls
    ensures marks.Keys == calls.Keys
    ensures forall f <- calls :: marks[f] <==> Reaches(calls, targets, f)
    ensures passes <= |calls| + 1
  {
    marks := map f | f in calls :: calls[f] * targets != {};
    forall f | f in marks && marks[f] ensures Reaches(calls, targets, f) {
      DirectCall(calls, targets, f);
    }
    SubsetSize(Unmarked(marks), calls.Keys);
    passes := 0;
    var changed := true;
    while changed
      invariant Marking(calls, targets, marks)
      invariant !changed ==> Settled(calls, targets, marks)
      invariant passes + |Unmarked(marks)| <= |calls| + if changed then 0 else 1
      decreases |Unmarked(marks)|, changed
    {
      ghost var before := Unmarked(marks);
      marks, changed := Sweep(calls, order, targets, marks);
      passes := passes + 1;
      if changed {
        ProperSubsetSize(Unmarked(marks), before);
      }
    }
    SettledIsExact(calls, targets, marks);
  }

  lemma {:induction false} ProperSubsetSize<T>(a: set<T>, b: set<T>)
    requires a < b
    ensures |a| < |b|
  {
    assert b == a + (b - a) && b - a != {};
  }

  lemma {:induction false} SubsetSize<T>(a: set<T>, b: set<T>)
    requires a <= b
    ensures |a| <= |b|
  {
    assert b == a + (b - a);
  }

  /** One row of the inventory: a facade function outside the core schema that calls `direct`. */
  method Row(direct: set<Name>, calls: Calls, targets: set<Name>, marks: Marks) returns (reaches: bool)
    requires Closed(calls) && direct <= calls.Keys && marks.Keys == calls.Keys
    requires forall f <- calls :: marks[f] <==> Reaches(calls, targets, f)
    ensures forall facade :: facade !in calls ==> (reaches <==> Reaches(calls[facade := direct], targets, facade))
  {
    reaches := exists c <- direct :: c in targets || marks[c];
    forall facade | facade !in calls
      ensures reaches <==> Reaches(calls[facade := direct], targets, facade)
    {
      FacadeReaches(direct, calls, targets, facade);
    }
  }

  /** A function that nothing calls reaches a target exactly when a function it calls is one or reaches one. */
  lemma {:induction false} FacadeReaches(direct: set<Name>, calls: Calls, targets: set<Name>, facade: Name)
    requires Closed(calls) && direct <= calls.Keys && facade !in calls
    ensures Reaches(calls[facade := direct], targets, facade)
            <==> exists c <- direct :: c in targets || Reaches(calls, targets, c)
  {
    var all := calls[facade := direct];
    if Reaches(all, targets, facade) {
      var path :| IsPath(all, path) && path[0] == facade && path[|path| - 1] in targets;
      assert path[0] in all && path[1] in direct;
      if |path| > 2 {
        var rest := path[1..];
        StaysInCore(direct, calls, facade, path, |path| - 1);
        assert forall i :: 0 <= i < |rest| ==> rest[i] == path[i + 1] && rest[i] in calls;
        assert IsPath(calls, rest);
        assert Reaches(calls, targets, path[1]);
      }
    }
    if c :| c in direct && (c in targets || Reaches(calls, targets, c)) {
      if c in targets {
        assert c in all[facade] * targets;
        DirectCall(all, targets, facade);
      } else {
        var path :| IsPath(calls, path) && path[0] == c && path[|path| - 1] in targets;
        assert IsPath(all, path);
        CallExtends(all, targets, facade, c);
      }
    }
  }

  lemma {:induction false} StaysInCore(direct: set<Name>, calls: Calls, facade: Name, path: seq<Name>, n: nat)
    requires Closed(calls) && direct <= calls.Keys && facade !in calls
    requires IsPath(calls[facade := direct], path) && path[0] == facade && 1 <= n < |path|
    ensures forall i :: 1 <= i <= n ==> path[i] in calls
    decreases n
  {
    if n > 1 {
      StaysInCore(direct, calls, facade, path, n - 1);
      assert path[n - 1] in calls && path[n] in calls[path[n - 1]];
    } else {
      assert path[0] in calls[facade := direct] && path[1] in direct;
    }
  }
}
