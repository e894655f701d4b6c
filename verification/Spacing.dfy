/** How many of a sequence of moments can fall into an interval when they keep a distance. Times are whole
    microseconds, the resolution of `timestamptz`. */
module Spacing {

  const MINUTE := 60 * 1_000_000

  /** Each moment is at least `gap` after the one before it. */
  ghost predicate Spaced(moments: seq<int>, gap: int) {
    forall i :: 0 <= i < |moments| - 1 ==> moments[i] + gap <= moments[i + 1]
  }

  function CountIn(moments: seq<int>, from: int, to: int): nat {
    if moments == [] then 0
    else (if from <= moments[0] <= to then 1 else 0) + CountIn(moments[1..], from, to)
  }

  lemma {:induction false} LaterMoments(moments: seq<int>, gap: nat)
    requires Spaced(moments, gap) && moments != []
    ensures forall i :: 1 <= i < |moments| ==> moments[0] + gap <= moments[i]
    decreases |moments|
  {
    if |moments| > 1 {
      assert moments[0] + gap <= moments[0 + 1];
      TailIsSpaced(moments, gap);
      LaterMoments(moments[1..], gap);
    }
  }

  lemma {:induction false} TailIsSpaced(moments: seq<int>, gap: int)
    requires Spaced(moments, gap) && moments != []
    ensures Spaced(moments[1..], gap)
  {
    var tail := moments[1..];
    forall i | 0 <= i < |tail| - 1 ensures tail[i] + gap <= tail[i + 1] {
      assert moments[i + 1] + gap <= moments[i + 1 + 1];
    }
  }

  lemma {:induction false} NoneBefore(moments: seq<int>, from: int, later: int, to: int)
    requires from <= later && forall m <- moments :: later <= m
    ensures CountIn(moments, from, to) == CountIn(moments, later, to)
    ensures to < later ==> CountIn(moments, from, to) == 0
  {
    if moments != [] {
      assert moments[0] in moments && forall m <- moments[1..] :: m in moments;
      NoneBefore(moments[1..], from, later, to);
    }
  }

  /** An interval holds at most one moment more than it holds gaps: `n` moments span `n - 1` of them. */
  lemma {:induction false} CountBound(moments: seq<int>, gap: nat, from: int, to: int)
    requires Spaced(moments, gap)
    requires from <= to
    ensures (CountIn(moments, from, to) - 1) * gap <= to - from
    decreases |moments|
  {
    if moments != [] {
      var first, tail := moments[0], moments[1..];
      TailIsSpaced(moments, gap);
      if first < from || first > to {
        CountBound(tail, gap, from, to);
      } else {
        CountAfterFirst(moments, gap, from, to);
        var n := CountIn(tail, first + gap, to);
        if first + gap <= to {
          CountBound(tail, gap, first + gap, to);
          OneMoreGap(n, gap);
        }
      }
    }
  }

  lemma {:induction false} OneMoreGap(n: int, gap: int)
    ensures (n + 1 - 1) * gap == (n - 1) * gap + gap
  {
  }

  lemma {:induction false} CountAfterFirst(moments: seq<int>, gap: nat, from: int, to: int)
    requires Spaced(moments, gap) && moments != [] && from <= moments[0] <= to
    ensures CountIn(moments, from, to) == 1 + CountIn(moments[1..], moments[0] + gap, to)
    ensures to < moments[0] + gap ==> CountIn(moments, from, to) == 1
  {
    var first, tail := moments[0], moments[1..];
    LaterMoments(moments, gap);
    assert forall m <- tail :: first + gap <= m;
    NoneBefore(tail, from, first + gap, to);
  }
}
