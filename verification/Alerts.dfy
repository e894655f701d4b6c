/** Operator alerts (`alerts.py`): one row per condition, mailed when it appears, again while it lasts, and once
    when it clears. What is wrong at each run, and which messages the provider takes, are inputs. */
module Alerts {
  import opened Results
  import opened Spacing

  datatype Condition = Condition(fingerprint: string, kind: string, subject: string, detail: string)

  /** A row of `operator_alerts`: one episode of a condition. */
  datatype Alert = Alert(fingerprint: string, kind: string, subject: string, detail: string, firstSeen: int,
                         lastSeen: int, lastSent: Option<int>, sends: nat, resolvedAt: Option<int>, resolvedSent: bool)
  {
    predicate Open() { resolvedAt.None? }
  }

  /** A message the provider took: that row `row` is wrong, or that it cleared. */
  datatype Message = Wrong(row: nat, at: int) | Cleared(row: nat, at: int)

  datatype Report = Report(open: seq<string>, sent: seq<string>, resolved: seq<string>, suppressed: seq<string>)

  /** The table in row order, the messages delivered so far, and the report being filled. */
  datatype State = State(rows: seq<Alert>, mailed: seq<Message>, report: Report)

  /** One call of `run`: its clock, its switches, and which messages get through. */
  datatype Call = Call(now: int, send: bool, renotify: int, delivers: string -> bool, deliversCleared: string -> bool)

  datatype AlertsUnavailable = NoAddress | NoSender
  datatype Config = Config(hasRecipients: bool, hasSender: bool)

  // ------------------------------------------------------ what one run does

  /** `{c.fingerprint: c for c in conditions}`: the place of the first, the contents of the last. */
  function Upsert(distinct: seq<Condition>, c: Condition): (r: seq<Condition>)
    ensures forall f :: Named(r, f) <==> Named(distinct, f) || f == c.fingerprint
  {
    if distinct == [] then [c]
    else if distinct[0].fingerprint == c.fingerprint then [c] + distinct[1..]
    else [distinct[0]] + Upsert(distinct[1..], c)
  }

  function ByFingerprint(conditions: seq<Condition>): seq<Condition> {
    if conditions == [] then []
    else Upsert(ByFingerprint(conditions[..|conditions| - 1]), conditions[|conditions| - 1])
  }

  predicate Named(conditions: seq<Condition>, f: string) {
    conditions != [] && (conditions[0].fingerprint == f || Named(conditions[1..], f))
  }

  /** The row of the open episode, or the number of rows when there is none. */
  function FindOpen(rows: seq<Alert>, f: string): (i: nat)
    ensures i <= |rows|
    ensures i < |rows| ==> rows[i].Open() && rows[i].fingerprint == f
    ensures forall j :: 0 <= j < i ==> !(rows[j].Open() && rows[j].fingerprint == f)
  {
    if rows == [] || (rows[0].Open() && rows[0].fingerprint == f) then 0 else 1 + FindOpen(rows[1..], f)
  }

  predicate Due(lastSent: Option<int>, call: Call) {
    lastSent.None? || call.now - lastSent.value >= call.renotify
  }

  function Seen(rows: seq<Alert>, c: Condition, now: int): (r: seq<Alert>)
    ensures FindOpen(rows, c.fingerprint) < |r|
  {
    var i := FindOpen(rows, c.fingerprint);
    if i == |rows| then rows + [Alert(c.fingerprint, c.kind, c.subject, c.detail, now, now, None, 0, None, false)]
    else rows[i := rows[i].(lastSeen := now, subject := c.subject, detail := c.detail)]
  }

  /** The body of the first loop: record the condition, and mail it if it is due. */
  function Observe(s: State, c: Condition, call: Call): State {
    var i := FindOpen(s.rows, c.fingerprint);
    var rows := Seen(s.rows, c, call.now);
    var report := s.report.(open := s.report.open + [c.fingerprint]);
    if i < |s.rows| && !Due(s.rows[i].lastSent, call) then
      State(rows, s.mailed, report.(suppressed := report.suppressed + [c.fingerprint]))
    else if !call.send then
      State(rows, s.mailed, report.(sent := report.sent + [c.fingerprint]))
    else if !call.delivers(c.fingerprint) then
      State(rows, s.mailed, report)
    else
      State(rows[i := rows[i].(lastSent := Some(call.now), sends := rows[i].sends + 1)],
            s.mailed + [Wrong(i, call.now)], report.(sent := report.sent + [c.fingerprint]))
  }

  /** The body of the second loop, for one row that was open and is no longer wrong. */
  function Resolve(s: State, i: nat, call: Call): State
    requires i < |s.rows|
  {
    var row := s.rows[i].(resolvedAt := Some(call.now));
    var report := s.report.(resolved := s.report.resolved + [row.fingerprint]);
    if !call.send || row.sends == 0 then
      State(s.rows[i := row.(resolvedSent := true)], s.mailed, report)
    else if !call.deliversCleared(row.fingerprint) then
      State(s.rows[i := row], s.mailed, report)
    else
      State(s.rows[i := row.(resolvedSent := true)], s.mailed + [Cleared(i, call.now)], report)
  }

  function ObserveAll(s: State, conditions: seq<Condition>, call: Call): State
    decreases |conditions|
  {
    if conditions == [] then s else ObserveAll(Observe(s, conditions[0], call), conditions[1..], call)
  }

  function ResolveAll(s: State, wrong: seq<Condition>, from: nat, call: Call): (r: State)
    requires from <= |s.rows|
    decreases |s.rows| - from
  {
    if from == |s.rows| then s
    else if s.rows[from].Open() && !Named(wrong, s.rows[from].fingerprint)
    then ResolveAll(Resolve(s, from, call), wrong, from + 1, call)
    else ResolveAll(s, wrong, from + 1, call)
  }

  const EMPTY := Report([], [], [], [])

  function RunOnce(s: State, conditions: seq<Condition>, call: Call): State {
    var wrong := ByFingerprint(conditions);
    ResolveAll(ObserveAll(s.(report := EMPTY), wrong, call), wrong, 0, call)
  }

  lemma {:induction false} ObserveNext(s: State, wrong: seq<Condition>, k: nat, call: Call)
    requires k < |wrong|
    ensures ObserveAll(s, wrong[k..], call) == ObserveAll(Observe(s, wrong[k], call), wrong[k + 1..], call)
  {
    hide Observe;
    assert wrong[k..][1..] == wrong[k + 1..];
  }

  lemma {:induction false} ObserveNone(s: State, wrong: seq<Condition>, call: Call)
    ensures ObserveAll(s, wrong[|wrong|..], call) == s
  {
  }

  lemma {:induction false} ResolveNext(s: State, wrong: seq<Condition>, i: nat, call: Call)
    requires i < |s.rows|
    ensures |Resolve(s, i, call).rows| == |s.rows|
    ensures ResolveAll(s, wrong, i, call) ==
              ResolveAll(if s.rows[i].Open() && !Named(wrong, s.rows[i].fingerprint) then Resolve(s, i, call) else s, wrong, i + 1, call)
  {
  }

  lemma {:induction false} ResolveNone(s: State, wrong: seq<Condition>, call: Call)
    ensures ResolveAll(s, wrong, |s.rows|, call) == s
  {
  }

  class Deployment {
    var rows: seq<Alert>
    var mailed: seq<Message>

    constructor ()
      ensures rows == [] && mailed == []
    {
      rows, mailed := [], [];
    }

    method Run(config: Config, conditions: seq<Condition>, call: Call) returns (r: Result<Report, AlertsUnavailable>)
      modifies this
      ensures r.Raised? <==> call.send && (!config.hasRecipients || !config.hasSender)
      ensures r.Raised? ==> rows == old(rows) && mailed == old(mailed)
      ensures r.Ok? ==> State(rows, mailed, r.value) == RunOnce(State(old(rows), old(mailed), EMPTY), conditions, call)
    {
      if call.send && !config.hasRecipients {
        return Raised(NoAddress);
      }
      if call.send && !config.hasSender {
        return Raised(NoSender);
      }
      var wrong := ByFingerprint(conditions);
      hide ByFingerprint, Observe, Resolve, Named, FindOpen, ObserveAll, ResolveAll;
      var report := EMPTY;
      var k := 0;
      ghost var start := State(rows, mailed, report);
      assert wrong[0..] == wrong;
      while k < |wrong|
        invariant 0 <= k <= |wrong|
        invariant ObserveAll(State(rows, mailed, report), wrong[k..], call) == ObserveAll(start, wrong, call)
      {
        ObserveNext(State(rows, mailed, report), wrong, k, call);
        report := Notice(wrong[k], call, report);
        k := k + 1;
      }
      ghost var middle := State(rows, mailed, report);
      ObserveNone(middle, wrong, call);
      var i := 0;
      while i < |rows|
        invariant 0 <= i <= |rows|
        invariant ResolveAll(State(rows, mailed, report), wrong, i, call) == ResolveAll(middle, wrong, 0, call)
        decreases |rows| - i
      {
        ResolveNext(State(rows, mailed, report), wrong, i, call);
        if rows[i].Open() && !Named(wrong, rows[i].fingerprint) {
          report := Clear(i, call, report);
        }
        i := i + 1;
      }
      ResolveNone(State(rows, mailed, report), wrong, call);
      r := Ok(report);
    }

    /** The body of the first loop. */
    method Notice(c: Condition, call: Call, before: Report) returns (report: Report)
      modifies this
      ensures State(rows, mailed, report) == Observe(State(old(rows), old(mailed), before), c, call)
    {
      var f := c.fingerprint;
      report := before.(open := before.open + [f]);
      var i := FindOpen(rows, f);
      if i == |rows| {
        rows := rows + [Alert(f, c.kind, c.subject, c.detail, call.now, call.now, None, 0, None, false)];
      } else {
        var lastSent := rows[i].lastSent;
        rows := rows[i := rows[i].(lastSeen := call.now, subject := c.subject, detail := c.detail)];
        if lastSent != None && call.now - lastSent.value < call.renotify {
          report := report.(suppressed := report.suppressed + [f]);
          return;
        }
      }
      if !call.send {
        report := report.(sent := report.sent + [f]);
        return;
      }
      var delivered := call.delivers(f);
      if delivered {
        rows := rows[i := rows[i].(lastSent := Some(call.now), sends := rows[i].sends + 1)];
        mailed := mailed + [Wrong(i, call.now)];
        report := report.(sent := report.sent + [f]);
      }
    }

    /** The body of the second loop. */
    method Clear(i: nat, call: Call, before: Report) returns (report: Report)
      requires i < |rows|
      modifies this
      ensures State(rows, mailed, report) == Resolve(State(old(rows), old(mailed), before), i, call)
    {
      var row := rows[i];
      rows := rows[i := row.(resolvedAt := Some(call.now))];
      report := before.(resolved := before.resolved + [row.fingerprint]);
      if !call.send || row.sends == 0 {
        rows := rows[i := rows[i].(resolvedSent := true)];
      } else if call.deliversCleared(row.fingerprint) {
        rows := rows[i := rows[i].(resolvedSent := true)];
        mailed := mailed + [Cleared(i, call.now)];
      }
    }
  }

  /** The partial unique index: one open row per fingerprint. */
  ghost predicate OneOpenEach(rows: seq<Alert>) {
    forall i, j :: 0 <= i < j < |rows| && rows[i].Open() && rows[j].Open() ==> rows[i].fingerprint != rows[j].fingerprint
  }

  // --------------------------------------------------------- whole histories

  /** When row `row` was mailed as wrong. */
  function Sends(mailed: seq<Message>, row: nat): seq<int> {
    if mailed == [] then []
    else
      var m := mailed[|mailed| - 1];
      Sends(mailed[..|mailed| - 1], row) + if m.Wrong? && m.row == row then [m.at] else []
  }

  /** How often row `row` was mailed as cleared. */
  function Clearings(mailed: seq<Message>, row: nat): nat {
    if mailed == [] then 0
    else
      var m := mailed[|mailed| - 1];
      Clearings(mailed[..|mailed| - 1], row) + if m.Cleared? && m.row == row then 1 else 0
  }

  lemma {:induction false} MailedLast(mailed: seq<Message>, m: Message, row: nat)
    ensures Sends(mailed + [m], row) == Sends(mailed, row) + if m.Wrong? && m.row == row then [m.at] else []
    ensures Clearings(mailed + [m], row) == Clearings(mailed, row) + if m.Cleared? && m.row == row then 1 else 0
  {
    assert (mailed + [m])[..|mailed|] == mailed;
  }

  /** What the messages of one episode have to do with its row. */
  ghost predicate Accounted(a: Alert, sends: seq<int>, clearings: nat, clock: int, renotify: int) {
    && a.firstSeen <= a.lastSeen <= clock
    && a.sends == |sends|
    && a.lastSent == (if sends == [] then None else Some(sends[|sends| - 1]))
    && Spaced(sends, renotify)
    && (forall t <- sends :: a.firstSeen <= t <= a.lastSeen)
    && clearings <= 1
    && (clearings == 1 ==> !a.Open() && a.sends > 0)
    && (!a.Open() ==> a.lastSeen <= a.resolvedAt.value <= clock)
  }

  ghost predicate Inv(s: State, clock: int, renotify: int) {
    && OneOpenEach(s.rows)
    && (forall m <- s.mailed :: m.row < |s.rows|)
    && forall i :: 0 <= i < |s.rows| ==>
         Accounted(s.rows[i], Sends(s.mailed, i), Clearings(s.mailed, i), clock, renotify)
  }

  /** Rows are never removed, and an episode keeps its condition and its beginning. */
  ghost predicate Keeps(before: seq<Alert>, after: seq<Alert>) {
    && |before| <= |after|
    && forall i :: 0 <= i < |before| ==>
         && after[i].fingerprint == before[i].fingerprint && after[i].firstSeen == before[i].firstSeen
         && after[i].sends >= before[i].sends
         && (!before[i].Open() ==> after[i] == before[i])
  }

  lemma {:induction false} NothingMailed(mailed: seq<Message>, row: nat)
    requires forall m <- mailed :: m.row < row
    ensures Sends(mailed, row) == [] && Clearings(mailed, row) == 0
  {
    if mailed != [] {
      assert mailed[|mailed| - 1] in mailed;
      NothingMailed(mailed[..|mailed| - 1], row);
    }
  }

  lemma {:induction false} SpacedLast(sends: seq<int>, t: int, gap: int)
    requires Spaced(sends, gap) && (sends != [] ==> sends[|sends| - 1] + gap <= t)
    ensures Spaced(sends + [t], gap)
  {
    var longer := sends + [t];
    forall i | 0 <= i < |longer| - 1 ensures longer[i] + gap <= longer[i + 1] {
      if i < |sends| - 1 {
        assert sends[i] + gap <= sends[i + 1];
      }
    }
  }

  lemma {:induction false} AccountedLater(a: Alert, sends: seq<int>, clearings: nat, clock: int, later: int, renotify: int)
    requires Accounted(a, sends, clearings, clock, renotify) && clock <= later
    ensures Accounted(a, sends, clearings, later, renotify)
    ensures a.Open() ==> forall subject, detail ::
              Accounted(a.(lastSeen := later, subject := subject, detail := detail), sends, clearings, later, renotify)
  {
  }

  lemma {:induction false} AccountedNew(c: Condition, now: int, renotify: int)
    ensures Accounted(Alert(c.fingerprint, c.kind, c.subject, c.detail, now, now, None, 0, None, false), [], 0, now, renotify)
  {
  }

  lemma {:induction false} AccountedMailed(a: Alert, sends: seq<int>, clearings: nat, now: int, renotify: int)
    requires Accounted(a, sends, clearings, now, renotify) && a.Open() && a.lastSeen == now
    requires a.lastSent.None? || now - a.lastSent.value >= renotify
    ensures Accounted(a.(lastSent := Some(now), sends := a.sends + 1), sends + [now], clearings, now, renotify)
  {
    SpacedLast(sends, now, renotify);
  }

  lemma {:induction false} SeenKeepsOpen(rows: seq<Alert>, c: Condition, now: int)
    requires OneOpenEach(rows)
    ensures OneOpenEach(Seen(rows, c, now)) && Keeps(rows, Seen(rows, c, now))
  {
  }

  lemma {:induction false} SeenKeepsInv(s: State, c: Condition, call: Call, clock: int)
    requires Inv(s, clock, call.renotify) && clock <= call.now
    ensures Inv(s.(rows := Seen(s.rows, c, call.now)), call.now, call.renotify)
    ensures Keeps(s.rows, Seen(s.rows, c, call.now))
  {
    hide Accounted, OneOpenEach, Keeps, Sends, Clearings;
    var i := FindOpen(s.rows, c.fingerprint);
    var rows := Seen(s.rows, c, call.now);
    SeenKeepsOpen(s.rows, c, call.now);
    if i == |s.rows| {
      NothingMailed(s.mailed, i);
      AccountedNew(c, call.now, call.renotify);
    }
    forall j | 0 <= j < |rows|
      ensures Accounted(rows[j], Sends(s.mailed, j), Clearings(s.mailed, j), call.now, call.renotify)
    {
      if j < |s.rows| {
        AccountedLater(s.rows[j], Sends(s.mailed, j), Clearings(s.mailed, j), clock, call.now, call.renotify);
      }
    }
  }

  lemma {:induction false} SentKeepsOpen(rows: seq<Alert>, i: nat, now: int)
    requires OneOpenEach(rows) && i < |rows|
    ensures OneOpenEach(rows[i := rows[i].(lastSent := Some(now), sends := rows[i].sends + 1)])
  {
  }

  /** A due row that is mailed. */
  lemma {:induction false} MailKeepsInv(s: State, i: nat, call: Call)
    requires Inv(s, call.now, call.renotify) && i < |s.rows|
    requires s.rows[i].Open() && s.rows[i].lastSeen == call.now && Due(s.rows[i].lastSent, call)
    ensures var rows := s.rows[i := s.rows[i].(lastSent := Some(call.now), sends := s.rows[i].sends + 1)];
            Inv(s.(rows := rows, mailed := s.mailed + [Wrong(i, call.now)]), call.now, call.renotify)
  {
    hide Accounted, OneOpenEach, Sends, Clearings;
    var rows := s.rows[i := s.rows[i].(lastSent := Some(call.now), sends := s.rows[i].sends + 1)];
    var mailed := s.mailed + [Wrong(i, call.now)];
    SentKeepsOpen(s.rows, i, call.now);
    forall j | 0 <= j < |rows|
      ensures Accounted(rows[j], Sends(mailed, j), Clearings(mailed, j), call.now, call.renotify)
    {
      MailedLast(s.mailed, Wrong(i, call.now), j);
      assert Sends(s.mailed, j) + [] == Sends(s.mailed, j);
      if j == i {
        AccountedMailed(s.rows[i], Sends(s.mailed, i), Clearings(s.mailed, i), call.now, call.renotify);
      }
    }
  }

  lemma {:induction false} ObserveKeepsInv(s: State, c: Condition, call: Call, clock: int)
    requires Inv(s, clock, call.renotify) && clock <= call.now
    ensures Inv(Observe(s, c, call), call.now, call.renotify)
    ensures Keeps(s.rows, Observe(s, c, call).rows)
  {
    hide Accounted, OneOpenEach, Sends, Clearings;
    SeenKeepsInv(s, c, call, clock);
    var i := FindOpen(s.rows, c.fingerprint);
    if (i == |s.rows| || Due(s.rows[i].lastSent, call)) && call.send && call.delivers(c.fingerprint) {
      MailKeepsInv(s.(rows := Seen(s.rows, c, call.now)), i, call);
    }
  }

  lemma {:induction false} ResolveKeepsInv(s: State, i: nat, call: Call)
    requires Inv(s, call.now, call.renotify) && i < |s.rows| && s.rows[i].Open()
    ensures Inv(Resolve(s, i, call), call.now, call.renotify)
    ensures Keeps(s.rows, Resolve(s, i, call).rows)
  {
    hide Sends, Clearings;
    var after := Resolve(s, i, call);
    forall j | 0 <= j < |after.rows|
      ensures Accounted(after.rows[j], Sends(after.mailed, j), Clearings(after.mailed, j), call.now, call.renotify)
    {
      MailedLast(s.mailed, Cleared(i, call.now), j);
      assert Accounted(s.rows[j], Sends(s.mailed, j), Clearings(s.mailed, j), call.now, call.renotify);
    }
  }

  lemma {:induction false} KeepsTrans(a: seq<Alert>, b: seq<Alert>, c: seq<Alert>)
    requires Keeps(a, b) && Keeps(b, c)
    ensures Keeps(a, c)
  {
  }

  lemma {:induction false} ObserveAllKeepsInv(s: State, conditions: seq<Condition>, call: Call, clock: int)
    requires Inv(s, clock, call.renotify) && clock <= call.now
    ensures Inv(ObserveAll(s, conditions, call), if conditions == [] then clock else call.now, call.renotify)
    ensures Keeps(s.rows, ObserveAll(s, conditions, call).rows)
    decreases |conditions|
  {
    hide Inv, Observe;
    if conditions != [] {
      var next := Observe(s, conditions[0], call);
      ObserveKeepsInv(s, conditions[0], call, clock);
      ObserveAllKeepsInv(next, conditions[1..], call, call.now);
      KeepsTrans(s.rows, next.rows, ObserveAll(next, conditions[1..], call).rows);
    }
  }

  lemma {:induction false} ResolveAllKeepsInv(s: State, wrong: seq<Condition>, from: nat, call: Call)
    requires Inv(s, call.now, call.renotify) && from <= |s.rows|
    ensures Inv(ResolveAll(s, wrong, from, call), call.now, call.renotify)
    ensures Keeps(s.rows, ResolveAll(s, wrong, from, call).rows)
    decreases |s.rows| - from
  {
    hide Inv;
    if from < |s.rows| {
      if s.rows[from].Open() && !Named(wrong, s.rows[from].fingerprint) {
        var next := Resolve(s, from, call);
        ResolveKeepsInv(s, from, call);
        ResolveAllKeepsInv(next, wrong, from + 1, call);
        KeepsTrans(s.rows, next.rows, ResolveAll(next, wrong, from + 1, call).rows);
      } else {
        ResolveAllKeepsInv(s, wrong, from + 1, call);
      }
    }
  }

  lemma {:induction false} ClockAdvances(s: State, clock: int, later: int, renotify: int)
    requires Inv(s, clock, renotify) && clock <= later
    ensures Inv(s, later, renotify)
  {
    forall i | 0 <= i < |s.rows| ensures Accounted(s.rows[i], Sends(s.mailed, i), Clearings(s.mailed, i), later, renotify) {
      assert Accounted(s.rows[i], Sends(s.mailed, i), Clearings(s.mailed, i), clock, renotify);
    }
  }

  lemma {:induction false} RunKeepsInv(s: State, conditions: seq<Condition>, call: Call, clock: int)
    requires Inv(s, clock, call.renotify) && clock <= call.now
    ensures Inv(RunOnce(s, conditions, call), call.now, call.renotify)
    ensures Keeps(s.rows, RunOnce(s, conditions, call).rows)
  {
    var wrong := ByFingerprint(conditions);
    var start := s.(report := EMPTY);
    ObserveAllKeepsInv(start, wrong, call, clock);
    var middle := ObserveAll(start, wrong, call);
    if wrong == [] {
      ClockAdvances(middle, clock, call.now, call.renotify);
    }
    ResolveAllKeepsInv(middle, wrong, 0, call);
    KeepsTrans(s.rows, middle.rows, RunOnce(s, conditions, call).rows);
  }

  datatype Firing = Firing(conditions: seq<Condition>, call: Call)

  /** Any number of runs with one interval and a clock that does not go back. */
  ghost predicate History(firings: seq<Firing>, clock: int, renotify: int)
    decreases |firings|
  {
    firings != [] ==>
      && clock <= firings[0].call.now && firings[0].call.renotify == renotify
      && History(firings[1..], firings[0].call.now, renotify)
  }

  function RunAll(s: State, firings: seq<Firing>): State
    decreases |firings|
  {
    if firings == [] then s else RunAll(RunOnce(s, firings[0].conditions, firings[0].call), firings[1..])
  }

  function Clock(firings: seq<Firing>, clock: int): int {
    if firings == [] then clock else firings[|firings| - 1].call.now
  }

  lemma {:induction false} HistoryKeepsInv(s: State, firings: seq<Firing>, clock: int, renotify: int)
    requires History(firings, clock, renotify) && Inv(s, clock, renotify)
    ensures Inv(RunAll(s, firings), Clock(firings, clock), renotify)
    ensures Keeps(s.rows, RunAll(s, firings).rows)
    decreases |firings|
  {
    hide Inv, RunOnce;
    if firings != [] {
      var f := firings[0];
      var next := RunOnce(s, f.conditions, f.call);
      RunKeepsInv(s, f.conditions, f.call, clock);
      HistoryKeepsInv(next, firings[1..], f.call.now, renotify);
      KeepsTrans(s.rows, next.rows, RunAll(next, firings[1..]).rows);
    }
  }

  /** Over any history that starts with an empty table: one open row per condition; the messages of an episode
      are an interval apart, so no more than fit between its first and last sighting; it is reported cleared at
      most once, only after it is over, and never if nobody was told that it was wrong. */
  lemma {:induction false} Episodes(firings: seq<Firing>, clock: int, renotify: int)
    requires History(firings, clock, renotify) && renotify > 0
    ensures var s := RunAll(State([], [], EMPTY), firings);
      && OneOpenEach(s.rows)
      && forall i :: 0 <= i < |s.rows| ==>
           var a, sends := s.rows[i], Sends(s.mailed, i);
           && a.sends == |sends| && Spaced(sends, renotify)
           && (a.sends - 1) * renotify <= a.lastSeen - a.firstSeen
           && Clearings(s.mailed, i) <= 1
           && (Clearings(s.mailed, i) == 1 ==> !a.Open() && sends != [])
  {
    HistoryKeepsInv(State([], [], EMPTY), firings, clock, renotify);
    var s := RunAll(State([], [], EMPTY), firings);
    forall i | 0 <= i < |s.rows|
      ensures (s.rows[i].sends - 1) * renotify <= s.rows[i].lastSeen - s.rows[i].firstSeen
    {
      var a, sends := s.rows[i], Sends(s.mailed, i);
      assert Accounted(a, sends, Clearings(s.mailed, i), Clock(firings, clock), renotify);
      CountBound(sends, renotify, a.firstSeen, a.lastSeen);
      AllCounted(sends, a.firstSeen, a.lastSeen);
    }
  }

  lemma {:induction false} AllCounted(moments: seq<int>, from: int, to: int)
    requires forall m <- moments :: from <= m <= to
    ensures CountIn(moments, from, to) == |moments|
  {
    if moments != [] {
      assert moments[0] in moments && forall m <- moments[1..] :: m in moments;
      AllCounted(moments[1..], from, to);
    }
  }

  // ------------------------------------------------- what one run leaves open

  ghost predicate HasOpen(rows: seq<Alert>, f: string) {
    exists i :: 0 <= i < |rows| && rows[i].Open() && rows[i].fingerprint == f
  }

  lemma {:induction false} ObserveOpens(s: State, c: Condition, call: Call, f: string)
    ensures HasOpen(Observe(s, c, call).rows, f) <==> HasOpen(s.rows, f) || f == c.fingerprint
  {
    var i := FindOpen(s.rows, c.fingerprint);
    var rows := Observe(s, c, call).rows;
    assert rows[i].Open() && rows[i].fingerprint == c.fingerprint;
    assert forall j :: 0 <= j < |s.rows| ==>
             rows[j].Open() == s.rows[j].Open() && rows[j].fingerprint == s.rows[j].fingerprint;
    assert HasOpen(rows, c.fingerprint);
    if HasOpen(s.rows, f) {
      var j :| 0 <= j < |s.rows| && s.rows[j].Open() && s.rows[j].fingerprint == f;
      assert rows[j].Open() && rows[j].fingerprint == f;
    }
  }

  lemma {:induction false} ObserveAllOpens(s: State, conditions: seq<Condition>, call: Call, f: string)
    ensures HasOpen(ObserveAll(s, conditions, call).rows, f) <==> HasOpen(s.rows, f) || Named(conditions, f)
    decreases |conditions|
  {
    if conditions != [] {
      ObserveOpens(s, conditions[0], call, f);
      ObserveAllOpens(Observe(s, conditions[0], call), conditions[1..], call, f);
    }
  }

  lemma {:induction false} ResolveAllCloses(s: State, wrong: seq<Condition>, from: nat, call: Call, j: nat)
    requires from <= |s.rows| && j < |s.rows|
    ensures var rows := ResolveAll(s, wrong, from, call).rows;
      && |rows| == |s.rows| && rows[j].fingerprint == s.rows[j].fingerprint
      && (rows[j].Open() <==> s.rows[j].Open() && (j < from || Named(wrong, s.rows[j].fingerprint)))
      && (rows[j].Open() ==> rows[j] == s.rows[j])
    decreases |s.rows| - from
  {
    if from < |s.rows| {
      if s.rows[from].Open() && !Named(wrong, s.rows[from].fingerprint) {
        ResolveAllCloses(Resolve(s, from, call), wrong, from + 1, call, j);
      } else {
        ResolveAllCloses(s, wrong, from + 1, call, j);
      }
    }
  }

  lemma {:induction false} ByFingerprintNames(conditions: seq<Condition>, f: string)
    ensures Named(ByFingerprint(conditions), f) <==> exists c <- conditions :: c.fingerprint == f
  {
    if conditions != [] {
      var n := |conditions| - 1;
      ByFingerprintNames(conditions[..n], f);
      assert conditions == conditions[..n] + [conditions[n]];
    }
  }

  /** After a run, the open rows are exactly the conditions it found. */
  lemma {:induction false} OpenIffFound(s: State, conditions: seq<Condition>, call: Call, f: string)
    ensures HasOpen(RunOnce(s, conditions, call).rows, f) <==> exists c <- conditions :: c.fingerprint == f
  {
    var wrong := ByFingerprint(conditions);
    ByFingerprintNames(conditions, f);
    var middle := ObserveAll(s.(report := EMPTY), wrong, call);
    ObserveAllOpens(s.(report := EMPTY), wrong, call, f);
    var rows := ResolveAll(middle, wrong, 0, call).rows;
    forall j | 0 <= j < |middle.rows|
      ensures |rows| == |middle.rows| && rows[j].fingerprint == middle.rows[j].fingerprint
      ensures rows[j].Open() <==> middle.rows[j].Open() && Named(wrong, middle.rows[j].fingerprint)
    {
      ResolveAllCloses(middle, wrong, 0, call, j);
    }
    if HasOpen(middle.rows, f) && Named(wrong, f) {
      var j :| 0 <= j < |middle.rows| && middle.rows[j].Open() && middle.rows[j].fingerprint == f;
      assert rows[j].Open() && rows[j].fingerprint == f;
    }
    if HasOpen(rows, f) {
      var j :| 0 <= j < |rows| && rows[j].Open() && rows[j].fingerprint == f;
      assert middle.rows == [] ==> |rows| == 0;
    }
  }

  // ------------------------------------------------- what one run does, row by row

  ghost predicate Found(conditions: seq<Condition>, f: string) {
    exists c <- conditions :: c.fingerprint == f
  }

  /** The last thing a run found under this fingerprint. */
  ghost predicate LastFound(conditions: seq<Condition>, c: Condition) {
    exists k :: 0 <= k < |conditions| && conditions[k] == c
                && forall j :: k < j < |conditions| ==> conditions[j].fingerprint != c.fingerprint
  }

  ghost predicate DistinctNames(wrong: seq<Condition>) {
    forall i, j :: 0 <= i < j < |wrong| ==> wrong[i].fingerprint != wrong[j].fingerprint
  }

  lemma {:induction false} NamedIs(wrong: seq<Condition>, f: string)
    ensures Named(wrong, f) <==> exists c <- wrong :: c.fingerprint == f
  {
    if wrong != [] {
      NamedIs(wrong[1..], f);
      assert forall c :: c in wrong <==> c == wrong[0] || c in wrong[1..];
    }
  }

  lemma {:induction false} UpsertIs(distinct: seq<Condition>, c: Condition)
    requires DistinctNames(distinct)
    ensures DistinctNames(Upsert(distinct, c))
    ensures forall d :: d in Upsert(distinct, c) <==> d == c || (d in distinct && d.fingerprint != c.fingerprint)
  {
    if distinct != [] {
      var rest := distinct[1..];
      assert forall d :: d in distinct <==> d == distinct[0] || d in rest;
      assert forall i :: 0 <= i < |rest| ==> rest[i].fingerprint != distinct[0].fingerprint;
      UpsertIs(rest, c);
    }
  }

  lemma {:induction false} ByFingerprintIs(conditions: seq<Condition>)
    ensures DistinctNames(ByFingerprint(conditions))
    ensures forall c :: c in ByFingerprint(conditions) <==> LastFound(conditions, c)
  {
    if conditions != [] {
      var n := |conditions| - 1;
      ByFingerprintIs(conditions[..n]);
      UpsertIs(ByFingerprint(conditions[..n]), conditions[n]);
      forall c ensures LastFound(conditions, c)
                       <==> c == conditions[n] || (LastFound(conditions[..n], c) && c.fingerprint != conditions[n].fingerprint)
      {
        LastFoundNext(conditions, c);
      }
    }
  }

  lemma {:induction false} LastFoundNext(conditions: seq<Condition>, c: Condition)
    requires conditions != []
    ensures var n := |conditions| - 1;
      LastFound(conditions, c)
      <==> c == conditions[n] || (LastFound(conditions[..n], c) && c.fingerprint != conditions[n].fingerprint)
  {
    var n := |conditions| - 1;
    if LastFound(conditions, c) && c != conditions[n] {
      var k :| 0 <= k < |conditions| && conditions[k] == c
               && forall j :: k < j < |conditions| ==> conditions[j].fingerprint != c.fingerprint;
      assert k < n && conditions[..n][k] == c;
    }
    if LastFound(conditions[..n], c) && c.fingerprint != conditions[n].fingerprint {
      var k :| 0 <= k < n && conditions[..n][k] == c
               && forall j :: k < j < n ==> conditions[..n][j].fingerprint != c.fingerprint;
      forall j | k < j < |conditions| ensures conditions[j].fingerprint != c.fingerprint {
        assert j < n ==> conditions[..n][j] == conditions[j];
      }
      assert conditions[k] == c;
    }
  }

  /** A row that is still wrong, with the message it is given. */
  function Lasting(a: Alert, c: Condition, call: Call): Alert {
    var seen := a.(lastSeen := call.now, subject := c.subject, detail := c.detail);
    if Due(a.lastSent, call) && call.send && call.delivers(c.fingerprint)
    then seen.(lastSent := Some(call.now), sends := a.sends + 1) else seen
  }

  /** What is the same of row `j` in both states: the row, and what was mailed about it. */
  ghost predicate SameRow(s: State, after: State, j: nat) {
    && j < |s.rows| && j < |after.rows| && after.rows[j] == s.rows[j]
    && Sends(after.mailed, j) == Sends(s.mailed, j) && Clearings(after.mailed, j) == Clearings(s.mailed, j)
  }

  ghost predicate LastingRow(s: State, after: State, j: nat, c: Condition, call: Call) {
    && j < |s.rows| && j < |after.rows| && after.rows[j] == Lasting(s.rows[j], c, call)
    && Sends(after.mailed, j) == Sends(s.mailed, j)
         + (if Due(s.rows[j].lastSent, call) && call.send && call.delivers(c.fingerprint) then [call.now] else [])
    && Clearings(after.mailed, j) == Clearings(s.mailed, j)
  }

  lemma {:induction false} ObserveRow(s: State, c: Condition, call: Call, j: nat)
    requires OneOpenEach(s.rows) && j < |s.rows|
    ensures OneOpenEach(Observe(s, c, call).rows)
    ensures if s.rows[j].Open() && s.rows[j].fingerprint == c.fingerprint
            then LastingRow(s, Observe(s, c, call), j, c, call)
            else SameRow(s, Observe(s, c, call), j)
  {
    hide Sends, Clearings;
    var i := FindOpen(s.rows, c.fingerprint);
    SeenKeepsOpen(s.rows, c, call.now);
    SentKeepsOpen(Seen(s.rows, c, call.now), i, call.now);
    MailedLast(s.mailed, Wrong(i, call.now), j);
    assert Sends(s.mailed, j) + [] == Sends(s.mailed, j);
    assert s.rows[j].Open() && s.rows[j].fingerprint == c.fingerprint ==> i == j;
  }

  lemma {:induction false} DistinctRest(wrong: seq<Condition>, call: Call)
    requires DistinctNames(wrong) && wrong != []
    ensures DistinctNames(wrong[1..]) && forall c <- wrong[1..] :: c.fingerprint != wrong[0].fingerprint
  {
    var rest := wrong[1..];
    forall i, j | 0 <= i < j < |rest| ensures rest[i].fingerprint != rest[j].fingerprint {
      assert wrong[i + 1].fingerprint != wrong[j + 1].fingerprint;
    }
    forall c <- rest ensures c.fingerprint != wrong[0].fingerprint {
      var i :| 0 <= i < |rest| && rest[i] == c;
      assert wrong[0].fingerprint != wrong[i + 1].fingerprint;
    }
  }

  /** The first loop leaves every row alone that it does not find wrong. */
  lemma {:induction false} ObserveAllOther(s: State, wrong: seq<Condition>, call: Call, j: nat)
    requires OneOpenEach(s.rows) && j < |s.rows|
    requires s.rows[j].Open() ==> forall c <- wrong :: c.fingerprint != s.rows[j].fingerprint
    ensures OneOpenEach(ObserveAll(s, wrong, call).rows) && SameRow(s, ObserveAll(s, wrong, call), j)
    decreases |wrong|
  {
    hide Observe, OneOpenEach;
    if wrong != [] {
      assert wrong[0] in wrong && forall c <- wrong[1..] :: c in wrong;
      ObserveRow(s, wrong[0], call, j);
      ObserveAllOther(Observe(s, wrong[0], call), wrong[1..], call, j);
    }
  }

  /** And records the one it does. */
  lemma {:induction false} ObserveAllRow(s: State, wrong: seq<Condition>, call: Call, j: nat, c: Condition)
    requires OneOpenEach(s.rows) && DistinctNames(wrong) && j < |s.rows|
    requires c in wrong && s.rows[j].Open() && s.rows[j].fingerprint == c.fingerprint
    ensures OneOpenEach(ObserveAll(s, wrong, call).rows) && LastingRow(s, ObserveAll(s, wrong, call), j, c, call)
    decreases |wrong|
  {
    hide Observe, OneOpenEach, DistinctNames, Due, Sends, Clearings;
    DistinctRest(wrong, call);
    var next := Observe(s, wrong[0], call);
    ObserveRow(s, wrong[0], call, j);
    if wrong[0] == c {
      ObserveAllOther(next, wrong[1..], call, j);
    } else {
      assert c in wrong[1..];
      ObserveAllRow(next, wrong[1..], call, j, c);
    }
  }

  /** Whether the second loop mails that a row has cleared. */
  predicate SaysCleared(a: Alert, call: Call) {
    call.send && a.sends > 0 && call.deliversCleared(a.fingerprint)
  }

  lemma {:induction false} ResolveRow(s: State, i: nat, call: Call, j: nat)
    requires i < |s.rows| && j < |s.rows|
    ensures j != i ==> SameRow(s, Resolve(s, i, call), j)
    ensures j == i ==> ClearedRow(s, Resolve(s, i, call), j, call)
  {
    hide Sends, Clearings;
    MailedLast(s.mailed, Cleared(i, call.now), j);
    assert Sends(s.mailed, j) + [] == Sends(s.mailed, j);
  }

  ghost predicate ClearedRow(s: State, after: State, j: nat, call: Call) {
    && j < |s.rows| && j < |after.rows|
    && after.rows[j] == s.rows[j].(resolvedAt := Some(call.now),
         resolvedSent := s.rows[j].resolvedSent || !call.send || s.rows[j].sends == 0 || SaysCleared(s.rows[j], call))
    && Sends(after.mailed, j) == Sends(s.mailed, j)
    && Clearings(after.mailed, j) == Clearings(s.mailed, j) + if SaysCleared(s.rows[j], call) then 1 else 0
  }

  lemma {:induction false} ResolveAllRow(s: State, wrong: seq<Condition>, from: nat, call: Call, j: nat)
    requires from <= |s.rows| && j < |s.rows|
    ensures if from <= j && s.rows[j].Open() && !Named(wrong, s.rows[j].fingerprint)
            then ClearedRow(s, ResolveAll(s, wrong, from, call), j, call)
            else SameRow(s, ResolveAll(s, wrong, from, call), j)
    decreases |s.rows| - from
  {
    hide Resolve, SaysCleared, Sends, Clearings, Named;
    if from < |s.rows| {
      ResolveNext(s, wrong, from, call);
      ResolveRow(s, from, call, j);
      var next := if s.rows[from].Open() && !Named(wrong, s.rows[from].fingerprint) then Resolve(s, from, call) else s;
      ResolveAllRow(next, wrong, from + 1, call, j);
    }
  }

  /** An episode that is over is never touched and never mailed about again. */
  lemma {:induction false} EndedRowStays(s: State, conditions: seq<Condition>, call: Call, j: nat)
    requires OneOpenEach(s.rows) && j < |s.rows| && s.rows[j].resolvedAt.Some?
    ensures var after := RunOnce(s, conditions, call);
      && j < |after.rows| && after.rows[j] == s.rows[j]
      && Sends(after.mailed, j) == Sends(s.mailed, j) && Clearings(after.mailed, j) == Clearings(s.mailed, j)
  {
    var wrong, start := ByFingerprint(conditions), s.(report := EMPTY);
    ObserveAllOther(start, wrong, call, j);
    ResolveAllRow(ObserveAll(start, wrong, call), wrong, 0, call, j);
  }

  /** A condition that lasts: its row is brought up to date with what was found last, and it is mailed exactly if sending
      is on, the message is taken, and none was ever sent or the last one is at least the interval old. */
  lemma {:induction false} LastingIsMailedIff(s: State, conditions: seq<Condition>, call: Call, j: nat, c: Condition)
    requires OneOpenEach(s.rows) && j < |s.rows| && s.rows[j].resolvedAt.None?
    requires LastFound(conditions, c) && c.fingerprint == s.rows[j].fingerprint
    ensures var a, after := s.rows[j], RunOnce(s, conditions, call);
      var mails := call.send && call.delivers(a.fingerprint)
                   && (a.lastSent == None || call.now - a.lastSent.value >= call.renotify);
      && j < |after.rows|
      && after.rows[j] == Alert(a.fingerprint, a.kind, c.subject, c.detail, a.firstSeen, call.now,
           if mails then Some(call.now) else a.lastSent, if mails then a.sends + 1 else a.sends, None, a.resolvedSent)
      && Sends(after.mailed, j) == (if mails then Sends(s.mailed, j) + [call.now] else Sends(s.mailed, j))
      && Clearings(after.mailed, j) == Clearings(s.mailed, j)
  {
    hide Sends, Clearings;
    var wrong, start := ByFingerprint(conditions), s.(report := EMPTY);
    ByFingerprintIs(conditions);
    NamedIs(wrong, c.fingerprint);
    ObserveAllRow(start, wrong, call, j, c);
    ResolveAllRow(ObserveAll(start, wrong, call), wrong, 0, call, j);
    assert Sends(s.mailed, j) + [] == Sends(s.mailed, j);
  }

  /** A condition that is gone: its row is resolved now, and its clearing mailed exactly if sending is on, somebody was told
      that it was wrong, and the message is taken; the row says whether anything is still owed. */
  lemma {:induction false} ClearedIsMailedIff(s: State, conditions: seq<Condition>, call: Call, j: nat)
    requires OneOpenEach(s.rows) && j < |s.rows| && s.rows[j].resolvedAt.None?
    requires forall c <- conditions :: c.fingerprint != s.rows[j].fingerprint
    ensures var a, after := s.rows[j], RunOnce(s, conditions, call);
      var mails := call.send && a.sends > 0 && call.deliversCleared(a.fingerprint);
      && j < |after.rows|
      && after.rows[j] == a.(resolvedAt := Some(call.now),
                             resolvedSent := a.resolvedSent || !call.send || a.sends == 0 || mails)
      && Sends(after.mailed, j) == Sends(s.mailed, j)
      && Clearings(after.mailed, j) == (if mails then Clearings(s.mailed, j) + 1 else Clearings(s.mailed, j))
  {
    hide Sends, Clearings;
    var wrong, start := ByFingerprint(conditions), s.(report := EMPTY);
    ByFingerprintIs(conditions);
    NamedIs(wrong, s.rows[j].fingerprint);
    forall c <- wrong ensures c.fingerprint != s.rows[j].fingerprint {
      assert LastFound(conditions, c);
    }
    ObserveAllOther(start, wrong, call, j);
    ResolveAllRow(ObserveAll(start, wrong, call), wrong, 0, call, j);
  }

  ghost predicate MailedWithin(s: State) {
    forall m <- s.mailed :: m.row < |s.rows|
  }

  lemma {:induction false} NothingMailedYet(s: State, row: nat)
    requires MailedWithin(s) && |s.rows| <= row
    ensures Sends(s.mailed, row) == [] && Clearings(s.mailed, row) == 0
  {
    NothingMailed(s.mailed, row);
  }

  lemma {:induction false} ObserveNew(s: State, c: Condition, call: Call)
    requires MailedWithin(s)
    ensures var next := Observe(s, c, call);
      && MailedWithin(next) && |s.rows| <= |next.rows|
      && (!HasOpen(s.rows, c.fingerprint) ==> |next.rows| == |s.rows| + 1 && NewRow(next, |s.rows|, c, call))
      && (HasOpen(s.rows, c.fingerprint) ==> |next.rows| == |s.rows|)
  {
    hide Sends, Clearings;
    var i := FindOpen(s.rows, c.fingerprint);
    NothingMailedYet(s, |s.rows|);
    MailedLast(s.mailed, Wrong(i, call.now), |s.rows|);
    assert [] + [call.now] == [call.now];
  }

  ghost predicate NewRow(after: State, j: nat, c: Condition, call: Call) {
    var mails := call.send && call.delivers(c.fingerprint);
    && j < |after.rows|
    && after.rows[j] == Alert(c.fingerprint, c.kind, c.subject, c.detail, call.now, call.now,
         if mails then Some(call.now) else None, if mails then 1 else 0, None, false)
    && Sends(after.mailed, j) == (if mails then [call.now] else [])
    && Clearings(after.mailed, j) == 0
  }

  lemma {:induction false} ObserveAllNew(s: State, wrong: seq<Condition>, call: Call, c: Condition) returns (j: nat)
    requires OneOpenEach(s.rows) && MailedWithin(s) && DistinctNames(wrong) && c in wrong
    requires !HasOpen(s.rows, c.fingerprint)
    ensures |s.rows| <= j && NewRow(ObserveAll(s, wrong, call), j, c, call)
    decreases |wrong|
  {
    hide Observe, OneOpenEach, DistinctNames, Due, Sends, Clearings, HasOpen, MailedWithin;
    DistinctRest(wrong, call);
    var next := Observe(s, wrong[0], call);
    ObserveNew(s, wrong[0], call);
    ObserveOpens(s, wrong[0], call, c.fingerprint);
    ObserveOne(s, wrong[0], call);
    if wrong[0] == c {
      j := |s.rows|;
      ObserveAllOther(next, wrong[1..], call, j);
    } else {
      assert c in wrong[1..];
      j := ObserveAllNew(next, wrong[1..], call, c);
    }
  }

  lemma {:induction false} ObserveOne(s: State, c: Condition, call: Call)
    requires OneOpenEach(s.rows)
    ensures OneOpenEach(Observe(s, c, call).rows)
  {
    SeenKeepsOpen(s.rows, c, call.now);
    SentKeepsOpen(Seen(s.rows, c, call.now), FindOpen(s.rows, c.fingerprint), call.now);
  }

  /** A condition found for the first time, or for the first time since it cleared: it gets a row that begins now, and is mailed
      at once exactly if sending is on and the message is taken. */
  lemma {:induction false} NewIsMailedIff(s: State, conditions: seq<Condition>, call: Call, c: Condition) returns (j: nat)
    requires OneOpenEach(s.rows) && MailedWithin(s)
    requires LastFound(conditions, c) && !HasOpen(s.rows, c.fingerprint)
    ensures var after := RunOnce(s, conditions, call);
      var mails := call.send && call.delivers(c.fingerprint);
      && |s.rows| <= j < |after.rows|
      && after.rows[j] == Alert(c.fingerprint, c.kind, c.subject, c.detail, call.now, call.now,
           if mails then Some(call.now) else None, if mails then 1 else 0, None, false)
      && Sends(after.mailed, j) == (if mails then [call.now] else [])
      && Clearings(after.mailed, j) == 0
  {
    hide Sends, Clearings;
    var wrong, start := ByFingerprint(conditions), s.(report := EMPTY);
    ByFingerprintIs(conditions);
    NamedIs(wrong, c.fingerprint);
    j := ObserveAllNew(start, wrong, call, c);
    ResolveAllRow(ObserveAll(start, wrong, call), wrong, 0, call, j);
  }

  lemma {:induction false} ObserveAllRows(s: State, wrong: seq<Condition>, call: Call, j: nat)
    requires OneOpenEach(s.rows)
    ensures var after := ObserveAll(s, wrong, call);
      && |s.rows| <= |after.rows|
      && (|s.rows| <= j < |after.rows| ==>
            after.rows[j].Open() && Named(wrong, after.rows[j].fingerprint) && !HasOpen(s.rows, after.rows[j].fingerprint))
    decreases |wrong|
  {
    hide Observe, OneOpenEach, Due, HasOpen;
    if wrong != [] {
      var next, after := Observe(s, wrong[0], call), ObserveAll(s, wrong, call);
      ObserveGrows(s, wrong[0], call);
      ObserveOne(s, wrong[0], call);
      ObserveAllRows(next, wrong[1..], call, j);
      if |next.rows| <= j < |after.rows| {
        ObserveOpens(s, wrong[0], call, after.rows[j].fingerprint);
      } else if |s.rows| <= j < |after.rows| {
        ObserveAllOtherOrNamed(next, wrong[1..], call, j);
      }
    }
  }

  lemma {:induction false} ObserveGrows(s: State, c: Condition, call: Call)
    ensures var next := Observe(s, c, call);
      && |s.rows| <= |next.rows| <= |s.rows| + 1
      && (|s.rows| < |next.rows| ==>
            next.rows[|s.rows|].Open() && next.rows[|s.rows|].fingerprint == c.fingerprint && !HasOpen(s.rows, c.fingerprint))
  {
  }

  lemma {:induction false} ObserveAllOtherOrNamed(s: State, wrong: seq<Condition>, call: Call, j: nat)
    requires j < |s.rows|
    ensures var after := ObserveAll(s, wrong, call);
      && j < |after.rows| && after.rows[j].fingerprint == s.rows[j].fingerprint && after.rows[j].Open() == s.rows[j].Open()
    decreases |wrong|
  {
    if wrong != [] {
      ObserveAllOtherOrNamed(Observe(s, wrong[0], call), wrong[1..], call, j);
    }
  }

  /** Every row that a run adds is an open row of something it found and that had none. */
  lemma {:induction false} NewRowsAreFound(s: State, conditions: seq<Condition>, call: Call, j: nat)
    requires OneOpenEach(s.rows)
    ensures var after := RunOnce(s, conditions, call);
      && |s.rows| <= |after.rows|
      && (|s.rows| <= j < |after.rows| ==>
            && after.rows[j].resolvedAt.None? && Found(conditions, after.rows[j].fingerprint)
            && !HasOpen(s.rows, after.rows[j].fingerprint))
  {
    var wrong, start := ByFingerprint(conditions), s.(report := EMPTY);
    ObserveAllRows(start, wrong, call, j);
    var middle := ObserveAll(start, wrong, call);
    ResolveAllLength(middle, wrong, 0, call);
    if |s.rows| <= j < |middle.rows| {
      ByFingerprintNames(conditions, middle.rows[j].fingerprint);
      ResolveAllRow(middle, wrong, 0, call, j);
    }
  }

  lemma {:induction false} ResolveAllLength(s: State, wrong: seq<Condition>, from: nat, call: Call)
    requires from <= |s.rows|
    ensures |ResolveAll(s, wrong, from, call).rows| == |s.rows|
    decreases |s.rows| - from
  {
    hide Resolve, Named;
    if from < |s.rows| {
      ResolveNext(s, wrong, from, call);
      ResolveAllLength(if s.rows[from].Open() && !Named(wrong, s.rows[from].fingerprint) then Resolve(s, from, call) else s,
                       wrong, from + 1, call);
    }
  }

  ghost predicate OnlyNow(before: seq<Message>, after: seq<Message>, now: int) {
    before <= after && forall m <- after[|before|..] :: m.at == now
  }

  lemma {:induction false} OnlyNowTrans(a: seq<Message>, b: seq<Message>, c: seq<Message>, now: int)
    requires OnlyNow(a, b, now) && OnlyNow(b, c, now)
    ensures OnlyNow(a, c, now)
  {
    assert c[|a|..] == b[|a|..] + c[|b|..];
  }

  lemma {:induction false} ObserveAllMails(s: State, wrong: seq<Condition>, call: Call)
    ensures OnlyNow(s.mailed, ObserveAll(s, wrong, call).mailed, call.now)
    decreases |wrong|
  {
    if wrong != [] {
      var next := Observe(s, wrong[0], call);
      ObserveAllMails(next, wrong[1..], call);
      OnlyNowTrans(s.mailed, next.mailed, ObserveAll(s, wrong, call).mailed, call.now);
    }
  }

  lemma {:induction false} ResolveAllMails(s: State, wrong: seq<Condition>, from: nat, call: Call)
    requires from <= |s.rows|
    ensures OnlyNow(s.mailed, ResolveAll(s, wrong, from, call).mailed, call.now)
    decreases |s.rows| - from
  {
    hide Named;
    if from < |s.rows| {
      ResolveNext(s, wrong, from, call);
      var next := if s.rows[from].Open() && !Named(wrong, s.rows[from].fingerprint) then Resolve(s, from, call) else s;
      ResolveAllMails(next, wrong, from + 1, call);
      OnlyNowTrans(s.mailed, next.mailed, ResolveAll(s, wrong, from, call).mailed, call.now);
    }
  }

  /** What was mailed stays mailed, and what a run adds is of that run. */
  lemma {:induction false} MailedNow(s: State, conditions: seq<Condition>, call: Call)
    ensures var after := RunOnce(s, conditions, call).mailed;
      s.mailed <= after && forall m <- after[|s.mailed|..] :: m.at == call.now
  {
    var wrong, start := ByFingerprint(conditions), s.(report := EMPTY);
    var middle := ObserveAll(start, wrong, call);
    ObserveAllMails(start, wrong, call);
    ResolveAllMails(middle, wrong, 0, call);
    OnlyNowTrans(s.mailed, middle.mailed, RunOnce(s, conditions, call).mailed, call.now);
  }

  /** Something that was mailed too recently to be mailed again. */
  ghost predicate Quiet(rows: seq<Alert>, f: string, call: Call) {
    exists j :: 0 <= j < |rows| && rows[j].resolvedAt.None? && rows[j].fingerprint == f
                && rows[j].lastSent.Some? && call.now - rows[j].lastSent.value < call.renotify
  }

  lemma {:induction false} ObserveQuiet(s: State, c: Condition, call: Call, f: string)
    requires OneOpenEach(s.rows) && f != c.fingerprint
    ensures Quiet(Observe(s, c, call).rows, f, call) <==> Quiet(s.rows, f, call)
  {
    var rows := Observe(s, c, call).rows;
    assert forall j :: 0 <= j < |s.rows| && s.rows[j].fingerprint == f ==> rows[j] == s.rows[j];
    assert forall j :: |s.rows| <= j < |rows| ==> rows[j].fingerprint != f;
    assert forall j :: 0 <= j < |s.rows| ==> rows[j].fingerprint == s.rows[j].fingerprint;
  }

  /** What one turn of the first loop puts on the lists. */
  lemma {:induction false} ObserveReport(s: State, c: Condition, call: Call)
    requires OneOpenEach(s.rows)
    ensures var f, before, after := c.fingerprint, s.report, Observe(s, c, call).report;
      && after.open == before.open + [f] && after.resolved == before.resolved
      && after.suppressed == before.suppressed + (if Quiet(s.rows, f, call) then [f] else [])
      && after.sent == before.sent + (if !Quiet(s.rows, f, call) && (!call.send || call.delivers(f)) then [f] else [])
  {
    var i := FindOpen(s.rows, c.fingerprint);
    assert i < |s.rows| && !Due(s.rows[i].lastSent, call) ==> Quiet(s.rows, c.fingerprint, call);
    assert s.report.sent + [] == s.report.sent && s.report.suppressed + [] == s.report.suppressed;
  }

  function Names(wrong: seq<Condition>): seq<string> {
    if wrong == [] then [] else [wrong[0].fingerprint] + Names(wrong[1..])
  }

  lemma {:induction false} ObserveAllReport(s: State, wrong: seq<Condition>, call: Call, f: string)
    requires OneOpenEach(s.rows) && DistinctNames(wrong)
    ensures var before, after := s.report, ObserveAll(s, wrong, call).report;
      && after.open == before.open + Names(wrong) && after.resolved == before.resolved
      && (f in after.suppressed <==> f in before.suppressed || (Named(wrong, f) && Quiet(s.rows, f, call)))
      && (f in after.sent <==>
            f in before.sent || (Named(wrong, f) && !Quiet(s.rows, f, call) && (!call.send || call.delivers(f))))
    decreases |wrong|
  {
    hide Observe, OneOpenEach, DistinctNames, Quiet;
    if wrong == [] {
      assert s.report.open + [] == s.report.open;
    } else {
      var c, next := wrong[0], Observe(s, wrong[0], call);
      DistinctRest(wrong, call);
      ObserveOne(s, c, call);
      ObserveReport(s, c, call);
      ObserveAllReport(next, wrong[1..], call, f);
      NamedIs(wrong[1..], f);
      if f != c.fingerprint {
        ObserveQuiet(s, c, call, f);
      }
      assert s.report.open + [c.fingerprint] + Names(wrong[1..]) == s.report.open + ([c.fingerprint] + Names(wrong[1..]));
    }
  }

  lemma {:induction false} ResolveAllReport(s: State, wrong: seq<Condition>, from: nat, call: Call, f: string)
    requires from <= |s.rows|
    ensures var before, after := s.report, ResolveAll(s, wrong, from, call).report;
      && after == before.(resolved := after.resolved)
      && (f in after.resolved <==>
            || f in before.resolved
            || (!Named(wrong, f) && exists j :: from <= j < |s.rows| && s.rows[j].Open() && s.rows[j].fingerprint == f))
    decreases |s.rows| - from
  {
    hide Named;
    if from < |s.rows| {
      var row := s.rows[from];
      if row.Open() && !Named(wrong, row.fingerprint) {
        var next := Resolve(s, from, call);
        ResolveAllReport(next, wrong, from + 1, call, f);
        assert forall j :: from + 1 <= j < |s.rows| ==> next.rows[j] == s.rows[j];
        assert f in next.report.resolved <==> f in s.report.resolved || f == row.fingerprint;
      } else {
        ResolveAllReport(s, wrong, from + 1, call, f);
      }
    }
  }

  /** Each name once, in the order in which the run first found it. */
  function FirstPlaces(conditions: seq<Condition>): seq<string> {
    if conditions == [] then []
    else
      var n := |conditions| - 1;
      var before := FirstPlaces(conditions[..n]);
      if conditions[n].fingerprint in before then before else before + [conditions[n].fingerprint]
  }

  lemma {:induction false} UpsertNames(distinct: seq<Condition>, c: Condition)
    ensures Names(Upsert(distinct, c))
            == if c.fingerprint in Names(distinct) then Names(distinct) else Names(distinct) + [c.fingerprint]
  {
    if distinct != [] {
      UpsertNames(distinct[1..], c);
      if distinct[0].fingerprint == c.fingerprint {
        assert ([c] + distinct[1..])[1..] == distinct[1..];
      } else {
        assert ([distinct[0]] + Upsert(distinct[1..], c))[1..] == Upsert(distinct[1..], c);
      }
    }
  }

  lemma {:induction false} NamesInOrder(conditions: seq<Condition>)
    ensures Names(ByFingerprint(conditions)) == FirstPlaces(conditions)
  {
    if conditions != [] {
      var n := |conditions| - 1;
      NamesInOrder(conditions[..n]);
      UpsertNames(ByFingerprint(conditions[..n]), conditions[n]);
    }
  }

  /** The four lists a run reports: what it found, each once in order; of that, what was mailed too recently; of the rest what
      was mailed, or would have been with sending on; and what had an open row and is gone. */
  lemma {:induction false} ReportIs(s: State, conditions: seq<Condition>, call: Call, f: string)
    requires OneOpenEach(s.rows)
    ensures var r := RunOnce(s, conditions, call).report;
      && r.open == FirstPlaces(conditions)
      && (f in r.suppressed <==> Found(conditions, f) && Quiet(s.rows, f, call))
      && (f in r.sent <==> Found(conditions, f) && !Quiet(s.rows, f, call) && (!call.send || call.delivers(f)))
      && (f in r.resolved <==> !Found(conditions, f) && HasOpen(s.rows, f))
  {
    hide Quiet;
    var wrong, start := ByFingerprint(conditions), s.(report := EMPTY);
    ByFingerprintIs(conditions);
    ByFingerprintNames(conditions, f);
    NamesInOrder(conditions);
    ObserveAllReport(start, wrong, call, f);
    assert [] + Names(wrong) == Names(wrong);
    var middle := ObserveAll(start, wrong, call);
    ResolveAllReport(middle, wrong, 0, call, f);
    ObserveAllOpens(start, wrong, call, f);
    assert HasOpen(middle.rows, f) <==> exists j :: 0 <= j < |middle.rows| && middle.rows[j].Open() && middle.rows[j].fingerprint == f;
  }

  /** A condition whose message was not taken keeps its row and its beginning, and is due again at once. */
  lemma {:induction false} FailedSendIsDueAgain(s: State, c: Condition, call: Call, next: Call)
    requires OneOpenEach(s.rows)
    requires call.send && !call.delivers(c.fingerprint)
    requires var i := FindOpen(s.rows, c.fingerprint); i == |s.rows| || s.rows[i].lastSent == None || call.now - s.rows[i].lastSent.value >= call.renotify
    requires call.now <= next.now && call.renotify == next.renotify
    ensures var i, after := FindOpen(s.rows, c.fingerprint), Observe(s, c, call);
      && after.mailed == s.mailed
      && FindOpen(after.rows, c.fingerprint) == i < |after.rows|
      && after.rows[i].firstSeen == (if i == |s.rows| then call.now else s.rows[i].firstSeen)
      && (after.rows[i].lastSent == None || next.now - after.rows[i].lastSent.value >= next.renotify)
  {
    var i, rows := FindOpen(s.rows, c.fingerprint), Observe(s, c, call).rows;
    FindOpenIs(rows, c.fingerprint, i);
  }

  lemma {:induction false} FindOpenIs(rows: seq<Alert>, f: string, i: nat)
    requires i < |rows| && rows[i].Open() && rows[i].fingerprint == f
    requires forall j :: 0 <= j < i ==> !(rows[j].Open() && rows[j].fingerprint == f)
    ensures FindOpen(rows, f) == i
  {
  }
}
