/** Claiming webhook events (`billing.py`): insert first, take over a stalled claim by a conditional update, finish by
    row. Many deliveries run at once; `now()` is the start of the transaction that asks. Times are microseconds. */
module EventClaims {
  import opened Results
  import opened Spacing
  import opened BillingTypes

  type EventId = string
  type Handler = nat

  const STALLED := 5 * MINUTE

  /** A row of `billing_events`; `outcome` is `None` while it says `received`. */
  datatype Row = Row(id: nat, receivedAt: Time, outcome: Option<Verdict>)
  type Rows = map<EventId, Row>

  /** The insert; `None` is the unique violation. */
  function Inserted(rows: Rows, event: EventId, id: nat, now: Time): Option<Rows> {
    if event in rows then None else Some(rows[event := Row(id, now, None)])
  }

  predicate Stalled(rows: Rows, event: EventId, now: Time) {
    event in rows && rows[event].outcome.None? && rows[event].receivedAt < now - STALLED
  }

  /** The conditional update, which is decided on the row as it is committed when the update gets to it. */
  function TakenOver(rows: Rows, event: EventId, now: Time): Option<Rows> {
    if Stalled(rows, event, now) then Some(rows[event := rows[event].(receivedAt := now)]) else None
  }

  /** `_finish`: by row id and nothing else. */
  function Finished(rows: Rows, id: nat, verdict: Verdict): Rows {
    map e | e in rows :: if rows[e].id == id then rows[e].(outcome := Some(verdict)) else rows[e]
  }

  class EventLog {
    var rows: Rows

    constructor ()
      ensures rows == map[]
    {
      rows := map[];
    }

    /** `_claim`, its two transactions started at `first` and `second`; returns the row to finish. */
    method Claim(event: EventId, fresh_: nat, first: Time, second: Time) returns (claimed: Option<nat>)
      modifies this
      ensures claimed.Some? <==>
                || event !in old(rows)
                || (old(rows)[event].outcome == None && old(rows)[event].receivedAt + 5 * 60 * 1_000_000 < second)
      ensures claimed.None? ==> rows == old(rows)
      ensures claimed.Some? ==>
                && claimed.value == (if event in old(rows) then old(rows)[event].id else fresh_)
                && rows == old(rows)[event := Row(claimed.value, if event in old(rows) then second else first, None)]
    {
      var inserted := Inserted(rows, event, fresh_, first);
      if inserted.Some? {
        rows := inserted.value;
        return Some(fresh_);
      }
      var taken := TakenOver(rows, event, second);
      if taken.None? {
        return None;
      }
      rows := taken.value;
      claimed := Some(rows[event].id);
    }

    method Finish(id: nat, verdict: Verdict)
      modifies this
      ensures rows == Finished(old(rows), id, verdict)
      ensures rows == map e | e in old(rows) ::
        if old(rows)[e].id == id then Row(id, old(rows)[e].receivedAt, Some(verdict)) else old(rows)[e]
    {
      rows := Finished(rows, id, verdict);
    }
  }

  // ------------------------------------------------------------------- many handlers

  /** Where one delivery is. `since` is the moment its claiming transaction started. */
  datatype Phase =
    | Out
    | Inserting(event: EventId, since: Time)
    | Updating(event: EventId, since: Time)
    | Acting(event: EventId, row: nat, since: Time)

  datatype Claim = Claim(event: EventId, stamp: Time)

  /** `claims` is every successful claim so far, in order. */
  datatype State = State(now: Time, rows: Rows, handlers: map<Handler, Phase>, claims: seq<Claim>, nextRow: nat)

  datatype Step =
    | Tick(elapsed: nat)
    | Deliver(h: Handler, event: EventId)
    | Insert(h: Handler)
    | Update(h: Handler)
    | Finish(h: Handler, verdict: Verdict)
    | Die(h: Handler)

  function PhaseOf(s: State, h: Handler): Phase {
    if h in s.handlers then s.handlers[h] else Out
  }

  function Go(s: State, h: Handler, phase: Phase): State {
    s.(handlers := s.handlers[h := phase])
  }

  function Do(s: State, step: Step): State {
    match step
    case Tick(elapsed) => s.(now := s.now + elapsed)
    case Deliver(h, event) => if PhaseOf(s, h).Out? then Go(s, h, Inserting(event, s.now)) else s
    case Insert(h) => DoInsert(s, h, PhaseOf(s, h))
    case Update(h) => DoUpdate(s, h, PhaseOf(s, h))
    case Finish(h, verdict) =>
      if PhaseOf(s, h).Acting? then Go(s, h, Out).(rows := Finished(s.rows, PhaseOf(s, h).row, verdict)) else s
    case Die(h) => Go(s, h, Out)
  }

  function DoInsert(s: State, h: Handler, phase: Phase): State {
    if !phase.Inserting? then s
    else match Inserted(s.rows, phase.event, s.nextRow, phase.since)
      case None => Go(s, h, Updating(phase.event, s.now))
      case Some(rows) =>
        Go(s, h, Acting(phase.event, s.nextRow, phase.since))
          .(rows := rows, claims := s.claims + [Claim(phase.event, phase.since)], nextRow := s.nextRow + 1)
  }

  function DoUpdate(s: State, h: Handler, phase: Phase): State {
    if !phase.Updating? then s
    else match TakenOver(s.rows, phase.event, phase.since)
      case None => Go(s, h, Out)
      case Some(rows) =>
        Go(s, h, Acting(phase.event, rows[phase.event].id, phase.since))
          .(rows := rows, claims := s.claims + [Claim(phase.event, phase.since)])
  }

  function Run(s: State, steps: seq<Step>): State {
    if steps == [] then s else Do(Run(s, steps[..|steps| - 1]), steps[|steps| - 1])
  }

  ghost predicate Start(s: State) {
    s.rows == map[] && s.handlers == map[] && s.claims == []
  }

  // ------------------------------------------------------------------- invariant

  /** Rows have their own ids, and every claim of an event was stamped no later than its row says. */
  ghost predicate RowsSound(s: State) {
    && (forall e <- s.rows :: s.rows[e].id < s.nextRow && s.rows[e].receivedAt <= s.now)
    && (forall e <- s.rows, f <- s.rows :: s.rows[e].id == s.rows[f].id ==> e == f)
  }

  predicate PhaseSound(s: State, phase: Phase) {
    match phase
    case Out => true
    case Inserting(_, since) => since <= s.now
    case Updating(_, since) => since <= s.now
    case Acting(event, row, since) => event in s.rows && s.rows[event].id == row && since <= s.rows[event].receivedAt
  }

  ghost predicate PhasesSound(s: State) {
    forall h <- s.handlers :: PhaseSound(s, s.handlers[h])
  }

  ghost predicate ClaimsSound(s: State) {
    && (forall c <- s.claims :: c.event in s.rows && c.stamp <= s.rows[c.event].receivedAt)
    && (forall i, j :: 0 <= i < j < |s.claims| && s.claims[i].event == s.claims[j].event ==>
          s.claims[i].stamp + STALLED < s.claims[j].stamp)
  }

  /** Two handlers act on one event only if the one stamped earlier has outstayed its lease. */
  predicate OverlapSound(s: State, a: Phase, b: Phase) {
    a.Acting? && b.Acting? && a.event == b.event ==> a.since + STALLED < b.since || b.since + STALLED < a.since
  }

  ghost predicate OverlapsSound(s: State) {
    forall g <- s.handlers, h <- s.handlers :: g != h ==> OverlapSound(s, s.handlers[g], s.handlers[h])
  }

  ghost predicate Inv(s: State) {
    RowsSound(s) && PhasesSound(s) && ClaimsSound(s) && OverlapsSound(s)
  }

  lemma {:induction false} InsertKeepsClaims(s: State, h: Handler)
    requires Inv(s) && h in s.handlers && s.handlers[h].Inserting? && s.handlers[h].event !in s.rows
    ensures var s' := Do(s, Insert(h)); RowsSound(s') && ClaimsSound(s')
  {
    hide OverlapsSound, OverlapSound;
    PhaseIsSound(s, h);
    hide PhasesSound;
    var phase := s.handlers[h];
    assert forall c <- s.claims :: c.event != phase.event;
    assert Do(s, Insert(h)).rows == s.rows[phase.event := Row(s.nextRow, phase.since, None)];
  }

  lemma {:induction false} InsertKeepsPhases(s: State, h: Handler)
    requires Inv(s) && h in s.handlers && s.handlers[h].Inserting? && s.handlers[h].event !in s.rows
    ensures var s' := Do(s, Insert(h)); PhasesSound(s') && OverlapsSound(s')
  {
    hide ClaimsSound;
    var phase := s.handlers[h];
    assert forall g <- s.handlers :: s.handlers[g].Acting? ==> s.handlers[g].event != phase.event;
    assert Do(s, Insert(h)).rows == s.rows[phase.event := Row(s.nextRow, phase.since, None)];
  }

  lemma {:induction false} InsertKeeps(s: State, h: Handler)
    requires Inv(s) && h in s.handlers && s.handlers[h].Inserting?
    ensures Inv(Do(s, Insert(h)))
  {
    if s.handlers[h].event in s.rows {
      assert Do(s, Insert(h)) == Go(s, h, Updating(s.handlers[h].event, s.now));
    } else {
      hide RowsSound, PhasesSound, ClaimsSound, OverlapsSound, Do;
      InsertKeepsClaims(s, h);
      InsertKeepsPhases(s, h);
    }
  }

  lemma {:induction false} UpdateKeepsClaims(s: State, h: Handler)
    requires Inv(s) && h in s.handlers && s.handlers[h].Updating?
    requires Stalled(s.rows, s.handlers[h].event, s.handlers[h].since)
    ensures var s' := Do(s, Update(h)); RowsSound(s') && ClaimsSound(s')
  {
    hide OverlapsSound, PhasesSound, OverlapSound;
    var phase := s.handlers[h];
    assert PhaseSound(s, phase) by { var all := PhasesSound(s); PhaseIsSound(s, h); }
    var s' := Do(s, Update(h));
    assert s'.rows == s.rows[phase.event := s.rows[phase.event].(receivedAt := phase.since)];
    assert forall c <- s.claims :: c.event == phase.event ==> c.stamp + STALLED < phase.since;
    assert s'.claims == s.claims + [Claim(phase.event, phase.since)];
    assert forall c <- s'.claims :: c in s.claims || c == Claim(phase.event, phase.since);
    forall i, j | 0 <= i < j < |s'.claims| && s'.claims[i].event == s'.claims[j].event
      ensures s'.claims[i].stamp + STALLED < s'.claims[j].stamp
    {
      assert s'.claims[i] == s.claims[i] && s.claims[i] in s.claims;
    }
  }

  lemma {:induction false} PhaseIsSound(s: State, h: Handler)
    requires PhasesSound(s) && h in s.handlers
    ensures PhaseSound(s, s.handlers[h])
  {
  }

  lemma {:induction false} UpdateKeepsPhases(s: State, h: Handler)
    requires Inv(s) && h in s.handlers && s.handlers[h].Updating?
    requires Stalled(s.rows, s.handlers[h].event, s.handlers[h].since)
    ensures var s' := Do(s, Update(h)); PhasesSound(s') && OverlapsSound(s')
  {
    hide ClaimsSound;
    var phase := s.handlers[h];
    var s' := Do(s, Update(h));
    assert forall g <- s.handlers :: s.handlers[g].Acting? && s.handlers[g].event == phase.event ==>
             s.handlers[g].since + STALLED < phase.since;
    assert s'.rows == s.rows[phase.event := s.rows[phase.event].(receivedAt := phase.since)];
    forall g | g in s'.handlers
      ensures PhaseSound(s', s'.handlers[g])
    {
      assert g != h ==> PhaseSound(s, s.handlers[g]);
    }
  }

  lemma {:induction false} LeaveKeeps(s: State, h: Handler, rows: Rows)
    requires Inv(s)
    requires rows.Keys == s.rows.Keys
    requires forall e <- rows :: rows[e].id == s.rows[e].id && rows[e].receivedAt == s.rows[e].receivedAt
    ensures Inv(Go(s, h, Out).(rows := rows))
  {
    var s' := Go(s, h, Out).(rows := rows);
    forall g | g in s'.handlers
      ensures PhaseSound(s', s'.handlers[g])
    {
      assert g != h ==> PhaseSound(s, s.handlers[g]);
    }
  }

  lemma {:induction false} UpdateKeeps(s: State, h: Handler)
    requires Inv(s) && h in s.handlers && s.handlers[h].Updating?
    ensures Inv(Do(s, Update(h)))
  {
    hide RowsSound, PhasesSound, ClaimsSound, OverlapsSound;
    var phase := s.handlers[h];
    if Stalled(s.rows, phase.event, phase.since) {
      UpdateKeepsClaims(s, h);
      UpdateKeepsPhases(s, h);
    } else {
      assert Do(s, Update(h)) == Go(s, h, Out).(rows := s.rows);
      LeaveKeeps(s, h, s.rows);
    }
  }

  lemma {:induction false} StepKeepsInv(s: State, step: Step)
    requires Inv(s)
    ensures Inv(Do(s, step))
  {
    hide Inv;
    match step
    case Insert(h) => if PhaseOf(s, h).Inserting? { InsertKeeps(s, h); }
    case Update(h) => if PhaseOf(s, h).Updating? { UpdateKeeps(s, h); }
    case Finish(h, verdict) =>
      if PhaseOf(s, h).Acting? { LeaveKeeps(s, h, Finished(s.rows, s.handlers[h].row, verdict)); }
    case Die(h) =>
      assert Go(s, h, Out) == Go(s, h, Out).(rows := s.rows);
      LeaveKeeps(s, h, s.rows);
    case Deliver(h, event) => if PhaseOf(s, h).Out? { DeliverKeeps(s, h, event); }
    case Tick(elapsed) => TickKeeps(s, elapsed);
  }

  lemma {:induction false} DeliverKeeps(s: State, h: Handler, event: EventId)
    requires Inv(s)
    ensures Inv(Go(s, h, Inserting(event, s.now)))
  {
    var s' := Go(s, h, Inserting(event, s.now));
    forall g | g in s'.handlers
      ensures PhaseSound(s', s'.handlers[g])
    {
      assert g != h ==> PhaseSound(s, s.handlers[g]);
    }
  }

  lemma {:induction false} TickKeeps(s: State, elapsed: nat)
    requires Inv(s)
    ensures Inv(s.(now := s.now + elapsed))
  {
    var s' := s.(now := s.now + elapsed);
    forall g | g in s'.handlers
      ensures PhaseSound(s', s'.handlers[g])
    {
      assert PhaseSound(s, s.handlers[g]);
    }
  }

  lemma {:induction false} RunKeepsInv(s: State, steps: seq<Step>)
    requires Inv(s)
    ensures Inv(Run(s, steps))
    decreases |steps|
  {
    if steps == [] {
    } else {
      hide Inv, Do;
      RunKeepsInv(s, steps[..|steps| - 1]);
      StepKeepsInv(Run(s, steps[..|steps| - 1]), steps[|steps| - 1]);
    }
  }

  lemma {:induction false} StartIsSound(s: State)
    requires Start(s)
    ensures Inv(s)
  {
  }

  // ------------------------------------------------------------------- what it buys

  /** Over every interleaving of deliveries, redeliveries, takeovers and deaths: the successful claims of one event are
      stamped more than five minutes apart, in the order they succeeded. */
  lemma {:induction false} ClaimsAreSpaced(s: State, steps: seq<Step>, i: nat, j: nat)
    requires Start(s)
    requires i < j < |Run(s, steps).claims| && Run(s, steps).claims[i].event == Run(s, steps).claims[j].event
    ensures Run(s, steps).claims[i].stamp + 5 * 60 * 1_000_000 < Run(s, steps).claims[j].stamp
  {
    hide Run, RowsSound, PhasesSound, OverlapsSound;
    StartIsSound(s);
    RunKeepsInv(s, steps);
  }

  function StampsOf(claims: seq<Claim>, event: EventId): seq<Time> {
    if claims == [] then []
    else
      var last := claims[|claims| - 1];
      StampsOf(claims[..|claims| - 1], event) + if last.event == event then [last.stamp] else []
  }

  ghost predicate ClaimsApart(claims: seq<Claim>) {
    forall i, j :: 0 <= i < j < |claims| && claims[i].event == claims[j].event ==> claims[i].stamp + STALLED < claims[j].stamp
  }

  lemma {:induction false} StampIsClaimed(claims: seq<Claim>, event: EventId, t: Time)
    requires t in StampsOf(claims, event)
    ensures Claim(event, t) in claims
    decreases |claims|
  {
    var last := claims[|claims| - 1];
    if t in StampsOf(claims[..|claims| - 1], event) {
      StampIsClaimed(claims[..|claims| - 1], event, t);
    } else {
      assert last == Claim(event, t);
    }
  }

  /** These are all the claims of an event. */
  lemma {:induction false} ClaimIsStamped(claims: seq<Claim>, event: EventId, t: Time)
    ensures Claim(event, t) in claims <==> t in StampsOf(claims, event)
    decreases |claims|
  {
    if claims != [] {
      var n := |claims| - 1;
      ClaimIsStamped(claims[..n], event, t);
      assert claims == claims[..n] + [claims[n]];
    }
  }

  lemma {:induction false} StampsSpaced(claims: seq<Claim>, event: EventId)
    requires ClaimsApart(claims)
    ensures Spaced(StampsOf(claims, event), STALLED + 1)
    decreases |claims|
  {
    if claims == [] {
    } else {
      var n := |claims| - 1;
      var before, last := claims[..n], claims[n];
      PrefixApart(claims, n);
      StampsSpaced(before, event);
      var stamps := StampsOf(before, event);
      if last.event == event && stamps != [] {
        LastStampApart(claims, event);
        AppendSpaced(stamps, last.stamp);
      } else {
        assert StampsOf(claims, event) == stamps || stamps == [];
      }
    }
  }

  lemma {:induction false} PrefixApart(claims: seq<Claim>, n: nat)
    requires ClaimsApart(claims) && n <= |claims|
    ensures ClaimsApart(claims[..n])
  {
  }

  lemma {:induction false} LastStampApart(claims: seq<Claim>, event: EventId)
    requires ClaimsApart(claims) && claims != [] && claims[|claims| - 1].event == event
    requires StampsOf(claims[..|claims| - 1], event) != []
    ensures var stamps := StampsOf(claims[..|claims| - 1], event);
      stamps[|stamps| - 1] + STALLED < claims[|claims| - 1].stamp
  {
    hide StampsOf;
    var stamps := StampsOf(claims[..|claims| - 1], event);
    var t := stamps[|stamps| - 1];
    StampIsClaimed(claims[..|claims| - 1], event, t);
    var i :| 0 <= i < |claims| - 1 && claims[..|claims| - 1][i] == Claim(event, t);
    assert claims[i] == Claim(event, t);
  }

  lemma {:induction false} AppendSpaced(stamps: seq<Time>, t: Time)
    requires Spaced(stamps, STALLED + 1) && stamps != [] && stamps[|stamps| - 1] + STALLED < t
    ensures Spaced(stamps + [t], STALLED + 1)
  {
  }

  /** So any interval holds at most one claim of an event more than it holds five-minute leases. */
  lemma {:induction false} FewClaims(s: State, steps: seq<Step>, event: EventId, from: Time, to: Time)
    requires Start(s) && from <= to
    ensures (CountIn(StampsOf(Run(s, steps).claims, event), from, to) - 1) * (5 * 60 * 1_000_000 + 1) <= to - from
  {
    hide Run, RowsSound, PhasesSound, OverlapsSound, StampsOf, Spaced, CountIn;
    StartIsSound(s);
    RunKeepsInv(s, steps);
    StampsSpaced(Run(s, steps).claims, event);
    CountBound(StampsOf(Run(s, steps).claims, event), STALLED + 1, from, to);
  }

  /** In every reachable state, two handlers act on one event only if one of them has outstayed its lease. */
  lemma {:induction false} OverlapMeansOverrun(s: State, steps: seq<Step>, g: Handler, h: Handler)
    requires Start(s) && g != h
    requires var end := Run(s, steps);
      PhaseOf(end, g).Acting? && PhaseOf(end, h).Acting? && PhaseOf(end, g).event == PhaseOf(end, h).event
    ensures var end := Run(s, steps);
      || PhaseOf(end, g).since + 5 * 60 * 1_000_000 < end.now || PhaseOf(end, h).since + 5 * 60 * 1_000_000 < end.now
  {
    hide Run, ClaimsSound;
    StartIsSound(s);
    RunKeepsInv(s, steps);
    var end := Run(s, steps);
    assert OverlapSound(end, end.handlers[g], end.handlers[h]);
    PhaseIsSound(end, g);
    PhaseIsSound(end, h);
  }

  ghost predicate IsFinished(s: State, event: EventId) {
    event in s.rows && s.rows[event].outcome.Some?
  }

  lemma {:induction false} StepOnFinished(s: State, step: Step, event: EventId)
    requires IsFinished(s, event)
    ensures IsFinished(Do(s, step), event)
    ensures StampsOf(Do(s, step).claims, event) == StampsOf(s.claims, event)
    ensures Do(s, step).rows[event].id == s.rows[event].id
    ensures Do(s, step).rows[event].receivedAt == s.rows[event].receivedAt
  {
    var s' := Do(s, step);
    if s'.claims != s.claims {
      assert s'.claims[..|s'.claims| - 1] == s.claims;
    }
  }

  /** A finished event is never claimed again, by anybody, whatever a handler that overran writes over its outcome. */
  lemma {:induction false} FinishedIsNeverClaimed(s: State, steps: seq<Step>, event: EventId)
    requires IsFinished(s, event)
    ensures IsFinished(Run(s, steps), event)
    ensures StampsOf(Run(s, steps).claims, event) == StampsOf(s.claims, event)
    ensures Run(s, steps).rows[event].id == s.rows[event].id
    decreases |steps|
  {
    if steps == [] {
    } else {
      hide Do, IsFinished, StampsOf;
      FinishedIsNeverClaimed(s, steps[..|steps| - 1], event);
      StepOnFinished(Run(s, steps[..|steps| - 1]), steps[|steps| - 1], event);
      assert event in s.rows by { FinishedHasRow(s, event); }
    }
  }

  lemma {:induction false} FinishedHasRow(s: State, event: EventId)
    requires IsFinished(s, event)
    ensures event in s.rows
  {
  }

  /** Finishing a claim finishes exactly the event that was claimed. */
  lemma {:induction false} FinishFinishesItsEvent(s: State, h: Handler, verdict: Verdict)
    requires Inv(s) && PhaseOf(s, h).Acting?
    ensures var event, s' := PhaseOf(s, h).event, Do(s, Finish(h, verdict));
      && event in s.rows
      && s'.rows == s.rows[event := s.rows[event].(outcome := Some(verdict))]
  {
    hide ClaimsSound, OverlapsSound;
    PhaseIsSound(s, h);
    var row := s.handlers[h].row;
    var event := s.handlers[h].event;
    assert forall e <- s.rows :: s.rows[e].id == row <==> e == event;
  }

  /** A claim whose handler died is taken over by the first delivery that looks more than five minutes after its stamp
      and by none before; the delivery that takes it over acts on the same row, which is stamped anew, and one that does not
      leaves everything as it was. */
  lemma {:induction false} StalledIsTakenExactlyWhenDue(s: State, h: Handler, event: EventId)
    requires event in s.rows && s.rows[event].outcome.None? && PhaseOf(s, h).Out?
    ensures var row, s' := s.rows[event], Do(Do(Do(s, Deliver(h, event)), Insert(h)), Update(h));
      if row.receivedAt + 5 * 60 * 1_000_000 < s.now
      then s' == State(s.now, s.rows[event := Row(row.id, s.now, None)], s.handlers[h := Acting(event, row.id, s.now)],
                       s.claims + [Claim(event, s.now)], s.nextRow)
      else s' == s.(handlers := s.handlers[h := Out])
  {
  }

  /** A new event is claimed by its insert, and a finished one is turned away. */
  lemma {:induction false} NewIsClaimedAtOnce(s: State, h: Handler, event: EventId, elapsed: nat)
    requires PhaseOf(s, h).Out?
    ensures var s' := Do(Do(Do(s, Deliver(h, event)), Tick(elapsed)), Insert(h));
      && (event !in s.rows ==>
            s' == State(s.now + elapsed, s.rows[event := Row(s.nextRow, s.now, None)],
                        s.handlers[h := Acting(event, s.nextRow, s.now)], s.claims + [Claim(event, s.now)], s.nextRow + 1))
      && (event in s.rows && s.rows[event].outcome != None ==>
            Do(s', Update(h)) == s.(now := s.now + elapsed, handlers := s.handlers[h := Out]))
  {
  }

  /** Handling an event once it is claimed: the verdict is written, and the handler is free again; one that dies writes
      nothing. */
  lemma {:induction false} ActedOnce(s: State, h: Handler, verdict: Verdict)
    requires Inv(s) && PhaseOf(s, h).Acting?
    ensures PhaseOf(s, h).event in s.rows
    ensures var event := PhaseOf(s, h).event;
      && Do(s, Finish(h, verdict)) == s.(rows := s.rows[event := s.rows[event].(outcome := Some(verdict))],
                                         handlers := s.handlers[h := Out])
      && Do(s, Die(h)) == s.(handlers := s.handlers[h := Out])
  {
    hide RowsSound, PhasesSound, ClaimsSound, OverlapsSound;
    FinishFinishesItsEvent(s, h, verdict);
  }
}
