/** The tunnel of the egress proxy (`egress_proxy._pipe`): two copying tasks, one a direction, and their end by exhaustion,
    timeout, error or cancellation. Each is only ever interrupted while it waits, in `read` or in `drain`. */
module Tunnel {

  type Bytes = seq<char>

  const READ_SIZE := 65536

  datatype Phase = Reading | Draining | Finished | Failed | Cancelled

  /** One direction: what the source has sent the proxy and whether it has ended its stream; how much of it the copier
      has read; what the copier has written to the sink and whether it has forwarded the end. */
  datatype Flow = Flow(sent: Bytes, ended: bool, read: nat, written: Bytes, endForwarded: bool, canForwardEnd: bool, phase: Phase)

  /** What happens to the copier next: `read` returns data or nothing, `drain` returns, or either raises. */
  datatype Turn = Data(n: nat) | NoData | Drained | Raises

  function Opened(canForwardEnd: bool): Flow {
    Flow([], false, 0, [], false, canForwardEnd, Reading)
  }

  /** One turn; one that the stream or the copier cannot take changes nothing. */
  function Take(f: Flow, turn: Turn): Flow {
    match turn
    case Data(n) =>
      if f.phase.Reading? && 0 < n <= READ_SIZE && f.read + n <= |f.sent|
      then f.(read := f.read + n, written := f.written + f.sent[f.read..f.read + n], phase := Draining)
      else f
    case NoData =>
      if f.phase.Reading? && f.ended && f.read == |f.sent| then f.(phase := Finished, endForwarded := f.endForwarded || f.canForwardEnd) else f
    case Drained => if f.phase.Draining? then f.(phase := Reading) else f
    case Raises => if f.phase.Reading? || f.phase.Draining? then f.(phase := Failed) else f
  }

  function TakeAll(f: Flow, turns: seq<Turn>): Flow {
    if turns == [] then f else Take(TakeAll(f, turns[..|turns| - 1]), turns[|turns| - 1])
  }

  /** One copying task. */
  class Copying {
    var sent: Bytes
    var ended: bool
    var read: nat
    var written: Bytes
    var endForwarded: bool
    const canForwardEnd: bool
    var phase: Phase

    constructor (sent: Bytes, ended: bool, canForwardEnd: bool)
      ensures AsFlow() == Opened(canForwardEnd).(sent := sent, ended := ended)
    {
      this.sent, this.ended, this.canForwardEnd := sent, ended, canForwardEnd;
      read, written, endForwarded, phase := 0, [], false, Reading;
    }

    function AsFlow(): Flow
      reads this
    {
      Flow(sent, ended, read, written, endForwarded, canForwardEnd, phase)
    }

    /** `copy(source, sink)`, given what its waits come to. */
    method Copy(turns: seq<Turn>)
      modifies this
      ensures AsFlow() == TakeAll(old(AsFlow()), turns)
    {
      hide TakeAll;
      var k := 0;
      TakeNothing(AsFlow(), turns);
      while k < |turns| && (phase == Reading || phase == Draining)
        invariant k <= |turns|
        invariant AsFlow() == TakeAll(old(AsFlow()), turns[..k])
      {
        ghost var before := AsFlow();
        TakeOn(old(AsFlow()), turns, k);
        var turn := turns[k];
        k := k + 1;
        if turn.Raises? {
          phase := Failed;
        } else if phase == Draining {
          if turn.Drained? {
            phase := Reading;
          }
        } else if turn.Data? && 0 < turn.n <= READ_SIZE && read + turn.n <= |sent| {
          written := written + sent[read..read + turn.n];
          read := read + turn.n;
          phase := Draining;
        } else if turn.NoData? && ended && read == |sent| {
          if canForwardEnd {
            endForwarded := true;
          }
          phase := Finished;
        }
        assert AsFlow() == Take(before, turn);
      }
      if k < |turns| {
        OverTakesNothing(old(AsFlow()), turns, k);
      }
      assert turns[..|turns|] == turns;
    }
  }

  lemma {:induction false} TakeNothing(f: Flow, turns: seq<Turn>)
    ensures TakeAll(f, turns[..0]) == f
  {
  }

  lemma {:induction false} TakeOn(f: Flow, turns: seq<Turn>, k: nat)
    requires k < |turns|
    ensures TakeAll(f, turns[..k + 1]) == Take(TakeAll(f, turns[..k]), turns[k])
  {
    hide Take;
    assert turns[..k + 1][..k] == turns[..k];
  }

  lemma {:induction false} OverTakesNothing(f: Flow, turns: seq<Turn>, k: nat)
    requires k <= |turns|
    requires var g := TakeAll(f, turns[..k]); !g.phase.Reading? && !g.phase.Draining?
    ensures TakeAll(f, turns) == TakeAll(f, turns[..k])
    decreases |turns|
  {
    if k < |turns| {
      var before := turns[..|turns| - 1];
      assert before[..k] == turns[..k];
      OverTakesNothing(f, before, k);
    } else {
      assert turns[..k] == turns;
    }
  }

  /** The turns of reads that return chunks of these sizes, each written and drained, and of the read that returns nothing. */
  function ChunkTurns(sizes: seq<nat>): seq<Turn> {
    if sizes == [] then [NoData] else [Data(sizes[0]), Drained] + ChunkTurns(sizes[1..])
  }

  function Total(sizes: seq<nat>): nat {
    if sizes == [] then 0 else sizes[0] + Total(sizes[1..])
  }

  lemma {:induction false} TakeSplit(f: Flow, first: seq<Turn>, rest: seq<Turn>)
    ensures TakeAll(f, first + rest) == TakeAll(TakeAll(f, first), rest)
    decreases |rest|
  {
    hide Take;
    if rest == [] {
      assert first + rest == first;
    } else {
      var n := |rest| - 1;
      assert (first + rest)[..|first| + n] == first + rest[..n];
      TakeSplit(f, first, rest[..n]);
    }
  }

  /** The copying goes on: whatever has been copied so far, as long as nothing raises, the rest of an ended stream arrives
      in whatever chunks it is read, the end after it, and the copier finishes. */
  lemma {:induction false} CopiesTheRest(f: Flow, sizes: seq<nat>)
    requires f.phase.Reading? && f.ended && f.read <= |f.sent| && f.written == f.sent[..f.read] && !f.endForwarded
    requires (forall n <- sizes :: 0 < n <= 65536) && f.read + Total(sizes) == |f.sent|
    ensures TakeAll(f, ChunkTurns(sizes))
            == f.(read := |f.sent|, written := f.sent, endForwarded := f.canForwardEnd, phase := Finished)
    decreases |sizes|
  {
    hide TakeAll;
    if sizes == [] {
      TakeSingle(f, NoData);
      assert f.sent[..f.read] == f.sent;
    } else {
      var n := sizes[0];
      var f' := f.(read := f.read + n, written := f.sent[..f.read + n]);
      assert f.sent[..f.read] + f.sent[f.read..f.read + n] == f.sent[..f.read + n];
      assert forall m <- sizes[1..] :: m in sizes;
      TakeTwo(f, Data(n), Drained);
      assert n in sizes && Take(Take(f, Data(n)), Drained) == f';
      TakeSplit(f, [Data(n), Drained], ChunkTurns(sizes[1..]));
      CopiesTheRest(f', sizes[1..]);
    }
  }

  lemma {:induction false} TakeSingle(f: Flow, turn: Turn)
    ensures TakeAll(f, [turn]) == Take(f, turn)
  {
    assert [turn][..0] == [];
  }

  lemma {:induction false} TakeTwo(f: Flow, first: Turn, second: Turn)
    ensures TakeAll(f, [first, second]) == Take(Take(f, first), second)
  {
    TakeSingle(f, first);
    assert [first, second][..1] == [first];
  }

  /** An ended stream is copied whole, whichever way its bytes fall into reads, and its end is forwarded if it can be. */
  lemma {:induction false} WholeStreamIsCopied(sent: Bytes, sizes: seq<nat>, canForwardEnd: bool)
    requires (forall n <- sizes :: 0 < n <= 65536) && Total(sizes) == |sent|
    ensures TakeAll(Opened(canForwardEnd).(sent := sent, ended := true), ChunkTurns(sizes))
            == Flow(sent, true, |sent|, sent, canForwardEnd, canForwardEnd, Finished)
  {
    CopiesTheRest(Opened(canForwardEnd).(sent := sent, ended := true), sizes);
  }

  /** A chunk is never empty, never longer than a read may be, and its write is drained before anything more is read. */
  lemma {:induction false} OneChunkAtATime(f: Flow, n: nat, m: nat)
    requires Take(f, Data(n)).read != f.read
    ensures 0 < n <= 65536 && Take(f, Data(n)).read == f.read + n
    ensures Take(Take(f, Data(n)), Data(m)) == Take(f, Data(n)) == Take(Take(f, Data(n)), NoData)
  {
  }

  // ------------------------------------------------------------------- both directions

  datatype Direction = Out | Back

  /** `closed`: both connections have been closed, which ends both streams for their readers. */
  datatype State = State(out: Flow, back: Flow, closed: bool)

  datatype Event =
    | Send(to: Direction, bytes: Bytes)
    | End(of: Direction)
    | Turned(of: Direction, turn: Turn)
    | Stop  // a task raised, both finished, or the connection's own task was cancelled: cancel both and close

  function FlowOf(s: State, d: Direction): Flow {
    if d.Out? then s.out else s.back
  }

  function With(s: State, d: Direction, f: Flow): State {
    if d.Out? then s.(out := f) else s.(back := f)
  }

  /** The copier is neither reading nor writing any more. */
  predicate Halted(f: Flow) {
    !f.phase.Reading? && !f.phase.Draining?
  }

  function Cancel(f: Flow): Flow {
    if f.phase.Reading? || f.phase.Draining? then f.(phase := Cancelled) else f
  }

  function Do(s: State, e: Event): State {
    match e
    case Send(d, bytes) => if FlowOf(s, d).ended then s else With(s, d, FlowOf(s, d).(sent := FlowOf(s, d).sent + bytes))
    case End(d) => With(s, d, FlowOf(s, d).(ended := true))
    case Turned(d, turn) => With(s, d, Take(FlowOf(s, d), turn))
    case Stop => State(Cancel(s.out), Cancel(s.back), true)
  }

  function Run(s: State, events: seq<Event>): State {
    if events == [] then s else Do(Run(s, events[..|events| - 1]), events[|events| - 1])
  }

  /** A task has written just what it read, and forwarded the end only after all of an ended stream. */
  ghost predicate FlowSound(f: Flow) {
    && f.read <= |f.sent| && f.written == f.sent[..f.read]
    && (f.phase.Finished? ==> f.ended && f.read == |f.sent|)
    && (f.endForwarded ==> f.phase.Finished?)
  }

  /** From `f` to `g`: nothing sent or written is taken back, and an ended stream stays as it is. */
  ghost predicate FlowGrows(f: Flow, g: Flow) {
    && f.sent <= g.sent && f.written <= g.written && f.read <= g.read
    && (f.ended ==> g.ended && g.sent == f.sent)
    && (f.endForwarded ==> g.endForwarded && g.written == f.written)
    && g.canForwardEnd == f.canForwardEnd
  }

  ghost predicate Inv(s: State) {
    && FlowSound(s.out) && FlowSound(s.back)
    && (s.closed ==> Halted(s.out) && Halted(s.back))
  }

  /** A tunnel begins with nothing sent, nothing ended and both tasks reading. */
  lemma {:induction false} OpenedIsSound(outEnd: bool, backEnd: bool)
    ensures Inv(State(Opened(outEnd), Opened(backEnd), false))
    ensures Opened(outEnd) == Flow([], false, 0, [], false, outEnd, Reading)
  {
  }

  lemma {:induction false} TakeKeeps(f: Flow, turn: Turn)
    requires FlowSound(f)
    ensures FlowSound(Take(f, turn)) && FlowGrows(f, Take(f, turn))
    ensures !f.phase.Reading? && !f.phase.Draining? ==> Take(f, turn) == f
  {
    if turn.Data? && f.phase.Reading? && 0 < turn.n <= READ_SIZE && f.read + turn.n <= |f.sent| {
      assert f.sent[..f.read] + f.sent[f.read..f.read + turn.n] == f.sent[..f.read + turn.n];
    }
  }

  lemma {:induction false} SendKeeps(f: Flow, bytes: Bytes)
    requires FlowSound(f) && !f.ended
    ensures FlowSound(f.(sent := f.sent + bytes)) && FlowGrows(f, f.(sent := f.sent + bytes))
  {
    assert (f.sent + bytes)[..f.read] == f.sent[..f.read];
  }

  lemma {:induction false} EndKeeps(f: Flow)
    requires FlowSound(f)
    ensures FlowSound(f.(ended := true)) && FlowGrows(f, f.(ended := true))
  {
  }

  lemma {:induction false} CancelKeeps(f: Flow)
    requires FlowSound(f)
    ensures FlowSound(Cancel(f)) && FlowGrows(f, Cancel(f)) && Halted(Cancel(f))
    ensures FlowGrows(f, f)
  {
  }

  /** What one event does to one direction. */
  function Step(f: Flow, d: Direction, e: Event): Flow {
    match e
    case Send(to, bytes) => if to != d || f.ended then f else f.(sent := f.sent + bytes)
    case End(of) => if of != d then f else f.(ended := true)
    case Turned(of, turn) => if of != d then f else Take(f, turn)
    case Stop => Cancel(f)
  }

  lemma {:induction false} StepKeeps(f: Flow, d: Direction, e: Event)
    requires FlowSound(f)
    ensures FlowSound(Step(f, d, e)) && FlowGrows(f, Step(f, d, e))
    ensures Halted(f) ==> Halted(Step(f, d, e)) && Step(f, d, e).written == f.written
    ensures e.Stop? ==> Halted(Step(f, d, e))
  {
    hide Take, Cancel, FlowSound, FlowGrows;
    CancelKeeps(f);
    match e
    case Send(to, bytes) => if to == d && !f.ended { SendKeeps(f, bytes); }
    case End(of) => EndKeeps(f);
    case Turned(of, turn) => TakeKeeps(f, turn);
    case Stop => assert Halted(f) ==> Cancel(f) == f by { HaltedIsCancelled(f); }
  }

  lemma {:induction false} HaltedIsCancelled(f: Flow)
    ensures Halted(f) ==> Cancel(f) == f
  {
  }

  lemma {:induction false} DoSteps(s: State, e: Event)
    ensures Do(s, e) == State(Step(s.out, Out, e), Step(s.back, Back, e), s.closed || e.Stop?)
  {
    hide Take, Cancel;
  }

  lemma {:induction false} DoKeeps(s: State, e: Event)
    requires Inv(s)
    ensures Inv(Do(s, e)) && FlowGrows(s.out, Do(s, e).out) && FlowGrows(s.back, Do(s, e).back)
    ensures s.closed ==> Do(s, e).closed && Do(s, e).out.written == s.out.written && Do(s, e).back.written == s.back.written
  {
    hide Do, Step, FlowSound, FlowGrows, Halted;
    DoSteps(s, e);
    StepKeeps(s.out, Out, e);
    StepKeeps(s.back, Back, e);
  }

  lemma {:induction false} GrowsTransitive(f: Flow, g: Flow, h: Flow)
    requires FlowGrows(f, g) && FlowGrows(g, h)
    ensures FlowGrows(f, h)
  {
  }

  /** Through any interleaving of the two tasks, timeouts, errors and cancellation: what has been written to a side is a
      prefix of what the other side sent, none of it is ever taken back, and the end of a stream is forwarded only when
      all of it has been written. After closing nothing more is written. */
  lemma {:induction false} EverythingInOrder(s: State, events: seq<Event>, d: Direction)
    requires Inv(s)
    ensures var end := Run(s, events); var f := FlowOf(end, d);
      && Inv(end)
      && f.written <= f.sent
      && (f.endForwarded ==> f.ended && f.written == f.sent)
      && FlowGrows(FlowOf(s, d), f)
      && (s.closed ==> end.closed && f.written == FlowOf(s, d).written)
    decreases |events|
  {
    if events == [] {
    } else {
      hide Do, FlowSound, FlowGrows;
      var before := Run(s, events[..|events| - 1]);
      EverythingInOrder(s, events[..|events| - 1], d);
      DoKeeps(before, events[|events| - 1]);
      GrowsTransitive(FlowOf(s, d), FlowOf(before, d), FlowOf(Run(s, events), d));
      SoundMeans(FlowOf(Run(s, events), d));
    }
  }

  lemma {:induction false} SoundMeans(f: Flow)
    requires FlowSound(f)
    ensures f.written <= f.sent && (f.endForwarded ==> f.ended && f.written == f.sent)
  {
  }

  /** Both streams ended and nothing raised: everything was delivered both ways. */
  lemma {:induction false} FinishedMeansDelivered(s: State, events: seq<Event>)
    requires Inv(s)
    ensures var end := Run(s, events);
      end.out.phase.Finished? && end.back.phase.Finished? ==>
        && end.out.written == end.out.sent && end.out.ended
        && end.back.written == end.back.sent && end.back.ended
  {
    EverythingInOrder(s, events, Out);
    EverythingInOrder(s, events, Back);
  }

  /** What a side has sent after all these events: everything up to its end. */
  function SentBy(events: seq<Event>, d: Direction): Bytes {
    if events == [] || events[0] == End(d) then []
    else if events[0].Send? && events[0].to == d then events[0].bytes + SentBy(events[1..], d)
    else SentBy(events[1..], d)
  }

  lemma {:induction false} SentByNext(events: seq<Event>, e: Event, d: Direction)
    ensures SentBy(events + [e], d) == SentBy(events, d)
              + if End(d) !in events && e.Send? && e.to == d then e.bytes else []
    decreases |events|
  {
    if events == [] {
      assert [e][1..] == [];
    } else {
      assert (events + [e])[1..] == events[1..] + [e];
      SentByNext(events[1..], e, d);
      assert End(d) in events <==> events[0] == End(d) || End(d) in events[1..];
    }
  }

  /** The streams themselves: what the sides send before their ends, and nothing else; both connections are closed exactly
      when everything was stopped. */
  lemma {:induction false} StreamsAreTheEvents(s: State, events: seq<Event>, d: Direction)
    ensures var f := FlowOf(s, d); var g := FlowOf(Run(s, events), d);
      && g.sent == f.sent + (if f.ended then [] else SentBy(events, d))
      && (g.ended <==> f.ended || End(d) in events)
      && (Run(s, events).closed <==> s.closed || Stop in events)
    decreases |events|
  {
    hide Run, Do, FlowOf;
    RunNext(s, events);
    if events != [] {
      var n := |events| - 1;
      var before, e := events[..n], events[n];
      StreamsAreTheEvents(s, before, d);
      assert events == before + [e];
      SentByNext(before, e, d);
      StreamNext(Run(s, before), e, d);
      EndsNext(before, e, d);
      Appended(FlowOf(s, d), SentBy(before, d), e);
    } else {
      assert FlowOf(s, d).sent + [] == FlowOf(s, d).sent;
    }
  }

  lemma {:induction false} Appended(f: Flow, sent: Bytes, e: Event)
    ensures e.Send? ==> f.sent + sent + e.bytes == f.sent + (sent + e.bytes)
    ensures sent + [] == sent
  {
  }

  lemma {:induction false} EndsNext(events: seq<Event>, e: Event, d: Direction)
    ensures End(d) in events + [e] <==> End(d) in events || e == End(d)
    ensures Stop in events + [e] <==> Stop in events || e == Stop
  {
  }

  lemma {:induction false} StreamNext(s: State, e: Event, d: Direction)
    ensures var f := FlowOf(s, d); var g := FlowOf(Do(s, e), d);
      && g.sent == (if e.Send? && e.to == d && !f.ended then f.sent + e.bytes else f.sent)
      && (g.ended <==> f.ended || e == End(d))
      && (Do(s, e).closed <==> s.closed || e == Stop)
  {
    hide Take;
    TakeLeavesStream(FlowOf(s, d));
  }

  lemma {:induction false} RunNext(s: State, events: seq<Event>)
    ensures events == [] ==> Run(s, events) == s
    ensures events != [] ==> Run(s, events) == Do(Run(s, events[..|events| - 1]), events[|events| - 1])
  {
  }

  lemma {:induction false} TakeLeavesStream(f: Flow)
    ensures forall turn :: Take(f, turn).sent == f.sent && Take(f, turn).ended == f.ended
  {
  }

  // ------------------------------------------------------------------- what a reader holds in the end

  /** The event ends the copying of a direction: one of its waits raises, or everything stops. */
  predicate Halts(e: Event, d: Direction) {
    e.Stop? || (e.Turned? && e.of == d && e.turn.Raises?)
  }

  /** How many events come before the first that halts a direction. */
  function HaltedAt(events: seq<Event>, d: Direction): (k: nat)
    ensures k <= |events|
    ensures k < |events| ==> Halts(events[k], d)
    ensures forall i :: 0 <= i < k ==> !Halts(events[i], d)
  {
    if events == [] || Halts(events[0], d) then 0 else 1 + HaltedAt(events[1..], d)
  }

  /** The read that the turn makes is one the copier and the stream are ready for. */
  predicate Reads(f: Flow, e: Event, d: Direction) {
    && e.Turned? && e.of == d && e.turn.Data?
    && f.phase.Reading? && 0 < e.turn.n <= READ_SIZE && f.read + e.turn.n <= |f.sent|
  }

  /** How much the data turns of a direction have taken. */
  function Taken(s: State, events: seq<Event>, d: Direction): nat {
    if events == [] then 0
    else
      var n := |events| - 1;
      Taken(s, events[..n], d) + if Reads(FlowOf(Run(s, events[..n]), d), events[n], d) then events[n].turn.n else 0
  }

  lemma {:induction false} ReadsNext(s: State, e: Event, d: Direction)
    ensures FlowOf(Do(s, e), d).read == FlowOf(s, d).read + if Reads(FlowOf(s, d), e, d) then e.turn.n else 0
  {
  }

  lemma {:induction false} TakenIsRead(s: State, events: seq<Event>, d: Direction)
    ensures FlowOf(Run(s, events), d).read == FlowOf(s, d).read + Taken(s, events, d)
    decreases |events|
  {
    if events != [] {
      hide Do;
      var n := |events| - 1;
      TakenIsRead(s, events[..n], d);
      ReadsNext(Run(s, events[..n]), events[n], d);
    }
  }

  lemma {:induction false} HaltedStays(s: State, e: Event, d: Direction)
    ensures Halted(FlowOf(s, d)) || Halts(e, d) ==> Halted(FlowOf(Do(s, e), d)) && FlowOf(Do(s, e), d).read == FlowOf(s, d).read
  {
  }

  /** Once its copying is halted, a direction reads nothing more. */
  lemma {:induction false} NothingAfterHalt(s: State, events: seq<Event>, d: Direction, k: nat)
    requires k < |events| && Halts(events[k], d)
    ensures Halted(FlowOf(Run(s, events), d)) && FlowOf(Run(s, events), d).read == FlowOf(Run(s, events[..k]), d).read
    decreases |events|
  {
    hide Do, FlowOf, Halted;
    var n := |events| - 1;
    HaltedStays(Run(s, events[..n]), events[n], d);
    if k < n {
      assert events[..n][..k] == events[..k];
      NothingAfterHalt(s, events[..n], d, k);
    }
  }

  lemma {:induction false} StopCloses(s: State, events: seq<Event>)
    ensures s.closed || Stop in events ==> Run(s, events).closed
    decreases |events|
  {
    if events != [] {
      StopCloses(s, events[..|events| - 1]);
      assert Stop in events ==> Stop in events[..|events| - 1] || events[|events| - 1] == Stop;
    }
  }

  /** What a reader holds at the end of any run: exactly the prefix of what was sent to it that its data turns took before
      the first raised wait of its copier or the stop; so it holds all of it exactly when they took it all by then. */
  lemma {:induction false} HeldExactly(s: State, events: seq<Event>, d: Direction)
    requires Inv(s)
    ensures var end := Run(s, events);
      var f, taken := FlowOf(end, d), FlowOf(s, d).read + Taken(s, events[..HaltedAt(events, d)], d);
      && taken <= |f.sent| && f.written == f.sent[..taken]
      && (f.written == f.sent <==> taken == |f.sent|)
      && (Stop in events ==> end.closed)
  {
    hide Do, Taken, FlowOf;
    EverythingInOrder(s, events, d);
    StopCloses(s, events);
    var k := HaltedAt(events, d);
    TakenIsRead(s, events[..k], d);
    if k < |events| {
      NothingAfterHalt(s, events, d, k);
    } else {
      assert events[..k] == events;
    }
    SoundFlow(Run(s, events), d);
  }

  lemma {:induction false} SoundFlow(s: State, d: Direction)
    requires Inv(s)
    ensures FlowSound(FlowOf(s, d))
  {
  }

  /** One side falls silent while bytes for the other are still unread: its copier's wait raises, everything stops, and the
      other reader is left with just what had been written to it. It loses something exactly when something was unread. */
  lemma {:induction false} SilenceCutsTheOtherShort(s: State, events: seq<Event>, d: Direction, other: Direction)
    requires Inv(s) && d != other
    ensures var before, end := Run(s, events), Do(Do(Run(s, events), Turned(other, Raises)), Stop);
      var f, g := FlowOf(before, d), FlowOf(end, d);
      && end.closed && g.written == f.written && g.sent == f.sent && g.endForwarded == f.endForwarded
      && g.phase == (if f.phase == Reading || f.phase == Draining then Cancelled else f.phase)
      && (g.written != g.sent <==> f.read < |f.sent|)
  {
    hide Run;
    EverythingInOrder(s, events, d);
    SoundFlow(Run(s, events), d);
  }
}
