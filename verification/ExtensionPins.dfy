/** Extension pins of a node and the check against them (`extension_pins.py`). Times are microseconds. */
module ExtensionPins {
  import opened Results
  import opened PyText

  type Extension = string
  type Version = string
  type Time = int

  const VECTOR: Extension := "vector"
  const MALUDB_CORE: Extension := "maludb_core"
  const PINNED := {VECTOR, MALUDB_CORE}

  // ------------------------------------------------------------------- versions

  /** `part.isdigit()`, of ASCII text. */
  predicate IsDigits(part: string) {
    part != "" && PlainDigits(part)
  }

  function Numbers(parts: seq<string>): seq<int> {
    if parts == [] then []
    else (if IsDigits(parts[0]) then [IntOf(parts[0])] else []) + Numbers(parts[1..])
  }

  function VersionKey(version: Version): seq<int> {
    Numbers(SplitOn(version, '.'))
  }

  /** `a < b` of two tuples. */
  predicate TupleLess(a: seq<int>, b: seq<int>) {
    if b == [] then false
    else if a == [] then true
    else a[0] < b[0] || (a[0] == b[0] && TupleLess(a[1..], b[1..]))
  }

  /** `b` is not below `a`: a total order of tuples. */
  predicate NotBelow(b: seq<int>, a: seq<int>) {
    !TupleLess(b, a)
  }

  lemma {:induction false} TupleLessIsIrreflexive(a: seq<int>)
    ensures !TupleLess(a, a)
    decreases |a|
  {
    if a != [] {
      TupleLessIsIrreflexive(a[1..]);
    }
  }

  lemma {:induction false} NotBelowIsTransitive(a: seq<int>, b: seq<int>, c: seq<int>)
    requires NotBelow(b, a) && NotBelow(c, b)
    ensures NotBelow(c, a)
    decreases |a|
  {
    if a != [] && b != [] && c != [] && a[0] == b[0] == c[0] {
      NotBelowIsTransitive(a[1..], b[1..], c[1..]);
    }
  }

  lemma {:induction false} TuplesAreOrdered(a: seq<int>, b: seq<int>)
    ensures NotBelow(a, b) && NotBelow(b, a) <==> a == b
    decreases |a|
  {
    if a != [] && b != [] && a[0] == b[0] {
      TuplesAreOrdered(a[1..], b[1..]);
      assert a == [a[0]] + a[1..] && b == [b[0]] + b[1..];
    } else if a == b {
      TupleLessIsIrreflexive(a);
    }
  }

  /** A tuple is less exactly if it runs out first, or is smaller at the first place where the two differ. */
  lemma {:induction false} TupleLessIs(a: seq<int>, b: seq<int>)
    ensures TupleLess(a, b) <==>
      exists k :: 0 <= k <= |a| && k < |b| && a[..k] == b[..k] && (k == |a| || a[k] < b[k])
    decreases |a|
  {
    if a != [] && b != [] && a[0] == b[0] {
      TupleLessIs(a[1..], b[1..]);
      if k :| 0 <= k <= |a[1..]| && k < |b[1..]| && a[1..][..k] == b[1..][..k] && (k == |a[1..]| || a[1..][k] < b[1..][k]) {
        assert a[..k + 1] == [a[0]] + a[1..][..k] && b[..k + 1] == [b[0]] + b[1..][..k];
      }
      if k :| 0 <= k <= |a| && k < |b| && a[..k] == b[..k] && (k == |a| || a[k] < b[k]) {
        assert k > 0;
        assert a[1..][..k - 1] == a[..k][1..] && b[1..][..k - 1] == b[..k][1..];
      }
    } else if a != [] && b != [] {
      forall k | 0 < k <= |a| && k < |b| ensures a[..k] != b[..k] {
        assert a[..k][0] != b[..k][0];
      }
    } else if b != [] {
      assert a[..0] == b[..0];
    }
  }

  lemma {:induction false} NumbersAppend(a: seq<string>, b: seq<string>)
    ensures Numbers(a + b) == Numbers(a) + Numbers(b)
  {
    if a == [] {
      assert a + b == b;
    } else {
      assert (a + b)[1..] == a[1..] + b;
      NumbersAppend(a[1..], b);
    }
  }

  /** The key of a version, dot by dot: the parts of plain digits count as their numbers, every other part as nothing. */
  lemma {:induction false} VersionKeyIs(a: Version, b: Version, part: string)
    requires '.' !in part
    ensures VersionKey(a + "." + b) == VersionKey(a) + VersionKey(b)
    ensures VersionKey(part) == if part != "" && forall c <- part :: '0' <= c <= '9' then [IntOf(part)] else []
  {
    SplitOnAppend(a, '.', b);
    NumbersAppend(SplitOn(a, '.'), SplitOn(b, '.'));
    SplitOnFirst(part, '.', "");
    assert [part][1..] == [] && Numbers([]) == [];
    assert Numbers([part]) == (if IsDigits(part) then [IntOf(part)] else []) + Numbers([part][1..]);
  }

  /** A version written as numbers between dots. */
  function Dotted(numbers: seq<nat>): Version
    requires numbers != []
  {
    if |numbers| == 1 then Decimal(numbers[0]) else Dotted(numbers[..|numbers| - 1]) + "." + Decimal(numbers[|numbers| - 1])
  }

  /** Its key is those numbers, so that 0.10 is above 0.9. */
  lemma {:induction false} KeyOfDotted(numbers: seq<nat>)
    requires numbers != []
    ensures VersionKey(Dotted(numbers)) == numbers
    decreases |numbers|
  {
    hide VersionKey, Decimal, IntOf;
    var n := |numbers| - 1;
    var last := Decimal(numbers[n]);
    DecimalIsRead(numbers[n]);
    assert '.' !in last;
    VersionKeyIs("", "", last);
    if n > 0 {
      KeyOfDotted(numbers[..n]);
      VersionKeyIs(Dotted(numbers[..n]), last, "");
      assert numbers == numbers[..n] + [numbers[n]];
    } else {
      assert numbers == [numbers[0]];
    }
  }

  // ------------------------------------------------------------------- a node

  datatype Pin = Pin(version: Version, setAt: Time)
  type Pins = map<Extension, Pin>

  datatype Stamp = Missing | Unreadable | At(time: Time)

  /** `capacity_json.extension_check`; `staleBackends` is `None` when it is not a number. */
  datatype Check = Check(checkedAt: Stamp, provided: map<Extension, Option<Version>>, staleBackends: Option<int>,
                         unreadableBackends: int)

  datatype Reason = NoPin | NeverChecked | UnreadableCheck | PinChangedSince | Mismatch(extension: Extension) | StaleBackends
  datatype PinError = NotPinned | NotTested | NoNode | WouldFall

  /** `rejection_reason` */
  function RejectionReason(pins: Pins, check: Option<Check>): Option<Reason> {
    if VECTOR !in pins || MALUDB_CORE !in pins then Some(NoPin)
    else if check.None? || check.value.checkedAt.Missing? then Some(NeverChecked)
    else if check.value.checkedAt.Unreadable? then Some(UnreadableCheck)
    else if exists e <- pins :: check.value.checkedAt.time < pins[e].setAt then Some(PinChangedSince)
    else if Provides(check.value, VECTOR) != Some(pins[VECTOR].version) then Some(Mismatch(VECTOR))
    else if Provides(check.value, MALUDB_CORE) != Some(pins[MALUDB_CORE].version) then Some(Mismatch(MALUDB_CORE))
    else if check.value.staleBackends != Some(0) then Some(StaleBackends)
    else None
  }

  function Provides(check: Check, extension: Extension): Option<Version> {
    if extension in check.provided then check.provided[extension] else None
  }

  /** `move_refusal`: the first pinned extension the two nodes' pins do not agree on. */
  function MoveRefusal(source: Pins, target: Pins): Option<Extension> {
    if !Agree(source, target, VECTOR) then Some(VECTOR)
    else if !Agree(source, target, MALUDB_CORE) then Some(MALUDB_CORE)
    else None
  }

  predicate Agree(source: Pins, target: Pins, e: Extension) {
    e in source && e in target && source[e].version == target[e].version
  }

  datatype NodeState = NodeState(pins: Pins, check: Option<Check>, tenants: nat)

  type Tested = map<Extension, set<Version>>

  /** What `set_pin` refuses on a node. */
  function PinFault(n: NodeState, tested: Tested, e: Extension, version: Version): Option<PinError> {
    if e !in PINNED then Some(NotPinned)
    else if e !in tested || version !in tested[e] then Some(NotTested)
    else if e in n.pins && TupleLess(VersionKey(version), VersionKey(n.pins[e].version)) && n.tenants > 0 then Some(WouldFall)
    else None
  }

  function AfterSetPin(n: NodeState, tested: Tested, e: Extension, version: Version, stamp: Time): NodeState {
    if PinFault(n, tested, e, version).Some? then n else n.(pins := n.pins[e := Pin(version, stamp)])
  }

  function AfterRecord(n: NodeState, provided: map<Extension, Option<Version>>, stale: nat, unreadable: nat, stamp: Time): NodeState {
    n.(check := Some(Check(At(stamp), provided, Some(stale), unreadable)))
  }

  /** The nodes, by name. */
  class Fleet {
    var nodes: map<string, NodeState>

    constructor (nodes: map<string, NodeState>)
      ensures this.nodes == nodes
    {
      this.nodes := nodes;
    }

    /** `set_pin`; returns the version pinned before. `now` is the transaction's. */
    method SetPin(tested: Tested, name: string, extension: Extension, version: Version, now: Time)
      returns (r: Result<Option<Version>, PinError>)
      modifies this
      ensures var pinned := extension == "vector" || extension == "maludb_core";
        var listed := pinned && extension in tested && version in tested[extension];
        && (r == Raised(NotPinned) <==> !pinned)
        && (r == Raised(NotTested) <==> pinned && !listed)
        && (r == Raised(NoNode) <==> listed && name !in old(nodes))
        && (r == Raised(WouldFall) <==>
              && listed && name in old(nodes) && old(nodes)[name].tenants > 0 && extension in old(nodes)[name].pins
              && TupleLess(VersionKey(version), VersionKey(old(nodes)[name].pins[extension].version)))
      ensures r.Raised? ==> nodes == old(nodes)
      ensures r.Ok? ==>
                && name in old(nodes)
                && nodes == old(nodes)[name := AfterSetPin(old(nodes)[name], tested, extension, version, now)]
                && nodes == old(nodes)[name := NodeState(old(nodes)[name].pins[extension := Pin(version, now)],
                                                         old(nodes)[name].check, old(nodes)[name].tenants)]
                && r.value == if extension in old(nodes)[name].pins then Some(old(nodes)[name].pins[extension].version) else None
      ensures r.Ok? && r.value.Some? && nodes[name].tenants > 0 ==> NotBelow(VersionKey(version), VersionKey(r.value.value))
    {
      hide VersionKey;
      if extension !in PINNED {
        return Raised(NotPinned);
      }
      if extension !in tested || version !in tested[extension] {
        return Raised(NotTested);
      }
      if name !in nodes {
        return Raised(NoNode);
      }
      var node := nodes[name];
      var previous := if extension in node.pins then Some(node.pins[extension].version) else None;
      if previous.Some? && TupleLess(VersionKey(version), VersionKey(previous.value)) {
        if node.tenants > 0 {
          return Raised(WouldFall);
        }
      }
      nodes := nodes[name := node.(pins := node.pins[extension := Pin(version, now)])];
      r := Ok(previous);
    }

    /** `record_check`: the stamp is this transaction's, whatever the measurement's. */
    method RecordCheck(name: string, provided: map<Extension, Option<Version>>, staleBackends: nat, unreadableBackends: nat, now: Time)
      returns (error: Option<PinError>)
      modifies this
      ensures error == (if name in old(nodes) then None else Some(NoNode))
      ensures nodes == if name in old(nodes)
                       then old(nodes)[name := NodeState(
                         old(nodes)[name].pins, Some(Check(At(now), provided, Some(staleBackends), unreadableBackends)),
                         old(nodes)[name].tenants)]
                       else old(nodes)
    {
      if name !in nodes {
        return Some(NoNode);
      }
      nodes := nodes[name := AfterRecord(nodes[name], provided, staleBackends, unreadableBackends, now)];
      error := None;
    }
  }

  // ------------------------------------------------------------------- what acceptance means

  /** Placement accepts a node exactly when both extensions are pinned, the check is stamped no earlier than any pin, it
      found exactly the pinned versions, and no backend it could read still ran a replaced library. */
  lemma {:induction false} AcceptedExactly(pins: Pins, check: Option<Check>)
    ensures RejectionReason(pins, check).None? <==>
      && check.Some? && check.value.checkedAt.At?
      && (forall e <- pins :: pins[e].setAt <= check.value.checkedAt.time)
      && (forall e <- {"vector", "maludb_core"} ::
            e in pins && e in check.value.provided && check.value.provided[e] == Some(pins[e].version))
      && check.value.staleBackends == Some(0)
  {
    assert "vector" in {"vector", "maludb_core"} && "maludb_core" in {"vector", "maludb_core"};
  }

  /** And the reason it gives otherwise: the first of these that applies. */
  lemma {:induction false} RejectedBecause(pins: Pins, check: Option<Check>)
    ensures var r := RejectionReason(pins, check);
      var found := e requires check.Some? =>
        if e in check.value.provided then check.value.provided[e] else None;
      if "vector" !in pins || "maludb_core" !in pins then r == Some(NoPin)
      else if check == None || check.value.checkedAt == Missing then r == Some(NeverChecked)
      else if check.value.checkedAt == Unreadable then r == Some(UnreadableCheck)
      else if exists e <- pins :: check.value.checkedAt.time < pins[e].setAt then r == Some(PinChangedSince)
      else if found("vector") != Some(pins["vector"].version) then r == Some(Mismatch("vector"))
      else if found("maludb_core") != Some(pins["maludb_core"].version) then r == Some(Mismatch("maludb_core"))
      else if check.value.staleBackends != Some(0) then r == Some(StaleBackends)
      else r == None
  {
  }

  /** Backends whose library could not be read are counted but never refuse a node. */
  lemma {:induction false} UnreadableBackendsNeverRefuse(pins: Pins, check: Check, unreadable: int)
    ensures RejectionReason(pins, Some(check.(unreadableBackends := unreadable))) == RejectionReason(pins, Some(check))
  {
    var other := check.(unreadableBackends := unreadable);
    assert Provides(other, VECTOR) == Provides(check, VECTOR) && Provides(other, MALUDB_CORE) == Provides(check, MALUDB_CORE);
  }

  /** Between two accepted nodes a move is permitted exactly when it leaves every installed version as it is. */
  lemma {:induction false} MovePermittedExactly(source: Pins, sourceCheck: Check, target: Pins, targetCheck: Check)
    requires RejectionReason(source, Some(sourceCheck)).None? && RejectionReason(target, Some(targetCheck)).None?
    ensures {"vector", "maludb_core"} <= sourceCheck.provided.Keys && {"vector", "maludb_core"} <= targetCheck.provided.Keys
    ensures var r := MoveRefusal(source, target);
      && (r == Some("vector") <==> targetCheck.provided["vector"] != sourceCheck.provided["vector"])
      && (r == Some("maludb_core") <==>
            targetCheck.provided["vector"] == sourceCheck.provided["vector"]
            && targetCheck.provided["maludb_core"] != sourceCheck.provided["maludb_core"])
      && (r == None <==> forall e <- {"vector", "maludb_core"} :: targetCheck.provided[e] == sourceCheck.provided[e])
  {
    AcceptedExactly(source, Some(sourceCheck));
    AcceptedExactly(target, Some(targetCheck));
    var pinned := {"vector", "maludb_core"};
    assert |VECTOR| == 6 && |MALUDB_CORE| == 11 && VECTOR in pinned && MALUDB_CORE in pinned;
  }

  // ------------------------------------------------------------------- runs

  /** What a transaction does to the node once it holds its row. */
  datatype Change =
    | Set(tested: Tested, e: Extension, version: Version)
    | Record(provided: map<Extension, Option<Version>>, stale: nat, unreadable: nat)

  /** A transaction that has not ended; its stamp is the moment it started. */
  datatype Transaction = Transaction(change: Change, started: Time)

  /** One node with everybody who works on it. Both changes take the node's row lock, so that they take effect one by one,
      in the order they commit and not in the order of their stamps. */
  datatype World = World(now: Time, node: NodeState, pending: map<nat, Transaction>)

  datatype Step =
    | Tick(elapsed: nat)
    | Begin(id: nat, change: Change)
    | Commit(id: nat)
    | Abort(id: nat)
    | Arrive
    | Leave

  type Steps = seq<Step>

  function Changed(n: NodeState, change: Change, stamp: Time): NodeState {
    match change
    case Set(tested, e, version) => AfterSetPin(n, tested, e, version, stamp)
    case Record(provided, stale, unreadable) => AfterRecord(n, provided, stale, unreadable, stamp)
  }

  function Do(w: World, step: Step): World {
    match step
    case Tick(elapsed) => w.(now := w.now + elapsed)
    case Begin(id, change) => if id in w.pending then w else w.(pending := w.pending[id := Transaction(change, w.now)])
    case Commit(id) =>
      if id in w.pending
      then w.(node := Changed(w.node, w.pending[id].change, w.pending[id].started), pending := w.pending - {id})
      else w
    case Abort(id) => w.(pending := w.pending - {id})
    case Arrive => w.(node := w.node.(tenants := w.node.tenants + 1))
    case Leave => w.(node := w.node.(tenants := if w.node.tenants > 0 then w.node.tenants - 1 else 0))
  }

  function Run(w: World, steps: Steps): World {
    if steps == [] then w else Do(Run(w, steps[..|steps| - 1]), steps[|steps| - 1])
  }

  ghost predicate Occupied(w: World, steps: Steps) {
    forall i :: 0 <= i < |steps| ==> Run(w, steps[..i]).node.tenants > 0
  }

  lemma {:induction false} PrefixOccupied(w: World, steps: Steps, k: nat)
    requires Occupied(w, steps) && k <= |steps|
    ensures Occupied(w, steps[..k])
    ensures k < |steps| ==> Run(w, steps[..k]).node.tenants > 0
  {
    hide Run;
    forall i | 0 <= i < k ensures Run(w, steps[..k][..i]).node.tenants > 0 {
      assert steps[..k][..i] == steps[..i];
    }
  }

  lemma {:induction false} StepNeverLowers(w: World, step: Step, e: Extension)
    requires w.node.tenants > 0 && e in w.node.pins
    ensures var after := Do(w, step).node;
      e in after.pins && NotBelow(VersionKey(after.pins[e].version), VersionKey(w.node.pins[e].version))
  {
    hide VersionKey, TupleLess;
    TupleLessIsIrreflexive(VersionKey(w.node.pins[e].version));
  }

  /** While a node has tenants, whoever they are, its pins never fall and never go away. */
  lemma {:induction false} PinsNeverFall(w: World, steps: Steps, e: Extension)
    requires Occupied(w, steps) && e in w.node.pins
    ensures var after := Run(w, steps).node;
      e in after.pins && NotBelow(VersionKey(after.pins[e].version), VersionKey(w.node.pins[e].version))
    decreases |steps|
  {
    hide VersionKey, TupleLess, NotBelow, Do, Occupied;
    var first := VersionKey(w.node.pins[e].version);
    if steps == [] {
      SameIsNotBelow(first);
    } else {
      var k := |steps| - 1;
      PrefixOccupied(w, steps, k);
      PinsNeverFall(w, steps[..k], e);
      var before, after := Run(w, steps[..k]), Run(w, steps);
      StepNeverLowers(before, steps[k], e);
      NotBelowIsTransitive(first, VersionKey(before.node.pins[e].version), VersionKey(after.node.pins[e].version));
    }
  }

  lemma {:induction false} SameIsNotBelow(a: seq<int>)
    ensures NotBelow(a, a)
  {
    TupleLessIsIrreflexive(a);
  }

  /** A pin is refused on a node exactly if the extension is not one of the two, the version is not on its list, or the pin would
      fall under tenants; and says which, in that order. */
  lemma {:induction false} PinFaultIs(n: NodeState, tested: Tested, e: Extension, version: Version)
    ensures PinFault(n, tested, e, version) ==
      if e != "vector" && e != "maludb_core" then Some(NotPinned)
      else if !(e in tested && version in tested[e]) then Some(NotTested)
      else if n.tenants > 0 && e in n.pins && !NotBelow(VersionKey(version), VersionKey(n.pins[e].version)) then Some(WouldFall)
      else None
  {
    hide VersionKey, TupleLess;
  }

  lemma {:induction false} RunThree(w: World, a: Step, b: Step, c: Step)
    ensures Run(w, [a, b, c]) == Do(Do(Do(w, a), b), c)
  {
    hide Do;
    assert [a][..0] == [] && [a, b][..1] == [a] && [a, b, c][..2] == [a, b];
    assert Run(w, []) == w;
    assert Run(w, [a]) == Do(w, a);
    assert Run(w, [a, b]) == Do(Do(w, a), b);
  }

  /** A transaction that takes its time: it takes effect when it commits, on the node as it is then, and is stamped with the
      moment it started; one that is given up leaves nothing. */
  lemma {:induction false} StampedAtItsStart(w: World, id: nat, change: Change, elapsed: nat)
    requires id !in w.pending
    ensures Run(w, [Begin(id, change), Tick(elapsed), Abort(id)]) == w.(now := w.now + elapsed)
    ensures var after, n := Run(w, [Begin(id, change), Tick(elapsed), Commit(id)]), w.node;
      && after == World(w.now + elapsed, after.node, w.pending) && after.node.tenants == n.tenants
      && match change
         case Set(tested, e, version) =>
           && after.node.check == n.check
           && after.node.pins == if PinFault(n, tested, e, version) == None then n.pins[e := Pin(version, w.now)] else n.pins
         case Record(provided, stale, unreadable) =>
           after.node.pins == n.pins && after.node.check == Some(Check(At(w.now), provided, Some(stale), unreadable))
  {
    hide PinFault, Run;
    RunThree(w, Begin(id, change), Tick(elapsed), Abort(id));
    RunThree(w, Begin(id, change), Tick(elapsed), Commit(id));
    assert w.pending[id := Transaction(change, w.now)] - {id} == w.pending;
  }

  /** How many of these steps there are. */
  function CountOf(steps: Steps, step: Step): nat {
    if steps == [] then 0 else CountOf(steps[..|steps| - 1], step) + if steps[|steps| - 1] == step then 1 else 0
  }

  function Elapsed(steps: Steps): nat {
    if steps == [] then 0
    else Elapsed(steps[..|steps| - 1]) + if steps[|steps| - 1].Tick? then steps[|steps| - 1].elapsed else 0
  }

  /** The clock is what has passed, and the tenants are those who came and did not leave, as long as nobody leaves an empty
      node. */
  lemma {:induction false} ClockAndTenants(w: World, steps: Steps)
    ensures Run(w, steps).now == w.now + Elapsed(steps)
    ensures Occupied(w, steps) ==> Run(w, steps).node.tenants == w.node.tenants + CountOf(steps, Arrive) - CountOf(steps, Leave)
    decreases |steps|
  {
    if steps != [] {
      hide VersionKey, TupleLess, Occupied;
      var k := |steps| - 1;
      ClockAndTenants(w, steps[..k]);
      if Occupied(w, steps) {
        PrefixOccupied(w, steps, k);
      }
    }
  }

  // ------------------------------------------------------------------- pins that change after the check

  /** Nothing is stamped later than now. */
  ghost predicate Sound(w: World) {
    && (forall id <- w.pending :: w.pending[id].started <= w.now)
    && (forall e <- w.node.pins :: w.node.pins[e].setAt <= w.now)
    && (w.node.check.Some? && w.node.check.value.checkedAt.At? ==> w.node.check.value.checkedAt.time <= w.now)
  }

  lemma {:induction false} StepKeepsSound(w: World, step: Step)
    requires Sound(w)
    ensures Sound(Do(w, step))
  {
    hide VersionKey, TupleLess;
  }

  lemma {:induction false} RunKeepsSound(w: World, steps: Steps)
    requires Sound(w)
    ensures Sound(Run(w, steps))
    decreases |steps|
  {
    if steps != [] {
      hide Do, Sound;
      RunKeepsSound(w, steps[..|steps| - 1]);
      StepKeepsSound(Run(w, steps[..|steps| - 1]), steps[|steps| - 1]);
    }
  }

  predicate CheckedAt(n: NodeState, moment: Time) {
    n.check.Some? && n.check.value.checkedAt == At(moment)
  }

  /** The pin of `e` is stamped after the check. */
  predicate SetSince(n: NodeState, e: Extension, checked: Time) {
    e in n.pins && n.pins[e].setAt > checked
  }

  lemma {:induction false} SetSinceRefuses(n: NodeState, e: Extension, checked: Time)
    requires CheckedAt(n, checked) && SetSince(n, e, checked)
    ensures RejectionReason(n.pins, n.check) in {Some(NoPin), Some(PinChangedSince)}
  {
  }

  /** A pin of `e` that is on its way although its transaction started no later than the check's. */
  predicate IsEarly(t: Transaction, e: Extension, checked: Time) {
    t.change.Set? && t.change.e == e && t.started <= checked
    && e in PINNED && e in t.change.tested && t.change.version in t.change.tested[e]
  }

  ghost predicate EarlyPin(w: World, e: Extension, checked: Time) {
    exists id <- w.pending :: IsEarly(w.pending[id], e, checked)
  }

  /** No check is committed on the way. */
  ghost predicate NoCheck(w: World, steps: Steps) {
    forall i :: 0 <= i < |steps| ==>
      steps[i].Commit? ==>
        var before := Run(w, steps[..i]); steps[i].id in before.pending ==> !before.pending[steps[i].id].change.Record?
  }

  lemma {:induction false} PrefixNoCheck(w: World, steps: Steps, k: nat)
    requires NoCheck(w, steps) && k < |steps|
    ensures NoCheck(w, steps[..k])
    ensures steps[k].Commit? ==>
              var before := Run(w, steps[..k]); steps[k].id in before.pending ==> !before.pending[steps[k].id].change.Record?
  {
    hide Run;
    forall i | 0 <= i < k && steps[..k][i].Commit?
      ensures var before := Run(w, steps[..k][..i]);
        steps[..k][i].id in before.pending ==> !before.pending[steps[..k][i].id].change.Record?
    {
      assert steps[..k][..i] == steps[..i];
    }
  }

  lemma {:induction false} StepStaysSince(w: World, step: Step, e: Extension, checked: Time)
    requires checked < w.now && CheckedAt(w.node, checked) && SetSince(w.node, e, checked) && !EarlyPin(w, e, checked)
    requires step.Commit? && step.id in w.pending ==> !w.pending[step.id].change.Record?
    ensures var after := Do(w, step);
      checked < after.now && CheckedAt(after.node, checked) && SetSince(after.node, e, checked) && !EarlyPin(after, e, checked)
  {
    hide VersionKey, TupleLess;
  }

  lemma {:induction false} StaysSince(w: World, steps: Steps, e: Extension, checked: Time)
    requires checked < w.now && CheckedAt(w.node, checked) && SetSince(w.node, e, checked) && !EarlyPin(w, e, checked)
    requires NoCheck(w, steps)
    ensures var end := Run(w, steps);
      checked < end.now && CheckedAt(end.node, checked) && SetSince(end.node, e, checked) && !EarlyPin(end, e, checked)
    decreases |steps|
  {
    if steps == [] {
    } else {
      hide Do, NoCheck, EarlyPin, SetSince, CheckedAt;
      var k := |steps| - 1;
      PrefixNoCheck(w, steps, k);
      StaysSince(w, steps[..k], e, checked);
      StepStaysSince(Run(w, steps[..k]), steps[k], e, checked);
    }
  }

  /** Everybody leaves, and then the transaction commits. */
  function LeaveThen(n: nat, id: nat): Steps {
    if n == 0 then [Commit(id)] else [Leave] + LeaveThen(n - 1, id)
  }

  lemma {:induction false} RunFirst(w: World, step: Step, rest: Steps)
    ensures Run(w, [step] + rest) == Run(Do(w, step), rest)
    decreases |rest|
  {
    hide Do;
    var all := [step] + rest;
    if rest == [] {
      assert all[..0] == [] && all == [step];
      assert Run(w, []) == w && Run(Do(w, step), []) == Do(w, step);
    } else {
      assert all[..|all| - 1] == [step] + rest[..|rest| - 1];
      RunFirst(w, step, rest[..|rest| - 1]);
    }
  }

  lemma {:induction false} LeavingLetsItCommit(w: World, n: nat, id: nat, e: Extension, checked: Time)
    requires w.node.tenants == n && id in w.pending && IsEarly(w.pending[id], e, checked)
    ensures var end := Run(w, LeaveThen(n, id)); e in end.node.pins && end.node.pins[e].setAt <= checked
    ensures NoCheck(w, LeaveThen(n, id))
    decreases n
  {
    hide VersionKey, TupleLess;
    if n == 0 {
      assert [Commit(id)][..0] == [];
      assert Run(w, []) == w;
      assert Run(w, [Commit(id)]) == Do(w, Commit(id));
    } else {
      var rest := LeaveThen(n - 1, id);
      LeavingLetsItCommit(Do(w, Leave), n - 1, id, e, checked);
      RunFirst(w, Leave, rest);
      NoCheckFirst(w, Leave, rest);
    }
  }

  lemma {:induction false} NoCheckFirst(w: World, step: Step, rest: Steps)
    requires !step.Commit? && NoCheck(Do(w, step), rest)
    ensures NoCheck(w, [step] + rest)
  {
    hide Do, Run;
    var all := [step] + rest;
    forall i | 0 <= i < |all| && all[i].Commit?
      ensures var before := Run(w, all[..i]); all[i].id in before.pending ==> !before.pending[all[i].id].change.Record?
    {
      assert all[i] == rest[i - 1] && all[..i] == [step] + rest[..i - 1];
      RunFirst(w, step, rest[..i - 1]);
    }
  }

  /** Some steps without a check leave the pin of `e` unnoticed. */
  ghost predicate CanGoUnnoticed(w: World, e: Extension, checked: Time) {
    exists steps: Steps :: NoCheck(w, steps) && !SetSince(Run(w, steps).node, e, checked)
  }

  /** A node whose pin is stamped after its check stays refused through everything but a new check, exactly unless another
      tested pin of that extension is on its way whose transaction started no later than the check's: committing late, that
      one puts its early stamp over the later one. */
  lemma {:induction false} RefusedUntilChecked(w: World, e: Extension, checked: Time)
    requires Sound(w) && CheckedAt(w.node, checked) && SetSince(w.node, e, checked)
    ensures CanGoUnnoticed(w, e, checked) <==> EarlyPin(w, e, checked)
    ensures RejectionReason(w.node.pins, w.node.check) in {Some(NoPin), Some(PinChangedSince)}
  {
    hide Run, Do, NoCheck, VersionKey, TupleLess;
    SetSinceRefuses(w.node, e, checked);
    if id :| id in w.pending && IsEarly(w.pending[id], e, checked) {
      LeavingLetsItCommit(w, w.node.tenants, id, e, checked);
      assert CanGoUnnoticed(w, e, checked);
    } else {
      assert checked < w.now;
      forall steps: Steps | NoCheck(w, steps) ensures SetSince(Run(w, steps).node, e, checked) {
        StaysSince(w, steps, e, checked);
      }
    }
  }

  /** A pin committed on an accepted node leaves it accepted exactly when its transaction started no later than the check's,
      the very same microsecond included, and it names the version the check found. */
  lemma {:induction false} AcceptedAfterPinIff(n: NodeState, tested: Tested, e: Extension, version: Version, started: Time, checked: Time)
    requires RejectionReason(n.pins, n.check).None? && CheckedAt(n, checked)
    requires PinFault(n, tested, e, version).None?
    ensures var end := AfterSetPin(n, tested, e, version, started);
      RejectionReason(end.pins, end.check).None? <==> started <= checked && Provides(n.check.value, e) == Some(version)
  {
    hide VersionKey, TupleLess, RejectionReason;
    AcceptedExactly(n.pins, n.check);
    var end := AfterSetPin(n, tested, e, version, started);
    AcceptedExactly(end.pins, end.check);
  }

  // ------------------------------------------------------------------- the measurement

  /** `/proc/<pid>/maps` of one backend, or the error of reading it. */
  datatype Backend = Maps(text: string) | Unknown

  const REPLACED := "/vector.so (deleted)"

  /** `maps_have_replaced_library` */
  predicate MapsReplaced(text: string) {
    exists line <- SplitLines(text) :: HasSuffix(RStrip(line, IsSpace), REPLACED)
  }

  predicate HasSuffix(s: string, suffix: string) {
    |suffix| <= |s| && s[|s| - |suffix|..] == suffix
  }

  function StaleAmong(backends: seq<Backend>): set<int> {
    set i | 0 <= i < |backends| && backends[i].Maps? && MapsReplaced(backends[i].text)
  }

  function UnknownAmong(backends: seq<Backend>): set<int> {
    set i | 0 <= i < |backends| && backends[i].Unknown?
  }

  lemma {:induction false} OneMoreBackend(backends: seq<Backend>, k: nat)
    requires k < |backends|
    ensures StaleAmong(backends[..k + 1]) ==
              StaleAmong(backends[..k]) + if backends[k].Maps? && MapsReplaced(backends[k].text) then {k} else {}
    ensures UnknownAmong(backends[..k + 1]) == UnknownAmong(backends[..k]) + if backends[k].Unknown? then {k} else {}
    ensures k !in StaleAmong(backends[..k]) && k !in UnknownAmong(backends[..k])
  {
    hide MapsReplaced;
  }

  lemma {:induction false} AmongAre(backends: seq<Backend>)
    ensures UnknownAmong(backends) == set i | 0 <= i < |backends| && backends[i] == Unknown
    ensures StaleAmong(backends) == set i | 0 <= i < |backends| && backends[i] != Unknown && MapsReplaced(backends[i].text)
  {
    hide MapsReplaced;
  }

  /** Line by line, whatever ends it, with nothing but white space after the mark: a line counts exactly if it ends in a
      `vector.so` that was deleted. */
  lemma {:induction false} ReplacedLineByLine(line: string, blanks: string, end: char, rest: string)
    requires NoBreak(line) && NoBreak(blanks) && (forall c <- blanks :: IsSpace(c)) && (line != "" ==> !IsSpace(line[|line| - 1]))
    requires IsBreak(end) && end != '\r'
    ensures var mark := "/vector.so (deleted)";
      MapsReplaced(line + blanks + [end] + rest)
      <==> (|mark| <= |line| && line[|line| - |mark|..] == mark) || MapsReplaced(rest)
  {
    hide IsSpace, IsBreak, RStrip, SplitLines, HasSuffix;
    var whole := line + blanks;
    LinesAre(whole, end, rest);
    RStripBlanks(line, blanks);
    var lines := [whole] + SplitLines(rest);
    assert forall l :: l in lines <==> l == whole || l in SplitLines(rest);
    HasSuffixIs(line, REPLACED);
  }

  lemma {:induction false} HasSuffixIs(s: string, suffix: string)
    ensures HasSuffix(s, suffix) <==> |suffix| <= |s| && s[|s| - |suffix|..] == suffix
  {
  }

  /** The loop of `inspect_node` over the backends. */
  method Inspect(backends: seq<Backend>) returns (stale: nat, unreadable: nat)
    ensures stale == |StaleAmong(backends)| && unreadable == |UnknownAmong(backends)|
    ensures unreadable == |set i | 0 <= i < |backends| && backends[i] == Unknown|
    ensures stale == |set i | 0 <= i < |backends| && backends[i] != Unknown && MapsReplaced(backends[i].text)|
  {
    hide MapsReplaced;
    AmongAre(backends);
    hide StaleAmong, UnknownAmong;
    stale, unreadable := 0, 0;
    NoBackends();
    for k := 0 to |backends|
      invariant stale == |StaleAmong(backends[..k])| && unreadable == |UnknownAmong(backends[..k])|
    {
      OneMoreBackend(backends, k);
      if backends[k].Unknown? {
        unreadable := unreadable + 1;
      } else if MapsReplaced(backends[k].text) {
        stale := stale + 1;
      }
    }
    assert backends[..|backends|] == backends;
  }

  lemma {:induction false} NoBackends()
    ensures StaleAmong([]) == {} && UnknownAmong([]) == {}
  {
  }

  /** A node accepted on a measurement of its backends had none that could be read and still ran the replaced library;
      of those that could not be read it says nothing. */
  lemma {:induction false} AcceptedOnMeasurement(pins: Pins, provided: map<Extension, Option<Version>>, backends: seq<Backend>,
                                                 now: Time)
    ensures var check := Check(At(now), provided, Some(|StaleAmong(backends)|), |UnknownAmong(backends)|);
      RejectionReason(pins, Some(check)).None? <==>
        && PINNED <= pins.Keys && (forall e <- pins :: pins[e].setAt <= now)
        && (forall e <- PINNED :: Provides(check, e) == Some(pins[e].version))
        && forall b <- backends :: b.Unknown? || !MapsReplaced(b.text)
  {
    hide MapsReplaced, RejectionReason;
    var check := Check(At(now), provided, Some(|StaleAmong(backends)|), |UnknownAmong(backends)|);
    AcceptedExactly(pins, Some(check));
    if |StaleAmong(backends)| == 0 {
      assert StaleAmong(backends) == {};
      forall b | b in backends ensures b.Unknown? || !MapsReplaced(b.text) {
        var i :| 0 <= i < |backends| && backends[i] == b;
        assert i !in StaleAmong(backends);
      }
    } else {
      var i :| i in StaleAmong(backends);
      assert backends[i] in backends;
    }
  }
}
