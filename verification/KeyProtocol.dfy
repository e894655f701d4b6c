/** Processes sharing one `encryption_keys` table (`crypto.py`): loads that mint the first key under an advisory
    lock, and top-level rotations. One event is one statement or commit of one process; the events of a run may come
    in any order, and one that its process is not ready for changes nothing. */
module KeyProtocol {
  import opened Results
  import opened Crypto

  type Process = nat

  datatype Phase =
    | Idle
    | Waiting    // `load` found no keys and asked for the lock
    | Locked     // holds the lock, about to look again
    | Minting    // looked again, found neither keys nor secrets
    | Rereading  // gave the lock back, about to read the keys
    | Rotating(next: Version, dek: Bytes)
    | Updating(next: Version, dek: Bytes, seen: set<Version>)     // the UPDATE's snapshot is taken
    | Updated(next: Version, dek: Bytes, retired: set<Version>)   // the UPDATE has run, nothing is committed

  /** `loaded`: the last `load` returned. */
  datatype Proc = Proc(ring: Ring, phase: Phase, loaded: bool)

  /** `keys` is what is committed. */
  datatype State = State(keys: Keys, lock: Option<Process>, procs: map<Process, Proc>)

  datatype Event =
    | StartLoad
    | Acquire
    | LookAgain(columns: Columns)
    | Mint(newDek: Bytes, nonce: Bytes)
    | Reread
    | StartRotate(newDek: Bytes)
    | SnapshotActive
    | RetireActive
    | CommitRotate(nonce: Bytes)
    | Crash

  function Release(lock: Option<Process>, p: Process): Option<Process> {
    if lock == Some(p) then None else lock
  }

  /** Reading the rows: the ring keeps what it unwrapped before a row it cannot unwrap. */
  ghost function Absorb(proc: Proc, keys: Keys): Proc {
    if Readable(proc.ring.kek, keys) then
      var ring := WithRows(proc.ring, keys);
      Proc(ring, Idle, ring.active.Some?)
    else
      Proc(WithRows(proc.ring, Below(keys, FirstBad(proc.ring.kek, keys))), Idle, false)
  }

  ghost function FirstBad(kek: Bytes, keys: Keys): (bad: Version)
    requires !Readable(kek, keys)
    ensures Readable(kek, Below(keys, bad))
    ensures bad in keys && Unwrap(kek, keys[bad]).None?
  {
    FirstBadExists(kek, keys, Top(keys.Keys) + 1);
    var bad :| bad in keys && Unwrap(kek, keys[bad]).None? && Readable(kek, Below(keys, bad));
    bad
  }

  lemma {:induction false} FirstBadExists(kek: Bytes, keys: Keys, n: Version)
    requires exists v <- keys :: v < n && Unwrap(kek, keys[v]).None?
    ensures exists v <- keys :: Unwrap(kek, keys[v]).None? && Readable(kek, Below(keys, v))
    decreases n
  {
    var v :| v in keys && v < n && Unwrap(kek, keys[v]).None?;
    if !Readable(kek, Below(keys, v)) {
      FirstBadExists(kek, keys, v);
    }
  }

  /** What one event does to the committed keys, the lock and the process it belongs to. */
  ghost function Act(keys: Keys, lock: Option<Process>, p: Process, proc: Proc, e: Event): (Keys, Option<Process>, Proc) {
    match (e, proc.phase)
    case (StartLoad, Idle) =>
      if keys == map[] then (keys, lock, proc.(phase := Waiting)) else (keys, lock, Absorb(proc, keys))
    case (Acquire, Waiting) =>
      if lock.None? then (keys, Some(p), proc.(phase := Locked)) else (keys, lock, proc)
    case (LookAgain(columns), Locked) =>
      if keys != map[] then (keys, None, proc.(phase := Rereading))
      else if SecretsFound(columns) then (keys, None, proc.(phase := Idle, loaded := false))
      else (keys, lock, proc.(phase := Minting))
    case (Mint(dek, nonce), Minting) =>
      (if 1 in keys then keys else keys[1 := Wrap(proc.ring.kek, nonce, dek)], None, proc.(phase := Rereading))
    case (Reread, Rereading) => (keys, lock, Absorb(proc, keys))
    case (StartRotate(dek), Idle) => (keys, lock, proc.(phase := Rotating(Top(proc.ring.deks.Keys) + 1, dek)))
    case (SnapshotActive, Rotating(next, dek)) => (keys, lock, proc.(phase := Updating(next, dek, ActiveOf(keys))))
    case (RetireActive, Updating(next, dek, seen)) =>
      // each row of the snapshot is looked at again under its lock
      (keys, lock, proc.(phase := Updated(next, dek, seen * ActiveOf(keys))))
    case (CommitRotate(nonce), Updated(next, dek, retired)) =>
      if next in keys then (keys, lock, proc.(phase := Idle))
      else
        (Retire(keys, retired)[next := Wrap(proc.ring.kek, nonce, dek)], lock,
         proc.(ring := Ring(proc.ring.kek, proc.ring.deks[next := dek], Some(next)), phase := Idle))
    case (Crash, _) => (keys, Release(lock, p), Proc(Ring(proc.ring.kek, map[], None), Idle, false))
    case _ => (keys, lock, proc)
  }

  ghost function Step(s: State, p: Process, e: Event): State {
    if p !in s.procs then s
    else
      var (keys, lock, proc) := Act(s.keys, s.lock, p, s.procs[p], e);
      State(keys, lock, s.procs[p := proc])
  }

  type Events = seq<(Process, Event)>

  ghost function Run(s: State, events: Events): State {
    if events == [] then s
    else var last := events[|events| - 1]; Step(Run(s, events[..|events| - 1]), last.0, last.1)
  }

  // ------------------------------------------------------------------- invariant

  /** Versions 1 to n, the last of them active and no other. */
  ghost predicate KeysSound(keys: Keys) {
    && (forall v: Version :: v in keys <==> 1 <= v <= |keys|)
    && (forall v <- keys :: keys[v].state.Active? <==> v == |keys|)
  }

  /** A ring holds exactly what the stored rows unwrap to. */
  predicate RingSound(ring: Ring, keys: Keys) {
    && (forall v <- ring.deks :: v in keys && Unwrap(ring.kek, keys[v]) == Some(ring.deks[v]))
    && (ring.active.Some? ==> ring.active.value in ring.deks)
  }

  /** A rotation in flight may still win only if its snapshot is what is committed. */
  predicate PhaseSound(phase: Phase, keys: Keys) {
    match phase
    case Rotating(next, _) => 1 <= next <= |keys| + 1
    case Updating(next, _, seen) => 1 <= next <= |keys| + 1 && (next == |keys| + 1 ==> seen == ActiveOf(keys))
    case Updated(next, _, retired) => 1 <= next <= |keys| + 1 && (next == |keys| + 1 ==> retired == ActiveOf(keys))
    case _ => true
  }

  predicate ProcSound(proc: Proc, keys: Keys) {
    && RingSound(proc.ring, keys)
    && PhaseSound(proc.phase, keys)
    && (proc.loaded ==> proc.ring.active.Some?)
  }

  ghost predicate Inv(s: State) {
    && KeysSound(s.keys)
    && forall p <- s.procs :: ProcSound(s.procs[p], s.keys)
  }

  /** The table has grown by whole rows: no stored key was touched. */
  predicate Extends(small: Keys, large: Keys) {
    forall v <- small :: v in large && large[v].nonce == small[v].nonce && large[v].blob == small[v].blob
  }

  lemma {:induction false} ReadSound(ring: Ring, rows: Keys, keys: Keys)
    requires RingSound(ring, keys) && Readable(ring.kek, rows)
    requires forall v <- rows :: v in keys && rows[v] == keys[v]
    ensures RingSound(WithRows(ring, rows), keys)
    ensures rows.Keys <= WithRows(ring, rows).deks.Keys
  {
    hide Unwrap;
  }

  lemma {:induction false} AbsorbSound(proc: Proc, keys: Keys)
    requires ProcSound(proc, keys)
    ensures ProcSound(Absorb(proc, keys), keys)
    ensures Absorb(proc, keys).ring.kek == proc.ring.kek && Absorb(proc, keys).phase == Idle
    ensures Absorb(proc, keys).loaded ==> keys.Keys <= Absorb(proc, keys).ring.deks.Keys
  {
    hide RingSound, WithRows, Unwrap;
    if Readable(proc.ring.kek, keys) {
      ReadSound(proc.ring, keys, keys);
      ActiveIsHeld(proc.ring, keys);
    } else {
      var some := Below(keys, FirstBad(proc.ring.kek, keys));
      ReadSound(proc.ring, some, keys);
      ActiveIsHeld(proc.ring, some);
    }
  }

  lemma {:induction false} ActiveIsHeld(ring: Ring, rows: Keys)
    requires Readable(ring.kek, rows)
    ensures WithRows(ring, rows).kek == ring.kek
  {
  }

  /** Sound processes stay sound when the keys are extended by others. */
  lemma {:induction false} SoundUnderExtension(proc: Proc, keys: Keys, keys': Keys)
    requires ProcSound(proc, keys)
    requires Extends(keys, keys') && |keys| < |keys'|
    ensures ProcSound(proc, keys')
  {
  }

  lemma {:induction false} FirstKeySound(keys: Keys, row: KeyRow)
    requires KeysSound(keys) && 1 !in keys && row.state.Active?
    ensures KeysSound(keys[1 := row]) && Extends(keys, keys[1 := row]) && |keys[1 := row]| == |keys| + 1
  {
    assert |keys| == 0;
    assert keys == map[];
  }

  lemma {:induction false} NextKeySound(keys: Keys, next: Version, row: KeyRow)
    requires KeysSound(keys) && next == |keys| + 1 && row.state.Active?
    ensures var keys' := Retire(keys, ActiveOf(keys))[next := row];
      KeysSound(keys') && Extends(keys, keys') && |keys'| == |keys| + 1
  {
    var retired := Retire(keys, ActiveOf(keys));
    assert retired.Keys == keys.Keys;
    assert |retired| == |retired.Keys| == |keys|;
    assert next !in retired;
    assert retired[next := row].Keys == keys.Keys + {next};
    assert |retired[next := row]| == |keys| + 1;
  }

  lemma {:induction false} TopOfRing(ring: Ring, keys: Keys)
    requires KeysSound(keys) && RingSound(ring, keys)
    ensures Top(ring.deks.Keys) <= |keys|
  {
  }

  /** Every event keeps the invariant for its own process, and only ever extends the keys. */
  lemma {:induction false} ActKeeps(keys: Keys, lock: Option<Process>, p: Process, proc: Proc, e: Event)
    requires KeysSound(keys) && ProcSound(proc, keys)
    ensures var (keys', _, proc') := Act(keys, lock, p, proc, e);
      KeysSound(keys') && ProcSound(proc', keys') && proc'.ring.kek == proc.ring.kek
      && (keys' == keys || (Extends(keys, keys') && |keys'| == |keys| + 1))
  {
    hide KeysSound, RingSound, Extends, Retire, Unwrap, Absorb, SecretsFound, Encrypt, ActiveOf, Wrap;
    if e.Mint? {
      MintKeeps(keys, lock, p, proc, e);
    } else if e.CommitRotate? {
      CommitActKeeps(keys, lock, p, proc, e);
    } else {
      AbsorbSound(proc, keys);
      TopOfRing(proc.ring, keys);
      EmptyRing(proc.ring.kek, keys);
    }
  }

  lemma {:induction false} MintKeeps(keys: Keys, lock: Option<Process>, p: Process, proc: Proc, e: Event)
    requires KeysSound(keys) && ProcSound(proc, keys) && e.Mint?
    ensures var (keys', _, proc') := Act(keys, lock, p, proc, e);
      KeysSound(keys') && ProcSound(proc', keys') && proc'.ring.kek == proc.ring.kek
      && (keys' == keys || (Extends(keys, keys') && |keys'| == |keys| + 1))
  {
    hide KeysSound, RingSound, Extends, Retire, Unwrap, Absorb, SecretsFound, Encrypt, ActiveOf;
    if 1 !in keys {
      var row := Wrap(proc.ring.kek, e.nonce, e.newDek);
      FirstKeySound(keys, row);
      SoundUnderExtension(proc, keys, keys[1 := row]);
    }
  }

  lemma {:induction false} CommitActKeeps(keys: Keys, lock: Option<Process>, p: Process, proc: Proc, e: Event)
    requires KeysSound(keys) && ProcSound(proc, keys) && e.CommitRotate?
    ensures var (keys', _, proc') := Act(keys, lock, p, proc, e);
      KeysSound(keys') && ProcSound(proc', keys') && proc'.ring.kek == proc.ring.kek
      && (keys' == keys || (Extends(keys, keys') && |keys'| == |keys| + 1))
  {
    hide KeysSound, RingSound, Extends, Retire, Unwrap, Absorb, SecretsFound, Wrap, ActiveOf;
    if proc.phase.Updated? && proc.phase.next !in keys {
      CommitKeeps(keys, proc, proc.phase.next, proc.phase.dek, e.nonce);
    }
  }

  lemma {:induction false} EmptyRing(kek: Bytes, keys: Keys)
    ensures RingSound(Ring(kek, map[], None), keys)
  {
  }

  lemma {:induction false} CommitKeeps(keys: Keys, proc: Proc, next: Version, dek: Bytes, nonce: Bytes)
    requires KeysSound(keys) && RingSound(proc.ring, keys) && 1 <= next <= |keys| + 1 && next !in keys
    ensures next == |keys| + 1
    ensures var keys' := Retire(keys, ActiveOf(keys))[next := Wrap(proc.ring.kek, nonce, dek)];
      && KeysSound(keys') && Extends(keys, keys') && |keys'| == |keys| + 1
      && RingSound(Ring(proc.ring.kek, proc.ring.deks[next := dek], Some(next)), keys')
  {
    NextKeySound(keys, next, Wrap(proc.ring.kek, nonce, dek));
  }

  /** One event of one process keeps the whole invariant, whatever the others are in the middle of. */
  lemma {:induction false} StepKeepsInv(s: State, p: Process, e: Event)
    requires Inv(s)
    ensures Inv(Step(s, p, e)) && Extends(s.keys, Step(s, p, e).keys)
    ensures Step(s, p, e).procs.Keys == s.procs.Keys
    ensures forall q <- s.procs :: Step(s, p, e).procs[q].ring.kek == s.procs[q].ring.kek
  {
    if p in s.procs {
      hide Act, KeysSound, ProcSound;
      ActKeeps(s.keys, s.lock, p, s.procs[p], e);
      var s' := Step(s, p, e);
      forall q | q in s.procs
        ensures ProcSound(s'.procs[q], s'.keys)
      {
        if q != p && s'.keys != s.keys {
          SoundUnderExtension(s.procs[q], s.keys, s'.keys);
        }
      }
    }
  }

  lemma {:induction false} ExtendsTransitive(a: Keys, b: Keys, c: Keys)
    requires Extends(a, b) && Extends(b, c)
    ensures Extends(a, c)
  {
  }

  /** Over every run, by any number of processes, stale and crashed ones included: versions stay 1 to n, exactly the
      last is active, no stored key is ever altered, and every ring holds exactly what the stored rows unwrap to. */
  lemma {:induction false} RunKeepsInv(s: State, events: Events)
    requires Inv(s)
    ensures Inv(Run(s, events)) && Extends(s.keys, Run(s, events).keys)
    ensures Run(s, events).procs.Keys == s.procs.Keys
    ensures forall q <- s.procs :: Run(s, events).procs[q].ring.kek == s.procs[q].ring.kek
    decreases |events|
  {
    if events == [] {
    } else {
      hide Inv, Extends, Step;
      var last, before := events[|events| - 1], events[..|events| - 1];
      RunKeepsInv(s, before);
      StepKeepsInv(Run(s, before), last.0, last.1);
      ExtendsTransitive(s.keys, Run(s, before).keys, Run(s, events).keys);
    }
  }

  // ------------------------------------------------------------------- the lock

  predicate HoldsLock(phase: Phase) {
    phase.Locked? || phase.Minting?
  }

  /** The lock is held exactly by the one process between taking it and its commit or rollback. */
  predicate LockExact(s: State) {
    && (forall p <- s.procs :: HoldsLock(s.procs[p].phase) <==> s.lock == Some(p))
    && (s.lock.Some? ==> s.lock.value in s.procs)
  }

  lemma {:induction false} ActKeepsLock(keys: Keys, lock: Option<Process>, p: Process, proc: Proc, e: Event)
    requires HoldsLock(proc.phase) <==> lock == Some(p)
    ensures var (_, lock', proc') := Act(keys, lock, p, proc, e);
      && (HoldsLock(proc'.phase) <==> lock' == Some(p))
      && (lock' == lock || (lock.None? && lock' == Some(p)) || (lock == Some(p) && lock'.None?))
  {
    hide Retire, WithRows, Readable, Below, FirstBad;
  }

  /** Looking again, refusing and minting are one process at a time, and no crash leaves the lock behind. */
  lemma {:induction false} LockStaysExact(s: State, events: Events)
    requires LockExact(s)
    ensures LockExact(Run(s, events))
    decreases |events|
  {
    if events == [] {
    } else {
      hide Act;
      var (p, e) := events[|events| - 1];
      var before := Run(s, events[..|events| - 1]);
      LockStaysExact(s, events[..|events| - 1]);
      if p in before.procs {
        ActKeepsLock(before.keys, before.lock, p, before.procs[p], e);
      }
    }
  }

  // ------------------------------------------------------------------- the first key

  ghost predicate OnlyLoads(events: Events) {
    forall e <- events :: !e.1.StartRotate?
  }

  predicate NotRotating(phase: Phase) {
    !phase.Rotating? && !phase.Updating? && !phase.Updated?
  }

  ghost predicate AtMostFirst(s: State) {
    Inv(s) && |s.keys| <= 1 && forall p <- s.procs :: NotRotating(s.procs[p].phase)
  }

  /** A database without keys and processes that have just started. */
  ghost predicate Virgin(s: State) {
    && s.keys == map[] && s.lock.None?
    && forall p <- s.procs :: s.procs[p] == Proc(Ring(s.procs[p].ring.kek, map[], None), Idle, false)
  }

  lemma {:induction false} VirginIsSound(s: State)
    requires Virgin(s)
    ensures Inv(s) && AtMostFirst(s) && LockExact(s)
  {
    assert |s.keys| == 0;
    forall p | p in s.procs ensures ProcSound(s.procs[p], s.keys) {
      EmptyRing(s.procs[p].ring.kek, s.keys);
    }
  }

  lemma {:induction false} LoadActs(keys: Keys, lock: Option<Process>, p: Process, proc: Proc, e: Event)
    requires NotRotating(proc.phase) && !e.StartRotate?
    ensures var (keys', _, proc') := Act(keys, lock, p, proc, e);
      && NotRotating(proc'.phase)
      && (keys' == keys || (proc.phase.Minting? && 1 !in keys && 1 in keys'))
      && (proc'.phase.Minting? && !proc.phase.Minting? ==> e.LookAgain? && !SecretsFound(e.columns))
      && (proc'.phase.Rereading? ==> proc.phase.Rereading? || keys' != map[])
      && (keys == map[] && !proc.phase.Rereading? ==> proc'.loaded ==> proc.loaded)
  {
    hide WithRows, Readable, Below, FirstBad, SecretsFound, Wrap;
  }

  lemma {:induction false} LoadsMintAtMostOne(s: State, events: Events)
    requires AtMostFirst(s) && OnlyLoads(events)
    ensures AtMostFirst(Run(s, events))
    decreases |events|
  {
    if events == [] {
    } else {
      hide Act, ProcSound, Extends;
      var (p, e) := events[|events| - 1];
      var before := Run(s, events[..|events| - 1]);
      assert OnlyLoads(events[..|events| - 1]);
      LoadsMintAtMostOne(s, events[..|events| - 1]);
      StepKeepsInv(before, p, e);
      if p in before.procs {
        assert !events[|events| - 1].1.StartRotate?;
        LoadActs(before.keys, before.lock, p, before.procs[p], e);
        ActKeeps(before.keys, before.lock, p, before.procs[p], e);
      }
    }
  }

  /** Any number of processes loading at once from an empty table: at most the one version 1 is ever minted, it is
      never altered afterwards, and every load that returns holds that same key as active. */
  lemma {:induction false} OneFirstKey(s: State, events: Events, later: Events, p: Process, q: Process)
    requires AtMostFirst(s) && OnlyLoads(events) && OnlyLoads(later)
    requires p in s.procs && q in s.procs
    ensures var mid, end := Run(s, events), Run(Run(s, events), later);
      && (mid.keys == map[] || mid.keys.Keys == {1})
      && (mid.keys != map[] ==> end.keys.Keys == {1} && end.keys[1].blob == mid.keys[1].blob && end.keys[1].state.Active?)
      && p in mid.procs && q in end.procs
      && (mid.procs[p].loaded && end.procs[q].loaded ==>
            && mid.procs[p].ring.active == Some(1) && end.procs[q].ring.active == Some(1)
            && mid.procs[p].ring.deks == end.procs[q].ring.deks
            && mid.procs[p].ring.deks.Keys == {1})
  {
    hide Run, Act, PhaseSound;
    LoadsMintAtMostOne(s, events);
    RunKeepsInv(s, events);
    var mid := Run(s, events);
    LoadsMintAtMostOne(mid, later);
    RunKeepsInv(mid, later);
    var end := Run(mid, later);
    AtMostOneKey(mid.keys);
    AtMostOneKey(end.keys);
    if mid.procs[p].loaded && end.procs[q].loaded {
      LoadedHoldsFirst(mid.procs[p], mid.keys);
      LoadedHoldsFirst(end.procs[q], end.keys);
      assert mid.procs[p].ring.deks == end.procs[q].ring.deks;
    }
  }

  lemma {:induction false} AtMostOneKey(keys: Keys)
    requires KeysSound(keys) && |keys| <= 1
    ensures keys == map[] || (keys.Keys == {1} && keys[1].state.Active?)
  {
    if |keys| == 0 {
      assert keys == map[];
    } else {
      assert keys.Keys == {1};
    }
  }

  lemma {:induction false} LoadedHoldsFirst(proc: Proc, keys: Keys)
    requires ProcSound(proc, keys) && proc.loaded
    requires keys == map[] || keys.Keys == {1}
    ensures keys.Keys == {1} && proc.ring.active == Some(1) && proc.ring.deks.Keys == {1}
    ensures proc.ring.deks[1] == keys[1].blob.plaintext
  {
    var a := proc.ring.active.value;
    assert a in proc.ring.deks && a in keys;
    assert keys.Keys == {1};
    assert proc.ring.deks.Keys == {1};
  }

  /** With no keys and any checked column holding a value, no interleaving of loads ever inserts a key, and no load
      returns. */
  lemma {:induction false} NeverMintsOverSecrets(s: State, events: Events)
    requires s.keys == map[]
    requires forall p <- s.procs :: s.procs[p].phase.Idle? && !s.procs[p].loaded
    requires OnlyLoads(events)
    requires forall e <- events :: e.1.LookAgain? ==>
      exists h <- {("nodes", "admin_ciphertext"), ("nodes", "storage_secret_ciphertext"), ("project_credentials", "ciphertext"),
                    ("api_keys", "ciphertext"), ("project_email_settings", "malumail_ciphertext"),
                    ("project_email_settings", "hook_ciphertext"), ("user_mfa_factors", "ciphertext")} ::
        h in e.1.columns && e.1.columns[h] > 0
    ensures var end := Run(s, events);
      && end.keys == map[]
      && forall p <- end.procs ::
           && NotRotating(end.procs[p].phase) && !end.procs[p].phase.Minting? && !end.procs[p].phase.Rereading?
           && !end.procs[p].loaded
    decreases |events|
  {
    if events == [] {
    } else {
      hide Act, SecretsFound;
      var (p, e) := events[|events| - 1];
      var before := Run(s, events[..|events| - 1]);
      NeverMintsOverSecrets(s, events[..|events| - 1]);
      if p in before.procs {
        assert events[|events| - 1] in events;
        if e.LookAgain? {
          SecretsAreThese(e.columns);
        }
        LoadActs(before.keys, before.lock, p, before.procs[p], e);
      }
    }
  }

  /** On a database without keys, an undisturbed load mints exactly when no checked column holds a value. */
  lemma {:induction false} FirstLoadMintsIff(s: State, p: Process, columns: Columns, dek: Bytes, nonce: Bytes)
    requires p in s.procs && s.procs[p].phase.Idle? && s.keys == map[] && s.lock.None?
    ensures Run(s, [(p, StartLoad), (p, Acquire), (p, LookAgain(columns)), (p, Mint(dek, nonce))]).keys ==
      if exists h <- {("nodes", "admin_ciphertext"), ("nodes", "storage_secret_ciphertext"), ("project_credentials", "ciphertext"),
                    ("api_keys", "ciphertext"), ("project_email_settings", "malumail_ciphertext"),
                    ("project_email_settings", "hook_ciphertext"), ("user_mfa_factors", "ciphertext")} ::
           h in columns && columns[h] > 0
      then map[] else map[1 := Wrap(s.procs[p].ring.kek, nonce, dek)]
  {
    hide Run, SecretsFound, Encrypt;
    SecretsAreThese(columns);
    RunFour(s, (p, StartLoad), (p, Acquire), (p, LookAgain(columns)), (p, Mint(dek, nonce)));
    var proc := s.procs[p];
    var s1 := s.(procs := s.procs[p := proc.(phase := Waiting)]);
    var s2 := State(s.keys, Some(p), s.procs[p := proc.(phase := Locked)]);
    assert s1 == Step(s, p, StartLoad);
    assert s2 == Step(s1, p, Acquire);
  }

  /** The statements of a load that nobody disturbs add up to `KeyRing.Load`: over secrets it refuses and gives the lock back; else
      its own key is the first, and it returns with the ring that has read it. */
  lemma {:induction false} LoadAlone(s: State, p: Process, columns: Columns, dek: Bytes, nonce: Bytes)
    requires Inv(s) && p in s.procs && s.procs[p].phase.Idle? && s.keys == map[] && s.lock.None?
    ensures var proc := s.procs[p];
      var looked := Step(Step(Step(s, p, StartLoad), p, Acquire), p, LookAgain(columns));
      var keys := map[1 := Wrap(proc.ring.kek, nonce, dek)];
      && Readable(proc.ring.kek, keys)
      && if exists h <- {("nodes", "admin_ciphertext"), ("nodes", "storage_secret_ciphertext"), ("project_credentials", "ciphertext"),
                         ("api_keys", "ciphertext"), ("project_email_settings", "malumail_ciphertext"),
                         ("project_email_settings", "hook_ciphertext"), ("user_mfa_factors", "ciphertext")} ::
              h in columns && columns[h] > 0
         then looked == s.(procs := s.procs[p := proc.(loaded := false)])
         else Step(Step(looked, p, Mint(dek, nonce)), p, Reread)
              == State(keys, None, s.procs[p := Proc(WithRows(proc.ring, keys), Idle, true)])
  {
    hide SecretsFound, WithRows, Absorb, Wrap, Readable, KeysSound, ProcSound;
    SecretsAreThese(columns);
    var proc := s.procs[p];
    var keys := map[1 := Wrap(proc.ring.kek, nonce, dek)];
    var s1 := s.(procs := s.procs[p := proc.(phase := Waiting)]);
    var s2 := State(s.keys, Some(p), s.procs[p := proc.(phase := Locked)]);
    assert s1 == Step(s, p, StartLoad);
    assert s2 == Step(s1, p, Acquire);
    FirstKeyIsRead(proc, nonce, dek);
    if SecretsFound(columns) {
      assert Step(s2, p, LookAgain(columns)) == s.(procs := s.procs[p := proc.(phase := Idle, loaded := false)]);
    } else {
      var s3 := State(s.keys, Some(p), s.procs[p := proc.(phase := Minting)]);
      var s4 := State(keys, None, s.procs[p := proc.(phase := Rereading)]);
      assert s3 == Step(s2, p, LookAgain(columns));
      assert s4 == Step(s3, p, Mint(dek, nonce));
      assert Step(s4, p, Reread) == State(keys, None, s.procs[p := Absorb(proc.(phase := Rereading), keys)]);
    }
  }

  lemma {:induction false} FirstKeyIsRead(proc: Proc, nonce: Bytes, dek: Bytes)
    ensures var keys := map[1 := Wrap(proc.ring.kek, nonce, dek)];
      && Readable(proc.ring.kek, keys)
      && Absorb(proc.(phase := Rereading), keys) == Proc(WithRows(proc.ring, keys), Idle, true)
  {
    var keys := map[1 := Wrap(proc.ring.kek, nonce, dek)];
    assert ActiveOf(keys) == {1};
  }

  /** A load that comes second finds the key that was minted while it waited: it looks again under the lock, gives it back, and reads
      what is there, whatever the columns hold. */
  lemma {:induction false} SecondLoadTakesTheirs(s: State, p: Process, columns: Columns)
    requires Inv(s) && p in s.procs && s.procs[p].phase.Waiting? && s.keys != map[] && s.lock.None?
    ensures var proc, end := s.procs[p], Step(Step(Step(s, p, Acquire), p, LookAgain(columns)), p, Reread);
      && end.keys == s.keys && end.lock == None && end.procs == s.procs[p := end.procs[p]] && end.procs[p].phase == Idle
      && (end.procs[p].loaded <==> Readable(proc.ring.kek, s.keys))
      && (Readable(proc.ring.kek, s.keys) ==> end.procs[p].ring == WithRows(proc.ring, s.keys))
  {
    hide SecretsFound, WithRows, Readable, Below, FirstBad;
    var proc := s.procs[p];
    var s1 := s.(lock := Some(p), procs := s.procs[p := proc.(phase := Locked)]);
    var s2 := s.(procs := s.procs[p := proc.(phase := Rereading)]);
    assert s1 == Step(s, p, Acquire);
    assert s2 == Step(s1, p, LookAgain(columns));
    assert Step(s2, p, Reread) == s.(procs := s.procs[p := Absorb(proc.(phase := Rereading), s.keys)]);
    LoadedActive(proc.(phase := Rereading), s.keys);
    AbsorbSound(proc.(phase := Rereading), s.keys);
  }

  /** A process that dies forgets its ring and leaves no lock behind; what is committed stays. */
  lemma {:induction false} CrashForgets(s: State, p: Process)
    requires p in s.procs
    ensures Step(s, p, Crash) ==
      State(s.keys, if s.lock == Some(p) then None else s.lock, s.procs[p := Proc(Ring(s.procs[p].ring.kek, map[], None), Idle, false)])
  {
  }

  /** The checked columns are not every column sealed under this table's keys: on a database that holds only customers'
      provider keys, however many, a fresh first key is minted. */
  lemma {:induction false} ProviderKeysDoNotStopMinting(s: State, p: Process, n: nat, dek: Bytes, nonce: Bytes)
    requires p in s.procs && s.procs[p].phase.Idle? && s.keys == map[] && s.lock.None?
    ensures var columns := map[("project_provider_keys", "ciphertext") := n];
      1 in Run(s, [(p, StartLoad), (p, Acquire), (p, LookAgain(columns)), (p, Mint(dek, nonce))]).keys
  {
    hide Run;
    var columns := map[("project_provider_keys", "ciphertext") := n];
    assert |"nodes"| == 5 && |"project_credentials"| == 19 && |"api_keys"| == 8 && |"project_email_settings"| == 22
           && |"user_mfa_factors"| == 16 && |"project_provider_keys"| == 21;
    FirstLoadMintsIff(s, p, columns, dek, nonce);
  }

  // ------------------------------------------------------------------- rotations

  /** A rotation whose version somebody else has committed changes nothing: not the keys, not its own ring. */
  lemma {:induction false} LosingRotationChangesNothing(s: State, events: Events, p: Process, nonce: Bytes)
    requires Inv(s) && p in s.procs
    requires var end := Run(s, events); p in end.procs && end.procs[p].phase.Updated? && end.procs[p].phase.next in s.keys
    ensures var end := Run(s, events); var after := Step(end, p, CommitRotate(nonce));
      after == end.(procs := end.procs[p := end.procs[p].(phase := Idle)])
  {
    hide Run, Inv;
    RunKeepsInv(s, events);
  }

  /** A rotation that wins: its own version is stored, active and unwrapping to its key; what was active retires and nothing
      else about any stored row changes; its ring goes on with the new key and keeps the old ones. */
  lemma {:induction false} WinningRotation(s: State, p: Process, nonce: Bytes, v: Version)
    requires Inv(s) && p in s.procs && s.procs[p].phase.Updated? && s.procs[p].phase.next !in s.keys
    ensures var proc, after := s.procs[p], Step(s, p, CommitRotate(nonce));
      var next, ring := proc.phase.next, after.procs[p].ring;
      && (v in after.keys <==> v in s.keys || v == next)
      && (v in s.keys ==>
            && after.keys[v].nonce == s.keys[v].nonce && after.keys[v].blob == s.keys[v].blob
            && after.keys[v].state == if s.keys[v].state == Active then Retiring else s.keys[v].state)
      && after.keys[next].state == Active
      && Decrypt(ring.kek, after.keys[next].nonce, after.keys[next].blob, "maludb-dek-wrap") == Some(proc.phase.dek)
      && ring.active == Some(next) && next in ring.deks && ring.deks[next] == proc.phase.dek
      && (v != next ==> (v in ring.deks <==> v in proc.ring.deks) && (v in ring.deks ==> ring.deks[v] == proc.ring.deks[v]))
  {
    CommitKeeps(s.keys, s.procs[p], s.procs[p].phase.next, s.procs[p].phase.dek, nonce);
  }

  /** Undisturbed, the four events of a rotation do what `KeyRing.Rotate` does. */
  lemma {:induction false} RotateAlone(s: State, p: Process, dek: Bytes, nonce: Bytes)
    requires p in s.procs && s.procs[p].phase.Idle?
    ensures var ring := s.procs[p].ring; var next := Top(ring.deks.Keys) + 1;
      Run(s, [(p, StartRotate(dek)), (p, SnapshotActive), (p, RetireActive), (p, CommitRotate(nonce))]) ==
        if next in s.keys then s
        else State(Retire(s.keys, ActiveOf(s.keys))[next := Wrap(ring.kek, nonce, dek)], s.lock,
                   s.procs[p := s.procs[p].(ring := Ring(ring.kek, ring.deks[next := dek], Some(next)))])
  {
    hide Run, Retire, Wrap, Top, ActiveOf, Step;
    RunFour(s, (p, StartRotate(dek)), (p, SnapshotActive), (p, RetireActive), (p, CommitRotate(nonce)));
    RotateUpdates(s, p, dek);
    var proc := s.procs[p];
    var next := Top(proc.ring.deks.Keys) + 1;
    var updated := s.(procs := s.procs[p := proc.(phase := Updated(next, dek, ActiveOf(s.keys)))]);
    RotateCommits(updated, p, nonce);
    assert updated.procs[p := proc] == s.procs[p := proc] == s.procs;
    var done := proc.(ring := Ring(proc.ring.kek, proc.ring.deks[next := dek], Some(next)));
    assert updated.procs[p := done] == s.procs[p := done];
  }

  lemma {:induction false} RotateUpdates(s: State, p: Process, dek: Bytes)
    requires p in s.procs && s.procs[p].phase.Idle?
    ensures Step(Step(Step(s, p, StartRotate(dek)), p, SnapshotActive), p, RetireActive) ==
              s.(procs := s.procs[p := s.procs[p].(
                   phase := Updated(Top(s.procs[p].ring.deks.Keys) + 1, dek, ActiveOf(s.keys)))])
  {
    hide Top, ActiveOf, SecretsFound, Absorb, Release, Retire, Wrap;
    var proc, active := s.procs[p], ActiveOf(s.keys);
    var next := Top(proc.ring.deks.Keys) + 1;
    var s1 := s.(procs := s.procs[p := proc.(phase := Rotating(next, dek))]);
    var s2 := s.(procs := s.procs[p := proc.(phase := Updating(next, dek, active))]);
    assert s1 == Step(s, p, StartRotate(dek));
    assert s2 == Step(s1, p, SnapshotActive);
    assert active * active == active;
  }

  lemma {:induction false} RotateCommits(s: State, p: Process, nonce: Bytes)
    requires p in s.procs && s.procs[p].phase.Updated?
    ensures var proc := s.procs[p]; var Updated(next, dek, retired) := proc.phase;
      Step(s, p, CommitRotate(nonce)) ==
        if next in s.keys then s.(procs := s.procs[p := proc.(phase := Idle)])
        else State(Retire(s.keys, retired)[next := Wrap(proc.ring.kek, nonce, dek)], s.lock,
                   s.procs[p := Proc(Ring(proc.ring.kek, proc.ring.deks[next := dek], Some(next)), Idle, proc.loaded)])
  {
    hide SecretsFound, Absorb, Release, Retire, Wrap;
  }

  lemma {:induction false} RunFour(s: State, a: (Process, Event), b: (Process, Event), c: (Process, Event), d: (Process, Event))
    ensures Run(s, [a, b, c, d]) == Step(Step(Step(Step(s, a.0, a.1), b.0, b.1), c.0, c.1), d.0, d.1)
  {
    hide Step;
    var abc, ab, a0 := [a, b, c], [a, b], [a];
    assert a0[..0] == [] && ab[..1] == a0 && abc[..2] == ab && [a, b, c, d][..3] == abc;
    assert Run(s, []) == s;
    assert Run(s, a0) == Step(s, a.0, a.1);
    assert Run(s, ab) == Step(Run(s, a0), b.0, b.1);
    assert Run(s, abc) == Step(Run(s, ab), c.0, c.1);
  }

  // ------------------------------------------------------------------- sealed values

  /** A value sealed by any process at any moment opens, at every later moment and on every ring that holds its version,
      to its plaintext exactly when the associated data is the same. */
  lemma {:induction false} SealedOpensLater(
      s: State, events: Events, p: Process, q: Process, plaintext: Bytes, nonce: Bytes, aad: Bytes, aad': Bytes)
    requires Inv(s) && p in s.procs && q in s.procs && s.procs[p].ring.active.Some?
    ensures s.procs[p].ring.active.value in s.procs[p].ring.deks
    ensures SealBy(s.procs[p].ring, plaintext, aad, nonce).Ok?
    ensures var sealed, end := SealBy(s.procs[p].ring, plaintext, aad, nonce).value, Run(s, events);
      && q in end.procs
      && (sealed.keyVersion !in end.procs[q].ring.deks ==>
            OpenBy(end.procs[q].ring, sealed, aad') == Raised(NoKeyForVersion))
      && (sealed.keyVersion in end.procs[q].ring.deks ==>
            OpenBy(end.procs[q].ring, sealed, aad') == if aad == aad' then Ok(plaintext) else Raised(AuthenticationFailed))
  {
    hide Run, Act, KeysSound, PhaseSound;
    RunKeepsInv(s, events);
    var v, ring, end := s.procs[p].ring.active.value, s.procs[p].ring, Run(s, events);
    if v in end.procs[q].ring.deks {
      SameDek(ring, s.keys, end.procs[q].ring, end.keys, v);
    }
  }

  lemma {:induction false} SameDek(a: Ring, keys: Keys, b: Ring, keys': Keys, v: Version)
    requires RingSound(a, keys) && RingSound(b, keys') && Extends(keys, keys')
    requires v in a.deks && v in b.deks
    ensures a.deks[v] == b.deks[v]
  {
  }

  /** A load that returns holds every version committed when it read the table, so it opens whatever had been sealed. */
  lemma {:induction false} LoadHoldsEveryKey(s: State, p: Process, e: Event)
    requires Inv(s) && p in s.procs
    requires (e == StartLoad && s.procs[p].phase.Idle? && s.keys != map[]) || (e == Reread && s.procs[p].phase.Rereading?)
    ensures var proc := Step(s, p, e).procs[p];
      && (proc.loaded ==> s.keys.Keys <= proc.ring.deks.Keys && proc.ring.active.Some?)
      && (proc.loaded ==> |s.keys| > 0 && proc.ring.active == Some(|s.keys|))
      && (Readable(proc.ring.kek, s.keys) && s.keys != map[] <==> proc.loaded)
  {
    hide WithRows, Below, FirstBad, Unwrap;
    AbsorbSound(s.procs[p], s.keys);
    LoadedActive(s.procs[p], s.keys);
  }

  lemma {:induction false} LoadedActive(proc: Proc, keys: Keys)
    requires ProcSound(proc, keys) && KeysSound(keys)
    ensures var r := Absorb(proc, keys);
      && (r.loaded <==> Readable(proc.ring.kek, keys) && keys != map[])
      && (r.loaded ==> r.ring.active == Some(|keys|))
  {
    hide Unwrap;
    if keys != map[] {
      assert |keys| in keys;
      assert ActiveOf(keys) == {|keys|};
    } else {
      assert ActiveOf(keys) == {};
    }
  }
}
