/** Project API keys (`api_keys.py`): authentication, revocation, and the rate-limited use stamp. */
module ApiKeys {
  import opened Results
  import opened Spacing

  type KeyId = int
  type ProjectId = string

  const KEY_TYPES := {"publishable", "secret"}
  const SERVING := {"PROVISIONED", "ACTIVE"}
  const LAST_USED_RESOLUTION := 5 * MINUTE

  datatype KeyRow = KeyRow(projectId: ProjectId, keyType: string, identifier: string, verifier: string,
                           revokedAt: Option<int>, lastUsedAt: Option<int>)
  datatype KeyIdentity = KeyIdentity(keyId: KeyId, projectId: ProjectId, keyType: string)

  /** `hashing.py` with the pepper applied: splitting a token, and checking it against a stored verifier. */
  datatype Hashing = Hashing(split: string -> Option<(string, string)>, verify: (string, string) -> bool)

  datatype Tables = Tables(keys: map<KeyId, KeyRow>, projects: map<ProjectId, string>) {
    /** The unique index on `key_identifier`, and the foreign key to `projects`. */
    ghost predicate Valid() {
      && (forall a <- keys, b <- keys :: keys[a].identifier == keys[b].identifier ==> a == b)
      && forall a <- keys :: keys[a].projectId in projects
    }
  }

  /** The key a presented token authenticates as, for one project. */
  ghost predicate Accepts(h: Hashing, t: Tables, presented: string, projectId: ProjectId, id: KeyId) {
    var split := h.split(presented);
    && split.Some? && (split.value.0 == "publishable" || split.value.0 == "secret")
    && id in t.keys && t.keys[id].identifier == split.value.1
    && h.verify(t.keys[id].verifier, presented)
    && t.keys[id].revokedAt.None?
    && t.keys[id].projectId == projectId
    && projectId in t.projects && (t.projects[projectId] == "PROVISIONED" || t.projects[projectId] == "ACTIVE")
  }

  predicate Stale(lastUsedAt: Option<int>, now: int) {
    lastUsedAt.None? || lastUsedAt.value < now - LAST_USED_RESOLUTION
  }

  function Touched(t: Tables, id: KeyId, now: int): Tables {
    if id in t.keys && Stale(t.keys[id].lastUsedAt, now)
    then t.(keys := t.keys[id := t.keys[id].(lastUsedAt := Some(now))])
    else t
  }

  function Revoked(t: Tables, id: KeyId, projectId: ProjectId, now: int): Tables {
    if id in t.keys && t.keys[id].projectId == projectId && t.keys[id].revokedAt.None?
    then t.(keys := t.keys[id := t.keys[id].(revokedAt := Some(now))])
    else t
  }

  class Connection {
    var tables: Tables
    const hashing: Hashing

    constructor (tables: Tables, hashing: Hashing)
      ensures this.tables == tables && this.hashing == hashing
    {
      this.tables := tables;
      this.hashing := hashing;
    }

    method Authenticate(presented: string, projectId: ProjectId, now: int) returns (who: Option<KeyIdentity>)
      requires tables.Valid()
      modifies this
      ensures who.None? ==> tables == old(tables)
      ensures who.None? ==> forall id :: !Accepts(hashing, old(tables), presented, projectId, id)
      ensures who.Some? ==>
                && Accepts(hashing, old(tables), presented, projectId, who.value.keyId)
                && who.value.projectId == projectId
                && who.value.keyType == old(tables).keys[who.value.keyId].keyType
                && tables == Touched(old(tables), who.value.keyId, now)
                && tables == old(tables).(keys := old(tables).keys[who.value.keyId := old(tables).keys[who.value.keyId].(
                     lastUsedAt := var last := old(tables).keys[who.value.keyId].lastUsedAt;
                       if last == None || last.value + 5 * 60 * 1_000_000 < now then Some(now) else last)])
    {
      var split := hashing.split(presented);
      if split.None? {
        return None;
      }
      var (kind, identifier) := split.value;
      if kind !in KEY_TYPES {
        return None;
      }
      var found: Option<KeyId> := None;
      if id :| id in tables.keys && tables.keys[id].identifier == identifier {
        found := Some(id);
      }
      var stored := if found.Some? then tables.keys[found.value].verifier else "";
      var matches := hashing.verify(stored, presented);
      if found.None? || !matches {
        return None;
      }
      var id := found.value;
      var row := tables.keys[id];
      if row.revokedAt.Some? || row.projectId != projectId || tables.projects[row.projectId] !in SERVING {
        return None;
      }
      Touch(id, now);
      who := Some(KeyIdentity(id, row.projectId, row.keyType));
    }

    method Touch(id: KeyId, now: int)
      modifies this
      ensures tables == Touched(old(tables), id, now)
    {
      if id in tables.keys && Stale(tables.keys[id].lastUsedAt, now) {
        tables := tables.(keys := tables.keys[id := tables.keys[id].(lastUsedAt := Some(now))]);
      }
    }

    method Revoke(id: KeyId, projectId: ProjectId, now: int) returns (revoked: bool)
      modifies this
      ensures tables == Revoked(old(tables), id, projectId, now)
      ensures revoked <==> id in old(tables).keys && old(tables).keys[id].projectId == projectId && old(tables).keys[id].revokedAt == None
      ensures tables == if revoked
                        then old(tables).(keys := old(tables).keys[id := old(tables).keys[id].(revokedAt := Some(now))])
                        else old(tables)
    {
      if id !in tables.keys || tables.keys[id].projectId != projectId || tables.keys[id].revokedAt.Some? {
        return false;
      }
      tables := tables.(keys := tables.keys[id := tables.keys[id].(revokedAt := Some(now))]);
      revoked := true;
    }
  }

  // -------------------------------------------------------------- whole runs

  /** One committed call: an authentication that accepted a key or none, a revocation, a new key, or a
      project's status. */
  datatype Step =
    | Use(presented: string, projectId: ProjectId, now: int, accepted: Option<KeyId>)
    | Revoke(id: KeyId, projectId: ProjectId, now: int)
    | Create(id: KeyId, row: KeyRow, now: int)
    | SetStatus(projectId: ProjectId, status: string, now: int)

  ghost predicate Possible(h: Hashing, t: Tables, step: Step) {
    match step
    case Use(presented, projectId, now, accepted) =>
      (forall id :: Accepts(h, t, presented, projectId, id) ==> accepted == Some(id))
      && (accepted.Some? ==> Accepts(h, t, presented, projectId, accepted.value))
    case Create(id, row, now) =>
      id !in t.keys && row.revokedAt.None? && row.lastUsedAt.None? && row.projectId in t.projects
      && forall other <- t.keys :: t.keys[other].identifier != row.identifier
    case _ => true
  }

  function Do(t: Tables, step: Step): Tables {
    match step
    case Use(_, _, now, accepted) => if accepted.Some? then Touched(t, accepted.value, now) else t
    case Revoke(id, projectId, now) => Revoked(t, id, projectId, now)
    case Create(id, row, now) => t.(keys := t.keys[id := row])
    case SetStatus(projectId, status, now) => t.(projects := t.projects[projectId := status])
  }

  /** A run from `t` whose clock never goes back. */
  ghost predicate Run(h: Hashing, t: Tables, clock: int, steps: seq<Step>)
    decreases |steps|
  {
    steps != [] ==>
      && clock <= steps[0].now && Possible(h, t, steps[0])
      && Run(h, Do(t, steps[0]), steps[0].now, steps[1..])
  }

  /** When a step writes the use stamp of `id`. */
  predicate Writes(t: Tables, step: Step, id: KeyId) {
    step.Use? && step.accepted == Some(id) && id in t.keys && Stale(t.keys[id].lastUsedAt, step.now)
  }

  function Stamps(t: Tables, steps: seq<Step>, id: KeyId): seq<int>
    decreases |steps|
  {
    if steps == [] then []
    else (if Writes(t, steps[0], id) then [steps[0].now] else []) + Stamps(Do(t, steps[0]), steps[1..], id)
  }

  function LastUsed(t: Tables, id: KeyId): Option<int> {
    if id in t.keys then t.keys[id].lastUsedAt else None
  }

  /** Stamps of one key are more than five minutes apart, and the first that far from the stamp it found. */
  lemma {:induction false} StampsAreSpaced(h: Hashing, t: Tables, clock: int, steps: seq<Step>, id: KeyId)
    requires Run(h, t, clock, steps)
    ensures Spaced(Stamps(t, steps, id), 5 * 60 * 1_000_000 + 1)
    ensures Stamps(t, steps, id) != [] && LastUsed(t, id).Some? ==>
              LastUsed(t, id).value + 5 * 60 * 1_000_000 < Stamps(t, steps, id)[0]
    decreases |steps|
  {
    if steps != [] {
      StampsAreSpaced(h, Do(t, steps[0]), steps[0].now, steps[1..], id);
    }
  }

  function RunAll(t: Tables, steps: seq<Step>): Tables
    decreases |steps|
  {
    if steps == [] then t else RunAll(Do(t, steps[0]), steps[1..])
  }

  /** These are the writes: after any run a key's stamp is the last of them, or as it was if there were none. */
  lemma {:induction false} StampIsTheLastWrite(h: Hashing, t: Tables, clock: int, steps: seq<Step>, id: KeyId)
    requires Run(h, t, clock, steps) && id in t.keys
    ensures var stamps := Stamps(t, steps, id);
      id in RunAll(t, steps).keys
      && RunAll(t, steps).keys[id].lastUsedAt == if stamps == [] then t.keys[id].lastUsedAt else Some(stamps[|stamps| - 1])
    decreases |steps|
  {
    if steps != [] {
      StampIsTheLastWrite(h, Do(t, steps[0]), steps[0].now, steps[1..], id);
    }
  }

  /** So a run writes the row of one key at most once more than five minutes fit into any interval. */
  lemma {:induction false} FewWrites(h: Hashing, t: Tables, clock: int, steps: seq<Step>, id: KeyId, from: int, to: int)
    requires Run(h, t, clock, steps) && from <= to
    ensures (CountIn(Stamps(t, steps, id), from, to) - 1) * (5 * 60 * 1_000_000) <= to - from
  {
    StampsAreSpaced(h, t, clock, steps, id);
    var stamps := Stamps(t, steps, id);
    assert Spaced(stamps, LAST_USED_RESOLUTION) by {
      forall i | 0 <= i < |stamps| - 1 ensures stamps[i] + LAST_USED_RESOLUTION <= stamps[i + 1] {
        assert stamps[i] + (LAST_USED_RESOLUTION + 1) <= stamps[i + 1];
      }
    }
    CountBound(stamps, LAST_USED_RESOLUTION, from, to);
  }

  /** A stamp is never in the future, and right after a use it is at most five minutes old. */
  ghost predicate StampsPast(t: Tables, clock: int) {
    forall id <- t.keys :: t.keys[id].lastUsedAt.Some? ==> t.keys[id].lastUsedAt.value <= clock
  }

  lemma {:induction false} UseLeavesFreshStamp(h: Hashing, t: Tables, clock: int, step: Step)
    requires t.Valid() && StampsPast(t, clock) && clock <= step.now && Possible(h, t, step)
    ensures StampsPast(Do(t, step), step.now) && Do(t, step).Valid()
    ensures step.Use? && step.accepted.Some? ==>
              var last := LastUsed(Do(t, step), step.accepted.value);
              last.Some? && step.now - 5 * 60 * 1_000_000 <= last.value <= step.now
  {
  }

  /** Once revoked, a key is not accepted again anywhere in the run, whatever is presented. */
  lemma {:induction false} RevokedIsNeverAccepted(h: Hashing, t: Tables, clock: int, steps: seq<Step>, id: KeyId, i: nat)
    requires Run(h, t, clock, steps)
    requires id in t.keys && t.keys[id].revokedAt.Some? && i < |steps|
    ensures steps[i].Use? ==> steps[i].accepted != Some(id)
    decreases i
  {
    if i > 0 {
      RevokedIsNeverAccepted(h, Do(t, steps[0]), steps[0].now, steps[1..], id, i - 1);
    }
  }

  /** When a key was first revoked, of the calls that name it and its own project. */
  function RevokedFrom(steps: seq<Step>, id: KeyId, projectId: ProjectId): Option<int> {
    if steps == [] then None
    else if steps[0].Revoke? && steps[0].id == id && steps[0].projectId == projectId then Some(steps[0].now)
    else RevokedFrom(steps[1..], id, projectId)
  }

  /** The last status a project was given. */
  function StatusAfter(status: string, steps: seq<Step>, projectId: ProjectId): string
    decreases |steps|
  {
    if steps == [] then status
    else StatusAfter(if steps[0].SetStatus? && steps[0].projectId == projectId then steps[0].status else status, steps[1..], projectId)
  }

  /** What a run makes of a key: it stays the key it is; it is revoked exactly if it was, or a revocation named it and its own
      project, and since the first that did; and its project has the last status it was given. */
  lemma {:induction false} KeyAfter(h: Hashing, t: Tables, clock: int, steps: seq<Step>, id: KeyId)
    requires t.Valid() && Run(h, t, clock, steps) && id in t.keys
    ensures var a, end := t.keys[id], RunAll(t, steps);
      && id in end.keys && a.projectId in t.projects && a.projectId in end.projects
      && var b := end.keys[id];
        && b == a.(revokedAt := b.revokedAt, lastUsedAt := b.lastUsedAt)
        && b.revokedAt == (if a.revokedAt != None then a.revokedAt else RevokedFrom(steps, id, a.projectId))
        && end.projects[a.projectId] == StatusAfter(t.projects[a.projectId], steps, a.projectId)
    decreases |steps|
  {
    if steps != [] {
      StepKeepsValid(h, t, steps[0]);
      KeyAfter(h, Do(t, steps[0]), steps[0].now, steps[1..], id);
    }
  }

  lemma {:induction false} StepKeepsValid(h: Hashing, t: Tables, step: Step)
    requires t.Valid() && Possible(h, t, step)
    ensures Do(t, step).Valid()
  {
  }

  /** A revocation that names a key and its project ends it: no later call of any run accepts it. One that names another
      project leaves it as it is. */
  lemma {:induction false} RevocationRevokes(h: Hashing, t: Tables, clock: int, steps: seq<Step>, id: KeyId, projectId: ProjectId, i: nat)
    requires t.Valid() && Run(h, t, clock, steps) && id in t.keys && steps != []
    requires steps[0].Revoke? && steps[0].id == id && steps[0].projectId == projectId && 0 < i < |steps|
    ensures t.keys[id].projectId == projectId ==> steps[i].Use? ==> steps[i].accepted != Some(id)
    ensures t.keys[id].projectId != projectId ==> RunAll(t, [steps[0]]) == t
  {
    if t.keys[id].projectId == projectId {
      RevokedIsNeverAccepted(h, Do(t, steps[0]), steps[0].now, steps[1..], id, i - 1);
      assert steps[i] == steps[1..][i - 1];
    }
    assert [steps[0]][1..] == [];
  }

  /** A key that was created is accepted, as long as it is not revoked and its project serves. */
  lemma {:induction false} CreatedIsAccepted(h: Hashing, t: Tables, clock: int, steps: seq<Step>, id: KeyId, row: KeyRow, made: int,
                                             kind: string, token: string)
    requires t.Valid() && Run(h, t, clock, [Create(id, row, made)] + steps)
    requires kind == "publishable" || kind == "secret"
    requires h.split(token) == Some((kind, row.identifier)) && h.verify(row.verifier, token)
    ensures row.projectId in t.projects
    ensures Accepts(h, RunAll(t, [Create(id, row, made)] + steps), token, row.projectId, id) <==>
      && RevokedFrom(steps, id, row.projectId) == None
      && StatusAfter(t.projects[row.projectId], steps, row.projectId) in {"PROVISIONED", "ACTIVE"}
  {
    var all := [Create(id, row, made)] + steps;
    assert all[1..] == steps && all[0] == Create(id, row, made);
    StepKeepsValid(h, t, all[0]);
    KeyAfter(h, Do(t, all[0]), made, steps, id);
  }

  /** A key is only ever accepted for the project it was created in. */
  lemma {:induction false} KeyStaysInItsProject(h: Hashing, t: Tables, clock: int, steps: seq<Step>, id: KeyId, i: nat)
    requires Run(h, t, clock, steps)
    requires id in t.keys && i < |steps| && steps[i].Use? && steps[i].accepted == Some(id)
    ensures steps[i].projectId == t.keys[id].projectId
    decreases i
  {
    if i > 0 {
      KeyStaysInItsProject(h, Do(t, steps[0]), steps[0].now, steps[1..], id, i - 1);
    }
  }
}
