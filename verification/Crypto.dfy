/** Envelope encryption (`crypto.py`). The AEAD is ideal: a ciphertext opens to its plaintext exactly under the
    key, the nonce and the associated data it was made with. */
module Crypto {
  import opened Results

  type Bytes = seq<char>
  type Version = nat

  datatype CryptoError = CannotUnwrap | NoActiveKey | SecretsWithoutKeys | NotLoaded | NoKeyForVersion | AuthenticationFailed
                       | VersionTaken

  // ------------------------------------------------------------------- AEAD

  datatype Ciphertext = Ciphertext(key: Bytes, nonce: Bytes, plaintext: Bytes, aad: Bytes)

  function Encrypt(key: Bytes, nonce: Bytes, plaintext: Bytes, aad: Bytes): Ciphertext {
    Ciphertext(key, nonce, plaintext, aad)
  }

  function Decrypt(key: Bytes, nonce: Bytes, c: Ciphertext, aad: Bytes): Option<Bytes> {
    if c.key == key && c.nonce == nonce && c.aad == aad then Some(c.plaintext) else None
  }

  /** A ciphertext opens under its own key, nonce and associated data, and under no others. */
  lemma {:induction false} OpensOnlyAsSealed(key: Bytes, nonce: Bytes, plaintext: Bytes, aad: Bytes, key': Bytes, nonce': Bytes, aad': Bytes)
    ensures Decrypt(key', nonce', Encrypt(key, nonce, plaintext, aad), aad') ==
              if (key', nonce', aad') == (key, nonce, aad) then Some(plaintext) else None
  {
  }

  /** `aad_for` */
  function AadFor(table: string, column: string, ownerId: string): Bytes {
    table + ":" + column + ":" + ownerId
  }

  lemma {:induction false} FirstColon(a: string, b: string, a': string, b': string)
    requires ':' !in a && ':' !in a'
    requires a + ":" + b == a' + ":" + b'
    ensures a == a' && b == b'
  {
    var s, s' := a + ":" + b, a' + ":" + b';
    assert s[|a|] == ':' && s'[|a'|] == ':';
    assert forall i :: 0 <= i < |a| ==> s[i] == a[i];
    assert forall i :: 0 <= i < |a'| ==> s'[i] == a'[i];
    assert |a| == |a'|;
    assert a == s[..|a|] && a' == s'[..|a'|];
    assert b == s[|a| + 1..] && b' == s'[|a'| + 1..];
  }

  /** Two rows have the same associated data only if they are the same row: the owner id may hold colons, as
      API keys' do, the table and column may not. */
  lemma {:induction false} AadIsInjective(t: string, c: string, o: string, t': string, c': string, o': string)
    requires ':' !in t && ':' !in c && ':' !in t' && ':' !in c'
    ensures AadFor(t, c, o) == AadFor(t', c', o') <==> t == t' && c == c' && o == o'
  {
    if AadFor(t, c, o) == AadFor(t', c', o') {
      assert AadFor(t, c, o) == t + ":" + (c + ":" + o);
      assert AadFor(t', c', o') == t' + ":" + (c' + ":" + o');
      FirstColon(t, c + ":" + o, t', c' + ":" + o');
      FirstColon(c, o, c', o');
    }
  }

  /** Read from its start: the table up to the first colon, the column up to the next, and the owner. */
  lemma {:induction false} AadReads(t: string, c: string, o: string)
    ensures var a := AadFor(t, c, o);
      && |a| == |t| + 1 + |c| + 1 + |o| && a[..|t|] == t && a[|t|] == ':'
      && a[|t| + 1..|t| + 1 + |c|] == c && a[|t| + 1 + |c|] == ':' && a[|t| + 1 + |c| + 1..] == o
  {
  }

  /** With a colon in the column the owner can be shifted into it. */
  lemma {:induction false} ColonInColumnCollides(t: string, c: string, x: string, o: string)
    ensures AadFor(t, c + ":" + x, o) == AadFor(t, c, x + ":" + o)
    ensures c + ":" + x != c
  {
    assert t + ":" + (c + ":" + x) + ":" + o == t + ":" + c + ":" + (x + ":" + o);
    assert |c + ":" + x| > |c|;
  }

  // ------------------------------------------------------------------- keys

  datatype KeyState = Active | Retiring | Retired

  /** A row of `encryption_keys`: the nonce and the key-encrypted data key, and its state. */
  datatype KeyRow = KeyRow(nonce: Bytes, blob: Ciphertext, state: KeyState)
  type Keys = map<Version, KeyRow>

  const WRAP_AAD: Bytes := "maludb-dek-wrap"

  function Wrap(kek: Bytes, nonce: Bytes, dek: Bytes): KeyRow {
    KeyRow(nonce, Encrypt(kek, nonce, dek, WRAP_AAD), Active)
  }

  function Unwrap(kek: Bytes, row: KeyRow): Option<Bytes> {
    Decrypt(kek, row.nonce, row.blob, WRAP_AAD)
  }

  /** A wrapped key opens under the key-encryption key it was wrapped with and no other, and only as a wrapped key: no row's
      associated data passes for it. */
  lemma {:induction false} WrappedOpensIff(kek: Bytes, kek': Bytes, nonce: Bytes, dek: Bytes, aad: Bytes)
    ensures Unwrap(kek', Wrap(kek, nonce, dek)) == if kek == kek' then Some(dek) else None
    ensures var row := Wrap(kek, nonce, dek);
      && row.state == Active && row.nonce == nonce
      && Decrypt(kek', row.nonce, row.blob, aad) == if kek == kek' && aad == "maludb-dek-wrap" then Some(dek) else None
    ensures forall t, c, o :: AadFor(t, c, o) != "maludb-dek-wrap"
  {
    forall t, c, o ensures AadFor(t, c, o) != "maludb-dek-wrap" {
      assert AadFor(t, c, o)[|t|] == ':';
    }
  }

  datatype Ring = Ring(kek: Bytes, deks: map<Version, Bytes>, active: Option<Version>)
  datatype SealedValue = SealedValue(ciphertext: Ciphertext, nonce: Bytes, keyVersion: Version)

  /** `max(versions, default=0)` */
  ghost function Top(versions: set<Version>): (n: Version)
    ensures forall v <- versions :: v <= n
    ensures versions == {} ==> n == 0
    ensures versions != {} ==> n in versions
  {
    if versions == {} then 0
    else
      var v :| v in versions;
      var rest := versions - {v};
      var n := Top(rest);
      assert forall x <- versions :: x == v || x in rest;
      if rest == {} || n < v then v else n
  }

  predicate Readable(kek: Bytes, rows: Keys) {
    forall v <- rows :: Unwrap(kek, rows[v]).Some?
  }

  function ActiveOf(rows: Keys): set<Version> {
    set v | v in rows && rows[v].state.Active?
  }

  function Below(rows: Keys, n: Version): Keys {
    map v | v in rows && v < n :: rows[v]
  }

  function Deks(kek: Bytes, rows: Keys): map<Version, Bytes>
    requires Readable(kek, rows)
  {
    map v | v in rows :: Unwrap(kek, rows[v]).value
  }

  ghost function LastActive(rows: Keys): Option<Version> {
    if ActiveOf(rows) == {} then None else Some(Top(ActiveOf(rows)))
  }

  /** A ring that has read `rows`: every key unwrapped over what it had, and the highest active version. */
  ghost function WithRows(ring: Ring, rows: Keys): Ring
    requires Readable(ring.kek, rows)
  {
    Ring(ring.kek, ring.deks + Deks(ring.kek, rows), if LastActive(rows).None? then ring.active else LastActive(rows))
  }

  /** Reading: every stored key is held as it unwraps, nothing held before is lost, and the highest active version is active. */
  lemma {:induction false} ReadHolds(ring: Ring, rows: Keys, v: Version)
    requires Readable(ring.kek, rows)
    ensures var r := WithRows(ring, rows);
      && r.kek == ring.kek
      && (v in rows ==>
            && v in r.deks
            && Decrypt(ring.kek, rows[v].nonce, rows[v].blob, "maludb-dek-wrap") == Some(r.deks[v]))
      && (v !in rows ==> (v in r.deks <==> v in ring.deks) && (v in ring.deks ==> r.deks[v] == ring.deks[v]))
      && (v in rows && rows[v].state == Active ==>
            && r.active.Some? && r.active.value in rows && rows[r.active.value].state == Active && v <= r.active.value)
      && ((forall x <- rows :: rows[x].state != Active) ==> r.active == ring.active)
  {
    if v in rows && rows[v].state == Active {
      assert v in ActiveOf(rows);
    }
    if forall x <- rows :: rows[x].state != Active {
      assert ActiveOf(rows) == {};
    }
  }

  lemma {:induction false} BelowNext(rows: Keys, v: Version)
    ensures v !in rows ==> Below(rows, v + 1) == Below(rows, v)
    ensures v in rows ==> Below(rows, v + 1) == Below(rows, v)[v := rows[v]]
  {
    if v !in rows {
      assert Below(rows, v + 1) == Below(rows, v);
    }
  }

  lemma {:induction false} LastActiveNext(rows: Keys, v: Version)
    requires v in rows
    ensures LastActive(Below(rows, v + 1)) == if rows[v].state.Active? then Some(v) else LastActive(Below(rows, v))
  {
    var small, large := ActiveOf(Below(rows, v)), ActiveOf(Below(rows, v + 1));
    assert forall x <- small :: x < v;
    assert large == if rows[v].state.Active? then small + {v} else small;
  }

  lemma {:induction false} ReadOne(ring: Ring, rows: Keys, v: Version)
    requires v in rows && Readable(ring.kek, Below(rows, v)) && Unwrap(ring.kek, rows[v]).Some?
    ensures Readable(ring.kek, Below(rows, v + 1))
    ensures var r := WithRows(ring, Below(rows, v));
      WithRows(ring, Below(rows, v + 1)) ==
        Ring(ring.kek, r.deks[v := Unwrap(ring.kek, rows[v]).value], if rows[v].state.Active? then Some(v) else r.active)
  {
    hide Below, LastActive, Unwrap;
    BelowNext(rows, v);
    LastActiveNext(rows, v);
    var kek, small, dek := ring.kek, Below(rows, v), Unwrap(ring.kek, rows[v]).value;
    assert Deks(kek, small[v := rows[v]]) == Deks(kek, small)[v := dek];
    assert ring.deks + Deks(kek, small)[v := dek] == (ring.deks + Deks(kek, small))[v := dek];
  }

  lemma {:induction false} ReadNone(ring: Ring, rows: Keys)
    ensures Below(rows, 0) == map[] && WithRows(ring, map[]) == ring
  {
    assert Below(rows, 0) == map[];
    assert ActiveOf(map[]) == {};
    assert ring.deks + Deks(ring.kek, map[]) == ring.deks;
  }

  lemma {:induction false} ReadAll(rows: Keys, v: Version)
    requires forall x <- rows :: x < v
    ensures Below(rows, v) == rows
  {
  }

  /** The columns `_refuse_if_secrets_exist` looks at. */
  const HOLDERS: seq<(string, string)> := [
    ("nodes", "admin_ciphertext"), ("nodes", "storage_secret_ciphertext"), ("project_credentials", "ciphertext"),
    ("api_keys", "ciphertext"), ("project_email_settings", "malumail_ciphertext"),
    ("project_email_settings", "hook_ciphertext"), ("user_mfa_factors", "ciphertext") ]

  /** The ciphertext columns that exist, each with its number of non-null values. */
  type Columns = map<(string, string), nat>

  predicate SecretsFound(columns: Columns) {
    exists h <- HOLDERS :: h in columns && columns[h] > 0
  }

  /** The seven columns, by name. */
  lemma {:induction false} SecretsAreThese(columns: Columns)
    ensures SecretsFound(columns) <==>
      exists h <- {("nodes", "admin_ciphertext"), ("nodes", "storage_secret_ciphertext"), ("project_credentials", "ciphertext"),
                    ("api_keys", "ciphertext"), ("project_email_settings", "malumail_ciphertext"),
                    ("project_email_settings", "hook_ciphertext"), ("user_mfa_factors", "ciphertext")} ::
        h in columns && columns[h] > 0
  {
    var named := {("nodes", "admin_ciphertext"), ("nodes", "storage_secret_ciphertext"), ("project_credentials", "ciphertext"),
                   ("api_keys", "ciphertext"), ("project_email_settings", "malumail_ciphertext"),
                   ("project_email_settings", "hook_ciphertext"), ("user_mfa_factors", "ciphertext")};
    assert forall h :: h in HOLDERS <==> h in named by {
      var all := HOLDERS;
      assert forall i :: 0 <= i < |all| ==> all[i] in named;
      assert all[0] in all && all[1] in all && all[2] in all && all[3] in all && all[4] in all && all[5] in all && all[6] in all;
    }
  }

  /** `UPDATE ... SET state = 'retiring' WHERE state = 'active'`, for the given versions. */
  function Retire(rows: Keys, versions: set<Version>): Keys {
    map v | v in rows :: if v in versions then rows[v].(state := Retiring) else rows[v]
  }

  class Database {
    var keys: Keys
    const columns: Columns

    constructor (keys: Keys, columns: Columns)
      ensures this.keys == keys && this.columns == columns
    {
      this.keys, this.columns := keys, columns;
    }
  }

  class KeyRing {
    const kek: Bytes
    var deks: map<Version, Bytes>
    var active: Option<Version>

    constructor (kek: Bytes)
      ensures AsRing() == Ring(kek, map[], None)
    {
      this.kek, deks, active := kek, map[], None;
    }

    function AsRing(): Ring
      reads this
    {
      Ring(kek, deks, active)
    }

    /** The loop at the end of `load`, over the rows in ascending order. */
    method Read(rows: Keys) returns (error: Option<CryptoError>)
      modifies this
      ensures error == Some(CannotUnwrap) <==> !Readable(kek, rows)
      ensures Readable(kek, rows) ==>
                && AsRing() == WithRows(old(AsRing()), rows)
                && error == if active.None? then Some(NoActiveKey) else None
      ensures !Readable(kek, rows) ==>
                exists bad <- rows :: Unwrap(kek, rows[bad]).None? && Readable(kek, Below(rows, bad))
                                    && AsRing() == WithRows(old(AsRing()), Below(rows, bad))
    {
      hide Unwrap, LastActive, WithRows, ActiveOf, Deks, Below;
      ghost var start := AsRing();
      var todo := rows.Keys;
      var v := 0;
      ReadNone(start, rows);
      while todo != {}
        invariant todo <= rows.Keys && forall x <- rows :: x in todo <==> x >= v
        invariant v <= Top(rows.Keys) + 1
        invariant Readable(kek, Below(rows, v))
        invariant AsRing() == WithRows(start, Below(rows, v))
        decreases Top(rows.Keys) + 1 - v
      {
        BelowNext(rows, v);
        if v in rows {
          var dek := Unwrap(kek, rows[v]);
          if dek.None? {
            return Some(CannotUnwrap);
          }
          ReadOne(start, rows, v);
          deks := deks[v := dek.value];
          if rows[v].state.Active? {
            active := Some(v);
          }
        }
        todo := todo - {v};
        v := v + 1;
      }
      assert forall x <- rows :: x < v;
      ReadAll(rows, v);
      if active.None? {
        return Some(NoActiveKey);
      }
      error := None;
    }

    /** `load`, with nothing else at the database; `dek` and `nonce` are what the generator hands out. */
    method Load(db: Database, dek: Bytes, nonce: Bytes) returns (error: Option<CryptoError>)
      modifies this, db`keys
      ensures old(db.keys) != map[] ==> db.keys == old(db.keys)
      ensures old(db.keys) == map[] ==>
                if exists h <- {("nodes", "admin_ciphertext"), ("nodes", "storage_secret_ciphertext"), ("project_credentials", "ciphertext"),
                      ("api_keys", "ciphertext"), ("project_email_settings", "malumail_ciphertext"),
                      ("project_email_settings", "hook_ciphertext"), ("user_mfa_factors", "ciphertext")} ::
                     h in db.columns && db.columns[h] > 0
                then db.keys == map[]
                else db.keys == map[1 := Wrap(kek, nonce, dek)]
      ensures db.keys == map[] <==> error == Some(SecretsWithoutKeys)
      ensures db.keys == map[] ==> AsRing() == old(AsRing())
      ensures db.keys != map[] && Readable(kek, db.keys) ==>
                && AsRing() == WithRows(old(AsRing()), db.keys)
                && error == if active.None? then Some(NoActiveKey) else None
      ensures db.keys != map[] && !Readable(kek, db.keys) ==> error == Some(CannotUnwrap)
    {
      if db.keys == map[] {
        SecretsAreThese(db.columns);
        if SecretsFound(db.columns) {
          return Some(SecretsWithoutKeys);
        }
        db.keys := map[1 := Wrap(kek, nonce, dek)];
        assert 1 in db.keys;
      }
      error := Read(db.keys);
    }

    /** `max(self._deks, default=0)` */
    method Highest() returns (n: Version)
      ensures n == Top(deks.Keys)
    {
      n := 0;
      var todo := deks.Keys;
      while todo != {}
        invariant todo <= deks.Keys
        invariant n == 0 || n in deks
        invariant forall v <- deks.Keys :: v in todo || v <= n
        invariant deks.Keys == {} ==> n == 0
        invariant n == 0 && deks.Keys != {} ==> todo != {} || 0 in deks
        decreases todo
      {
        var v :| v in todo;
        todo := todo - {v};
        if v > n {
          n := v;
        }
      }
    }

    /** `rotate`, with nothing else at the database. */
    method Rotate(db: Database, dek: Bytes, nonce: Bytes) returns (r: Result<Version, CryptoError>)
      modifies this, db`keys
      ensures var next := Top(old(deks).Keys) + 1;
        if next in old(db.keys)
        then r == Raised(VersionTaken) && db.keys == old(db.keys) && AsRing() == old(AsRing())
        else
          && r == Ok(next)
          && db.keys == Retire(old(db.keys), ActiveOf(old(db.keys)))[next := Wrap(kek, nonce, dek)]
          && AsRing() == Ring(kek, old(deks)[next := dek], Some(next))
    {
      var highest := Highest();
      var next := highest + 1;
      var saved := db.keys;
      db.keys := Retire(db.keys, ActiveOf(db.keys));
      if next in db.keys {
        db.keys := saved;
        return Raised(VersionTaken);
      }
      db.keys := db.keys[next := Wrap(kek, nonce, dek)];
      deks := deks[next := dek];
      active := Some(next);
      r := Ok(next);
    }

    method Seal(plaintext: Bytes, aad: Bytes, nonce: Bytes) returns (r: Result<SealedValue, CryptoError>)
      requires active.Some? ==> active.value in deks
      ensures r == SealBy(AsRing(), plaintext, aad, nonce)
      ensures r == Raised(NotLoaded) <==> active.None?
      ensures active.Some? ==> r.Ok? && r.value.keyVersion == active.value && r.value.nonce == nonce
      ensures active.Some? ==>
                forall other :: OpenBy(AsRing(), r.value, other) == if other == aad then Ok(plaintext) else Raised(AuthenticationFailed)
    {
      if active.None? {
        return Raised(NotLoaded);
      }
      r := Ok(SealedValue(Encrypt(deks[active.value], nonce, plaintext, aad), nonce, active.value));
    }

    method Open(sealed: SealedValue, aad: Bytes) returns (r: Result<Bytes, CryptoError>)
      ensures r == OpenBy(AsRing(), sealed, aad)
      ensures forall p :: r == Ok(p) <==>
                sealed.keyVersion in deks && sealed.ciphertext == Encrypt(deks[sealed.keyVersion], sealed.nonce, p, aad)
      ensures r == Raised(NoKeyForVersion) <==> sealed.keyVersion !in deks
      ensures r == Raised(AuthenticationFailed) <==>
                && sealed.keyVersion in deks
                && forall p :: sealed.ciphertext != Encrypt(deks[sealed.keyVersion], sealed.nonce, p, aad)
    {
      if sealed.keyVersion !in deks {
        return Raised(NoKeyForVersion);
      }
      var plaintext := Decrypt(deks[sealed.keyVersion], sealed.nonce, sealed.ciphertext, aad);
      if plaintext.None? {
        return Raised(AuthenticationFailed);
      }
      r := Ok(plaintext.value);
    }
  }

  function SealBy(ring: Ring, plaintext: Bytes, aad: Bytes, nonce: Bytes): Result<SealedValue, CryptoError>
    requires ring.active.Some? ==> ring.active.value in ring.deks
  {
    if ring.active.None? then Raised(NotLoaded)
    else Ok(SealedValue(Encrypt(ring.deks[ring.active.value], nonce, plaintext, aad), nonce, ring.active.value))
  }

  function OpenBy(ring: Ring, sealed: SealedValue, aad: Bytes): Result<Bytes, CryptoError> {
    if sealed.keyVersion !in ring.deks then Raised(NoKeyForVersion)
    else match Decrypt(ring.deks[sealed.keyVersion], sealed.nonce, sealed.ciphertext, aad)
      case None => Raised(AuthenticationFailed)
      case Some(plaintext) => Ok(plaintext)
  }
}
