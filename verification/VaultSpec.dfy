/**
 Where the secrets of hosts live, and how the vault operations move them.

 Encryption is ideal: a ciphertext remembers the key it was made with and opens under no other.
 The OS keychain, the secrets table and vault_meta are maps.
 */
module VaultSpec {
  import opened Wrappers

  type Bytes = seq<bv8>

  datatype Sealed = Sealed(key: Bytes, nonce: nat, plaintext: Bytes)

  function Decrypt(key: Bytes, c: Sealed): Option<Bytes> {
    if c.key == key then Some(c.plaintext) else None
  }

  datatype Meta = Meta(salt: nat, verify: Sealed)

  datatype Kind = Password | Passphrase

  /** The primary key of the secrets table. */
  datatype Slot = Slot(host: string, kind: Kind)

  const SUFFIX := ":passphrase"

  function KeychainKey(slot: Slot): string {
    if slot.kind == Passphrase then slot.host + SUFFIX else slot.host
  }

  /** Host ids are uuids; none ends in the suffix that marks passphrases. */
  predicate HostId(host: string) {
    |host| < |SUFFIX| || host[|host| - |SUFFIX|..] != SUFFIX
  }

  /** Two slots share a keychain entry exactly when one host id is the other with the suffix. */
  lemma KeychainKeyClash(a: Slot, b: Slot)
    requires a != b
    ensures KeychainKey(a) == KeychainKey(b) <==>
      (a.kind != b.kind && (if a.kind == Password then a.host == b.host + SUFFIX else b.host == a.host + SUFFIX))
  {
    if a.kind == b.kind == Passphrase { SuffixCancels(a.host, b.host); }
  }

  lemma SuffixCancels(a: string, b: string)
    ensures a + SUFFIX == b + SUFFIX <==> a == b
  {
    if a + SUFFIX == b + SUFFIX {
      assert a == (a + SUFFIX)[..|a|] && b == (b + SUFFIX)[..|b|];
    }
  }

  lemma SuffixIsNoHost(host: string)
    ensures !HostId(host + SUFFIX)
  {
    assert (host + SUFFIX)[|host|..] == SUFFIX;
  }

  lemma KeychainKeyInjective(a: Slot, b: Slot)
    requires HostId(a.host) && HostId(b.host) && KeychainKey(a) == KeychainKey(b)
    ensures a == b
  {
    if a != b {
      KeychainKeyClash(a, b);
      SuffixIsNoHost(a.host);
      SuffixIsNoHost(b.host);
    }
  }

  // ----- the disk -----

  /** `vaultKeyFn` says whether the secret manager has a vault key function, i.e. the vault is on. */
  datatype Disk = Disk(
    meta: Option<Meta>,
    rows: map<Slot, Sealed>,
    keychain: map<string, Bytes>,
    columns: map<string, Bytes>,     // hosts.password
    vaultKeyFn: bool)

  datatype Lock = Locked | Unlocked(key: Bytes)

  /** A keychain entry; an empty one counts as none. */
  function Entry(d: Disk, key: string): Option<Bytes> {
    if key in d.keychain && d.keychain[key] != [] then Some(d.keychain[key]) else None
  }

  /** The plain map: the secret in a slot, wherever it is. */
  function Stored(d: Disk, slot: Slot): Option<Bytes> {
    if d.vaultKeyFn && slot in d.rows then Some(d.rows[slot].plaintext)
    else Entry(d, KeychainKey(slot))
  }

  /** Same secrets in every slot of every host. */
  ghost predicate SameSecrets(d: Disk, d': Disk) {
    forall slot: Slot :: HostId(slot.host) ==> Stored(d', slot) == Stored(d, slot)
  }

  /** The secret in one slot becomes `now`; every other slot keeps its own. */
  ghost predicate Changes(d: Disk, d': Disk, slot: Slot, now: Option<Bytes>) {
    forall s: Slot :: HostId(s.host) ==> Stored(d', s) == if s == slot then now else Stored(d, s)
  }

  /** Every row opens under the key that vault_meta verifies. */
  ghost predicate RowsUnder(d: Disk, key: Bytes) {
    forall slot :: slot in d.rows ==> d.rows[slot].key == key
  }

  /** No row holds the empty secret. */
  ghost predicate NonEmpty(d: Disk) {
    forall slot :: slot in d.rows ==> d.rows[slot].plaintext != []
  }

  /** Every row belongs to a host. */
  ghost predicate RowHosts(d: Disk) {
    forall slot :: slot in d.rows ==> HostId(slot.host)
  }

  /** Off, the table is empty; on, every row opens under the verified key, which an open lock holds. */
  ghost predicate Valid(d: Disk, lock: Lock) {
    && RowHosts(d)
    && (if d.vaultKeyFn then d.meta.Some? && RowsUnder(d, d.meta.value.verify.key) else d.rows == map[])
    && (d.vaultKeyFn && lock.Unlocked? ==> lock.key == d.meta.value.verify.key)
  }

  // ----- the secret manager -----

  datatype Error = VaultLocked | WrongKey

  function Put(d: Disk, lock: Lock, slot: Slot, plaintext: Bytes, nonce: nat): Result<Disk, Error> {
    if d.vaultKeyFn then
      if lock.Locked? then Err(VaultLocked)
      else Ok(d.(rows := d.rows[slot := Sealed(lock.key, nonce, plaintext)]))
    else
      Ok(d.(keychain := d.keychain[KeychainKey(slot) := plaintext]))
  }

  function Get(d: Disk, lock: Lock, slot: Slot, dbValue: Bytes): Result<Bytes, Error> {
    if d.vaultKeyFn && lock.Locked? then Err(VaultLocked)
    else if d.vaultKeyFn && slot in d.rows then
      var p := Decrypt(lock.key, d.rows[slot]);
      if p == None then Err(WrongKey) else Ok(p.value)
    else
      var e := Entry(d, KeychainKey(slot));
      Ok(if e.Some? then e.value else dbValue)
  }

  function Delete(d: Disk, slot: Slot): Disk {
    d.(keychain := d.keychain - {KeychainKey(slot)}, rows := d.rows - {slot})
  }

  /** Get answers from the plain map, and fails only when the vault is locked. */
  lemma GetReadsMap(d: Disk, lock: Lock, slot: Slot, dbValue: Bytes)
    requires Valid(d, lock)
    ensures Get(d, lock, slot, dbValue)
      == if d.vaultKeyFn && lock.Locked? then Err(VaultLocked)
         else Ok(if Stored(d, slot).Some? then Stored(d, slot).value else dbValue)
  {}

  /** Put writes one slot of the plain map, or nothing at all; an empty keychain entry counts as none. */
  lemma PutWritesMap(d: Disk, lock: Lock, slot: Slot, plaintext: Bytes, nonce: nat)
    requires Valid(d, lock) && HostId(slot.host)
    ensures Put(d, lock, slot, plaintext, nonce).Err? <==> d.vaultKeyFn && lock.Locked?
    ensures Put(d, lock, slot, plaintext, nonce).Ok? ==>
              Valid(Put(d, lock, slot, plaintext, nonce).value, lock)
    ensures Put(d, lock, slot, plaintext, nonce).Ok? ==>
              Changes(d, Put(d, lock, slot, plaintext, nonce).value, slot,
                      if !d.vaultKeyFn && plaintext == [] then None else Some(plaintext))
  {
    if Put(d, lock, slot, plaintext, nonce).Ok? {
      var d' := Put(d, lock, slot, plaintext, nonce).value;
      forall s: Slot | HostId(s.host)
        ensures Stored(d', s) == if s != slot then Stored(d, s)
                                 else if !d.vaultKeyFn && plaintext == [] then None
                                 else Some(plaintext)
      {
        if KeychainKey(s) == KeychainKey(slot) { KeychainKeyInjective(s, slot); }
      }
    }
  }

  /** With the vault on a secret is sealed under the lock's key and the given nonce, and goes nowhere else. */
  lemma PutSeals(d: Disk, lock: Lock, slot: Slot, plaintext: Bytes, nonce: nat)
    requires Put(d, lock, slot, plaintext, nonce).Ok?
    ensures var d' := Put(d, lock, slot, plaintext, nonce).value;
      && d'.meta == d.meta && d'.columns == d.columns && d'.vaultKeyFn == d.vaultKeyFn
      && (d.vaultKeyFn ==>
            && d'.keychain == d.keychain && lock.Unlocked?
            && slot in d'.rows && Decrypt(lock.key, d'.rows[slot]) == Some(plaintext) && d'.rows[slot].nonce == nonce)
      && (!d.vaultKeyFn ==> d'.rows == d.rows)
  {}

  /** A deleted secret is gone from any disk, valid or not, whether the vault is switched on or off later. */
  lemma DeleteForgets(d: Disk, slot: Slot, other: Slot, on: bool, key: Bytes, dbValue: Bytes)
    requires HostId(slot.host) && HostId(other.host)
    ensures Get(Delete(d, slot).(vaultKeyFn := on), Unlocked(key), other, dbValue)
         == if other == slot then Ok(dbValue) else Get(d.(vaultKeyFn := on), Unlocked(key), other, dbValue)
  {
    if KeychainKey(slot) == KeychainKey(other) { KeychainKeyInjective(slot, other); }
  }

  /** Delete clears one slot, in both places. */
  lemma DeleteClearsMap(d: Disk, lock: Lock, slot: Slot)
    requires Valid(d, lock) && HostId(slot.host)
    ensures Valid(Delete(d, slot), lock)
    ensures Changes(d, Delete(d, slot), slot, None)
  {
    forall s: Slot | HostId(s.host)
      ensures Stored(Delete(d, slot), s) == if s == slot then None else Stored(d, s)
    {
      if KeychainKey(s) == KeychainKey(slot) { KeychainKeyInjective(s, slot); }
    }
  }

  // ----- setup -----

  /** Move one slot from the keychain to the table, if the keychain has it. */
  function Migrate(d: Disk, key: Bytes, slot: Slot, nonce: nat): Disk {
    var e := Entry(d, KeychainKey(slot));
    if e == None then d
    else
      d.(rows := d.rows[slot := Sealed(key, nonce, e.value)],
         keychain := d.keychain - {KeychainKey(slot)},
         columns := if slot.kind == Password then d.columns - {slot.host} else d.columns)
  }

  function MigrateHost(d: Disk, key: Bytes, host: string, nonce: nat): Disk {
    Migrate(Migrate(d, key, Slot(host, Password), nonce), key, Slot(host, Passphrase), nonce + 1)
  }

  function MigrateAll(d: Disk, key: Bytes, hosts: seq<string>, nonce: nat): Disk
    decreases |hosts|
  {
    if hosts == [] then d
    else MigrateHost(MigrateAll(d, key, hosts[..|hosts| - 1], nonce), key, hosts[|hosts| - 1],
        nonce + 2 * (|hosts| - 1))
  }

  /** A successful SetupVault: the new meta, the migrated slots, the key function. */
  function Setup(d: Disk, meta: Meta, hosts: seq<string>, nonce: nat): Disk {
    MigrateAll(d.(meta := Some(meta)), meta.verify.key, hosts, nonce).(vaultKeyFn := true)
  }

  /** A row and a keychain entry never hold the same slot. */
  ghost predicate Exclusive(d: Disk) {
    forall slot :: slot in d.rows ==> HostId(slot.host) && KeychainKey(slot) !in d.keychain
  }

  /** The secret in a slot once the vault is on. */
  function Visible(d: Disk, slot: Slot): Option<Bytes> {
    Stored(d.(vaultKeyFn := true), slot)
  }

  /** What moving secrets into the table under a key does not change. */
  ghost predicate MigrationKeeps(d: Disk, d': Disk, key: Bytes) {
    && d'.meta == d.meta && d'.vaultKeyFn == d.vaultKeyFn
    && (Exclusive(d) ==> Exclusive(d'))
    && (RowsUnder(d, key) ==> RowsUnder(d', key))
    && (NonEmpty(d) ==> NonEmpty(d'))
    && (forall s: Slot :: HostId(s.host) ==> Visible(d', s) == Visible(d, s))
  }

  lemma MigrateKeeps(d: Disk, key: Bytes, slot: Slot, nonce: nat)
    requires Exclusive(d) && HostId(slot.host)
    ensures MigrationKeeps(d, Migrate(d, key, slot, nonce), key) && Exclusive(Migrate(d, key, slot, nonce))
  {
    var d' := Migrate(d, key, slot, nonce);
    forall s: Slot | HostId(s.host)
      ensures Visible(d', s) == Visible(d, s)
      ensures s in d'.rows ==> KeychainKey(s) !in d'.keychain
    {
      if KeychainKey(s) == KeychainKey(slot) { KeychainKeyInjective(s, slot); }
    }
  }

  lemma MigrateHostKeeps(d: Disk, key: Bytes, host: string, nonce: nat)
    requires Exclusive(d) && HostId(host)
    ensures MigrationKeeps(d, MigrateHost(d, key, host, nonce), key) && Exclusive(MigrateHost(d, key, host, nonce))
  {
    MigrateKeeps(d, key, Slot(host, Password), nonce);
    var d1 := Migrate(d, key, Slot(host, Password), nonce);
    MigrateKeeps(d1, key, Slot(host, Passphrase), nonce + 1);
    hide Migrate, Exclusive, Visible, RowsUnder, NonEmpty;
  }

  lemma {:induction false} MigrateAllKeeps(d: Disk, key: Bytes, hosts: seq<string>, nonce: nat)
    requires Exclusive(d) && forall k :: 0 <= k < |hosts| ==> HostId(hosts[k])
    ensures MigrationKeeps(d, MigrateAll(d, key, hosts, nonce), key) && Exclusive(MigrateAll(d, key, hosts, nonce))
    decreases |hosts|
  {
    hide MigrateHost, Exclusive, Visible, RowsUnder, NonEmpty;
    if hosts != [] {
      var n := |hosts| - 1;
      MigrateAllKeeps(d, key, hosts[..n], nonce);
      MigrateHostKeeps(MigrateAll(d, key, hosts[..n], nonce), key, hosts[n], nonce + 2 * n);
    }
  }

  /** Setting the vault up on an empty table changes no secret, and leaves every row under the new key. */
  lemma SetupKeepsSecrets(d: Disk, meta: Meta, hosts: seq<string>, nonce: nat)
    requires d.rows == map[] && forall k :: 0 <= k < |hosts| ==> HostId(hosts[k])
    ensures var d' := Setup(d, meta, hosts, nonce);
      SameSecrets(d, d') && NonEmpty(d') && d'.vaultKeyFn && d'.meta == Some(meta)
          && Valid(d', Unlocked(meta.verify.key))
  {
    MigrateAllKeeps(d.(meta := Some(meta)), meta.verify.key, hosts, nonce);
  }

  /** Whether migrating these hosts writes the slot. */
  predicate Migrates(d: Disk, hosts: seq<string>, slot: Slot) {
    slot.host in hosts && Entry(d, KeychainKey(slot)).Some?
  }

  /** The secret in a slot after migrating these hosts: a keychain entry replaces a row. */
  function Secret(d: Disk, hosts: seq<string>, slot: Slot): Option<Bytes> {
    if Migrates(d, hosts, slot) then Entry(d, KeychainKey(slot)) else Visible(d, slot)
  }

  lemma {:induction false} MigrateAllRows(d: Disk, key: Bytes, hosts: seq<string>, nonce: nat, slot: Slot)
    requires HostId(slot.host) && forall k :: 0 <= k < |hosts| ==> HostId(hosts[k])
    ensures var d' := MigrateAll(d, key, hosts, nonce);
      && (slot in d'.rows <==> slot in d.rows || Migrates(d, hosts, slot))
      && (slot in d'.rows ==> d'.rows[slot].key == if Migrates(d, hosts, slot) then key else d.rows[slot].key)
      && (slot in d'.rows ==> Some(d'.rows[slot].plaintext) == Secret(d, hosts, slot))
      && Entry(d', KeychainKey(slot)) == if Migrates(d, hosts, slot) then None else Entry(d, KeychainKey(slot))
    decreases |hosts|
  {
    if hosts != [] {
      var n := |hosts| - 1;
      assert hosts == hosts[..n] + [hosts[n]];
      MigrateAllRows(d, key, hosts[..n], nonce, slot);
      var d1 := MigrateAll(d, key, hosts[..n], nonce);
      MigrateOneRow(d1, key, Slot(hosts[n], Password), nonce + 2 * n, slot);
      MigrateOneRow(Migrate(d1, key, Slot(hosts[n], Password), nonce + 2 * n), key, Slot(hosts[n], Passphrase),
          nonce + 2 * n + 1, slot);
    }
  }

  /** A password column is cleared exactly when its host's password was moved; the others keep their values. */
  lemma {:induction false} MigrateColumns(d: Disk, key: Bytes, hosts: seq<string>, nonce: nat, host: string)
    requires HostId(host) && forall k :: 0 <= k < |hosts| ==> HostId(hosts[k])
    ensures var d' := MigrateAll(d, key, hosts, nonce);
      && (host in d'.columns <==> host in d.columns && !Migrates(d, hosts, Slot(host, Password)))
      && (host in d'.columns ==> d'.columns[host] == d.columns[host])
    decreases |hosts|
  {
    if hosts != [] {
      var n := |hosts| - 1;
      assert hosts == hosts[..n] + [hosts[n]];
      MigrateColumns(d, key, hosts[..n], nonce, host);
      MigrateAllRows(d, key, hosts[..n], nonce, Slot(hosts[n], Password));
      hide MigrateAll, Entry, KeychainKey;
      MigrateAllStep(d, key, hosts, nonce);
      MigrateHostColumns(MigrateAll(d, key, hosts[..n], nonce), key, hosts[n], nonce + 2 * n);
    }
  }

  lemma MigrateAllStep(d: Disk, key: Bytes, hosts: seq<string>, nonce: nat)
    requires hosts != []
    ensures var n := |hosts| - 1;
      MigrateAll(d, key, hosts, nonce) == MigrateHost(MigrateAll(d, key, hosts[..n], nonce), key, hosts[n],
          nonce + 2 * n)
  {}

  lemma MigrateHostColumns(d: Disk, key: Bytes, host: string, nonce: nat)
    ensures MigrateHost(d, key, host, nonce).columns ==
      if Entry(d, KeychainKey(Slot(host, Password))).Some? then d.columns - {host} else d.columns
  {}

  lemma MigrateOneRow(d: Disk, key: Bytes, moved: Slot, nonce: nat, slot: Slot)
    requires HostId(slot.host) && HostId(moved.host)
    ensures var d' := Migrate(d, key, moved, nonce);
      var hit := slot == moved && Entry(d, KeychainKey(slot)).Some?;
      && (slot in d'.rows <==> slot in d.rows || hit)
      && (slot in d'.rows ==> d'.rows[slot].key == if hit then key else d.rows[slot].key)
      && (slot in d'.rows ==> d'.rows[slot].plaintext == if hit then Entry(d,
          KeychainKey(slot)).value else d.rows[slot].plaintext)
      && Entry(d', KeychainKey(slot)) == if hit then None else Entry(d, KeychainKey(slot))
  {
    if KeychainKey(moved) == KeychainKey(slot) { KeychainKeyInjective(moved, slot); }
  }

  // ----- a migration that stops -----

  /** The n-th secret the migration looks at. */
  function Turn(hosts: seq<string>, n: nat): Slot
    requires n < 2 * |hosts|
  {
    Slot(hosts[n / 2], if n % 2 == 0 then Password else Passphrase)
  }

  /** The disk after n turns. */
  function MigrateTurns(d: Disk, key: Bytes, hosts: seq<string>, nonce: nat, n: nat): Disk
    requires n <= 2 * |hosts|
  {
    if n == 0 then d
    else Migrate(MigrateTurns(d, key, hosts, nonce, n - 1), key, Turn(hosts, n - 1), nonce + n - 1)
  }

  /** The turns at which the migration stops: there is a secret to insert, and the INSERT fails. */
  function InsertFails(d: Disk, key: Bytes, hosts: seq<string>, nonce: nat, fails: nat -> bool): nat -> bool {
    (n: nat) => n < 2 * |hosts| && fails(n) && Entry(MigrateTurns(d, key, hosts, nonce, n), KeychainKey(Turn(hosts, n))).Some?
  }

  lemma {:induction false} TurnsPrefix(d: Disk, key: Bytes, hosts: seq<string>, nonce: nat, n: nat)
    requires hosts != [] && n <= 2 * (|hosts| - 1)
    ensures MigrateTurns(d, key, hosts, nonce, n) == MigrateTurns(d, key, hosts[..|hosts| - 1], nonce, n)
  {
    if n > 0 {
      TurnsPrefix(d, key, hosts, nonce, n - 1);
      assert hosts[..|hosts| - 1][(n - 1) / 2] == hosts[(n - 1) / 2];
    }
  }

  /** All turns together are the migration of all hosts. */
  lemma {:induction false} TurnsAreMigration(d: Disk, key: Bytes, hosts: seq<string>, nonce: nat)
    ensures MigrateTurns(d, key, hosts, nonce, 2 * |hosts|) == MigrateAll(d, key, hosts, nonce)
    decreases |hosts|
  {
    if hosts != [] {
      var n := |hosts| - 1;
      TurnsAreMigration(d, key, hosts[..n], nonce);
      TurnsPrefix(d, key, hosts, nonce, 2 * n);
      hide MigrateAll, Migrate;
      MigrateAllStep(d, key, hosts, nonce);
      LastTurns(d, key, hosts, nonce);
    }
  }

  lemma LastTurns(d: Disk, key: Bytes, hosts: seq<string>, nonce: nat)
    requires hosts != []
    ensures var n := |hosts| - 1;
      MigrateTurns(d, key, hosts, nonce, 2 * |hosts|)
      == MigrateHost(MigrateTurns(d, key, hosts, nonce, 2 * n), key, hosts[n], nonce + 2 * n)
  {
    hide Migrate;
    var n := |hosts| - 1;
    assert Turn(hosts, 2 * n) == Slot(hosts[n], Password) && Turn(hosts, 2 * n + 1) == Slot(hosts[n], Passphrase);
    assert MigrateTurns(d, key, hosts, nonce, 2 * n + 1)
        == Migrate(MigrateTurns(d, key, hosts, nonce, 2 * n), key, Turn(hosts, 2 * n), nonce + 2 * n);
  }

  /** Wherever a migration stops, it keeps every visible secret. */
  lemma {:induction false} TurnsKeep(d: Disk, key: Bytes, hosts: seq<string>, nonce: nat, n: nat)
    requires n <= 2 * |hosts| && Exclusive(d) && forall k :: 0 <= k < |hosts| ==> HostId(hosts[k])
    ensures MigrationKeeps(d, MigrateTurns(d, key, hosts, nonce, n), key)
    ensures Exclusive(MigrateTurns(d, key, hosts, nonce, n))
  {
    hide Migrate, Exclusive, Visible, RowsUnder, NonEmpty;
    if n > 0 {
      TurnsKeep(d, key, hosts, nonce, n - 1);
      MigrateKeeps(MigrateTurns(d, key, hosts, nonce, n - 1), key, Turn(hosts, n - 1), nonce + n - 1);
    }
  }

  // ----- nonces -----

  /** A row that was in the keychain and not in the table, and is in the table now, has the nonce of its turn. */
  lemma {:induction false} TurnNonces(d: Disk, key: Bytes, hosts: seq<string>, nonce: nat, n: nat, slot: Slot)
    requires n <= 2 * |hosts|
    ensures var d' := MigrateTurns(d, key, hosts, nonce, n);
      && (slot in d.rows ==> slot in d'.rows)
      && (slot in d'.rows && !(slot in d.rows && d'.rows[slot] == d.rows[slot]) ==>
            nonce <= d'.rows[slot].nonce < nonce + n && Turn(hosts, d'.rows[slot].nonce - nonce) == slot)
  {
    if n > 0 {
      TurnNonces(d, key, hosts, nonce, n - 1, slot);
    }
  }

  /** No two secrets that a setup moves are sealed with the same nonce. */
  lemma SetupNoncesDiffer(d: Disk, key: Bytes, hosts: seq<string>, nonce: nat, a: Slot, b: Slot)
    requires d.rows == map[] && a != b
    ensures var rows := MigrateAll(d, key, hosts, nonce).rows;
      a in rows && b in rows ==> rows[a].nonce != rows[b].nonce && rows[a].nonce >= nonce
  {
    hide *;
    var n := 2 * |hosts|;
    TurnsAreMigration(d, key, hosts, nonce);
    var rows := MigrateTurns(d, key, hosts, nonce, n).rows;
    if a in rows && b in rows {
      TurnNonces(d, key, hosts, nonce, n, a);
      TurnNonces(d, key, hosts, nonce, n, b);
    }
  }

  /**
   SetupVault does not check that the secrets table is empty.  On any table, a slot holds afterwards
   what its keychain entry held, if its host was migrated, and else what it held before.
   */
  lemma SetupSecret(d: Disk, meta: Meta, hosts: seq<string>, nonce: nat, slot: Slot)
    requires HostId(slot.host) && forall k :: 0 <= k < |hosts| ==> HostId(hosts[k])
    ensures Stored(Setup(d, meta, hosts, nonce), slot) == Secret(d, hosts, slot)
  {
    var d0 := d.(meta := Some(meta));
    MigrateAllRows(d0, meta.verify.key, hosts, nonce, slot);
    var d' := Setup(d, meta, hosts, nonce);
    assert Entry(d', KeychainKey(slot)) == Entry(MigrateAll(d0, meta.verify.key, hosts, nonce), KeychainKey(slot));
    assert Migrates(d0, hosts, slot) == Migrates(d, hosts, slot) && Visible(d0, slot) == Visible(d, slot);
  }

  /**
   The rows open under the new key exactly when every old row is overwritten by the migration or was
   already under that key.
   */
  lemma SetupRowsOpenExactly(d: Disk, meta: Meta, hosts: seq<string>, nonce: nat)
    requires (forall k :: 0 <= k < |hosts| ==> HostId(hosts[k])) && RowHosts(d)
    ensures RowsUnder(Setup(d, meta, hosts, nonce), meta.verify.key) <==>
      forall slot :: slot in d.rows ==> Migrates(d, hosts, slot) || d.rows[slot].key == meta.verify.key
  {
    var d0 := d.(meta := Some(meta));
    var d' := Setup(d, meta, hosts, nonce);
    forall slot: Slot | HostId(slot.host)
      ensures slot in d'.rows <==> slot in d.rows || Migrates(d, hosts, slot)
      ensures slot in d'.rows ==>
                d'.rows[slot].key == if Migrates(d, hosts, slot) then meta.verify.key else d.rows[slot].key
    {
      MigrateAllRows(d0, meta.verify.key, hosts, nonce, slot);
      assert Migrates(d0, hosts, slot) == Migrates(d, hosts, slot);
    }
    MigrateAllHosts(d0, meta.verify.key, hosts, nonce);
    hide MigrateAll, Migrates;
  }

  /** What SetupVault leaves when only the last step, saving the configuration, fails: the vault is still off. */
  function HalfSetup(d: Disk, meta: Meta, hosts: seq<string>, nonce: nat): Disk {
    MigrateAll(d.(meta := Some(meta)), meta.verify.key, hosts, nonce)
  }

  /**
   A setup whose last step failed and then a second one with another key: exactly the secrets that the
   first moved into the table are out of reach, although the vault is on and open.  Until the second
   setup the same secrets are out of sight, since the vault is off.
   */
  lemma SetupTwice(d: Disk, first: Meta, hosts: seq<string>, n: nat, second: Meta, hosts': seq<string>, n': nat,
                   slot: Slot, dbValue: Bytes)
    requires d.rows == map[] && !d.vaultKeyFn && HostId(slot.host) && first.verify.key != second.verify.key
    requires (forall k :: 0 <= k < |hosts| ==> HostId(hosts[k]))
             && (forall k :: 0 <= k < |hosts'| ==> HostId(hosts'[k]))
    ensures var half := HalfSetup(d, first, hosts, n);
      && (Stored(half, slot) != Stored(d, slot) <==> Migrates(d, hosts, slot))
      && (Migrates(d, hosts, slot) <==>
            Get(Setup(half, second, hosts', n'), Unlocked(second.verify.key), slot, dbValue) == Err(WrongKey))
  {
    var d0 := d.(meta := Some(first));
    var half := HalfSetup(d, first, hosts, n);
    var half0 := half.(meta := Some(second));
    var end := Setup(half, second, hosts', n');
    MigrateAllRows(d0, first.verify.key, hosts, n, slot);
    HalfSetupOff(d, first, hosts, n);
    MigrateAllRows(half0, second.verify.key, hosts', n', slot);
    assert Entry(d0, KeychainKey(slot)) == Entry(d, KeychainKey(slot));
    assert Entry(half0, KeychainKey(slot)) == Entry(half, KeychainKey(slot));
    assert end.rows == MigrateAll(half0, second.verify.key, hosts', n').rows;
    assert end.vaultKeyFn;
    hide MigrateAll, Entry, KeychainKey, HostId;
  }

  lemma {:induction false} HalfSetupOff(d: Disk, meta: Meta, hosts: seq<string>, nonce: nat)
    ensures HalfSetup(d, meta, hosts, nonce).vaultKeyFn == d.vaultKeyFn
    decreases |hosts|
  {
    if hosts != [] { HalfSetupOff(d, meta, hosts[..|hosts| - 1], nonce); }
  }

  lemma {:induction false} MigrateAllHosts(d: Disk, key: Bytes, hosts: seq<string>, nonce: nat)
    requires (forall k :: 0 <= k < |hosts| ==> HostId(hosts[k])) && RowHosts(d)
    ensures RowHosts(MigrateAll(d, key, hosts, nonce))
    decreases |hosts|
  {
    if hosts != [] {
      MigrateAllHosts(d, key, hosts[..|hosts| - 1], nonce);
    }
  }

  // ----- rotation -----

  datatype Row = Row(slot: Slot, sealed: Sealed)

  ghost predicate Listed(list: seq<Row>, slot: Slot) {
    exists k :: 0 <= k < |list| && list[k].slot == slot
  }

  lemma ListedSnoc(list: seq<Row>, slot: Slot)
    requires list != []
    ensures Listed(list, slot) <==> Listed(list[..|list| - 1], slot) || list[|list| - 1].slot == slot
  {
    var fewer := list[..|list| - 1];
    if Listed(fewer, slot) {
      var k :| 0 <= k < |fewer| && fewer[k].slot == slot;
      assert list[k].slot == slot;
    }
    if Listed(list, slot) && list[|list| - 1].slot != slot {
      var k :| 0 <= k < |list| && list[k].slot == slot;
      assert fewer[k].slot == slot;
    }
  }

  /** Every listed row is in the table. */
  ghost predicate FromTable(rows: map<Slot, Sealed>, list: seq<Row>) {
    forall k :: 0 <= k < |list| ==> list[k].slot in rows && rows[list[k].slot] == list[k].sealed
  }

  /** What SELECT lists: the whole table. */
  ghost predicate Lists(rows: map<Slot, Sealed>, list: seq<Row>) {
    FromTable(rows, list) && forall slot :: slot in rows ==> Listed(list, slot)
  }

  /** Seal every listed row again; None if some row does not open under the old key. */
  function Reseal(rows: map<Slot, Sealed>, list: seq<Row>, oldKey: Bytes, newKey: Bytes,
                  nonce: nat): Option<map<Slot, Sealed>>
    decreases |list|
  {
    if list == [] then Some(rows)
    else
      var n := |list| - 1;
      var before := Reseal(rows, list[..n], oldKey, newKey, nonce);
      var p := Decrypt(oldKey, list[n].sealed);
      if before == None || p == None then None
      else Some(before.value[list[n].slot := Sealed(newKey, nonce + n, p.value)])
  }

  /** Re-sealing succeeds exactly when every listed row opens under the old key. */
  lemma {:induction false} ResealOpens(rows: map<Slot, Sealed>, list: seq<Row>, oldKey: Bytes, newKey: Bytes,
      nonce: nat)
    ensures Reseal(rows, list, oldKey, newKey, nonce).Some? <==> forall k :: 0 <= k < |list| ==> list[k].sealed.key == oldKey
    decreases |list|
  {
    if list != [] {
      var n := |list| - 1;
      ResealOpens(rows, list[..n], oldKey, newKey, nonce);
      assert list == list[..n] + [list[n]];
    }
  }

  /** Each listed row keeps its plaintext and changes key; the others stay as they are. */
  lemma {:induction false} ResealExact(rows: map<Slot, Sealed>, list: seq<Row>, oldKey: Bytes, newKey: Bytes,
                                       nonce: nat, slot: Slot)
    requires FromTable(rows, list) && forall k :: 0 <= k < |list| ==> list[k].sealed.key == oldKey
    ensures var r := Reseal(rows, list, oldKey, newKey, nonce);
      && r.Some?
      && (slot in r.value <==> slot in rows)
      && (slot in rows ==> r.value[slot].plaintext == rows[slot].plaintext)
      && (slot in rows ==> r.value[slot].key == if Listed(list, slot) then newKey else rows[slot].key)
    decreases |list|
  {
    if list != [] {
      ResealExact(rows, list[..|list| - 1], oldKey, newKey, nonce, slot);
      ListedSnoc(list, slot);
    }
  }

  /** The rows at which re-sealing stops: the old key does not open one, or its INSERT fails. */
  function Unsealable(list: seq<Row>, oldKey: Bytes, fails: nat -> bool): nat -> bool {
    (n: nat) => n < |list| && (list[n].sealed.key != oldKey || fails(n))
  }

  lemma {:induction false} ResealNonce(rows: map<Slot, Sealed>, list: seq<Row>, oldKey: Bytes, newKey: Bytes,
                                       nonce: nat, slot: Slot)
    requires Reseal(rows, list, oldKey, newKey, nonce).Some? && Listed(list, slot)
    ensures var r := Reseal(rows, list, oldKey, newKey, nonce).value;
      && slot in r && nonce <= r[slot].nonce < nonce + |list|
      && list[r[slot].nonce - nonce].slot == slot
    decreases |list|
  {
    var n := |list| - 1;
    ListedSnoc(list, slot);
    if list[n].slot != slot {
      ResealNonce(rows, list[..n], oldKey, newKey, nonce, slot);
      hide Listed;
    }
  }

  /** No two rows that a rotation re-seals are sealed with the same nonce. */
  lemma RotationNoncesDiffer(rows: map<Slot, Sealed>, list: seq<Row>, oldKey: Bytes, newKey: Bytes, nonce: nat,
                             a: Slot, b: Slot)
    requires Reseal(rows, list, oldKey, newKey, nonce).Some? && Listed(list, a) && Listed(list, b) && a != b
    ensures var r := Reseal(rows, list, oldKey, newKey, nonce).value;
      a in r && b in r && r[a].nonce != r[b].nonce && r[a].nonce >= nonce
  {
    ResealNonce(rows, list, oldKey, newKey, nonce, a);
    ResealNonce(rows, list, oldKey, newKey, nonce, b);
    hide Reseal, Listed;
  }

  /** Rotation re-seals every row under the new key with its plaintext unchanged. */
  lemma RotateKeepsSecrets(d: Disk, lock: Lock, meta: Meta, list: seq<Row>, nonce: nat)
    requires Valid(d, lock) && d.vaultKeyFn && Lists(d.rows, list)
    ensures var r := Reseal(d.rows, list, d.meta.value.verify.key, meta.verify.key, nonce);
      && r.Some?
      && var d' := d.(rows := r.value, meta := Some(meta));
         SameSecrets(d, d') && Valid(d', Unlocked(meta.verify.key)) && (NonEmpty(d) ==> NonEmpty(d'))
  {
    var r := Reseal(d.rows, list, d.meta.value.verify.key, meta.verify.key, nonce);
    forall slot
      ensures r.Some?
      ensures slot in r.value <==> slot in d.rows
      ensures slot in d.rows ==> r.value[slot].plaintext == d.rows[slot].plaintext && r.value[slot].key == meta.verify.key
    {
      ResealExact(d.rows, list, d.meta.value.verify.key, meta.verify.key, nonce, slot);
    }
  }

  /**
   Rotation re-seals row by row and stores the new vault_meta last.  Stopped after k rows, the lock
   still holds the old key, and exactly the rows already re-sealed can no longer be read.
   */
  lemma RotationStopped(d: Disk, meta: Meta, list: seq<Row>, k: nat, nonce: nat, slot: Slot, dbValue: Bytes)
    requires d.vaultKeyFn && d.meta.Some? && Valid(d, Unlocked(d.meta.value.verify.key))
    requires FromTable(d.rows, list) && k <= |list|
    requires meta.verify.key != d.meta.value.verify.key
    ensures var oldKey := d.meta.value.verify.key;
      var r := Reseal(d.rows, list[..k], oldKey, meta.verify.key, nonce);
      && r.Some?
      && var d' := d.(rows := r.value);
         && Stored(d', slot) == Stored(d, slot)
         && (Get(d', Unlocked(oldKey), slot, dbValue).Err? <==> Listed(list[..k], slot))
  {
    ResealExact(d.rows, list[..k], d.meta.value.verify.key, meta.verify.key, nonce, slot);
    if Listed(list[..k], slot) {
      var i :| 0 <= i < k && list[..k][i].slot == slot;
      assert list[i].slot in d.rows;
    }
  }

  // ----- disabling -----

  /** Copy the listed rows back to the keychain. */
  function Restore(d: Disk, list: seq<Row>): Disk
    decreases |list|
  {
    if list == [] then d
    else
      var n := |list| - 1;
      var before := Restore(d, list[..n]);
      before.(keychain := before.keychain[KeychainKey(list[n].slot) := list[n].sealed.plaintext])
  }

  /** Restoring writes the keychain entries of the listed rows and nothing else. */
  lemma {:induction false} RestoreExact(d: Disk, list: seq<Row>, slot: Slot)
    requires FromTable(d.rows, list) && RowHosts(d) && HostId(slot.host)
    ensures var d' := Restore(d, list);
      && d' == d.(keychain := d'.keychain)
      && Entry(d', KeychainKey(slot)) ==
           if !Listed(list, slot) then Entry(d, KeychainKey(slot))
           else if d.rows[slot].plaintext == [] then None
           else Some(d.rows[slot].plaintext)
    decreases |list|
  {
    if list != [] {
      var n := |list| - 1;
      RestoreExact(d, list[..n], slot);
      ListedSnoc(list, slot);
      if KeychainKey(slot) == KeychainKey(list[n].slot) { KeychainKeyInjective(slot, list[n].slot); }
    }
  }

  /** Same secrets in every slot, as they are seen when the vault is on. */
  ghost predicate SameVisible(d: Disk, d': Disk) {
    forall slot: Slot :: HostId(slot.host) ==> Visible(d', slot) == Visible(d, slot)
  }

  /** While rows are being restored no secret that the table or the keychain holds changes, wherever it stops. */
  lemma RestoreVisible(d: Disk, list: seq<Row>)
    requires RowHosts(d) && FromTable(d.rows, list)
    ensures SameVisible(d, Restore(d, list)) && Restore(d, list) == d.(keychain := Restore(d, list).keychain)
  {
    forall s: Slot | HostId(s.host)
      ensures Visible(Restore(d, list), s) == Visible(d, s)
    {
      RestoreExact(d, list, s);
    }
    RestoreExact(d, list, Slot("", Password));
  }

  /** So a vault that is valid stays so, and its secrets stay. */
  lemma RestoreHidden(d: Disk, lock: Lock, list: seq<Row>)
    requires Valid(d, lock) && FromTable(d.rows, list)
    ensures SameSecrets(d, Restore(d, list)) && Valid(Restore(d, list), lock)
  {
    forall s: Slot | HostId(s.host)
      ensures Stored(Restore(d, list), s) == Stored(d, s)
    {
      RestoreExact(d, list, s);
    }
    RestoreExact(d, list, Slot("", Password));
  }

  /** What DisableVault leaves. */
  function Disable(d: Disk, list: seq<Row>): Disk {
    Restore(d, list).(rows := map[], meta := None, vaultKeyFn := false)
  }

  /**
   With every row restored, the table can go and the vault can be switched off, in either order: the
   secrets of the table are then where Get finds them.
   */
  lemma DisableKeepsVisible(d: Disk, list: seq<Row>, on: bool, slot: Slot)
    requires RowHosts(d) && Lists(d.rows, list) && NonEmpty(d) && HostId(slot.host)
    ensures Stored(Restore(d, list).(rows := map[], meta := None, vaultKeyFn := on), slot) == Visible(d, slot)
    ensures Visible(Disable(d, list), slot) == Visible(d, slot)
  {
    RestoreExact(d, list, slot);
    var d' := Restore(d, list).(rows := map[], meta := None, vaultKeyFn := on);
    assert Entry(d', KeychainKey(slot)) == Entry(Restore(d, list), KeychainKey(slot));
    assert Entry(Disable(d, list), KeychainKey(slot)) == Entry(Restore(d, list), KeychainKey(slot));
  }

  /** Disabling, instead of setting up again, undoes a setup whose last step failed. */
  lemma HalfSetupUndone(d: Disk, meta: Meta, hosts: seq<string>, nonce: nat, list: seq<Row>)
    requires d.rows == map[] && !d.vaultKeyFn && forall k :: 0 <= k < |hosts| ==> HostId(hosts[k])
    requires Lists(HalfSetup(d, meta, hosts, nonce).rows, list)
    ensures SameSecrets(d, Disable(HalfSetup(d, meta, hosts, nonce), list))
  {
    var d0 := d.(meta := Some(meta));
    var half := HalfSetup(d, meta, hosts, nonce);
    MigrateAllKeeps(d0, meta.verify.key, hosts, nonce);
    MigrateAllHosts(d0, meta.verify.key, hosts, nonce);
    hide MigrateAll, Disable;
    forall s: Slot | HostId(s.host)
      ensures Stored(Disable(half, list), s) == Stored(d, s)
    {
      DisableIs(half, list);
      DisableKeepsVisible(half, list, false, s);
      assert Visible(half, s) == Visible(d0, s);
    }
  }

  lemma DisableIs(d: Disk, list: seq<Row>)
    ensures Disable(d, list) == Restore(d, list).(rows := map[], meta := None, vaultKeyFn := false)
  {}

  /** For a valid vault that means that no secret changes. */
  lemma DisableKeepsSecrets(d: Disk, lock: Lock, list: seq<Row>)
    requires Valid(d, lock) && Lists(d.rows, list) && NonEmpty(d)
    ensures var d' := Disable(d, list);
      SameSecrets(d, d') && NonEmpty(d') && Valid(d', Locked)
  {
    forall s: Slot | HostId(s.host)
      ensures Stored(Disable(d, list), s) == Stored(d, s)
    {
      DisableKeepsVisible(d, list, false, s);
    }
  }
}
