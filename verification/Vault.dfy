/**
 The vault as the program runs it: key buffers are arrays that are copied and wiped, the lock state
 holds one of them, and the operations are loops over the secrets table.
 */
module Vault {
  import opened Wrappers
  import opened VaultSpec
  import R = VaultRuns

  function Ascii(s: string): Bytes {
    seq(|s|, i requires 0 <= i < |s| => (s[i] as int % 256) as bv8)
  }

  /** The text every vault_meta blob seals. */
  const VERIFY_TEXT: Bytes := Ascii("shsh-vault-verify-v1")

  ghost predicate Wiped(key: array<bv8>)
    reads key
  {
    forall i :: 0 <= i < key.Length ==> key[i] == 0
  }

  method ZeroKey(key: array<bv8>)
    modifies key
    ensures Wiped(key)
  {
    for i := 0 to key.Length
      invariant forall j :: 0 <= j < i ==> key[j] == 0
    {
      key[i] := 0;
    }
  }

  /** A fresh buffer with the given bytes. */
  method Buffer(bytes: Bytes) returns (buffer: array<bv8>)
    ensures fresh(buffer) && buffer[..] == bytes
  {
    buffer := new bv8[|bytes|](i requires 0 <= i < |bytes| => bytes[i]);
  }

  class LockState {
    var locked: bool
    var key: array?<bv8>

    ghost predicate Valid()
      reads this
    {
      locked <==> key == null
    }

    /** What the lock state holds. */
    ghost function View(): Lock
      reads this, key
    {
      if key == null then Locked else Unlocked(key[..])
    }

    constructor ()
      ensures Valid() && View() == Locked
    {
      locked := true;
      key := null;
    }

    method Unlock(buffer: array<bv8>)
      modifies this
      ensures Valid() && key == buffer && View() == Unlocked(buffer[..])
    {
      key := buffer;
      locked := false;
    }

    /** Locking wipes the buffer before dropping it. */
    method Lock()
      modifies this, key
      ensures Valid() && View() == Locked
      ensures old(key) != null ==> Wiped(old(key))
    {
      if key != null {
        var i := 0;
        while i < key.Length
          invariant key == old(key) && 0 <= i <= key.Length
          invariant forall j :: 0 <= j < i ==> key[j] == 0
        {
          key[i] := 0;
          i := i + 1;
        }
        key := null;
      }
      locked := true;
    }

    method GetKey() returns (r: Option<array<bv8>>)
      requires Valid()
      ensures r.Some? <==> View().Unlocked?
      ensures r.Some? ==> r.value == key && View() == Unlocked(r.value[..])
    {
      if locked {
        r := None;
      } else {
        r := Some(key);
      }
    }
  }

  /** The facade, the secret manager, the vault tables and the keychain. */
  class Vault {
    const derive: (string, nat) -> Bytes   // Argon2id
    const lock: LockState
    var meta: Option<Meta>
    var rows: map<Slot, Sealed>
    var keychain: map<string, Bytes>
    var columns: map<string, Bytes>
    var vaultKeyFn: bool
    var enabled: bool                      // Cfg.Vault.Enabled

    ghost function Contents(): VaultSpec.Disk
      reads this
    {
      VaultSpec.Disk(meta, rows, keychain, columns, vaultKeyFn)
    }

    /** The state of the histories in VaultRuns. */
    ghost function AsState(): R.State
      reads this, lock, lock.key
    {
      R.State(Contents(), lock.View())
    }

    /** vault_meta was made by NewVaultMeta. */
    ghost predicate Wired()
      reads this, lock
    {
      lock.Valid() && (meta.Some? ==> meta.value.verify.plaintext == VERIFY_TEXT)
    }

    /** The rows belong to hosts and hold secrets; which keys they open under is left open. */
    ghost predicate Sound()
      reads this, lock
    {
      Wired() && RowHosts(Contents()) && NonEmpty(Contents())
    }

    ghost predicate Valid()
      reads this, lock, lock.key
    {
      Sound() && VaultSpec.Valid(Contents(), lock.View())
    }

    constructor (derive: (string, nat) -> Bytes)
      ensures Valid() && fresh(lock) && Contents() == VaultSpec.Disk(None, map[], map[], map[], false)
              && lock.View() == Locked
    {
      this.derive := derive;
      lock := new LockState();
      meta, rows, keychain, columns, vaultKeyFn, enabled := None, map[], map[], map[], false, false;
    }

    /** The password's key is the one vault_meta verifies. */
    ghost predicate Accepts(password: string)
      reads this
    {
      meta.Some? && derive(password, meta.value.salt) == meta.value.verify.key
    }

    method NewVaultMeta(password: string, salt: nat, nonce: nat) returns (made: Meta, key: array<bv8>)
      ensures fresh(key) && key[..] == derive(password, salt)
      ensures made == Meta(salt, Sealed(key[..], nonce, VERIFY_TEXT))
    {
      key := Buffer(derive(password, salt));
      made := Meta(salt, Sealed(key[..], nonce, VERIFY_TEXT));
    }

    method VerifyAndDeriveKey(password: string, against: Meta) returns (r: Option<array<bv8>>)
      ensures r.Some? <==> derive(password, against.salt) == against.verify.key && against.verify.plaintext == VERIFY_TEXT
      ensures r.Some? ==> fresh(r.value) && r.value[..] == against.verify.key
    {
      var key := Buffer(derive(password, against.salt));
      var plaintext := Decrypt(key[..], against.verify);
      if plaintext == None {
        return None;
      }
      if plaintext.value != VERIFY_TEXT {
        ZeroKey(key);
        return None;
      }
      return Some(key);
    }

    /** The key of the saved vault_meta, for a password it verifies. */
    method CheckPassword(password: string) returns (key: Option<array<bv8>>)
      requires Wired()
      ensures key.Some? <==> Accepts(password)
      ensures key.Some? ==> fresh(key.value) && key.value[..] == meta.value.verify.key
    {
      if meta == None {
        return None;
      }
      key := VerifyAndDeriveKey(password, meta.value);
    }

    /** The lock takes a copy of the key, which a wipe of the original does not reach. */
    method HoldCopy(key: array<bv8>)
      requires lock.Valid()
      modifies lock
      ensures lock.Valid() && fresh(lock.key) && lock.View() == Unlocked(key[..])
    {
      var keyCopy := Buffer(key[..]);
      lock.Unlock(keyCopy);
    }

    // ----- the secret manager -----

    method PutSecret(slot: Slot, plaintext: Bytes, nonce: nat) returns (ok: bool)
      requires Wired()
      modifies this`rows, this`keychain
      ensures var r := Put(old(Contents()), lock.View(), slot, plaintext, nonce);
        ok == r.Ok? && Contents() == if r.Ok? then r.value else old(Contents())
      ensures AsState() == R.Next(old(AsState()), R.PutSecret(slot, plaintext, nonce))
    {
      if vaultKeyFn {
        var key := lock.GetKey();
        if key == None {
          return false;
        }
        rows := rows[slot := Sealed(key.value[..], nonce, plaintext)];
        return true;
      }
      keychain := keychain[KeychainKey(slot) := plaintext];
      ok := true;
    }

    method GetSecret(slot: Slot, dbValue: Bytes) returns (r: Result<Bytes, Error>)
      requires Wired()
      ensures r == Get(Contents(), lock.View(), slot, dbValue)
    {
      if vaultKeyFn {
        var key := lock.GetKey();
        if key == None {
          return Err(VaultLocked);
        }
        if slot in rows {
          var plaintext := Decrypt(key.value[..], rows[slot]);
          return if plaintext == None then Err(WrongKey) else Ok(plaintext.value);
        }
      }
      if KeychainKey(slot) in keychain && keychain[KeychainKey(slot)] != [] {
        return Ok(keychain[KeychainKey(slot)]);
      }
      r := Ok(dbValue);
    }

    method DeleteSecret(slot: Slot)
      modifies this`rows, this`keychain
      ensures Contents() == Delete(old(Contents()), slot)
      ensures AsState() == R.Next(old(AsState()), R.DeleteSecret(slot))
    {
      keychain := keychain - {KeychainKey(slot)};
      rows := rows - {slot};
    }

    // ----- the facade -----

    /** Move one secret from the keychain to the table; `fails` is the answer of the INSERT. */
    method MigrateSecret(key: array<bv8>, slot: Slot, nonce: nat, fails: bool) returns (ok: bool)
      modifies this`rows, this`keychain, this`columns
      ensures ok <==> !(fails && Entry(old(Contents()), KeychainKey(slot)).Some?)
      ensures Contents() == if ok then Migrate(old(Contents()), key[..], slot, nonce) else old(Contents())
    {
      var secret := if KeychainKey(slot) in keychain then keychain[KeychainKey(slot)] else [];
      if secret != [] {
        if fails {
          return false;
        }
        rows := rows[slot := Sealed(key[..], nonce, secret)];
        keychain := keychain - {KeychainKey(slot)};
        if slot.kind == Password {
          columns := columns - {slot.host};
        }
      }
      ok := true;
    }

    /** Move the secrets of all hosts; `fails(n)` is the answer of the n-th INSERT, where it stops. */
    method MigrateHosts(key: array<bv8>, hosts: seq<string>, nonce: nat, fails: nat -> bool) returns (ok: bool)
      modifies this`rows, this`keychain, this`columns
      ensures var turns := Stop(InsertFails(old(Contents()), key[..], hosts, nonce, fails), 0, 2 * |hosts|);
        && (ok <==> turns == 2 * |hosts|)
        && Contents() == MigrateTurns(old(Contents()), key[..], hosts, nonce, turns)
    {
      hide Migrate, MigrateTurns, InsertFails, Entry, Turn;
      ghost var start, bytes := Contents(), key[..];
      NoTurns(start, bytes, hosts, nonce);
      ghost var bad := InsertFails(start, bytes, hosts, nonce, fails);
      for i := 0 to |hosts|
        invariant key[..] == bytes
        invariant Contents() == MigrateTurns(start, bytes, hosts, nonce, 2 * i)
        invariant forall n :: 0 <= n < 2 * i ==> !bad(n)
      {
        TurnIs(hosts, i);
        InsertFailsAt(start, bytes, hosts, nonce, fails, 2 * i);
        InsertFailsAt(start, bytes, hosts, nonce, fails, 2 * i + 1);
        ok := MigrateSecret(key, Slot(hosts[i], Password), nonce + 2 * i, fails(2 * i));
        if !ok {
          StopIs(bad, 0, 2 * |hosts|, 2 * i);
          return;
        }
        ok := MigrateSecret(key, Slot(hosts[i], Passphrase), nonce + 2 * i + 1, fails(2 * i + 1));
        if !ok {
          StopIs(bad, 0, 2 * |hosts|, 2 * i + 1);
          return;
        }
      }
      StopIs(bad, 0, 2 * |hosts|, 2 * |hosts|);
      ok := true;
    }

    /** The last steps of a setup: open the lock, switch the vault on, and take that back if it cannot be saved. */
    method SwitchOn(key: array<bv8>, saveFails: bool) returns (ok: bool)
      requires Wired()
      modifies this`enabled, this`vaultKeyFn, lock
      ensures Wired() && ok == enabled == !saveFails && vaultKeyFn == (ok || old(vaultKeyFn))
      ensures fresh(lock.key) && lock.View() == Unlocked(key[..])
    {
      HoldCopy(key);
      enabled := true;
      if saveFails {
        enabled := false;
        return false;
      }
      vaultKeyFn := true;
      ok := true;
    }

    /**
     `hosts` is what ListInlinePasswordHostIDs returns, `fails(n)` the answer of the n-th INSERT, and
     `metaFails` and `saveFails` those of saving vault_meta and the configuration.  On success the lock
     holds the new key in a buffer of its own, which the wipe of the derived key does not reach.
     */
    method SetupVault(password: string, salt: nat, nonce: nat, hosts: seq<string>,
                      metaFails: bool, fails: nat -> bool, saveFails: bool)
      returns (ok: bool)
      requires Wired() && forall k :: 0 <= k < |hosts| ==> HostId(hosts[k])
      modifies this, lock
      ensures Wired()
      ensures metaFails ==> !ok && Contents() == old(Contents()) && unchanged(lock) && enabled == old(enabled)
      ensures !metaFails ==>
                var made := Meta(salt, Sealed(derive(password, salt), nonce, VERIFY_TEXT));
                var start := old(Contents()).(meta := Some(made));
                var turns := Stop(InsertFails(start, made.verify.key, hosts, nonce + 1, fails), 0, 2 * |hosts|);
                && meta == Some(made) && Accepts(password)
                && (ok <==> turns == 2 * |hosts| && !saveFails)
                && (turns < 2 * |hosts| ==>
                      && Contents() == MigrateTurns(start, made.verify.key, hosts, nonce + 1, turns)
                      && unchanged(lock) && enabled == old(enabled))
                && (turns == 2 * |hosts| ==>
                      fresh(lock.key) && lock.View() == Unlocked(made.verify.key) && enabled == ok)
      ensures ok ==> AsState() == R.Next(old(AsState()), R.SetupVault(meta.value, hosts, nonce + 1))
      ensures ok && old(rows) == map[] ==> Valid() && SameSecrets(old(Contents()), Contents())
      // a failed setup wipes nothing out: each secret is still in the keychain, or sealed under the saved meta
      ensures !ok && !metaFails && old(Exclusive(Contents())) ==>
                MigrationKeeps(old(Contents()).(meta := meta), Contents(), meta.value.verify.key)
      // but the next one can put what this one has sealed out of reach
      ensures !metaFails && (forall n :: !fails(n)) ==>
                ok == !saveFails && (saveFails ==> Contents() == HalfSetup(old(Contents()), meta.value, hosts, nonce + 1))
    {
      hide Migrate, MigrateAll, MigrateTurns, InsertFails, MigrationKeeps, Visible, RowsUnder, NonEmpty, HostId, SameSecrets,
           Exclusive, VaultSpec.Valid;
      var made, key := NewVaultMeta(password, salt, nonce);
      if metaFails {
        ZeroKey(key);
        return false;
      }
      meta := Some(made);
      SetupFacts(old(Contents()), made, hosts, nonce + 1, fails);
      NextIs(old(AsState()), made, hosts, [], nonce + 1);
      hide R.Next, Setup, HalfSetup, Entry, Turn;
      ok := MigrateHosts(key, hosts, nonce + 1, fails);
      if !ok {
        ZeroKey(key);
        return;
      }
      ok := SwitchOn(key, saveFails);
      ZeroKey(key);
    }

    /** The vault opens for exactly the passwords whose key vault_meta verifies. */
    method UnlockVault(password: string) returns (ok: bool)
      requires Wired()
      modifies lock
      ensures Wired() && (old(Valid()) ==> Valid())
      ensures ok <==> Accepts(password)
      ensures ok ==> fresh(lock.key) && lock.View() == Unlocked(meta.value.verify.key)
      ensures !ok ==> unchanged(lock)
      ensures old(meta).Some? ==>
                AsState() == R.Next(old(AsState()), R.UnlockVault(derive(password, meta.value.salt)))
    {
      var key := CheckPassword(password);
      if key == None {
        return false;
      }
      lock.Unlock(key.value);
      ok := true;
    }

    method LockVault()
      requires Wired()
      modifies lock, lock.key
      ensures Wired() && (old(Valid()) ==> Valid())
      ensures lock.View() == Locked && (old(lock.key) != null ==> Wiped(old(lock.key)))
      ensures AsState() == R.Next(old(AsState()), R.LockVault)
    {
      lock.Lock();
    }

    /** Copy the rows back to the keychain; `fails(n)` is the answer of the n-th keychain write. */
    method RestoreRows(key: array<bv8>, list: seq<Row>, fails: nat -> bool) returns (ok: bool)
      requires Sound() && FromTable(rows, list)
      modifies this`keychain
      ensures var n := Stop(Unsealable(list, key[..], fails), 0, |list|);
        (ok <==> n == |list|) && Contents() == Restore(old(Contents()), list[..n])
      ensures Sound() && SameVisible(old(Contents()), Contents())
      ensures old(Valid()) ==> Valid() && SameSecrets(old(Contents()), Contents())
    {
      hide VaultSpec.Valid, SameSecrets, SameVisible, FromTable, RowHosts, NonEmpty, Unsealable;
      ghost var start, opens := Contents(), key[..];
      ghost var bad := Unsealable(list, opens, fails);
      assert list[..0] == [];
      var i := 0;
      while i < |list|
        invariant 0 <= i <= |list| && key[..] == opens
        invariant Contents() == Restore(start, list[..i])
        invariant forall n :: 0 <= n < i ==> !bad(n)
        decreases |list| - i
      {
        assert list[..i + 1][..i] == list[..i];
        UnsealableAt(list, opens, fails, i);
        var plaintext := Decrypt(key[..], list[i].sealed);
        if plaintext == None {
          break;
        }
        var buffer := Buffer(plaintext.value);
        var secret := buffer[..];
        if fails(i) {
          ZeroKey(buffer);
          break;
        }
        DecryptGives(key[..], list[i].sealed);
        keychain := keychain[KeychainKey(list[i].slot) := secret];
        ZeroKey(buffer);
        i := i + 1;
      }
      RestorePrefix(start, lock.View(), list, i);
      StopIs(bad, 0, |list|, i);
      ok := i == |list|;
    }

    /** Drop the vault tables, lock, and forget the key function, even if the configuration cannot be saved. */
    method SwitchOff(saveFails: bool) returns (ok: bool)
      requires Wired()
      modifies this, lock, lock.key
      ensures Wired() && Contents() == old(Contents()).(rows := map[], meta := None, vaultKeyFn := false)
      ensures lock.View() == Locked && (old(lock.key) != null ==> Wiped(old(lock.key)))
      ensures ok == !saveFails && enabled == (saveFails && old(enabled))
    {
      rows, meta := map[], None;
      lock.Lock();
      vaultKeyFn := false;
      var prevEnabled := enabled;
      enabled := false;
      if saveFails {
        enabled := prevEnabled;
      }
      ok := !saveFails;
    }

    /** DisableVault with its key derived. */
    method Dismantle(key: array<bv8>, list: seq<Row>, fails: nat -> bool, deleteFails: bool, saveFails: bool)
      returns (ok: bool)
      requires Sound() && Lists(rows, list)
      modifies this, lock, lock.key
      ensures Sound() && SameVisible(old(Contents()), Contents())
      ensures old(Valid()) ==> Valid() && SameSecrets(old(Contents()), Contents())
      ensures Dismantled(old(AsState()), old(enabled), AsState(), enabled, list,
                         Stop(Unsealable(list, old(key[..]), fails), 0, |list|), deleteFails, saveFails, ok)
      ensures lock.key == old(lock.key) || (lock.key == null && old(lock.key) != null && Wiped(old(lock.key)))
    {
      DisableFacts(Contents(), lock.View(), list);
      DismantledIs(AsState(), enabled, list, Stop(Unsealable(list, key[..], fails), 0, |list|), deleteFails, saveFails);
      hide Disable, Restore, FromTable, Lists, SameSecrets, SameVisible, NonEmpty, RowHosts, VaultSpec.Valid, Unsealable,
           Dismantled;
      ok := RestoreRows(key, list, fails);
      if !ok || deleteFails {
        return false;
      }
      ok := SwitchOff(saveFails);
    }

    /**
     `list` is what ListEncryptedSecrets returns.  Whether or not the call succeeds, no secret of the
     table or the keychain is lost, even when a setup or a rotation stopped half-way before.
     */
    method DisableVault(password: string, list: seq<Row>, fails: nat -> bool, deleteFails: bool, saveFails: bool)
      returns (ok: bool)
      requires Sound() && Lists(rows, list)
      modifies this, lock, lock.key
      ensures Sound() && SameVisible(old(Contents()), Contents())
      ensures old(Valid()) ==> Valid() && SameSecrets(old(Contents()), Contents())
      ensures !old(Accepts(password)) ==> !ok && AsState() == old(AsState()) && enabled == old(enabled)
      ensures old(Accepts(password)) ==>
                var n := Stop(Unsealable(list, old(meta).value.verify.key, fails), 0, |list|);
                Dismantled(old(AsState()), old(enabled), AsState(), enabled, list, n, deleteFails, saveFails, ok)
      ensures lock.key == old(lock.key) || (lock.key == null && old(lock.key) != null && Wiped(old(lock.key)))
    {
      DisableFacts(Contents(), lock.View(), list);
      hide Disable, Lists, SameSecrets, SameVisible, NonEmpty, RowHosts, VaultSpec.Valid, Unsealable, Dismantled;
      var key := CheckPassword(password);
      if key == None {
        return false;
      }
      ok := Dismantle(key.value, list, fails, deleteFails, saveFails);
      ZeroKey(key.value);
    }

    /** Seal the listed rows again, one INSERT each; `fails(n)` is the answer of the n-th. */
    method ResealRows(oldKey: array<bv8>, newKey: array<bv8>, list: seq<Row>, nonce: nat, fails: nat -> bool)
      returns (ok: bool)
      modifies this`rows
      ensures var n := Stop(Unsealable(list, oldKey[..], fails), 0, |list|);
        (ok <==> n == |list|) && Some(rows) == Reseal(old(rows), list[..n], oldKey[..], newKey[..], nonce)
    {
      ghost var start, opens, seals := rows, oldKey[..], newKey[..];
      ghost var bad := Unsealable(list, opens, fails);
      hide Unsealable;
      assert list[..0] == [];
      var i := 0;
      while i < |list|
        invariant 0 <= i <= |list|
        invariant oldKey[..] == opens && newKey[..] == seals
        invariant Some(rows) == Reseal(start, list[..i], opens, seals, nonce)
        invariant forall n :: 0 <= n < i ==> !bad(n)
      {
        assert list[..i + 1][..i] == list[..i];
        UnsealableAt(list, opens, fails, i);
        var plaintext := Decrypt(oldKey[..], list[i].sealed);
        if plaintext == None {
          StopIs(bad, 0, |list|, i);
          return false;
        }
        var buffer := Buffer(plaintext.value);
        var sealed := Sealed(newKey[..], nonce + i, buffer[..]);
        ZeroKey(buffer);
        if fails(i) {
          StopIs(bad, 0, |list|, i);
          return false;
        }
        rows := rows[list[i].slot := sealed];
        i := i + 1;
      }
      StopIs(bad, 0, |list|, i);
      ok := true;
    }

    /** Re-seal every row under the new key, then store the new vault_meta. */
    method ChangeVaultPassword(oldPassword: string, newPassword: string, salt: nat, nonce: nat,
                               list: seq<Row>, fails: nat -> bool, saveFails: bool)
      returns (ok: bool)
      requires Wired() && Lists(rows, list)
      modifies this`rows, this`meta, lock
      ensures Wired()
      ensures !old(Accepts(oldPassword)) ==> !ok && Contents() == old(Contents())
      ensures ok <==>
        && old(Accepts(oldPassword)) && !saveFails
        && forall k :: 0 <= k < |list| ==> list[k].sealed.key == old(meta).value.verify.key && !fails(k)
      ensures ok ==>
                && meta == Some(Meta(salt, Sealed(derive(newPassword, salt), nonce, VERIFY_TEXT)))
                && fresh(lock.key) && AsState() == R.Next(old(AsState()), R.ChangePassword(meta.value, list, nonce + 1))
                && Accepts(newPassword) && lock.View() == Unlocked(meta.value.verify.key)
      ensures ok ==> RowsUnder(Contents(), meta.value.verify.key) && SameVisible(old(Contents()), Contents())
      ensures ok && old(Valid()) && vaultKeyFn ==> Valid() && SameSecrets(old(Contents()), Contents())
      ensures !ok ==> meta == old(meta) && unchanged(lock)
      ensures !ok && old(Accepts(oldPassword)) ==>
                var n := Stop(Unsealable(list, meta.value.verify.key, fails), 0, |list|);
                Some(rows) == Reseal(old(rows), list[..n], meta.value.verify.key, derive(newPassword, salt), nonce + 1)
    {
      hide Reseal, FromTable, Lists, SameSecrets, SameVisible, NonEmpty, RowHosts, RowsUnder, VaultSpec.Valid, R.Next, Unsealable;
      var verified := CheckPassword(oldPassword);
      if verified == None {
        return false;
      }
      var oldKey := verified.value;
      var made, newKey := NewVaultMeta(newPassword, salt, nonce);
      StopsAtEnd(list, meta.value.verify.key, fails);
      ok := ResealRows(oldKey, newKey, list, nonce + 1, fails);
      if !ok || saveFails {
        ZeroKey(oldKey);
        ZeroKey(newKey);
        return false;
      }
      RotationFacts(old(Contents()), lock.View(), made, list, nonce + 1);
      NextIs(old(AsState()), made, [], list, nonce + 1);
      meta := Some(made);
      HoldCopy(newKey);
      ZeroKey(oldKey);
      ZeroKey(newKey);
    }
  }

  /**
   How a disabling ends that can restore n of the listed rows: it stops there and changes nothing else, or
   stops before the tables are dropped, or switches the vault off, and only then fails if the
   configuration cannot be saved.
   */
  ghost predicate Dismantled(was: R.State, wasEnabled: bool, now: R.State, nowEnabled: bool, list: seq<Row>, n: nat,
                             deleteFails: bool, saveFails: bool, ok: bool)
    requires n <= |list|
  {
    && (ok <==> n == |list| && !deleteFails && !saveFails)
    && if n < |list| || deleteFails then now == R.Next(was, R.StopDisabling(list[..n])) && nowEnabled == wasEnabled
       else now == R.Next(was, R.DisableVault(list)) && nowEnabled == (saveFails && wasEnabled)
  }

  lemma DismantledIs(was: R.State, wasEnabled: bool, list: seq<Row>, n: nat, deleteFails: bool, saveFails: bool)
    requires n <= |list|
    ensures n < |list| || deleteFails ==>
      Dismantled(was, wasEnabled, R.State(Restore(was.disk, list[..n]), was.lock), wasEnabled, list, n, deleteFails,
                 saveFails, false)
    ensures n == |list| && !deleteFails ==>
      Dismantled(was, wasEnabled, R.State(Disable(was.disk, list), Locked), saveFails && wasEnabled, list, n, deleteFails,
                 saveFails, !saveFails)
    ensures list[..|list|] == list
  {
    hide Restore, Disable;
    assert list[..|list|] == list;
  }

  /** What the vault calls of a history leave. */
  lemma NextIs(s: R.State, meta: Meta, hosts: seq<string>, list: seq<Row>, nonce: nat)
    ensures R.Next(s, R.SetupVault(meta, hosts, nonce))
         == R.State(Setup(s.disk, meta, hosts, nonce), Unlocked(meta.verify.key))
    ensures s.disk.meta.Some? ==>
      var r := Reseal(s.disk.rows, list, s.disk.meta.value.verify.key, meta.verify.key, nonce);
      R.Next(s, R.ChangePassword(meta, list, nonce))
      == if r == None then s else R.State(s.disk.(rows := r.value, meta := Some(meta)), Unlocked(meta.verify.key))
  {}

  lemma SetupFacts(d: Disk, made: Meta, hosts: seq<string>, nonce: nat, fails: nat -> bool)
    requires forall k :: 0 <= k < |hosts| ==> HostId(hosts[k])
    ensures var start := d.(meta := Some(made));
      var turns := Stop(InsertFails(start, made.verify.key, hosts, nonce, fails), 0, 2 * |hosts|);
      && ((forall n :: !fails(n)) ==> turns == 2 * |hosts|)
      && (Exclusive(d) ==> MigrationKeeps(start, MigrateTurns(start, made.verify.key, hosts, nonce, turns), made.verify.key))
      && MigrateTurns(start, made.verify.key, hosts, nonce, 2 * |hosts|) == HalfSetup(d, made, hosts, nonce)
      && HalfSetup(d, made, hosts, nonce).(vaultKeyFn := true) == Setup(d, made, hosts, nonce)
    ensures d.rows == map[] ==>
      var d' := Setup(d, made, hosts, nonce);
      SameSecrets(d, d') && NonEmpty(d') && RowHosts(d') && VaultSpec.Valid(d', Unlocked(made.verify.key))
  {
    var start := d.(meta := Some(made));
    var bad := InsertFails(start, made.verify.key, hosts, nonce, fails);
    TurnsAreMigration(start, made.verify.key, hosts, nonce);
    var turns := Stop(bad, 0, 2 * |hosts|);
    assert turns < 2 * |hosts| ==> bad(turns);
    if Exclusive(d) {
      assert Exclusive(start);
      TurnsKeep(start, made.verify.key, hosts, nonce, turns);
    }
    if d.rows == map[] { SetupKeepsSecrets(d, made, hosts, nonce); }
    hide MigrateAll, MigrateTurns, Migrate, Exclusive, MigrationKeeps;
  }

  lemma DisableFacts(d: Disk, view: Lock, list: seq<Row>)
    requires RowHosts(d) && NonEmpty(d) && Lists(d.rows, list)
    ensures SameVisible(d, d) && SameSecrets(d, d)
    ensures var d' := Disable(d, list);
      && d' == Restore(d, list).(rows := map[], meta := None, vaultKeyFn := false)
      && SameVisible(d, d') && RowHosts(d') && NonEmpty(d')
      && (VaultSpec.Valid(d, view) ==> SameSecrets(d, d') && VaultSpec.Valid(d', Locked))
  {
    forall s: Slot | HostId(s.host)
      ensures Visible(Disable(d, list), s) == Visible(d, s)
    {
      DisableKeepsVisible(d, list, false, s);
    }
    if VaultSpec.Valid(d, view) { DisableKeepsSecrets(d, view, list); }
  }

  /** What a rotation that went through leaves. */
  lemma RotationFacts(d: Disk, view: Lock, meta: Meta, list: seq<Row>, nonce: nat)
    requires d.meta.Some? && Lists(d.rows, list)
    requires Reseal(d.rows, list, d.meta.value.verify.key, meta.verify.key, nonce).Some?
    ensures var d' := d.(rows := Reseal(d.rows, list, d.meta.value.verify.key, meta.verify.key, nonce).value,
            meta := Some(meta));
      && RowsUnder(d', meta.verify.key) && SameVisible(d, d')
      && (VaultSpec.Valid(d, view) && NonEmpty(d) && d.vaultKeyFn ==>
            SameSecrets(d, d') && NonEmpty(d') && RowHosts(d') && VaultSpec.Valid(d', Unlocked(meta.verify.key)))
  {
    var oldKey := d.meta.value.verify.key;
    ResealOpens(d.rows, list, oldKey, meta.verify.key, nonce);
    var r := Reseal(d.rows, list, oldKey, meta.verify.key, nonce).value;
    forall slot
      ensures slot in r <==> slot in d.rows
      ensures slot in d.rows ==> r[slot].plaintext == d.rows[slot].plaintext && r[slot].key == meta.verify.key
    {
      ResealExact(d.rows, list, oldKey, meta.verify.key, nonce, slot);
    }
    hide Reseal, HostId, Lists;
    if VaultSpec.Valid(d, view) && d.vaultKeyFn { RotateKeepsSecrets(d, view, meta, list, nonce); }
  }

  lemma NoTurns(d: Disk, key: Bytes, hosts: seq<string>, nonce: nat)
    ensures MigrateTurns(d, key, hosts, nonce, 0) == d
  {}

  lemma TurnIs(hosts: seq<string>, i: nat)
    requires i < |hosts|
    ensures Turn(hosts, 2 * i) == Slot(hosts[i], Password) && Turn(hosts, 2 * i + 1) == Slot(hosts[i], Passphrase)
  {}

  lemma UnsealableAt(list: seq<Row>, key: Bytes, fails: nat -> bool, n: nat)
    requires n < |list|
    ensures Unsealable(list, key, fails)(n) <==> list[n].sealed.key != key || fails(n)
  {}

  lemma InsertFailsAt(d: Disk, key: Bytes, hosts: seq<string>, nonce: nat, fails: nat -> bool, n: nat)
    requires n < 2 * |hosts|
    ensures InsertFails(d, key, hosts, nonce, fails)(n) <==>
      fails(n) && Entry(MigrateTurns(d, key, hosts, nonce, n), KeychainKey(Turn(hosts, n))).Some?
    ensures MigrateTurns(d, key, hosts, nonce, n + 1)
         == Migrate(MigrateTurns(d, key, hosts, nonce, n), key, Turn(hosts, n), nonce + n)
  {
    hide Migrate;
  }

  /** No row stops the loop. */
  lemma StopsAtEnd(list: seq<Row>, key: Bytes, fails: nat -> bool)
    ensures Stop(Unsealable(list, key, fails), 0, |list|) == |list| <==>
      forall k :: 0 <= k < |list| ==> list[k].sealed.key == key && !fails(k)
    ensures list[..|list|] == list
  {
    var bad := Unsealable(list, key, fails);
    var n := Stop(bad, 0, |list|);
    assert list[..|list|] == list;
    if n < |list| {
      assert bad(n);
    } else {
      forall k | 0 <= k < |list|
        ensures list[k].sealed.key == key && !fails(k)
      {
        assert !bad(k);
      }
    }
  }

  lemma RestorePrefix(d: Disk, view: Lock, list: seq<Row>, n: nat)
    requires RowHosts(d) && NonEmpty(d) && FromTable(d.rows, list) && n <= |list|
    ensures var d' := Restore(d, list[..n]);
      && SameVisible(d, d') && RowHosts(d') && NonEmpty(d') && d'.rows == d.rows
      && (VaultSpec.Valid(d, view) ==> SameSecrets(d, d') && VaultSpec.Valid(d', view))
    ensures n == |list| ==> list[..n] == list
  {
    RestoreVisible(d, list[..n]);
    if VaultSpec.Valid(d, view) { RestoreHidden(d, view, list[..n]); }
  }

  lemma DecryptGives(key: Bytes, c: Sealed)
    requires Decrypt(key, c).Some?
    ensures Decrypt(key, c).value == c.plaintext
  {}
}
