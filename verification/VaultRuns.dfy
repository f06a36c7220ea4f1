/**
 Whole histories of the secret store, against one plain map from (host, kind) to secret.
 */
module VaultRuns {
  import opened Wrappers
  import opened VaultSpec

  datatype State = State(disk: Disk, lock: Lock)

  /** One call.  The vault calls are the successful ones, and a DisableVault that stops part-way. */
  datatype Action =
    | PutSecret(slot: Slot, plaintext: Bytes, nonce: nat)
    | DeleteSecret(slot: Slot)
    | LockVault
    | UnlockVault(derived: Bytes)
    | SetupVault(meta: Meta, hosts: seq<string>, nonce: nat)
    | ChangePassword(meta: Meta, list: seq<Row>, nonce: nat)
    | DisableVault(list: seq<Row>)
    | StopDisabling(list: seq<Row>)

  /** What the callers and SQL guarantee. */
  ghost predicate Allowed(s: State, a: Action) {
    match a
    case PutSecret(slot, plaintext, _) => HostId(slot.host) && plaintext != []
    case DeleteSecret(slot) => HostId(slot.host)
    case LockVault => true
    case UnlockVault(_) => true
    case SetupVault(_, hosts, _) => s.disk.rows == map[] && forall k :: 0 <= k < |hosts| ==> HostId(hosts[k])
    case ChangePassword(_, list, _) => s.disk.vaultKeyFn && Lists(s.disk.rows, list)
    case DisableVault(list) => Lists(s.disk.rows, list)
    case StopDisabling(list) => FromTable(s.disk.rows, list)
  }

  function Next(s: State, a: Action): State {
    match a
    case PutSecret(slot, plaintext, nonce) =>
      var r := Put(s.disk, s.lock, slot, plaintext, nonce);
      if r.Ok? then s.(disk := r.value) else s
    case DeleteSecret(slot) => s.(disk := Delete(s.disk, slot))
    case LockVault => s.(lock := Locked)
    case UnlockVault(derived) =>
      if s.disk.meta.Some? && s.disk.meta.value.verify.key == derived then s.(lock := Unlocked(derived)) else s
    case SetupVault(meta, hosts, nonce) => State(Setup(s.disk, meta, hosts, nonce), Unlocked(meta.verify.key))
    case ChangePassword(meta, list, nonce) =>
      if s.disk.meta == None then s
      else
        var r := Reseal(s.disk.rows, list, s.disk.meta.value.verify.key, meta.verify.key, nonce);
        if r == None then s else State(s.disk.(rows := r.value, meta := Some(meta)), Unlocked(meta.verify.key))
    case DisableVault(list) =>
      State(Disable(s.disk, list), Locked)
    case StopDisabling(list) => s.(disk := Restore(s.disk, list))
  }

  /** The plain map: only an accepted Put and a Delete change it. */
  function Apply(m: Option<Bytes>, slot: Slot, s: State, a: Action): Option<Bytes> {
    match a
    case PutSecret(other, plaintext, _) =>
      if other == slot && !(s.disk.vaultKeyFn && s.lock.Locked?) then Some(plaintext) else m
    case DeleteSecret(other) => if other == slot then None else m
    case _ => m
  }

  ghost predicate Inv(s: State) {
    Valid(s.disk, s.lock) && NonEmpty(s.disk)
  }

  /** Every call keeps the invariant; vault calls are stuttering steps of the plain map. */
  lemma StepRefines(s: State, a: Action, slot: Slot)
    requires Inv(s) && Allowed(s, a) && HostId(slot.host)
    ensures Inv(Next(s, a))
    ensures Stored(Next(s, a).disk, slot) == Apply(Stored(s.disk, slot), slot, s, a)
  {
    hide Valid, SameSecrets, Stored, Setup, Restore, Reseal;
    match a
    case PutSecret(other, plaintext, nonce) => StepPut(s, a, slot);
    case DeleteSecret(other) => StepDelete(s, a, slot);
    case SetupVault(meta, hosts, nonce) => StepSetup(s, a, slot);
    case ChangePassword(meta, list, nonce) => StepChange(s, a, slot);
    case DisableVault(list) => StepDisable(s, a, slot);
    case StopDisabling(list) => StepStop(s, a, slot);
    case _ => StepLock(s, a, slot);
  }

  lemma StepPut(s: State, a: Action, slot: Slot)
    requires a.PutSecret? && Inv(s) && Allowed(s, a) && HostId(slot.host)
    ensures Inv(Next(s, a)) && Stored(Next(s, a).disk, slot) == Apply(Stored(s.disk, slot), slot, s, a)
  {
    PutWritesMap(s.disk, s.lock, a.slot, a.plaintext, a.nonce);
    hide Stored;
  }

  lemma StepDelete(s: State, a: Action, slot: Slot)
    requires a.DeleteSecret? && Inv(s) && Allowed(s, a) && HostId(slot.host)
    ensures Inv(Next(s, a)) && Stored(Next(s, a).disk, slot) == Apply(Stored(s.disk, slot), slot, s, a)
  {
    DeleteClearsMap(s.disk, s.lock, a.slot);
    hide Stored;
  }

  lemma StepLock(s: State, a: Action, slot: Slot)
    requires (a.LockVault? || a.UnlockVault?) && Inv(s)
    ensures Inv(Next(s, a)) && Stored(Next(s, a).disk, slot) == Apply(Stored(s.disk, slot), slot, s, a)
  {
    hide Stored;
  }

  lemma StepSetup(s: State, a: Action, slot: Slot)
    requires a.SetupVault? && Inv(s) && Allowed(s, a) && HostId(slot.host)
    ensures Inv(Next(s, a)) && Stored(Next(s, a).disk, slot) == Apply(Stored(s.disk, slot), slot, s, a)
  {
    SetupKeepsSecrets(s.disk, a.meta, a.hosts, a.nonce);
    hide Stored, Setup, Valid;
  }

  lemma StepChange(s: State, a: Action, slot: Slot)
    requires a.ChangePassword? && Inv(s) && Allowed(s, a) && HostId(slot.host)
    ensures Inv(Next(s, a)) && Stored(Next(s, a).disk, slot) == Apply(Stored(s.disk, slot), slot, s, a)
  {
    RotateKeepsSecrets(s.disk, s.lock, a.meta, a.list, a.nonce);
    hide Stored, Reseal;
  }

  lemma StepDisable(s: State, a: Action, slot: Slot)
    requires a.DisableVault? && Inv(s) && Allowed(s, a) && HostId(slot.host)
    ensures Inv(Next(s, a)) && Stored(Next(s, a).disk, slot) == Apply(Stored(s.disk, slot), slot, s, a)
  {
    DisableKeepsSecrets(s.disk, s.lock, a.list);
    hide Stored, Disable;
  }

  lemma StepStop(s: State, a: Action, slot: Slot)
    requires a.StopDisabling? && Inv(s) && Allowed(s, a) && HostId(slot.host)
    ensures Inv(Next(s, a)) && Stored(Next(s, a).disk, slot) == Apply(Stored(s.disk, slot), slot, s, a)
  {
    RestoreHidden(s.disk, s.lock, a.list);
    RestoreExact(s.disk, a.list, slot);
    hide Stored, Restore;
  }

  function Run(s: State, actions: seq<Action>): State
    decreases |actions|
  {
    if actions == [] then s else Run(Next(s, actions[0]), actions[1..])
  }

  ghost predicate AllowedRun(s: State, actions: seq<Action>)
    decreases |actions|
  {
    actions != [] ==> Allowed(s, actions[0]) && AllowedRun(Next(s, actions[0]), actions[1..])
  }

  /** The same history on the plain map. */
  function PlainRun(m: Option<Bytes>, slot: Slot, s: State, actions: seq<Action>): Option<Bytes>
    decreases |actions|
  {
    if actions == [] then m
    else PlainRun(Apply(m, slot, s, actions[0]), slot, Next(s, actions[0]), actions[1..])
  }

  /** After any history, Get answers what the plain map holds, or reports the vault locked. */
  lemma {:induction false} RunRefinesPlainMap(s: State, actions: seq<Action>, slot: Slot, dbValue: Bytes)
    requires Inv(s) && AllowedRun(s, actions) && HostId(slot.host)
    ensures Inv(Run(s, actions))
    ensures var end := Run(s, actions);
      var held := PlainRun(Stored(s.disk, slot), slot, s, actions);
      Get(end.disk, end.lock, slot, dbValue) ==
        if end.disk.vaultKeyFn && end.lock.Locked? then Err(VaultLocked)
        else Ok(if held.Some? then held.value else dbValue)
    decreases |actions|
  {
    if actions == [] {
      GetReadsMap(s.disk, s.lock, slot, dbValue);
    } else {
      StepRefines(s, actions[0], slot);
      RunRefinesPlainMap(Next(s, actions[0]), actions[1..], slot, dbValue);
    }
  }

  /** A history without Put and Delete of a slot leaves its secret where Get can find it. */
  lemma {:induction false} VaultCallsStutter(s: State, actions: seq<Action>, slot: Slot)
    requires Inv(s) && AllowedRun(s, actions) && HostId(slot.host)
    requires forall k :: 0 <= k < |actions| ==>
      !(actions[k].PutSecret? && actions[k].slot == slot) && !(actions[k].DeleteSecret? && actions[k].slot == slot)
    ensures Stored(Run(s, actions).disk, slot) == Stored(s.disk, slot)
    decreases |actions|
  {
    if actions != [] {
      StepRefines(s, actions[0], slot);
      VaultCallsStutter(Next(s, actions[0]), actions[1..], slot);
    }
  }

  // ----- when the vault is open -----

  /** What a user of the vault remembers: the key that opens it, whether it is open, and whether it is on. */
  datatype Memory = Memory(key: Option<Bytes>, open: bool, on: bool)

  function Remember(u: Memory, a: Action): Memory {
    match a
    case LockVault => u.(open := false)
    case UnlockVault(derived) => u.(open := u.open || u.key == Some(derived))
    case SetupVault(meta, _, _) => Memory(Some(meta.verify.key), true, true)
    case ChangePassword(meta, _, _) => Memory(Some(meta.verify.key), true, true)
    case DisableVault(_) => Memory(None, false, false)
    case _ => u
  }

  function RememberAll(u: Memory, actions: seq<Action>): Memory
    decreases |actions|
  {
    if actions == [] then u else RememberAll(Remember(u, actions[0]), actions[1..])
  }

  function MemoryOf(s: State): Memory {
    Memory(if s.disk.meta.Some? then Some(s.disk.meta.value.verify.key) else None, s.lock.Unlocked?, s.disk.vaultKeyFn)
  }

  lemma MemoryStep(s: State, a: Action)
    requires Inv(s) && Allowed(s, a)
    ensures MemoryOf(Next(s, a)) == Remember(MemoryOf(s), a)
  {
    match a
    case SetupVault(meta, hosts, nonce) => SetupKeepsSecrets(s.disk, meta, hosts, nonce);
    case ChangePassword(meta, list, nonce) => RotateKeepsSecrets(s.disk, s.lock, meta, list, nonce);
    case StopDisabling(list) => RestoreVisible(s.disk, list);
    case _ =>
  }

  /**
   After any history the vault is open exactly if the last of its locks, openings, setups, rotations
   and disablings left it open, and it opens for the key of the last setup or rotation alone, and
   for none once it was disabled.
   */
  lemma {:induction false} OpenIsRemembered(s: State, actions: seq<Action>)
    requires Inv(s) && AllowedRun(s, actions)
    ensures Inv(Run(s, actions)) && MemoryOf(Run(s, actions)) == RememberAll(MemoryOf(s), actions)
    decreases |actions|
  {
    if actions != [] {
      StepRefines(s, actions[0], Slot("", Password));
      MemoryStep(s, actions[0]);
      OpenIsRemembered(Next(s, actions[0]), actions[1..]);
    }
  }

  // ----- plaintext at rest -----

  lemma {:induction false} MigrateShrinks(d: Disk, key: Bytes, hosts: seq<string>, nonce: nat)
    ensures MigrateAll(d, key, hosts, nonce).keychain.Items <= d.keychain.Items
    ensures MigrateAll(d, key, hosts, nonce).vaultKeyFn == d.vaultKeyFn
    decreases |hosts|
  {
    if hosts != [] {
      MigrateShrinks(d, key, hosts[..|hosts| - 1], nonce);
    }
  }

  /** While the vault is on, no call but disabling puts anything into the keychain. */
  lemma {:induction false} KeychainOnlyShrinks(s: State, actions: seq<Action>)
    requires s.disk.vaultKeyFn
    requires forall k :: 0 <= k < |actions| ==> !actions[k].DisableVault? && !actions[k].StopDisabling?
    ensures Run(s, actions).disk.vaultKeyFn
    ensures Run(s, actions).disk.keychain.Items <= s.disk.keychain.Items
    decreases |actions|
  {
    if actions != [] {
      ShrinkStep(s, actions[0]);
      KeychainOnlyShrinks(Next(s, actions[0]), actions[1..]);
    }
  }

  lemma ShrinkStep(s: State, a: Action)
    requires s.disk.vaultKeyFn && !a.DisableVault? && !a.StopDisabling?
    ensures Next(s, a).disk.vaultKeyFn && Next(s, a).disk.keychain.Items <= s.disk.keychain.Items
  {
    hide MigrateAll, Reseal;
    match a
    case SetupVault(meta, hosts, nonce) => MigrateShrinks(s.disk.(meta := Some(meta)), meta.verify.key, hosts, nonce);
    case _ =>
  }
}
