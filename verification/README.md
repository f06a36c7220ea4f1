# Verification model of shsh

This project models the parts of shsh in which a mistake is hardest to see in the code, and proves
what they promise. `dafny verify dfyconfig.toml` checks all of it.

- **The SSH connection manager** (`Session*.dfy`, `Backoff.dfy`, `PortForwards.dfy`). Many channels
  share one connection; concurrent dials of one identity are merged; lost connections are dialled again
  in generations. `SessionState` gives each critical section of `m.mu` or `conn.mu` as a function on
  the shared state, `SessionSteps` lets goroutines interleave at that grain, and `SessionManager` is the
  manager and its connections as objects whose methods are tied to the same functions.
  `SessionInvariants` is the invariant; the theorems are in `SessionRuns`, `SessionLiveness`,
  `SessionTheorems` and `SessionIndex`. `SessionHistory` says what a goroutine must have seen to be where
  it is, `SessionFuture` what is bound to follow whatever the others do, `SessionCalls` and `SessionOutages`
  what a whole call and a whole outage leave when nobody interferes, down to the last field. `SessionReach`
  builds, step by step from the empty manager, the runs on which a promise fails.
- **The vault and the life of a secret** (`VaultSpec.dfy`, `VaultRuns.dfy`, `Vault.dfy`). Secrets move
  between the OS keychain and an encrypted table. Every history of calls behaves as one plain map.
  Encryption is ideal: a ciphertext opens under the key that made it and under no other.
- **Panes and workspaces** (`LeafSeqs.dfy`, `PaneTree.dfy`, `PaneShape.dfy`, `Workspace*.dfy`). Tree surgery
  against its effect on the panes in order, and on the splits and where each pane hangs.
- **The registry** (`Timestamps.dfy`, `RegistryTables.dfy`, `RegistryHistory.dfy`, `RegistryStore.dfy`)
  and **syncing a bundle** (`RegistrySync.dfy`, `RegistryClient.dfy`). SQL is given as functions on tables.
- **Parsers and printers** (`Strings.dfy`, `Keybind.dfy`, `CsvRows.dfy`).
- **The transfer loop and the debug log** (`Transfer.dfy`, `RingBuffer.dfy`).

`Wrappers.dfy` holds the Option and Result types and where a loop that may fail stops, `Counting.dfy` facts about counting goroutines.

## How the model stands for the program

Code that updates objects step by step is modelled by classes and loops; each method is proved against a
function of the old state, and the theorems are about those functions and about whole runs of them. That
goroutines interleave at the ends of critical sections, and in which order they enter them, is what
`SessionSteps` says; the methods of `SessionManager` are the sections alone.

Outcomes of I/O are parameters: whether a dial, a bind, an insert, a keychain write or a save succeeds,
how much a read returns, the current time. Ids from uuid and channels from `make(chan)` are counters, so
a new one is always new. "closed" is the set of closed channels and a second close sets `panicked`.
A goroutine that remembers a generation (keep-alive, output reader, terminal writer) is one that read
it at any earlier moment. Lines 317 to 324 of `internal/session/reconnect.go`, which read
`reconnectDone` just before the lock, are one step.

`RetryConnection` checks and sets under two separate locks and is two steps. A run is
*disciplined* when a retry is checked only while nobody runs an outage of that connection; the
invariant is proved for disciplined runs and `RetrySafeExactlyWhenIdle` proves that this is the exact
condition; `SessionReach` reaches the states in which a retry is not safe.

## Where the code and its documentation part

- `moveLeaf` says that a missing target leaves the tree unchanged (`frontend/src/lib/paneTree.ts:64-65`);
  the code removes the source and inserts it nowhere. `MoveLeafConserves` gives the exact condition and
  `MoveToNowhere` an input.
- A split of a pane that is not there, and a move of a pane that is not there within its workspace, put the
  focus on a pane the workspace does not have
  (`frontend/src/store/workspaceActions.ts:56-86`, `frontend/src/store/workspaceActions.ts:141-150`).
  `SplitSafeExactly` and `MoveWithinExactly` say exactly which calls are safe.
- `ConnectOrReuse` says that it returns an existing connection for the same pair
  (`internal/session/connection.go:105-107`), but a registered connection can lose its index entry to a
  caller that still holds an older, failed one. `IndexLostExactly` says when, `TwoCallersLoseTheIndex`
  gives the run, and `TwoCallers` reaches its start.
- A caller of `ConnectOrReuse` that had to wait can be given a connection that was torn down or has died in
  the meantime, since the second look checks only the state and the look after another's dial only the
  index (`internal/session/connection.go:134-167`). `WhatCallersGet` says exactly when what it gets can be
  used; `WaiterGetsTornDownConnection` and `JoinerGetsDeadConnection` give the runs.
- `SetupVault` does not check that the secrets table is empty. `SetupRowsOpenExactly` says when every row
  opens under the new key all the same. An input the code does meet is a setup whose configuration cannot
  be saved (`vault_facade.go:86-91`) and then a second one, which derives another key: `SetupTwice` shows
  that exactly the secrets moved by the first can no longer be decrypted, `HalfSetupUndone` that disabling
  the vault instead brings them all back.
- `ChangeVaultPassword` re-seals row by row without a transaction. `RotationStopped` says which rows a
  stopped rotation leaves unreadable.
- A colour spelled "null" is stored as no colour (`internal/store/store.go:320-325`); `PullThenExport`
  shows that this is the only exported field a pull changes.
- A sync gives groups new ids, so a host of another origin that sits in such a group loses it:
  `OthersKeepGroupExactly`.
- The progress counts of a transfer repeat when a write after the first fails without storing a byte:
  `ReportsIncreaseExactly`, with `RepeatedCount` as the input.
- Two registries whose names are such that one continues the other after a slash can share an origin, so that
  syncing one subscription replaces the rows of another. `OriginsNeverClashExactly` gives the exact condition on
  the names, `OriginsEqualExactly` all the pairs, `OriginsClash` one of them; `AddRegistry` accepts any name
  (`registry_facade.go:54-67`).
- In a shortcut, a modifier name as the last part is reported as a missing key, and the branches for a
  modifier used as key and for no modifier at all cannot be reached.

## Model

| member | source | states |
|---|---|---|
| `SessionRuns.InvStart` | internal/session/session.go:102-115 | The manager starts in a state that satisfies the whole invariant: keyed maps, one owner per signal and outage, exact reference counts, every waiter will be woken, no panic. |
| `SessionRuns.InvStep` | internal/session/connection.go:119-225 | Every step of every goroutine keeps the invariant, for any interleaving of connects, deaths, reconnects, retries, opens, closes and teardowns. |
| `SessionRuns.InvRun` | internal/session/reconnect.go:124-273 | The invariant holds after every run; in particular no signal is ever closed twice (no panic). |
| `SessionSafety.CoreStep` | internal/session/reconnect.go:193-273 | Each kind of step keeps the maps, the ownership of outages and signals, the log of deaths and the waiters' guarantee. |
| `SessionRefs.RefsStep` | internal/session/channel.go:257-261 | Each kind of step keeps channelRefs of a registered connection equal to its registered channels plus opens past incrRefs plus closes before decrRefs. |
| `SessionRuns.EachGenerationDiesOnce` | internal/session/reconnect.go:129-145 | After any run, the markDead calls that took effect on a connection number its generation, plus one while it is not up, and they killed generations 0, 1, 2, ... once each, in that order. |
| `SessionRuns.DeathLogRun` | internal/session/reconnect.go:129-145 | The log of effective markDead calls grows by exactly the calls counted in the run and is never rewritten. |
| `SessionRuns.StaleGoroutineIsHarmless` | internal/session/reconnect.go:131-143 | A goroutine of a generation that has died leaves the shared state unchanged, however much later it calls markDead. |
| `SessionRuns.OneOwner` | internal/session/reconnect.go:193-251 | A reconnecting connection has exactly one goroutine running its outage; a connected one has none. |
| `SessionTheorems.SingleFlight` | internal/session/connection.go:155-196 | An identity is pending exactly while a goroutine dials it, at most one does, and no identity but the local one is both pending and indexed. |
| `SessionTheorems.IndexKeyed` | internal/session/connection.go:219-223 | In every reachable state connByIdent names only registered connections, each under its own identity, and a caller of ConnectOrReuse gets a connection of the identity it asked for. |
| `SessionTheorems.LastRefIsLast` | internal/session/channel.go:334-376 | decrRefs answers true on a registered connection exactly when no channel of it is left and no open or close of one is under way. |
| `SessionFuture.LastCloseForgets` | internal/session/channel.go:334-376 | When the last reference to a registered remote connection goes, every run in which the closing goroutine takes its next step ends with the connection forgotten. |
| `SessionFuture.TornDownForGood` | internal/session/channel.go:392-421 | A goroutine about to tear a connection down has done so after its next step, in every run. |
| `SessionHistory.TornDownWasUnused` | internal/session/channel.go:365-376 | In any run a goroutine tears a connection down only after it found its last reference gone, or no channel in a turn of the loop. |
| `SessionHistory.LeavesOnlyBy` | internal/session/channel.go:416-421 | A connection leaves the manager only by being dropped or torn down. |
| `SessionOutages.OpenAlone` | internal/session/channel.go:257-261 | A whole opening: one reference and one channel more, or nothing. |
| `SessionOutages.OpenLocalAlone` | internal/session/localfs.go:32-54 | The first local channel makes the local connection, later ones use it. |
| `SessionOutages.CloseAlone` | internal/session/channel.go:334-376 | A whole closing: the connection is forgotten exactly when that was the last channel and none is being opened or closed, unless it is the local one; a channel of a forgotten connection just goes. |
| `SessionLiveness.ClosedAtMostOnce` | internal/session/reconnect.go:176-189 | In every run each gate and each reconnectDone is closed at most once, and the closed set records exactly those closes. |
| `SessionLiveness.OutageOverWhenClosed` | internal/session/reconnect.go:318-326 | In every reachable state a current reconnectDone that is closed belongs to a failed connection, and an idle failed connection has it closed. |
| `SessionLiveness.NoLostWakeUp` | internal/session/connection.go:121-167 | A waiter of ConnectOrReuse waits for a signal that exactly one other goroutine closes; that goroutine is never blocked and closes it in every run in which it takes its remaining, bounded number of steps. |
| `SessionLiveness.CloserProgress` | internal/session/reconnect.go:198-251 | Each step of the goroutine that owes a close either closes the signal or strictly lowers the number of steps it has left. |
| `SessionLiveness.CloserCanGo` | internal/session/reconnect.go:220-229 | That goroutine can always take its next step. |
| `SessionLiveness.WakeUpWithin` | internal/session/connection.go:128-133 | Whatever the other goroutines do, the signal is closed once its goroutine has taken the steps it has left. |
| `SessionLiveness.OutageDialsBounded` | internal/session/reconnect.go:198-245 | An outage never dials more than MaxRetries times. |
| `SessionHistory.DialsHadChannels` | internal/session/reconnect.go:198-238 | In any run the loop dials only after a turn at which it found a channel on the connection and had retries left. |
| `SessionFuture.UnusedIsForgotten` | internal/session/reconnect.go:201-217 | When a turn finds no channel, and nobody opens one or retries, every run in which the goroutine takes its four steps ends with the connection failed, its signal closed, out of both maps, and not dialled again. |
| `SessionFuture.GivenUpStays` | internal/session/reconnect.go:247-251 | With auto-reconnect off, after MaxRetries dials, or at shutdown, every run in which the goroutine takes its steps ends with the connection failed, its signal closed, not dialled again, and still registered unless another goroutine removes it. |
| `SessionFuture.ShutdownGivesUp` | internal/session/reconnect.go:221-229 | Shutting down while the loop sleeps is one of these ends. |
| `SessionFuture.DialBringsBack` | internal/session/reconnect.go:238-241 | After a dial that succeeded the connection is connected in its next generation, with an open new signal, at some point of every run in which the goroutine takes its next step. |
| `SessionOutages.DeathAlone` | internal/session/reconnect.go:129-189 | A goroutine that began to watch a connection which is up, and finds it dead, starts its outage; whether that dials depends on the settings. |
| `SessionOutages.OutageAlone` | internal/session/reconnect.go:124-273 | A whole outage nobody interferes with, for every sequence of dial answers, as the complete state at its end: off, it fails at once; without channels it is forgotten; after n failed dials a good one brings it back; after MaxRetries failed ones it has failed and stays registered. |
| `SessionOutages.LoopEnds` | internal/session/reconnect.go:198-229 | The turns at which the loop ends without a dial, and the complete state each leaves. |
| `SessionOutages.LoopReconnects` | internal/session/reconnect.go:238-241 | n failed dials and then a good one: generation, signal, dial count and state. |
| `SessionOutages.LoopGivesUp` | internal/session/reconnect.go:247-251 | MaxRetries failed dials. |
| `SessionOutages.RetryAlone` | internal/session/reconnect.go:412-440 | A manual retry of a failed connection, whatever its settings: a new signal, and the loop from its first turn. |
| `SessionTheorems.RetrySafeExactlyWhenIdle` | internal/session/reconnect.go:412-439 | A manual retry of a failed connection is safe in every continuation exactly when nobody runs an outage of the connection at the check; otherwise some continuation closes a channel twice. |
| `SessionTheorems.RetryWhileClosing` | internal/session/reconnect.go:248-251 | A retry between "state := failed" and the close makes two goroutines close the same new channel: the run that panics. |
| `SessionTheorems.RetryTwice` | internal/session/reconnect.go:419-439 | Two retries at once start two loops that close the same channel: the run that panics. |
| `SessionReach.RetryDuringOutage` | internal/session/reconnect.go:248-251 | From the empty manager: connect, die, fail; a retry can be checked before the old outage closes its signal, and some continuation then panics. |
| `SessionReach.TwoRetries` | internal/session/reconnect.go:412-439 | From the empty manager: two retries can both be past their checks, and some continuation then panics. |
| `SessionReach.TwoCallers` | internal/session/connection.go:146-152 | From the empty manager: two callers can find the same failed connection, and some continuation leaves a live connection out of the index. |
| `SessionReach.JoinerGetsDeadConnection` | internal/session/connection.go:158-167 | From the empty manager: a caller that waited for a dial can be given a connection that has died since. |
| `SessionReach.WaiterGetsTornDownConnection` | internal/session/connection.go:134-149 | From the empty manager: a caller that waited for a reconnect can be given a connection that has been torn down since. |
| `SessionTheorems.LoopRunsDown` | internal/session/reconnect.go:193-229 | Once the application context is cancelled a reconnect loop runs down to the close of its channel, from whatever attempt it has reached. |
| `SessionTheorems.ReuseWaitOrDial` | internal/session/connection.go:119-173 | What a caller finds in any reachable state: it reuses exactly an indexed connection that is up, waits for one being reconnected, drops a failed one, joins a dial in flight, and otherwise dials, the only one to do so. |
| `SessionTheorems.WhatCallersGet` | internal/session/connection.go:121-225 | The step at which ConnectOrReuse returns a connection, in any reachable state: it is of the asked identity; at once it is registered and up; after waiting for a reconnect it is up, and registered exactly unless it was torn down meanwhile; after waiting for a dial it is registered and indexed, and up exactly if it has not died since; after an own dial it is the dialled one, usable exactly if it still is. |
| `SessionFuture.UsableIsReturned` | internal/session/connection.go:134-145 | The converse, in any reachable state: a caller that looks again after waiting for a reconnect is given the connection exactly when it is up, and then nothing else changes, so that a usable connection is never dropped. |
| `SessionFuture.JoinerGetsIndexed` | internal/session/connection.go:160-167 | A caller that waited for another one's dial is given exactly the connection that is indexed, or an error exactly when none is. |
| `SessionFuture.WaiterWakes` | internal/session/connection.go:128-137 | Once its signal is closed a waiter can go on and looks again. |
| `SessionHistory.DroppedWasDown` | internal/session/connection.go:134-149 | In any run a caller drops a connection only after it has itself seen it not connected. |
| `SessionHistory.NothingHasAReason` | internal/session/connection.go:128-197 | In any run a call of ConnectOrReuse fails only because the program shut down while it waited, its own dial failed, or the dial it waited for left nothing indexed. |
| `SessionHistory.RegisteredWasDialled` | internal/session/connection.go:186-223 | In any run a caller registers a connection only after its own dial succeeded, with the settings of that dial. |
| `SessionCalls.AloneIsRun` | internal/session/connection.go:109-232 | A call that nobody interferes with is a run of the manager, one step for each answer. |
| `SessionCalls.ReuseAlone` | internal/session/connection.go:119-143 | A whole call on an indexed connection that is up: handed out at once, nothing changes. |
| `SessionCalls.DialAlone` | internal/session/connection.go:155-226 | A whole call with nothing indexed and nobody dialling: the complete state after a dial that succeeds and after one that fails. |
| `SessionCalls.RedialAlone` | internal/session/connection.go:145-152 | A whole call on a failed connection: it leaves both maps, and the call goes on as a dial. |
| `SessionCalls.WaitAlone` | internal/session/connection.go:128-159 | A whole call on a connection being reconnected, or during another one's dial: nothing changes, and it cannot go on before the signal is closed, unless the program shuts down. |
| `SessionIndex.TeardownForgets` | internal/session/channel.go:392-421 | Teardown takes a connection out of both maps; the local one stays. |
| `SessionIndex.GoneStaysGone` | internal/session/channel.go:416-421 | A connection that was dropped or torn down is never registered or indexed again, in any run. |
| `SessionIndex.IndexLostExactly` | internal/session/connection.go:146-149 | A step takes the index entry of a connection that stays registered exactly when it drops or tears down another connection of the same identity. |
| `SessionIndex.TwoCallersLoseTheIndex` | internal/session/connection.go:146-152 | Two callers that find the same failed connection: the run after which a live connection is registered but not indexed, so that the next caller dials again. |
| `SessionManager.Connection.constructor` | internal/session/connection.go:200-217 | A new connection is connected, in generation 0, without references. |
| `SessionManager.Manager.constructor` | internal/session/session.go:102-115 | An empty manager is the start state. |
| `SessionManager.Manager.FindOrReserve` | internal/session/connection.go:119-173 | The first critical section of ConnectOrReuse: reuse, join the dial in flight, or reserve a gate; the new state is that of the step machine. |
| `SessionManager.Manager.IsConnected` | internal/session/connection.go:134-138 | The second look after a wait: whether the connection is up. |
| `SessionManager.Manager.FindIndexed` | internal/session/connection.go:158-167 | The lookup after another caller's dial: the indexed connection, if there is one. |
| `SessionManager.Manager.DropFailed` | internal/session/connection.go:146-149 | A failed connection leaves both maps. |
| `SessionManager.Manager.WithdrawGate` | internal/session/connection.go:177-182 | A dial that failed withdraws its gate. |
| `SessionManager.Manager.Enter` | internal/session/localfs.go:50-52 | A new connection is entered in both maps under its id and identity. |
| `SessionManager.Manager.Register` | internal/session/connection.go:199-223 | A dial that succeeded registers its connection and withdraws the gate in one section. |
| `SessionManager.Manager.CloseSignal` | internal/session/connection.go:224 | Closing a channel marks it closed; closing it again is the panic. |
| `SessionManager.Manager.EnsureLocalConnection` | internal/session/localfs.go:32-54 | The local connection is made once and found afterwards. |
| `SessionManager.Manager.MarkConnDead` | internal/session/reconnect.go:129-145 | markDead takes effect exactly for the current generation of a connected connection. |
| `SessionManager.Manager.GiveUp` | internal/session/reconnect.go:248-250 | The failed state. |
| `SessionManager.Manager.BringUp` | internal/session/reconnect.go:317-326 | A successful reconnect: connected, next generation, a new reconnectDone, and the old one returned for closing. |
| `SessionManager.Manager.CanRetry` | internal/session/reconnect.go:413-424 | A retry is accepted exactly for a registered, failed connection. |
| `SessionManager.Manager.BeginRetry` | internal/session/reconnect.go:426-430 | The retry resets state and reconnectDone. |
| `SessionManager.Manager.IncrementRefs` | internal/session/connection.go:89-93 | One more reference. |
| `SessionManager.Manager.DecrementRefs` | internal/session/connection.go:97-103 | One reference less; true when none is left. |
| `SessionManager.Manager.AddChannel` | internal/session/channel.go:259-261 | A channel is registered under a new id. |
| `SessionManager.Manager.TakeChannel` | internal/session/channel.go:334-342 | A channel leaves the table and its connection is looked up in the same section. |
| `SessionManager.Manager.FindOpenChannel` | internal/session/reconnect.go:202-210 | Whether the connection still has a channel: the loop answers the state machine's question. |
| `SessionManager.Manager.TearDown` | internal/session/channel.go:392-421 | Teardown removes the connection and the index entry of its identity; the local connection stays. |
| `Backoff.BackoffDelay` | internal/session/reconnect.go:61-70 | For arguments that are non-negative and below 2^62 the doubling loop never overflows and equals the initial delay at attempt 0 and min(initial * 2^attempt, max) afterwards, for every attempt. At 2^62 the first doubling comes out negative. |
| `Backoff.IdealMonotone` | internal/session/reconnect.go:61-70 | With initial <= max the delays never decrease and never exceed max. |
| `Backoff.TotalWaitBounded` | internal/session/reconnect.go:198-199 | The waits requested by a whole loop add up to at most MaxRetries * max. |
| `PortForwards.Table.Add` | internal/session/portforward.go:23-88 | An added forward has a fresh id and an open listener of its own; a failure adds nothing. |
| `PortForwards.Table.Remove` | internal/session/portforward.go:91-111 | Removing closes the listener and deletes the entry, or reports a missing one. |
| `PortForwards.Table.CloseAll` | internal/session/reconnect.go:289-294 | Every listener is closed, the entries stay. |
| `PortForwards.Table.Restore` | internal/session/reconnect.go:381-395 | The multiset of specs afterwards is exactly that of the entries that bind again, each with an open, new listener. |
| `PortForwards.Table.Reconnect` | internal/session/reconnect.go:289-294 | A whole reconnect: all old listeners are closed, and the table holds exactly the specs that could be bound again, each as often as before, with open listeners. |
| `VaultSpec.KeychainKeyClash` | internal/credstore/manager.go:52-57 | Two secrets share a keychain entry exactly when one host id is the other with ":passphrase" appended. |
| `VaultSpec.KeychainKeyInjective` | internal/credstore/manager.go:52-57 | Host ids that do not end in ":passphrase" give every secret its own entry. |
| `VaultSpec.GetReadsMap` | internal/credstore/manager.go:86-114 | Get answers the value of the plain map or the caller's fallback, and fails exactly when the vault is on and locked. |
| `VaultSpec.PutWritesMap` | internal/credstore/manager.go:60-83 | Put changes one slot of the plain map, for any text, or nothing when the vault is locked. |
| `VaultSpec.PutSeals` | internal/credstore/manager.go:63-73 | With the vault on, the secret is sealed under the lock's key with the given nonce, and the keychain stays as it was. |
| `VaultSpec.DeleteClearsMap` | internal/credstore/manager.go:119-129 | Delete clears one slot wherever it is stored and no other. |
| `VaultSpec.DeleteForgets` | internal/credstore/manager.go:119-129 | On any disk, valid or not: a deleted secret is gone whether the vault is switched on or off later, and no other is. |
| `VaultSpec.MigrateAllKeeps` | vault_facade.go:44-72 | The migration loop changes no visible secret, keeps rows and keychain entries apart, and seals every moved row under the new key. |
| `VaultSpec.TurnsAreMigration` | vault_facade.go:44-72 | The migration is its turns, two for each host, one after the other. |
| `VaultSpec.TurnsKeep` | vault_facade.go:44-72 | Stopped after any turn, every secret is visible and rows and keychain entries are apart. |
| `VaultSpec.SetupNoncesDiffer` | vault_facade.go:48-63 | No two secrets that a setup moves are sealed with the same nonce. |
| `VaultSpec.MigrateColumns` | vault_facade.go:55-56 | A password column is cleared exactly when that password was moved into the table. |
| `VaultSpec.SetupKeepsSecrets` | vault_facade.go:25-96 | A successful setup on an empty table changes no secret and leaves every row under the key that vault_meta verifies. |
| `VaultSpec.SetupSecret` | vault_facade.go:44-72 | On any table: a slot holds after a setup what its keychain entry held, if its host was migrated, and else what it held before. |
| `VaultSpec.SetupRowsOpenExactly` | vault_facade.go:44-72 | On any table: every row opens under the new key exactly when each old row is overwritten by the migration or was under that key already. |
| `VaultSpec.SetupTwice` | vault_facade.go:44-91 | A setup whose configuration save failed and then one with another key: exactly the secrets the first moved cannot be decrypted any more. |
| `VaultSpec.HalfSetupUndone` | vault_facade.go:154-218 | Disabling, instead of setting up again, brings all of them back. |
| `VaultSpec.RotateKeepsSecrets` | vault_facade.go:243-267 | Rotation re-seals every row under the new key with its plaintext unchanged. |
| `VaultSpec.ResealOpens` | vault_facade.go:243-262 | Re-sealing goes through exactly when every listed row opens under the old key. |
| `VaultSpec.RotationNoncesDiffer` | vault_facade.go:254-257 | No two rows that a rotation re-seals are sealed with the same nonce. |
| `VaultSpec.RotationStopped` | vault_facade.go:249-262 | A rotation stopped after k rows loses no plaintext, and with the old key exactly the k re-sealed rows can no longer be read. |
| `VaultSpec.RestoreHidden` | vault_facade.go:177-192 | However far DisableVault gets in copying rows back, no secret changes. |
| `VaultSpec.RestoreVisible` | vault_facade.go:177-192 | The same for any table, whatever keys its rows are under: no secret of table or keychain is lost. |
| `VaultSpec.DisableKeepsVisible` | vault_facade.go:194-205 | With every row restored, the table can be dropped and the vault switched off, in either order: Get then finds what the table or the keychain held. |
| `VaultSpec.DisableKeepsSecrets` | vault_facade.go:194-205 | For a valid vault: no secret changes, and the vault is valid and locked afterwards. |
| `VaultRuns.StepRefines` | internal/credstore/manager.go:60-129 | Each call keeps the invariant, and acts on the plain map as Put, as Delete, or not at all. |
| `VaultRuns.RunRefinesPlainMap` | internal/credstore/manager.go:86-114 | After any history of Put, Delete, lock, unlock, setup, rotation, disabling and half-done disabling, Get answers what one plain map would, or that the vault is locked. |
| `VaultRuns.VaultCallsStutter` | vault_facade.go:23-282 | A history without Put and Delete of a secret leaves that secret as it was. |
| `VaultRuns.OpenIsRemembered` | vault_facade.go:23-282 | After any history the vault is open exactly if its last lock, unlock, setup, rotation or disabling left it open, and it opens for the key of the last setup or rotation alone, and for none after a disabling. |
| `VaultRuns.KeychainOnlyShrinks` | internal/credstore/manager.go:63-73 | While the vault is on, no history without a disabling puts anything into the keychain. |
| `Vault.ZeroKey` | internal/vault/vault.go:127-131 | Every byte of the buffer is zero. |
| `Vault.LockState.Unlock` | internal/lockstate/lockstate.go:40-47 | The lock state holds the given buffer. |
| `Vault.LockState.Lock` | internal/lockstate/lockstate.go:93-105 | The buffer it held is wiped in place before it is dropped. |
| `Vault.LockState.GetKey` | internal/lockstate/lockstate.go:57-64 | The held buffer, or locked. |
| `Vault.Vault.constructor` | internal/credstore/manager.go:28-30 | A store without a vault. |
| `Vault.Vault.NewVaultMeta` | internal/vault/vault.go:86-108 | A meta whose blob is sealed under the derived key, and that key in a new buffer. |
| `Vault.Vault.VerifyAndDeriveKey` | internal/vault/vault.go:112-124 | A key comes back exactly when it opens the blob to the known text. |
| `Vault.Vault.CheckPassword` | vault_facade.go:99-110 | The key of the saved meta, for exactly the passwords it verifies. |
| `Vault.Vault.PutSecret` | internal/credstore/manager.go:60-83 | Put on the fields, as specified, and the step of the histories. |
| `Vault.Vault.GetSecret` | internal/credstore/manager.go:86-114 | Get on the fields, as specified. |
| `Vault.Vault.DeleteSecret` | internal/credstore/manager.go:119-129 | Delete on the fields, as specified. |
| `Vault.Vault.MigrateSecret` | vault_facade.go:46-57 | One secret moves; it fails, and changes nothing, exactly when there is a secret and its insert fails. |
| `Vault.Vault.MigrateHosts` | vault_facade.go:44-72 | The loop stops exactly at the first insert that is needed and fails, and leaves exactly the turns before it done. |
| `Vault.Vault.SwitchOn` | vault_facade.go:81-95 | The lock opens; the vault is on exactly if the configuration can be saved. |
| `Vault.Vault.SetupVault` | vault_facade.go:25-96 | It succeeds exactly if vault_meta, every insert needed and the configuration are saved; the disk, the lock and the configuration after success and after each failure are given. On success the lock holds the new key in a buffer that the deferred wipe does not reach; a failure switches nothing on and destroys no secret. |
| `Vault.Vault.UnlockVault` | vault_facade.go:99-115 | The vault unlocks for exactly the passwords whose key vault_meta verifies. |
| `Vault.Vault.LockVault` | vault_facade.go:129-132 | The lock is empty and the key buffer wiped. |
| `Vault.Vault.RestoreRows` | vault_facade.go:177-192 | The loop copies back exactly the rows before the first that does not open or cannot be stored, and succeeds exactly if that is all; no secret of table or keychain changes, although each plaintext buffer is wiped. |
| `Vault.Vault.SwitchOff` | vault_facade.go:194-217 | Tables dropped, lock wiped, key function off, configuration rolled back when it cannot be saved. |
| `Vault.Vault.Dismantle` | vault_facade.go:165-218 | The same once the key is derived. |
| `Vault.Vault.DisableVault` | vault_facade.go:154-218 | It succeeds exactly if the password is right, every row opens and is stored, and the tables and the configuration are written; the state after success and after each failure is given. No secret of table or keychain is lost in any case; in a valid vault none changes and the vault stays valid. A key that the lock drops is wiped. |
| `Vault.Vault.ResealRows` | vault_facade.go:249-262 | The rotation loop re-seals exactly the rows before the first that does not open or whose insert fails, and succeeds exactly if that is all. |
| `Vault.Vault.ChangeVaultPassword` | vault_facade.go:221-282 | It succeeds exactly if the old password is right, every row opens under its key, and every insert and vault_meta are written. Success, from any state: all rows, the new meta and the lock are under the new password's key, held in a buffer of its own, and no secret of table or keychain changed; a valid vault stays valid. Failure: meta and lock unchanged, exactly the rows before the failing one re-sealed. A wrong password changes nothing. |
| `PaneTree.FirstLeafIsFirst` | frontend/src/lib/paneTree.ts:102-105 | firstLeaf is the first pane in order. |
| `PaneTree.InsertLeafExact` | frontend/src/lib/paneTree.ts:29-47 | insertLeaf puts the new pane directly beside every pane with the target id and changes nothing else. |
| `PaneTree.RemoveExact` | frontend/src/lib/paneTree.ts:86-99 | removeLeaf deletes exactly the first pane with the id and returns null only for a lone such pane. |
| `PaneTree.ReferenceTestIsValueTest` | frontend/src/lib/paneTree.ts:90-98 | The reference comparison in removeLeaf holds exactly when the subtree does not contain the id. |
| `PaneTree.MoveLeafExact` | frontend/src/lib/paneTree.ts:67-80 | Source and target present and distinct: never null, and the panes in order are the old ones with the source taken out and put back directly beside the target. |
| `PaneTree.MoveLeafPlaces` | frontend/src/lib/paneTree.ts:67-80 | With unique ids there is one place for the moved pane: right before or right after the target. |
| `PaneTree.MoveLeafConserves` | frontend/src/lib/paneTree.ts:64-80 | Panes are conserved exactly when the source is missing, is the target, or the target is present; the comment promises it for a missing target too. |
| `PaneTree.MoveToNowhere` | frontend/src/lib/paneTree.ts:77-79 | The input that shows it: moving beside a missing pane drops the source. |
| `PaneTree.UpdateLeafExact` | frontend/src/lib/paneTree.ts:10-23 | A patch reaches exactly the panes of the channel. |
| `PaneShape.InsertShape` | frontend/src/lib/paneTree.ts:36-46 | Every pane with the target id becomes a split of it and the new pane, in the given direction, half and half, in the order of the position; all other panes and splits stay where they are, with direction and ratio. |
| `PaneShape.PlantedIsInsert` | frontend/src/lib/paneTree.ts:29-47 | That says all: a layout of which it holds is the one insertLeaf returns. |
| `PaneShape.RemoveShape` | frontend/src/lib/paneTree.ts:86-99 | The sibling of the removed pane takes the place of the split above it; every pane and split not below that split stays, with direction and ratio. |
| `PaneShape.MoveShape` | frontend/src/lib/paneTree.ts:67-80 | A moved pane leaves its place as if it were closed, and then splits the target's. |
| `PaneShape.UpdateShape` | frontend/src/lib/paneTree.ts:10-23 | A patch moves no pane and changes no split. |
| `PaneShape.PatchedFields` | frontend/src/lib/paneTree.ts:16 | A patched field has the new value, all others keep theirs. |
| `PaneShape.SplitResult` | frontend/src/store/workspaceActions.ts:75-83 | A split changes one workspace, plants the pane after the old one if no position is given, and focuses it; label and name stay. |
| `PaneShape.CloseResult` | frontend/src/store/workspaceActions.ts:98-114 | Closing closes the gap; the focus moves to the first pane exactly if it was on the closed one; the last pane takes the workspace with it; other workspaces stay. |
| `PaneShape.MoveWithinResult` | frontend/src/store/workspaceActions.ts:141-150 | A move inside a workspace: the shape of the layout, the focus on the moved pane, and nothing else changes. |
| `PaneShape.UnknownWorkspace` | frontend/src/store/workspaceActions.ts:92-94 | An action on a workspace that is not there changes nothing. |
| `PaneShape.MissingSource` | frontend/src/lib/paneTree.ts:121-125 | Moving a pane across from a workspace that does not have it changes nothing. |
| `PaneShape.PatchResult` | frontend/src/store/workspaceActions.ts:18-53 | A status patch changes nothing of a workspace but fields of its panes. |
| `WorkspaceSafety.SplitSafeExactly` | frontend/src/store/workspaceActions.ts:56-86 | A split keeps ids unique and focus valid exactly when the workspace is unknown, or the pane is there and the new id is fresh. |
| `WorkspaceSafety.CloseSafe` | frontend/src/store/workspaceActions.ts:89-116 | Closing keeps both, removes exactly the closed pane, and removes the workspace exactly when that was its only pane. |
| `WorkspaceSafety.MoveWithinExactly` | frontend/src/store/workspaceActions.ts:141-150 | Moving within a workspace: when it is safe, and that it then conserves all panes. |
| `WorkspaceSafety.AcrossIsCloseThenSplit` | frontend/src/lib/paneTree.ts:112-145 | Moving across workspaces equals closing the pane here and splitting with it there. |
| `WorkspaceSafety.MoveAcrossExactly` | frontend/src/lib/paneTree.ts:112-145 | Moving across is safe exactly when the source is missing or the target present; panes are conserved and the source workspace goes exactly when it held only the moved pane. |
| `WorkspaceRuns.PatchEachExact` | frontend/src/store/workspaceActions.ts:45-48 | The patch loop over affected panes patches exactly the panes whose channel is mentioned. |
| `WorkspaceRuns.PatchConnectionExact` | frontend/src/store/workspaceActions.ts:32-53 | A connection's status reaches exactly the panes on that connection, if channels belong to one connection. |
| `WorkspaceRuns.OnConnectionCounts` | frontend/src/store/workspaceActions.ts:38 | The affected panes are those on the connection, each as often as it occurs. |
| `WorkspaceRuns.ActionSafeExactly` | frontend/src/store/workspaceActions.ts:18-166 | Each action keeps pane ids unique across all workspaces and every focus on a pane of its own layout exactly when a check on ids before the call holds. |
| `WorkspaceRuns.MoveSafeExactly` | frontend/src/store/workspaceActions.ts:119-166 | The same for moves, with conservation of the multiset of panes and the exact fate of the source workspace. |
| `WorkspaceRuns.RunStaysGood` | frontend/src/store/workspaceActions.ts:18-166 | Over every run of safe actions ids stay unique and no focus dangles. |
| `WorkspaceRuns.MovesConserve` | frontend/src/store/workspaceActions.ts:119-166 | Over every run of safe moves the multiset of panes is conserved. |
| `WorkspaceRuns.WorkspaceStore.constructor` | frontend/src/store/workspaceActions.ts:3 | No workspaces. |
| `WorkspaceRuns.WorkspaceStore.Split` | frontend/src/store/workspaceActions.ts:56-86 | The atom performs the split action. |
| `WorkspaceRuns.WorkspaceStore.ClosePaneOf` | frontend/src/store/workspaceActions.ts:89-116 | The atom performs the close action and closes the channel of the pane exactly when the pane exists. |
| `WorkspaceRuns.WorkspaceStore.Move` | frontend/src/store/workspaceActions.ts:119-166 | The atom performs the move action. |
| `WorkspaceRuns.WorkspaceStore.PatchByConnection` | frontend/src/store/workspaceActions.ts:32-53 | The nested loops perform the patch and return the affected panes. |
| `Timestamps.TextOrderIsTimeOrder` | internal/registry/store.go:241 | The text order by which SQLite sorts pushed_at is the order of the times. |
| `Timestamps.LessPadded` | internal/registry/store.go:147 | Fixed-width digits compare like numbers, whatever follows them. |
| `Timestamps.FormatReads` | internal/registry/store.go:241 | The text is the layout of RFC 3339, and its digits are the fields of the time. |
| `RegistryHistory.OrderByOrders` | internal/registry/store.go:147 | The sort used for ORDER BY lists every row once, each before those it should precede. |
| `RegistryHistory.OrderByIsReverseExactly` | internal/registry/store.go:147 | Newest-first equals reading the table backwards exactly when no later row has an earlier stamp. |
| `RegistryHistory.StepHolds` | internal/registry/store.go:209-266 | Each Push and DeleteVersion, accepted or not, keeps the tables equal to the history. |
| `RegistryHistory.PushAccepted` | internal/registry/store.go:209-248 | A push is accepted exactly when its namespace exists and the bundle has no surviving push with the tag. |
| `RegistryHistory.RunHolds` | internal/registry/store.go:209-266 | After every history all constraints hold and each bundle's rows are its surviving pushes in push order. |
| `RegistryHistory.ListTagsIsHistory` | internal/registry/store.go:141-162 | Under a clock that never goes back, ListTags is the surviving pushes newest first, despite equal seconds and reused rowids. |
| `RegistryHistory.NewestFirstExactly` | internal/registry/store.go:141-162 | Under any clock, newest-first order holds exactly when the surviving pushes stand in time order. |
| `RegistryHistory.PullLatestIsHead` | internal/registry/store.go:169-177 | Pull without a tag, or with "latest", is the last surviving push. |
| `RegistryHistory.PullTagIsThePush` | internal/registry/store.go:178-188 | Pull with any other tag is the one surviving push with that tag, or nothing, under any clock. |
| `RegistryHistory.TagsAreUnique` | internal/registry/store.go:52-59 | A tag survives at most once in a bundle, under any clock. |
| `RegistryHistory.OthersUntouched` | internal/registry/store.go:209-266 | Pushing to or deleting from one bundle changes no answer about another. |
| `RegistryStore.Store.constructor` | internal/registry/store.go:19-29 | The tables the database file holds, none in a new one. |
| `RegistryStore.Store.CreateNamespace` | internal/registry/store.go:67-73 | One more namespace with its API key, or, exactly when the name or the key is taken, an error and no change. |
| `RegistryStore.Store.LookupNamespace` | internal/registry/store.go:76-83 | The namespace an API key was issued for, or none. |
| `RegistryStore.Store.Push` | internal/registry/store.go:209-248 | The transaction performs the push event; a failed one leaves no bundle behind. |
| `RegistryStore.Store.DeleteVersion` | internal/registry/store.go:251-266 | Performs the deletion event, and fails exactly when there is no such version. |
| `RegistryStore.Store.ListTags` | internal/registry/store.go:141-162 | The row loop returns the query's answer. |
| `RegistryStore.Store.Pull` | internal/registry/store.go:165-205 | Returns the query's answer. |
| `RegistrySync.SyncReplaces` | internal/store/store.go:1169-1209 | A sync is a full replace: the origin holds exactly the given rows in order, and every other origin exactly what it had. |
| `RegistrySync.OtherOriginsUntouched` | internal/store/store.go:1176-1226 | Syncing or deleting one origin leaves the rows of any other as they are, in order. |
| `RegistrySync.SelectedExact` | registry_facade.go:214-219 | The selected rows are those of the known ids, in the order given; unknown ids are skipped. |
| `RegistrySync.GroupNamesExact` | registry_facade.go:272-290 | Each named group in use becomes one group. |
| `RegistrySync.PulledGroups` | registry_facade.go:272-290 | After a pull the groups of the origin are distinct, numbered in order, all in use, and dated with the pull. |
| `RegistrySync.GroupNamesInOrder` | registry_facade.go:276-290 | Groups stand in the order of their first use. |
| `RegistrySync.PulledRow` | registry_facade.go:292-313 | Column by column what a pull stores of an item, with the time of the pull, and NULL for what the item leaves open. |
| `RegistrySync.PullThenExport` | registry_facade.go:292-315 | A pulled host, exported again, is its bundle item with its group name, exactly unless its colour is spelled "null". |
| `RegistrySync.PullShows` | registry_facade.go:256-316 | What a pull shows depends on the bundle alone, not on what was there before. |
| `RegistrySync.PullTwice` | registry_facade.go:256-316 | Pulling the same bundle again changes nothing but ids and times. |
| `RegistrySync.PushThenPull` | registry_facade.go:214-245 | Hosts pushed from one machine and pulled on another keep their exported fields and group names. |
| `RegistrySync.WireLosesEmptyTags` | internal/registry/types.go:15-25 | On the wire exactly an empty tag list is lost. |
| `RegistrySync.OthersKeepGroupExactly` | internal/store/store.go:1176-1182 | A host of another origin keeps its group name exactly unless its group belongs to the pulled origin. |
| `RegistrySync.PullKeepsIds` | registry_facade.go:279-294 | Primary keys stay distinct. |
| `RegistrySync.OriginsEqualExactly` | registry_facade.go:268 | Two subscriptions share an origin exactly when they are the same, or one registry name continues the other after a slash and the bundle name makes up for it. |
| `RegistrySync.OriginsNeverClashExactly` | registry_facade.go:54-67 | Two registry names never share an origin, whatever the bundles, exactly when they differ and neither continues the other after a slash. |
| `RegistrySync.OriginsDiffer` | registry_facade.go:268 | In particular, registry names without a slash: equal origins are the same subscription. |
| `RegistrySync.OriginsClash` | registry_facade.go:268 | An input: two subscriptions that share an origin. |
| `RegistrySync.ParseBundleRef` | registry_facade.go:318-325 | Splits at the first slash, and fails exactly when there is none. |
| `RegistryClient.HostStore.constructor` | internal/store/store.go:196-203 | The rows the database file holds, none in a new one. |
| `RegistryClient.HostStore.SyncRegistryBundle` | internal/store/store.go:1169-1209 | The transaction performs the sync, or a primary key is taken and nothing changes. |
| `RegistryClient.HostStore.InsertGroups` | internal/store/store.go:1185-1193 | All groups inserted, or a key is taken. |
| `RegistryClient.HostStore.InsertHosts` | internal/store/store.go:1196-1206 | All hosts inserted, or a key is taken. |
| `RegistryClient.HostStore.DeleteRegistryBundle` | internal/store/store.go:1212-1226 | The rows of the origin go, no others. |
| `RegistryClient.HostStore.PullBundle` | registry_facade.go:256-316 | Performs the specified pull, and fails exactly on a reference without a slash. |
| `RegistryClient.HostStore.BuildGroups` | registry_facade.go:272-290 | The first loop: groups, and the map from names to their ids. |
| `RegistryClient.HostStore.BuildHosts` | registry_facade.go:292-313 | The second loop: hosts with resolved groups. |
| `RegistryClient.HostStore.BuildItems` | registry_facade.go:214-238 | The loop of PushBundle: the known selected hosts, in order. |
| `Strings.JoinSplit` | internal/keybind/parser.go:29 | Join undoes Split on every string. |
| `Strings.SplitJoin` | internal/importfile/csv.go:46 | Split undoes Join exactly on non-empty lists of parts without the separator. |
| `Strings.AtoiShow` | internal/importfile/csv.go:39 | Atoi reads back what %d prints, exactly for int64 values. |
| `Strings.AtoiExact` | internal/importfile/csv.go:39 | Atoi accepts exactly digits, with or without a sign, in the range of int64, and reads their value. |
| `Strings.ShowCanonical` | internal/export/export.go:206 | %d prints digits without a leading zero, after a minus sign for a negative number. |
| `Strings.DigitsAreOnly` | internal/export/export.go:206 | There is only one such text for a number. |
| `Keybind.ReadParts` | internal/keybind/parser.go:34-60 | The loop over parts accepts exactly distinct modifiers before the last part, and otherwise reports the first part that is wrong, and how. |
| `Keybind.Parse` | internal/keybind/parser.go:24-70 | Accepts exactly distinct modifiers followed by one plain key; each error is the one the string has: no separator, no key, or the first wrong part. |
| `Keybind.ErrorsAreExact` | internal/keybind/parser.go:24-70 | A string with an error is rejected, and no string has two errors. |
| `Keybind.FormatShortcut` | internal/keybind/parser.go:74-87 | Builds the canonical form. |
| `Keybind.FormatSpells` | internal/keybind/parser.go:72-87 | The order is CmdOrCtrl, Alt, Shift, key. |
| `Keybind.Normalize` | internal/keybind/parser.go:90-96 | The canonical form of exactly the accepted strings. |
| `Keybind.ParsedIsProducible` | internal/keybind/parser.go:24-70 | Parse only produces shortcuts with a modifier and a plain key. |
| `Keybind.ParseFormat` | internal/keybind/parser.go:74-87 | Parse(Format(p)) = p for exactly the values that Parse can produce. |
| `Keybind.NormalizeIdempotent` | internal/keybind/parser.go:90-96 | A normal form is its own normal form and means the same. |
| `Keybind.NormalFormsAgree` | internal/keybind/parser.go:90-96 | Two accepted strings normalise equally exactly when they have the same modifiers and the same key. |
| `Keybind.DetectConflict` | internal/keybind/resolver.go:42-63 | Reports a conflict exactly when another action is bound to the same shortcut, and reports the first such action. |
| `CsvRows.ExportRows` | internal/export/export.go:195-217 | The header and one row per record, in order. |
| `CsvRows.CellsUnderNames` | internal/export/export.go:199-213 | Every cell stands under the name of its field. |
| `CsvRows.ImportRows` | internal/importfile/csv.go:33-67 | Succeeds exactly when every row can be read, and otherwise names the first bad row and why. |
| `CsvRows.ReadsExactly` | internal/importfile/csv.go:36-42 | A row is read exactly when it has nine columns or more and its third is a number of 64 bits. |
| `CsvRows.MoreColumns` | internal/importfile/csv.go:36 | Columns beyond the ninth are ignored. |
| `CsvRows.RowRoundTrip` | internal/importfile/csv.go:43-64 | Reading a written row gives the record back exactly when it has an authentication method, an int64 port and tags that survive joining. |
| `CsvRows.RowAlwaysReads` | internal/importfile/csv.go:43-53 | What comes back otherwise. |
| `CsvRows.RoundTrip` | internal/importfile/csv.go:33-67 | Export and import return every record unchanged and in order exactly when all records survive. |
| `CsvRows.ExportThenImport` | internal/export/export.go:195-217 | Running the two loops one after the other returns the records unchanged exactly when all of them survive. |
| `Transfer.Reader.constructor` | internal/session/transfer.go:226-230 | A reader at the start of its data. |
| `Transfer.Reader.Read` | internal/session/transfer.go:254 | The contract of io.Reader: what the script answers, the next bytes, and EOF only at the end. |
| `Transfer.Writer.constructor` | internal/session/transfer.go:232-235 | An empty destination. |
| `Transfer.Writer.Write` | internal/session/transfer.go:256 | The contract of io.Writer: stores what the script answers; a short write fails, and a whole one may. |
| `Transfer.Writer.Close` | internal/session/transfer.go:281 | Closed, whatever the outcome. |
| `Transfer.Writer.CleanUp` | internal/session/transfer.go:190-213 | The best-effort cleanup of the destination, which removes it if it works. |
| `Transfer.Writer.Abandon` | internal/session/transfer.go:265-267 | What every failure inside the loop does: close and clean up. |
| `Transfer.CopyChunk` | internal/session/transfer.go:254-257 | One read and, if it brought bytes, one write: the destination grows by what the writer answers. |
| `Transfer.TransferBetweenChannels` | internal/session/transfer.go:243-284 | For all answers of reader, writer and context, exactly which outcome it is: a failing write ends it; otherwise the first turn that is cancelled or meets an error or the end does, and the close decides between success and failure. Success: the destination is the whole source and written its length. Any failure leaves a prefix that is handed to the cleanup. The reported counts are the running totals of what is stored, and they increase strictly exactly when no write after the first is answered with zero bytes. |
| `Transfer.ReportsIncreaseExactly` | internal/session/transfer.go:256-270 | The running totals increase strictly exactly when no write after the first, with all before it whole, is answered with zero bytes. |
| `Transfer.HonestWriter` | internal/session/transfer.go:256-270 | With a writer that always stores something they increase strictly. |
| `Transfer.RepeatedCount` | internal/session/transfer.go:256-270 | The input that repeats a count: two bytes, a buffer of one, a second write that stores nothing: counts 1, 1. |
| `RingBuffer.LastOfLast` | frontend/src/store/debugStore.ts:18-28 | Keeping the last n after every append is keeping the last n of everything. |
| `RingBuffer.PushStores` | frontend/src/store/debugStore.ts:18-22 | One push turns the last n entries of the log into the last n of the longer log, filling or wrapping. |
| `RingBuffer.Ring.constructor` | frontend/src/store/debugStore.ts:13-16 | An empty ring. |
| `RingBuffer.Ring.Push` | frontend/src/store/debugStore.ts:18-22 | The log grows by one entry. |
| `RingBuffer.Ring.PushBatch` | frontend/src/store/debugStore.ts:24-28 | The log grows by all entries in order. |
| `RingBuffer.Ring.GetAll` | frontend/src/store/debugStore.ts:30-36 | Always the last min(capacity, pushed since clear) entries in push order. |
| `RingBuffer.Ring.Clear` | frontend/src/store/debugStore.ts:38-41 | The log is empty although the cells keep stale entries. |
| `RingBuffer.Ring.Size` | frontend/src/store/debugStore.ts:43-45 | The length of what GetAll returns. |

## Left out

- SSH, SFTP, PTY and TCP, dialogs and events: their outcomes are parameters.
- Argon2id, AES-GCM, Touch ID and the keychain library: ideal functions and maps; the keychain is available and Touch ID is off. The keychain-unavailable fallback to a database column is not part of this model.
- The idle timer of the lock state: an expiry is a LockVault step at any moment; a concurrent wipe of a buffer that GetKey has handed out, and unlocking after a shutdown, are not part of this model.
- The credentials cached for reconnecting, and the in-place wiping of strings in `internal/session/secrets.go`.
- The swap of clients and contexts inside a reconnect attempt, the reopening of channels, and forwards added by others while a reconnect restores its own.
- A restart of the program, which reads the enabled flag from the saved configuration.
- SessionManager.Manager.Register: asks that the next id is unused, which every reachable state satisfies; counters stand for the uniqueness of uuids.
- SessionManager.Manager.EnsureLocalConnection: asks that a local connection once made is still registered, which every reachable state satisfies because teardown spares it.
- SessionManager.Manager.GiveUp: setting the failed state and closing the channel are two steps of the machine; the method is the first.
- SessionRuns.InvStep: asks that a retry is checked only when nobody runs an outage of the connection; RetrySafeExactlyWhenIdle shows that nothing weaker would do.
- SessionRuns.InvRun: the same, for every retry of the run.
- SessionSafety.CoreStep: the same.
- SessionManager.Manager.TearDown: the maps; closing the port forwards, the context and the clients of the connection is not part of the method. PortForwards.Table.CloseAll is the first of these.
- VaultSpec.SetupKeepsSecrets: asks for an empty secrets table, which SetupVault does not check; SetupSecret and SetupRowsOpenExactly cover any table.
- Vault.Vault.SetupVault: that the vault is valid and its secrets are unchanged afterwards is claimed for an empty secrets table; for any other the disk it leaves is given, and SetupSecret and SetupRowsOpenExactly speak of that disk.
- Vault.Vault.DisableVault: asks that rows belong to hosts and that no secret is empty, which every call keeps; which keys the rows are under is left open.
- Vault.Vault.ChangeVaultPassword: that the vault is valid afterwards is claimed when it was valid and on; everything else for any table.
- VaultRuns.RunRefinesPlainMap: setup and rotation take part as successful calls; a stopped rotation is stated by RotationStopped, a failed setup by the contract of SetupVault.
- WorkspaceRuns.PatchConnectionExact: asks that panes with one channel id are on one connection, as channel ids are uuids.
- PortForwards.Table.Restore: the entries are bound again in no particular order, as ranging over a map has none.
- RegistryHistory.ListTagsIsHistory: rowids are unbounded; SQLite picks random ones after 2^63 - 1.
- RegistrySync.SyncReplaces: covers the columns that a bundle carries; a sync also resets the other columns of a synced host to their defaults. Foreign-key actions are off in this database and not modelled.
- CsvRows.RoundTrip: rows of cells; quoting and line ends follow section 2 of RFC 4180 and belong to the CSV library.
- Transfer.TransferBetweenChannels: the reader and the writer are different files and keep the contracts of io.Reader and io.Writer.
- The HTTP handlers and the registry client between PushBundle and the registry's store; JSON is taken to be faithful except for omitted empty tag lists.
- Termius CSV, JSON and ssh-config export and import, alias making, `Resolve` and `FormatForDisplay` of shortcuts, host and profile CRUD, configuration, logging, and all React components: easy members or plumbing.
