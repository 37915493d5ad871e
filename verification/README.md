# Verified model of mihomo-tui

mihomo-tui is a terminal front end and a daemon for the mihomo proxy kernel. This project models its state
machines and its text and list transformations in Dafny and proves what they promise, for all inputs and all
runs. `dafny verify dfyconfig.toml` checks everything.

## What is modelled

**TUN routing** (`TunHost`, `TunRouting`, `TunInvariant`, `TunCleanupProofs`, `TunSetupProofs`, `LegacyIptables`,
`TunSafety`, `TunProgress`, `TunOutcome`, `TunGuards`, `TunChains`, `TunBackendSwitch`, `TunController`,
`MarkRules`). The kernel is a set of routes, a set of policy rules, an ordered nft ruleset and ordered mangle chains;
the disk holds the state record. Every command meets a fate: it is carried out, it fails with or without effect, or
the program dies before or after it. A dead program does nothing more, so the states in which a routine can end
include every state in which it can crash. `Strip` removes everything that is the project's; "foreign objects
untouched" is equality of `Strip`. Hypotheses: `nft -f` is atomic; nobody else uses table 100, preferences 100 and
200, the table `mihomo_tui` or the chains `MIHOMO_TUI_*`; the detected firewall backend is the recorded one. Without
the last one see `TunBackendSwitch`; without the last two, and for records that say anything, `TunGuards` and
`TunChains` prove what the ownership checks alone guarantee. Marks are sets of bit positions below 32.

**Configuration** (`ConfigModel`, `ConfigLoad`, `ConfigStore`, `ConfigClients`, `MemberSlices`, `Pools`, `PoolEdits`,
`Failover`, `ConfigHistory`, `RuntimeSources`, `ProviderNames`). One record type carries the fields these parts read
or write; the settings none of them reads travel in `rest` together with the verdict of the remaining checks of
`Validate` (the format check of the controller address is part of that verdict). Handlers run on a private copy
(`Draft` classes, their fields updated in place); the store commits the result. Each imperative method is proved
equal to a specification function, and the theorems are about those functions; beside them lemmas say by value what
each function leaves of every field. Remote clients, in-daemon edits, failed writes and restarts interleave step by
step. The handlers keep a stronger invariant than validity: a pool with members has an active one.

**Reconcile queue** (`ReconcileQueue`), **kernel process** (`KernelProcess`): state machines over atomic steps. The
stages of one reconcile (mihomotui/reconcile.go:99-141) are a helper beside the queue, `ReconcileQueue.RunReconcile`.

**Shell files** (`Text`, `ShellBlock`, `ShellBlockProofs`): texts are character sequences; lines, trimming and
substring search are defined from scratch.

**Proxy page** (`ProxyView`, `ProxyViewProofs`): merging, paging, sorting.

## Where the code and its own comments part

- mihomotui/config_store.go:39 says that when flushing fails the file can only hold the old value. It can hold the
  next version: permissions are tightened after the rename (mihomotui/config.go:488-491). `ConfigStore.DiskAgreesIff`
  gives the exact condition; after a restart the change whose caller was told "not saved" is in force.
- mihomotui/ui/proxy.go:497-498 announces timed out, untested, under test; the comparison puts nodes under test
  before untested ones (`ProxyViewProofs.StatesInOrder`).
- mihomotui/system_proxy.go:354-356 means to spare the user's text after a start marker without an end. Insertion cuts
  it off (mihomotui/system_proxy.go:412-422), even when a line only mentions the marker.
  `ShellBlockProofs.UpsertKeepsIff` gives the exact condition for a loss.
- The version of the configuration does not change when the loader repairs the file at a start. A client that fetched
  before that start is then accepted on a configuration it never saw (`ConfigStore.AcceptedAfterRestartIff`).
- The one-time migration (mihomotui/config.go:397-418) is done again after a submission that has subscriptions without
  its mark. `ConfigHistory.RearmedIff` gives the exact condition.
- An empty controller address is valid (mihomotui/config_validate.go:65-74) but does not survive a restart: the loader
  replaces it. `ConfigLoad.RoundTrip` lists every such field.
- The last case of the index adjustment in mihomotui/config.go:615-616 and the last explanation in
  mihomotui/subscription_pool.go:244-245 cannot be reached; both are proved unreachable.
- The initial cleanup of a set-up works on the detected backend whatever the record says; `TunBackendSwitch` proves
  when that loses track of firewall objects.
- The exit goroutine marks the process stopped before it cleans up routing (mihomotui/mihomo_process.go:168-187). A
  start in between loses its routing. `KernelProcess.RoutingStays` gives the exact condition: routing is safe if and
  only if no TUN process is spawned while a cleanup is owed.
- mihomotui/mihomo_process.go:189-202 promises that an exit inside the settle window is a failed start. The start hears
  of the exit only through a notice that is sent after routing cleanup and can be taken by one call.
  `KernelProcess.DeathReportForced` and `KernelProcess.StartedThoughDeadExactly` give the exact condition: the start
  is reported successful if and only if the timer fires while the notice is not yet sent or a stop has taken it.
  (Timer and notice at the very same moment: the choice is the scheduler's, and is not counted against the program.)

## Model

| member | source | states |
|---|---|---|
| TunSafety.WriteAheadAlways | mihomotui/tun_routing_linux.go:987-1124 | over any run of set-ups, cleanups and reboots, every command free to fail with or without effect and the program free to die between any two commands: whatever project route, rule or firewall object is in the kernel, a record describing it is on disk; routes, rules, tables and chains that are not the project's stay exactly as they were |
| TunSafety.SetupSafe | mihomotui/tun_routing_linux.go:1066-1124 | one set-up, however it ends, keeps the write-ahead invariant and everything foreign |
| TunSafety.CleanupSafe | mihomotui/tun_routing_linux.go:987-1018 | one cleanup, however it ends, keeps the invariant and everything foreign; success means no project object and no record are left |
| TunSafety.CleanupLockedSafe | mihomotui/tun_routing_linux.go:1020-1033 | the same through backend detection and its guard; that it cleans is TunOutcome.StopCleans |
| TunSafety.Recovery | mihomotui/tun_routing_linux.go:987-1018 | from any crash point a cleanup whose commands only succeed or report not-found succeeds and leaves exactly the machine without the project |
| TunSafety.RecoveryTwice | mihomotui/tun_routing_linux.go:987-1018 | a second cleanup changes nothing |
| TunSafety.RunThenRecover | mihomotui/tun_routing_linux.go:987-1124 | a clean machine that went through any sequence of interrupted set-ups and cleanups is given back unchanged by one undisturbed cleanup |
| TunSafety.SetupAllOrNothing | mihomotui/tun_routing_linux.go:1066-1124 | a rejected preflight issues no command; success means route, rules, firewall and active record are in place; a failure after the preparing record with a working rollback leaves the machine as the initial cleanup had left it; what is in place then is spelled out in TunOutcome.SetupInstalls |
| TunSafety.InstallResult | mihomotui/tun_routing_linux.go:1066-1124 | what "installed" amounts to: the recorded route, all five rules, and for nft exactly the chains and rules of the script, for iptables the project chains and one jump per hook |
| TunOutcome.SetupInstalls | mihomotui/tun_routing_linux.go:1066-1124 | success in terms of the preflight: root, a backend and no foreign TUN; the default route in table 100 by the gateway and on the interface found; the five policy rules by value; the prerouting chain of the chosen firewall marking NEW packets of that interface, restored in all three chains, and no other rule of the project; a record with exactly these values, marked active |
| TunOutcome.SetupRecords | mihomotui/tun_routing_linux.go:180-200 | however set-up ends or dies, the state file is the old one, gone, or has exactly the preflight's values, and only in the last case is there a route, rule, table or chain that was not there before |
| TunOutcome.VerificationDecides | mihomotui/tun_routing_linux.go:1046-1064 | none of the three (with iptables five) verification commands may fail |
| TunOutcome.StopCleans | mihomotui/tun_routing_linux.go:1020-1033 | from every state of the protocol an undisturbed stop with the recorded firewall found succeeds and leaves exactly the machine without the project |
| TunOutcome.StopRefusedIff | mihomotui/tun_routing_linux.go:1020-1033 | on any machine: refused and untouched, whatever the commands do, if the record is unreadable, no firewall is found, or nft made the record and iptables is found; undisturbed, in every other case it is one cleanup under the firewall found |
| TunOutcome.EveryCommandSent | mihomotui/tun_routing_linux.go:987-1018 | the command loop of cleanup: every command is sent on what those before it left, and success means all were tolerated |
| TunOutcome.OtherDeletionsDone | mihomotui/tun_routing_linux.go:987-1018 | when one deletion of a route or rule fails, with or without effect, all the others are carried out and the cleanup reports an error |
| TunOutcome.UnreadableStillCleansFirewall | mihomotui/tun_routing_linux.go:987-1018 | a record that cannot be read keeps routes, rules and itself, but the firewall is cleaned all the same |
| TunOutcome.OtherHooksCleared | mihomotui/tun_routing_linux.go:913-951 | when the first deletion of iptables cleanup fails, the other hooks are cleared and their chains deleted all the same |
| TunOutcome.UnprovenStillMigrates | mihomotui/tun_routing_linux.go:953-974 | a table that is not proven makes the cleanup fail, but stray chains and jumps are looked after all the same |
| TunOutcome.EveryStrayTried | mihomotui/tun_routing_linux.go:776-828 | the removal of stray chains goes on past one that cannot be removed |
| TunOutcome.StraysFlushedAnyway | mihomotui/tun_routing_linux.go:776-828 | when the first stray jump cannot be deleted, the stray chains are emptied all the same |
| TunOutcome.OtherTableStays | mihomotui/tun_routing_linux.go:202-204 | a record not made by nft, or naming another table, proves nothing about the table |
| TunOutcome.RecordNames | mihomotui/tun_routing_linux.go:382-414 | what a record names, by value; a record without numbers stands for table 2022 at preferences 10010 and 10020, with three private prefixes and no mask |
| TunBackendSwitch.BackendSwitch | mihomotui/tun_routing_linux.go:987-1018 | when the detected backend is not the recorded one, whatever the commands do and wherever the program dies: the disk still covers the kernel if and only if the record is still there or the recorded backend had no object in the kernel |
| TunBackendSwitch.UndisturbedSwitch | mihomotui/tun_routing_linux.go:987-1018 | undisturbed, such a cleanup succeeds and deletes the record, so the recorded backend's objects decide alone |
| TunBackendSwitch.StopGuardsNft | mihomotui/tun_routing_linux.go:1025-1032 | stopping refuses to touch an nft record without nft |
| TunBackendSwitch.OrphanedTable | mihomotui/tun_routing_linux.go:1070-1085 | a machine on which the initial cleanup of a set-up loses track of the project table |
| TunCleanupProofs.RemoveObjectsShrinks | mihomotui/tun_routing_linux.go:987-1018 | cleanup only ever takes project objects, and takes all of them when it reports success |
| TunCleanupProofs.RemoveObjectsReliable | mihomotui/tun_routing_linux.go:987-1018 | with well-behaved commands no step of the cleanup reports an error |
| TunCleanupProofs.CleanupPolicyShrinks | mihomotui/tun_routing_linux.go:389-414 | under the invariant, policy cleanup keeps it and everything foreign; success means no project route or rule is left |
| TunCleanupProofs.CleanupNftTableShrinks | mihomotui/tun_routing_linux.go:637-659 | under the invariant, removing the table keeps it and everything foreign; success means no object of the table is left |
| TunCleanupProofs.MigrateStraysShrinks | mihomotui/tun_routing_linux.go:776-828 | migration removes project chains and jumps from foreign tables and nothing else |
| TunCleanupProofs.CleanupIptablesShrinks | mihomotui/tun_routing_linux.go:913-951 | iptables cleanup removes the project's jumps and chains and keeps every foreign rule |
| TunGuards.CleanupPolicyOnlyNamed | mihomotui/tun_routing_linux.go:382-414 | on any machine and whatever the commands do, policy cleanup takes only the one route and the rules the record names, an undisturbed one takes exactly those, and a record with a part missing is refused before any command |
| TunGuards.UnprovenTableStays | mihomotui/tun_routing_linux.go:637-659 | a table without the recorded comment is left alone, whatever the commands do, and the cleanup reports an error |
| TunGuards.TableDeletedIffProven | mihomotui/tun_routing_linux.go:637-659 | an undisturbed cleanup takes the whole table and nothing else if and only if its comment, or an old record without an instance, proves it; otherwise it is refused and nothing changes |
| TunGuards.CleanupNftOnlyOwned | mihomotui/tun_routing_linux.go:953-974 | on any machine, every nft object that goes is in the proven project table, or is a project chain, a rule in one, or a rule under the handle of a jump to one; none is new |
| TunGuards.StrayMeans | mihomotui/tun_routing_linux.go:725-762 | with handles unique in a chain, only the jump itself has its handle |
| TunGuards.CleanupIptablesOnlyOwn | mihomotui/tun_routing_linux.go:913-951 | on any machine, iptables cleanup changes the mangle table only, and there no rule but the main jumps and no chain but the project's |
| TunGuards.OccupiedSlotStops | mihomotui/tun_routing_linux.go:1083-1102 | a slot still taken after the initial cleanup: no record saved, nothing added |
| TunGuards.ForeignSlotStops | mihomotui/tun_routing_linux.go:571-594 | somebody else's route in the routing table or rule at the preferences stops set-up on any machine; it stays, and no route or rule is added |
| TunProgress.SetupSucceedsIff | mihomotui/tun_routing_linux.go:1066-1124 | from every state the protocol can be in, a set-up whose commands run to their own outcome succeeds if and only if the preflight accepts and, with iptables, the three hooks exist |
| LegacyIptables.DeleteUntilMissingResult | mihomotui/tun_routing_linux.go:913-951 | the delete-until-missing loop ends (fewer matching jumps each round); a clean end leaves the hook without the jump and the other rules in order |
| TunChains.ReferencedChainStays | mihomotui/tun_routing_linux.go:913-951 | on any machine and whatever the commands do, a project chain that somebody else's rule jumps to is not deleted, and the cleanup reports an error |
| TunChains.ChainStaysIffHeld | mihomotui/tun_routing_linux.go:913-951 | with commands that run to their own outcome, a project chain is still there after the cleanup if and only if a rule that is no main jump, outside the project's chains or in one flushed later, jumps to it; success is reported if and only if no chain is held so |
| LegacyIptables.SetupIptablesResult | mihomotui/tun_routing_linux.go:892-911 | set-up leaves exactly one jump per hook, at its end, and the project chains with exactly their rules |
| LegacyIptables.SetupIgnoresMapOrder | mihomotui/tun_routing_linux.go:892-911 | the result does not depend on the order in which the rule map is walked |
| LegacyIptables.SetupIdempotent | mihomotui/tun_routing_linux.go:869-911 | setting up again changes nothing; one jump per hook |
| TunController.Controller.Send | mihomotui/tun_routing_linux.go:267-326 | one command, with or without effect, or the end of the program (state and result equal the specification function, for all outcomes of all commands) |
| TunController.Controller.RunAllCommands | mihomotui/tun_routing_linux.go:987-1018 | the loop that goes on past errors and remembers them (state and result equal the specification function, for all outcomes of all commands) |
| TunController.Controller.RunUntilFailure | mihomotui/tun_routing_linux.go:626-635 | the loop that stops at the first error (state and result equal the specification function, for all outcomes of all commands) |
| TunController.Controller.RemovePolicy | mihomotui/tun_routing_linux.go:389-414 | policy cleanup from the loaded record equals its specification in every outcome (state and result equal the specification function, for all outcomes of all commands) |
| TunController.Controller.RemoveNftTable | mihomotui/tun_routing_linux.go:637-659 | ownership check, deletion and migration equal their specification (state and result equal the specification function, for all outcomes of all commands) |
| TunController.Controller.MigrateStrayChains | mihomotui/tun_routing_linux.go:776-828 | rules first, then flush and delete, over every stray chain (state and result equal the specification function, for all outcomes of all commands) |
| TunController.Controller.DeleteEvery | mihomotui/tun_routing_linux.go:913-951 | deleting a jump until it is missing (state and result equal the specification function, for all outcomes of all commands) |
| TunController.Controller.RemoveIptables | mihomotui/tun_routing_linux.go:913-951 | jumps of all hooks, then the chains (state and result equal the specification function, for all outcomes of all commands) |
| TunController.Controller.RemoveFirewall | mihomotui/tun_routing_linux.go:953-974 | the detected backend decides (state and result equal the specification function, for all outcomes of all commands) |
| TunController.Controller.CleanupWithBackend | mihomotui/tun_routing_linux.go:987-1018 | the whole cleanup, errors accumulated, the record last (state and result equal the specification function, for all outcomes of all commands) |
| TunController.Controller.Stop | mihomotui/tun_routing_linux.go:1020-1033 | the record is read, the guard decides, then the cleanup (state and result equal the specification function, for all outcomes of all commands) |
| TunController.Controller.EnsureRoute | mihomotui/tun_routing_linux.go:336-357 | the route is added only if it is not listed (state and result equal the specification function, for all outcomes of all commands) |
| TunController.Controller.AddPolicyRules | mihomotui/tun_routing_linux.go:359-379 | existing rules are no error (state and result equal the specification function, for all outcomes of all commands) |
| TunController.Controller.EnsureHookJump | mihomotui/tun_routing_linux.go:869-890 | delete every jump, then append one (state and result equal the specification function, for all outcomes of all commands) |
| TunController.Controller.InstallIptables | mihomotui/tun_routing_linux.go:892-911 | chains, jumps, rules (state and result equal the specification function, for all outcomes of all commands) |
| TunController.Controller.InstallFirewall | mihomotui/tun_routing_linux.go:976-985 | script or iptables (state and result equal the specification function, for all outcomes of all commands) |
| TunController.Controller.InstallRecorded | mihomotui/tun_routing_linux.go:1066-1124 | route, rules, firewall, verification, active record (state and result equal the specification function, for all outcomes of all commands) |
| TunController.Controller.SetupRouting | mihomotui/tun_routing_linux.go:1066-1124 | preflight, initial cleanup, free slots, preparing record, installation, rollback (state and result equal the specification function, for all outcomes of all commands) |
| MarkRules.InstalledBodies | mihomotui/tun_routing_linux.go:603-624 | the packet rules analysed here are those both installers write |
| MarkRules.PassEffect | mihomotui/tun_routing_linux.go:603-624 | what one packet's way through the hooks does to each bit of both marks |
| MarkRules.OnlyProjectBit | mihomotui/tun_routing_linux.go:603-624 | for every packet sequence and all 32-bit marks only bit 0x100 changes |
| MarkRules.ConnectionBit | mihomotui/tun_routing_linux.go:603-624 | the connection carries the bit exactly when it did before or a NEW packet came in on the physical interface |
| MarkRules.SameConnectionMark | mihomotui/tun_routing_linux.go:842-856 | both backends keep the same connection mark |
| MarkRules.BackendsAgree | mihomotui/tun_routing_linux.go:842-856 | both backends give a packet the same mark if and only if it did not arrive with the bit set on a tracked connection without it |
| MarkRules.RepliesMarked | mihomotui/tun_routing_linux.go:603-624 | every later tracked packet of a connection that came in physically leaves with the bit |
| ConfigModel.Validate | mihomotui/config_validate.go:37-296 | reports no problem exactly for configurations that are valid by a definition without loops or tables |
| ConfigModel.ValidateSubscriptions | mihomotui/config_validate.go:115-146 | no problem exactly when names and identifiers are present and unique and every field is allowed |
| ConfigModel.ValidatePools | mihomotui/config_validate.go:148-186 | no problem exactly when pools are well formed, with distinct identifiers, and no subscription is in two of them |
| ConfigModel.ValidateMembers | mihomotui/config_validate.go:165-180 | the pass over one pool's members and the growing owner table |
| ConfigModel.ValidateRules | mihomotui/config_validate.go:212-264 | no problem exactly for a list numbered from zero that ends in its one enabled catch-all rule |
| ConfigLoad.LoadConfig | mihomotui/config.go:385-457 | the loader equals its specification, field by field |
| ConfigLoad.Migrate | mihomotui/config.go:397-415 | the migration loop equals its specification |
| ConfigLoad.LoadFlushLoad | mihomotui/config.go:385-495 | load after flush after load is load |
| ConfigLoad.RoundTrip | mihomotui/config.go:385-495 | writing and reading back gives the same configuration if and only if the loader has nothing to repair in it |
| ConfigLoad.LoadedIsSettled | mihomotui/config.go:385-457 | there is nothing to repair in what the loader returns |
| ConfigLoad.MigrationKeepsOrderAndActive | mihomotui/config.go:397-415 | the migrated pool lists all subscriptions in order, keeps the active one and satisfies the pool invariant |
| ConfigLoad.LoadKeepsSound | mihomotui/config.go:385-457 | reading back a valid configuration gives a valid one, and keeps the pool invariant |
| ConfigLoad.LoadExact | mihomotui/config.go:385-428 | what reading makes of subscriptions, pools, mark and index |
| ConfigLoad.LoadedLocal | mihomotui/config.go:430-448 | which of the machine's own settings get which default |
| ConfigLoad.LoadedChoices | mihomotui/config.go:434-457 | which choices get which default |
| ConfigLoad.LoadedRules | mihomotui/builtin_rules.go:56-65 | old custom rules are kept and go in front unless there are rules in front; new rules are left alone |
| ConfigLoad.LogDirFollows | mihomotui/config.go:448-491 | a default log directory follows the home directory, any other stays |
| ConfigStore.Daemon.CommitConfig | mihomotui/config_store.go:34-46 | validate, write, replace; what memory and file hold after each way it can end |
| ConfigStore.Daemon.UpdateGlobalConfig | mihomotui/config_store.go:52-63 | a refusing or rejected edit changes nothing |
| ConfigStore.Daemon.ReplaceGlobalConfig | mihomotui/config_store.go:76-93 | version check, kept secret, kept paths |
| ConfigStore.Daemon.HandlePost | mihomotui/daemon_handlers_config.go:21-50 | validation before the version check |
| ConfigStore.CommitStep | mihomotui/config_store.go:34-46 | only success changes memory, and raises the version by exactly one |
| ConfigStore.DiskAgreesIff | mihomotui/config.go:477-491 | file and memory stay in agreement if and only if the commit did not fail after the rename; then the file is exactly one version ahead |
| ConfigStore.NoLostUpdates | mihomotui/config_store.go:34-93 | over every interleaving of in-daemon edits, fetching and submitting clients and restarts: memory is the committed changes one after another, the version counts them, the file, once written, is memory or one change ahead |
| ConfigStore.RestartFaithfulIff | mihomotui/config.go:385-495 | the condition on restarts is exact: what was saved comes back if and only if the loader has nothing to repair in it |
| ConfigStore.NoLostUpdatesIff | mihomotui/config_store.go:34-93 | and for whole runs: no update is lost at any point if and only if no restart has anything to repair |
| ConfigStore.AcceptedAfterRestartIff | mihomotui/config_store.go:76-93 | a submission not turned away after a restart was computed from memory as it was before, and saw what it replaces if and only if the loader repaired nothing; else the repair is lost with it |
| ConfigStore.AcceptedSawLatest | mihomotui/config_store.go:76-93 | an accepted submission was computed from the very configuration it replaces |
| ConfigStore.EachSuccessOnce | mihomotui/ipc_client.go:287-327 | a client told "committed" has its change in the history exactly once; one told anything but "not saved" never |
| ConfigStore.UndisturbedSubmit | mihomotui/ipc_client.go:287-327 | a client nobody overtakes is never turned away for its version; a change that alters nothing is not submitted |
| ConfigStore.Attempt | mihomotui/ipc_client.go:296-325 | one round of fetch, credentials, change, submission, with arbitrary commits by others in between |
| ConfigStore.MutateServerConfig | mihomotui/ipc_client.go:287-327 | two rounds at most, the second only after a conflict |
| ConfigStore.MutateMeans | mihomotui/ipc_client.go:287-327 | success: computed from what it replaced; final conflict: others committed in both rounds; anything else: memory is as the others left it; when it submits and what it achieves is in ConfigClients |
| ConfigStore.PostMeans | mihomotui/ipc_client.go:215-234 | configuration and credentials read at different versions are never submitted with success |
| ConfigClients.ReplaceExact | mihomotui/config_store.go:76-93 | when a submission is a conflict, rejected, not saved, committed; a committed one has the request's settings, pools, subscriptions and controller, its secret if it has one, and with root the daemon's own three paths, field by field |
| ConfigClients.PostExact | mihomotui/daemon_handlers_config.go:21-50 | the same for the request handler, where an invalid submission is rejected whatever its version |
| ConfigClients.RootKeepsPaths | mihomotui/config_store.go:87-91 | over every run of fetches, submissions, edits that do not choose a kernel, failed writes and restarts a root daemon keeps its configuration path, kernel and log directory |
| ConfigClients.MaskedExact | mihomotui/daemon_handlers_config.go:11-16 | the ordinary answer leaves out the secret and nothing else |
| ConfigClients.RoundExact | mihomotui/ipc_client.go:296-325 | one round: it reads the first answer with the second one's credentials; "nothing to do" if and only if the change leaves that as it is, and then no request is sent; otherwise the changed one is submitted |
| ConfigClients.OvertakenIff | mihomotui/ipc_client.go:310-325 | a round meets a conflict if and only if it has a valid change and others committed between its first and last request |
| ConfigClients.UndisturbedMutate | mihomotui/ipc_client.go:287-327 | an undisturbed client: "nothing to do" if and only if the change alters nothing; an invalid result is rejected; otherwise the change is in memory, field by field |
| ConfigClients.SecondRoundAchieves | mihomotui/ipc_client.go:287-327 | overtaken once and then left alone, it does the same to what the others left |
| ConfigClients.NoChangeIff | mihomotui/ipc_client.go:287-327 | over all interference: "nothing to do" if and only if the change leaves what the deciding round read |
| MemberSlices.FilterInPlace | mihomotui/config.go:583-589 | filtering a slice over its own backing array keeps exactly the wanted members in order |
| MemberSlices.Clone | mihomotui/config_store.go:14-30 | the copy has the same members in backing arrays of its own |
| MemberSlices.EditOnClone | mihomotui/config_store.go:52-63 | an edit on a clone, refused or not, changes nothing that existed before |
| Pools.Draft.AssignPoolMembers | mihomotui/daemon_handlers_pool.go:11-41 | moving members: other pools lose them, a pool emptied of its active member is disabled (equals the specification function) |
| Pools.Draft.Create | mihomotui/daemon_handlers_pool.go:55-78 | name and mode checks, first member as default active one, default interval (equals the specification function) |
| Pools.Draft.Edit | mihomotui/daemon_handlers_pool.go:105-135 | name taken by another pool is refused; identifier, history and interval kept (equals the specification function) |
| Pools.Draft.Delete | mihomotui/daemon_handlers_pool.go:147-154 | one pool out, the others in order (equals the specification function) |
| Pools.Draft.Remove | mihomotui/config.go:570-619 | membership, active member, disabling, list and legacy index (equals the specification function) |
| Pools.CreateValidIff | mihomotui/daemon_handlers_pool.go:55-78 | a created pool passes validation if and only if the request fits, its identifier is new and no other enabled pool is left without members and without an active one |
| Pools.CreateSound | mihomotui/daemon_handlers_pool.go:55-78 | under the invariant the request alone decides, and the invariant holds again |
| Pools.UpdateValidIff | mihomotui/daemon_handlers_pool.go:105-135 | the same for editing |
| Pools.UpdateSound | mihomotui/daemon_handlers_pool.go:105-135 | the same for editing |
| Pools.DeleteSound | mihomotui/daemon_handlers_pool.go:147-154 | deleting a pool keeps validity and the invariant |
| Pools.ValidIsNotEnough | mihomotui/daemon_handlers_pool.go:28-39 | a valid configuration in which a fitting request is rejected: the invariant must be stronger than validity |
| Pools.AssignedValid | mihomotui/daemon_handlers_pool.go:11-41 | moving members yields valid pools if and only if the target is good and no other pool is stranded |
| Pools.MoveConserves | mihomotui/daemon_handlers_pool.go:11-41 | members are moved, neither copied nor dropped |
| Pools.RemoveKeepsValid | mihomotui/config.go:570-619 | deleting a subscription never produces a configuration that is rejected, and keeps the invariant |
| Pools.RemoveExact | mihomotui/config.go:579-605 | what deletion leaves of each pool |
| Pools.ActiveFollows | mihomotui/config.go:603-617 | the legacy index stays on the same subscription unless that one is deleted |
| PoolEdits.AssignedExact | mihomotui/daemon_handlers_pool.go:11-41 | every other pool keeps the members not moved, in their order; its active member changes only if it was moved, to the first one left, or to none, and then it is disabled, marked and stamped; everything else, and the target, stays |
| PoolEdits.CreateExact | mihomotui/daemon_handlers_pool.go:55-78 | what is refused, every field of the new pool, and the other pools as above |
| PoolEdits.UpdateExact | mihomotui/daemon_handlers_pool.go:105-135 | what is refused, which fields of the first pool of that identifier or name change, and the other pools as above |
| PoolEdits.DeleteExact | mihomotui/daemon_handlers_pool.go:147-154 | the first pool of that identifier or name goes, the others stay in order |
| PoolEdits.UnknownKey | mihomotui/daemon_handlers_pool.go:105-154 | editing and deleting are refused when no pool has that identifier or name; deleting for no other reason |
| PoolEdits.BereftExact | mihomotui/config.go:579-605 | deleting a subscription takes it out of its pools, keeps the order, and disables, marks and stamps exactly those left empty |
| PoolEdits.RemovalExact | mihomotui/config.go:570-619 | the first subscription of the name goes, the others stay in order; the legacy index moves to the next, else to the last, when that one was active |
| PoolEdits.UnknownName | mihomotui/config.go:570-578 | deleting a subscription is refused exactly when none has that name |
| Failover.Draft.Refresh | mihomotui/daemon_handlers_subscription.go:188-218 | one refresh: count up, or reset with the new cache; a cache that cannot be written leaves the count |
| Failover.Draft.Candidate | mihomotui/daemon_handlers_subscription.go:356-361 | the scan stops at the first member that qualifies |
| Failover.Draft.FailOver | mihomotui/daemon_handlers_subscription.go:343-376 | the loop over pools with its shared flag equals the specification |
| Failover.FailoverExact | mihomotui/daemon_handlers_subscription.go:343-376 | the active member changes if and only if it is the failed one of an enabled failover pool with at least three failures and a member qualifies, then to the first such; merge pools, order and enabled flags stay |
| Failover.AtMostOnePool | mihomotui/daemon_handlers_subscription.go:343-376 | at most one pool changes |
| Failover.FailoverKeepsValid | mihomotui/daemon_handlers_subscription.go:343-376 | failover never produces a configuration that is rejected, and keeps the invariant |
| Failover.RefreshKeepsValid | mihomotui/daemon_handlers_subscription.go:188-218 | neither does a refresh |
| Failover.RefreshExact | mihomotui/daemon_handlers_subscription.go:188-218 | what a refresh leaves of every field: one more failure and the old cache, or none and the new cache |
| Failover.ThreeFailures | mihomotui/daemon_handlers_subscription.go:343-361 | whom failover is about and who may take over, with three failures as the bound |
| Failover.MarksExact | mihomotui/daemon_handlers_subscription.go:343-376 | what failover leaves of each pool: switched, stamped and unmarked; without a candidate marked and stamped unless an earlier pool was switched; else untouched |
| Failover.TurnsFlag | mihomotui/daemon_handlers_subscription.go:343-376 | the shared flag of the loop says whether any pool was switched |
| ConfigHistory.Draft.Import | mihomotui/daemon_handlers_subscription.go:99-139 | by name, then by address; counts reset; the migration mark is set |
| ConfigHistory.RefreshSubscription | mihomotui/daemon_handlers_subscription.go:176-233 | both commits of a refresh, with arbitrary commits by others during the download and between the two |
| ConfigHistory.DeletedDuringRefresh | mihomotui/daemon_handlers_subscription.go:188-192 | a subscription deleted during its download is refused and nothing is changed; a refusal has no other cause but a cache that cannot be written |
| ConfigHistory.RefreshEnds | mihomotui/daemon_handlers_subscription.go:176-233 | how a refresh ends; pools are touched by the failover after a failed, saved download and by nothing else |
| ConfigHistory.ImportExact | mihomotui/daemon_handlers_subscription.go:99-139 | an import goes to the first entry of the requested name, else from an address to the first of that address, else to the end; every field it writes, and the others stay |
| ConfigHistory.ByHandExact | mihomotui/daemon_handlers_subscription.go:153-170 | the entry written by hand, every field |
| ConfigHistory.PatchExact | mihomotui/daemon_handlers_subscription.go:395-443 | what a patch refuses and which fields it changes; address and fetching only of a remote subscription |
| ConfigHistory.SmallEditsExact | mihomotui/mihomo_versions.go:565 | the remaining edits of the daemon (quota details, choice of a kernel, first secret, settings none of these parts reads) touch just those fields |
| ConfigHistory.SoundAlways | mihomotui/daemon_handlers_pool.go:11-154 | the pool invariant over every run of handlers, submissions, failed writes and restarts |
| ConfigHistory.EditedSound | mihomotui/daemon_handlers_pool.go:11-154 | every accepted edit of every handler keeps the invariant |
| ConfigHistory.SubmissionSoundIff | mihomotui/daemon_handlers_config.go:21-50 | an accepted whole-configuration submission keeps the invariant if and only if it satisfies it |
| ConfigHistory.CountIsStreak | mihomotui/daemon_handlers_subscription.go:176-233 | over every run of accepted and refused edits, whole-configuration submissions, failed writes and restarts, the failure count in memory is the number of failed refreshes since the last success or import, or on top of the count a submission brought |
| ConfigHistory.MarkIsEffect | mihomotui/daemon_handlers_subscription.go:92-233 | each accepted edit moves every surviving count exactly as its kind says |
| ConfigHistory.StartBalanced | mihomotui/config.go:385-457 | a program that has just read the file of a valid configuration, repaired or not, is a start of such runs |
| ConfigHistory.SwitchNeedsStreak | mihomotui/daemon_handlers_subscription.go:341-385 | at any point of such a run a pool is switched only away from a source with three failures in a row, to one with fewer |
| ConfigHistory.ThirdFailureSwitches | mihomotui/daemon_handlers_subscription.go:176-385 | an undisturbed failed refresh switches exactly when it is at least the third in a row and a member qualifies |
| ConfigHistory.MigrationsCounted | mihomotui/config.go:397-418 | over any run of edits, submissions, failed writes and restarts no more migrations reach the file than the one that may be due at the start and one for each re-arming submission |
| ConfigHistory.MigrationOnce | mihomotui/config.go:397-418 | without submissions at most one, and none once none is due |
| ConfigHistory.RearmedIff | mihomotui/config.go:397-418 | the condition on submissions is exact: once none is due, a saved submission can be followed by another migration if and only if it has subscriptions without the migration mark (and, when only the file got it, no pools) |
| RuntimeSources.PoolAvailability | mihomotui/subscription_pool.go:121-140 | available, total and skipped with reasons |
| RuntimeSources.SubscriptionAffectsRuntime | mihomotui/subscription_pool.go:151-172 | true exactly for members of enabled merge pools and active members of other enabled pools |
| RuntimeSources.ActivePoolSubscriptions | mihomotui/subscription_pool.go:194-249 | the loops equal the concatenation of contributions, first fault first |
| RuntimeSources.AvailabilityPartition | mihomotui/subscription_pool.go:121-140 | available plus skipped is total; available exactly when present, enabled and cached |
| RuntimeSources.MergeKeepsOrder | mihomotui/subscription_pool.go:194-222 | a merge pool contributes its available members in member order |
| RuntimeSources.ActiveDistinct | mihomotui/subscription_pool.go:194-249 | for a valid configuration the running list has pairwise distinct identifiers |
| RuntimeSources.NeverNothingUsable | mihomotui/subscription_pool.go:236-247 | the third explanation of an empty result cannot occur; when each of the others does |
| RuntimeSources.UnaffectedByRecord | mihomotui/subscription_pool.go:151-172 | if the check says no, no change to the record or its cache changes the outcome |
| RuntimeSources.UnaffectedByDeletion | mihomotui/subscription_pool.go:151-172 | nor does deleting it, when something was running or the invariant holds |
| RuntimeSources.AffectedMatters | mihomotui/subscription_pool.go:151-172 | if it says yes of a usable subscription, disabling that one changes the outcome |
| RuntimeSources.ReasonExact | mihomotui/subscription_pool.go:121-140 | missing, disabled, without a cache, in this order; otherwise used |
| RuntimeSources.SkippedExact | mihomotui/subscription_pool.go:121-140 | the skipped members in member order, each with its reason |
| RuntimeSources.ContributionExact | mihomotui/subscription_pool.go:180-233 | which explanation an enabled pool's failure gets, and what it contributes otherwise |
| RuntimeSources.GatheredExact | mihomotui/subscription_pool.go:194-249 | pool order: the first faulty enabled pool decides, otherwise the contributions one after another |
| ProviderNames.ProviderNamesFor | mihomotui/mihomo_config.go:303-321 | the renaming loop ends (fewer used names as long as the candidate) and equals its specification |
| ProviderNames.NamesDistinct | mihomotui/mihomo_config.go:303-321 | names are pairwise distinct whatever the hash does |
| ProviderNames.NamesAreBaseNames | mihomotui/mihomo_config.go:291-321 | every subscription gets the name it asks for if and only if no two ask for the same |
| ProviderNames.AppendKeepsNames | mihomotui/mihomo_config.go:303-321 | a subscription added at the end renames no other |
| ProviderNames.PermutationKeepsNames | mihomotui/mihomo_config.go:291-321 | without collisions, permuting the list only permutes the names |
| ProviderNames.BuildProviders | mihomotui/mihomo_config.go:433-474 | one provider entry per name in use, leading to that subscription, also for configurations without pools |
| ProviderNames.ListedAtExact | mihomotui/mihomo_config.go:433-474 | which subscriptions get an entry: without pools all but those without an address or entered by hand, each once and in order |
| ProviderNames.EverySourceHasItsProvider | mihomotui/mihomo_config.go:447-474 | for a valid configuration as many entries as sources |
| ProviderNames.NameExact | mihomotui/mihomo_config.go:291-321 | every name: after the identifier, by position without one, and with the position behind it only when an earlier one has it |
| ProviderNames.LegacyEntries | mihomotui/mihomo_config.go:447-474 | without pools each subscription with an address of its own is fetched from there under its name, the others are left out |
| ReconcileQueue.Daemon.TrySubmit | mihomotui/reconcile.go:70-74 | the send goes through while fewer than sixteen wait (equals the steps of the state machine) |
| ReconcileQueue.Daemon.WorkOnce | mihomotui/reconcile.go:39-66 | take, read the latest commit, apply, report to the request's own channel (equals the steps of the state machine) |
| ReconcileQueue.Daemon.Await | mihomotui/reconcile.go:74-80 | report or timer (equals the steps of the state machine) |
| ReconcileQueue.Daemon.CommitFor | mihomotui/reconcile.go:83-95 | the commit a request is made for (equals the steps of the state machine) |
| ReconcileQueue.NeverBackwards | mihomotui/reconcile.go:39-66 | over every interleaving the version handed to the kernel never decreases |
| ReconcileQueue.CaughtUp | mihomotui/reconcile.go:39-95 | once quiet, the last attempt is at least as new as every commit whose handler enqueued |
| ReconcileQueue.OwnAnswer | mihomotui/reconcile.go:70-80 | an answer is that request's own, about a version that includes its commit; once quiet none is missing |
| ReconcileQueue.FirstComeFirstServed | mihomotui/reconcile.go:30-66 | served in order, each once, never more than sixteen waiting |
| ReconcileQueue.RunReconcile | mihomotui/reconcile.go:99-141 | one reconcile: its effects in order and the stage reported (a case table) |
| ReconcileQueue.RoutingBracketsReload | mihomotui/reconcile.go:99-141 | of that table: routing is set up before the kernel is touched when TUN goes on and restored only after the kernel took the change; success exactly when every stage succeeded |
| ReconcileQueue.EffectsOccurIff | mihomotui/reconcile.go:99-141 | when each effect occurs, each at most once |
| ReconcileQueue.StageExact | mihomotui/reconcile.go:99-141 | which stage is reported |
| ShellBlock.BuildBlock | mihomotui/system_proxy.go:58-68 | start marker, eight exports, end marker |
| ShellBlock.ContainsReturnStatement | mihomotui/system_proxy.go:489-508 | true exactly when the word stands somewhere as a word of its own |
| ShellBlock.GuardIndex | mihomotui/system_proxy.go:458-484 | the offset of the first case statement with a return before its end, else -1 |
| ShellBlock.ShellFile.StripBlock | mihomotui/system_proxy.go:357-388 | the line loop equals its specification |
| ShellBlock.ShellFile.RemoveBlock | mihomotui/system_proxy.go:391-402 | the file is rewritten exactly when stripping changes it |
| ShellBlock.ShellFile.UpsertBlock | mihomotui/system_proxy.go:406-444 | unchanged if the block is there; else stripped, cut at a broken block, and the block put before the guard or at the end |
| ShellBlockProofs.RunsIntact | mihomotui/system_proxy.go:357-444 | over any run of insertions and removals on a text free of markers: exactly the last inserted block, in its place, or none; the user's non-empty lines in their order |
| ShellBlockProofs.ExactlyOneBlock | mihomotui/system_proxy.go:406-444 | one start line, one end line, no guard before the block |
| ShellBlockProofs.PlacedShaped | mihomotui/system_proxy.go:429-444 | insertion is on a line boundary, before the guard if there is one, and keeps the text's lines |
| ShellBlockProofs.OnlyOwnBlock | mihomotui/system_proxy.go:412-414 | a text with one block contains a block as text only if it is that one |
| ShellBlockProofs.InsertTwice | mihomotui/system_proxy.go:406-444 | inserting the same block again changes nothing |
| ShellBlockProofs.InsertThenRemove | mihomotui/system_proxy.go:357-444 | insertion and removal give the text back if and only if it ends its last line and has no blank line where the block went |
| ShellBlockProofs.StripAnyText | mihomotui/system_proxy.go:357-388 | for every text: a second removal changes nothing, and what is outside blocks stays in order |
| ShellBlockProofs.UpsertInstalls | mihomotui/system_proxy.go:406-444 | for every text: after an insertion the block is in it |
| ShellBlockProofs.UpsertKeepsIff | mihomotui/system_proxy.go:406-444 | for every text without the block: the new text is the block between the non-empty lines removal would leave, in order; lines are lost if and only if a start marker occurs and removal finds no complete block, and then exactly those from the first marker on |
| ShellBlockProofs.MentionedIsCut | mihomotui/system_proxy.go:412-422 | a text that merely mentions the start marker within longer lines is such a text |
| ShellBlockProofs.BuiltBodyGood | mihomotui/system_proxy.go:41-68 | for all ports the exported lines contain no marker |
| ShellBlockProofs.BodyExact | mihomotui/system_proxy.go:41-68 | which variable gets which port or the exceptions, for all ports |
| ShellBlockProofs.StripSparesIff | mihomotui/system_proxy.go:357-388 | removal leaves a text as it is if and only if it has no start line, or one after which no end line comes |
| ShellBlockProofs.CutEnds | mihomotui/system_proxy.go:415-421 | a cut text ends its last line and leaves no blank line before the block |
| ShellBlockProofs.GuardIff | mihomotui/system_proxy.go:458-484 | what a guard is: one of the two case lines, and below it a return before the first esac |
| ShellBlockProofs.ReturnIsWord | mihomotui/system_proxy.go:489-508 | the word counts where no letter, digit or underscore adjoins it |
| ProxyView.MergeProxyNodes | mihomotui/ui/proxy_state.go:112-145 | the merge loops equal their specification |
| ProxyView.ProxyViewState.NormalizeGroup | mihomotui/ui/proxy_state.go:60-84 | group, cursor and page point at something that exists (equals the specification function) |
| ProxyView.ProxyViewState.ApplyServerGroups | mihomotui/ui/proxy_state.go:149-161 | every group merged, then normalised (equals the specification function) |
| ProxyView.ProxyViewState.ClampPage | mihomotui/ui/proxy_state.go:97-105 | page brought into range (equals the specification function) |
| ProxyView.ProxyViewState.SortAndFollow | mihomotui/ui/proxy_state.go:229-243 | current group sorted, page of the selected node (equals the specification function) |
| ProxyViewProofs.MergeOrder | mihomotui/ui/proxy_state.go:112-145 | surviving nodes in their old order, new ones behind in server order, vanished ones gone |
| ProxyViewProofs.SameNodesNoMove | mihomotui/ui/proxy_state.go:112-145 | the same nodes in any server order move no card |
| ProxyViewProofs.MergeContents | mihomotui/ui/proxy_state.go:112-145 | each node carries the server's data, except that a test running here goes on; names stay distinct |
| ProxyViewProofs.MergeIdempotent | mihomotui/ui/proxy_state.go:112-145 | merging the same data again changes nothing |
| ProxyViewProofs.RefreshKeepsPlace | mihomotui/ui/proxy_state.go:149-161 | page, group and cursor stay while group and node are offered; the page is reset only with its group |
| ProxyViewProofs.RefreshIdempotent | mihomotui/ui/proxy_state.go:60-161 | applying the same groups twice is applying them once |
| ProxyViewProofs.SortSorts | mihomotui/ui/proxy.go:491-517 | sorting gives an ascending permutation |
| ProxyViewProofs.SortStable | mihomotui/ui/proxy.go:491-495 | nodes that tie keep their order |
| ProxyViewProofs.LessIsStrictOrder | mihomotui/ui/proxy.go:499-517 | the comparison is a strict order in which only equal delay and name tie |
| ProxyViewProofs.StatesInOrder | mihomotui/ui/proxy.go:499-517 | measured delays first, then timed out, under test, untested |
| ProxyViewProofs.SortRearranges | mihomotui/ui/proxy_state.go:229-243 | sorting touches nothing but the current group's order and the page |
| ProxyViewProofs.SortFollows | mihomotui/ui/proxy_state.go:229-243 | the selected node is on the page turned to |
| ProxyViewProofs.ClampMinimal | mihomotui/ui/proxy_state.go:87-105 | the page is brought into range and changed only when out of it |
| ProxyViewProofs.RefreshedGroups | mihomotui/ui/proxy_state.go:149-161 | the groups are the server's in its order; only the nodes of a group known before are merged |
| ProxyViewProofs.NormalizedExact | mihomotui/ui/proxy_state.go:60-84 | group and cursor stay if they are there, else go to the first; the page is reset only with its group |
| ProxyViewProofs.TestGoesOn | mihomotui/ui/proxy_state.go:126-133 | a node under test here keeps that mark, every other shows what the server says |
| ProxyViewProofs.SortTurnsBack | mihomotui/ui/proxy_state.go:236-239 | without a selected node sorting turns to the first page |
| KernelProcess.MihomoProcess.LockedStart | mihomotui/mihomo_process.go:89-165 | the locked part of a start, in all its outcomes (equals the step of the state machine) |
| KernelProcess.MihomoProcess.MarkStopped | mihomotui/mihomo_process.go:168-173 | first act of the wait goroutine (equals the step of the state machine) |
| KernelProcess.MihomoProcess.RestoreRouting | mihomotui/mihomo_process.go:179-185 | its second, routing cleanup, which may fail and is passed over (equals the step of the state machine) |
| KernelProcess.MihomoProcess.SendNotice | mihomotui/mihomo_process.go:186 | its last, the exit notice (equals the step of the state machine) |
| KernelProcess.MihomoProcess.LockedStop | mihomotui/mihomo_process.go:222-230 | the locked part of a stop (equals the step of the state machine) |
| KernelProcess.OneProcess | mihomotui/mihomo_process.go:89-293 | in every interleaving at most one process lives, and the flag is down only when all are reaped |
| KernelProcess.CallSteps | mihomotui/mihomo_process.go:189-279 | the only ways a call goes on: a stop kills before it gives up, a start ends by its timer or by hearing of the death |
| KernelProcess.StartBegins | mihomotui/mihomo_process.go:89-165 | what each outcome of the locked part of a start leaves |
| KernelProcess.StopBegins | mihomotui/mihomo_process.go:222-230 | a stop waits for the latest process, and only while one runs |
| KernelProcess.NoticeAfterCleanup | mihomotui/mihomo_process.go:167-187 | an exit notice, waiting or taken, means that process is dead and reaped and its routing cleanup has been attempted |
| KernelProcess.RoutingStays | mihomotui/mihomo_process.go:125-187 | every TUN process of a run has its routing as long as it runs, however the run goes on, if and only if the run spawns no TUN process while a cleanup is owed |
| KernelProcess.HastyStartLosesRouting | mihomotui/mihomo_process.go:167-187 | every TUN process spawned while a cleanup is owed can lose its routing to it |
| KernelProcess.CrashThenStart | mihomotui/mihomo_process.go:89-187 | such a run from nothing |
| KernelProcess.OwedAfterHeardStop | mihomotui/mihomo_process.go:222-293 | after a stop that heard the latest process, a cleanup is owed if and only if an earlier TUN process has not been cleaned or a failed start is rolling back |
| KernelProcess.DeathReportForced | mihomotui/mihomo_process.go:189-202 | in every reachable state a waiting start can only end by reporting its process's death if and only if the notice has been sent and no other call has taken it |
| KernelProcess.NoticeInChannel | mihomotui/mihomo_process.go:186-202 | the notice is in the channel if and only if it was sent and nobody has it; it is missing if and only if it is not sent or a stop has it |
| KernelProcess.StartedThoughDeadExactly | mihomotui/mihomo_process.go:168-202 | at any step of any run a start is reported successful although its process is dead if and only if its timer fires while the notice is not yet sent or a stop has taken it |
| KernelProcess.DeathIsReported | mihomotui/mihomo_process.go:168-202 | once the notice is sent and only the start waits for it, the start reports the death in every continuation |
| KernelProcess.StartedButGone | mihomotui/mihomo_process.go:179-202 | the first case: a run in which cleaning up outlasts the settle window |
| KernelProcess.NoticeTakenByStop | mihomotui/mihomo_process.go:186-257 | the second: cleaning up is over and the notice sent, but a concurrent stop took it |

## Left out

- HTTP, JSON and YAML, downloads, DNS, metadata parsing, sockets and peer credentials: their results are inputs.
- Parsing of command output and of error texts in the TUN code: a command's outcome is ok, not-found, exists or another error.
- Position of an nft rule relative to rules of other chains, and nft listings that repeat a handle or a chain.
- Substring match on the listed default route: modelled as the exact route.
- Interface-name checks in the script builder: preflight has made them on the same name.
- Record fields that no routine reads (version, mark, mask, creation time).
- The journal of TUN debug output and the describe command: they change nothing.
- Handlers for rule providers, kernel versions, external resources, the first secret and metadata back-fill: each is one edit of `ConfigHistory.Op` whose new values are arguments.
- Timestamps, log texts, random identifiers and random secrets: arguments of the operations.
- The search for an unused subscription name (mihomotui/daemon_handlers_subscription.go:826-836): its result is an argument, and validation rejects a name in use.
- ConfigModel.Validate: custom rules with MATCH, ports, URLs, the controller's format, rule subscriptions, addresses and host-name filters are one verdict in `rest`.
- Width of integers: versions and failure counts do not wrap around.
- HTTP failures between two requests of a client: a client may stop at any point of its run.
- ConfigStore.NoLostUpdates: it holds exactly where the loader has nothing to repair at restarts (`ConfigStore.NoLostUpdatesIff`); a run may begin with a repaired, unsaved configuration, but its first restart must come after a write. Clients' changes leave the version number alone.
- ConfigStore.MutateMeans: a change that edits the version number itself is excluded.
- A file that cannot be read or parsed is replaced by the default configuration; the loader model starts after parsing.
- The start handler's own generation of the kernel configuration: a second writer beside the queue.
- "A kernel in TUN mode has its routing" across reconciles: not an invariant of the program; only the process manager's part is modelled.
- A process manager without an exit channel (made by hand in old callers) and its polling loop.
- Effect of the routing set-up on routing that was in place before it: a refused set-up leaves the flag as it was.
- Owner and permissions of shell files, choice of files and home directories; the fallbacks for unset ports.
- ProxyView.SortedNodes: the library's stable sort is modelled by insertion, for which the properties of a stable sort are proved.
- Writing back delays, the render signature and the drop-down: easy members only.
- Version comparison, role checks, URL redaction, size formatting: easy members only.
