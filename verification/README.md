# Verified model of the zli

The zli is a command line client that starts local daemons for remote targets. This
project models the parts of it that keep several pieces of state in step, and proves what
they promise:

- **Kube daemons and the kubeconfig file** (`OrderedMap`, `DaemonStore`, `DaemonManagement`,
  `DisconnectRuns`, `KubeConfig`, `KubeConfigLaws`, `KubeInverse`, `KubeSession`, `KubeCli`). The user's
  kubeconfig works as an index of the stored daemons. `KubeSession` is one state machine over
  the ordered store, the live processes and the file; its events are connect, process death,
  list-daemons, the check of a single daemon, disconnect, generate (also forced) and a change
  of the current context. `KubeCli` is the command handlers as methods over a daemon
  management service object; each is proved to perform exactly one step of that machine.
- **OAuth refresh under a file lock** (`OAuth`). Any number of processes, interleaved line by
  line, over one stored token set.
- **SSH config linking** (`Text`, `SshEdits`, `SshConfig`). Two text edits made of substring
  search and first-occurrence replacement that undo each other.
- **Shutting down processes** (`ProcessManager`). A poll loop that races a timer over a shared flag.
- **Interactive shell input** (`Shell`). Keypress batching, chunked flushing, and the terminal
  that blocks and unblocks input.
- **Quickstart** (`Quickstart`, `SshHosts`). Grouping by username, environments, policies, and
  the hosts of an ssh config.
- **Target strings and table cells** (`TargetString`, `TableText`).

Processes that are alive, clocks, service answers, attempts to shut a daemon down and
rejected requests are arguments or events; everything proved holds for all of them.

What the surroundings are assumed to guarantee is stated where it is used: a new daemon has a
fresh connection ID, a PID that is not reused and a port number that no running stored daemon
holds (`FreshDaemon`); a daemon leads its process group; the lock file admits one holder and is
given up when its holder exits.

Where a promise does not hold for all inputs, the exact condition is proved, and a lemma gives an input at which it fails:

- A running daemon on port 0, which `--customPort 0` allows, loses its context at the next
  list-daemons (`ListKeepsContextIff`; `PortZeroLosesContext`).
- The running daemons stay indexed at all times of a run exactly when no connect is accepted
  under the entry name of a running daemon (`RunningDaemonsIndexed`, `ConnectKeepsIndexIff`;
  `CollidingConnects`, `CollidingDaemons`).  Without `@` in target names none is (`NoCollisionWithoutAt`).
- Filtering after daemons stopped undoes their connects exactly when no running daemon has port 0
  and no stopped one has the port of a running one (`StoppingInvertsConnecting`; `ReusedPortKeepsContext`).
- Filtering without pruning first can leave a context without its user (`NoDanglingIff`;
  `UnprunedFilterStrandsUser`); a context of the user's own that shares the cluster of a stale
  managed one loses that cluster (`StrandedIff`; `OwnContextStranded`).
- An entry stored under the empty key is never removed from the store, since the legacy entry is
  deleted in its place; a disconnect does shut its daemon down (`PruneIff`, `DisconnectOutcome`;
  `EmptyKeyNotPruned`, `EmptyKeyStays`).
- The poll loop makes one check more than ceil(timeout/500) + 1 if it wins ties against the timer
  and the timeout is a multiple of 500 ms, or if the timeout is zero, unless the process is seen
  gone in time (`WaitForProcess`, `CheckBound`); both default timeouts are such multiples (`DefaultTimeoutsTie`).
- The fast path of `getTokenSet` returns a token set that was authenticated at its check exactly
  when nothing was stored between its two reads of the store (`FastPathGoodIff`; `FastPathMayReturnExpired`).
- After a failed registration the lock is given up exactly when its process exits
  (`FailedRegisterBlocks`; `FailedRegisterReached`).
- A config path that is the beginning of a linked one is silently not linked
  (`LinkTakesEffectIff`; `PathPrefixNotLinked`).  `CommandsUndoEachOther` covers such paths too:
  a link that did not take effect leaves nothing to delete.
- A printed target is read back exactly when the pattern accepts it, it has no `@`, and its name
  has no period (`ParsePrintedIff`).
- A target string that ends in its first period does not read back (`PrintParsedIff`; `TrailingPeriodLost`).
- The wrapping loop stops exactly if the column is wider than two or the text already fits
  (`WrapStopsIff`; `TwoColumnsNeverStop`).

## Model

| member | source | states |
|---|---|---|
| OrderedMaps.NamedFromList | src/services/kube-management/kube-management.service.ts:435-439 | a map built from a list answers each name with the last entry of that name |
| OrderedMaps.FromListConcat | src/services/kube-management/kube-management.service.ts:435-439 | building a map keeps first-occurrence order: lists without common names are built one after the other |
| OrderedMaps.SetInPlace | src/services/kube-management/kube-management.service.ts:435-439 | setting a name again keeps its place, a new one goes to the end |
| KubeConfigs.GenerateKubeConfig | src/services/kube-management/kube-management.service.ts:80-117 | field by field: one cluster on the daemon's port without TLS checks, one context with its namespace, the managed user with the token, names and prefix, and that context selected |
| KubeConfigs.BuildMapOfNamedKubeEntries | src/services/kube-management/kube-management.service.ts:435-439 | the loop builds the insertion-ordered, last-wins map of a list with repeated names |
| KubeConfigs.MergeEntriesWith | src/services/kube-management/kube-management.service.ts:398-413 | source entries whose name the destination lacks, in order, then the destination's map |
| KubeConfigs.MergeKubeConfig | src/services/kube-management/kube-management.service.ts:390-428 | merges the three lists and keeps the destination's current context exactly when it is set and not empty |
| KubeConfigs.CollectStale | src/services/kube-management/kube-management.service.ts:505-530 | stops exactly when a managed context's server is not a URL, else records exactly the stale contexts and their clusters |
| KubeConfigs.FilterKubeConfig | src/services/kube-management/kube-management.service.ts:482-560 | fails exactly when a managed context's server is not a URL; else the filtered file, the removed names and whether anything was stale |
| KubeConfigLaws.PortReadBack | src/services/kube-management/kube-management.service.ts:592-605 | the port read back is the one written exactly for port numbers that are not the default of ws, wss or ftp; the defaults of http and https are put back; larger numbers fail |
| KubeConfigLaws.PortMissing | src/services/kube-management/kube-management.service.ts:592-605 | no URL has no port; without a written port only http and https have one |
| KubeConfigLaws.GeneratedPortRoundTrip | src/services/kube-management/kube-management.service.ts:99-103 | a generated cluster reads back as the daemon's port, 443 included |
| KubeConfigLaws.EntryNameInjective | src/services/kube-management/kube-management.service.ts:91-95 | entry names are injective in user and target when targets have no @ |
| KubeConfigLaws.EntryNameCollision | src/services/kube-management/kube-management.service.ts:91-95 | with @ in a target, two different pairs share a name |
| KubeConfigLaws.MergeEntriesAssociative | src/services/kube-management/kube-management.service.ts:398-413 | merging entry lists is associative as ordered lists, duplicates allowed |
| KubeConfigLaws.MergeAssociative | src/services/kube-management/kube-management.service.ts:390-428 | merging whole configs is associative, current context included |
| KubeConfigLaws.NamedMerge | src/services/kube-management/kube-management.service.ts:377-389 | a lookup in a merged list finds the destination's last entry of the name, else what the source has |
| KubeConfigLaws.UpdateMergesInTurn | src/handlers/generate/kube/generate-kube-config.handler.ts:68-102 | one merge of the rolling fold writes what merging each stored daemon in turn writes |
| KubeConfigLaws.MergeInTurnKeeps | src/services/kube-management/kube-management.service.ts:390-428 | merging daemons leaves the entries of every other name as they were |
| KubeConfigLaws.FilterKeepsIff | src/services/kube-management/kube-management.service.ts:505-550 | filtering keeps exactly the contexts not managed or on a stored port, the clusters no other context refers to, and the users but for the managed one when nothing runs |
| KubeConfigLaws.FilterIdempotent | src/services/kube-management/kube-management.service.ts:500-559 | a second pass with the same daemons changes nothing and is not dirty |
| KubeConfigLaws.CleanIffOnlyNormalised | src/services/kube-management/kube-management.service.ts:552-559 | not dirty exactly when filtering only collapsed repeated names |
| KubeConfigLaws.CleanIffUnchanged | src/services/kube-management/kube-management.service.ts:552-559 | for unique names, not dirty exactly when the result equals the input |
| KubeConfigLaws.StrandedIff | src/services/kube-management/kube-management.service.ts:508-534 | a surviving context loses an existing cluster exactly when it is unmanaged and shares it with a stale managed one; managed ones keep it |
| KubeConfigLaws.OwnContextStranded | src/services/kube-management/kube-management.service.ts:508-534 | a file in which filtering takes the cluster from a context of the user's own |
| KubeConfigLaws.NoDanglingIff | src/services/kube-management/kube-management.service.ts:508-550 | a file without dangling managed contexts stays so exactly when a daemon runs or no managed context is on a stored port |
| KubeConfigLaws.PruneThenFilterNoDangling | src/handlers/list-daemons/list-daemons.handler.ts:210-231 | pruning the store before filtering leaves no dangling managed context |
| KubeConfigLaws.UnprunedFilterStrandsUser | src/services/kube-management/kube-management.service.ts:543-550 | without pruning, a dead daemon's context outlives the managed user |
| KubeInverse.StoppingInvertsConnecting | src/services/kube-management/kube-management.service.ts:482-560 | filtering after daemons stopped never throws; it gives the user's own file with only the running ones merged in, in order, exactly when no running daemon has port 0 and no stopped one a running one's port; with none running, the own file |
| KubeInverse.MergeInTurnAppends | src/services/kube-management/kube-management.service.ts:398-413 | merging daemons into a file of the user's own appends the last entry of each name |
| KubeInverse.ReusedPortKeepsContext | src/services/kube-management/kube-management.service.ts:508-534 | a store whose filtered file keeps a stopped daemon's context |
| DaemonStores.KeyViewInverse | src/services/daemon-management/daemon-management.service.ts:54-96 | the undefined/n/a view of keys and the key a deletion reaches are inverse on exactly the non-empty keys |
| DaemonStores.StatusIs | src/services/daemon-management/daemon-management.service.ts:116-170 | a status is one of a daemon without PID, one that quit, or a running one |
| DaemonManagement.PruneIff | src/services/daemon-management/daemon-management.service.ts:83-131 | pruning leaves exactly the running entries, in order, unless a stopped one is stored under the empty key |
| DaemonManagement.EmptyKeyNotPruned | src/services/daemon-management/daemon-management.service.ts:83-131 | a stopped daemon under the empty key stays stored |
| DaemonManagement.DaemonManagementService.GetDaemonConfigs | src/services/daemon-management/daemon-management.service.ts:54-65 | every stored entry under its view key, in order, without clashes |
| DaemonManagement.DaemonManagementService.AddDaemon | src/services/daemon-management/daemon-management.service.ts:73-81 | refuses a missing or empty connection ID and leaves the store alone, else stores the daemon |
| DaemonManagement.DaemonManagementService.DeleteDaemon | src/services/daemon-management/daemon-management.service.ts:83-96 | removes the entry the view key stands for, a falsy key meaning the legacy one |
| DaemonManagement.DaemonManagementService.HandleDaemonStatus | src/services/daemon-management/daemon-management.service.ts:116-170 | the status by PID and liveness; deletes the entry only when asked and not running |
| DaemonManagement.DaemonManagementService.GetDaemonStatus | src/services/daemon-management/daemon-management.service.ts:106-114 | fails exactly for unknown connection IDs, else the status of that daemon |
| DaemonManagement.DaemonManagementService.GetAllDaemonStatuses | src/services/daemon-management/daemon-management.service.ts:181-190 | reports every entry once, in order; prunes the stopped ones, or leaves the store unchanged |
| DaemonManagement.DaemonManagementService.FindRunningDaemonWithPredicate | src/services/daemon-management/daemon-management.service.ts:364-384 | the first running daemon that satisfies the predicate, or none exactly when there is none |
| DaemonManagement.DaemonManagementService.ProcessDisconnectResults | src/services/daemon-management/daemon-management.service.ts:222-229 | deletes every snapshotted key and records the results |
| DaemonManagement.DaemonManagementService.DisconnectAllDaemons | src/services/daemon-management/daemon-management.service.ts:198-230 | with nothing stored meanwhile: clears the store and reports, per daemon, that it had no PID, the kill result, or the error |
| DisconnectRuns.DisconnectOutcome | src/services/daemon-management/daemon-management.service.ts:198-230 | over every interleaving with added daemons and deaths: exactly the added ones remain, unless the empty key was stored; one result per key; every daemon not reported as failed is dead |
| DisconnectRuns.ResultIff | src/services/daemon-management/daemon-management.service.ts:202-213 | over every interleaving a daemon is reported killed with a result, or failed with an error, exactly when its attempt ended so |
| DisconnectRuns.EmptyKeyStays | src/services/daemon-management/daemon-management.service.ts:198-230 | a run after which the daemon under the empty key is dead but still stored |
| KubeSessions.StepInv | src/handlers/connect/kube-connect.handler.ts:37-136 | every command but a colliding connect keeps the invariant: running daemons are indexed, and no later entry takes a running daemon's name |
| KubeSessions.RunningDaemonsIndexed | src/handlers/connect/kube-connect.handler.ts:37-136 | over every run, each stored running daemon on a real port has at all times its own context, a cluster with its port and the managed user, exactly when no connect was accepted under a running daemon's entry name |
| KubeSessions.RunningDaemonsApart | src/handlers/connect/kube-connect.handler.ts:37-62 | over every run no two stored running daemons share cluster and user, or a port |
| KubeSessions.NoCollisionWithoutAt | src/services/kube-management/kube-management.service.ts:91-95 | runs without @ in target names have no such connect |
| KubeSessions.MergeInTurnIndexes | src/handlers/generate/kube/generate-kube-config.handler.ts:66-88 | generate's last-wins merge over dead entries never overwrites a running daemon's entries |
| KubeSessions.FilterKeepsIndexed | src/services/kube-management/kube-management.service.ts:500-559 | filtering never removes the entries of a stored daemon |
| KubeSessions.NeverDangling | src/handlers/list-daemons/list-daemons.handler.ts:199-232 | over every run every managed context keeps its cluster and its user |
| KubeSessions.ConnectKeepsIndexIff | src/handlers/connect/kube-connect.handler.ts:32-62 | an accepted connect keeps all running daemons indexed exactly when none of them carries the new entry name |
| KubeSessions.CollidingConnects | src/handlers/connect/kube-connect.handler.ts:32-62 | two accepted connects under one entry name, after which the first daemon, still running, has lost its entries |
| KubeSessions.CollidingDaemons | src/services/kube-management/kube-management.service.ts:91-95 | two different cluster and user pairs with one entry name |
| KubeSessions.ListKeepsContextIff | src/services/kube-management/kube-management.service.ts:489-498 | listing keeps a running daemon's entries exactly when its port is not zero |
| KubeSessions.PortZeroLosesContext | src/services/kube-management/kube-management.service.ts:489-498 | a connect and a list-daemons after which a running daemon has lost its entries |
| KubeSessions.ResolvesToOwnDaemon | src/handlers/bctl.handler.ts:17-46 | while the current context names a running daemon's context, zli kube resolves to exactly that daemon |
| KubeSessions.ConnectThenResolve | src/handlers/connect/kube-connect.handler.ts:111-136 | right after connecting, zli kube resolves to the new daemon |
| KubeSessions.ConnectWrites | src/handlers/connect/kube-connect.handler.ts:37-136 | a connect is refused exactly when the same cluster and user run; else the daemon is stored, indexed and selected, and other names keep their entries |
| KubeSessions.GenerateWrites | src/handlers/generate/kube/generate-kube-config.handler.ts:66-108 | without --update nothing changes; with it the last daemon of each name is indexed whatever the file held, and other names keep their entries |
| KubeSessions.ForcedWrites | src/handlers/generate/kube/generate-kube-config.handler.ts:55-108 | with no daemon running a forced one sets the token and writes exactly with --update |
| KubeSessions.ForcedDisconnects | src/handlers/generate/kube/generate-kube-config.handler.ts:55-108 | with a daemon running it sets the token and does what a disconnect does |
| KubeSessions.ListWrites | src/handlers/list-daemons/list-daemons.handler.ts:199-232 | listing leaves the running daemons stored and filters the file unless something throws |
| KubeSessions.DisconnectWrites | src/handlers/disconnect/disconnect.handler.ts:22-28 | disconnecting clears the store, ends exactly the processes whose attempts did not throw, and filters the file |
| KubeSessions.CheckWrites | src/handlers/bctl.handler.ts:76-91 | the check removes exactly the daemon asked for, if it does not run |
| KubeSessions.ResolveCases | src/handlers/bctl.handler.ts:17-46 | each way the lookup of zli kube can end, and when |
| KubeCli.FindMatchingKubeContext | src/services/kube-management/kube-management.service.ts:573-590 | the first context with the managed user and a cluster on the daemon's port, an error if reading a port throws before, none exactly when no context does either |
| KubeCli.FoundNotOthers | src/services/kube-management/kube-management.service.ts:573-590 | the context found for an indexed running daemon is never that of another one |
| KubeCli.FoundOwn | src/services/kube-management/kube-management.service.ts:573-590 | it is its own if no other managed context is on its port |
| KubeCli.ListedWithContext | src/handlers/list-daemons/list-daemons.handler.ts:219-229 | while the file indexes a running daemon, the table has a context for it unless the search throws |
| KubeCli.StatusTable | src/handlers/list-daemons/list-daemons.handler.ts:85-109 | one row per running daemon, in order, with its context; throws exactly when the search throws for one of them |
| KubeCli.TableRows | src/handlers/list-daemons/list-daemons.handler.ts:85-109 | one row per running daemon, in order, each with the name of the first context that serves it or an empty cell |
| KubeCli.KubeCommands.FilterAndOverwriteUserKubeConfig | src/services/kube-management/kube-management.service.ts:360-375 | fails exactly when filtering throws; the file changes only when the result is dirty |
| KubeCli.KubeCommands.StartKubeDaemon | src/handlers/connect/kube-connect.handler.ts:37-136 | refused exactly when a daemon for the same cluster and user runs, naming the context found for the first such one; else the connect step |
| KubeCli.KubeCommands.ListDaemons | src/handlers/list-daemons/list-daemons.handler.ts:199-232 | the list-daemons step: prune, table, filter; fails exactly when the table or the filter throws |
| KubeCli.KubeCommands.CheckDaemon | src/handlers/bctl.handler.ts:76-91 | reports the one daemon and prunes it if it stopped; fails exactly for unknown IDs |
| KubeCli.KubeCommands.Disconnect | src/handlers/disconnect/disconnect.handler.ts:22-28 | the disconnect step: shut down all, clear, filter; fails exactly when the filter throws |
| KubeCli.RollingMerge | src/handlers/generate/kube/generate-kube-config.handler.ts:68-85 | the loop merges the stored daemons' configurations in turn |
| KubeCli.KubeCommands.GenerateConfig | src/handlers/generate/kube/generate-kube-config.handler.ts:66-108 | the rolling merge; the user's file is written exactly with --update, nothing else changes |
| KubeCli.KubeCommands.GenerateForcedConfig | src/handlers/generate/kube/generate-kube-config.handler.ts:55-108 | with --force: new token, running daemons disconnected first; nothing is generated exactly when the filter after that throws |
| OAuth.AuthenticatedIff | src/services/oauth/oauth.service.ts:257-272 | authenticated exactly while the access token has not run out and the ID token has more than five minutes left |
| OAuth.OAuthService.Refresh | src/services/oauth/oauth.service.ts:319-332 | the response field by field, with the previous refresh token when it has none |
| OAuth.OAuthService.GetTokenSet | src/services/oauth/oauth.service.ts:338-408 | result, stored tokens and lock of one call, for each way it can end, the lock not acquired included |
| OAuth.StepInv | src/services/oauth/oauth.service.ts:338-408 | every step of every process keeps the invariant of the interleaved runs |
| OAuth.RefreshesFormChain | src/services/oauth/oauth.service.ts:375-393 | each refresh starts from the version stored just before its own, after its process checked that version, then current, while holding the lock, and found it unauthenticated |
| OAuth.RefreshInFlight | src/services/oauth/oauth.service.ts:375-386 | the same of a refresh still in flight, whether or not it completes |
| OAuth.OnlyHolderWrites | src/services/oauth/oauth.service.ts:393-393 | only the lock holder changes what is stored, by appending one version |
| OAuth.MutualExclusion | src/services/oauth/oauth.service.ts:356-406 | at most one process is between acquiring and releasing the lock |
| OAuth.RefreshTokenNeverLost | src/services/oauth/oauth.service.ts:326-331 | once a stored version has a usable refresh token, every later version has one |
| OAuth.StoredIsResponse | src/services/oauth/oauth.service.ts:319-393 | each stored version is the response its process received in the run, but for a missing refresh token, and so authenticated at the same times |
| OAuth.ServiceAccountsNeverRefresh | src/services/oauth/oauth.service.ts:348-351 | the session of a service account is never refreshed |
| OAuth.AtMostOneRefresh | src/services/oauth/oauth.service.ts:375-393 | if refreshed tokens outlive the run at most one refresh happens, and none if the first ones outlive it |
| OAuth.ReturnedVersion | src/services/oauth/oauth.service.ts:339-407 | what the slow path returns was authenticated under the lock or is the caller's own refresh; the version the fast path checked was |
| OAuth.FastPathGoodIff | src/services/oauth/oauth.service.ts:339-346 | what the fast path returns was authenticated at its check exactly when nothing was stored between its two reads |
| OAuth.ReturnTraced | src/services/oauth/oauth.service.ts:339-407 | the check that a returned version refers to took place in the run, with or without the lock as it says |
| OAuth.FastPathMayReturnExpired | src/services/oauth/oauth.service.ts:339-346 | an interleaving in which the fast path returns an expired token set |
| OAuth.FailedRegisterBlocks | src/services/oauth/oauth.service.ts:393-406 | after a failed registration that process holds the lock exactly until it exits, and nothing is stored meanwhile |
| OAuth.FailedRegisterReached | src/services/oauth/oauth.service.ts:393-406 | an interleaving that ends in such a failed registration |
| Text.IncludesAround | src/handlers/generate/ssh/generate-ssh-config.handler.ts:212-214 | a one-line text is found around a line break exactly when it is found on one side |
| Text.FirstBlock | src/handlers/generate/ssh/generate-ssh-config.handler.ts:258-259 | a block is first found where it was put, unless its statement is a line of the text before |
| SshEdits.LinkNew | src/handlers/generate/ssh/generate-ssh-config.handler.ts:212-217 | linking puts the block in front and adds the note only for the first environment |
| SshEdits.UnlinkPresent | src/handlers/generate/ssh/generate-ssh-config.handler.ts:258-270 | unlinking takes out exactly that block, also when others contain its statement, and the note with the last one |
| SshEdits.UnlinkAbsent | src/handlers/generate/ssh/generate-ssh-config.handler.ts:260-270 | unlinking an environment that the text does not mention changes nothing |
| SshEdits.UnlinkUnlinked | src/handlers/generate/ssh/generate-ssh-config.handler.ts:258-270 | unlinking an unlinked environment changes nothing, also when linked statements contain its own |
| SshEdits.EditsRender | src/handlers/generate/ssh/generate-ssh-config.handler.ts:192-275 | after any edits the text is the rendering of the linked environments, newest first, over the original |
| SshEdits.LegacyUpgrade | src/handlers/generate/ssh/generate-ssh-config.handler.ts:218-224 | a bare include statement is upgraded, and unlinking commutes with the upgrade |
| SshEdits.LinkTakesEffectIff | src/handlers/generate/ssh/generate-ssh-config.handler.ts:212-217 | linking adds the block exactly when no linked statement contains the new one |
| SshEdits.IndependentLink | src/handlers/generate/ssh/generate-ssh-config.handler.ts:212-217 | among paths none of whose statements contains another's, a link takes effect unless the environment is linked |
| SshConfig.SshConfigFile.LinkNewConfigFile | src/handlers/generate/ssh/generate-ssh-config.handler.ts:192-229 | the handler writes the link edit of the file, a missing file counting as empty |
| SshConfig.SshConfigFile.DeleteBzConfigContents | src/handlers/generate/ssh/generate-ssh-config.handler.ts:238-285 | the handler writes the unlink edit of the file and removes that BastionZero config file if it can |
| SshConfig.RealTextsGood | src/handlers/generate/ssh/generate-ssh-config.handler.ts:12-20 | the constant texts are what the proofs need: whole lines, marked, free of the letters that start includes and the marker |
| SshConfig.CommandsUndoEachOther | src/handlers/generate/ssh/generate-ssh-config.handler.ts:192-275 | for any command sequence over any paths: rendered text of the links that took effect, note exactly while something is linked, and deleting in any order restores the original |
| SshConfig.PathPrefixNotLinked | src/handlers/generate/ssh/generate-ssh-config.handler.ts:212-212 | a path that starts a linked one is silently not linked |
| ProcessManager.ResolvesOnObservation | src/services/process-manager/process-manager.service.ts:79-99 | under any delays the wait resolves only on an observation that the process is gone, before the timeout fired |
| ProcessManager.ResolvedWasSeen | src/services/process-manager/process-manager.service.ts:79-99 | a wait that resolved had, at some moment before the timeout fired, seen the process gone |
| ProcessManager.SettlesOnce | src/services/process-manager/process-manager.service.ts:98-98 | what the race settled with never changes |
| ProcessManager.WaitForProcess | src/services/process-manager/process-manager.service.ts:79-99 | with exact timers: one of those races; resolves exactly when a poll before the timer finds the process gone; how many checks are made, and exactly when they are at most ceil(timeout/500) + 1 |
| ProcessManager.CheckBound | src/services/process-manager/process-manager.service.ts:79-99 | the most checks for every timeout: ceil(timeout/500) + 1, and one more for a timeout of zero, or a multiple of 500 when the poll wins the tie |
| ProcessManager.DefaultTimeoutsTie | src/services/process-manager/process-manager.service.ts:79-109 | the two default timeouts make one check more than ceil(timeout/500) + 1 when the poll wins the tie |
| ProcessManager.UnixHost.IsProcessRunning | src/services/process-manager/process-manager.service.ts:62-71 | true exactly for live processes, also for those of other users |
| ProcessManager.UnixHost.KillProcess | src/services/process-manager/process-manager.service.ts:39-54 | kills, reports that there is none, or fails without permission |
| ProcessManager.UnixHost.TryShutDownProcess | src/services/process-manager/process-manager.service.ts:109-125 | for every way the request and the wait can end under any delays: a result that is not an error means the process is gone; graceful exactly when the wait resolved, forced only for an own process that was alive; an error kills nothing |
| ProcessManager.UnixHost.ShutDownOnTime | src/services/process-manager/process-manager.service.ts:109-125 | with exact timers: graceful exactly when the process was seen gone in time |
| Shell.SsmShellTerminal.Resize | src/terminal/terminal.ts:163-174 | saves the size and emits it only while unblocked |
| Shell.SsmShellTerminal.WriteString | src/terminal/terminal.ts:176-184 | passes input on, or drops it while blocked, an interrupt ending the terminal |
| Shell.SsmShellTerminal.HandleShellEvent | src/terminal/terminal.ts:110-152 | the effect of each shell event |
| Shell.ShellInput.OnKeypress | src/utils/shell-utils.ts:94-135 | buffers the key, adapts the delay and schedules one flush |
| Shell.ShellInput.OnTimer | src/utils/shell-utils.ts:119-134 | hands the buffer to the terminal chunk by chunk and clears it |
| Shell.ChunksKeepKeys | src/utils/shell-utils.ts:122-129 | chunking loses and reorders nothing; chunks have 1 to 10000 keys; there are ceil(n/10000) |
| Shell.InputConserved | src/utils/shell-utils.ts:83-136 | at all times the flushed text and the pending buffer make up the keys received |
| Shell.TimerIffBuffered | src/utils/shell-utils.ts:101-135 | a flush is pending exactly while the buffer is not empty; delays stay in 1, 6, ..., 101 |
| Shell.BurstDelay | src/utils/shell-utils.ts:96-135 | a slow key resets the delay to 1 and each quick one adds 5, up to 101 |
| Shell.BurstFrom | src/utils/shell-utils.ts:96-135 | a flush waits for the delay of the key that scheduled it |
| Shell.DelayOfKeys | src/utils/shell-utils.ts:96-135 | nothing but keys changes the delay |
| Shell.SocketReceives | src/terminal/terminal.ts:113-184 | the socket receives exactly the flushes between a Start and the next BrokenWebsocket, in order |
| Shell.LastSizeIsCurrent | src/terminal/terminal.ts:123-174 | while unblocked the last size emitted is the last one set, also if set while blocked |
| Shell.TerminalEmits | src/terminal/terminal.ts:110-184 | over every run, exactly which connects, sizes and signals are sent, by its events alone |
| Shell.NothingLostWhileUnblocked | src/terminal/terminal.ts:176-184 | from a Start on and while no websocket breaks, what is sent and what is pending grow by exactly the keys received |
| Quickstart.GroupHolds | src/services/quickstart/quickstart.service.ts:530-543 | a group holds exactly the hosts of its username, in order |
| Quickstart.GroupsInOrder | src/services/quickstart/quickstart.service.ts:530-543 | groups come in the order in which their usernames occur first |
| Quickstart.BuildGroups | src/services/quickstart/quickstart.service.ts:596-609 | the grouping loop |
| Quickstart.QuickstartService.CreateEnvForUniqueUsernames | src/services/quickstart/quickstart.service.ts:526-572 | environments and registrable hosts, group by group |
| Quickstart.QuickstartService.CreatePolicyForUniqueUsernames | src/services/quickstart/quickstart.service.ts:592-646 | policies and connectable hosts, group by group |
| Quickstart.SameEnvIffSameUsername | src/services/quickstart/quickstart.service.ts:526-572 | two hosts get the same environment exactly when their normalised usernames agree |
| Quickstart.OutputStable | src/services/quickstart/quickstart.service.ts:526-572 | per username the output is the input's hosts in order, or none if its request failed |
| Quickstart.OutputPermutes | src/services/quickstart/quickstart.service.ts:526-572 | without failures the output is a permutation of the input |
| Quickstart.SecondRunCreatesNothing | src/services/quickstart/quickstart.service.ts:549-560 | for any failures in either run, the second creates nothing exactly when each username fails again, succeeded before or had its environment |
| Quickstart.SecondRunKeepsOutput | src/services/quickstart/quickstart.service.ts:526-572 | a second run uses the first one's environments; with the same failures its output is the same |
| Quickstart.NewEnvNames | src/services/quickstart/quickstart.service.ts:545-560 | only environments named after usernames whose requests did not fail are created |
| Quickstart.NewPolicyNames | src/services/quickstart/quickstart.service.ts:611-626 | a policy is created only under a name that none has |
| Quickstart.PoliciesCoverGroups | src/services/quickstart/quickstart.service.ts:611-626 | every registered host of a group lies in the environment of the policy created for it |
| Quickstart.ConnectableStable | src/services/quickstart/quickstart.service.ts:592-646 | per username the connectable hosts are the registered ones in order, or none if rejected; its policy exists afterwards exactly if it did before or such a host is connectable |
| SshHosts.ParseBlock | src/services/quickstart/quickstart.service.ts:715-749 | which first parameter fills which field of a host, with port 22 by default, and exactly which errors are recorded |
| SshHosts.ParseSSHHosts | src/services/quickstart/quickstart.service.ts:689-764 | valid and invalid hosts of the first block of each name |
| SshHosts.EachHostOnce | src/services/quickstart/quickstart.service.ts:699-761 | each name ends up in exactly one result, once, as its first block says |
| SshHosts.ResultsInOrder | src/services/quickstart/quickstart.service.ts:699-761 | both results are in the order of the first blocks |
| TargetStrings.ParseTargetString | src/utils/utils.ts:190-252 | user, ID or name, environment ID or name, each field from its part |
| TargetStrings.PatternIff | src/utils/utils.ts:221-224 | the pattern accepts exactly 1 to 255 name characters followed by a colon or the end |
| TargetStrings.GuidIff | src/utils/utils.ts:254-258 | GUIDs are exactly five groups of 8, 4, 4, 4 and 12 hexadecimal digits joined by dashes |
| TargetStrings.ParsePrintedIff | src/utils/utils.ts:190-258 | parsing a printed target gives back user, name or ID and environment in their fields, exactly when the pattern accepts it, it has no @ and its name no period; the user may contain @ |
| TargetStrings.ParsePrinted | src/utils/utils.ts:190-258 | so it does for names and environments of name characters |
| TargetStrings.PrintParsedIff | src/utils/utils.ts:190-252 | an accepted string prints back exactly when it does not end in its first period |
| TargetStrings.TrailingPeriodLost | src/utils/utils.ts:190-252 | every name with a trailing period is accepted and loses it |
| TableText.GetReadableMultiLineString | src/utils/utils.ts:449-461 | the loop joins the wrapped lines, or keeps a text that fits a narrower column |
| TableText.WrappedKeepsText | src/utils/utils.ts:449-461 | the lines concatenate back to the value |
| TableText.WrappedLines | src/utils/utils.ts:449-461 | all lines but the last have exactly the width, and there are just as many as needed |
| TableText.WrapStopsIff | src/utils/utils.ts:454-458 | the loop stops exactly if the column is wider than two or the value fits |
| TableText.TwoColumnsNeverStop | src/utils/utils.ts:454-458 | one character in a column of two: something always remains |

## Left out

- TableText.GetReadableMultiLineString: stated for the columns and texts for which the loop stops, which are those of `WrapStopsIff`.
- RunningDaemonsIndexed: says nothing about the entries of a daemon on port 0, which filtering removes by design of its port test; `ListKeepsContextIff` gives the exact condition.
- DaemonManagement.DaemonManagementService.HandleDaemonStatus: does not model the display fields of a running status (local URL, joined groups), which are read off the configuration.
- DaemonManagement.DaemonManagementService.DisconnectAllDaemons: models a call during which nothing is stored; `DisconnectRuns` models the concurrent attempts and additions.
- Order of dictionary keys: connection IDs are taken not to look like array indices, which JavaScript would list first.
- Commands are atomic steps: two commands that interleave their reads and writes of the store or of the kubeconfig file are not modelled, except for additions during a disconnect.
- `updateKubeConfigWith` for `--outputFile` merges the same rolling configuration into another file that no other command reads.
- Security settings, certificates and keys: only the token is modelled, and only `--force` changes it.
- YAML and URL parsing: a kubeconfig is its four fields, a server is a scheme and a written port or not a URL (so are file URLs with a port).
- `getTokenSet` when the lock cannot be acquired: the code calls `cleanExit` without awaiting it, so the call may run on until the process ends; the model lets the process exit, as the message there says. A lock taken over as stale from a live holder is not modelled.
- `logout` and `login` while processes refresh: they write the store without the lock.
- `ShellEventType.Ready` with a target refresh: the awaited request before the connect is not modelled; and events after the terminal was disposed are taken not to be delivered.
- `parseInt` of ports, home directories and case folding of usernames and parameters are functions the model is given.
- Policies that already exist: quickstart reuses them whatever they permit; `PoliciesCoverGroups` speaks of the policies it creates.
- Windows: the registry configuration and `taskkill`; for include statements the quoted form is modelled.
- Daemon spawning, readiness polling, `copyExecutableToLocalDir`, HTTP services, logging and the other tables are not part of this model; they would add only plumbing.
