# nic, modelled and verified

nic configures a Linux machine's network and gives it back. This project models the parts of it that have to be right
under crashes, concurrency and fixed-width arithmetic, and proves what they promise. `dafny verify dfyconfig.toml`
checks everything.

**Pending revert** (`Revert.dfy`, `RevertProgress.dfy`). `nic` captures the machine, starts a detached watcher and
changes the configuration; unless the user confirms in time the watcher puts the machine back. Appliers, watchers and
any number of `Confirm` and `Cancel` callers share five files and one flock. Every process performs one file operation
per step, may die at any step, and frees the flock when it does. Each captured state carries a generation number that
no file holds; it serves to say whose files a watcher touches. The call that restores a snapshot is one step that
succeeds or fails. A confirmed generation is never restored, whatever dies. Watchers keep to their own generation
exactly as long as no active watcher is left without a record, which happens in two ways: its applier dies before
recording it, or a later caller cannot read the record and throws it away. `Arm` looks at the state file and writes
its marker without the lock, so the marker needs its own proviso: nobody is busy with another generation when it is
written. Both conditions are exact, step by step and over runs. For each way of violating them there is a run that the
program can make: only callers whose own save has succeeded arm or cancel, and anyone may save or confirm. A watcher
reverts only a dead applier's change or one whose deadline has passed, and each operation, undisturbed, reaches its
end or takes back what it wrote.

**Reconciliation** (`Reconcile.dfy`). Three files, each replaced atomically, say what nic must undo. Applying, tearing
down and restoring are abstract steps that may succeed, stop partway or be cut off by a crash. Links stand for
everything that only teardown can undo; settings for what a restore overwrites. Every step that goes wrong is recorded
in a ghost log, so that the outcome is determined by the faults.

**Daemon claim and reload hand-off** (`DaemonClaim.dfy`, `ReloadHandoff.dfy`, `ReloadProgress.dfy`). The PID file
alone excludes nobody (a run with two daemons is given); under the reload flock at most one process holds the claim. A
reload client that returns success had exactly the configuration it saved applied, and no request is applied twice.

**DHCP leases** (`Lease.dfy`, `V4Lease.dfy`, `V6Lease.dfy`, `Interface.dfy`, `LifecycleV4.dfy`, `LifecycleV6.dfy`).
Parsing and renewing leases, their timers, and the client's loop over renewals, rebinds, refusals, expiries and failed
applies. Forward commands may fail with or without effect, undo commands succeed. At every head of the loop the
addresses, the default route and the name servers that the client holds are exactly those of the lease it remembers.
Failed commands are counted in ghost state: what a turn does follows from the moment, the exchange due then and whether
a command failed.

**Packets** (`Bytes.dfy`, `PacketV4.dfy`, `PacketV6.dfy`, `Checksum.dfy`). Both codecs, with their length fields and
truncations, as functions on bytes and as the loops that compute them; round trips hold exactly for what the formats can
carry. The checksum loops run in a 32-bit accumulator whose wrap-around is modelled and shown not to happen.

**Order, scanners and small refinements** (`NaturalOrder.dfy`, `Scanner.dfy`, `Dns.dfy`, `ContextScopes.dfy`,
`Diff.dfy`). The natural order of included files, the comment stripper against the tokenizer, the shared resolver
policy, the stack of command contexts and the configuration diff.

`Wrappers.dfy` holds `Option` and `Result`. Code that updates state is a class or a method with loops, proved against a
function of its inputs or its old state, and the properties are proved about that function. The three protocols are
step machines on values, because their subject is the interleaving of processes. Steps of the outside world are
nondeterministic.

Some results are more exact than the code's own comments:

- Without server timers, a DHCPv4 lease renews before it rebinds before it expires exactly when the lease time is at
  most 613566756 s, and a DHCPv6 lease exactly when its shortest preferred lifetime is at most 1073741823 s; beyond
  that the 32-bit products wrap (`Leases.V4TimersOrdered`, `Leases.V6TimersOrdered`).
- A line that the first scanner accepts fails the second one exactly when its trimmed text ends in an odd number of
  backslashes (`Scanner.AcceptedLineTokenizes`, `Scanner.EscapedBlankIsRefused`).
- Once nic's own list is in resolv.conf somebody must answer for it, or emptying the policy will not rewrite the file.
  The operations that can leave it to nobody are known exactly (`Dns.StepKeepsManaged`). One of them is part of every
  revert: main.go:1584 puts back the resolv.conf of the captured machine, which usually holds nic's list, and forgets
  the policy; main.go:1588 then restores the previous policy. Afterwards the file is in order exactly when that policy
  is active or the file that was put back holds no list (`Dns.RevertKeepsManaged`), and a revert in which the lease
  brings no name server this time leaves a stale one (`Dns.PutBackGoesStale`).
- Renewing a DHCPv6 lease rounds the elapsed time up each time, so an address that the reply leaves out is kept exactly
  when a whole second of its life is left, and an address that has not expired can be dropped
  (`V6Lease.SurvivesWithASecondLeft`, `V6Lease.UnnamedIsKept`, `V6Lease.UnexpiredIsDropped`).
- A DHCPv4 renewal that widens the mask from /32 and keeps the router leaves the old host route behind, and no other
  renewal does (`LifecycleV4.CleanupSupersededLease`, `LifecycleV4.RenewalCanStrand`).

## Model

| member | source | states |
|---|---|---|
| PendingRevert.LockStep | internal/revert/revert.go:343-365 | every step of every process keeps the flock exclusive: who stands inside a locked section is its holder |
| PendingRevert.LocalKeepsLock | internal/revert/revert.go:62-202 | no file operation of a caller changes whether it is inside the locked section or which operation it runs |
| PendingRevert.CallerKeepsState | internal/revert/revert.go:169-202 | no file operation of a caller short of a new capture writes a state file; a caller comes to confirm only the generation on file, and to clear only after removing it |
| PendingRevert.WatcherOnlyRemoves | internal/revert/revert.go:232-341 | a watcher's file operations only remove files, and it restores only what it read under the lock with no confirmation present |
| PendingRevert.ConfirmStep | internal/revert/revert.go:62-341 | every step of every process keeps: the state on file and the state being restored are never of a confirmed generation, and a Confirm under way is about the state on file |
| PendingRevert.RunKeepsInvariants | internal/revert/revert.go:62-365 | the two invariants hold in every reachable state, whatever dies |
| PendingRevert.ConfirmIsFinal | internal/revert/revert.go:169-202 | once Confirm has returned success for a generation, no watcher restores it in any continuation of the run |
| PendingRevert.ConfirmExcludesRestore | internal/revert/revert.go:302-333 | Confirm neither marks nor clears nor succeeds while a watcher is inside its locked restore |
| PendingRevert.OwnStep | internal/revert/revert.go:210-341 | each watcher that can still act is on record and finds only its own generation's files: every step keeps this if and only if it does not leave an active watcher without a record (an applier dying before recording it, a record that cannot be read) |
| PendingRevert.OrderlyRunKeepsOwn | internal/revert/revert.go:62-228 | that invariant holds throughout a run exactly when no step of the run does so |
| PendingRevert.ArmStep | internal/revert/revert.go:140-148 | a step breaks what is relied on about the marker if and only if it writes one while somebody is busy with another generation |
| PendingRevert.StateDecidesCrossing | internal/revert/revert.go:140-148 | while a state is on file, the written marker crosses an active watcher exactly when that state is no longer the one that the test of Arm saw |
| PendingRevert.WatcherKeepsToItsGeneration | internal/revert/revert.go:254-341 | in an orderly run a watcher restores its own generation only, and what its locked or unlocked cleanup removes, the arm marker aside, is its own |
| PendingRevert.TimelyRunKeepsArm | internal/revert/revert.go:140-148 | whoever relies on the arm marker finds only its own generation's throughout a run exactly when no marker is written late in it |
| PendingRevert.WatcherKeepsToItsMarker | internal/revert/revert.go:254-279 | hence in a run without late markers a watcher is only armed by, and only removes, a marker of its own generation |
| PendingRevert.LateArmCrosses | main.go:1137-1154 | an orderly run in which B saves and passes the test of Arm, the user confirms, A saves, and B's marker stands in front of A's watcher |
| PendingRevert.StoppedForGood | internal/revert/revert.go:152-228 | in an orderly run, when Confirm or Cancel returns success its files are gone, except that Arm may have written its marker again, and no watcher can touch a file again |
| PendingRevert.OneWatcherAfterSave | internal/revert/revert.go:62-137 | in an orderly run, when SaveAndStartWatcher returns success the only watcher left that can act is on record and guards the new generation |
| RevertProgress.RevertRestores | internal/revert/revert.go:302-333 | a watcher that decided to revert, finds the lock free and no confirmation, restores the state and the configuration on file |
| RevertProgress.DeadlineReverts | internal/revert/revert.go:276-298 | an armed watcher whose deadline passes unconfirmed gets to that restore |
| RevertProgress.DeadApplierReverts | internal/revert/revert.go:254-274 | an unarmed watcher whose applier is gone gets to that restore |
| RevertProgress.RestoreClears | internal/revert/revert.go:232-341 | after a successful restore, and on finding without or with the lock that nothing is pending or that it is confirmed, all five files are removed, the lock is free and the watcher has exited |
| RevertProgress.LiveApplierIsLeftAlone | internal/revert/revert.go:254-274 | in every continuation of a run in which its applier lives and no arm marker stands, an unarmed watcher never goes for the lock, and it keeps watching while an unconfirmed state is on file |
| RevertProgress.DeadlineIsAwaited | internal/revert/revert.go:276-293 | in every continuation of a run in which its deadline does not pass, an armed watcher does not either |
| RevertProgress.MarkerArms | internal/revert/revert.go:254-274 | an unarmed watcher that finds the marker starts its countdown |
| RevertProgress.FailedRevertKeepsFiles | internal/revert/revert.go:300-334 | a revert that cannot have the lock, cannot tell what is pending or fails to restore leaves all files in place and the lock free |
| RevertProgress.StopClears | internal/revert/revert.go:152-202 | Confirm and Cancel with no watcher on record clear every file and succeed; Confirm confirms the generation on file |
| RevertProgress.StopSignals | internal/revert/revert.go:210-217 | a watcher on record is signalled before anything is removed |
| RevertProgress.StopFinishes | internal/revert/revert.go:218-228 | and once it is gone every file is cleared likewise |
| RevertProgress.FailedStopKeepsFiles | internal/revert/revert.go:191-196 | a watcher that cannot be signalled or does not exit makes the call fail with every file, the marker included, in place |
| RevertProgress.FailedMarkKeepsFiles | internal/revert/revert.go:186-189 | so does a marker that cannot be written |
| RevertProgress.NothingDone | internal/revert/revert.go:69-71 | Confirm with nothing pending and SaveAndStartWatcher with something pending change nothing |
| RevertProgress.SaveSucceeds | internal/revert/revert.go:62-137 | an undisturbed capture ends with the next generation and the configuration on file, neither confirmed nor armed, and its watcher on record |
| RevertProgress.FailedWriteLeavesNothing | internal/revert/revert.go:84-87 | a capture that cannot write the state leaves nothing |
| RevertProgress.FailedCopyUndoes | internal/revert/revert.go:88-96 | one that cannot copy the configuration takes the state back |
| RevertProgress.FailedRecordUndoes | internal/revert/revert.go:98-103 | one that cannot identify the applier clears everything |
| RevertProgress.FailedSpawnUndoes | internal/revert/revert.go:111-115 | one that cannot start the watcher takes state and configuration back |
| RevertProgress.FailedSaveUndoes | internal/revert/revert.go:117-130 | one that cannot record the watcher takes it back too |
| RevertProgress.ArmMarks | internal/revert/revert.go:140-148 | Arm writes the marker exactly when something is pending |
| PendingRevert.OrphanBreaksIn | internal/revert/revert.go:111-130 | a run in which an applier dies before recording its watcher, the user confirms, and the watcher is about to delete the state file of the next save |
| PendingRevert.UnreadRecordSurvives | internal/revert/revert.go:210-214 | a run in which the watcher's record cannot be read and Confirm returns success while the watcher can still act |
| Reconcile.Machine.constructor | main.go:463-486 | a machine that nic has not touched has nothing on file |
| Reconcile.Machine.EnsureBaseline | main.go:463-486 | an existing baseline is kept; none is taken while a configuration is on file; a new one is the machine as it is |
| Reconcile.Machine.ReturnToBaseline | main.go:508-529 | from any files and any half-applied machine it succeeds exactly when no step fails, and then ends exactly on the baseline; a failed teardown does not keep the rest from being restored |
| Reconcile.Machine.RollBack | main.go:553-571 | it succeeds exactly when no step fails, and then ends with the previous configuration, or nothing, on the baseline, with the applied snapshot unchanged; a failed teardown does not keep the rest from being put back |
| Reconcile.Machine.UndoAll | main.go:664-679 | what is being applied and what is applied are torn down and the baseline restored, each whatever fails before; it succeeds exactly when no step fails |
| Reconcile.Machine.ReconcileConfig | main.go:491-551 | it succeeds exactly when no step fails, with the configuration applied on the baseline and only it on file; it rolls back exactly when nothing but applying or recording that configuration fails, to the previous one; any failure or crash keeps the invariant that what only teardown can undo is on file |
| Reconcile.Machine.StopManagedConfig | main.go:651-684 | it succeeds exactly when no step fails and the fallback, if called for, can be read, and gives the machine back as it was with nothing on file; until then the baseline stays |
| Reconcile.Machine.History | main.go:463-684 | over any sequence of starts, stops and outside changes with any faults and crashes the invariant holds; a start that succeeded or rolled back leaves exactly the configuration on file on the original machine, a successful stop of a machine in nic's charge gives that machine back, and when nothing goes wrong every start and stop succeeds |
| DaemonClaim.InvStep | internal/control/control.go:126-169 | every step keeps: one process at a time inside the claim, and a live holder's record stands in the file |
| DaemonClaim.InvRun | main.go:179-213 | that invariant holds in every reachable state under the reload lock |
| DaemonClaim.AtMostOneDaemon | main.go:179-213 | at most one live process has returned from ClaimDaemon without releasing it |
| DaemonClaim.RemovesOwnRecordOnly | internal/control/control.go:383-388 | removeIfOwned and a failed claim only ever remove the record of the process running them |
| DaemonClaim.DiscardsStaleRecordsOnly | internal/control/control.go:142-168 | a starter about to discard a record never takes it from a live daemon |
| DaemonClaim.StaleRecordIsReplaced | internal/control/control.go:126-169 | a record left by a crash, readable or not, does not keep an undisturbed starter out |
| DaemonClaim.FinishClaim | internal/control/control.go:126-169 | from discarding a stale record, five steps lead to a running daemon on record |
| DaemonClaim.FreeClaim | internal/control/control.go:126-169 | with no record on file an undisturbed starter becomes a running daemon on record |
| DaemonClaim.LiveRecordKeepsOut | internal/control/control.go:159-162 | a live record keeps a starter out and stays as it was |
| DaemonClaim.FailedStepLeavesFile | internal/control/control.go:155-165 | a claim that cannot create the file or discard a stale one leaves it as it is |
| DaemonClaim.FailedClaimUndoes | internal/control/control.go:143-152 | one that fails after creating the file takes it back |
| DaemonClaim.SecondDiscardIsTheLast | internal/control/control.go:141-168 | there is no third attempt |
| DaemonClaim.ExitRemovesRecord | main.go:179-213 | in every reachable state a daemon that exits removes its own record and is gone |
| DaemonClaim.OthersRecordIsLeft | internal/control/control.go:383-388 | any other record is left alone |
| DaemonClaim.UnguardedClaimIsNotExclusive | internal/control/control.go:126-169 | without the reload lock a run exists in which two processes hold the claim |
| ReloadHandoff.InvStep | main.go:1170-1214 | every step of clients and daemon, deaths included, keeps the agreement of files, issued requests and changes made |
| ReloadHandoff.InvRun | main.go:1475-1538 | that agreement holds in every reachable state |
| ReloadProgress.SuccessMeansApplied | main.go:1170-1214 | a client that returned success had exactly the configuration it saved applied without error |
| ReloadProgress.AppliedAtMostOnce | main.go:1487-1524 | every change is one a client asked for, with its configuration, and no request leads to two |
| ReloadProgress.BegunAtMostOnce | main.go:1487-1524 | no request leads to a second beginning of a change either, not even of one that the daemon did not live to finish, and what is begun is the configuration reviewed |
| ReloadProgress.TimedOutNeverBegins | main.go:1203-1212 | a client that times out before the daemon has read its request withdraws it: in no continuation is its configuration begun or applied |
| ReloadProgress.ReadRequestIsBegun | main.go:1487-1515 | once the daemon has read it, the withdrawal comes too late |
| ReloadProgress.DeadlineWithdraws | main.go:1203-1212 | a deadline that passes withdraws the request if it is still there and leaves another client's alone |
| ReloadProgress.ClientSends | main.go:1170-1206 | an undisturbed client gets to polling with its configuration and request on file and no old response |
| ReloadProgress.DaemonServes | main.go:1487-1524 | an undisturbed daemon that finds a request addressed to it applies that configuration and answers |
| ReloadProgress.DaemonRefuses | main.go:1501-1524 | a request for another daemon, or without its configuration, is answered with an error and changes nothing |
| ReloadProgress.StartupRefuses | main.go:1461-1473 | so is any request during startup |
| ReloadProgress.FailedChangeIsReported | main.go:1515-1524 | a change that fails is answered with an error |
| ReloadProgress.StartDiscards | main.go:1424-1459 | a starting daemon keeps the request addressed to it with its configuration and nothing else |
| ReloadProgress.UnsavedLeavesNothing | main.go:1176-1185 | a client that finds no daemon or cannot save its configuration leaves nothing |
| ReloadProgress.UnwrittenIsTakenBack | main.go:1194-1197 | one that cannot write its request takes its configuration back |
| ReloadProgress.UnsentIsTakenBack | main.go:1198-1202 | one that cannot signal the daemon takes both back |
| ReloadProgress.ClientReturns | internal/control/control.go:273-287 | a polling client takes the answer with its identifier for what it says and returns it |
| ReloadProgress.ReloadSucceeds | main.go:1170-1214 | a new client and a waiting daemon with the lock free get in fifteen steps to the client's success, with its configuration last in the history of changes and nothing left in the files |
| Leases.V4TimersOrdered | internal/dhcp/lease.go:59-79 | without server timers renewal, rebinding and expiry are in order if and only if the lease time is at most 613566756 s |
| Leases.V6TimersOrdered | internal/dhcp/lease.go:82-114 | for a well-formed lease without server timers the three deadlines are in order if and only if the shortest preferred lifetime is at most 1073741823 s |
| Leases.CidrPrefix | internal/dhcp/lease.go:49-56 | the prefix on the interface is the number of ones in front of the mask, bit by bit; 32 for a mask of zeros and for one that is not ones followed by zeros |
| Leases.V4Timers | internal/dhcp/lease.go:59-79 | the server's timers are taken as they are; without them renewal is after half the lease time and, as long as the product fits 32 bits, rebinding after seven eighths, both rounded down |
| Leases.V4ServerTimersOrdered | internal/dhcp/lease.go:59-79 | with both timers from the server the deadlines are in order if and only if the times are |
| Leases.V6Timers | internal/dhcp/lease.go:82-114 | the same with half and four fifths of the shortest preferred lifetime; expiry is after the shortest valid lifetime |
| Leases.V6ServerTimersOrdered | internal/dhcp/lease.go:82-114 | with both timers from the server the deadlines are in order if and only if the times are |
| Leases.ShortestPreferredFirst | internal/dhcp/lease.go:116-138 | the shortest preferred lifetime is at most the shortest valid lifetime |
| Leases.ShortestValidLifetime | internal/dhcp/lease.go:116-126 | the loop finds the minimum, and finds one exactly when there are addresses |
| Leases.ShortestPreferredLifetime | internal/dhcp/lease.go:128-138 | the loop finds the minimum, and finds one exactly when there are addresses |
| Leases.SplitGroups | internal/dhcp/v6_packet.go:389-396 | the name server loop yields the whole groups of bytes in order |
| Leases.GroupsAre | internal/dhcp/v6_packet.go:389-396 | there are as many groups as whole ones fit the data, and the k-th is the k-th slice |
| Bytes.V4InV6 | internal/dhcp/v4_client.go:241-243 | an IPv4 address and its IPv6 form are taken for one another, and no other IPv6 address has an IPv4 form |
| V4Lease.ParseLease | internal/dhcp/v4_client.go:272-318 | the lease is the defaults overlaid with what the acknowledgement says |
| V4Lease.ParseRenewedLease | internal/dhcp/v4_client.go:232-269 | parsing afresh and putting back what is missing amounts to the previous lease overlaid with what the acknowledgement says |
| V4Lease.LeaseSays | internal/dhcp/v4_client.go:272-318 | what the first option with each code holds, in the form asked for, is what the lease says: address, mask, router, server, domain, name servers |
| V4Lease.LeaseTimes | internal/dhcp/v4_client.go:303-315 | and the three times, as big-endian words |
| V4Lease.LeaseKeeps | internal/dhcp/v4_client.go:241-268 | what is not sent, or not in that form, stays as it was |
| V4Lease.FirstLeaseDefaults | internal/dhcp/v4_client.go:272-318 | without options a first lease is a /24 for one day without timers |
| V4Lease.RenewalNeverForgets | internal/dhcp/v4_client.go:232-269 | a router, server, domain or name servers once known stay known |
| V4Lease.SilenceRenews | internal/dhcp/v4_client.go:229-269 | an acknowledgement that omits everything only moves the time of acquisition, and hearing one twice is hearing it once |
| V6Lease.Elapsed | internal/dhcp/v6_client.go:307-317 | whole seconds rounded up, none when the clock went backwards |
| V6Lease.RemainingComposes | internal/dhcp/v6_client.go:294-305 | remaining lifetimes never wrap and compose additively over elapsed time |
| V6Lease.RenewedAddresses | internal/dhcp/v6_client.go:266-292 | the addresses after a renewal are exactly those the reply grants and what is left of those it does not mention |
| V6Lease.WithdrawnIsGone | internal/dhcp/v6_client.go:238-245 | an address named only with a zero valid lifetime is gone |
| V6Lease.RenewedIsWellFormed | internal/dhcp/v6_client.go:234-252 | a renewed lease has addresses, each with a positive valid lifetime and a preferred one within it |
| V6Lease.RenewalsStayWellFormed | internal/dhcp/v6_client.go:266-292 | the same over any sequence of renewals |
| V6Lease.UnnamedDescends | internal/dhcp/v6_client.go:276-289 | an address no reply names comes from the first lease and its expiry has not moved later, nor earlier by more than a second an accepted reply |
| V6Lease.UnnamedOutlasts | internal/dhcp/v6_client.go:276-289 | such an address is still there, and the lease with it, as long as its life less a second an accepted reply is not over |
| V6Lease.UnnamedIsKept | internal/dhcp/v6_client.go:266-305 | over any sequence of replies, refused ones and clock jumps included, the addresses that no reply names are exactly what is left of the first lease's after the seconds consumed by the accepted ones |
| V6Lease.KeptExpiry | internal/dhcp/v6_client.go:294-317 | one renewal moves the expiry of a kept address earlier by less than a second and never later, and keeps it if and only if a whole second of its life is left |
| V6Lease.UnexpiredIsDropped | internal/dhcp/v6_client.go:307-317 | a lease of one second is dropped a nanosecond after its acquisition when a reply leaves its address out |
| V6Lease.SurvivesWithASecondLeft | internal/dhcp/v6_client.go:266-292 | after an accepted reply that does not name an address the lease lists it if and only if a whole second of its life was left |
| V6Lease.ParseLeaseV6Reply | internal/dhcp/v6_client.go:213-260 | the parser's errors and lease, and the set of addresses the reply mentions |
| V6Lease.GrantAddresses | internal/dhcp/v6_client.go:234-252 | the address loop refuses exactly the replies with an unacceptable address and otherwise grants and notes all others |
| V6Lease.ParseLeaseV6 | internal/dhcp/v6_client.go:202-211 | a first lease is never empty and well formed; it fails exactly for a bad reply or one that grants nothing |
| V6Lease.ParseRenewedLeaseV6 | internal/dhcp/v6_client.go:266-292 | the loop over the previous addresses computes the renewal specified |
| V6Lease.ReplySays | internal/dhcp/v6_client.go:213-252 | an IA_NA with this identifier, these timers and these options gives the lease its timers and the granted addresses; another identifier, or a preferred lifetime above a valid one, is refused |
| V6Lease.ReplyNameservers | internal/dhcp/v6_client.go:255-257 | the name servers are the 16-byte groups of their option, in order |
| LifecycleV4.ApplySteps | internal/dhcp/apply.go:18-58 | what is in place when a forward command fails, wherever it stops |
| LifecycleV4.ApplyLeaseRoutes | internal/dhcp/apply.go:60-81 | no route without a router; otherwise a host route for a /32 mask and then the default route, or a failure that may have set either |
| LifecycleV4.RollbackLeaseTransition | internal/dhcp/apply.go:83-96 | from any half-applied transition the interface, host routes included, is back to exactly the previous lease, or to nothing |
| LifecycleV4.ApplyLeaseReplacing | internal/dhcp/apply.go:18-58 | all of the new lease beside the old address, or, exactly when a command fails, no change at all |
| LifecycleV4.CleanupSupersededLease | internal/dhcp/apply.go:98-113 | the old address goes unless it is the new one, the old host route goes with its router; the host routes come out right if and only if the renewal does not widen a /32 mask behind the same router |
| LifecycleV4.RenewalCanStrand | internal/dhcp/v4_client.go:247-252 | an acknowledgement with a wider mask does just that |
| LifecycleV4.UnapplyLease | internal/dhcp/apply.go:116-124 | the lease's address, default route, host route and name servers are gone |
| LifecycleV4.RemoveLeaseRoutes | internal/dhcp/apply.go:126-139 | a default route via the lease's router is gone, any other is left alone; its host route is gone |
| LifecycleV4.Client.Start | internal/dhcp/native.go:35-82 | it succeeds exactly when a lease is acknowledged and no command fails, and then has brought the interface up, applied that lease and established the loop's invariant, which only a daemon enters; one that fails leaves nothing on the interface |
| LifecycleV4.Client.ReacquireV4 | internal/dhcp/native.go:266-287 | keeps the invariant; it sets the acknowledged lease exactly when there is one and no command fails, and otherwise schedules a retry unless it is being stopped |
| LifecycleV4.Client.ExpireV4 | internal/dhcp/native.go:289-299 | nothing is held, no lease is remembered and a next action is scheduled |
| LifecycleV4.Client.MaintainV4 | internal/dhcp/native.go:211-264 | keeps the invariant; nothing happens before the renewal deadline; from then on a renewal, and from the rebinding deadline on a rebinding, decides: acknowledged, it is adopted unless a command fails; refused, or with the lease expired, a new lease is sought; failed, the lease stays for a retry unless it has run out; host routes stay right unless a renewal strands one |
| LifecycleV4.Client.Release | internal/dhcp/native.go:404-428 | nothing is left on the interface |
| LifecycleV4.Client.Wait | internal/dhcp/native.go:173-197 | the timer fires no earlier than the next action, so a lease that is held then is due |
| LifecycleV4.Client.RenewLoop | internal/dhcp/native.go:162-204 | over any number of turns the lease and the interface agree at the head of each, every turn is worked on in its order and none before the next action is due, a next action always exists so that only cancellation ends the loop, and cancellation leaves nothing behind |
| LifecycleV6.ApplySteps | internal/dhcp/apply.go:146-172 | what is in place when a forward command fails, wherever it stops |
| LifecycleV6.RollbackLeaseTransitionV6 | internal/dhcp/apply.go:174-189 | from any half-applied transition the addresses are exactly those of the previous lease, or none |
| LifecycleV6.ApplyLeaseV6Replacing | internal/dhcp/apply.go:146-172 | all of the new addresses beside the old ones, or, exactly when a command fails, no change at all |
| LifecycleV6.CleanupSupersededLeaseV6 | internal/dhcp/apply.go:207-218 | the old addresses go, but for those that are in the new lease too |
| LifecycleV6.UnapplyLeaseV6 | internal/dhcp/apply.go:192-201 | the lease's addresses and name servers are gone |
| LifecycleV6.Client.Start | internal/dhcp/native.go:84-137 | it succeeds exactly when a proper reply comes and no command fails, and then has brought the interface up, applied the lease in the reply and established the loop's invariant, which only a daemon enters; one that fails leaves nothing on the interface |
| LifecycleV6.Client.ReacquireV6 | internal/dhcp/native.go:363-384 | keeps the invariant; it sets the lease of a proper reply exactly when there is one and no command fails, and otherwise schedules a retry unless it is being stopped |
| LifecycleV6.Client.ExpireV6 | internal/dhcp/native.go:386-396 | nothing is held, no lease is remembered and a next action is scheduled |
| LifecycleV6.Client.MaintainV6 | internal/dhcp/native.go:301-361 | the same for DHCPv6: the reply to the exchange that is due is adopted unless a command fails; one that leaves no address, or an expired address, makes the client seek a new lease; a failed exchange or an unknown identity leaves the lease for a retry unless an address has run out |
| LifecycleV6.Client.Release | internal/dhcp/native.go:430-456 | nothing is left on the interface |
| LifecycleV6.Client.Wait | internal/dhcp/native.go:173-197 | the timer fires no earlier than the next action, so a lease that is held then is due |
| LifecycleV6.Client.RenewLoop | internal/dhcp/native.go:162-204 | the same as for DHCPv4, with the whole list of addresses |
| Checksum.FoldIsOnesComplementSum | internal/dhcp/v4_packet.go:328-331 | folding carries computes the representative of the sum modulo 65535 in 1..65535, zero for zero |
| Checksum.FoldCarries | internal/dhcp/v4_packet.go:360-363 | the fold loop ends, without wrapping, in the folded sum |
| Checksum.StoredComplementVerifies | internal/dhcp/v4_packet.go:292-318 | storing the complement of the folded sum makes header, or pseudo-header and datagram, fold to 0xFFFF |
| Checksum.WordSumOfStore | internal/dhcp/v4_packet.go:310-316 | a word stored at an even offset counts once |
| Checksum.SumWords | internal/dhcp/v4_packet.go:321-327 | the 32-bit accumulator does not overflow |
| Checksum.IpChecksum | internal/dhcp/v4_packet.go:321-333 | the complement of the one's-complement sum |
| Checksum.UdpChecksum | internal/dhcp/v4_packet.go:336-369 | never zero; the complement of the sum with the checksum field left out, or 0xFFFF |
| Checksum.SumDatagram | internal/dhcp/v4_packet.go:346-358 | passing over the checksum field sums the datagram with that field cleared, without overflow |
| Checksum.FillHeader | internal/dhcp/v4_packet.go:292-312 | the header holds the given fields and folds to 0xFFFF |
| Checksum.FillDatagram | internal/dhcp/v4_packet.go:306-317 | the UDP header and payload are in place and, with the pseudo-header, fold to 0xFFFF |
| Checksum.WrapUDPIPFromTo | internal/dhcp/v4_packet.go:292-318 | for every payload whose lengths fit their fields, the packet carries it from port 68 to port 67 between the two addresses with both checksums verifying and a UDP checksum that is never zero |
| Checksum.HeaderIsSaid | internal/dhcp/v4_packet.go:295-304 | the header reads as IPv4 with UDP, its total length and the two addresses in place |
| Checksum.DatagramIsSaid | internal/dhcp/v4_packet.go:306-309 | the datagram reads as one from port 68 to port 67 with its length and its payload |
| Checksum.ChecksOut | internal/dhcp/v4_packet.go:321-333 | the receiver's test: a header whose words fold to 0xFFFF has checksum zero |
| PacketV4.PacketRoundTrip | internal/dhcp/v4_packet.go:71-161 | a packet parses back to itself despite padding if and only if it has 6 hardware address bytes, four-byte addresses, no option that reads as pad or end, and data up to 255 bytes |
| PacketV4.ReencodingIsStable | internal/dhcp/v4_packet.go:71-161 | for all accepted bytes, truncated options included, encoding and parsing again changes nothing |
| PacketV4.OptionsComeBack | internal/dhcp/v4_packet.go:89-97 | an option list comes back whatever follows the end option |
| PacketV4.PaddedOptionsComeBack | internal/dhcp/v4_packet.go:134-158 | options come back however they are padded and whether the end option, the end of the bytes or an option cut short stops them |
| PacketV4.OptionsExplainBytes | internal/dhcp/v4_packet.go:134-158 | and all bytes are of that form for the options read from them |
| PacketV4.DecodedIsEncodable | internal/dhcp/v4_packet.go:106-161 | what the parser yields is something the format can carry |
| PacketV4.Marshal | internal/dhcp/v4_packet.go:71-103 | the code that fills and appends to the buffer computes the encoding, at least 300 bytes long |
| PacketV4.ParseV4Packet | internal/dhcp/v4_packet.go:106-161 | the offset loop computes the decoding, errors included |
| PacketV4.GetOption | internal/dhcp/v4_packet.go:164-171 | it returns the data of the first option with the code if and only if there is one, wherever it stands |
| PacketV4.LookupIs | internal/dhcp/v4_packet.go:164-171 | every option is searched |
| PacketV6.MessageRoundTrip | internal/dhcp/v6_packet.go:131-181 | a message parses back to itself if and only if its transaction has 3 bytes and all data fits the length field |
| PacketV6.ReencodingIsStable | internal/dhcp/v6_packet.go:131-173 | for all accepted bytes, encoding and parsing again changes nothing |
| PacketV6.IanaRoundTrip | internal/dhcp/v6_packet.go:335-386 | IAID and address list come back through the nested option encoding, in order |
| PacketV6.OptionsComeBack | internal/dhcp/v6_packet.go:156-171 | options come back wherever the bytes stop after them |
| PacketV6.OptionsExplainBytes | internal/dhcp/v6_packet.go:156-171 | and all bytes are of that form for the options read from them |
| PacketV6.IanaIsRead | internal/dhcp/v6_packet.go:353-386 | identifier, both timers and the addresses among any options are read, up to an option cut short |
| PacketV6.AddrsInOne | internal/dhcp/v6_packet.go:373-381 | an address option gives its address whatever is nested in it, any other and a short one nothing |
| PacketV6.AddrsConcat | internal/dhcp/v6_packet.go:364-383 | the addresses are read in the order of their options |
| PacketV6.MessageConveys | internal/dhcp/v6_packet.go:234-327 | up to 2340 addresses, each of the four messages conveys client, server where present, IAID and all addresses, and all but RELEASE ask for name servers and search list |
| PacketV6.TooManyAddresses | internal/dhcp/v6_packet.go:175-181 | with more addresses the 16-bit length field is cut and the message does not |
| PacketV6.ConveysUpToTheLimit | internal/dhcp/v6_packet.go:234-350 | hence exactly up to 2340 addresses |
| PacketV6.AddrsNeedBytes | internal/dhcp/v6_packet.go:353-386 | each address read takes 28 bytes |
| PacketV6.Marshal | internal/dhcp/v6_packet.go:131-142 | the append loop computes the encoding |
| PacketV6.MarshalOption | internal/dhcp/v6_packet.go:175-181 | code, low 16 bits of the length, data |
| PacketV6.ParseV6Message | internal/dhcp/v6_packet.go:145-173 | the offset loop computes the decoding |
| PacketV6.BuildIana | internal/dhcp/v6_packet.go:335-350 | the loop builds the IA_NA data |
| PacketV6.ParseIana | internal/dhcp/v6_packet.go:353-386 | the loop reads the IA_NA data |
| PacketV6.BuildRequestV6 | internal/dhcp/v6_packet.go:234-274 | conveys client, server, IAID and addresses if and only if there are at most 2340 of them |
| PacketV6.BuildRenewV6 | internal/dhcp/v6_packet.go:277-290 | the same |
| PacketV6.BuildRebindV6 | internal/dhcp/v6_packet.go:294-306 | the same, with no server |
| PacketV6.BuildReleaseV6 | internal/dhcp/v6_packet.go:316-327 | the same |
| NaturalOrder.StrictWeakOrder | internal/config/config.go:555-606 | irreflexive, asymmetric, transitive, and transitive where it does not decide |
| NaturalOrder.IncomparableWhenNormalizedEqual | internal/config/config.go:574-594 | two names are incomparable exactly when they are equal up to leading zeros of their numbers |
| NaturalOrder.StrippedByValue | internal/config/config.go:581-592 | comparing stripped digit runs by length and then as strings is comparing their values |
| NaturalOrder.LoadOrderIsDetermined | internal/config/config.go:163-170 | any two sorted orders of the same names agree up to leading zeros, so the order of included files is well defined |
| NaturalOrder.NaturalLess | internal/config/config.go:555-606 | the loop ends and compares the names as sequences of numbers and bytes |
| Scanner.AcceptedLineTokenizes | internal/config/config.go:174-182 | a line the stripper accepts never fails tokenizing for an open quote, and fails for a trailing escape exactly when its text ends in an odd number of backslashes, the last of which escaped trimmed white space |
| Scanner.EscapedBlankIsRefused | internal/config/config.go:608-644 | a backslash and a blank is such a line |
| Scanner.PrintedTokensComeBack | internal/config/config.go:608-707 | any tokens, bare or in either kind of quotes, with escapes inside and any blanks between, come back unchanged; the first pass takes nothing but white space from the ends of such a line |
| Scanner.CommentIsDropped | internal/config/config.go:608-644 | a comment after them is dropped, whatever it holds |
| Scanner.GluedHashIsText | internal/config/config.go:633-635 | a hash that follows anything but a blank starts none |
| Scanner.TrimSpaceIs | internal/config/config.go:634-643 | trimming takes white space characters from both ends, as many as there are, and nothing else |
| Scanner.EscapedAfterOddBackslashes | internal/config/config.go:612-622 | the scanners are in the escaped state exactly after an odd number of backslashes |
| Scanner.TrimBackKeepsQuote | internal/config/config.go:635-643 | trimming the end never changes the quote state |
| Scanner.TrimFrontKeepsMode | internal/config/config.go:635-643 | trimming the front changes nothing |
| Scanner.StripInlineComment | internal/config/config.go:608-644 | the loop cuts at the first plain hash at the start or after a blank, and refuses exactly the unfinished lines |
| Scanner.TokenizeStrict | internal/config/config.go:651-707 | the loop computes the tokens, or the error, in the same quote and escape state at every byte |
| Dns.DesiredMeans | internal/dns/dns.go:247-269 | static entries win when present; otherwise the list is the duplicate-free union of the leases |
| Dns.DedupKeepsOrder | internal/dns/dns.go:258-268 | the union keeps the order of first occurrences, hence source order |
| Dns.AscendingIsUnique | internal/dns/dns.go:252-256 | sorting the sources gives one order, whatever the order in which the map was visited |
| Dns.SortAscends | internal/dns/dns.go:256 | sorted sources ascend strictly and are the same sources |
| Dns.NormalizeNameservers | internal/dns/dns.go:214-229 | fails exactly for an input that is no address; otherwise the first occurrences of the canonical forms |
| Dns.CloneLeases | internal/dns/dns.go:231-237 | a fresh map with the same entries, in whatever order they are visited |
| Dns.ManagedNameservers | internal/dns/dns.go:247-269 | the same list for every iteration order |
| Dns.Manager.ConfigureStaticNameservers | internal/dns/dns.go:76-86 | replaces the static entries and nothing else, or changes nothing |
| Dns.Manager.ApplyManagedNameservers | internal/dns/dns.go:89-99 | it succeeds exactly when no write fails; success leaves the file listing what the policy calls for; failure leaves the policy unchanged |
| Dns.Manager.SetLeaseNameservers | internal/dns/dns.go:104-129 | it succeeds exactly for proper input and no failed write; success commits exactly that lease's contribution in a fresh map and the file lists the result; failure leaves the policy unchanged |
| Dns.Manager.RemoveLeaseNameservers | internal/dns/dns.go:132-134 | the lease's contribution is gone, or nothing has changed |
| Dns.Manager.ResetManagedNameservers | internal/dns/dns.go:138-142 | the policy is empty and the file untouched |
| Dns.Manager.RestoreSnapshot | internal/dns/dns.go:305-343 | it succeeds exactly when no access to the file fails; success puts the captured contents back, whatever they are, and forgets the policy; an error may come before, which keeps the policy, or after |
| Dns.Manager.CaptureManagedState | internal/dns/dns.go:146-150 | a copy of the policy that shares nothing with it |
| Dns.Manager.RestoreManagedState | internal/dns/dns.go:155-166 | it succeeds exactly when no write fails; success commits the captured policy, again as a copy, and writes it; failure leaves the policy unchanged; the file is managed afterwards if and only if the captured policy is active, or calls for nothing while the file holds no list |
| Dns.History | internal/dns/dns.go:62-343 | after any history with any failures policy and file are what the operations and their outcomes make them, nothing fails but for improper input or a failed access, captured states are what they were when captured, and a last successful write of an active policy is what the file lists |
| Dns.AppliedFileIsTrue | internal/dns/dns.go:89-99 | a successful Apply leaves no list of nic's in the file but the one called for, exactly when the file is managed, or there is something to write over it, or it lists nothing |
| Dns.StepKeepsManaged | internal/dns/dns.go:62-343 | every operation with every outcome keeps the file managed if and only if it is safe: no reset while the file holds a list, no list put back, no failed write that leaves part of a list to an inactive policy, no restore of an inactive policy that calls for something or meets a list |
| Dns.ManagedThroughout | internal/dns/dns.go:62-343 | the file is managed throughout a history exactly when every step in it is safe |
| Dns.RevertKeepsManaged | main.go:1566-1590 | after a policy that was just applied is captured, captured contents are put back and the policy is restored, the file is managed if and only if the policy is active or the contents left there are no list |
| Dns.PutBackGoesStale | main.go:1566-1590 | it need not be: a lease lists an address, the machine is captured, and the revert, in which the lease brings no name server, puts the captured list back for good |
| Dns.CaptureBeforeWriteGoesStale | internal/dns/dns.go:155-166 | nor after another use of a capture: a policy configured, captured before any write, restored and then emptied leaves its entry in the file |
| Dns.LeaseBetweenGoesStale | internal/dns/dns.go:155-166 | nor when a lease writes the file between such a capture of a policy that calls for nothing and its restoration |
| ContextScopes.LatestIs | internal/executor/executor.go:64-71 | the most recent use not restored decides |
| ContextScopes.CurrentIsLast | internal/executor/executor.go:64-71 | which is the last scope of the slice, or the background when it is empty |
| ContextScopes.OpenKeeps | internal/executor/executor.go:34-42 | appending a scope keeps the slice a representation of the uses |
| ContextScopes.BuryKeeps | internal/executor/executor.go:48-53 | so does taking the context out of a scope in place |
| ContextScopes.PopKeeps | internal/executor/executor.go:54-56 | and dropping a last scope without a context |
| ContextScopes.Executor.UseCommandContext | internal/executor/executor.go:34-60 | one more use, and a handle for it |
| ContextScopes.Executor.RestoreScope | internal/executor/executor.go:44-59 | exactly that use is restored; a second time changes nothing |
| ContextScopes.Executor.CommandContext | internal/executor/executor.go:64-71 | the context of the most recent use not restored, or the background |
| ContextScopes.Session | internal/executor/executor.go:34-71 | the same after any sequence of opened and restored scopes, in any order and with repeats |
| Diff.KeyIsInjective | main.go:1114-1121 | different kinds or tokens give different keys, whatever bytes the tokens hold |
| Diff.SurplusIsDifference | main.go:1093-1108 | what a printing loop lets through is the multiset difference |
| Diff.ReportIsExact | main.go:1082-1111 | current less the minus lines plus the plus lines is desired, no command is on both sides, and "no changes" is printed exactly when nothing changes |
| Diff.CountKeys | main.go:1082-1089 | the counts by key are the multiplicities of the commands |
| Diff.Unaccounted | main.go:1091-1108 | the loop that decrements counts lets through what the other list does not account for |
| Diff.PrintConfigDiff | main.go:1073-1112 | prints that report, or everything as new without a snapshot |

## Left out

- The 90 s limit inside a restore, and a helper that outlives a dead watcher: a restore is one step that succeeds or fails.
- SIGKILL takes effect at once, and removals in the revert directory succeed.
- Removing the pending snapshot can fail at main.go:546; the code then rolls back while both snapshots name the attempted configuration. Removals are assumed to succeed here.
- A missing fallback configuration makes `nic stop` fail, because the test for a missing file does not see through the wrapped error; it is modelled as unreadable, as the code behaves.
- `restoreSavedSnapshot` and the command-by-command restore of the machine: one abstract step.
- Link names created by a configuration that already exist in the baseline, and two nic processes changing state at once.
- PID files in the old one-number format, and start times that repeat.
- Discarding stale reload artifacts is one step under the lock, and so are a timed-out client's last look at the request file and its removal of it.
- LifecycleV4.Client.RenewLoop: host routes are not part of the agreement at the head of the loop, because a renewal can strand one; `LifecycleV4.Client.MaintainV4` says when they agree.
- LifecycleV4.ApplySteps: the lifetimes on kernel addresses are not modelled; a half-applied renewal may leave the new ones on an address that both leases share.
- LifecycleV4.ApplyLeaseReplacing: for the same reason "no change at all" does not cover the lifetimes.
- LifecycleV6.ApplyLeaseV6Replacing: nor does it here.
- LifecycleV4.Client.Release: the RELEASE message itself is not modelled, only what is removed.
- LifecycleV6.Client.Release: the same.
- LifecycleV4.Client.Start: stopping an earlier client of the same interface is not modelled; the interface is assumed to hold nothing of it.
- LifecycleV6.Client.Start: the same.
- Undo commands that fail, and kernel rules by which routes or addresses go by themselves.
- Saving leases to disk and everything about sockets: exchanges end in a parsed reply or a failure.
- Building DISCOVER, REQUEST, SOLICIT and the other DHCPv4 messages, and reading the payload out of a raw frame.
- Dry-run mode, and the immutable flag of resolv.conf except as a reason for failure.
- Go's library parsing of addresses, JSON and globs: addresses are byte sequences and snapshots exact values.
- Back-off lengths, polling intervals and message texts.
- Command-specific argument checks, aliases and abbreviations: each is one branch.
