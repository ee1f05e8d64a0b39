# Verified model of the control-plane membership and token protocols

This project models, in Dafny, the parts of the Kairos Cluster API provider whose mistakes
cost a cluster: which etcd members may leave and on whose word, which join tokens exist and
for how long, and five self-contained algorithms on the way to a node. It proves what each
of them keeps.

## What is modelled

**HA etcd membership** (`HaWorld`, `HaRuns`, `HaWitnesses`, `HaApi`, `HaIdentity`,
`HaLeave`, `HaOrphans`, `HaPass`, over `EtcdTypes`, `IdentityPin`, `OrphanMatching`). The
world is the KairosControlPlane, the Machines, and every workload cluster that may answer, keyed by its
kube-system UID, so that an impostor sharing the cluster CA is just another key. A run is a
sequence of single writes, of reads of the workload clusters, of starts of passes and of
environment jumps, in any order; a crash between two writes is a run without the second. A
pass forgets what earlier ones read, and a write is legal only on evidence that its own pass
read. `HaRuns` proves what holds in every legal run. The controller's passes are imperative
methods on a `Reconciler` whose snapshots (`kcp`, `target`) may be of any age and are updated
in place. Before each of its calls anybody else may act, any call may fail, and a write may
take effect and still report failure. Every write must be legal in whatever world it meets,
and each pass declares a `Scope` that `Valid()` keeps its writes in. `HaPass.AnyRun` drives
whole reconciles one after the other, with restarts in between, and states the promises of
every event they produce; a crash within one is the rest of its calls failing. A ghost flag,
`trouble`, records that some call failed, so a contract can also say what a pass does when
nothing fails, and `tried` which addresses were asked. What a pass comes to is stated by its
outcome: the trace of this very pass, what it read, and the fields and numbers themselves.

**The removal guard** (`MemberRemoval`): `canRemoveMember`, related to the cluster it cannot
see.

**k0s join tokens** (`K0sJoinTokens`, `K0sTokenLifetime`, `K0sJoinServers`,
`JoinTokenRender`): issue, reuse, maintenance and rendering, over snapshots as stale as they
like, over whole runs of it (`AnyRun`), with the lifetime as runs of passes and of the token
cleaner.

**kubeadm worker tokens** (`KubeadmTokens`, `KubeadmTokenTiming`): reuse, mint, extend,
recover and revoke under lost writes and stale reads, and the timing of it.

**Five algorithms**: the streaming marker scan (`MarkerScan`), the RBAC narrowing
(`RbacMigrator`), the kubeconfig sanitizer (`KubeconfigSanitizer`, with a codec that meets its
assumptions in `KubeconfigCodec`), the in-place comparison of certificate sets (`CertSets`), and shell quoting against a reader of sections 2.2.1 and 2.2.2
of the POSIX.1-2017 Shell Command Language (`ShellQuote`).

## Where a promise holds only under a condition

The code is modelled as it is. Each of these has a lemma with the exact condition, or one
with an input that shows the promise fail.

- *A node's ack is younger than the Machine's request*: unless the two are of one node name in
  two clusters, where a pin was moved, or the request went to a label the Machine rendered and the
  ack is under the Node it then registered (`AckYoungerIff`, with a run for each, `OldAckDrops`).
- *spec.leave of an orphan is written only on the member on record, and one removal runs at a
  time*: exactly while the record the pass read is still stored, or the member was recorded
  again (`LeaveIsOnRecordIff`). The write is pinned to the member's revision, not to that of the
  KairosControlPlane, whose cached copy may show a record that has ended
  (`EndedRecordIsFollowed`).
- *Two checks can be missed before a kubeadm token lapses*
  (`internal/controllers/bootstrap/kubeadm.go:747-749`): one can, from a lifetime of 24 s up
  (`OneMissIsSafeIff`); two can let it lapse, at every lifetime from 24 s up
  (`TwoMissesCanLapse`).
- *A pass leaves more than 5/6 of the lifetime*: from 5.999999995 s up, because RFC 3339 drops
  the fraction of a second (`OutlivesEnoughIff`).
- *The migrated Role is the intersection of the old one and the ceiling*: unless the old Role
  grants the VMI get on listed names only, which is lost (`IntersectionExactWhen`).
- *Every joiner has its own token*: unless an admission reuses the stored token from a list
  that misses the Machine carrying it (`AdmissionUniqueIff`, `HiddenMachineShares`). The code
  waits for the cache to show a new Machine, though not its KairosConfig.
- *A freeze is lifted when the pin is edited*: unless one malformed text replaces another
  (`RepinSeenIff`).
- *Orphan cleanup makes progress*: while the joined members are at most twice the Machines
  (`SteadyBlockedIff`).
- *Sanitized output is a fixed point*: when it fits MaxSize (`OutputIsFixedPoint`).

## Checking it

`dafny verify dfyconfig.toml`, with Dafny 4.11.

## Model

| member | source | states |
|---|---|---|
| `HaRuns.ImpostorHasNoSay` | internal/controllers/controlplane/ha_identity.go:428-446 | in every run in which only one UID was ever pinned, no leave is requested, no record or spec.leave written and no hook dropped on the word of any other cluster; each such step is in a pass in which the cluster of that UID answered and itself showed the ack, the missing or the Joined=False member |
| `HaRuns.SeenStood` | internal/controllers/controlplane/ha_leave_member.go:198-263 | whatever a pass goes by, it read itself, after it began, and it was so in the world it was read from |
| `HaRuns.AllFounded` | internal/controllers/controlplane/ha_identity.go:428-446 | every event that acts on a cluster acts on one that was pinned, answered in the same pass, and showed in that pass what the event goes by |
| `HaRuns.FreezeIsSticky` | internal/controllers/controlplane/ha_identity.go:481-512 | a freeze the controller wrote keeps its first observation and its pin through every run in which nobody else edits either |
| `HaRuns.FreezeLiftedOnlyByRepin` | internal/controllers/controlplane/ha_identity.go:514-539 | the controller lifts no freeze it wrote but after somebody edited the pin or the freeze, whatever happened in between |
| `HaRuns.OrphanLeaveMatchesRecord` | internal/controllers/controlplane/ha_etcd_orphans.go:414-521 | spec.leave of an orphan is written only on an object whose name and member ID are those of a record, and that record stood on the KairosControlPlane |
| `HaRuns.LeaveIsOnRecordIff` | internal/controllers/controlplane/ha_etcd_orphans.go:461-519 | exactly when it is the member on record at that moment: unless the record was ended since it was read and no later record, not ended, is of the same name and ID; a snapshot of the current revision is enough |
| `HaWitnesses.EndedRecordIsFollowed` | internal/controllers/controlplane/ha_etcd_orphans.go:482-519 | a run in which a pass over a stale KairosControlPlane asks a member to leave whose record has ended, and another pass then asks another member: both promises need the condition |
| `HaRuns.RemovalStartsSafe` | internal/controllers/controlplane/ha_etcd_orphans.go:523-559 | each record, and each first write of spec.leave, rests on members a pinned cluster listed and reports that stood in that very pass: no Machine is being deleted, none names or addresses the member, all Machines inject into the members that stay, and those of them reported healthy and voting are a strict majority of them and of the desired replicas; a record is written unfrozen, with no other stored, and dated within the pass |
| `HaRuns.OneRemovalAtATime` | internal/controllers/controlplane/ha_etcd_orphans.go:137-167 | across crashes and reused names, two orphan leaves that are each of the member on record, without the end of a record between them, are of one member under one ID |
| `HaRuns.RecordUntouched` | internal/controllers/controlplane/ha_etcd_orphans.go:79-85 | only the two writes of the record change it, over any stretch of a run |
| `HaRuns.AckYoungerThanRequest` | internal/controllers/controlplane/ha_leave.go:354-393 | in every run an ack that drops a hook stood in the leave ConfigMap when the pass read it, and is newer than the forced request of that Machine, where the request went to the same name in the same cluster |
| `HaWitnesses.AckYoungerIff` | internal/controllers/controlplane/ha_leave.go:354-393 | an ack that drops a hook is sure to be younger than the request exactly when they cannot be of one Machine and yet not of one name in one cluster: the name is the same in another cluster, or the first is a label the Machine rendered |
| `HaWitnesses.NodeNamesAgree` | internal/controllers/controlplane/ha_leave.go:318-323 | a Machine that had a Node when its leave was requested is released on no ack under another name |
| `HaWitnesses.OldAckDrops` | internal/controllers/controlplane/ha_leave.go:312-394 | in every such case a run of two passes over the Machine, a request and a drop on an older ack |
| `HaRuns.GivingUpIsBounded` | internal/controllers/controlplane/ha_leave.go:305-311 | a hook is given up on silence only past fifteen minutes, or past ten of delegation, after a pass began that stamped that very Machine |
| `HaRuns.LegalAt` | internal/controllers/controlplane/ha_leave.go:354-365 | every event of a run is legal in the world it meets, where the invariant holds |
| `HaWorld.InvKept` | internal/controllers/controlplane/ha_leave.go:354-365 | every write and every environment step keeps the invariant |
| `HaWorld.AcksKept` | internal/controllers/controlplane/ha_leave.go:446-468 | no step of anybody makes an ack older than a forced request stand as an answer to it |
| `HaWorld.SeenKept` | internal/controllers/controlplane/ha_leave.go:354-365 | no ack a pass has read is older than the request it would answer, since a pass that forces a request goes by nothing it read before |
| `IdentityPin.RecordedPinOfMismatch` | internal/controllers/controlplane/ha_identity.go:183-191 | a written mismatch always parses back to the pin it was measured against, whatever the apiserver was called |
| `IdentityPin.RepinSeenIff` | internal/controllers/controlplane/ha_identity.go:518-527 | exactly which edits of the pin a freeze is lifted by: all, but for one malformed text replacing another |
| `IdentityPin.LastIndex` | internal/controllers/controlplane/ha_identity.go:185-191 | the last occurrence, and none after it |
| `HaIdentity.VerifyPinned` | internal/controllers/controlplane/ha_identity.go:396-446 | passes only a client whose UID is the pin, unfrozen; frozen or unpinned it asks nothing |
| `HaIdentity.Trip` | internal/controllers/controlplane/ha_identity.go:481-512 | writes the mismatch against the current pin once; a second trip changes nothing |
| `HaIdentity.IdentityApplies` | internal/controllers/controlplane/ha_identity.go:193-211 | when a pin is due |
| `HaIdentity.ObserveIdentity` | internal/controllers/controlplane/ha_identity.go:342-374 | one observation per path, the endpoint first; an empty UID is no answer |
| `HaIdentity.Choose` | internal/controllers/controlplane/ha_identity.go:268-301 | a pin is chosen exactly when something answered and all answers are one UID-shaped value |
| `HaIdentity.PinWorkloadIdentity` | internal/controllers/controlplane/ha_identity.go:264-320 | pins only what every answer agrees on, each of a cluster that answered; answers that disagree or have no shape freeze; both happen unless a write fails |
| `HaIdentity.ClearRepinned` | internal/controllers/controlplane/ha_identity.go:514-539 | a freeze that names the pin shown, or cannot be read, stays untouched |
| `HaIdentity.LiftFreeze` | internal/controllers/controlplane/ha_identity.go:219-232 | a freeze that stands, or a patch that fails, closes the gate; without a freeze nothing is done |
| `HaIdentity.Recheck` | internal/controllers/controlplane/ha_identity.go:248-261 | the gate stays open exactly when every answer is the pin, and otherwise a freeze stands unless its write failed; silence does not count as a check |
| `HaIdentity.ReconcileWorkloadIdentity` | internal/controllers/controlplane/ha_identity.go:213-262 | every path is asked when a pin is due and can be taken, or the last check is 60 s old; past the gate there is no freeze, a pin wherever one is due, and nothing that answered was another cluster, and a pass is stopped for nothing else; a pin is one text of 1 to 64 letters, digits and dashes that all answers agree on; a freeze it began under was lifted |
| `HaApi.Reconciler.PatchKcp` | internal/controllers/controlplane/ha_identity.go:541-569 | one annotation write, applied only at the revision read; the snapshot follows only a reported success |
| `HaApi.Reconciler.PatchLeave` | internal/controllers/controlplane/ha_etcd_orphans.go:589-599 | spec.leave reaches only the object inspected, and is legal whatever happened since |
| `HaApi.LeaveAllowed` | internal/controllers/controlplane/ha_leave_etcdmember.go:150-170 | the object the server has after the write is the one inspected, with nothing else changed |
| `HaApi.Reconciler.PatchMachine` | internal/controllers/controlplane/ha_leave.go:483-510 | annotates only what the snapshot lacks |
| `HaApi.Reconciler.PatchHook` | internal/controllers/controlplane/ha_leave.go:520-536 | drops the hook, legally whatever happened since the evidence was read |
| `HaApi.Reconciler.ForceRequest` | internal/controllers/controlplane/ha_leave.go:446-468 | the sentinel stands and the request is on record for this Machine |
| `HaApi.Reconciler.KeepRequest` | internal/controllers/controlplane/ha_leave.go:446-468 | a request or an ack stands, and an ack is not overwritten |
| `HaApi.EvidenceReleases` | internal/controllers/controlplane/ha_leave.go:298-311 | what a pass read, and a stale snapshot shows, is enough for the drop to be legal in the world as it is |
| `HaApi.GroundsSuffice` | internal/controllers/controlplane/ha_leave_etcdmember.go:133-166 | what a pass read, and stale snapshots show, is enough for spec.leave to be legal on the object as it is |
| `HaApi.Listed` | internal/controllers/controlplane/ha_etcd_orphans.go:572-587 | a list returns every object, each once |
| `HaLeave.Connect` | internal/controllers/controlplane/ha_leave_member.go:198-263 | a connection is to the cluster that answered as the pinned one, unfrozen, with the leave ConfigMap as it read it; no path is given up on before every one was tried |
| `HaLeave.RemoveEtcdLeaveHook` | internal/controllers/controlplane/ha_leave.go:512-536 | no-op without the hook, refused while frozen |
| `HaLeave.EtcdMemberPeerOwner` | internal/controllers/controlplane/ha_leave_etcdmember.go:208-232 | none exactly when no other Machine reports the peer address |
| `HaLeave.OtherMachineWithNodeName` | internal/controllers/controlplane/ha_leave_unregistered.go:165-184 | none exactly when no other Machine goes by the name |
| `HaLeave.LeaveUnreachable` | internal/controllers/controlplane/ha_leave_unregistered.go:51-71 | keeps the hook while the first silence is stamped and at most 15 minutes old, and drops it once it is older |
| `HaLeave.InspectMember` | internal/controllers/controlplane/ha_leave_unregistered.go:131-163 | a member that no other Machine names or addresses and that may be in etcd is never dropped, and is proceeded with unless a write fails, with its ID recorded; any other is not proceeded with |
| `HaLeave.InspectUnregisteredLeave` | internal/controllers/controlplane/ha_leave_unregistered.go:81-163 | proceeds only under a label, for a member of that name it read, that may be in etcd and is nobody else's; otherwise ends as Requesting says |
| `HaLeave.RequestLeave` | internal/controllers/controlplane/ha_leave.go:366-383 | a registered Machine's leave is requested whenever the pinned cluster answers and no write fails; one without a Node is requested only for a member of its own that was read; the hook goes on silence only after 15 minutes of it |
| `HaLeave.ForceAndStamp` | internal/controllers/controlplane/ha_leave.go:375-380 | the request stands under this name in the pinned cluster before the stamp does |
| `HaLeave.AskK0s` | internal/controllers/controlplane/ha_leave_etcdmember.go:133-184 | spec.leave is set, now or before, unless a call fails; the hook goes only on Joined=False or past 10 minutes; a wait leaves the start and the ID recorded |
| `HaLeave.DelegateMemberLeave` | internal/controllers/controlplane/ha_leave_etcdmember.go:82-184 | the member is looked up wherever the pinned cluster answers; one that is surely the Machine's own, by ID and address, is asked for, and its hook goes only on Joined=False or past 10 minutes; any other is left alone |
| `HaLeave.LeaveAlone` | internal/controllers/controlplane/ha_leave_etcdmember.go:82-131 | the hook goes on a missing member as such, and otherwise on the doubt that was read: no API, no ID, another ID than on record, another Machine's address or name |
| `HaLeave.AwaitLeave` | internal/controllers/controlplane/ha_leave.go:385-426 | an ack ends the leave; a registered node missing from the reports does; five minutes after the request k0s takes over; until then a request or an ack stands |
| `HaLeave.ReconcileMemberLeave` | internal/controllers/controlplane/ha_leave.go:312-427 | frozen it does nothing; without k0s the hook goes; before CAPI is done with the Node nothing is asked; then the leave is requested, awaited, handed to k0s and released by Requesting, Awaiting and Delegating, each spelled out; no call failing, it ends in an error only frozen, unpinned or without a usable name; everything written rests on what the pinned cluster showed in this very pass |
| `OrphanMatching.UnmatchedMachines` | internal/controllers/controlplane/ha_etcd_orphans.go:230-282 | the loops over used and matched compute the pairing by Node name, then by address |
| `OrphanMatching.PairingIsInjection` | internal/controllers/controlplane/ha_etcd_orphans.go:230-282 | no unmatched Machine means an injection of all Machines into joined members they name or address |
| `OrphanMatching.PairingIsMaximal` | internal/controllers/controlplane/ha_etcd_orphans.go:230-282 | a Machine is left unmatched only when every joined member of its name, and of its addresses, is taken |
| `OrphanMatching.ExpectedEtcdMembers` | internal/controllers/controlplane/ha_etcd_orphans.go:620-642 | exactly the names the Machines go by and the addresses they report |
| `OrphanMatching.UnaccountedIsNotHad` | internal/controllers/controlplane/ha_etcd_orphans.go:608-618 | a member is not expected exactly when no Machine names or addresses it |
| `OrphanMatching.HealthyVotingMembers` | internal/controllers/controlplane/ha_etcd_orphans.go:644-666 | the count is of the joined members, other than the target, that are named like a registered Node and reported healthy and voting |
| `OrphanMatching.OrphanRemovalBlocked` | internal/controllers/controlplane/ha_etcd_orphans.go:533-559 | blocked exactly when a Machine is unmatched, or the healthy voters left are at most half of the members left or of the desired replicas |
| `OrphanMatching.UnblockedRemovalIsSafe` | internal/controllers/controlplane/ha_etcd_orphans.go:523-559 | an unblocked removal of an unaccounted member leaves all Machines injected into the members that stay, and a strict healthy majority of them and of the desired replicas |
| `OrphanMatching.SteadyBlockedIff` | internal/controllers/controlplane/ha_etcd_orphans.go:543-549 | on a steady control plane a removal is blocked exactly when the joined members are more than twice the Machines |
| `OrphanMatching.RoundRemovesOne` | internal/controllers/controlplane/ha_etcd_orphans.go:297-408 | a cleanup round takes one orphan and nothing else |
| `OrphanMatching.RoundPossible` | internal/controllers/controlplane/ha_etcd_orphans.go:300-408 | with at most twice as many joined members as Machines, a round is possible while a usable orphan is left |
| `OrphanMatching.CleanupRemovesAll` | internal/controllers/controlplane/ha_etcd_orphans.go:300-408 | as many rounds as orphans remove them all |
| `HaOrphans.JoinedOnly` | internal/controllers/controlplane/ha_etcd_orphans.go:572-587 | exactly the members not reported Joined=False |
| `HaOrphans.FirstOrphan` | internal/controllers/controlplane/ha_etcd_orphans.go:338-379 | the first by name of the orphans with a valid name and an ID, or none |
| `HaOrphans.HaveAllVoted` | internal/controllers/controlplane/ha_etcd_orphans.go:301-312 | every Machine reports healthy and voting |
| `HaOrphans.RecordRemoval` | internal/controllers/controlplane/ha_etcd_orphans.go:384-396 | the record names the target and a time of the pass, and a failed record gives the check slot back |
| `HaOrphans.RemoveFirst` | internal/controllers/controlplane/ha_etcd_orphans.go:329-408 | what was judged is what the pinned cluster listed in this pass; a record it leaves is of the first orphan by name, safe to remove, and spec.leave was set unless a call failed; no record, with nothing failed, means that orphan is blocked or there is none |
| `HaOrphans.FirstIsUnique` | internal/controllers/controlplane/ha_etcd_orphans.go:356-379 | which orphan is first does not depend on the order of the list |
| `HaOrphans.RemoveOneOrphan` | internal/controllers/controlplane/ha_etcd_orphans.go:297-408 | only with every Machine healthy and voting, on members and reports read in this pass; without a pin, an EtcdMember API or a vote there is no check, and otherwise there is one unless a call fails or a freeze comes up; a record it leaves is of the first orphan by name |
| `HaOrphans.PassIsARound` | internal/controllers/controlplane/ha_etcd_orphans.go:297-408 | on a steady control plane a pass in which a check was due and nothing failed judges what the pinned cluster lists, unless it had a reason not to, and takes a round of the cleanup exactly when there is one to take |
| `HaOrphans.AskAgain` | internal/controllers/controlplane/ha_etcd_orphans.go:482-515 | the first late write is made only on a new check of everything, and is made when that check passes and nothing fails |
| `HaOrphans.FollowMember` | internal/controllers/controlplane/ha_etcd_orphans.go:461-520 | a member that is in etcd and that some Machine names or addresses is taken back before the record ends, and the record stands while that fails; one that is nobody's holds until the cap; otherwise the record ends unless a call fails |
| `HaOrphans.GiveBack` | internal/controllers/controlplane/ha_etcd_orphans.go:473-481 | spec.leave is taken back, then the record cleared; a failed take-back holds with the record standing |
| `HaOrphans.ProgressOrphanLeave` | internal/controllers/controlplane/ha_etcd_orphans.go:410-521 | while the snapshot has a valid record, current or not, no other removal starts; unless a call fails or a freeze comes up the record goes on exactly while the member was read as still in etcd and nobody's, and was asked to leave, now or before, or not yet for a reason; before ten minutes it ends only when the removal is over; whichever member was read, one of the recorded ID that a Machine accounts for is taken back first |
| `HaOrphans.OrphanCleanupBlocked` | internal/controllers/controlplane/ha_etcd_orphans.go:183-209 | unblocked exactly on a steady control plane |
| `HaOrphans.ReconcileOrphanEtcdMembers` | internal/controllers/controlplane/ha_etcd_orphans.go:137-181 | over any snapshot, what each kind of record lets a pass write, all of it on what the pinned cluster showed in this very pass; frozen nothing; a check that is due on a settled k0s HA control plane is made and noted, and only there is a new record written, with a time of the pass; a record goes on only while it is waited for, ends when spent, unless a call fails or a freeze comes up, and ends on a member that is in etcd and accounted for only after the take-back |
| `HaPass.PastMachineIsView` | internal/controllers/controlplane/ha_leave.go:483-510 | a Machine as it was at any moment of a run is a snapshot a pass may work on, whoever annotated it since |
| `HaPass.PastKcpIsView` | internal/controllers/controlplane/kairoscontrolplane_controller.go:190-200 | and so is the KairosControlPlane as it was at any moment |
| `HaPass.Sweep` | internal/controllers/controlplane/kairoscontrolplane_controller.go:733-750 | the departing Machines are gone over in order, each to the release of its hook, up to the first that is not done, where the pass over it ended as Handled says, and on silence only after every address was asked |
| `HaPass.PassGate` | internal/controllers/controlplane/kairoscontrolplane_controller.go:710-721 | open only with no freeze in the snapshot, a pin wherever one is due and no answer but the pin; closed only on another answer, a standing freeze or a pin that is due and missing |
| `HaPass.ReconcileMembership` | internal/controllers/controlplane/kairoscontrolplane_controller.go:701-796 | past the gate only with a pin wherever one is due, the freeze it began under lifted, and no other cluster having answered it; then every departing Machine up to the first not done is released, the one not done was gone over, and when all are done the cleanup ran; silence counts only after every address was asked; a pass that finds a freeze it would not lift does nothing at all |
| `HaPass.AnyRun` | internal/controllers/controlplane/kairoscontrolplane_controller.go:701-796 | every run of reconciles over snapshots of any age, with others acting before each call, failing calls, crashes and restarts: every promise above holds of each of its events |
| `MemberRemoval.EtcdVotingHealthyCount` | internal/controllers/controlplane/ha_etcd.go:140-148 | the count is the number of healthy voters reported |
| `MemberRemoval.CanRemoveMember` | internal/controllers/controlplane/ha_etcd.go:167-222 | each verdict, and exactly when: past the bypasses, approval means the reports were read, the target is among them, and the other names reported healthy and voting are at least replicas/2 + 1 |
| `MemberRemoval.ApprovedRemovalKeepsMajority` | internal/controllers/controlplane/ha_etcd.go:194-222 | an approval on accurate reports leaves desired/2+1 healthy, a strict majority of the members left |
| `MemberRemoval.RemovalsKeepMajority` | internal/controllers/controlplane/ha_etcd.go:186-222 | in every run of joins, failures and approved removals each approval leaves a majority |
| `MemberRemoval.OnlyRemovals` | internal/controllers/controlplane/ha_etcd.go:194-222 | a run of removals alone keeps a majority throughout, and is shorter than the surplus |
| `MemberRemoval.LeftOverReportLosesMajority` | internal/controllers/controlplane/ha_etcd.go:194-222 | one stale report of a departed node is enough for an approval that loses the majority |
| `K0sTokenLifetime.NeverLapses` | internal/controllers/controlplane/ha_k0s_jointoken.go:803-858 | a joiner under a day old whose passes reach its token less than 30 minutes apart always holds it unexpired, token cleaner included |
| `K0sTokenLifetime.HalfHourIsTooLong` | internal/controllers/controlplane/ha_k0s_jointoken.go:77-79 | passes 30 minutes apart can find the token deleted |
| `K0sTokenLifetime.ExtensionIncreases` | internal/controllers/controlplane/ha_k0s_jointoken.go:845-851 | each extension strictly increases the expiry |
| `K0sTokenLifetime.NeverShortened` | internal/controllers/controlplane/ha_k0s_jointoken.go:845-851 | no run of steps shortens it |
| `K0sTokenLifetime.OutlivesByADay` | internal/controllers/controlplane/ha_k0s_jointoken.go:81-85 | no token outlives its Machine's creation by more than 25 hours |
| `K0sJoinServers.OwnMemberAddresses` | internal/controllers/controlplane/ha_k0s_jointoken.go:209-230 | exactly the addresses of staying Machines that no leaving one reports |
| `K0sJoinServers.LiveK0sJoinServers` | internal/controllers/controlplane/ha_k0s_jointoken.go:144-207 | exactly the live, dialable addresses of staying Machines, in order, each once |
| `K0sJoinTokens.CheckIssued` | internal/controllers/controlplane/ha_k0s_jointoken.go:515-546 | kept exactly when the Secret is there, a controller-join token of the same secret, good for 30 minutes, and points at a live member under the cluster CA |
| `K0sJoinTokens.JoinTokens.Verify` | internal/controllers/controlplane/ha_identity.go:396-426 | the lenient check: refused when frozen or on another UID, passed unpinned |
| `K0sJoinTokens.JoinTokens.DeleteToken` | internal/controllers/controlplane/ha_k0s_jointoken.go:601-627 | deletes at most a controller-join token of that ID; done means it is gone or not such a token |
| `K0sJoinTokens.JoinTokens.Mint` | internal/controllers/controlplane/ha_k0s_jointoken.go:548-593 | stored at the revision read or not stored at all, good for an hour to the second; a failed mint leaves no token unless a create took effect unnoticed or the take-back failed |
| `K0sJoinTokens.JoinTokens.EnsureToken` | internal/controllers/controlplane/ha_k0s_jointoken.go:386-513 | an ID is handed out only unfrozen, with no joiner of the list pending, the pinned cluster answering before and, for a new token, after; no Machine of the list has it; it is in the Secret and good for 30 minutes; the stored one is reused exactly when it may be; nothing failing, replaced tokens go, and a refused new one |
| `K0sJoinTokens.JoinTokens.CreateJoiner` | internal/controllers/controlplane/kairoscontrolplane_controller.go:1068-1101 | one Machine stamped with the ID, or none; none while frozen |
| `K0sJoinTokens.JoinTokens.AdmitJoiner` | internal/controllers/controlplane/kairoscontrolplane_controller.go:823-857 | one Machine more or none; over a list that has every Machine the tokens of the Machines stay apart, and otherwise exactly unless the stored token is reused that a Machine it misses carries; no token that a listed Machine joins with is lost |
| `K0sJoinTokens.AdmissionUniqueIff` | internal/controllers/controlplane/ha_k0s_jointoken.go:453-478 | exactly when an admission keeps IDs apart: unless it reuses the stored token while an unlisted Machine carries it |
| `K0sJoinTokens.HiddenMachineShares` | internal/controllers/controlplane/ha_k0s_jointoken.go:401-412 | a list that misses that Machine makes two Machines share a token |
| `K0sJoinTokens.DeparturesKeepUnique` | internal/controllers/controlplane/ha_k0s_jointoken.go:252-263 | Machines that go or change state keep their IDs apart |
| `K0sJoinTokens.JoinTokens.RemoveToken` | internal/controllers/controlplane/ha_k0s_jointoken.go:767-801 | the mark is written only once the token is gone; nothing failing and the Secret read as it is, it does not hold it any more |
| `K0sJoinTokens.JoinTokens.ExtendToken` | internal/controllers/controlplane/ha_k0s_jointoken.go:803-858 | the token is as it was, or extended by the newest joiner's age |
| `K0sJoinTokens.JoinTokens.Classify` | internal/controllers/controlplane/ha_k0s_jointoken.go:691-707 | who is pending on which token, and who is done |
| `K0sJoinTokens.PendingByIsExact` | internal/controllers/controlplane/ha_k0s_jointoken.go:691-704 | the tokens maintained are exactly those of pending joiners, each with exactly those joiners |
| `K0sJoinTokens.DoneOfIsExact` | internal/controllers/controlplane/ha_k0s_jointoken.go:691-707 | and the joiners done with a token are exactly those that joined or leave, with a token not removed yet |
| `K0sJoinTokens.JoinTokens.Maintain` | internal/controllers/controlplane/ha_k0s_jointoken.go:644-765 | a token goes only when a joiner of the list is done with it and none joins with it, and changes only by an hour's extension, under 30 minutes to live, with a joiner under a day old; nothing failing, every such token goes, is cleared from the Secret, or is extended |
| `K0sJoinTokens.SparedStay` | internal/controllers/controlplane/ha_k0s_jointoken.go:681-733 | removing what done joiners had takes no token from a Machine that still joins, unless the list shows it done and not joining |
| `K0sJoinTokens.AnyRun` | internal/controllers/controlplane/ha_k0s_jointoken.go:386-801 | in every run of admissions, maintenance and outside changes no two Machines carry one token, if every admission read a list that has every Machine, and otherwise unless one met a good token in the Secret that a Machine it did not see carries; and the token of a Machine that still joins is there unless somebody else deleted it, or some list read on the way missed a Machine or misreported one |
| `K0sJoinTokens.Upkept` | internal/controllers/controlplane/ha_k0s_jointoken.go:73-96 | over maintenance passes less than half an hour apart in which nothing fails, the token of a Machine that still joins and is under a day old is never gone and never expired, token cleaner included |
| `K0sJoinTokens.TendedIsKept` | internal/controllers/controlplane/ha_k0s_jointoken.go:803-858 | one such pass leaves it half an hour to live |
| `K0sJoinTokens.ExtendedIsAPass` | internal/controllers/controlplane/ha_k0s_jointoken.go:837-851 | an extension is one step of the lifetime runs |
| `JoinTokenRender.RendersOnlyItsToken` | internal/controllers/bootstrap/tokens.go:172-227 | whatever Secret it reads, a config that names an ID renders only a token of that ID |
| `JoinTokenRender.NoTwoMachinesRenderOneToken` | internal/controllers/bootstrap/tokens.go:148-155 | two Machines never render one token, whatever stale Secrets they read |
| `JoinTokenRender.StoredTokenRenders` | internal/controllers/bootstrap/tokens.go:210-226 | what a mint stores is what its config renders |
| `KubeadmTokenTiming.OutlivesEnoughIff` | internal/controllers/bootstrap/kubeadm.go:807-825 | after every pass the token outlives now + 5/6 of the lifetime, exactly from a lifetime of 5.999999995 s up |
| `KubeadmTokenTiming.RefreshedMeans` | internal/controllers/bootstrap/kubeadm.go:807-825 | left alone with more than 5/6 of the lifetime to live, otherwise given a whole one |
| `KubeadmTokenTiming.NeverEarlier` | internal/controllers/bootstrap/kubeadm.go:812-825 | the expiry never decreases |
| `KubeadmTokenTiming.PassesKeepItAlive` | internal/controllers/bootstrap/kubeadm.go:807-825 | passes within 5/6 of the lifetime never let it lapse |
| `KubeadmTokenTiming.StaysWithinCap` | internal/controllers/bootstrap/kairosconfig_controller.go:1110-1134 | on the in-place path the expiry stays within creation + 24 h + lifetime |
| `KubeadmTokenTiming.OneMissIsSafeIff` | internal/controllers/bootstrap/kubeadm.go:747-755 | one missed recheck is within 5/6 of the lifetime exactly from 24 s up |
| `KubeadmTokenTiming.OneMissKeepsItAlive` | internal/controllers/bootstrap/kubeadm.go:747-755 | so one missed recheck never lets a token lapse |
| `KubeadmTokenTiming.TwoMissesCanLapse` | internal/controllers/bootstrap/kubeadm.go:747-749 | a run in which two missed rechecks let it lapse, for every lifetime from 24 s up |
| `KubeadmTokens.FindOwned` | internal/controllers/bootstrap/kubeadm.go:400-439 | the usable owned token with the latest expiration, an unreadable one counting as the earliest, and of those the last by name |
| `KubeadmTokens.LastIsUnique` | internal/controllers/bootstrap/kubeadm.go:427-439 | that choice is unique |
| `KubeadmTokens.IDOfToken` | internal/controllers/bootstrap/kairosconfig_controller.go:1204-1239 | the ID read back from rendered data is the token's |
| `KubeadmTokens.KubeadmWorker.Extend` | internal/controllers/bootstrap/kubeadm.go:807-825 | only the expiration changes, and to which value |
| `KubeadmTokens.KubeadmWorker.Mint` | internal/controllers/bootstrap/kubeadm.go:845-888 | one new labelled Secret, never over another |
| `KubeadmTokens.KubeadmWorker.ReuseOrMint` | internal/controllers/bootstrap/kubeadm.go:350-398 | mints only when the recorded token is gone, or none is recorded and none usable is owned; what it returns is live |
| `KubeadmTokens.KubeadmWorker.ExtendWorkerToken` | internal/controllers/bootstrap/kubeadm.go:700-723 | says the token is gone exactly when no usable one of that ID is there, and then changes nothing |
| `KubeadmTokens.KubeadmWorker.RevokeWorkerToken` | internal/controllers/bootstrap/kubeadm.go:725-745 | revoked means absent |
| `KubeadmTokens.KubeadmWorker.ReconcileWorkerToken` | internal/controllers/bootstrap/kairosconfig_controller.go:1065-1145 | each decision and what it leaves: revoked and forgotten, capped and untouched, extended, or gone |
| `KubeadmTokens.KubeadmWorker.TheToken` | internal/controllers/bootstrap/kubeadm.go:315-332 | with one token or none minted, a render uses that one |
| `KubeadmTokens.KubeadmWorker.Reconcile` | internal/controllers/bootstrap/kairosconfig_controller.go:458-490 | a reconcile keeps the token the same, whichever reads are stale and writes lost; nothing failing, a due render and the status hold that token |
| `KubeadmTokens.ReconcileJoined` | internal/controllers/bootstrap/kairosconfig_controller.go:1083-1106 | once the Machine has a Node the token on record is revoked and forgotten, and nothing is minted or rendered unless the render must be redone for another reason; then the token rendered is usable and the one the status names |
| `KubeadmTokens.AnyRun` | internal/controllers/bootstrap/kairosconfig_controller.go:1115-1144 | in every run at most one token is minted and every data Secret written embeds it |
| `CertSets.HexInjective` | internal/controllers/bootstrap/kubeadm.go:1014-1018 | hex text determines the bytes |
| `StringOrder.LessTotal` | internal/controllers/bootstrap/kubeadm.go:1014-1018 | the order is total |
| `StringOrder.LessIff` | internal/controllers/controlplane/ha_etcd_orphans.go:356 | a name comes first exactly where the two part: it ends there, or has the smaller character |
| `CertSets.SortedUnique` | internal/controllers/bootstrap/kubeadm.go:1004-1011 | two sorted lists of the same certificates are equal |
| `CertSets.SortDERInPlace` | internal/controllers/bootstrap/kubeadm.go:1014-1018 | sorted in place, a permutation |
| `CertSets.DerCertSetsEqual` | internal/controllers/bootstrap/kubeadm.go:998-1012 | true exactly for equal multisets, the arrays possibly one and the same |
| `CertSets.SamePositions` | internal/controllers/bootstrap/kubeadm.go:1006-1011 | equal exactly when every position is |
| `RbacMigrator.GrantedVerbs` | internal/controllers/bootstrap/rbac_migrator.go:214-238 | exactly the verbs of the rules that cover the object |
| `RbacMigrator.IntersectVerbs` | internal/controllers/bootstrap/rbac_migrator.go:240-249 | exactly the allowed verbs granted |
| `RbacMigrator.SplitJoin` | internal/controllers/bootstrap/rbac_migrator.go:196-207 | a bucket key gives its verbs back |
| `RbacMigrator.IntersectNamed` | internal/controllers/bootstrap/rbac_migrator.go:186-209 | the buckets hold exactly the names whose verb survives |
| `RbacMigrator.IntersectNodePushRules` | internal/controllers/bootstrap/rbac_migrator.go:163-212 | the nested loops compute the narrowed rules |
| `RbacMigrator.CeilingMeaning` | internal/controllers/bootstrap/rbac_migrator.go:144-161 | what the ceiling allows |
| `RbacMigrator.NarrowedAllows` | internal/controllers/bootstrap/rbac_migrator.go:163-212 | exactly which requests the migrated Role allows |
| `RbacMigrator.NeverBroadens` | internal/controllers/bootstrap/rbac_migrator.go:163-212 | every request it allows, the old rules and the ceiling both allow |
| `RbacMigrator.SecretPatchKept` | internal/controllers/bootstrap/rbac_migrator.go:163-212 | patch on a named Secret survives exactly when it was granted, wildcards and empty resourceNames included |
| `RbacMigrator.IntersectionExactWhen` | internal/controllers/bootstrap/rbac_migrator.go:163-212 | the result is the whole intersection exactly unless the VMI get was granted on listed names only |
| `RbacMigrator.ResolverRulesFixed` | internal/controllers/bootstrap/management_endpoint_resolver.go:201-223 | the resolver's own rules are unchanged |
| `RbacMigrator.NarrowedIdempotent` | internal/controllers/bootstrap/rbac_migrator.go:163-212 | migrating twice is migrating once |
| `KubeconfigSanitizer.ValidateCABundle` | internal/kubeconfig/sanitize.go:281-321 | accepts exactly the valid bundles and re-encodes their blocks |
| `KubeconfigSanitizer.ValidateClusterEntry` | internal/kubeconfig/sanitize.go:237-279 | exactly the valid entries |
| `KubeconfigSanitizer.ValidateUserEntry` | internal/kubeconfig/sanitize.go:323-376 | accepted exactly with nothing but inline credentials, a token or a certificate with its key and never both; an entry with anything else is refused as unsafe before its credentials are |
| `KubeconfigSanitizer.ValidateStructure` | internal/kubeconfig/sanitize.go:200-235 | one of each, cross-referenced |
| `KubeconfigSanitizer.SortedKeys` | internal/kubeconfig/sanitize.go:388-398 | the keys, each once, ascending |
| `KubeconfigSanitizer.Sanitize` | internal/kubeconfig/sanitize.go:76-183 | which inputs are accepted, what is returned, and with which reason each other one is refused |
| `KubeconfigSanitizer.IsFixedPoint` | internal/kubeconfig/sanitize.go:185-198 | compares the input with its own sanitized form |
| `KubeconfigSanitizer.BlocksOfEncoded` | internal/kubeconfig/sanitize.go:281-321 | re-encoded certificates decode to the same list, nothing left |
| `KubeconfigSanitizer.OutputIsFixedPoint` | internal/kubeconfig/sanitize.go:185-198 | an output is a fixed point for the same arguments exactly when it fits MaxSize |
| `KubeconfigSanitizer.OutputSays` | internal/kubeconfig/sanitize.go:154-182 | the output, loaded, has the expected server under the given name, the validated certificates, one user with the validated credentials, one context that joins them, and nothing else |
| `KubeconfigSanitizer.OutputDependsOn` | internal/kubeconfig/sanitize.go:60-75 | two accepted inputs give one output exactly when certificates and credentials agree |
| `KubeconfigCodec.PlainIsLawful` | internal/kubeconfig/sanitize.go:281-321 | what is assumed of the codecs can be met |
| `MarkerScan.ContainsAcrossWindow` | internal/kubevirtenv/baked_cloud_config.go:84-129 | an occurrence that ends in new bytes starts inside a tail of one less than the longest marker |
| `MarkerScan.Overlap` | internal/kubevirtenv/baked_cloud_config.go:84-94 | the longest marker less one |
| `MarkerScan.CarryTail` | internal/kubevirtenv/baked_cloud_config.go:114-119 | the last bytes move to the front of the buffer |
| `MarkerScan.ReadAndMark` | internal/kubevirtenv/baked_cloud_config.go:96-113 | one read marks exactly what its window shows |
| `MarkerScan.ScanForMarkers` | internal/kubevirtenv/baked_cloud_config.go:82-129 | the streamed result is that of a search of the whole input, for every chunk size |
| `MarkerScan.MissingExact` | internal/kubevirtenv/baked_cloud_config.go:122-128 | exactly the markers that occur nowhere |
| `ShellQuote.QuoteReadsBack` | internal/bootstrap/funcs.go:457-459 | the quoted form reads as exactly one word, the string, exactly when it has no NUL |
| `ShellQuote.QuotedInContext` | internal/bootstrap/funcs.go:457-459 | wherever a word is read the quoted form appends exactly itself |
| `ShellQuote.QuotedArgumentsReadBack` | internal/bootstrap/funcs.go:457-459 | a quoted argument list reads back as that list |
| `ShellQuote.EscapeInjective` | internal/bootstrap/funcs.go:457-459 | quoting loses nothing |

## Left out

- AckYoungerThanRequest: says nothing of an ack under another node name or in another pinned cluster than the request; AckYoungerIff shows that the code keeps it in no such case that can arise.
- OneRemovalAtATime: says nothing of a leave written on a record that has ended, where the code does not keep it; LeaveIsOnRecordIff says when that is, and EndedRecordIsFollowed shows how.
- PatchMachine, PatchHook: a failed patch leaves the snapshot as it was; the code leaves it changed, but every such failure ends the reconcile, and nothing reads the snapshot after it.
- RemovalsKeepMajority: covers registered, running targets; the code approves a target without a Node or not Running at once, a gap it documents, and so does CanRemoveMember here.
- ProgressOrphanLeave: bounds how long a record holds only where no call fails; a failing take-back or a conflict holds past the cap in the code too.
- AnyRun: of the k0s tokens, does not promise that a pending token is still there once some list read missed a Machine, or showed one as done that still joins.
- Reconcile: covers a Machine without a Node and nobody else removing the token Secret; with a Node see ReconcileJoined, where a render redone for another reason mints anew.
- Nobody but the controller writes the orphan record and the handshake annotations of a Machine; an operator who edits them by hand is not modelled. A Machine keeps the Node it registered.
- The Machines a check was made over are the list the pass was given, as old as the cache has it; members are read live, and reports as a read of their Secret shows them.
- One client reaches one cluster. The window in which a virtual IP sends two requests of one client to two clusters is not modelled for the leave and the orphan cleanup; for the token mint the two identity reads may differ.
- Kairos control-plane Machine names are never reused (`internal/controllers/controlplane/machine_names.go:31-36`); node names may be.
- ReconcileMembership: leaves out what a reconcile does between the leave sweep and the orphan cleanup, the Secrets it ensures and the upkeep of the k0s tokens (`K0sJoinTokens.JoinTokens.Maintain`), which may freeze too.
- A pass is over one departing Machine at a time; log lines, events, conditions and requeue delays are not modelled.
- Failing reads of a Machine's KairosConfig while its node name is worked out, which end a pass in an error.
- leaveCandidateIPs, leaveExcludedHosts: the addresses tried before the endpoint are a parameter.
- Parsing of IP addresses, peer addresses, member IDs, RFC 3339 and the orphan annotation's text: values arrive parsed, unreadable ones as their own case. time.Sub does not saturate here.
- A request written over an equal one counts as a write with a new revision.
- gzip, base64, YAML, PEM, x509 and the kubeconfig loader are functions with their round-trip laws assumed; a random token ID is taken to be fresh, and comparisons to be exact, not constant-time.
- stripEtcdLeaveHooks and whole-cluster teardown, rollout and scale decisions, machine creation beyond the token stamp, and the k3s paths.
- The trust check of a kubeadm worker's cluster, renderJoinConfiguration, and revocation when a KairosConfig is deleted: a refused or unreachable cluster is a failing call.
- RBAC subresources, nonResourceURLs and aggregation; the migrator's listing and updating of Roles.
- Installers, image builders, templates, infrastructure cloning, webhooks and generated code: I/O, or easy members.
