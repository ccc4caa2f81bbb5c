# Clave: verified models of the overlay, audit delivery, disks, control plane and framing

Clave keeps work data in an encrypted zone of a personal computer. A daemon on the device mounts
an encrypted volume, draws a coloured border around work windows, spools audit events into a
hash chain and obeys signed commands from a gateway. This project models the parts of that system
in which a mistake would be quiet, and proves what each of them promises over every input or every
run.

| file | component |
|---|---|
| `Overlay.dfy` | which pixels of which windows get the border colour: rectangle subtraction, the ring, the occlusion loop, with 32-bit arithmetic |
| `AuditChain.dfy`, `AuditLedger.dfy`, `Delivery.dfy`, `Restarts.dfy` | the audit spool, batch verification, the gateway's ledger with its store, the delivery protocol between device and gateway as a state machine, and what restarts do to it |
| `Cipher.dfy`, `Volume.dfy` | the encrypted block volume and the plain sector array it refines |
| `Control.dfy`, `Daemon.dfy`, `DaemonRuns.dfy`, `PolicyIssuer.dfy` | signed commands, replay protection, sync cycles, wiping, policy issuing |
| `Roles.dfy` | workspace roles, invitations and directory events |
| `DiskPaths.dfy`, `DiskShape.dfy`, `DiskTree.dfy`, `DiskFile.dfy`, `DiskFs.dfy`, `DiskCases.dfy` | the mounted Clave Disk: path index, subtree rename, encrypted file contents, and concrete renames that go wrong |
| `Framing.dfy`, `Paths.dfy` | length-prefixed messages over a byte stream; path prefixes, learning and classification |

State that the program updates in place is a class; each method is tied to a function on values,
and the theorems are about those functions over whole runs.

`dafny verify dfyconfig.toml` checks the whole project.

## Where the code does not keep a promise

Each point names the lemma that says, for all inputs, exactly when the code does keep the promise,
and a lemma at a concrete input where the condition alone does not show one.

- A restart between the acknowledged push and the second save of a sync cycle resumes from a
  checkpoint that is behind the gateway. The first batch pushed afterwards is refused as a gap, yet
  the device confirms it, since an acknowledgement is not an acceptance. Each later batch is accepted
  if and only if the head of the batch before it is the ledger's head; once that happens everything is
  accepted again, and until then everything is refused. Exact: `Restarts.RestartIsLevelIff`,
  `Restarts.AfterExposedRestart`, `Restarts.RecoveryLasts`, when it first happens
  `Restarts.ExposedRestartCatchesUpIff`, and for restarts anywhere `Restarts.AcceptedIffItContinues`. A run that is refused and then recovers: `Restarts.RefusedThenAccepted`.
- Any other restart forgets the events emitted after the last save, but nothing pushed or admitted, and
  stays level: `Delivery.RestartForgetsOnlyUnsent`.
- The platform entry points start with an empty spool instead of resuming the saved one
  (`crates/clave-daemon/src/win_main.rs:109`, `crates/clave-daemon/src/mac_main.rs:133`). Every batch after
  such a boot is accepted, whatever the run, if and only if nothing was pushed before it
  (`Restarts.FreshBootAcceptedIff`). Otherwise the first batch after it is refused as a gap and later ones go
  on as after an exposed restart (`Restarts.AfterFreshBoot`); until one is accepted, that happens if and only
  if the events sent since the boot are the events sent before it. Even when nothing was pushed,
  checkpointed entries can be dropped (`Restarts.FreshBootDropsPending`): the boot goes on like a resumed
  one if and only if there is no checkpoint or it holds the empty spool (`Restarts.FreshBootContinuesIff`).
- A command that reaches the daemon outside a sync cycle moves the replay mark without saving it, so
  it is accepted again after a restart: `DaemonRuns.DirectCommandCanReplay`. A restart makes the daemon
  accept some command again that it had accepted before if and only if the checkpoint does not hold the
  mark, and then the last one is such a command: `DaemonRuns.RebootReplaysIff`.
- The rename loop of the Clave Disk can lose an index entry when a moved key equals the original key of
  another node, depending on the order in which the hash map yields the nodes:
  `DiskCases.MoveOntoParentLosesEntry`.
- It also cuts names at the length of the stored name of the renamed node, while it finds nodes by
  trimmed keys. With a trailing separator on that name a child lands beside the renamed directory
  instead of in it (`DiskCases.TrailingSeparatorLosesChild`), and with three of them the cut is past the
  end of the child's name and the call aborts (`DiskCases.LongTopAborts`). A trailing separator on
  a descendant does no harm: what counts is whether old and new name carry the same surplus of at most
  one separator (`DiskTree.AllLandRightIff`). Both conditions together are exact:
  `DiskTree.RenameKeepsTreeIff`.
- Deleting the root of an empty disk is not prevented: `DiskCases.EmptyRootIsDeleted`; exact:
  `DiskTree.DeleteKeepsIff`.
- A write of no bytes beyond the end of a file extends it with zeros: `DiskFile.EmptyWriteExtends`;
  exact: `DiskFile.EmptyWriteKeepsIff`.
- The four bands of a border overlap for windows thinner than two bands, so summed segment areas
  over-count; the painted pixels are still right: `Overlay.ThinWindowBandsOverlap`; exact: `Overlay.Ring`.
- Setting a policy outright may take the version back. What counts is the version last reissued, compared
  at the next reissue: the commands ascend (`PolicyIssuer.CommandsAscendIff`), and a daemon behind them
  accepts them all (`PolicyIssuer.IssuedPoliciesAcceptedIff`), if and only if every reissue finds a current
  version that is not below it.

## Model

| member | source | states |
|---|---|---|
| `Overlay.RectPx.Intersect` | crates/clave-core/src/overlay.rs:26-37 | holds exactly the pixels of both rectangles; none iff they share no pixel; stays representable |
| `Overlay.ApartIsNoCommonPixel` | crates/clave-core/src/overlay.rs:26-37 | for non-empty rectangles the edge comparison used as "apart" is exactly "no common pixel" |
| `Overlay.Subtract` | crates/clave-core/src/overlay.rs:73-91 | the pieces are non-empty, disjoint, inside the rectangle, cover exactly its pixels outside the hole, and their area plus the overlap is the original area |
| `Overlay.StripsAreExact` | crates/clave-core/src/overlay.rs:77-91 | the four strips around a hole tile the rest of the rectangle exactly |
| `Overlay.RegionSubtract` | crates/clave-core/src/overlay.rs:93-95 | subtracting from a disjoint region keeps it disjoint, removes exactly the hole's pixels and conserves area |
| `Overlay.AreaCountsPixels` | crates/clave-core/src/overlay.rs:181-183 | the summed area of disjoint rectangles is the number of pixels they cover |
| `Overlay.SamePixelsSameArea` | crates/clave-core/src/overlay.rs:181-194 | two disjoint cuts of the same pixel set have the same area |
| `Overlay.Ring` | crates/clave-core/src/overlay.rs:97-116 | the bands lie in the window, cover exactly the pixels within `thickness` of an edge, and are disjoint if and only if a checkable condition on sizes holds |
| `Overlay.WholeRingArea` | crates/clave-core/src/overlay.rs:97-116 | any disjoint cut of a whole ring with 2t <= w and 2t <= h has area w*h - (w-2t)*(h-2t) |
| `Overlay.ThinWindowBandsOverlap` | crates/clave-core/src/overlay.rs:101-114 | a concrete window whose bands overlap |
| `Overlay.SmallWindowsFit` | crates/clave-core/src/overlay.rs:17-36 | coordinates and sizes below 2^30 rule out every 32-bit overflow, for any number of windows |
| `Overlay.VisibleParts` | crates/clave-core/src/overlay.rs:144-150 | at every point of the occlusion loop and at its end the visible pieces are a disjoint region of the window: its pixels under no earlier window |
| `Overlay.Segments` | crates/clave-core/src/overlay.rs:154-161 | the segments cover exactly the visible ring pixels and are disjoint when the bands are |
| `Overlay.FramesImpl` | crates/clave-core/src/overlay.rs:133-171 | frames in window order, one exactly for each work window with a visible ring pixel, each painting exactly the ring pixels that no earlier window covers |
| `Overlay.VisibleSegments` | crates/clave-core/src/overlay.rs:140-162 | segments exist exactly when the window is a work window with a visible ring pixel, and then cover exactly those pixels |
| `Overlay.Framed` | crates/clave-core/src/overlay.rs:140-168 | the windows that get a frame: strictly in window order, exactly the work windows with a visible ring pixel |
| `Overlay.UnoccludedFrameArea` | crates/clave-core/src/overlay.rs:133-171 | an unoccluded frame is disjoint and has area w*h - (w-2t)*(h-2t) |
| `Overlay.FrameAreaIsPixelCount` | crates/clave-core/src/overlay.rs:133-171 | when the bands are clear of each other the area of a frame is the number of pixels the specification paints |
| `AuditChain.HeadAfterConcat` | crates/clave-proto/src/audit.rs:130-149 | a chain can be cut anywhere and continued from the head of its first part |
| `AuditChain.HeadDeterminesEvents` | crates/clave-proto/src/audit.rs:17-27 | with a collision-free hash the final head determines the event list, empty or not |
| `AuditChain.SameHeadSameBatch` | crates/clave-proto/src/audit.rs:202-237 | two batches accepted at the same place with the same head carry the same entries |
| `AuditChain.VerifyEntries` | crates/clave-proto/src/audit.rs:208-226 | the loop stops at the first faulty entry or yields the running head |
| `AuditChain.VerifyBatch` | crates/clave-proto/src/audit.rs:202-237 | accepts exactly the batches that are the signed chain of some events from the expected number and head |
| `AuditChain.EntriesOkIsChain` | crates/clave-proto/src/audit.rs:208-226 | entry checks succeed exactly on the chain built from the entries' own events |
| `AuditChain.AcceptedIsGenuine` | crates/clave-proto/src/audit.rs:202-237 | the verdict is Ok if and only if the batch is genuine |
| `AuditChain.FaultStays` | crates/clave-proto/src/audit.rs:208-226 | entries after the first fault do not change the verdict |
| `AuditChain.FaultIsTheFirst` | crates/clave-proto/src/audit.rs:208-226 | the reported fault names the first entry at which the list stops being a chain, with its right number, and whether its number, its link or its hash is wrong |
| `AuditChain.BatchFaultMeans` | crates/clave-proto/src/audit.rs:227-236 | when the entries are a chain a rejection says that the head is wrong, or else the signature's length, or else the signature |
| `AuditChain.ChainEntry` | crates/clave-proto/src/audit.rs:130-149 | the entries of a chain carry consecutive numbers and its events |
| `AuditChain.AuditSpool.Emit` | crates/clave-proto/src/audit.rs:130-149 | appends one entry linked to the old head and numbered after the last |
| `AuditChain.AuditSpool.Peek` | crates/clave-proto/src/audit.rs:112-115 | returns pending entries and head, changing nothing |
| `AuditChain.AuditSpool.Drain` | crates/clave-proto/src/audit.rs:107-110 | returns pending entries and head, leaving nothing pending |
| `AuditChain.AuditSpool.ConfirmThrough` | crates/clave-proto/src/audit.rs:117-120 | keeps exactly the pending entries with a later number |
| `AuditChain.AuditSpool.ResumeWith` | crates/clave-proto/src/audit.rs:84-89 | takes over number, head and pending entries |
| `AuditLedger.AuditLedger.RegisterDevice` | crates/clave-gateway/src/audit_ingest.rs:59-68 | (re)starts a device's chain at number 1 and genesis |
| `AuditLedger.AuditLedger.RestoreDevice` | crates/clave-gateway/src/audit_ingest.rs:70-85 | sets a device's chain to the given position |
| `AuditLedger.AuditLedger.Ingest` | crates/clave-gateway/src/audit_ingest.rs:87-114 | admits a genuine batch and moves the chain past it; otherwise changes only the alerts |
| `AuditLedger.IngestAdvances` | crates/clave-gateway/src/audit_ingest.rs:87-114 | a tracked chain accepts exactly the batches that continue its history, and moves as the history does |
| `AuditLedger.IngestIsIsolated` | crates/clave-gateway/src/audit_ingest.rs:87-114 | a rejected batch or one for another device moves neither number, head nor log |
| `AuditLedger.LedgerTracksPosition` | crates/clave-gateway/src/audit_ingest.rs:59-114 | after every run a device's position is the one computed from the run alone |
| `AuditLedger.RegisteredPosition` | crates/clave-gateway/src/audit_ingest.rs:59-114 | since registration: next number is one plus the events admitted, head is the fold of exactly those |
| `AuditLedger.RunIsRecorded` | crates/clave-gateway/src/audit_ingest.rs:87-114 | over every run the alerts are, in order, one for each batch of a known device that does not continue its history, naming device and fault, and the log holds exactly the events of those that do |
| `AuditLedger.IngestRecords` | crates/clave-gateway/src/audit_ingest.rs:97-112 | one ingest adds an alert or admissions as the history decides, and nothing for an unknown device |
| `AuditLedger.LogEndsWithHistory` | crates/clave-gateway/src/audit_ingest.rs:104-112 | the verified log of a device ends with exactly the events admitted since its last registration |
| `AuditLedger.MemAuditStore.Register` | crates/clave-gateway/src/audit_ingest.rs:216-227 | stores a chain at number 1 and genesis |
| `AuditLedger.MemAuditStore.Append` | crates/clave-gateway/src/audit_ingest.rs:229-245 | moves a known chain and appends the events with their numbers |
| `AuditLedger.MemAuditStore.LoadChains` | crates/clave-gateway/src/audit_ingest.rs:256-265 | yields exactly the stored chains, in any order |
| `AuditLedger.Gateway.IngestDeviceAudit` | crates/clave-gateway/src/gateway.rs:82-107 | ledger verdict, then persist: events and position on success, the alert on rejection |
| `AuditLedger.Gateway.HydrateAudit` | crates/clave-gateway/src/gateway.rs:109-120 | the ledger's chains become those of the store, other state unchanged; returns how many there are |
| `AuditLedger.Gateway.EnrollDevice` | crates/clave-gateway/src/gateway.rs:250-313 | the audit part of enrollment registers the device in ledger and store alike |
| `AuditLedger.RestoringAllHydrates` | crates/clave-gateway/src/gateway.rs:109-120 | restoring the stored chains in any order gives the same ledger |
| `AuditLedger.GatewayStaysInStep` | crates/clave-gateway/src/gateway.rs:82-107 | after every run of registrations and ingests, store and ledger hold the same chains, the same events and the same alerts |
| `AuditLedger.GatewayRunIsLedgerRun` | crates/clave-gateway/src/gateway.rs:82-107 | a run of the gateway moves its ledger as the registrations and ingests in it do |
| `AuditLedger.RunIsStored` | crates/clave-gateway/src/audit_ingest.rs:229-245 | over every run the store holds the events of the batches that continue their history, numbered on from it |
| `AuditLedger.SameChainsSameVerdicts` | crates/clave-gateway/src/audit_ingest.rs:87-114 | gateways with equal chains give equal verdicts on every later run |
| `AuditLedger.HydratedGatewayAgrees` | crates/clave-gateway/src/gateway.rs:109-120 | a fresh gateway hydrated after any run gives the verdicts the old one would have given |
| `Delivery.SafeRunsKeepInv` | crates/clave-daemon/src/lib.rs:943-971 | every interleaving of emits, cycle actions, ingests and non-exposed restarts keeps the protocol invariant |
| `Delivery.PushedBatchesAreAccepted` | crates/clave-daemon/src/lib.rs:943-971 | in every such run no alert is raised and the next queued batch is accepted |
| `Delivery.LedgerMeetsPendingTail` | crates/clave-daemon/src/lib.rs:943-971 | once it took everything pushed, the ledger's number and head are the start of the pending tail |
| `Delivery.WholeCyclesAreSafe` | crates/clave-daemon/src/lib.rs:943-971 | restarts between whole cycles, with emits and ingests between any two actions, are never exposed |
| `Delivery.CyclesDeliver` | crates/clave-daemon/src/lib.rs:943-971 | so over every life made of such cycles (link up or down) and restarts, nothing pushed is refused and ledger and tail meet |
| `Delivery.DeliveredExactlyOnce` | crates/clave-proto/src/audit.rs:84-150 | without restarts, pushed then pending entries are the chain of everything emitted, and the admitted events are a prefix of it |
| `Delivery.RestartForgetsOnlyUnsent` | crates/clave-daemon/src/lib.rs:573-582 | a non-exposed restart loses no event that was pushed or admitted |
| `Restarts.AcceptedIffItContinues` | crates/clave-proto/src/audit.rs:202-237 | in every run, restarts wherever they fall, the next queued batch is accepted exactly when its first entry links to the ledger's head, and otherwise refused as a gap or a broken chain |
| `Restarts.RestartIsLevelIff` | crates/clave-daemon/src/lib.rs:957-966 | from any reachable moment a restart continues right after the pushed batches iff it is not between the acknowledged push and the second save |
| `Restarts.BelievedRun` | crates/clave-proto/src/audit.rs:84-89 | after an exposed restart the device runs as one that is right about what it sent, and the gateway goes on as before until it meets the new batches |
| `Restarts.AfterExposedRestart` | crates/clave-daemon/src/lib.rs:955-966 | after an exposed restart and any safe run: earlier batches are accepted, the first new one is refused as a gap, each later one is accepted iff the head of the batch before it is the ledger's head |
| `Restarts.RecoveryLasts` | crates/clave-daemon/src/lib.rs:955-966 | once the last batch taken is where the ledger stands it stays so in every safe continuation |
| `Restarts.ExposedRestartCatchesUpIff` | crates/clave-proto/src/audit.rs:84-89 | until something is accepted after an exposed restart, the next batch is accepted iff what the checkpoint took as sent and the refused batches hold the events sent before |
| `Restarts.RefusedThenAccepted` | crates/clave-daemon/src/lib.rs:955-966 | a concrete run: exposed restart, one batch refused with Gap(2, 1), the next one accepted |
| `Restarts.FreshBootContinuesIff` | crates/clave-daemon/src/win_main.rs:109 | booting with an empty spool pushes the same as resuming in every continuation iff there is no checkpoint or it holds the empty spool |
| `Restarts.AfterFreshBoot` | crates/clave-daemon/src/win_main.rs:109 | after a boot with an empty spool when something was pushed, and any run: earlier batches accepted, the first new one refused as a gap, later ones accepted iff the head before them is the ledger's; until then iff the events sent since equal the events sent before |
| `Restarts.FreshBootAcceptedIff` | crates/clave-daemon/src/mac_main.rs:133 | every batch is accepted in every run after such a boot iff nothing was pushed before it |
| `Restarts.BootsAcceptIffItContinues` | crates/clave-daemon/src/mac_main.rs:133 | over any number of such boots the next queued batch is accepted exactly when its first entry links to the ledger's head |
| `Restarts.FreshBootDropsPending` | crates/clave-daemon/src/win_main.rs:109 | a concrete run after which nothing was pushed and a fresh boot still drops a checkpointed entry |
| `Cipher.DecryptUndoesEncrypt` | crates/clave-volume/src/xts.rs:22-31 | sector-wise decryption undoes encryption of any number of sectors from any first number |
| `Cipher.EncryptedSector` | crates/clave-volume/src/xts.rs:22-26 | each sector is encrypted under its own absolute number |
| `Volume.MemKeyStore.Provision` | crates/clave-volume/src/store.rs:31-38 | the provisioned key unwraps afterwards, others are untouched |
| `Volume.MemKeyStore.Destroy` | crates/clave-volume/src/store.rs:54-60 | removes exactly that key |
| `Volume.MemBacking.ReadSector` | crates/clave-volume/src/container.rs:70-75 | copies one sector into its place of the buffer, or nothing on an error |
| `Volume.MemBacking.WriteSector` | crates/clave-volume/src/container.rs:77-82 | replaces one sector, or nothing on an error |
| `Volume.ClaveVolume.Unlock` | crates/clave-volume/src/volume.rs:42-52 | mounts the unwrapped key unless wiped or destroyed |
| `Volume.ClaveVolume.Lock` | crates/clave-volume/src/volume.rs:54-56 | drops the cipher and nothing else |
| `Volume.ClaveVolume.Wipe` | crates/clave-volume/src/volume.rs:96-101 | drops cipher and key and sets the marker |
| `Volume.ClaveVolume.Authorize` | crates/clave-volume/src/volume.rs:58-109 | the checks before any I/O: refuses unsupervised callers, a locked volume and misaligned lengths, in that order |
| `Volume.ClaveVolume.Read` | crates/clave-volume/src/volume.rs:58-76 | fills the buffer with the decrypted sectors, or leaves it except for the raw leading sectors of an out-of-range read |
| `Volume.ClaveVolume.Write` | crates/clave-volume/src/volume.rs:78-94 | stores exactly the leading sectors that fit, encrypted |
| `Volume.ReadRefines` | crates/clave-volume/src/volume.rs:58-76 | decrypting a raw area gives the plain sectors of that range |
| `Volume.WriteRefines` | crates/clave-volume/src/volume.rs:78-94 | the plain view of the patched ciphertext is the plain array with exactly those sectors replaced |
| `Volume.StepRefines` | crates/clave-volume/src/volume.rs:42-109 | each operation answers and moves like the plain array |
| `Volume.VolumeRefinesPlainArray` | crates/clave-volume/src/volume.rs:42-109 | every run of unlocks, locks, wipes, reads, writes and zone changes answers like a plain sector array |
| `Volume.WipeIsFinal` | crates/clave-volume/src/volume.rs:96-101 | after a wipe no run unlocks, reads, writes or changes the stored bytes |
| `Volume.WipeDestroysKey` | crates/clave-volume/src/volume.rs:96-101 | after a wipe and any run the key is gone and all other keys are as before, so over any bytes, with or without the marker, unlocking fails |
| `Volume.UnlocksWithLastKey` | crates/clave-volume/src/volume.rs:42-52 | a volume that is not wiped unlocks iff its key was provisioned and not destroyed since, with the key provisioned last |
| `Volume.WrongKekStaysClosed` | crates/clave-volume/src/store.rs:41-45 | a key wrapped under another key-encryption key does not open |
| `Control.GatewayVerifier.Verify` | crates/clave-proto/src/verify.rs:45-85 | accepts exactly what the pinned key signed for the pinned tenant under the current protocol, in time and with a counter above the mark, and moves the mark to that counter |
| `Control.AcceptedIffAuthentic` | crates/clave-proto/src/verify.rs:45-85 | a command is accepted iff it equals the signature of this command for the tenant under some counter above the mark and some issue time at most the maximum age ago and the skew ahead |
| `Control.RefusalsMean` | crates/clave-proto/src/verify.rs:50-82 | for each error, exactly which condition fails first |
| `Daemon.Daemon.UpdatePolicy` | crates/clave-daemon/src/lib.rs:456-469 | installs a bundle unless its version is lower than the current one |
| `Daemon.Daemon.UnlockVolume` | crates/clave-daemon/src/lib.rs:471-479 | unlocks and, only on success, reports it |
| `Daemon.Daemon.LockVolume` | crates/clave-daemon/src/lib.rs:481-488 | locks and reports |
| `Daemon.Daemon.Wipe` | crates/clave-daemon/src/lib.rs:519-528 | wipes and reports |
| `Daemon.Daemon.ApplyGatewayCommand` | crates/clave-daemon/src/lib.rs:530-555 | verifies, then obeys; the mark moves even if obeying fails |
| `Daemon.Daemon.TakeCheckpoint` | crates/clave-daemon/src/lib.rs:573-582 | the current mark and the whole spool |
| `Daemon.LoopbackLink.PollCommands` | crates/clave-proto/src/link.rs:74-81 | hands out the queued commands once |
| `Daemon.LoopbackLink.PushAudit` | crates/clave-proto/src/link.rs:83-91 | appends the batch when online, else nothing |
| `Daemon.GatewaySync.ApplyCommands` | crates/clave-daemon/src/lib.rs:943-951 | the commands take effect in order; applied and rejected add up |
| `Daemon.GatewaySync.SyncOnce` | crates/clave-daemon/src/lib.rs:943-971 | one whole cycle: daemon, checkpoint store and link end as specified, and the report counts applied, rejected, shipped and retained |
| `Daemon.GatewaySync.Ship` | crates/clave-daemon/src/lib.rs:951-970 | its second half: saves, pushes what is pending, and confirms and saves again only if the link took it |
| `DaemonRuns.CycleIsDeliveryRun` | crates/clave-daemon/src/lib.rs:943-971 | one call of the sync cycle is a run of the delivery protocol |
| `DaemonRuns.CycleIsWholeCycle` | crates/clave-daemon/src/lib.rs:943-971 | namely an uninterrupted whole cycle, so the delivery theorem applies to it |
| `DaemonRuns.LifeIsDelivery` | crates/clave-daemon/src/lib.rs:943-971 | a whole life of cycles, direct commands, other events and reboots is a run of the delivery protocol |
| `DaemonRuns.LifeDelivers` | crates/clave-daemon/src/lib.rs:943-971 | so over every life of a daemon, its gateway taking batches whenever it likes, nothing pushed is refused and ledger and tail meet |
| `DaemonRuns.AcceptedOnce` | crates/clave-proto/src/verify.rs:77-84 | over every run whose restarts find the mark saved, accepted counters strictly increase |
| `DaemonRuns.OnlySignedAreAccepted` | crates/clave-proto/src/verify.rs:45-85 | over every life, whatever the restarts, every accepted command was signed for the device under its counter and was in time |
| `DaemonRuns.CommandMeans` | crates/clave-daemon/src/lib.rs:530-555 | a command is carried out iff it is authentic and can be obeyed, and then does just that; a command that is not authentic changes nothing, one that cannot be obeyed moves the mark only |
| `DaemonRuns.AppliedIsAnswered` | crates/clave-daemon/src/lib.rs:943-951 | the report counts as applied exactly the commands answered with success |
| `DaemonRuns.EventsAreReported` | crates/clave-daemon/src/lib.rs:137-153 | each join, leave, mount, unmount and wipe is reported once, and nothing else is |
| `DaemonRuns.CyclesSaveTheMark` | crates/clave-daemon/src/lib.rs:943-954 | with commands arriving only in cycles every restart finds the mark saved |
| `DaemonRuns.CyclesNeverReplay` | crates/clave-daemon/src/enrollment_store.rs:162-168 | so across cycles and restarts no counter is accepted twice |
| `DaemonRuns.RebootReplaysIff` | crates/clave-daemon/src/enrollment_store.rs:162-168 | after every run that never restarted behind its mark, a restart lets a command accepted before be accepted again, at whatever time, iff the checkpoint does not hold the mark, and then the last one is |
| `DaemonRuns.DirectCommandCanReplay` | crates/clave-daemon/src/lib.rs:835-837 | one command applied outside a cycle is accepted twice with a restart between |
| `DaemonRuns.DaemonVolume` | crates/clave-daemon/src/lib.rs:471-555 | over any run of daemon events the volume moves only by volume operations |
| `DaemonRuns.DaemonWipeIsFinal` | crates/clave-daemon/src/lib.rs:519-528 | after a wipe no run of daemon events unlocks; reads and writes are denied or locked; stored bytes never change |
| `DaemonRuns.DaemonWipeDestroysKey` | crates/clave-daemon/src/lib.rs:519-528 | after a wipe and any run of daemon events the key is gone for good |
| `PolicyIssuer.MemPolicyIssuer.SetPolicy` | crates/clave-gateway/src/policy.rs:128-130 | replaces the history of the workspace by one bundle |
| `PolicyIssuer.MemPolicyIssuer.AuthorPolicy` | crates/clave-gateway/src/policy.rs:179-189 | appends the bundle with the next version |
| `PolicyIssuer.MemPolicyIssuer.SignCurrent` | crates/clave-gateway/src/policy.rs:144-161 | signs the newest bundle with a fresh counter, or nothing without a policy |
| `PolicyIssuer.HistoryIsWritten` | crates/clave-gateway/src/policy.rs:128-189 | over every run a workspace's history is the texts set and authored for it, in order, under consecutive versions |
| `PolicyIssuer.CommandsAreNumbered` | crates/clave-gateway/src/policy.rs:144-161 | whatever happens, the counters of signed commands strictly increase |
| `PolicyIssuer.CommandsAscend` | crates/clave-gateway/src/policy.rs:144-189 | over any run whose settings do not go below the newest version, commands have increasing counters and never-decreasing versions, none ahead of the issuer |
| `PolicyIssuer.CommandsAscendIff` | crates/clave-gateway/src/policy.rs:128-189 | over every run of setting, authoring and reissuing, commands ascend iff every reissue finds a version not below the last reissued one |
| `PolicyIssuer.ReissueAscendsIff` | crates/clave-gateway/src/policy.rs:144-161 | after ascending commands, one more reissue ascends iff the current version is not below the last reissued one |
| `PolicyIssuer.SetPolicyAscendsIff` | crates/clave-gateway/src/policy.rs:128-130 | after any ascending run, setting a policy and reissuing ascends iff its version is not below the one last reissued |
| `PolicyIssuer.AuthoringNeverGoesBack` | crates/clave-gateway/src/policy.rs:179-189 | runs of authoring and reissuing alone never go back |
| `PolicyIssuer.AscendingIsAccepted` | crates/clave-proto/src/verify.rs:45-85 | a daemon behind the first of such commands accepts all of them, delivered in order and in time |
| `PolicyIssuer.IssuedPoliciesAcceptedIff` | crates/clave-daemon/src/lib.rs:456-469 | delivered in order and in time to a daemon behind the first, all commands of a run are accepted iff every reissue held the version |
| `PolicyIssuer.IssuedPoliciesAreAccepted` | crates/clave-daemon/src/lib.rs:456-469 | so as long as reissues hold the version, delivery never yields a replay or rollback and ends at the last reissued bundle |
| `PolicyIssuer.LastReissueWins` | crates/clave-gateway/src/policy.rs:144-161 | delivered with the rest, a final reissue leaves the daemon at the workspace's current policy |
| `Roles.MemStore.UpsertUser` | crates/clave-gateway/src/store.rs:190-204 | finds the user of an address or adds one with a new id |
| `Roles.UpsertMeans` | crates/clave-gateway/src/store.rs:190-204 | every address keeps its own user and no two addresses share one |
| `Roles.MemStore.PutMembership` | crates/clave-gateway/src/store.rs:220-227 | replaces the membership of that workspace and user |
| `Roles.MemStore.PutInvitation` | crates/clave-gateway/src/store.rs:263-271 | replaces the invitation of that workspace and address |
| `Roles.MemStore.MarkInvitationAccepted` | crates/clave-gateway/src/store.rs:288-303 | marks an existing invitation, else nothing |
| `Roles.MemStore.FirstMember` | crates/clave-gateway/src/gateway.rs:573-590 | the member found for an address is the matching one with the least id |
| `Roles.Gateway.ConsoleLogin` | crates/clave-gateway/src/gateway.rs:136-175 | accepts a pending invitation or an existing membership, or says why not |
| `Roles.LoginMeans` | crates/clave-gateway/src/gateway.rs:136-175 | a session is given iff the workspace exists, its domain and sign-on rules are met, and the user is an active member, or no member yet but openly invited; it has that role |
| `Roles.LoginRefusalMeans` | crates/clave-identity/src/authz.rs:64-146 | why a login is refused: the invitation's state, the workspace's rules, or the membership's status |
| `Roles.LoginLeaves` | crates/clave-identity/src/authz.rs:116-146 | a login that used an invitation leaves its membership and marks it accepted; any other leaves members and invitations alone |
| `Roles.Gateway.AuthorizeRequest` | crates/clave-gateway/src/gateway.rs:204-227 | issues a context only for an unexpired session of an active member, with the role stored now |
| `Roles.AuthorizedMeans` | crates/clave-gateway/src/gateway.rs:204-227 | a context is issued iff the session has not expired and its user is an active member |
| `Roles.Gateway.InviteMember` | crates/clave-gateway/src/gateway.rs:360-384 | stores an invitation if the caller may manage members and does not grant above the own role |
| `Roles.InviteMeans` | crates/clave-gateway/src/gateway.rs:360-384 | stored iff the caller is no plain member, offers at most the own role, and the address is one; then just that invitation |
| `Roles.Gateway.ChangeRole` | crates/clave-gateway/src/gateway.rs:402-422 | changes the role of an existing member, if the caller may and neither old nor new role is above the caller's |
| `Roles.ChangeRoleMeans` | crates/clave-gateway/src/gateway.rs:402-422 | changed iff the caller is no plain member, the member exists and neither old nor new role is above the caller's; then just that one role |
| `Roles.Gateway.SetMemberStatus` | crates/clave-gateway/src/gateway.rs:442-457 | changes the status of an existing member, if the caller may and the member is not more senior |
| `Roles.SetStatusMeans` | crates/clave-gateway/src/gateway.rs:442-457 | set iff the caller is no plain member and the member exists and is not more senior; then just that status |
| `Roles.Gateway.ApplyDirectoryEvent` | crates/clave-gateway/src/gateway.rs:573-610 | suspends or activates the found member, changing no role, and reports the member exactly when its status changed |
| `Roles.DirectoryMeans` | crates/clave-gateway/src/gateway.rs:573-610 | the found member gets the status of the event, nothing else changes |
| `Roles.AdminStepKeeps` | crates/clave-gateway/src/gateway.rs:360-457 | no operation with an issued context lifts a role above a bound that held before |
| `Roles.NoRoleEscalation` | crates/clave-identity/src/authz.rs:116-172 | after any run every role in a workspace is at or below one present there at the start, even with stale contexts |
| `Roles.SeniorsAreSafe` | crates/clave-gateway/src/gateway.rs:402-457 | no operation with a context touches a member who ranks above it, or another workspace's |
| `Roles.SeniorRoleStays` | crates/clave-gateway/src/gateway.rs:360-457 | over any run whose contexts for a workspace all rank below a member, that member's role stays |
| `Framing.LengthRoundTrip` | crates/clave-ipc/src/lib.rs:72-100 | the four length bytes give the number back |
| `Framing.LengthIsLittleEndian` | crates/clave-ipc/src/lib.rs:72-92 | the length field is little-endian |
| `Framing.RoundTripIff` | crates/clave-ipc/src/lib.rs:72-100 | a frame decodes to its message iff the body is within the limit |
| `Framing.PrefixIsIncomplete` | crates/clave-ipc/src/lib.rs:84-100 | every proper prefix of a frame is incomplete |
| `Framing.DecisionIsFinal` | crates/clave-ipc/src/lib.rs:84-100 | more bytes never change a decision already made |
| `Framing.DecodesAsAnnounced` | crates/clave-ipc/src/lib.rs:84-100 | a buffer that announces a length is refused at once iff that is above the limit, undecided while the body is missing, and then decoded or malformed |
| `Framing.OversizeIsRefused` | crates/clave-ipc/src/lib.rs:84-92 | an oversize message is refused as soon as four bytes are there |
| `Framing.Connection.Read` | crates/clave-ipc/src/transport.rs:205-223 | the outcome and the bytes left depend on the bytes ahead only, not on how they are cut |
| `Framing.Connection.ReadAll` | crates/clave-ipc/src/transport.rs:205-223 | reading to the end terminates with the messages of the byte string |
| `Framing.ParseMessages` | crates/clave-ipc/src/transport.rs:205-223 | encoded messages followed by an incomplete tail come back in order, then End or Truncated |
| `Framing.StreamReadsBack` | crates/clave-ipc/src/transport.rs:205-223 | a stream cut anywhere inside the next frame yields the messages before it, then a clean end only on the boundary |
| `Framing.StreamRefusesOversize` | crates/clave-ipc/src/transport.rs:205-223 | a stream that turns oversize yields the messages before it and then the refusal |
| `Paths.PrefixIsComponentPrefix` | crates/clave-core/src/path.rs:16-36 | the string test is exactly "component list is a prefix" |
| `Paths.UnderIsComponentPrefix` | crates/clave-core/src/path.rs:16-36 | `under` holds iff the normalised prefix is not blank and its components start those of the path |
| `Paths.WindowsPrefixIgnoresCase` | crates/clave-core/src/path.rs:10-36 | a prefix with a backslash or a drive letter ignores case in the path |
| `Paths.OtherPrefixIsExact` | crates/clave-core/src/path.rs:10-36 | any other prefix is compared letter by letter |
| `Paths.ClassifyMeans` | crates/clave-core/src/path.rs:42-61 | exactly which paths are work data, copy-on-write and passed through, in terms of components |
| `Paths.UnderOwnParentIff` | crates/clave-core/src/learn.rs:84-88 | a path lies under its own parent text iff that text has a character besides separators |
| `Paths.ParentDirMeans` | crates/clave-core/src/learn.rs:84-88 | the parent is what stands before the last separator, if that is anything |
| `Paths.LessMeans` | crates/clave-core/src/learn.rs:65 | the order of the roots is lexicographic |
| `Paths.LearnSession.Record` | crates/clave-core/src/learn.rs:32-34 | appends the observation |
| `Paths.LearnSession.Synthesize` | crates/clave-core/src/learn.rs:44-81 | roots are strictly sorted and are exactly the parents of the writes outside the mount; the launch profile is fresh, with a namespace iff a named object was seen |
| `Paths.LearnedWritesAreWorkData` | crates/clave-core/src/path.rs:42-61 | every learned write with a named parent is classified as work data afterwards |
| `DiskPaths.ComputeCanon` | crates/clave-win/src/mount.rs:62-71 | the trimming loop computes the key of a path |
| `DiskPaths.SameKeyIff` | crates/clave-win/src/mount.rs:62-71 | two names have the same key iff they differ only in case and trailing separators |
| `DiskPaths.ParentMeans` | crates/clave-win/src/mount.rs:74-83 | the parent of a key is what stands before its last separator, the root if that is nothing |
| `DiskPaths.ParentStaysInSubtree` | crates/clave-win/src/mount.rs:74-83 | the parent of a key below `top` is in the subtree of `top` |
| `DiskPaths.ChildIsBelow` | crates/clave-win/src/mount.rs:74-83 | whatever has its parent in the subtree of `top` lies below `top` |
| `DiskShape.AddKeeps` | crates/clave-win/src/mount.rs:265-329 | adding under a live directory keeps index and tree |
| `DiskShape.RemoveKeepsIff` | crates/clave-win/src/mount.rs:333-348 | removing a childless node keeps the tree iff it is not the root |
| `DiskShape.IndexStaysExact` | crates/clave-win/src/mount.rs:586-592 | without clashes the index is exact after every turn of the rename loop, in every order |
| `DiskShape.RenameFitsSuffices` | crates/clave-win/src/mount.rs:549-594 | a rename that fits leaves a proper tree in every order |
| `DiskShape.NoClashNeeded` | crates/clave-win/src/mount.rs:586-592 | a clash breaks the index in some order |
| `DiskShape.RenameKeepsTreeIff` | crates/clave-win/src/mount.rs:549-594 | a rename leaves a proper tree in every order iff it fits |
| `DiskShape.OrderDoesNotMatter` | crates/clave-win/src/mount.rs:571-592 | when it fits, all orders give the same result |
| `DiskShape.SimpleTargetFits` | crates/clave-win/src/mount.rs:549-594 | a target that is absent, the node itself or childless, under a live directory outside the subtree, fits |
| `DiskShape.MoveToSameKey` | crates/clave-win/src/mount.rs:586-592 | renaming to another spelling of the same key leaves the shape alone |
| `DiskTree.CreateKeeps` | crates/clave-win/src/mount.rs:265-329 | creating keeps index and tree for every name |
| `DiskTree.CreateStatusMeans` | crates/clave-win/src/mount.rs:265-305 | creating succeeds iff no node has the key and a live directory has its parent's key; each status says what is missing |
| `DiskTree.CreateMeans` | crates/clave-win/src/mount.rs:305-329 | it adds just that one empty node under a new id, or changes nothing |
| `DiskTree.OtherSpellingCollides` | crates/clave-win/src/mount.rs:280-284 | a name that differs from a live one in case and trailing separators only is taken |
| `DiskTree.DeleteMeans` | crates/clave-win/src/mount.rs:333-348 | deleting takes away just the node and its key iff it is a file or no live node has it as parent, else changes nothing |
| `DiskTree.DeletedCanReturn` | crates/clave-win/src/mount.rs:265-348 | what was deleted can be created again under the same name |
| `DiskTree.DeleteKeepsIff` | crates/clave-win/src/mount.rs:333-348 | deleting keeps the tree iff it does not take a childless root away |
| `DiskTree.MovedNameKeyIff` | crates/clave-win/src/mount.rs:586-592 | a name cut at the stored name of the top and put behind the new name has the moved key iff both names carry the same surplus, at most one separator |
| `DiskTree.NoDoubledSeparator` | crates/clave-win/src/mount.rs:74-83 | in a well-formed tree no key has a doubled separator below another key |
| `DiskTree.AllLandRightIff` | crates/clave-win/src/mount.rs:571-592 | a rename carries every descendant to its moved key iff the names match or there is none |
| `DiskTree.MatchingNamesAreSliceable` | crates/clave-win/src/mount.rs:587 | with names that match the cut never runs past a name |
| `DiskTree.RenameKeepsTreeIff` | crates/clave-win/src/mount.rs:549-594 | for every well-formed tree and new name: no abort, and well-formed with every descendant carried along in every order, iff the names match and the move fits |
| `DiskTree.RenameReplaces` | crates/clave-win/src/mount.rs:562-569 | a rename takes away exactly the other node that has the new name's key |
| `DiskCases.MoveOntoParentLosesEntry` | crates/clave-win/src/mount.rs:586-592 | three created directories and a rename that loses an index entry in one order and not in the other |
| `DiskCases.TrailingSeparatorLosesChild` | crates/clave-win/src/mount.rs:586-592 | a directory created with a trailing separator whose child lands beside it |
| `DiskCases.LongTopAborts` | crates/clave-win/src/mount.rs:587 | a created tree on which the cut runs past the child's name |
| `DiskCases.EmptyRootIsDeleted` | crates/clave-win/src/mount.rs:333-348 | deleting the root of a fresh disk removes it |
| `DiskFile.StoreDecrypts` | crates/clave-win/src/mount.rs:202-226 | decrypting what was stored gives the plaintext, whatever its length |
| `DiskFile.StepRefines` | crates/clave-win/src/mount.rs:350-408 | each file operation is the same operation on a byte string, and keeps the size limit |
| `DiskFile.EmptyWriteKeepsIff` | crates/clave-win/src/mount.rs:368-408 | a write of no bytes keeps the content iff it is constrained, starts within the file or is refused; otherwise it appends zeros |
| `DiskFile.EmptyWriteExtends` | crates/clave-win/src/mount.rs:368-408 | at offset 1 of an empty file it leaves one zero byte |
| `DiskFile.FileIsByteString` | crates/clave-win/src/mount.rs:474-530 | any run of reads, writes, resizes and overwrites answers like a byte string with zero-filled gaps, within the limit |
| `DiskFs.ClaveDiskFs.Create` | crates/clave-win/src/mount.rs:265-329 | the new tree and the status, collision before invalid before missing parent before not a directory |
| `DiskFs.ClaveDiskFs.Cleanup` | crates/clave-win/src/mount.rs:333-348 | deletes just node and key iff asked to and it is a file or has no child, else changes nothing |
| `DiskFs.ClaveDiskFs.Rename` | crates/clave-win/src/mount.rs:549-594 | refuses a taken target without replace; otherwise, in any tree whose visited names can be cut, the whole loop over the affected nodes in some order |
| `DiskFs.RefusedMeans` | crates/clave-win/src/mount.rs:562-569 | it is refused exactly when another node has the key and must not be replaced |
| `DiskFs.ClaveDiskFs.MoveSubtree` | crates/clave-win/src/mount.rs:586-592 | visits every affected node once, in whatever order |
| `DiskFs.ClaveDiskFs.MoveOne` | crates/clave-win/src/mount.rs:587-591 | one turn: the original key goes, the moved key and name come |
| `DiskFs.ClaveDiskFs.Read` | crates/clave-win/src/mount.rs:350-366 | the buffer starts with the bytes read and keeps its rest |
| `DiskFs.ClaveDiskFs.Write` | crates/clave-win/src/mount.rs:368-408 | the node and the count as on the byte string; other nodes untouched |
| `DiskFs.ClaveDiskFs.SetFileSize` | crates/clave-win/src/mount.rs:474-502 | resized or truncated, or refused above the limit |
| `DiskFs.ClaveDiskFs.Overwrite` | crates/clave-win/src/mount.rs:504-530 | the node becomes empty, others untouched |
| `DiskFs.RenameKeepsContents` | crates/clave-win/src/mount.rs:549-594 | a rename changes names only, never contents |
| `DiskFs.DiskAfter` | crates/clave-win/src/mount.rs:265-594 | from a fresh disk every run of allowed operations keeps a well-formed tree, padded ciphertext and sizes within the limit |
| `DiskFs.StepContents` | crates/clave-win/src/mount.rs:265-594 | each operation does to the contents what it does to a map from node to byte string |
| `DiskFs.RunContents` | crates/clave-win/src/mount.rs:265-594 | over every mixed run of creates, deletes, renames and file operations the files hold what that map holds |

## Left out

- Cipher, hash and signature internals: the sector cipher is any inverse pair, the chain hash a free constructor (collision-free), signatures a symbolic term that only the key's owner can build; malformed public keys are not modelled.
- postcard and serde encoding: decoding is taken to undo encoding.
- Integer width outside the overlay: sequence numbers, counters, versions, offsets and sector byte offsets are unbounded.
- Concurrency inside the daemon: every `Daemon` method is one atomic step, although `checkpoint` reads number, head and pending entries under separate locks and `update_policy` loads and then stores. Emits inside `checkpoint` are therefore not covered.
- `ChannelGatewayLink` and the mTLS pumps: there an accepted push only means "queued", so the delivery theorems are stated for a link whose acknowledgement means delivered.
- PostgreSQL and file-backed stores: only the in-memory ones are modelled, and their writes succeed.
- `AuditEvent` fields besides time, action and verdict, and alert texts.
- Unicode: names and paths are sequences of characters with ASCII case folding.
- Email parsing: addresses are already parsed and lower-cased, allowed domains already normalised.
- `refresh_session`, device enrollment, device lock and wipe requests, and the read-only listings of the gateway: they change no role.
- DiskFs.ClaveDiskFs.Rename: requires a live node and visited names that can be cut, because the original aborts otherwise.
- AuditChain.AuditSpool.Emit: does not model the optional forwarding sink, which gets a copy of the event.
- AuditLedger.Gateway.EnrollDevice: models the two audit registrations of a completed enrollment and nothing else of it.
- Daemon.Daemon.UpdatePolicy: does not model the policy observer that is called after an update.
- Daemon.Daemon.Wipe: does not model the wipe request to the platform, whose result the original ignores.
- WinFsp plumbing, timestamps, attributes, security descriptors and directory listing of the Clave Disk.
- `recompute_frames` and `recompute_frames_themed`: thin wrappers that choose the colour function.
- Enforcement, clipboard guards, capture watches, network classification, launcher, console, command line and platform bindings: case tables or foreign calls that would only add easy members.
