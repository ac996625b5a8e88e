# A Dafny model of syzy's replication core

syzy replicates SQLite databases between nodes. This project models the parts of it whose correctness is
hardest to see from the code and proves what they promise, for every input and every run:

- **Byte-range CRDT** (`IntervalMap`, `IntervalHistory`, `Identity`): the in-place interval list behind blob
  patches is a per-byte last-writer-wins map, and replicas that saw the same patches hold the same bytes.
- **Unique-value reservation** (`Reservation`, `ReservationRuns`): the leaseholder's taken-set, release hold and
  duplicate fence, over every sequence of reservations, snapshots and sweeps.
- **Lease and handoff** (`LeaseCluster`, `LeaseSafety`, `LeaseProgress`, `BatonPass`, `Reign`, `DrainWindow`,
  `LateGrant`): any number of nodes contending for one lease object by compare-and-swap, with requests that land late or
  whose answers are lost, crashes and restarts. At most one node serves at any instant, and whoever may take the lease
  can. A graceful handoff passes the table on exactly, a value granted before it is given to nobody else after it, and
  the failover drain covers requests in flight.
- **Mesh tie-break** (`TieBreak`): two nodes that dial each other any number of times settle on one connection.
- **Lazy restore** (`LazyFile`, `LazyRefinement`, `LazyFailures`): a sparse file with pages fetched on demand, or cloned
  from a sibling, reads like the fully restored file, across remounts too.
- **Change notifications** (`Notify`, `NotifyRuns`, `NotifyFailures`): writer, ring, reader and bounded subscriber
  channels; whatever is skipped is announced.
- **Sequence sets** (`RangeSets`): two range-list representations with the same canonical form.
- **Schema log** (`SchemaLog`): the in-memory and the object-store backends answer alike.
- **Index predicates** (`Predicate`, `PredicateOrder`): three-valued evaluation and the order of column values.
- **Wire formats** (`Wire`, `Changeset`, `Predicate`, `CatalogOp`): changesets, index predicates and catalog
  operations decode to what was encoded, through version changes and extension areas, and what no version defines is
  refused.

Objects that the source updates in place are classes whose methods are proved against functions on values; the
lemmas are about those functions. Protocols are state machines whose labels are the atomic actions of the code.
The clock, checksums, comparison of REAL values, the allocator's limits and the answers of the object store are
parameters.

`dafny verify dfyconfig.toml` checks the whole project.

## Where the code departs from its promise

Each of these has a lemma that states when the promise holds, exactly unless noted, and one at a concrete input or run
where it fails. For the drain the condition is sufficient; the runs show that its length, and later leaders who sit
it out, are needed.

- A reserve request held up for longer than the drain between its gate and its table is granted although a later
  generation serves by then, and one value can go to two owners (`DrainWindow.DrainCoversRequests`,
  `LateGrant.LateRequestMakesTwoOwners`).
- A leader that steps down within its drain hands on a table nobody derived, and its successor serves at once
  (`DrainWindow.DrainCoversRequests`, `LateGrant.HastyHandoffMakesTwoOwners`).
- Lazy file, exactly when: `LazyRefinement.WriteRefinesIff`, `LazyRefinement.WriteKeepsCleanIff`,
  `LazyRefinement.ReadRefinesIff`, `LazyRefinement.RemountRefinesIff`. Where it fails, in `LazyFailures`:
  - An aligned write shorter than a page, to a page not fetched yet, loses the page's tail (`AlignedShortWriteLosesTheTail`).
  - A write past the last 32-bit page number marks a low page present (`WideWriteMarksAnotherPage`).
  - A write over the end of a file of almost 2^32 pages marks none: a changed page stays clean for siblings to
    clone (`WideWriteLeavesACleanBit`), and a missing one forgets what was written until the next mount brings it
    back (`WideWriteIsForgotten`).
  - A read there fetches none and returns zeros for a missing page (`WideReadSkipsAPage`).
- A writer that restarts wipes the ring, raises the generation and resets the head in three stores. A drain after
  the first reads the wiped slots as changes, and one after the second loses changes later on with no marker
  (`NotifyRuns.DrainIsTrueIff`, `NotifyFailures.WipedSlotsReadAsChanges`, `NotifyFailures.RestartLosesAChange`).
- A batch dropped at a full channel is announced only by a later delivery, so a subscriber after which nothing
  comes is never told (`NotifyFailures.DropIsAnnouncedIff`, `NotifyFailures.DropIsNeverTold`).
- A subscriber to a table whose name is over 32 bytes hears nothing and is not told (`NotifyRuns.SubscribedIsToldIff`,
  `NotifyRuns.HiddenChangeIsLost`), and one whose name is 32 bytes hears of other tables too (`NotifyRuns.FilterIsExactIff`,
  `NotifyRuns.FullNameCatchesOthers`).
- A ring whose slot count does not divide 2^32 reuses live slots when the head wraps (`NotifyRuns.WindowsFitIff`,
  `NotifyRuns.ThreeSlotsCollide`).
- A reader 2^32 or more behind can miss changes without a marker (`NotifyRuns.DrainIsHonestIff`,
  `NotifyRuns.LappedReaderHearsNothing`).
- A dial after the largest nonce is given nonce zero (`ConnNonce.NoncesIncreaseIff`, `ConnNonce.NonceWraps`).
- The object-store schema log accepts an append past its head (`SchemaLog.AppendAgreesIff`, `SchemaLog.AppendPastTheHead`).
- A predicate of more than 256 nodes can be written and not read back (`Predicate.PredicateRoundTripIff`,
  `Predicate.DeepPredicateIsUnreadable`).
- A changeset that announces more columns or ranges than the allocator makes room for panics the decoder
  (`ChangesetCodec.PanicsIff`, `ChangesetCodec.HugeCountPanics`).
- At the largest sequence number a merge keeps overlapping ranges (`RangeSets.MergeIsCanonicalIff`, `RangeSets.MergeAtTheTop`)
  and a promotion moves backwards (`RangeSets.PromoteConserves`, `RangeSets.PromoteAtTheTop`).

## Model

| member | source | states |
|---|---|---|
| Identity.PackIsOrderIsomorphism | crdt/identity.go:44-98 | packing is a bijection between wire clocks and 63-bit words that preserves the clock order and the maximum, and the top bit of a word is ignored |
| Identity.DominatesIsLater | crdt/identity.go:100-122 | dominance is the clock order with the larger origin as tie-break, and on wire clocks the order of the packed words |
| IntervalMaps.CanonicalIsUnique | crdt/interval.go:9-15 | sorted, disjoint and coalesced lists with the same stamp at every byte are equal |
| IntervalMaps.IntervalMap.FirstAfter | crdt/interval_impl.go:28-44 | binary search finds the index before which every entry starts at or before the offset and from which every entry starts past it |
| IntervalMaps.IntervalMap.At | crdt/interval_impl.go:28-44 | the stamp of the covering entry, the zero stamp when there is none |
| IntervalMaps.IntervalMap.Apply | crdt/interval_impl.go:58-131 | the new list is canonical and every byte carries the last-writer-wins merge of its old stamp, the baseline and the write; the result lists exactly the bytes the write won |
| IntervalMaps.ApplyFinishes | crdt/interval_impl.go:58-131 | when the single pass ends, the list it built is ordered, means the per-byte merge, and the collected ranges are the bytes won |
| IntervalMaps.Overlay | crdt/interval_impl.go:82-115 | one overlapping entry is split against the write into kept, won and shadowed parts |
| IntervalMaps.CoalescePreserves | crdt/interval_impl.go:160-174 | coalescing yields the canonical form and changes no byte |
| IntervalMaps.Coalesce | crdt/interval_impl.go:160-174 | the in-place loop computes that form for any list |
| IntervalMaps.IntervalMap.Prune | crdt/interval_impl.go:133-142 | keeps exactly the entries above the floor |
| IntervalMaps.IntervalMap.Clip | crdt/interval_impl.go:144-156 | keeps exactly the parts below the bound |
| IntervalHistory.RunMeans | crdt/interval.go:16-37 | after any sequence of writes, prunes and clips the list is canonical and each byte has the highest covering stamp above the baseline |
| IntervalHistory.LatestClockWins | crdt/interval.go:3-15 | after any run on wire clocks a byte carries the covering write with the latest packed clock above the baseline, and nothing only if there is none |
| IntervalHistory.LaterOfTwoWins | crdt/interval_impl.go:58-131 | of two writes to a byte the one with the later packed clock wins, in whichever order they arrive |
| IntervalHistory.Convergence | crdt/interval.go:3-15 | runs with the same set of writes, in any order and with repeats, end in the identical list |
| IntervalHistory.PruneCommutes | crdt/interval_impl.go:133-142 | pruning to a floor equals replaying every write over that floor as baseline |
| IntervalHistory.ClipCommutes | crdt/interval_impl.go:144-156 | clipping equals replaying the writes cut at the bound, and changes nothing below it |
| IntervalHistory.Replay | crdt/interval_impl.go:58-156 | every sequence of Apply, Prune and Clip calls on the object, with floors that do not fall, is one of the runs those lemmas are about |
| IntervalHistory.BlobHoldsWinner | crdt/interval.go:22-28 | a replica that writes through only the returned ranges holds, at each byte, the content of the winning patch |
| IntervalHistory.BlobConvergence | crdt/interval.go:22-28 | every delivery order with any duplicates gives identical entries and an identical blob |
| Reservation.ClaimKeyIsUnambiguous | unique/local.go:82-88 | two claims share a map key only if table, key and value are equal |
| Reservation.ReservationTable.Reserve | unique/reservation.go:120-160 | the answer and the new table are those of the batch function: all claims are checked before any is installed |
| Reservation.ReservationTable.Ingest | unique/reservation.go:201-235 | the table is rederived from the snapshot, the grants in flight and the release hold |
| Reservation.Derive | unique/reservation.go:211-223 | the loop over the old taken-set, in any order, keeps what survives and puts what left on hold |
| Reservation.ReservationTable.Clear | unique/reservation.go:242-249 | the whole new state of a cleared table |
| Reservation.FindDuplicates | unique/reservation.go:267-279 | the claims on a value an earlier claim gave to another owner |
| Reservation.ReservationTable.SnapshotAndStop | unique/reservation.go:311-326 | only the stop flag changes, and the image lists the live table completely |
| Reservation.ReservationTable.Load | unique/reservation.go:334-347 | the table becomes the image, each entry an unbacked grant as of now |
| Reservation.ReservationTable.Sweep | unique/reservation.go:351-360 | only holds past their window go |
| ReservationRuns.VerdictIsFirstObjection | unique/reservation.go:120-160 | the answer is decided by the first inadmissible claim: not serving, a conflict naming it, or granted if there is none |
| ReservationRuns.GrantedMeansAdmissible | unique/reservation.go:120-178 | a batch is granted if and only if the table is not stopped and every claim's key is served, its value unfenced, taken by the claimant or the predecessor it names or else free or past its hold, and given to no second owner in the batch |
| ReservationRuns.SingleClaimIff | unique/reservation.go:162-178 | one claim on a served key is granted exactly so, transfers included, and is otherwise the conflict |
| ReservationRuns.BatchIsAtomic | unique/reservation.go:112-160 | a refused batch changes nothing; a granted one makes every claimant the owner, lifts the holds on its values and touches no other value |
| ReservationRuns.GrantedOneOwner | unique/reservation.go:120-178 | a granted batch gives each value one owner, and the table could grant each |
| ReservationRuns.FencedIffTwoOwners | unique/reservation.go:251-279 | a value is fenced after a snapshot if and only if the snapshot shows two owners for it |
| ReservationRuns.ServedIffListed | unique/reservation.go:226-231 | a key is served after a snapshot if and only if the snapshot lists it |
| ReservationRuns.IngestDecides | unique/reservation.go:201-225 | the fate of each value: a grant within the grace keeps its owner, else the row shown last decides, else the value goes on hold under its owner |
| ReservationRuns.IngestConserves | unique/reservation.go:180-235 | no taken value disappears: it stays taken or goes on hold under its owner as of this tick; what is taken is a row or a grant within the grace |
| ReservationRuns.HoldLasts | unique/reservation.go:165-178 | a hold survives every reservation, snapshot and sweep within its window while the value stays out |
| ReservationRuns.ReleaseHold | unique/reservation.go:165-235 | a released value goes to nobody but its prior owner before the window ends, and to anyone from then on |
| ReservationRuns.SweepsAreInvisible | unique/reservation.go:349-360 | sweeps anywhere in a run change no answer |
| ReservationRuns.ReorderedIngest | unique/reservation.go:201-279 | snapshots with the same claims in another order give tables that differ only in who a fenced value is recorded under |
| ReservationRuns.ClaimOrderIsInvisible | unique/reservation.go:251-279 | until the next snapshot every answer is the same for every order of a snapshot's claims |
| ReservationRuns.LoadTakenAt | unique/reservation.go:334-347 | loading a list of entries gives the map it lists, restamped |
| ReservationRuns.LoadRestores | unique/reservation.go:311-347 | capture then load restores every owner and the release hold exactly |
| ReservationRuns.AdoptionToleratesLag | unique/reservation.go:328-347 | after a load, whatever is reserved short of a transfer of the value, and whatever stale snapshots within the grace show for it, the handed-off owner keeps it; the loaded entry stays until a snapshot confirms the owner |
| LeaseSafety.StepInv | unique/lease.go:90-178 | every action of every node, the store and the network keeps the lease invariant |
| LeaseSafety.ExecutionInv | unique/leaseholder.go:263-365 | the invariant holds in every state of every execution |
| LeaseSafety.SameGenSameNode | unique/lease.go:84-109 | two nodes never act on the same generation |
| LeaseSafety.MutualExclusion | unique/leaseholder.go:367-380 | at every instant of every execution at most one node passes the serving gate, for one generation |
| LeaseSafety.GenerationNeverDecreases | unique/lease.go:84-178 | the stored generation never goes back and the history of acquisitions only grows |
| LeaseSafety.AcquisitionsAreFenced | unique/lease.go:84-109 | successive successful acquisitions have strictly increasing generations |
| LeaseProgress.AcquireIff | unique/lease.go:84-109 | acquiring succeeds if and only if the lease is empty, the node's own, relinquished or expired, and writes the next generation |
| LeaseProgress.RenewIff | unique/lease.go:111-161 | renewing and relinquishing succeed if and only if owner and generation still match; one moves the expiry alone, the other frees the lease |
| LeaseProgress.ContenderWritesIff | unique/leaseholder.go:263-277 | a tick that reads the lease sends its conditional write if and only if the lease is obtainable to it |
| LeaseProgress.LeaderRenewsIff | unique/leaseholder.go:304-319 | a leader's tick sends its renewal if and only if the lease is still its generation's; otherwise, and when the write is refused, it stops leading and serves nobody |
| LeaseProgress.ReleaseFreesTheLease | unique/lease.go:140-161 | once a release is executed anyone can acquire |
| LeaseProgress.ObtainableLeaseIsTaken | unique/leaseholder.go:263-303 | from every reachable state a node that finds the lease obtainable leads the next generation after one undisturbed tick |
| LeaseProgress.HolderTakesItBack | unique/lease.go:90-109 | a holder that crashed takes its own lease back at once, however long it has left |
| LeaseProgress.ServiceResumes | unique/leaseholder.go:263-380 | from every reachable state and on every snapshot such a node can go on, past its drain and rebuild, to pass the serving gate |
| BatonPass.StepBaton | unique/leaseholder.go:327-457 | every action keeps the invariant that ties live tables, gates passed, captures and handoff records to the grants of each generation |
| BatonPass.ExecutionBaton | unique/leaseholder.go:263-457 | that invariant holds in every state of every execution |
| BatonPass.AdoptionLosesNothing | unique/leaseholder.go:382-401 | every grant of the captured generation is in its adopter's table under the same owner |
| BatonPass.CapturedIsFrozen | unique/reservation.go:307-326 | once captured, a generation's grants never change |
| BatonPass.CapturedGrantsNothing | unique/leaseholder.go:436-457 | a request that passed the gate before the capture and arrives after it is refused |
| BatonPass.HandoffIsACapture | unique/handoff.go:40-73 | every handoff record was published by a capture of the generation it names, and lists that table |
| BatonPass.AdoptionIsExact | unique/leaseholder.go:382-422 | the adopter starts from exactly the table its predecessor captured, owners and holds |
| Reign.ReignIsARun | unique/leaseholder.go:327-457 | while a node leads a generation it adopted, the cluster's interleaved steps are a run of reservations, snapshots and sweeps of its table and of nothing else |
| Reign.OwnerSurvivesHandover | unique/leaseholder.go:382-457 | the owner of a value granted under g and still held keeps it throughout the reign of the node that adopts g's table |
| Reign.HandedOverValueIsSafe | unique/leaseholder.go:367-457 | that value is granted by the adopter to nobody else; every request let through under g is refused wherever it arrives; while the adopter serves, nobody else lets one through |
| DrainWindow.DrainCoversRequests | unique/leaseholder.go:262-322 | a request granted while a later generation serves took the drain or longer from its gate to its table, unless a later leader stepped down within its drain or its own stepped down with no handoff store |
| LateGrant.LateGrantIff | unique/leaseholder.go:436-457 | a request past the gate is granted if and only if its table is not captured and finds every claim admissible, whatever became of the lease, and makes the claimants owners |
| LateGrant.LateRequestMakesTwoOwners | unique/leaseholder.go:436-457 | for every configuration with a drain, a run without step-downs in which a request held up for the drain and one tick is granted next to the grant of a rebuilt successor |
| LateGrant.HastyHandoffMakesTwoOwners | unique/leaseholder.go:382-422 | a run in which a leader steps down within its drain, its successor adopts and serves, and a request within the drain is granted next to its grant |
| TieBreak.VerdictIsShared | tcpmesh/conn.go:219-233 | both ends rank the connections of a pair alike, and the ranking is a strict total order |
| TieBreak.VerdictIsPreference | tcpmesh/conn.go:219-233 | at either end the dial of the lower node outranks the other's, and of one node's dials the one with the higher nonce |
| TieBreak.Mesh.Admit | tcpmesh/conn.go:554-569 | a newcomer takes the entry, and the incumbent is returned, if and only if there is no live incumbent or the newcomer is the lower node's dial or the newer of one node's |
| TieBreak.Mesh.Retire | tcpmesh/mesh.go:636-647 | a retired connection leaves the ready set only if it is the current entry |
| TieBreak.MaxWinsForever | tcpmesh/conn.go:540-585 | the highest-ranked connection of a pair is never closed by the protocol and, once set up, stays the entry |
| TieBreak.QuietMeansConverged | tcpmesh/conn.go:540-585 | when nothing is left to do both ends hold the newest dial of the lower node if it dialed, else the newest of the other, and all others are closed |
| TieBreak.StepMakesProgress | tcpmesh/conn.go:554-691 | every step lowers the work that is left |
| TieBreak.RunsAreShort | tcpmesh/conn.go:554-691 | a run has at most three steps per end of a connection |
| TieBreak.MaxExists | tcpmesh/conn.go:219-233 | every pair with a connection has a highest one |
| ConnNonce.CandidateIncreases | tcpmesh/wire.go:332-343 | the candidate exceeds the last nonce if and only if that is not the largest word, and is then the least such word no earlier than the clock |
| ConnNonce.NoncesIncreaseIff | tcpmesh/wire.go:322-343 | however dials interleave, later nonces are larger, if and only if no swap succeeds on a word that is the largest |
| ConnNonce.NonceWraps | tcpmesh/wire.go:332-343 | a run that gives out the largest word and then zero |
| LazyFile.Fetch | lazyrestore/prepare.go:624-670 | a fetched page is a page of the file and exactly one page long |
| LazyFile.Overwrite | lazyrestore/mount.go:347-368 | byte-for-byte effect of a positional write, growth with zeros included |
| LazyFile.Mount.Read | lazyrestore/mount.go:436-448 | reads answer from the backing file once the touched pages are present |
| LazyFile.Mount.EnsurePagesPresent | lazyrestore/mount.go:277-301 | faults in every missing page of the range, stopping at the first failure |
| LazyFile.Mount.FaultPage | lazyrestore/mount.go:309-345 | clones or fetches one page; a failure changes nothing |
| LazyFile.Mount.Write | lazyrestore/mount.go:450-507 | edge pages are faulted, clean bits cleared, data written and presence bits set, in that order |
| LazyFile.Mount.FaultPartial | lazyrestore/mount.go:465-476 | an edge page is faulted in only when the write covers part of it, it is in range and not there yet |
| LazyFile.Mount.ClearClean | lazyrestore/mount.go:482-491 | exactly the touched pages lose their clean bit |
| LazyFile.Mount.SetPresent | lazyrestore/mount.go:497-505 | exactly the touched pages become present |
| LazyRefinement.CloneIsFetch | lazyrestore/mount_clone.go:39-79 | a page cloned from a sibling whose clean bits are true is the page the store would have answered |
| LazyRefinement.ManifestMeans | lazyrestore/prepare.go:624-670 | the page that holds byte 0x40000000 is zeros; any other byte is the one decoded from where its page is listed, and a page not listed or of the wrong size is an error |
| LazyRefinement.FaultRefines | lazyrestore/mount.go:309-345 | a fault changes no byte of the restored file and adds exactly its page, present and clean |
| LazyRefinement.EnsureRefines | lazyrestore/mount.go:277-301 | faulting a range keeps the restored file and, on success, adds exactly the range to the present pages |
| LazyRefinement.ReadRefinesIff | lazyrestore/mount.go:436-448 | a successful read at any offset returns what the restored file holds if and only if the wrapped last page number does not skip a missing page that shows; no read changes the restored file |
| LazyRefinement.AddressableReadsAll | lazyrestore/mount.go:277-301 | within 32-bit page numbers no read skips a page |
| LazyRefinement.WriteRefinesIff | lazyrestore/mount.go:450-507 | a successful write at any offset acts on the restored file like a positional write if and only if it loses no tail, hides no page and leaves none stale; a failed one changes nothing |
| LazyRefinement.WriteKeepsCleanIff | lazyrestore/mount.go:477-507 | a successful write keeps every clean bit true if and only if it leaves none set on a page it changed |
| LazyRefinement.WriteIsSoundIff | lazyrestore/mount.go:450-507 | a successful write is a positional write on the restored file and keeps clean bits and holes true if and only if it is harmless |
| LazyRefinement.AddressableMarks | lazyrestore/mount.go:450-507 | within 32-bit page numbers a lost tail is all that can go wrong |
| LazyFailures.AlignedShortWriteLosesTheTail | lazyrestore/mount.go:450-507 | at every page size, one byte written at the start of a missing second page after which its next byte reads zero |
| LazyFailures.WideWriteMarksAnotherPage | lazyrestore/mount.go:450-507 | at every page size, a write beyond the 32-bit page numbers that hides the missing page 2 |
| LazyFailures.WideWriteLeavesACleanBit | lazyrestore/mount.go:477-507 | at every page size, a write over the end of the largest file, all pages but the lock page listed, that leaves a changed page clean |
| LazyFailures.WideWriteIsForgotten | lazyrestore/mount.go:492-507 | the same write with that page missing reads back as the manifest's page, and as written after a remount |
| LazyFailures.WideReadSkipsAPage | lazyrestore/mount.go:277-301 | at every page size, a read over the end of the largest file that fetches nothing and returns zeros |
| LazyFile.SeedBitmap | lazyrestore/bitmap.go:34-84 | the presence bits of a mount are exactly the pages a data extent of the backing file touches |
| LazyRefinement.RemountRefinesIff | lazyrestore/mount.go:109-121 | mounting again, with presence taken from the data extents and no clean bits, leaves a sound mount, and one that stands for the same file if and only if no page's presence bit and data disagree where it shows |
| LazyRefinement.WriteKeepsExtents | lazyrestore/mount.go:450-507 | after every write pages without data are still zeros, and within 32-bit page numbers presence bits are still what a remount would read off the file |
| LazyRefinement.RemountsAreSafe | lazyrestore/mount.go:109-121 | over every run whose requests keep within 32-bit page numbers, lost tails or not, no remount of any mount at any point shifts a page |
| LazyRefinement.RunRefines | lazyrestore/mount.go:109-507 | over every run of reads, writes and remounts on any number of mounts whose acknowledged writes are harmless and remounts do not shift, each stands for the plain file with the same acknowledged writes |
| LazyRefinement.ReadsReadThePlainFileIff | lazyrestore/mount.go:436-448 | every successful read of such a run returns what that plain file holds, if and only if it skips no page |
| LazyRefinement.CleanMeansManifest | lazyrestore/mount_clone.go:35-51 | a clean bit is never wrong at any point of any run, next to lost tails, hidden pages and skipped reads, as long as no write leaves one on a page it changed |
| Notify.Feed.Append | notify/writer.go:138-193 | the slots and the head after any batch, cut to the slot budgets |
| Notify.Reader.TryDrain | notify/reader.go:184-265 | the reader's position and its notifications as a function of the ring |
| Notify.Group | notify/reader.go:249-264 | the loop builds one notification for each run of changes with the same dot |
| Notify.Project | sqlite/subscribe.go:216-241 | markers pass, changes pass by table, nothing is sent for an empty batch |
| Notify.Subscription.TryDeliver | sqlite/subscribe.go:132-151 | the channel and the pending marker after a delivery attempt |
| NotifyRuns.RemainderIsMod | notify/writer.go:138-162 | the slot index is the head modulo the slot count |
| NotifyRuns.WindowsFitIff | notify/writer.go:138-162 | any window of as many changes as there are slots has distinct slots, across the 32-bit wrap, if and only if the slot count divides 2^32 |
| NotifyRuns.AppendMirrors | notify/writer.go:138-193 | after every append the ring holds the most recent changes |
| NotifyRuns.ReadMirrors | notify/reader.go:215-241 | reading slots within the window returns that stretch of the log |
| NotifyRuns.GroupedAccounts | notify/reader.go:249-264 | grouping loses nothing and keeps the order |
| NotifyRuns.BatchesAreRuns | notify/reader.go:249-264 | every batch carries changes of one origin and sequence number, and as many as follow one another |
| NotifyRuns.SlotKeepsIff | notify/writer.go:164-193 | a slot keeps a change whole if and only if its name is at most 32 bytes and its key at most 72, else their first bytes |
| NotifyRuns.DrainReads | notify/reader.go:184-265 | a drain yields the unread changes, or a marker and no change |
| NotifyRuns.DrainAccountsIff | notify/reader.go:184-265 | in any state of reader and ring, a drain accounts for what was appended since the last one if and only if it says Lossy or takes out exactly that |
| NotifyRuns.DrainIsHonestIff | notify/reader.go:198-247 | it does so if and only if the reader was not overtaken by 2^32 or more at a distance that looks short |
| NotifyRuns.DrainIsTrueIff | notify/writer.go:89-104 | in every reachable state, between the three stores of a restart too, a drain accounts for what was appended since the last one if and only if the reader is a generation or more than the ring behind, or nothing can be appended yet, or its head is the one it should have seen, it is less than 2^32 behind and no change it would read was wiped |
| NotifyRuns.StepInv | sqlite/subscribe.go:116-210 | every append, store of a restarting writer, clear drain, fan-out, receive and close keeps the accounting |
| NotifyRuns.RunInv | sqlite/subscribe.go:116-210 | the accounting holds throughout every run whose drains are clear |
| NotifyRuns.NoSilentLoss | sqlite/subscribe.go:116-151 | at every point of such a run, a subscriber's notifications are in append order with nothing missing of the changes as stored unless a Lossy marker stands there; once nothing is on its way, nothing drained is missing after the last one either |
| NotifyRuns.NoSilentLossAsSent | sqlite/subscribe.go:116-151 | with every subscribed name under 32 bytes, the same of the changes as they were appended |
| NotifyRuns.SubscribedIsTold | sqlite/subscribe.go:116-151 | with over-long names also subscribed to in cut form, once nothing is on its way every drained change of a subscribed table was received or is covered by a marker |
| NotifyRuns.SubscribedIsToldIff | sqlite/subscribe.go:70-151 | a filter has that in every quiet state of every run if and only if its over-long names are subscribed to in cut form as well |
| NotifyRuns.HiddenChangeIsLost | sqlite/subscribe.go:212-241 | for every other filter there is a run that loses such a change without a marker |
| NotifyFailures.OutsideTheWindow | notify/writer.go:89-104 | if no drain falls between raising the generation and resetting a head that is not zero, no restart misleads the reader: a drain of a serving feed is clear if and only if the reader is a generation behind or was not lapped |
| NotifyFailures.RestartLosesAChange | notify/writer.go:89-104 | a run with one drain in that window that loses a change between two notifications with no marker |
| NotifyFailures.WipedSlotsReadAsChanges | notify/writer.go:89-101 | a drain after the slots are wiped reports a blank change in the place of the one appended |
| NotifyFailures.DropIsAnnouncedIff | sqlite/subscribe.go:132-151 | over every run from a dropped batch on, the subscriber is told, and given anything at all, if and only if something its filter lets through is delivered to an open channel with room |
| NotifyFailures.DropIsNeverTold | sqlite/subscribe.go:70-151 | a run that ends with a drained channel and a dropped batch the subscriber was never told of |
| NotifyRuns.FilterIsExactIff | sqlite/subscribe.go:212-241 | filtering stored names agrees with filtering full names on all changes if and only if every subscribed name is shorter than 32 bytes |
| NotifyRuns.FilterHidesNothingIff | sqlite/subscribe.go:212-241 | no change of a subscribed table is filtered out if and only if every over-long subscribed name is subscribed to in cut form as well |
| NotifyRuns.FullNameCatchesOthers | notify/writer.go:164-193 | a subscriber to a 32-byte name gets the changes of every table whose longer name starts with it |
| NotifyRuns.LongNamesAreFilteredOut | notify/writer.go:164-193 | a subscriber to a table with an over-long name gets nothing for any of its changes |
| NotifyRuns.ThreeSlotsCollide | notify/writer.go:138-193 | in a ring of three slots the change before the head wraps reads back as the one after |
| NotifyRuns.LappedReaderHearsNothing | notify/reader.go:184-265 | a reader exactly 2^32 changes behind reports nothing |
| RangeSets.CanonicalIsUnique | crdt/causal.go:34-47 | the sorted non-adjacent range list is determined by its set |
| RangeSets.SeqSet.Search | crdt/causal.go:51-64 | binary search finds the first range above the value |
| RangeSets.SeqSet.Contains | crdt/causal.go:51-57 | true if and only if some range holds the value |
| RangeSets.SeqSet.Add | crdt/causal.go:61-87 | adds exactly the value and keeps the canonical form |
| RangeSets.SeqSet.Splice | crdt/causal.go:76-87 | the four ways a value joins its neighbours in the list |
| RangeSets.SeqSet.PromoteContiguous | crdt/causal.go:94-106 | the new head and the remaining set, still canonical |
| RangeSets.InsertMeans | crdt/causal.go:61-87 | insertion adds exactly the value, at both ends of the 64-bit range too |
| RangeSets.InsertIsCanonical | crdt/causal.go:61-87 | insertion keeps the canonical form |
| RangeSets.InsertAllMeans | crdt/causal.go:61-87 | any run of insertions holds exactly what was inserted |
| RangeSets.PromoteConserves | crdt/causal.go:89-106 | head plus set denotes the same numbers after a promotion if and only if the head did not wrap |
| RangeSets.PromoteIsMaximal | crdt/causal.go:89-106 | after a promotion there is a gap right above the head |
| RangeSets.PromoteAtTheTop | crdt/causal.go:94-106 | a concrete promotion that moves the head backwards |
| RangeSets.MergeIntervals | transport/transport.go:102-117 | the in-place compaction of the sorted slice |
| RangeSets.MergeIsCanonical | transport/transport.go:102-117 | every prefix merges into a canonical list |
| RangeSets.MergeMeans | transport/transport.go:102-117 | and denotes the union of its ranges |
| RangeSets.MergeIsCanonicalIff | transport/transport.go:102-117 | merging gives the canonical form of the union if and only if no range reaching the largest value precedes one starting above zero |
| RangeSets.RangeSetsAgreeIff | transport/transport.go:102-117 | merging ranges in any order gives the list the incremental set reaches by adding every element, under exactly that condition |
| RangeSets.MergeAtTheTop | transport/transport.go:102-117 | a concrete input whose merge overlaps |
| SchemaLog.EventRoundTripIff | schemalog/tcp.go:471-502 | an event read under the frame limit is the event written if and only if it fits |
| SchemaLog.TrailingIsIgnored | schemalog/s3.go:259-275 | bytes after the event in an object are not looked at |
| SchemaLog.KeysAreDistinct | schemalog/s3.go:140-144 | every sequence number has its own object key |
| SchemaLog.KeyIsPaddedHex | schemalog/s3.go:140-144 | the key is the sequence number in sixteen lower-case hexadecimal digits between its two ends |
| SchemaLog.Local.Append | schemalog/local.go:23-45 | compare-and-swap on the head of the in-memory chain |
| SchemaLog.Local.Read | schemalog/local.go:47-74 | the events after a point, up to the limit |
| SchemaLog.S3.Append | schemalog/s3.go:146-160 | create-if-absent of the next object |
| SchemaLog.S3.GetEvent | schemalog/s3.go:259-275 | an object is missing, corrupt or an event |
| SchemaLog.S3.Read | schemalog/s3.go:162-185 | walks the keys until one is missing or the limit is reached |
| SchemaLog.AppendAgreesIff | schemalog/s3.go:146-160 | both backends answer alike and stay in agreement if and only if the append is at or below the head and fits |
| SchemaLog.ReadAgrees | schemalog/s3.go:162-185 | a read from any point with any limit answers alike |
| SchemaLog.BackendsAgree | schemalog/log.go:37-52 | over every run of appends in step and reads the backends give the same answers and the chain stays dense |
| SchemaLog.AppendPastTheHead | schemalog/s3.go:146-160 | a concrete append one backend refuses and the other accepts, leaving a gap |
| Wire.BigEndianRoundTrip | schemalog/tcp.go:471-502 | a fixed-width integer survives if and only if it fits |
| Wire.GetUvarintUndoes | crdt/codec.go:250-296 | every 64-bit value survives its varint, whatever follows |
| Wire.OverlongVarintIsRefused | crdt/codec.go:250-296 | a varint that does not fit 64 bits is refused |
| Wire.GetFramedUndoes | crdt/catalog_op.go:585-600 | length-framed bytes survive, whatever follows |
| ChangesetCodec.GetColUndoes | crdt/codec.go:283-428 | a column reads back, up to bytes carried on NULL |
| ChangesetCodec.GetColumnsUndoes | crdt/codec.go:283-428 | so does a column list |
| ChangesetCodec.GetRecordUndoes | crdt/codec.go:250-394 | so does a record of each kind |
| ChangesetCodec.GetRecordsUndoes | crdt/codec.go:250-394 | so does the whole record stream |
| ChangesetCodec.LegacyNormalises | crdt/codec.go:299-467 | whatever reads under either version is carried unchanged by the current one |
| ChangesetCodec.LegacyColumnReads | crdt/codec.go:432-467 | a column in the legacy layout reads as what it says, and any storage class but the five is refused |
| ChangesetCodec.LegacyRecordsRead | crdt/codec.go:299-467 | so does a whole payload in the legacy layout |
| ChangesetCodec.UnknownRecordIsRefused | crdt/codec.go:299-394 | an unknown operation, and a delete that announces columns, are refused |
| ChangesetCodec.EncodeRecords | crdt/codec.go:250-279 | the encoding loop appends the record stream to any buffer |
| ChangesetCodec.EncodeColumns | crdt/codec.go:283-296 | the column loop appends the column list |
| ChangesetCodec.DecodeRecords | crdt/codec.go:299-394 | the decoding loop, allocations included, comes to the value, error or panic the lemmas are about, on every input |
| ChangesetCodec.DecodeColumns | crdt/codec.go:396-467 | likewise for columns of either version |
| ChangesetCodec.PanicsIff | crdt/codec.go:299-467 | the decoder panics if and only if the payload reads up to a record whose list count is more than the allocator makes room for; otherwise it gives the reader's answer |
| ChangesetCodec.GuardChangesNothing | crdt/codec.go:363-438 | refusing a count the remaining bytes cannot hold before allocating changes no result |
| ChangesetCodec.PanicIsMalformed | crdt/codec.go:299-467 | with room for as many elements as the payload has bytes, no payload that reads panics |
| ChangesetCodec.HugeCountPanics | crdt/codec.go:396-402 | a concrete insert announcing 2^63 columns panics and is only malformed |
| ChangesetCodec.DecodePanicsIff | crdt/codec.go:172-239 | a frame panics if and only if it is whole, checksum included, and its payload does |
| ChangesetCodec.RoomyDecode | crdt/codec.go:172-239 | with room for as many elements as the frame has bytes, every frame that decodes is decoded |
| ChangesetCodec.DecodeDeps | crdt/codec.go:195-209 | likewise for the dependency loop |
| ChangesetCodec.SortedFolds | crdt/codec.go:140-146 | the sorted dependency list read back gives the dependency map |
| ChangesetCodec.SortedAscends | crdt/codec.go:140-146 | dependencies are written in strictly ascending chain order |
| ChangesetCodec.DecodeUndoesEncode | crdt/codec.go:121-239 | decoding a built changeset returns it, up to bytes carried on NULL columns, for every checksum function |
| ChangesetCodec.FrameIsChecked | crdt/codec.go:172-239 | a frame with another checksum, with anything after its payload or of another version is refused |
| ChangesetCodec.ReencodingIsStable | crdt/codec.go:121-239 | whatever decodes, of either version, re-encodes and decodes to itself |
| ChangesetCodec.Build | crdt/codec.go:77-158 | which inputs are refused, in which order, and the bytes of the rest |
| ChangesetCodec.FrameParts | crdt/codec.go:130-167 | the checksum covers head and payload and sits between them |
| Predicate.Eval | crdt/unique_predicate.go:91-135 | the short-circuit evaluation is the Kleene three-valued meaning |
| PredicateOrder.ComparisonMeans | crdt/unique_predicate.go:144-201 | on every row LT, EQ and GT say that the value sorts before, alike and after the literal, GE, NE and LE are their negations, and NULL on either side is unknown |
| PredicateOrder.CompareDecides | crdt/unique_predicate.go:189-221 | numbers come before text and text before blobs; integers compare by value, text as its collation reads it, blobs by bytes |
| PredicateOrder.IntegersCompare | crdt/unique_predicate.go:144-244 | on 64-bit integers each of the six operators is the operator on the numbers |
| PredicateOrder.WireComparison | crdt/unique_predicate.go:144-620 | read from its bytes, operator codes 3 to 8 on an integer column and literal are =, <>, <, <=, > and >= on every row |
| PredicateOrder.BytesOrder | crdt/collation.go:50-63 | bytes compare by a proper prefix or the first difference |
| PredicateOrder.TextOrder | crdt/collation.go:50-63 | NOCASE and RTRIM compare text like BINARY does the folded and the trimmed text |
| PredicateOrder.FoldNocase | crdt/collation.go:65-74 | the loop lowers A to Z and nothing else |
| PredicateOrder.Rtrim | crdt/collation.go:76-82 | the loop removes exactly the spaces at the end |
| PredicateOrder.ReadInt | crdt/unique_predicate.go:253-259 | the shifting loop keeps the low 64 bits as two's complement, for any number of bytes |
| PredicateOrder.DecodeIntUndoes | crdt/unique_predicate.go:408-419 | every 64-bit integer survives its eight bytes |
| PredicateOrder.OrderIsTotal | crdt/unique_predicate.go:189-221 | without REAL values the order of a column is total and transitive under every collation |
| Predicate.EvalIn | crdt/unique_predicate.go:169-187 | IN and NOT IN with NULL elements and a NULL probe |
| Predicate.Participates | crdt/unique_predicate.go:84-89 | a row takes part if and only if there is no predicate or it is true, not unknown |
| Predicate.JunctionIgnoresOrder | crdt/unique_predicate.go:91-135 | order and repetition of AND and OR operands do not matter |
| Predicate.NotInNegatesIn | crdt/unique_predicate.go:169-187 | NOT IN, given its own three-valued meaning, is the negation of IN on every row |
| Predicate.InIsAnyEqualityIff | crdt/unique_predicate.go:144-187 | IN is the disjunction of its equalities if and only if the list is not empty or the probe not NULL |
| Predicate.GetExprUndoes | crdt/unique_predicate.go:462-596 | a written tree reads back if and only if it keeps the shared node counter within the limit |
| Predicate.PredicateRoundTripIff | crdt/unique_predicate.go:454-515 | the predicate codec round-trips exactly the predicates of at most 256 nodes |
| Predicate.UnknownNodeIsRefused | crdt/unique_predicate.go:517-620 | an unknown operator, a junction of nothing and a literal of no storage class are refused |
| Predicate.NormalMeansTheSame | crdt/unique_predicate.go:91-135 | clearing the fields the codec drops changes the value on no row |
| Predicate.WireKeepsMeaning | crdt/unique_predicate.go:84-596 | encoding and decoding changes no row's participation |
| Predicate.DecodeExpr | crdt/unique_predicate.go:517-596 | the recursive descent computes the reader of the round trip, on every input |
| Predicate.EncodeExpr | crdt/unique_predicate.go:462-497 | the recursive encoder appends the written form |
| Predicate.DeepPredicateIsUnreadable | crdt/unique_predicate.go:517-523 | a nest of 256 or more negations encodes and does not decode |
| CatalogOps.GetColumnsUndoes | crdt/catalog_op.go:602-689 | column definitions read back exactly |
| CatalogOps.GetKeysUndoes | crdt/catalog_op.go:691-757 | keys read back as the layout shows them if and only if their predicates are within the limit |
| CatalogOps.GetBodyUndoes | crdt/catalog_op.go:266-565 | so does the body of every kind of operation |
| CatalogOps.OpRoundTripIff | crdt/catalog_op.go:266-406 | an encoded operation, bundles included, followed by anything decodes to itself up to ignored fields if and only if what follows is a well-formed extension area and every predicate is within the limit |
| CatalogOps.NestedBundleIsRefused | crdt/catalog_op.go:527-532 | a bundle inside a bundle is refused in either format, whatever its body |
| CatalogOps.BundleRoundTripIff | crdt/catalog_op.go:352-424 | a bundle in either format whose sub-operations mix both formats reads back as each one's layout shows it if and only if every predicate is within the limit |
| CatalogOps.ExtsAreExtensions | crdt/catalog_op.go:387-404 | any list of entries with non-zero tags is a well-formed extension area |
| CatalogOps.BadEntryIsRefused | crdt/catalog_op.go:387-404 | an entry with tag zero or cut short spoils the area |
| CatalogOps.OldestVersionIsWritten | crdt/catalog_op.go:41-53 | a framed operation announces the oldest version that knows its kind |
| CatalogOps.EveryKindTravels | crdt/catalog_op.go:266-343 | every kind from 1 to 19 is encoded and decoded |
| CatalogOps.UnknownEnvelopeIsRefused | crdt/catalog_op.go:362-386 | versions other than 4 and 5 and unknown kinds are refused, whatever follows |
| CatalogOps.UnknownLegacyKindIsRefused | crdt/catalog_op.go:412-424 | so are unknown legacy kinds and an empty buffer |
| CatalogOps.LegacyTrailingIsRefused | crdt/catalog_op.go:412-424 | so is anything after a legacy operation |
| CatalogOps.UnknownFlagsAreRefused | crdt/catalog_op.go:661-668 | a column with an undefined flag bit is refused |
| CatalogOps.AnyNonZeroIsTrue | crdt/catalog_op.go:825-830 | any non-zero byte reads as true |
| CatalogOps.ExtensionsAreAppended | crdt/catalog_op.go:362-406 | an extension area follows the encoded operation |
| CatalogOps.ExtensionsAreIgnored | crdt/catalog_op.go:362-406 | appending extension entries changes nothing an older decoder sees |
| CatalogOps.LegacyRoundTripIff | crdt/catalog_op.go:352-424 | an operation of any kind, bundles included, in any of the four legacy layouts is never taken for a framed one and reads back as that layout shows it, under the same condition |
| CatalogOps.FormatsAgree | crdt/catalog_op.go:352-424 | the richest legacy layout and the framed format decode to the same operation, bundles included |
| CatalogOps.AppendColumns | crdt/catalog_op.go:602-626 | the loop appends the column list |
| CatalogOps.AppendKeys | crdt/catalog_op.go:691-704 | the loop appends the key list |
| CatalogOps.ReadColumns | crdt/catalog_op.go:628-689 | the loop computes the column reader, on every input |
| CatalogOps.ReadKeys | crdt/catalog_op.go:706-757 | the loop computes the key reader in every layout, on every input |
| CatalogOps.SkipExtensions | crdt/catalog_op.go:387-404 | the loop accepts exactly the well-formed extension areas |
| CatalogOps.ReadBundle | crdt/catalog_op.go:527-561 | the loop computes the bundle reader, on every input |

## Left out

- BatonPass.AdoptionLosesNothing: covers the grants of the captured generation, not those of generations before it, because a leader that releases before its rebuild finished hands on what it has (unique/leaseholder.go:403-422; the run is LateGrant.HastyHandoffMakesTwoOwners).
- ChangesetCodec.DecodeRecords: every malformed input is the one result None; which error value is returned is not modelled. The same goes for the other decoders.
- ChangesetCodec.DecodeUndoesEncode: assumes a payload and fields shorter than 2^64 bytes, which Go slices always are.
- LazyFile.Mount.Write: handlers are atomic; two handlers inside one mount at the same time, and failures of the backing file, are not modelled.
- LazyRefinement.RunRefines: assumes a manifest of fewer than 2^32 - 1 pages that lists no lock page and whose listed pages decode to the page size.
- LazyRefinement.RemountRefinesIff: data extents are whole pages, as they are when a page is a whole number of file-system blocks. Where the comment on the bitmap says pages wholly inside an extent and the code marks every page an extent touches, the model follows the code.
- Changing the size of a lazily restored file passes straight to the backing file (lazyrestore/mount.go:400-408, the inherited loopback node) and is not a step.
- LazyFile.Mount.Read: a failing read of the backing file is not an outcome.
- RangeSets.MergeIntervals: the library sort that precedes the loop is a precondition; ranges with an open end (Hi zero) or with Lo above Hi are not inputs.
- Notify.Feed.Append: appends and drains are single steps, so a half-written slot and the second look at the head that guards against it are not modelled, nor are the flags that say a name or a key was cut.
- NotifyRuns.StepInv: a writer that restarts with another slot count starts the generation over (notify/writer.go:67-81); only restarts with the same count are steps.
- ChangesetCodec.HugeCountPanics: how much memory a count within the allocator's limits costs is not modelled.
- Predicate.Eval: comparing REAL with REAL or INTEGER is a parameter, because rounding is not the point.
- TieBreak.QuietMeansConverged: connections fail only through the tie-break itself; two nodes with the same NodeID are not modelled.
- DrainWindow.DrainCoversRequests: goes one way. No run is given for a leader that steps down with no handoff store, where it takes a contender whose clock reading is older than the request.
- Reign.HandedOverValueIsSafe: a request another node let through under a generation before g, and that reaches its table late, is not covered; when it can be granted is what DrainWindow and LateGrant are about.
- The lease protocol is a state machine on values, not a class, because its actions interleave; generations and restart counters are unbounded.
- The nodes of the lease protocol read one clock; skew between nodes is not modelled.
- Whether a rebuilt table covers what replication had not delivered yet depends on the grace and is not modelled.
- Presence and clean bitmaps are sets of page numbers; their packing into words would only add easy members.
- The File and TCP schema-log backends, listing the head and retrying reads of the object-store one.
- The hello message, topic membership, ping and framing of the mesh.
- The row and cell layers of the CRDT, applying changesets to SQLite, and the SQL text of predicates.
- The S3, FUSE, TLS, SQLite hook and process plumbing, and the command-line tools.
- The list of duplicate values reported to operators (unique/leaseholder.go:178-228).
