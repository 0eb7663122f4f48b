# Relaybox: the durable store and its forwarding protocol

Relaybox captures webhook deliveries in an append-only log, answers duplicates, forwards captures to a
destination through leased jobs with retries, and streams its events to clients. This project models the
store (`internal/store/store.go`) and the parts of the application that drive it (`internal/app/app.go`),
and proves what they promise.

## How the model is layered

- `Model.dfy`, `Log.dfy`: the records, and the log as bytes. The codec and the digest are parameters: any
  encoding without newlines that decodes what it encoded.
- `Spec.dfy`, `Linkage.dfy`: the state as a reader sees it (full requests, jobs, each request's attempts),
  what one event does to it, the checks an event must pass, and the invariant of states the store's own
  operations write.
- `Recovery.dfy`, `Snapshot.dfy`: replaying a log, from events and from bytes, and the snapshot compaction
  writes.
- `Operations.dfy`, `Guarantees.dfy`, `Idempotency.dfy`: which event each operation appends in which state, and
  what every run of operations keeps (numbering, the state diagram, retention, deduplication, no lost work).
- `Leases.dfy`: workers, claims, expiries and outcomes as an interleaved protocol.
- `Crash.dfy`: whole lives of a store over a disk that tears writes and may lose what was not synced, with compactions,
  failures, power losses and restarts without one; the refinement theorem, and exactly what survives.
- `IndexMaps.dfy`, `IndexTable.dfy`, `References.dfy`: the index maps, each as what it must be for the state, the
  class that updates them in place, and the byte-range references.
- `Stream.dfy`, `Feeding.dfy`: the catch-up ring and the subscribers' channels.
- `Flows.dfy`: the stream as a state machine whose steps the store's operations take, and what a client is shown over
  disconnections and reconnections.
- `Sorting.dfy`, `Queries.dfy`, `Compaction.dfy`, `Redaction.dfy`, `Store.dfy`: the store as a class. Its fields are
  the source's fields, split over three objects: the index maps (`Indexes`), the ring and subscribers (`Feed`), and the
  rest (`Store`). A ghost field holds the life of the log; every method shows that the log takes steps of the crash model
  and the stream those of `Flows`.
- `Retry.dfy`, `Forwarding.dfy`: the retry policy and the application's calls into the store.
- `LoadRace.dfy`: payload reads outside the state lock, interleaved with everything else.

## Assumptions

- A failed or crashed write leaves a prefix of the record; unsynced bytes reach the disk in order, and a sync that succeeds
  puts the whole content of the file there, whatever failed before. It does not sync the name of the file: only the sync of
  the directory after a rename does. Until then the path may after a power loss name the old file or the new one, or, for a
  file that was created, none, which opens like an empty file.
- The end of a process, as a crash, a kill or a restart, loses nothing that was written. A power loss leaves one of the possible
  contents. Opening syncs nothing.
- Time is an integer with 0 as the zero time. An operation gets the clock and the file system's behaviour
  as an argument (`Env`); map iteration and ties in sorting are arbitrary choices.
- States enter through the guarded operations and through recovery of logs so written. `Open` takes any file content,
  and what it guarantees for a content no run has left is weaker than `Valid`.
- The ghost flag `sound` of the store is lost when the 64-bit sequence counter wraps or when a snapshot record that is
  written outgrows the record limit, and for no other reason: every operation that writes states this. Durability and stream
  order are claimed while it holds. `Recovery.AppendRecoverable` and `Snapshot.SnapshotOpens` show that these are exactly
  the points where the code's own log stops being recoverable.

## Where the code falls short of its promise

- Opening a log after anything but a power loss takes what the path shows for certain and syncs neither the file nor its directory.
  A record whose sync failed is shown by the restarted store and may be lost with the next power loss (`Crash.UnsyncedLost`);
  after a rename whose directory was not synced even synced appends of the restarted store may be (`Crash.RenamedLost`), and
  so may all appends to a file that was just created (`Crash.CreatedLost`). The exact conditions are `Crash.RestartSurvives`
  and `Crash.AcknowledgedSurvives`; an append settles the first, and only a compaction or a redaction that rewrites the
  log settles the others.
- The catch-up check is skipped on an empty ring, so a client whose missed events were all too large for the ring
  is not told: `Stream.EmptyRingGap`, with the exact condition in `Stream.CatchUpExact`.
- After a restart on a compacted log a client may be refused although it would miss nothing, because the ring cannot tell which
  numbers before it were ever given to events: `Stream.RefusedNeedlessly`, with the exact condition in `Stream.RefusalLaw`.
- Compaction does not check the size of the records it writes: `Snapshot.SnapshotOutgrows`, with the exact condition in
  `Snapshot.SnapshotOpens`.
- A backoff that overflows a duration may give any delay, also a negative one, which the cap does not catch:
  `Retry.BackoffLost`, with the exact condition in `Retry.RetryDelayBounds`. This needs more attempts than the command line
  permits; with its limits and the default base nothing overflows: `Retry.DefaultsFit`.
- An append whose compaction fails returns an error although its event is committed: `Store.CommittedDespiteError`. When an
  error means committed is stated by `Store.Store.AppendLocked`, exactly.
- An event enters the ring's byte counter with the size it has on arrival and leaves it with the size of its copy, in which
  missing headers are `{}` and not `null`. The counter drifts, the ring keeps less or more than its bound, and if the drift exceeds
  the bound before a redaction or a restart counts anew, the trimming loop runs off the end of the ring: `Stream.DriftFails`, with the exact condition in
  `Stream.ArrivedDrifts`.
- A lease whose expiry computes to the zero time is taken for no lease: `Leases.LeaseRespected` says when.

The state diagram of `docs/architecture.md` has no arrow from an expired lease back to `leased`, which the code takes and
the text below the diagram mentions, and leaves out the older names `queued` and `running`; `Guarantees.Arrow` follows the
code. The same document promises that a duplicate never creates a second initial intent; the code repairs a capture
without a job, and `Idempotency.RepairedOnce` shows that it does so at most once.

## Model

| member | source | states |
|---|---|---|
| `Log.SplitJoin` | internal/store/store.go:172-206 | Newline-terminated records followed by any newline-free tail are read back as exactly those records and that tail. |
| `Log.SplitExact` | internal/store/store.go:172-216 | Cutting a file after every newline loses nothing: every piece is a line, the tail holds no newline, and together they are the file. |
| `Log.TruncateIdempotent` | internal/store/store.go:207-215 | Cutting the file after its last newline keeps every complete record, leaves no tail, and a second cut changes nothing. |
| `Log.TornLine` | internal/store/store.go:526-543 | A torn write of one record leaves a newline-free tail unless it wrote the whole record. |
| `Log.Reader.ReadSlice` | internal/store/store.go:312-318 | The buffered reader hands out a fragment that ends at the newline, at the end of the buffer or at the end of the file. |
| `Log.Reader.ReadRecord` | internal/store/store.go:312-339 | However the buffer fragments a record, the result is the first line of the rest of the file, the end of the file exactly when no line is left, and an error exactly when that line is over the size limit. |
| `Log.SplitAfter` | internal/store/store.go:175-206 | A reader that has consumed whole lines goes on exactly where the reference reading of the file goes on. |
| `Spec.ApplyKeyed` | internal/store/store.go:283-310 | Every event that passes the state checks keeps map keys equal to the identifiers they map to and attempt identifiers unique. |
| `Spec.WithoutFilters` | internal/store/store.go:474-483 | Filtering a job's attempts out of a list leaves exactly the others. |
| `Spec.OnlyWithout` | internal/store/store.go:474-488 | Removing one job's attempts leaves every other job's attempts alone and in order. |
| `Linkage.RemoveJobAll` | internal/store/store.go:462-489 | Removing a job removes exactly the attempts of that job from the store. |
| `Linkage.RemoveRequestsJobs` | internal/store/store.go:436-460 | After requests are removed exactly their jobs are gone, and removing others brings none back. |
| `Linkage.EvictLinked` | internal/store/store.go:383-388 | The evictions of an event leave exactly the jobs and requests that are neither named nor belong to a named request, leave those as they were, and keep the invariant. |
| `Linkage.ApplyLinked` | internal/store/store.go:379-423 | No job without its request, no attempt without its job, and no two retained requests with one deduplication key: every event the store's own operations write keeps this. |
| `Linkage.HoldersLaw` | internal/store/store.go:637-649 | Two requests have one key exactly if they carry the same delivery identifier, or carry none and have the same body hash. |
| `Recovery.RecoverPrinted` | internal/store/store.go:168-217 | Recovering the printed log followed by a torn tail gives exactly what replaying the events gives, and the cut falls right after the last record. |
| `Recovery.OversizeRefused` | internal/store/store.go:319-329 | One record over the size limit makes the whole log unreadable, so the fit required elsewhere is exactly what is needed. |
| `Recovery.ReplayDiscipline` | internal/store/store.go:187-203 | In every log that recovery accepts the sequence numbers are nonzero and contiguous, snapshot records form a prefix, and the event count is the number of records that are not snapshot records. |
| `Recovery.AcceptedRecords` | internal/store/store.go:222-310 | Every record of an accepted log has a time, identifiers, a known kind and state and a matching digest, and found the request and job that it refers to and none of the identifiers that it brings. |
| `Recovery.CheckLaw` | internal/store/store.go:187-203 | A record out of sequence is refused as such before anything else, and what is accepted is the next in sequence and no late snapshot record. |
| `Recovery.AppendRecoverable` | internal/store/store.go:187-195 | An admitted next record is recoverable exactly if the sequence counter was not at its maximum: there the live counter wraps to the zero that recovery refuses. |
| `Recovery.NextLine` | internal/store/store.go:174-206 | What a reader finds after a prefix of whole lines decides the result of recovery: the end of the file, or the first error. |
| `Recovery.UnambiguousPlain` | internal/store/store.go:396-400 | In a log without evictions, unique deduplication keys at the end were unique at every point. |
| `Snapshot.SnapshotReplays` | internal/store/store.go:1243-1303 | Replaying a snapshot, in whatever order requests and jobs are written, passes every recovery check and rebuilds the same requests, jobs and attempt sequences, counting no mutation. |
| `Snapshot.SnapshotOpens` | internal/store/store.go:1276-1303 | The rewritten file opens to that state if and only if no snapshot record has outgrown the record limit, which compaction does not check again. |
| `Snapshot.SnapshotOutgrows` | internal/store/store.go:1276-1303 | The counterexample: a capture within some bytes of the record limit is admitted and written, and if its snapshot record is longer by that many bytes, as the snapshot mark alone makes it in JSON by 16, the compacted log cannot be opened. |
| `Snapshot.CompactedReplays` | internal/store/store.go:1246-1257 | With the numbers compaction assigns, the snapshot replays to the state, is empty exactly if there are no requests, and ends at the last old number plus the number of records. |
| `Snapshot.RecordsCount` | internal/store/store.go:1404-1446 | However it is ordered, a snapshot has one record for each request, job and attempt. |
| `Snapshot.RecordLaws` | internal/store/store.go:1411-1443 | A snapshot record carries the request, job or attempt as it is, at the time of its last change, or at the first tick if it has none. |
| `Operations.CommitLinked` | internal/store/store.go:581-854 | Every successful operation keeps the linkage invariant. |
| `Operations.EligibleLaw` | internal/store/store.go:738-743 | A job may be claimed exactly if it waits, if its retry is due, or if it holds no lease or an expired one. |
| `Operations.TerminalLaw` | internal/store/store.go:694-701 | The finished states are exactly the known ones that no instant makes eligible. |
| `Operations.JobLaws` | internal/store/store.go:755-784 | A claim, a recovery of leases and a discard change these fields of a job and no others. |
| `Operations.MaxIsCount` | internal/store/store.go:801-809 | When a job's attempts are numbered 1 to k, the highest number in the list is k. |
| `Operations.EvictAttempts` | internal/store/store.go:462-489 | Eviction leaves every surviving job and its attempts exactly as they were. |
| `Operations.MoveAdmitted` | internal/store/store.go:506-513 | The store's own checks never refuse a claim, a reclaim or a poisoning. |
| `Guarantees.CommitAttempts` | internal/store/store.go:407-413 | A committed operation does nothing to a job's attempts, except that an outcome appends one and a new job starts with none. |
| `Guarantees.OutcomeNumber` | internal/store/store.go:798-809 | An outcome carries the number after the job's recorded attempts, within the limit. |
| `Guarantees.RunNumbered` | internal/store/store.go:798-833 | In every state of every run the attempts of each job carry the numbers 1 to k in stored order. |
| `Guarantees.CommitFollowsDiagram` | docs/architecture.md:17-25 | Every commit moves at most one existing job: from a waiting or a held state to leased, from leased to an outcome or poison, or from a held state to pending. New jobs start pending, only terminal jobs are dropped, and request, target and creation time of a job never change. |
| `Guarantees.TerminalAbsorbing` | internal/store/store.go:694-701 | A terminal job does not change while it is retained. |
| `Guarantees.CommitDrops` | internal/store/store.go:670-683 | Only terminal jobs, and requests all of whose jobs are terminal, are ever evicted. |
| `Guarantees.WorkKept` | internal/store/store.go:663-732 | Through any run of operations and redactions a job stays in the store, for the same request and target and with that request, unless it was terminal at an earlier point of the run. |
| `Guarantees.CaptureBounded` | internal/store/store.go:663-683 | A new capture leaves at most the permitted number of requests, evicts exactly the overflow and only fully terminal requests, and keeps no evictable request older than one it evicts. |
| `Guarantees.CommitJobsOf` | internal/store/store.go:715-730 | A retained request that has a job never loses its last one, and its jobs never grow past the limit. |
| `Guarantees.CaptureJobs` | internal/store/store.go:615-619 | A request that arrives brings exactly the job of its own record. |
| `Guarantees.RunBounded` | internal/store/store.go:663-732 | In every run from the empty store the requests stay within the capture limit and the jobs of each within the job limit, and once anything was committed there always is a request. |
| `Idempotency.RetainedUnchanged` | internal/store/store.go:607-609 | A retained request never changes, but for the headers a redaction replaces: an identifier in use is never given to another capture. |
| `Idempotency.KeyHeld` | internal/store/store.go:637-649 | While a capture is retained it is the one and only holder of its deduplication key, through any operations and redactions. |
| `Idempotency.CaptureIsNew` | internal/store/store.go:587-607 | A capture taken while another is retained has a different deduplication key. |
| `Idempotency.RepairedOnce` | internal/store/store.go:594-604 | A missing job is repaired at most once while the capture is retained. |
| `Idempotency.EventuallyEligible` | internal/store/store.go:738-743 | Every unfinished job is eligible from some instant on. |
| `Idempotency.ReclaimKeepsWork` | internal/store/store.go:777-787 | Taking a lease back keeps the set of unfinished jobs and makes the job eligible at once. |
| `Leases.CountIsNumber` | internal/store/store.go:1168-1180 | In a numbered state the highest attempt number of a job over all requests is the number of its attempts. |
| `Leases.LeaseFencing` | internal/store/store.go:791-797 | In every behavior of interleaved workers and redactions, a recorded outcome goes through the job's latest claim, made by that worker, without an earlier outcome and without a recovery of leases since. |
| `Leases.LeaseRespected` | internal/store/store.go:734-757 | A claim without an outcome that was not taken back keeps its job in the store and leased to its worker, and the job is claimed again only at an instant not before the claim's expiry, or if that expiry is the zero time, which the code takes for no lease. |
| `Leases.RetryNotEarly` | internal/store/store.go:734-762 | A job recorded as to be retried stays in the store just as it was recorded, whatever else happens, until it is claimed, and no claim of it is made before its due time. |
| `Leases.NumberNeverRefused` | internal/store/store.go:798-809 | A worker that counted the attempts and still holds its lease always has the next number, within the limit, so neither the number nor the capacity can be refused. |
| `Leases.OutcomesBounded` | internal/app/app.go:699-719 | The outcomes of a job are numbered from 1, a job that has used all the permitted ones is finished, and no job ever has more than permitted if none had at the start. |
| `Crash.CrashRefinement` | internal/store/store.go:168-217 | After any interleaving of operations, torn writes, compactions, redactions, failures, power losses and restarts without one, every content that the path may show opens, to exactly the state after the part of the committed history that it tells, or after that and the one operation in flight; what the path names now tells everything committed, and so does every content if the store is settled; opening the truncated file again gives the same. |
| `Crash.NextKept` | internal/store/store.go:491-571 | Every step of the store and its disk, failures and both kinds of restart included, keeps the invariant from which crash refinement follows: every content the path may show tells a part of the history, and the present one tells the most. |
| `Crash.BehaviorExtends` | internal/store/store.go:497-560 | What is certain at one point, because every content that the path may show tells it, stays in the history at all later points, through any power losses and restarts. |
| `Crash.SurvivesExactly` | internal/store/store.go:119-217 | The exact condition: the first entries of the history are never taken back, whatever follows, if and only if every content that the path may show after a power loss tells them. |
| `Crash.RestartSurvives` | internal/store/store.go:119-217 | A restart without a power loss syncs nothing: what it shows survives, at a later point of the process, if and only if the earlier process left contents of the file that agree or there was an append or a rewrite since, and other files at the path agree or there was a rewrite since. |
| `Crash.AcknowledgedSurvives` | internal/store/store.go:545-560 | What a process has appended and synced survives if and only if no other file could be found at the path when it started, or it has rewritten the log. |
| `Crash.UnsyncedLost` | internal/store/store.go:536-550 | The counterexample for a record whose sync failed or was not reached: the restarted store shows the event, and a power loss takes it back. |
| `Crash.CaptureLost` | internal/store/store.go:587-605 | If that event is a capture, the restarted store holds its key, so that a repeat is a duplicate that writes nothing, and after the power loss it is gone. |
| `Crash.RenamedLost` | internal/store/store.go:1343-1352 | The counterexample for a rename whose directory was not synced: the restarted store acknowledges a synced append to the new file, and a power loss brings the old file back without it and with lower numbers. |
| `Crash.CreatedLost` | internal/store/store.go:119-126 | The counterexample for a new file, whose directory is not synced: a power loss takes back what was acknowledged. |
| `Crash.HistoryOrdered` | internal/store/store.go:498-499 | The numbers of the committed history increase strictly, over appends, compactions, redactions, power losses and restarts. |
| `Crash.SequencesIncrease` | internal/store/store.go:498-499 | Of two appends the later one has the greater number, over compactions, redactions, power losses and restarts, if the store was settled at the first or the first was not taken back. |
| `Crash.WorkSurvives` | internal/store/store.go:581-732 | A job of the part of the history that is certain stays in the store through any operations, evictions, compactions, redactions, failures, power losses and restarts, with its request and target, unless it was finished in between. |
| `Crash.KeySurvives` | internal/store/store.go:637-649 | Through any operations, compactions, redactions, failures, power losses and restarts, a capture that is certain and stays retained is the one holder of its deduplication key, and unchanged but for its headers. |
| `Crash.RepairSurvives` | internal/store/store.go:594-604 | In the history that stands at any point, after any power losses and restarts, a missing job is repaired at most once while the capture is retained. |
| `Crash.CaptureWhole` | internal/store/store.go:619-620 | A capture and its forwarding job become part of the state together. |
| `Crash.Reopened` | internal/store/store.go:119-166 | Whatever the end of a process leaves, by a power loss or otherwise, opens: the state, the sequence number and the event count are those of the log, the history is the part that it tells, and nothing is synced. |
| `Crash.SnapshotTells` | internal/store/store.go:1243-1303 | A snapshot of a reachable state, or of that state redacted, replays to it with numbers after all earlier ones. |
| `IndexMaps.ByRequestRemove` | internal/store/store.go:467-473 | Removing a job from the inverse index leaves exactly the inverse of the remaining jobs, without an empty entry. |
| `IndexMaps.ByRequestAdd` | internal/store/store.go:414-421 | Adding a job to the inverse index gives exactly the inverse of the new jobs. |
| `IndexMaps.DedupDrop` | internal/store/store.go:441-446 | Removing a request and its own deduplication entry keeps both maps exact for the remaining requests. |
| `IndexMaps.DedupAdd` | internal/store/store.go:396-400 | Adding a request keeps both maps sound, and exact if no other request has its key. |
| `IndexMaps.DedupExact` | internal/store/store.go:637-649 | A lookup answers with the one holder of the key, or with none exactly when nobody holds it. |
| `IndexMaps.HoldsReads` | internal/store/store.go:1057-1077 | A reference that holds a record reads back exactly that record if its length is within the limit, and is refused otherwise. |
| `IndexMaps.BareLaw` | internal/store/store.go:389-412 | In memory a request and an attempt lack their bodies and nothing else, and the search text is the identifiers, the path and a bounded part of the body. |
| `IndexTable.Indexes.FilterAttempts` | internal/store/store.go:474-488 | The in-place filter leaves exactly the other jobs' attempts in order and drops the identifiers and references of the removed ones. |
| `IndexTable.Indexes.RemoveJob` | internal/store/store.go:462-489 | The job, its entry under its request and its attempts leave every index, in step with the abstract removal. |
| `IndexTable.Indexes.RemoveRequest` | internal/store/store.go:436-460 | The request, its deduplication entry, its jobs and its attempts leave every index, in step with the abstract removal; no other reference moves. |
| `IndexTable.Indexes.Evict` | internal/store/store.go:383-388 | The evictions of an event, jobs first, leave all indexes coherent with the evicted state. |
| `IndexTable.Indexes.Apply` | internal/store/store.go:379-421 | All index maps after an event are exactly the indexes of the state after the event; the event's own records get the new reference and all others keep theirs. |
| `IndexTable.Indexes.StoreRequest` | internal/store/store.go:389-406 | The request is kept without its body, with its size, its reference, its deduplication entry and its search text. |
| `IndexTable.Indexes.RedactAll` | internal/store/store.go:936-960 | Redacting the indexed headers in place gives the indexes of the redacted state, and reports a change exactly if something was exposed. |
| `References.RequestRefsAfter` | internal/store/store.go:393-395 | After an append every retained request's reference, old or new, holds its record in the longer file. |
| `References.AttemptRefsAfter` | internal/store/store.go:407-413 | After an append every stored attempt's reference, old or new, holds its record in the longer file. |
| `Sorting.Sort` | internal/store/store.go:1409-1411 | The sorted list holds every identifier once, in order; ties come in any order. |
| `Queries.Duplicate` | internal/store/store.go:637-649 | None exactly if no retained request has the same delivery identifier or, without one, the same body hash; else the one that has it, and a conflict exactly if the hashes differ. |
| `Queries.DiscoverableJob` | internal/store/store.go:651-661 | The chosen job belongs to the request, is unfinished if any of its jobs is, and is the oldest of those as finished as it is. |
| `Queries.IsRequestTerminal` | internal/store/store.go:685-692 | A request is evictable exactly if all its jobs are terminal. |
| `Queries.OldestRequests` | internal/store/store.go:663-683 | The evicted requests are exactly the overflow, fully terminal, and none kept is evictable and older; refused exactly if there are too few. |
| `Queries.OldestJob` | internal/store/store.go:715-729 | A full request gives up its oldest terminal job; refused exactly if it is full and has none. |
| `Queries.NextClaim` | internal/store/store.go:734-753 | No claim exactly if no job is eligible, else the eligible job that is available first and, of those, was created first; who is eligible is `Operations.EligibleLaw`. |
| `Queries.StaleJobs` | internal/store/store.go:770-776 | Exactly the leased and running jobs, in order of creation. |
| `Queries.ExpectedNumber` | internal/store/store.go:801-806 | The next number is above all recorded ones of the job and follows the highest of them. |
| `Queries.MaxLaw` | internal/store/store.go:801-806 | The highest number of a job in a list is that of one of its attempts, and no attempt of the job has a higher one. |
| `Queries.AttemptsForJob` | internal/store/store.go:1168-1180 | The result is the highest number among the job's attempts over all requests, zero without any. |
| `Queries.PlanCapture` | internal/store/store.go:607-619 | A collision exactly if an identifier is in use, no room exactly if too few requests can go, as `Queries.CaptureRefusalLaw` spells out, else the capture event with its evictions. |
| `Queries.PlanEnqueue` | internal/store/store.go:703-730 | The refusals of an enqueue, in the order of the checks, as `Queries.EnqueueRefusalLaw` spells out, and otherwise the event with its eviction. |
| `Queries.PlanOutcome` | internal/store/store.go:794-831 | The refusals of an outcome, in the order of the checks, as `Queries.OutcomeRefusalLaw` spells out, and otherwise the event with the attempt and the job of `Queries.OutcomeJobLaw`. |
| `Queries.CaptureRefusalLaw` | internal/store/store.go:607-618 | A capture is refused for an identifier in use, or if too few requests have only finished jobs. |
| `Queries.EnqueueRefusalLaw` | internal/store/store.go:703-730 | An enqueue is refused for a missing request, a job that is not pending or not new, or a request full of unfinished jobs. |
| `Queries.OutcomeRefusalLaw` | internal/store/store.go:794-819 | An outcome and a discard need the lease and a permitted state, an outcome also a number within the limit that is the next one, and a new identifier. |
| `Queries.OutcomeJobLaw` | internal/store/store.go:820-830 | The job of an outcome has its state, message and due time, no lease, and the end of the attempt as the instant of the change, and of its end unless it is retried; all other fields stay. |
| `Compaction.SnapshotRecords` | internal/store/store.go:1404-1446 | The records are those of the state without their bodies: requests by arrival, each with its jobs by identifier and its attempts in stored order. |
| `Compaction.BlockOf` | internal/store/store.go:1413-1443 | One request with exactly its jobs, sorted by identifier, and its attempts in stored order. |
| `Compaction.Hydrate` | internal/store/store.go:1376-1402 | A record that the old file backs is filled in with exactly the body it had, and fails only if some reference is too long to be read. |
| `Compaction.Rewrite` | internal/store/store.go:1273-1303 | The new content is the printed snapshot, and the new references hold the same requests and attempts in it. |
| `Compaction.LoadFull` | internal/store/store.go:881-905 | The loaded request and attempts are exactly those of the state, bodies included, and loading fails only if some reference is too long to be read. |
| `Compaction.ReadBody` | internal/store/store.go:1057-1077 | The body read through a reference is the captured one, and is refused exactly if the record is over the limit. |
| `Store.Open` | internal/store/store.go:119-166 | Opening fails with exactly the error of recovery, or gives the recovered state, the truncated file and coherent indexes. On a content that the end of a process has left to the path it succeeds and continues the part of the history that the content tells; after a power loss that content is the only one, and otherwise whatever was possible stays so. |
| `Store.OpenNew` | internal/store/store.go:115-166 | A store on a new file is empty, healthy, sound, in the invariant all operations keep, and at the start of its stream; the name of its file may not be on the disk. |
| `Model.OptionsLaw` | internal/store/store.go:43-75 | The defaults of the options, and that positive options stay. |
| `Store.Store.Recoverable` | internal/store/store.go:119-217 | Whatever the path of a sound store may show after a power loss can be opened, to the state after the part of the history that it tells; if the store is healthy and the content tells everything, that is exactly its state, and its file does. |
| `Store.AcceptAndReopen` | internal/store/store.go:581-629 | An acknowledged capture is found again with its job by whoever opens the store next: after a power loss right away exactly if no other file could be found at the path or the capture made the store rewrite its log, and after any other end of the process always; provided the sequence numbers and the snapshot limit were not used up. |
| `Store.Store.ReadLog` | internal/store/store.go:168-217 | The recovery loop computes exactly the reference recovery of the file, keeps every reference good, passes every event through the ring, and cuts off exactly the torn tail. |
| `Store.Store.Examine` | internal/store/store.go:183-199 | The checks of one record and their order are those of the reference recovery. |
| `Store.Store.ValidateState` | internal/store/store.go:283-310 | The indexes answer the state checks exactly as the state would. |
| `Store.Store.AppendLocked` | internal/store/store.go:491-571 | Success logs the event and syncs it, applies it, puts it in the ring and offers it to every subscriber. An error changes nothing on a closed or poisoned store; for an event that is not admissible it changes nothing, but that a failing hook poisons; for an admissible one the store is poisoned and the state is as before exactly if the write or the sync failed, and otherwise the event is committed and its compaction, which was due, has failed. In each case it is said what the path may show after a power loss, and when the flag for durability is lost. |
| `Store.CommittedDespiteError` | internal/store/store.go:554-561 | The concrete input: on a store that compacts after every event, the second capture returns an error and is committed when the rewrite fails. |
| `Store.Store.Persist` | internal/store/store.go:526-555 | Success puts the record at the end of the file, synced, and applies the event; it fails exactly if the write or the sync does, and then the store is poisoned, the state stays, the file has gained a prefix of the record, and any part of that prefix may be on the disk. |
| `Store.Store.Compact` | internal/store/store.go:1243-1374 | A successful compaction changes neither the state nor the coherence of the indexes, leaves exactly a snapshot of the state numbered after the last event, and resets the event count; a failure poisons the store without changing the state, and leaves the old content, or past the rename the old content or the snapshot. All are steps of the crash model. |
| `Store.Store.Accept` | internal/store/store.go:581-629 | A new key gives a capture whose record holds request, job and evictions, is synced, and has been published; a held key gives Duplicate or Conflict with the holder's identifier and a job of it that is unfinished if any is, the oldest of its kind. A conflict, a duplicate that needs no repair and every refusal change nothing, not the file, the counters, the health or the stream. The flag for durability is lost only with the sequence numbers or the snapshot limit. |
| `Store.Store.Repeat` | internal/store/store.go:587-606 | The answer to a repeated delivery, with a job that is unfinished if any of the request is, the oldest of its kind: nothing at all changes, except that a capture without any job gets the one offered, synced and published. |
| `Store.Store.Capture` | internal/store/store.go:607-628 | Success commits the capture, synced and published; the refusals are exactly those of identifiers and room and change nothing at all, and a healthy store fails otherwise only for a reason outside it. |
| `Store.Store.Enqueue` | internal/store/store.go:703-732 | Success adds one pending job, synced and published, and drops the oldest finished job exactly if the request was full; each refusal leaves state, file, counters, health and stream as they were. |
| `Store.Store.ClaimNextJob` | internal/store/store.go:734-762 | Nothing is claimed, and nothing at all changes, exactly if no job waits, no retry is due and every lease is good; otherwise the eligible job that is available first is leased to the owner, and no other field or job changes; only the outside world can prevent it. |
| `Store.Store.RecoverLeases` | internal/store/store.go:767-789 | Success leaves every job that was held pending, without owner, error or lease and available now, every other field and job unchanged, and one event published for each; a failure at any of the records, each with its own clock and faults, has done exactly part of that. The flag for durability is lost only if the numbers that the records and compactions may take run out or a snapshot on the way does not fit. |
| `Store.Store.RecordAttempt` | internal/store/store.go:791-833 | Success needs the lease, the next number, a fresh identifier and a permitted state; it stores the attempt, and the job with the given state, message and due time, without lease, changed and if final finished at the end of the attempt, field by field; each refusal leaves state, file, counters, health and stream as they were. |
| `Store.Store.FinishWithoutAttempt` | internal/store/store.go:835-854 | Success needs the lease and stores the job poisoned, with the message and the instant, field by field; each refusal leaves state, file, counters, health and stream as they were. |
| `Store.Store.Load` | internal/store/store.go:859-911 | The result is the captured request and all its attempts with their bodies, in every reachable state; it fails only on a closed file or an unreadable reference, and then poisons the store. |
| `Store.Store.Close` | internal/store/store.go:1460-1474 | Every subscriber leaves: its channel is closed with what is buffered, and no other channel changes; a second close does nothing. |
| `Store.Store.RedactHeaders` | internal/store/store.go:924-990 | State and ring are redacted, and on success every record of the log is clean; where nothing is exposed nothing at all happens. It is a step of the crash model, also when it fails: past the rename the path may show the redacted log or what it might have shown before. |
| `Store.Store.SubscribeFrom` | internal/store/store.go:1214-1241 | Refused exactly if the ring holds something and its oldest entry is numbered beyond the one after the cursor; otherwise the client gets exactly the ring's events after the cursor, which are all that was published after it if the ring holds anything, and a new channel. |
| `Redaction.HeaderRedacted` | internal/store/store.go:936-945 | Redaction leaves nothing exposed, changes a header map exactly if something is exposed, leaves other values alone, and is idempotent. |
| `Redaction.RedactTwice` | internal/store/store.go:946-960 | A second redaction under the same policy changes nothing. |
| `Redaction.AbsRedacted` | internal/store/store.go:936-960 | The state is changed by redaction exactly if it exposes something. |
| `Redaction.RedactLinked` | internal/store/store.go:946-960 | Redaction keeps the linkage invariant. |
| `Redaction.RedactRefs` | internal/store/store.go:946-960 | The record references go on holding after redaction: they vouch for everything but the headers. |
| `Redaction.CompactedClean` | internal/store/store.go:985-989 | No record of a log compacted from a redacted state exposes a sensitive header. |
| `Redaction.ScanLog` | internal/store/store.go:1009-1046 | The scan reports a clean log exactly if no record exposes a header and every record can be read. |
| `Redaction.RedactOne` | internal/store/store.go:936-945 | One header map is redacted in place, and the change is reported exactly if there was one. |
| `Stream.TrimLongest` | internal/store/store.go:425-434 | The ring keeps the longest suffix that meets both bounds. |
| `Stream.TrimKeepsLast` | internal/store/store.go:425-434 | The newest event stays in the ring exactly if it fits the byte bound. |
| `Stream.PlainLaw` | internal/store/store.go:963-973 | Events that are compared up to redaction agree in everything but the two header maps. |
| `Stream.CatchUpExact` | internal/store/store.go:1218-1230 | An accepted subscription starts with exactly the published events after the cursor if and only if the ring holds an event or nothing was published after the cursor. |
| `Stream.SinceLaw` | internal/store/store.go:1226-1230 | The events after a cursor are all of those, and no others, in order. |
| `Stream.RefusalLaw` | internal/store/store.go:1218-1224 | A cursor is refused exactly if the oldest entry is numbered beyond the one after it; where the published numbers are consecutive and the ring has lost some, that is exactly when the ring would not catch up. |
| `Stream.RefusedNeedlessly` | internal/store/store.go:1218-1224 | The other case: on a ring that has lost nothing, as after a restart on a compacted log, a client may be refused although it would miss nothing. |
| `Stream.EmptyRingGap` | internal/store/store.go:1218-1224 | The counterexample: an event larger than the ring may be leaves the ring empty, and a client that has seen nothing is then accepted and misses that event. |
| `Stream.CountedTrims` | internal/store/store.go:425-434 | With a byte counter that is off by some drift the trimming loop works as if the bound were lower by the drift, and takes an entry from an empty ring exactly if the drift exceeds the bound. |
| `Stream.ArrivedDrifts` | internal/store/store.go:425-434 | Over all events that have arrived the counter is off by the sum of measured minus copied sizes, and the loop fails exactly if that sum has ever exceeded the bound. |
| `Stream.ArrivedExactly` | internal/store/store.go:425-434 | If events are measured as they are copied the counter is exact and the ring is the one the store is modelled with. |
| `Stream.DriftFails` | internal/store/store.go:341-347 | The counterexample: events that are measured two bytes larger than their copies, as attempts without a reply are, make the loop fail after enough of them. |
| `Stream.Deliver` | internal/app/app.go:861-881 | The delivery loop sends the catch-up events and then the new ones of the channel, up to the first send that fails. |
| `Stream.SessionRun` | internal/app/app.go:861-892 | One session shows a contiguous run of the published events after its cursor. |
| `Stream.RunResumed` | internal/app/app.go:808-823 | Reconnecting at the last delivered event continues the run without a gap or a duplicate. |
| `Feeding.Feed.AppendRing` | internal/store/store.go:425-434 | The event joins the ring, the oldest leave until both bounds are met, and the byte counter is the sum of the entry sizes, if an event is as large when it is measured as when it is copied. |
| `Feeding.Feed.RedactEntries` | internal/store/store.go:963-973 | The ring entries are redacted and recounted, and a change is reported exactly if there was one. |
| `Feeding.Feed.Publish` | internal/store/store.go:562-569 | Every subscriber whose channel has room is given the event; every other keeps what it has, and its channel is closed and it is dropped. |
| `Feeding.Feed.SubscribeFrom` | internal/store/store.go:1214-1241 | Refused exactly if the oldest entry is numbered beyond the one after the cursor, else exactly the ring's events after the cursor and a new channel that is up to date. |
| `Feeding.Feed.Receive` | internal/app/app.go:870-882 | A client takes the buffered events in order, also after its channel was closed. |
| `Feeding.Feed.Cancel` | internal/store/store.go:1232-1239 | A client that leaves has its channel closed once. |
| `Feeding.Feed.CloseAll` | internal/store/store.go:1467-1470 | Closing closes every channel, and what is buffered can still be drained. |
| `Flows.FlowKept` | internal/store/store.go:425-434 | Every step of the stream keeps the ring a suffix of the published events and every channel a contiguous piece of them, complete for a subscriber, and takes back nothing that was published or taken. |
| `Flows.RingCounted` | internal/store/store.go:425-434 | The ring that a step of the stream leaves is the one the trimming loop leaves with the size the event is measured at, as long as the drift of the counter stays within the bound; beyond it the loop fails. |
| `Flows.FilledKept` | internal/store/store.go:425-434 | As long as every event, also as redaction leaves it, fits the byte bound of the ring less the drift of its counter, the ring never runs empty once something was published. |
| `Flows.SessionShown` | internal/app/app.go:861-892 | What a client of a channel is shown, wherever a send fails, is a contiguous run of the published events after its cursor if its catch-up was complete. |
| `Flows.ConnectOrRefused` | internal/app/app.go:808-823 | A client that is not connected can connect or is refused. |
| `Flows.CanConnect` | internal/app/app.go:808-823 | A client whose last number is not before the one that the oldest entry follows can connect, and so can any on an empty ring; every other is refused. |
| `Flows.StreamExact` | internal/app/app.go:803-893 | Over every run of appends, compactions, redactions, subscriptions, takes and cancellations by anybody, with a byte counter of the ring that drifts within its bound, and over any number of disconnections and reconnections at the last event shown, all that a client has been shown is the published events from the first after its first cursor on, without a gap, strictly increasing. |
| `Store.Store.StreamsValid` | internal/store/store.go:543-571 | The stream of the store is in the invariant from which the stream theorem starts. |
| `Retry.RawBounds` | internal/app/app.go:776-781 | The raw delay lies between three quarters and five quarters of the exponential base. |
| `Retry.BackoffGrows` | internal/app/app.go:776-781 | The capped delay of the next attempt is at least as long for every pair of jitter values, because 0.75 * 2 > 1.25. |
| `Retry.BackoffMonotone` | internal/app/app.go:776-781 | Later capped delays are never shorter than earlier ones, over any number of attempts without overflow. |
| `Retry.DefaultsFit` | internal/app/app.go:79-84 | With the default base and at most ten attempts nothing overflows. |
| `Retry.RetryAfterNonNegative` | internal/app/app.go:782-797 | A requested delay is never negative and seconds never wrap, whatever was parsed. |
| `Retry.RetryDelayBounds` | internal/app/app.go:710-718 | A retry is put off by at least nothing and at most the maximal backoff, whatever an overflowing conversion yields, if and only if the destination named a delay or the backoff does not overflow. |
| `Retry.OutcomeLaw` | internal/app/app.go:699-713 | Without an error the two hundreds succeed; an error, 0, 408, 425, 429 and the five hundreds are retried while attempts are left and end the job after that; every other status is final. |
| `Retry.ParseLaw` | internal/app/app.go:782-797 | A header value asks for its seconds, at most what fits a duration, or for the time until its date and never less than nothing, or for nothing. |
| `Retry.BackoffLaw` | internal/app/app.go:776-781 | The exponential base starts at the base and doubles, and the jitter reaches from three quarters to five quarters of it. |
| `Retry.BackoffLost` | internal/app/app.go:776-781 | The counterexample: with the default base the backoff of attempt 36, which the command line does not permit, does not fit a duration, and a negative result passes the cap. |
| `Forwarding.Forward` | internal/app/app.go:648-727 | The body sent is the captured one. What is recorded needs the lease, carries the reply under the number after the highest one, and succeeds, is retried or ends by the numbers of `Retry.OutcomeLaw`; the stored job is due, if it is retried, between the end of the attempt and the maximal backoff after it. A job without a request or without an attempt identifier is poisoned with that reason, or its refusal is reported. |
| `Forwarding.Report` | internal/app/app.go:694-726 | The reply is classified and recorded with its attempt in one record; what that means for attempt and job is `Forwarding.FollowsLaw`. |
| `Forwarding.FollowsLaw` | internal/app/app.go:694-727 | The recorded attempt field by field, the state by its statuses, and the job as it then stands in the store, with state, message, due time and no lease. |
| `Forwarding.DueLaw` | internal/app/app.go:710-718 | A retry is due after the delay that the destination names, up to the maximal backoff, and otherwise within the maximal backoff unless the backoff overflows. |
| `Forwarding.RetryDue` | internal/app/app.go:710-718 | A retry is due between the end of the attempt and the maximal backoff after it, if the destination named a delay or the backoff does not overflow. |
| `Forwarding.Decide` | internal/app/app.go:699-719 | Without an error the two hundreds succeed; an error, 0, 408, 425, 429 and the five hundreds give a retry while attempts are left and a dead letter after that; every other status is fatal, and the message names it. Only a retry has a due time. |
| `Forwarding.ObeysProtocol` | internal/app/app.go:699-720 | What forwarding records is an outcome the lease protocol allows: a committed one of the owner, numbered after the highest, that never retries after the last permitted attempt. |
| `Forwarding.Ingest` | internal/app/app.go:362-386 | Accepted means committed with its job, synced and published; duplicate means the request is retained and, where a job was offered, has one; conflict means another body, 507 that no room can be made, and both change nothing; after a server error the state is as before or the store is poisoned. |
| `LoadRace.NextKept` | internal/store/store.go:77-83 | Every interleaved step of readers, appends, torn appends, compaction, redaction with its scan of the log, and Close keeps the locks exclusive and the readers' references good. |
| `LoadRace.LoadIsAtomic` | internal/store/store.go:859-911 | Whatever is interleaved, a load returns the request and attempts of the state at the point of the same call where it copied the metadata, and fails only if the store was closed at that point: a Close that begins during the call cannot break it. |
| `LoadRace.DescriptorStaysOpen` | internal/store/store.go:874-879 | A reader that holds the file lock has the current descriptor, open unless the store was closed when it copied its metadata, and its references are good for it. |
| `LoadRace.ScanReads` | internal/store/store.go:1009-1019 | The scan of a redaction reads the current descriptor, which is open, and which holds the records of the state. |
| `LoadRace.NoDeadlock` | internal/store/store.go:77-83 | While any thread is busy, loading, appending, compacting, scanning or closing, some busy thread can go on, also if waiting writers keep new readers out. |
| `LoadRace.CanStepSteps` | internal/store/store.go:859-911 | A thread that can go on has a step that moves it. |

## Left out

- Flows.StreamExact: the run is over one life of the store; after a restart the published events are those of the log,
  which a compaction has cut down to a snapshot. Events are compared up to their headers, which redaction may change in the
  ring and the handler redacts again when it sends. Every event must fit the ring's byte bound less the drift of its counter, also as redaction leaves it:
  otherwise `Stream.EmptyRingGap` applies.
- Crash.CrashRefinement: a behavior is one in which no snapshot record that is written outgrows the record limit, as the
  source takes for granted; `Snapshot.SnapshotOutgrows` shows what happens otherwise. An empty file that a power loss leaves is
  not told apart from a missing one.
- JSON, base64, hexadecimal and SHA-256: an abstract codec and an uninterpreted digest. The lighter decoding of the
  header scan is the full decoding here, and a whole record is encoded or refused as one.
- Feeding.Feed.AppendRing: an event has one size, so the class is the case without drift of the byte counter. The stream theorem
  covers any drift within the bound (`Flows.RingCounted`, `Flows.StreamExact`); a store whose trimming loop has failed on a
  larger one (`Stream.DriftFails`) is not followed further.
- Nil and empty headers, bodies and lists are one value.
- The search text is kept as its parts, without the joining and the case folding; listing, counting and paging are
  left out because they would only add easy members.
- Raw `Append`, which lets callers skip the guarded operations, and the test hooks, except as a source of failure.
- Temporary files, permissions, directory handles and the close-before-rename branch for Windows: only write,
  partial write, sync, atomic replacement and crash are steps.
- Starvation freedom and scheduling liveness: eligibility is proved, not that a worker ever runs.
- The worker's polling loop is modelled as the protocol of `Leases.dfy`, not as a method.
- HTTP routing, authentication, signatures, cookies, header forwarding, URL and address checks, and the user interface.
