/** The store: its indexes, its log file, its ring and subscribers, and the operations that update them. */
module Store {
  import opened Wrappers
  import opened Model
  import opened Spec
  import opened Linkage
  import opened IndexMaps
  import opened IndexTable
  import opened References
  import opened Log
  import opened Recovery
  import opened Snapshot
  import opened Compaction
  import opened Operations
  import opened Guarantees
  import opened Stream
  import opened Feeding
  import opened Redaction
  import opened Queries
  import Crash
  import F = Flows

  /** What may go wrong while a record is written. */
  datatype Fault = NoFault | HookFails | EncodingFails | SeekFails | WriteFails(written: nat) | SyncFails

  /** What may go wrong while the log is rewritten. */
  datatype RewriteFault = RewriteWorks | BeforeRename | AfterRename | OldCloseFails

  /** What an operation finds outside the store: the clock, and the file system's behaviour. */
  datatype Env = Env(now: Time, fault: Fault, rewrite: RewriteFault)

  /** Everything about a store but its indexes: what its callers, its subscribers and the disk can see. `disk` says what the
      path of the log may hold after a power loss. */
  datatype View = View(file: Bytes, disk: Crash.Disk, seqNo: uint64, eventCount: nat, health: Option<Error>, flow: F.Flow)

  /** The record an append makes of an event. */
  function Stamped(e: Event, seqNo: uint64, now: Time): Event {
    e.(seqNo := NextSeq(seqNo), snapshot := false, at := if e.at == ZERO then now else e.at)
  }

  datatype CaptureResult = Captured | Duplicate | Conflict
  datatype Accepted = Accepted(id: string, result: CaptureResult, job: Option<Job>)

  lemma ProducesStamped(o: Options, a: Abs, op: Op, e: Event, seqNo: uint64, now: Time)
    requires Produces(o, a, op, e)
    ensures Produces(o, a, op, Stamped(e, seqNo, now))
  {
    hide CaptureEvictions, EnqueueEvictions, Holders, MaxNumber, JobsOf;
  }

  /** Every record of every snapshot of the state fits the record limit. */
  ghost predicate SnapshotFits(c: Codec, a: Abs) {
    forall order, jobOrder, seqNo: uint64 ::
      Ordering(a, order, jobOrder) && Orderable(a, order, jobOrder) && seqNo + |Records(a, order, jobOrder)| <= MAX_SEQ ==>
        AllFit(c, Compacted(a, order, jobOrder, seqNo))
  }

  /** A snapshot of the state needs more sequence numbers than are left. */
  ghost predicate Exhausted(a: Abs, seqNo: uint64) {
    exists order, jobOrder :: Ordering(a, order, jobOrder) && Orderable(a, order, jobOrder) && seqNo + |Records(a, order, jobOrder)| > MAX_SEQ
  }

  /** The stream has shown increasing sequence numbers, none beyond the counter. */
  ghost predicate InOrder(published: seq<Event>, seqNo: uint64) {
    Increasing(published) && forall e :: e in published ==> e.seqNo <= seqNo
  }

  lemma InOrderAppended(published: seq<Event>, seqNo: uint64, e: Event)
    requires e.seqNo == seqNo
    ensures InOrder(published, seqNo) && (forall x :: x in published ==> x.seqNo < seqNo) ==> InOrder(published + [Plain(e)], seqNo)
  {
  }

  lemma InOrderLater(published: seq<Event>, was: uint64, seqNo: uint64)
    ensures InOrder(published, was) && was <= seqNo ==> InOrder(published, seqNo)
    ensures InOrder(published, was) && was < seqNo ==> forall e :: e in published ==> e.seqNo < seqNo
  {
  }

  /** The events of these lines. */
  function EventsOf(c: Codec, ls: seq<Bytes>): seq<Event> {
    if ls == [] then []
    else
      var d := c.decode(ls[|ls| - 1]);
      EventsOf(c, ls[..|ls| - 1]) + if d.Some? then [d.value] else []
  }

  lemma EventsNext(c: Codec, ls: seq<Bytes>, l: Bytes)
    ensures EventsOf(c, ls + [l]) == EventsOf(c, ls) + if c.decode(l).Some? then [c.decode(l).value] else []
  {
    assert (ls + [l])[..|ls|] == ls;
  }

  /** An event that only carries a job only writes that job. */
  lemma JobOnly(a: Abs, e: Event, seqNo: uint64, now: Time)
    requires e.request.None? && e.attempt.None? && e.evictedJobIDs == [] && e.evictedRequestIDs == []
    ensures Apply(a, Stamped(e, seqNo, now)) == AddJob(a, e.job)
  {
  }

  lemma AttemptOnly(a: Abs, e: Event, seqNo: uint64, now: Time)
    requires e.request.None? && e.evictedJobIDs == [] && e.evictedRequestIDs == []
    ensures Apply(a, Stamped(e, seqNo, now)) == AddJob(AddAttempt(a, e.attempt), e.job)
  {
  }

  lemma EnqueueParts(o: Options, a: Abs, e: Event)
    requires Produces(o, a, Enqueuing, e)
    ensures e.request.None? && e.job.Some? && e.evictedRequestIDs == []
    ensures var j := e.job.value;
            && j.id !in a.jobs && j.requestID in a.requests && j.state == Pending
            && if |JobsOf(a, j.requestID)| < o.maxJobsPerRequest then e.evictedJobIDs == []
               else && |e.evictedJobIDs| == 1 && e.evictedJobIDs == [e.evictedJobIDs[0]]
                    && var gone := e.evictedJobIDs[0];
                       && gone in JobsOf(a, j.requestID) && gone in a.jobs && Terminal(a.jobs[gone].state)
                       && forall k :: k in JobsOf(a, j.requestID) && Terminal(a.jobs[k].state) ==> a.jobs[gone].createdAt <= a.jobs[k].createdAt
  {
  }

  /** The jobs after an event that writes one job and evicts others. */
  lemma OneJobAfter(c: Codec, a: Abs, e: Event)
    requires Linked(c, a) && e.request.None? && e.job.Some? && e.evictedRequestIDs == []
    ensures Apply(a, e).requests == a.requests
    ensures Apply(a, e).jobs == (a.jobs - Elems(e.evictedJobIDs))[e.job.value.id := e.job.value]
  {
    hide Linked, Apply;
    JobsAfter(c, a, e);
    RequestsAfter(c, a, e);
    assert Apply(a, e).requests == a.requests;
    assert Apply(a, e).jobs == (a.jobs - Elems(e.evictedJobIDs))[e.job.value.id := e.job.value];
  }

  lemma EnqueueLeaves(c: Codec, o: Options, a: Abs, e: Event)
    requires Linked(c, a) && Commits(c, o, a, Enqueuing, e)
    ensures var j := e.job.value;
            && j.id !in a.jobs && j.requestID in a.requests && j.state == Pending && Apply(a, e).requests == a.requests
            && if |JobsOf(a, j.requestID)| < o.maxJobsPerRequest then Apply(a, e).jobs == a.jobs[j.id := j]
               else exists gone :: gone in JobsOf(a, j.requestID) && Apply(a, e).jobs == (a.jobs - {gone})[j.id := j]
                                   && Terminal(a.jobs[gone].state)
                                   && forall k :: k in JobsOf(a, j.requestID) && Terminal(a.jobs[k].state) ==>
                                                    a.jobs[gone].createdAt <= a.jobs[k].createdAt
  {
    hide Linked, Apply, EventValid, StateValid;
    EnqueueParts(o, a, e);
    hide Commits, JobsOf;
    OneJobAfter(c, a, e);
    if |JobsOf(a, e.job.value.requestID)| < o.maxJobsPerRequest {
      assert a.jobs - Elems([]) == a.jobs;
    } else {
      assert Elems(e.evictedJobIDs) == {e.evictedJobIDs[0]};
    }
  }

  /** The state with these jobs taken back from their workers. */
  ghost function Freed(a: Abs, done: set<string>, now: Time): Abs {
    a.(jobs := map k | k in a.jobs :: if k in done then Reclaimed(a.jobs[k], now) else a.jobs[k])
  }

  /** Every job that was held is pending, with neither error nor lease and available now, and nothing else has changed. */
  lemma FreedLaw(a: Abs, now: Time)
    ensures var b := Freed(a, Stale(a), now);
            && b.requests == a.requests && b.attempts == a.attempts && b.jobs.Keys == a.jobs.Keys
            && forall k :: k in a.jobs ==>
                             var j := a.jobs[k];
                             b.jobs[k] == if j.state == Leased || j.state == Running
                                          then Job(j.id, j.requestID, j.url, Pending, "", "", j.createdAt, now, now, 0, j.finishedAt) else j
  {
  }

  lemma FreedNone(a: Abs, now: Time)
    ensures Freed(a, {}, now) == a
  {
    assert Freed(a, {}, now).jobs == a.jobs;
  }

  lemma StaleListed(a: Abs, stale: seq<string>)
    requires Lists(stale, Stale(a))
    ensures Elems(stale) == Stale(a) && Elems(stale[..0]) == {} && forall i :: 0 <= i <= |stale| ==> Elems(stale[..i]) <= Stale(a)
  {
  }

  lemma FreedNext(a: Abs, stale: seq<string>, i: nat, now: Time)
    requires Lists(stale, Stale(a)) && Keyed(a) && i < |stale|
    ensures stale[i] in a.jobs && Held(a.jobs[stale[i]])
    ensures var b := Freed(a, Elems(stale[..i]), now);
            && stale[i] in b.jobs && b.jobs[stale[i]] == a.jobs[stale[i]]
            && Freed(a, Elems(stale[..i + 1]), now) == AddJob(b, Some(Reclaimed(b.jobs[stale[i]], now)))
  {
    assert stale[i] in stale;
    ElemsTake(stale, i);
    assert stale[i] !in Elems(stale[..i]);
    var b := Freed(a, Elems(stale[..i]), now);
    assert Freed(a, Elems(stale[..i + 1]), now).jobs == AddJob(b, Some(Reclaimed(b.jobs[stale[i]], now))).jobs;
  }

  lemma FreedAll(a: Abs, now: Time)
    ensures Stale(Freed(a, Stale(a), now)) == {}
  {
  }

  /** One more event has been published, and it carries this job. */
  ghost predicate Shows(published: seq<Event>, j: Job, more: seq<Event>) {
    |more| == |published| + 1 && published <= more && more[|published|].job == Some(j)
  }

  /** These jobs have been taken back, and the stream has shown one event for each of them. */
  ghost predicate TakenBack(a: Abs, published: seq<Event>, done: set<string>, now: Time, b: Abs, more: seq<Event>) {
    && done <= Stale(a) && b == Freed(a, done, now)
    && |more| == |published| + |done| && published <= more
    && forall k :: k in done && k in a.jobs ==> exists i :: |published| <= i < |more| && more[i].job == Some(Reclaimed(a.jobs[k], now))
  }

  lemma NothingTaken(a: Abs, now: Time, published: seq<Event>)
    ensures TakenBack(a, published, {}, now, a, published)
  {
    FreedNone(a, now);
  }

  lemma TakenFreed(a: Abs, published: seq<Event>, done: set<string>, now: Time, b: Abs, more: seq<Event>)
    requires TakenBack(a, published, done, now, b, more)
    ensures done <= Stale(a) && b == Freed(a, done, now) && Volume(b) == Volume(a)
  {
    hide Stale;
    assert Freed(a, done, now).jobs.Keys == a.jobs.Keys;
  }

  /** One more job has been taken back and shown. */
  lemma TakenNext(a: Abs, published: seq<Event>, stale: seq<string>, i: nat, now: Time, b: Abs, more: seq<Event>, next: seq<Event>)
    requires Lists(stale, Stale(a)) && Keyed(a) && i < |stale| && TakenBack(a, published, Elems(stale[..i]), now, b, more)
    requires stale[i] in b.jobs && Shows(more, Reclaimed(b.jobs[stale[i]], now), next)
    ensures TakenBack(a, published, Elems(stale[..i + 1]), now, AddJob(b, Some(Reclaimed(b.jobs[stale[i]], now))), next)
  {
    FreedNext(a, stale, i, now);
    StaleListed(a, stale);
    ElemsTake(stale, i);
    hide Lists, Stale, Freed, AddJob, Reclaimed, Keyed;
    var was, done := Elems(stale[..i]), Elems(stale[..i + 1]);
    forall k | k in done && k in a.jobs ensures exists n :: |published| <= n < |next| && next[n].job == Some(Reclaimed(a.jobs[k], now)) {
      if k in was {
        var n :| |published| <= n < |more| && more[n].job == Some(Reclaimed(a.jobs[k], now));
        assert next[n] == more[n];
      } else {
        assert next[|more|].job == Some(Reclaimed(a.jobs[k], now));
      }
    }
  }

  /** A subscription that finds something in the ring misses nothing published after its cursor. */
  lemma CaughtUp(feed: Feed, seqNo: uint64, cursor: uint64)
    requires feed.Valid() && !Refused(feed.ring, cursor)
    ensures InOrder(feed.published, seqNo) && feed.ring != [] ==> Plains(Since(feed.ring, cursor)) == Since(feed.published, cursor)
  {
    hide Since, F.Follows, F.UpToDate, RingBytes;
    SincePlain(feed.ring, cursor);
    if InOrder(feed.published, seqNo) && feed.ring != [] {
      CatchUpExact(feed.published, Plains(feed.ring), cursor);
    }
  }

  /** What is left of a redacted ring exposes nothing. */
  lemma TrimClean(c: Codec, o: Options, sensitive: Policy, ring: seq<Event>)
    requires o.Positive()
    ensures !F.RingExposed(sensitive, Trim(c, o, RedactRing(sensitive, ring)))
  {
    hide EventExposed, RedactEvent, Trim;
    var all := RedactRing(sensitive, ring);
    TrimLongest(c, o, all, 0);
    var kept := Trim(c, o, all);
    forall k | 0 <= k < |kept| ensures !EventExposed(sensitive, kept[k]) {
      EventRedacted(sensitive, ring[|all| - |kept| + k]);
    }
  }

  lemma TracksInv(g: Crash.Setup, n: Crash.Node, a: Abs, file: Bytes, seqNo: uint64, count: nat)
    requires Crash.Tracks(g, n, a, file, seqNo, count)
    ensures Crash.Inv(g, n) && n.disk.file.content == file
  {
    hide Crash.Inv;
  }

  lemma SnapshotOf(a: Abs, order: seq<string>, jobOrder: map<string, seq<string>>, seqNo: uint64)
    requires Ordering(a, order, jobOrder) && Orderable(a, order, jobOrder) && seqNo + |Records(a, order, jobOrder)| <= MAX_SEQ
    ensures Crash.IsSnapshotOf(a, seqNo, Compacted(a, order, jobOrder, seqNo))
  {
    hide Ordering, Orderable, Records, Compacted;
  }

  lemma CompactedLast(c: Codec, a: Abs, order: seq<string>, jobOrder: map<string, seq<string>>, seqNo: uint64)
    requires Linked(c, a) && Ordering(a, order, jobOrder) && Orderable(a, order, jobOrder)
    requires seqNo + |Records(a, order, jobOrder)| <= MAX_SEQ
    ensures var es := Compacted(a, order, jobOrder, seqNo);
            seqNo + |Records(a, order, jobOrder)| == if es == [] then seqNo else LastSeq(es)
  {
    hide Linked, Ordering, Orderable, Replay, Records;
    CompactedReplays(c, a, order, jobOrder, seqNo);
  }

  /** The rewritten file backs the state it was written from. */
  lemma PicturesState(c: Codec, a: Abs, order: seq<string>, jobOrder: map<string, seq<string>>, seqNo: uint64, m: Image)
    requires Linked(c, a) && Ordering(a, order, jobOrder) && Orderable(a, order, jobOrder)
    requires seqNo + |Records(a, order, jobOrder)| <= MAX_SEQ && Pictures(c, Compacted(a, order, jobOrder, seqNo), m)
    ensures var es := Compacted(a, order, jobOrder, seqNo);
            && m.content == Print(c, es)
            && RequestRefs(c, m.content, a.requests, m.requestRecord) && AttemptRefs(c, m.content, a.attempts, m.attemptRecord)
            && m.requestRecord.Keys == a.requests.Keys && m.attemptRecord.Keys == AttemptIDs(a)
            && (AllFit(c, es) ==> Fit(m.requestRecord) && Fit(m.attemptRecord))
  {
    hide Linked, Ordering, Orderable, Replay, Records, Compacted, AllFit, Fit, Print, IDsIn, HoldsRequest, HoldsAttempt;
    CompactedReplays(c, a, order, jobOrder, seqNo);
  }

  lemma BaresLength(a: Abs, order: seq<string>, jobOrder: map<string, seq<string>>, bares: seq<Event>)
    requires Orderable(a, order, jobOrder) && bares == Bares(Records(a, order, jobOrder))
    ensures |bares| == |Records(a, order, jobOrder)|
  {
  }

  lemma LinkedFacts(c: Codec, a: Abs)
    requires Linked(c, a)
    ensures Keyed(a) && UniqueKeys(a.requests)
  {
  }

  lemma WrittenLine(c: Codec, before: Bytes, e: Event, ref: RecordRef)
    requires c.Valid() && ref == RecordRef(|before|, |c.Line(e)|, e.seqNo)
    ensures Written(c, before, c.Line(e), e, ref)
  {
  }

  class Store {
    const codec: Codec
    const opts: Options
    const ix: Indexes
    const feed: Feed

    var seqNo: uint64
    var eventCount: nat
    var file: Bytes
    var health: Option<Error>
    var closed: bool

    /** The life of the log so far. */
    ghost var node: Crash.Node
    /** The sequence counter has not wrapped, and no snapshot record has outgrown the record limit. */
    ghost var sound: bool

    /** The store before recovery: the log file is open and nothing has been read. */
    constructor (codec: Codec, opts: Options, content: Bytes)
      ensures this.codec == codec && this.opts == opts.WithDefaults() && file == content && fresh(ix) && fresh(feed)
      ensures ix.codec == codec && ix.opts == this.opts && ix.Coherent() && ix.Complete() && ix.abs == EMPTY
      ensures ix.requestRecord == map[] && ix.attemptRecord == map[]
      ensures feed.codec == codec && feed.opts == this.opts && feed.Valid() && !feed.behind && !feed.stalled && feed.published == []
      ensures feed.subs == {} && seqNo == 0 && eventCount == 0 && health.None? && !closed
    {
      this.codec := codec;
      this.opts := opts.WithDefaults();
      ix := new Indexes(codec, opts.WithDefaults());
      feed := new Feed(codec, opts.WithDefaults());
      seqNo, eventCount, file, health, closed := 0, 0, content, None, false;
      node := Crash.Node(EMPTY, [], [], Crash.Alone(Crash.Image(content, 0)), 0, None, true);
      sound := true;
    }

    ghost function Setup(): Crash.Setup {
      Crash.Setup(codec, opts)
    }

    ghost function Flowing(): F.Setup {
      F.Setup(codec, opts)
    }

    ghost function Outside(): View
      reads this`file, this`node, this`seqNo, this`eventCount, this`health, feed
    {
      View(file, node.disk, seqNo, eventCount, health, feed.State())
    }

    /** Every reference points to the record it stands for. */
    ghost predicate Referenced()
      reads this`file, ix
    {
      && RequestRefs(codec, file, ix.abs.requests, ix.requestRecord)
      && AttemptRefs(codec, file, ix.abs.attempts, ix.attemptRecord)
    }

    ghost predicate Readable()
      reads ix
    {
      Fit(ix.requestRecord) && Fit(ix.attemptRecord)
    }

    ghost predicate Indexing()
      reads ix
    {
      && ix.codec == codec && ix.opts == opts && codec.Valid() && opts.Positive()
      && ix.Coherent() && ix.Complete() && Linked(codec, ix.abs)
    }

    /** While the store is sound, the end of the process at any time leaves a log that recovers to a state the store was in: the node
        is that of this file, which is one of the contents that may be left. While the store is also healthy, the log in the
        file is exactly the state in memory. */
    ghost predicate Durable()
      reads this`sound, this`node, this`health, this`file, this`seqNo, this`eventCount, ix
    {
      sound ==>
        && Crash.Inv(Setup(), node) && node.disk.file.content == file
        && (health.None? ==> Crash.Tracks(Setup(), node, ix.abs, file, seqNo, eventCount))
    }

    /** The indexes and the references, whatever the log says. */
    ghost predicate Shell()
      reads this`sound, this`file, ix
    {
      Indexing() && Referenced() && (sound ==> Readable())
    }

    /** The log tells the state `a`, which the state in memory is, or is the redaction of. */
    ghost predicate Telling(a: Abs, p: Option<Policy>)
      reads this`sound, this`node, this`file, this`seqNo, this`eventCount, ix
    {
      && ix.abs == Crash.Redacting(p, a)
      && (sound ==> Crash.Inv(Setup(), node) && Crash.Tracks(Setup(), node, a, file, seqNo, eventCount))
    }

    /** The log that is told is this file. */
    lemma ToldFile(a: Abs, p: Option<Policy>)
      requires Telling(a, p)
      ensures sound ==> node.disk.file.content == file
    {
      hide Crash.Inv, Crash.Redacting;
    }

    /** Everything but the stream. */
    ghost predicate Core()
      reads this`sound, this`node, this`health, this`file, this`seqNo, this`eventCount, ix
    {
      Shell() && Durable()
    }

    ghost predicate Streaming()
      reads this`sound, this`seqNo, this`health, feed
    {
      && feed.codec == codec && feed.opts == opts && feed.Valid()
      && (feed.stalled ==> health.Some?)
      && (sound ==> InOrder(feed.published, seqNo))
    }

    ghost predicate Valid()
      reads this, ix, feed
    {
      Core() && Streaming() && !feed.behind
    }

    /** The stream of a sound store is one that the theorems of `Flows` speak of. */
    lemma StreamsValid()
      requires Valid() && sound
      ensures F.FlowValid(Flowing(), feed.State())
    {
      hide Core, RingBytes, F.Follows, F.UpToDate, IsSuffix, Plains, Increasing;
      forall k | k in feed.chans ensures F.ChannelValid(Flowing(), feed.State(), k) {
      }
    }

    /** Whatever the path of a sound store may show after a power loss can be opened, to the state after the part of the
        history that it tells; the file as it stands is one of these contents. Of a healthy store it tells all, and a content that
        tells all opens to exactly the state of the store. */
    lemma Recoverable(i: Crash.Image)
      requires Valid() && sound
      ensures Crash.Inv(Setup(), node) && node.disk.file.content == file && node.disk.file in Crash.Images(node.disk)
      ensures health.None? ==> Crash.Live(node.disk) == Crash.Image(file, |node.hist|)
      ensures i in Crash.Images(node.disk) ==>
                && i.told <= |Crash.Full(node)| && Recover(codec, i.content).Ok?
                && Recover(codec, i.content).value.abs == After(node.base, Crash.Full(node)[..i.told])
                && (health.None? && i.told == |node.hist| ==> Recover(codec, i.content).value.abs == ix.abs)
    {
      assert Crash.Inv(Setup(), node) && node.disk.file.content == file;
      hide After, Crash.Explained, Replay, Recover, IsRun, Linked, AllFit, Unambiguous, Commits, Shell, Streaming, Crash.Ordered, Crash.NumbersUpTo;
      if health.None? {
        Crash.TracksTold(Setup(), node, ix.abs, file, seqNo, eventCount);
      }
      if i in Crash.Images(node.disk) {
        var es := Crash.Recovers(Setup(), node, i);
      }
    }

    /* ---- recovery ---- */

    ghost predicate Recovering(good: Bytes)
      reads ix
    {
      && ix.codec == codec && ix.opts == opts && opts.Positive() && ix.Coherent()
      && RequestRefs(codec, good, ix.abs.requests, ix.requestRecord) && AttemptRefs(codec, good, ix.abs.attempts, ix.attemptRecord)
      && Readable()
    }

    /** These events, and no others, have gone through the ring. */
    ghost predicate Presented(es: seq<Event>)
      reads this`seqNo, feed
    {
      && feed.codec == codec && feed.opts == opts && feed.Valid() && !feed.behind && !feed.stalled && feed.subs == {}
      && feed.published == Plains(es) && feed.ring == RingOf(codec, opts, es)
      && InOrder(feed.published, seqNo)
    }

    /** What has been read so far: the first `good` bytes, which are these lines. */
    ghost predicate Reading(content: Bytes, good: nat, lines: seq<Bytes>, mutated: bool)
      reads this`seqNo, this`eventCount, ix, feed
    {
      && good <= |content| && Split(content[..good]) == Lines(lines, [])
      && ReplayLines(codec, lines) == Ok(Recovered(ix.abs, seqNo, eventCount, mutated))
      && Recovering(content[..good])
      && (UnambiguousLines(codec, lines) ==> ix.Complete())
      && Presented(EventsOf(codec, lines))
    }

    lemma ReadingSplit(good: nat, lines: seq<Bytes>, mutated: bool)
      requires Reading(file, good, lines, mutated)
      ensures good <= |file| && Split(file[..good]) == Lines(lines, []) && ReplayLines(codec, lines).Ok?
    {
    }

    lemma TooLong(lines: seq<Bytes>, l: Bytes)
      requires ReplayLines(codec, lines).Ok? && |l| > MAX_EVENT_BYTES
      ensures ReplayLines(codec, lines + [l]) == Err(Oversize)
    {
      ReplayLinesSnoc(codec, lines, l);
    }

    lemma Finished(good: nat, lines: seq<Bytes>, mutated: bool)
      requires Reading(file, good, lines, mutated) && Split(file[good..]).complete == []
      requires Split(file).complete == lines + Split(file[good..]).complete
      requires Recovery.Recover(codec, file) == ReplayLines(codec, lines)
      ensures Recovery.Recover(codec, file) == Ok(Recovered(ix.abs, seqNo, eventCount, mutated))
      ensures Recovering(file[..good]) && Presented(EventsOf(codec, Split(file).complete))
      ensures UnambiguousLines(codec, Split(file).complete) ==> ix.Complete()
    {
      assert lines + [] == lines;
    }

    lemma UnambiguousSoFar(lines: seq<Bytes>, line: Bytes)
      ensures UnambiguousLines(codec, lines + [line]) ==> UnambiguousLines(codec, lines) && KeysUnique(ReplayLines(codec, lines + [line]))
    {
      hide ReplayLines, KeysUnique;
      var all := lines + [line];
      if UnambiguousLines(codec, all) {
        assert all[..|all|] == all;
        forall i | 0 <= i <= |lines| ensures KeysUnique(ReplayLines(codec, lines[..i])) {
          assert all[..i] == lines[..i];
        }
      }
    }

    /** `validateStateLocked`, answered from the indexes. */
    method ValidateState(e: Event) returns (ok: bool)
      requires ix.Coherent()
      ensures ok == StateValid(ix.abs, e)
    {
      hide IDsIn, Keyed, DedupSound;
      ok := true;
      if e.request.Some? && e.request.value.id in ix.requests {
        ok := false;
      }
      if e.job.Some? {
        var j := e.job.value;
        if j.id in ix.jobs {
          if ix.jobs[j.id].requestID != j.requestID || ix.jobs[j.id].url != j.url {
            ok := false;
          }
        } else if j.requestID !in ix.requests && !(e.request.Some? && e.request.value.id == j.requestID) {
          ok := false;
        }
      }
      if e.attempt.Some? {
        var x := e.attempt.value;
        if x.id in ix.attemptIDs {
          ok := false;
        }
        if x.requestID !in ix.requests && !(e.request.Some? && e.request.value.id == x.requestID) {
          ok := false;
        }
        if x.jobID !in ix.jobs && !(e.job.Some? && e.job.value.id == x.jobID) {
          ok := false;
        }
      }
    }

    /** The checks recovery makes of one record. */
    method Examine(line: Bytes, mutated: bool) returns (r: Result<Event, Error>)
      requires ix.Coherent() && |line| <= MAX_EVENT_BYTES
      ensures r.Err? ==> StepLine(codec, Recovered(ix.abs, seqNo, eventCount, mutated), line) == Err(r.error)
      ensures r.Ok? ==> codec.decode(line) == Some(r.value) && Check(codec, Recovered(ix.abs, seqNo, eventCount, mutated), r.value).None?
    {
      hide StateValid, EventValid, Apply, Indexes.Coherent;
      var decoded := codec.decode(line);
      if decoded.None? {
        return Err(Corrupt);
      }
      var e := decoded.value;
      if e.seqNo == 0 || (seqNo != 0 && e.seqNo != seqNo + 1) {
        return Err(SequenceGap);
      }
      if !EventValid(codec, e) {
        return Err(Invalid);
      }
      var ok := ValidateState(e);
      if !ok {
        return Err(Invalid);
      }
      if e.snapshot && mutated {
        return Err(SnapshotAfterMutation);
      }
      r := Ok(e);
    }

    lemma RefsStepped(e: Event, ref: RecordRef, reqs: map<string, RecordRef>, atts: map<string, RecordRef>)
      requires forall k :: k in ix.requestRecord ==>
                             if e.request.Some? && e.request.value.id == k then ix.requestRecord[k] == ref
                             else k in reqs && ix.requestRecord[k] == reqs[k]
      requires forall k :: k in ix.attemptRecord ==>
                             if e.attempt.Some? && e.attempt.value.id == k then ix.attemptRecord[k] == ref
                             else k in atts && ix.attemptRecord[k] == atts[k]
      ensures RefsStep(reqs, ix.requestRecord, RequestID(e), ref) && RefsStep(atts, ix.attemptRecord, AttemptID(e), ref)
    {
    }

    lemma Keys()
      requires ix.Coherent()
      ensures ix.requestRecord.Keys == ix.abs.requests.Keys && ix.attemptRecord.Keys == AttemptIDs(ix.abs)
    {
    }

    method IndexLine(e: Event, line: Bytes, good: Bytes)
      requires Recovering(good) && StateValid(ix.abs, e) && codec.decode(line) == Some(e) && IsLine(line) && |line| <= MAX_EVENT_BYTES
      modifies ix
      ensures Recovering(good + line) && ix.abs == Apply(old(ix.abs), e)
      ensures old(ix.Complete()) && UniqueKeys(ix.abs.requests) ==> ix.Complete()
    {
      hide Apply, StateValid, RequestRefs, AttemptRefs, Indexes.Complete, Indexes.Coherent, Fit, RefsStep, UniqueKeys;
      ghost var a, reqs, atts := ix.abs, ix.requestRecord, ix.attemptRecord;
      IndexFacts(ix);
      var ref := RecordRef(|good|, |line|, e.seqNo);
      ix.Apply(e, ref);
      RefsStepped(e, ref, reqs, atts);
      Keys();
      RequestRefsAfter(codec, a, good, line, e, ref, reqs, ix.requestRecord);
      AttemptRefsAfter(codec, a, good, line, e, ref, atts, ix.attemptRecord);
      FitAfter(reqs, ix.requestRecord, RequestID(e), ref);
      FitAfter(atts, ix.attemptRecord, AttemptID(e), ref);
    }

    method Present(e: Event, ghost es: seq<Event>)
      requires Presented(es) && e.seqNo > seqNo
      modifies this`seqNo, feed
      ensures Presented(es + [e]) && seqNo == e.seqNo
    {
      hide InOrder, RingOf, Trim, Plains, Feed.Valid;
      InOrderLater(feed.published, seqNo, e.seqNo);
      InOrderAppended(feed.published, e.seqNo, e);
      RingOfSnoc(codec, opts, es, e);
      feed.AppendRing(e);
      feed.Skip();
      seqNo := e.seqNo;
    }

    /** One line of the log. */
    method TakeLine(line: Bytes, good: nat, mutated: bool, ghost lines: seq<Bytes>) returns (r: Result<bool, Error>)
      requires Reading(file, good, lines, mutated) && good + |line| <= |file| && file[good..good + |line|] == line
      requires IsLine(line) && |line| <= MAX_EVENT_BYTES && Split(file[..good + |line|]) == Lines(lines + [line], [])
      modifies this`seqNo, this`eventCount, ix, feed
      ensures r.Ok? ==> Reading(file, good + |line|, lines + [line], r.value)
      ensures r.Err? ==> ReplayLines(codec, lines + [line]) == Err(r.error)
    {
      hide ReplayLines, Split, UnambiguousLines, Indexes.Coherent, Indexes.Complete, RequestRefs, AttemptRefs, Fit, Apply, StateValid, EventValid,
           Presented, EventsOf;
      ReplayLinesSnoc(codec, lines, line);
      ghost var st := Recovered(ix.abs, seqNo, eventCount, mutated);
      var checked := Examine(line, mutated);
      if checked.Err? {
        return Err(checked.error);
      }
      var e := checked.value;
      UnambiguousSoFar(lines, line);
      ghost var lengthened := file[..good] + line == file[..good + |line|];
      assert lengthened;
      IndexLine(e, line, file[..good]);
      EventsNext(codec, lines, line);
      Present(e, EventsOf(codec, lines));
      if !e.snapshot {
        eventCount := eventCount + 1;
      }
      r := Ok(mutated || !e.snapshot);
    }

    /** `recover`: read the log record by record, check each, take it in, and cut off what is left at the end. */
    method ReadLog(size: nat) returns (res: Option<Error>)
      requires size >= 1 && Reading(file, 0, [], false)
      modifies this`file, this`seqNo, this`eventCount, ix, feed
      ensures res.Some? ==> Recover(codec, old(file)) == Err(res.value)
      ensures res.None? ==>
                && file == old(file)[..Good(old(file))]
                && (exists mutated :: Recover(codec, old(file)) == Ok(Recovered(ix.abs, seqNo, eventCount, mutated)))
                && Recovering(file) && Presented(EventsOf(codec, Split(old(file)).complete))
                && (UnambiguousLines(codec, Split(old(file)).complete) ==> ix.Complete())
    {
      hide Reading, Recovering, Presented, ReplayLines, Split, UnambiguousLines, Recovery.Recover, EventsOf;
      var reader := new Reader(file);
      var mutated := false;
      ghost var lines: seq<Bytes> := [];
      while true
        invariant reader.Valid() && reader.data == file == old(file)
        invariant Reading(file, reader.pos, lines, mutated)
        decreases |file| - reader.pos
      {
        var good := reader.pos;
        ReadingSplit(good, lines, mutated);
        NextLine(codec, file, good, lines);
        var record := reader.ReadRecord(size);
        if record.Err? {
          TooLong(lines, Split(file[good..]).complete[0]);
          return Some(record.error);
        }
        if record.value.None? {
          Finished(good, lines, mutated);
          file := file[..good];
          assert Recovery.Recover(codec, old(file)) == Ok(Recovered(ix.abs, seqNo, eventCount, mutated));
          return None;
        }
        var line := record.value.value;
        LineTaken(file, good, reader.pos, lines);
        var taken := TakeLine(line, good, mutated, lines);
        if taken.Err? {
          return Some(taken.error);
        }
        mutated := taken.value;
        lines := lines + [line];
      }
    }

    lemma Blank()
      requires opts.Positive() && ix.codec == codec && ix.opts == opts && ix.Coherent() && ix.Complete() && ix.abs == EMPTY
      requires ix.requestRecord == map[] && ix.attemptRecord == map[]
      requires feed.codec == codec && feed.opts == opts && feed.Valid() && !feed.behind && !feed.stalled && feed.published == [] && feed.subs == {}
      requires seqNo == 0 && eventCount == 0
      ensures Reading(file, 0, [], false)
    {
      assert file[..0] == [];
    }

    /** A store recovered from what a run has left. */
    lemma Continued()
      requires codec.Valid() && Recovering(file) && ix.Complete()
      requires exists es :: Presented(es)
      requires Linked(codec, ix.abs)
      requires !closed && Crash.Tracks(Setup(), node, ix.abs, file, seqNo, eventCount)
      ensures Valid()
    {
      hide Linked, RequestRefs, AttemptRefs, Fit, InOrder, Indexes.Complete, Indexes.Coherent, Crash.Inv, Crash.Tracks;
      TracksInv(Setup(), node, ix.abs, file, seqNo, eventCount);
    }

    /** The write and the sync of one line. On failure the store is poisoned and some prefix of the line is in
        the file. */
    method WriteLine(line: Bytes, fault: Fault) returns (ok: bool, written: nat)
      requires health.None?
      modifies this`file, this`health
      ensures written <= |line| && file == old(file) + line[..written]
      ensures ok ==> health.None? && written == |line|
      ensures !ok ==> health.Some?
      ensures ok <==> !fault.WriteFails? && !fault.SyncFails?
    {
      written := if fault.WriteFails? && fault.written < |line| then fault.written else |line|;
      file := file + line[..written];
      ok := !fault.WriteFails? && !fault.SyncFails?;
      if !ok {
        health := Some(IO);
      }
    }

    /** The indexes take in a record that stands at the end of the file. */
    method TakeIn(e: Event, ghost before: Bytes, ghost op: Op)
      requires Indexing() && Commits(codec, opts, ix.abs, op, e) && file == before + codec.Line(e)
      requires RequestRefs(codec, before, ix.abs.requests, ix.requestRecord) && AttemptRefs(codec, before, ix.abs.attempts, ix.attemptRecord)
      modifies ix
      ensures ix.abs == Apply(old(ix.abs), e)
      ensures Indexing() && Referenced()
      ensures old(Readable()) && |codec.Line(e)| <= MAX_EVENT_BYTES ==> Readable()
    {
      hide Linked, Apply, Produces, EventValid, StateValid, RequestRefs, AttemptRefs, Indexes.Complete, Indexes.Coherent, Fit, RefsStep;
      ghost var a, reqs, atts := ix.abs, ix.requestRecord, ix.attemptRecord;
      LinkedFacts(codec, a);
      CommitLinked(codec, opts, a, op, e);
      LinkedFacts(codec, Apply(a, e));
      var ref := RecordRef(|file| - |codec.Line(e)|, |codec.Line(e)|, e.seqNo);
      ix.Apply(e, ref);
      RefsStepped(e, ref, reqs, atts);
      Keys();
      WrittenLine(codec, before, e, ref);
      RequestRefsAfter(codec, a, before, codec.Line(e), e, ref, reqs, ix.requestRecord);
      AttemptRefsAfter(codec, a, before, codec.Line(e), e, ref, atts, ix.attemptRecord);
      if Fit(reqs) && Fit(atts) && |codec.Line(e)| <= MAX_EVENT_BYTES {
        FitAfter(reqs, ix.requestRecord, RequestID(e), ref);
        FitAfter(atts, ix.attemptRecord, AttemptID(e), ref);
      }
    }

    /** The file has gained some prefix of the line, of which any part may be on the disk. */
    ghost predicate Lengthens(was: Bytes, disk: Crash.Disk, line: Bytes)
      reads this`file, this`sound, this`node
    {
      exists k: nat :: k <= |line| && file == was + line[..k] && (sound ==> node.disk == Crash.Write(disk, line, k))
    }

    method TakeInSound(e: Event, ghost before: Bytes, ghost op: Op)
      requires Indexing() && Commits(codec, opts, ix.abs, op, e) && file == before + codec.Line(e)
      requires RequestRefs(codec, before, ix.abs.requests, ix.requestRecord) && AttemptRefs(codec, before, ix.abs.attempts, ix.attemptRecord)
      requires |codec.Line(e)| <= MAX_EVENT_BYTES
      modifies ix
      ensures ix.abs == Apply(old(ix.abs), e) && Indexing() && Referenced() && (old(Readable()) ==> Readable())
    {
      hide *;
      TakeIn(e, before, op);
    }

    /** More bytes at the end of the file disturb no reference. */
    lemma Lengthened(before: Bytes, more: Bytes)
      requires file == before + more
      requires RequestRefs(codec, before, ix.abs.requests, ix.requestRecord) && AttemptRefs(codec, before, ix.abs.attempts, ix.attemptRecord)
      ensures Referenced()
    {
      RequestRefsLonger(codec, before, more, ix.abs.requests, ix.requestRecord);
      AttemptRefsLonger(codec, before, more, ix.abs.attempts, ix.attemptRecord);
    }

    ghost method NodeTorn(e: Event, op: Op, before: Bytes, k: nat)
      requires e.seqNo == NextSeq(seqNo) && !e.snapshot && |codec.Line(e)| <= MAX_EVENT_BYTES && k <= |codec.Line(e)|
      requires Commits(codec, opts, ix.abs, op, e) && file == before + codec.Line(e)[..k]
      requires sound ==> Crash.Tracks(Setup(), node, ix.abs, before, seqNo, eventCount)
      modifies this`node, this`sound
      ensures sound <==> old(sound) && seqNo < MAX_SEQ
      ensures sound ==> Crash.Inv(Setup(), node) && Crash.Reaches(Setup(), old(node), node)
      ensures sound ==> node.disk == Crash.Write(old(node.disk), codec.Line(e), k) && node.disk.file.content == file
    {
      hide Commits, Crash.Inv, Crash.Tracks, Crash.Reaches, Crash.Torn;
      if sound && seqNo < MAX_SEQ {
        Crash.TracksTorn(Setup(), node, ix.abs, before, seqNo, eventCount, Commit(op, e), k);
        node := Crash.Torn(Setup(), node, Commit(op, e), k);
      } else {
        sound := false;
      }
    }

    ghost method NodeAppended(e: Event, op: Op, before: Bytes, a: Abs)
      requires e.seqNo == NextSeq(seqNo) && !e.snapshot && |codec.Line(e)| <= MAX_EVENT_BYTES
      requires Commits(codec, opts, a, op, e) && ix.abs == Apply(a, e) && file == before + codec.Line(e)
      requires sound ==> Crash.Tracks(Setup(), node, a, before, seqNo, eventCount)
      modifies this`node, this`sound
      ensures sound <==> old(sound) && seqNo < MAX_SEQ
      ensures sound ==> Crash.Tracks(Setup(), node, ix.abs, file, e.seqNo, eventCount + 1) && Crash.Reaches(Setup(), old(node), node)
      ensures sound ==> Crash.Inv(Setup(), node) && node.disk == Crash.Extended(old(node.disk), codec.Line(e))
    {
      hide Commits, Apply, Crash.Inv, Crash.Tracks, Crash.Reaches, Crash.Appended;
      if sound && seqNo < MAX_SEQ {
        Crash.TracksAppended(Setup(), node, a, before, seqNo, eventCount, Commit(op, e));
        node := Crash.Appended(Setup(), node, Commit(op, e));
        TracksInv(Setup(), node, ix.abs, file, e.seqNo, eventCount + 1);
      } else {
        sound := false;
      }
    }

    /** Writing an admitted record, and taking it into the indexes once it is synced. */
    method Persist(e: Event, fault: Fault, ghost op: Op) returns (ok: bool)
      requires Core() && health.None? && e.seqNo == NextSeq(seqNo) && !e.snapshot
      requires Commits(codec, opts, ix.abs, op, e) && |codec.Line(e)| <= MAX_EVENT_BYTES
      modifies this`file, this`health, this`seqNo, this`eventCount, this`node, this`sound, ix
      ensures Core() && seqNo == e.seqNo
      ensures ok ==> health.None? && ix.abs == Apply(old(ix.abs), e) && file == old(file) + codec.Line(e) && eventCount == old(eventCount) + 1
      ensures !ok ==> health.Some? && ix.abs == old(ix.abs) && eventCount == old(eventCount) && Lengthens(old(file), old(node.disk), codec.Line(e))
      ensures ok && sound ==> node.disk == Crash.Extended(old(node.disk), codec.Line(e))
      ensures ok <==> !fault.WriteFails? && !fault.SyncFails?
      ensures sound <==> old(sound) && old(seqNo) < MAX_SEQ
      ensures sound ==> Crash.Reaches(Setup(), old(node), node)
    {
      hide Indexing, Readable, Linked, Apply, Commits, RequestRefs, AttemptRefs, Crash.Inv, Crash.Tracks, Crash.Reaches, Crash.Torn, Crash.Appended;
      ghost var before := file;
      var line := codec.Line(e);
      var written;
      ok, written := WriteLine(line, fault);
      if !ok {
        Lengthened(before, line[..written]);
        NodeTorn(e, op, before, written);
        seqNo := e.seqNo;
      } else {
        assert line[..written] == line;
        ghost var a := ix.abs;
        TakeInSound(e, before, op);
        NodeAppended(e, op, before, a);
        seqNo := e.seqNo;
        eventCount := eventCount + 1;
      }
    }

    /** The ghost side of a rewrite that goes through. */
    ghost method NodeRewritten(a: Abs, p: Option<Policy>, order: seq<string>, jobOrder: map<string, seq<string>>)
      requires Telling(a, p) && Linked(codec, ix.abs)
      requires Ordering(ix.abs, order, jobOrder) && Orderable(ix.abs, order, jobOrder)
      requires seqNo + |Records(ix.abs, order, jobOrder)| <= MAX_SEQ
      modifies this`node, this`sound
      ensures var n := |Records(ix.abs, order, jobOrder)|;
              var es := Compacted(ix.abs, order, jobOrder, seqNo);
              && (sound <==> old(sound) && AllFit(codec, es))
              && (sound ==> Crash.Tracks(Setup(), node, ix.abs, Print(codec, es), seqNo + n, 0) 
                             && node.disk == Crash.Alone(Crash.Image(Print(codec, es), old(node.disk.file.told) + Crash.Adds(p))))
      ensures sound ==> Crash.Inv(Setup(), node) && Crash.Reaches(Setup(), old(node), node)
      ensures old(sound) && SnapshotFits(codec, ix.abs) ==> sound
    {
      hide Linked, Records, Ordering, Orderable, Compacted, Crash.Inv, Crash.Tracks, Crash.Reaches, Crash.Rewritten, Crash.IsSnapshotOf, AllFit,
           Crash.Redacting;
      var es := Compacted(ix.abs, order, jobOrder, seqNo);
      if sound && AllFit(codec, es) {
        SnapshotOf(ix.abs, order, jobOrder, seqNo);
        Crash.TracksRewritten(Setup(), node, a, file, seqNo, eventCount, p, es);
        CompactedLast(codec, ix.abs, order, jobOrder, seqNo);
        node := Crash.Rewritten(Setup(), node, p, es);
        TracksInv(Setup(), node, ix.abs, Print(codec, es), seqNo + |Records(ix.abs, order, jobOrder)|, 0);
      } else {
        sound := false;
      }
    }

    /** The ghost side of a rewrite that fails after the rename. */
    ghost method NodeRenamed(a: Abs, p: Option<Policy>, order: seq<string>, jobOrder: map<string, seq<string>>)
      requires Telling(a, p)
      requires Ordering(ix.abs, order, jobOrder) && Orderable(ix.abs, order, jobOrder)
      requires seqNo + |Records(ix.abs, order, jobOrder)| <= MAX_SEQ
      modifies this`node, this`sound
      ensures sound <==> old(sound) && AllFit(codec, Compacted(ix.abs, order, jobOrder, seqNo))
      ensures sound ==> Crash.Inv(Setup(), node) && Crash.Reaches(Setup(), old(node), node)
      ensures sound ==>
                && node.disk.file.content == file
                && node.disk == Crash.Rename(old(node.disk), Crash.Image(Print(codec, Compacted(ix.abs, order, jobOrder, seqNo)),
                                                                        old(node.disk.file.told) + Crash.Adds(p)))
      ensures old(sound) && SnapshotFits(codec, ix.abs) ==> sound
    {
      hide Records, Ordering, Orderable, Compacted, Crash.Inv, Crash.Tracks, Crash.Reaches, Crash.Renamed, Crash.IsSnapshotOf, AllFit, Crash.Redacting;
      var es := Compacted(ix.abs, order, jobOrder, seqNo);
      if sound && AllFit(codec, es) {
        SnapshotOf(ix.abs, order, jobOrder, seqNo);
        Crash.TracksRenamed(Setup(), node, a, file, seqNo, eventCount, p, es);
        node := Crash.Renamed(Setup(), node, p, es);
      } else {
        sound := false;
      }
    }

    /** The log is a snapshot of the state, numbered after `start`. */
    ghost predicate Rewritten(start: uint64)
      reads this`file, this`seqNo, ix
    {
      exists order, jobOrder ::
        && Ordering(ix.abs, order, jobOrder) && Orderable(ix.abs, order, jobOrder)
        && start + |Records(ix.abs, order, jobOrder)| == seqNo
        && file == Print(codec, Compacted(ix.abs, order, jobOrder, start))
    }

    lemma SetRewritten(start: uint64, order: seq<string>, jobOrder: map<string, seq<string>>)
      requires Ordering(ix.abs, order, jobOrder) && Orderable(ix.abs, order, jobOrder) && start + |Records(ix.abs, order, jobOrder)| == seqNo
      requires file == Print(codec, Compacted(ix.abs, order, jobOrder, start))
      ensures Rewritten(start)
    {
    }

    /** What the path may show after a rewrite of the log, which tells `more` entries than the log before: what it showed before,
        if the rename was not reached; that or the snapshot, if what follows the rename failed; and otherwise the snapshot alone. */
    ghost predicate Replaced(fault: RewriteFault, start: uint64, was: Crash.Disk, more: nat)
      reads this`file, this`seqNo, this`sound, this`node, ix
    {
      match fault
      case BeforeRename => node.disk == was
      case AfterRename =>
        sound ==> exists order, jobOrder ::
          && Ordering(ix.abs, order, jobOrder) && Orderable(ix.abs, order, jobOrder)
          && start + |Records(ix.abs, order, jobOrder)| <= MAX_SEQ
          && node.disk == Crash.Rename(was, Crash.Image(Print(codec, Compacted(ix.abs, order, jobOrder, start)), was.file.told + more))
      case _ => Rewritten(start) && (sound ==> node.disk == Crash.Alone(Crash.Image(file, was.file.told + more)))
    }

    lemma SetReplaced(start: uint64, was: Crash.Disk, more: nat, order: seq<string>, jobOrder: map<string, seq<string>>)
      requires Ordering(ix.abs, order, jobOrder) && Orderable(ix.abs, order, jobOrder)
      requires start + |Records(ix.abs, order, jobOrder)| <= MAX_SEQ
      requires sound ==>
                 node.disk == Crash.Rename(was, Crash.Image(Print(codec, Compacted(ix.abs, order, jobOrder, start)), was.file.told + more))
      ensures Replaced(AfterRename, start, was, more)
    {
    }

    /** How a compaction fails: nothing is written because the sequence numbers do not suffice, or the rewrite fails. */
    ghost predicate Halted(fault: RewriteFault, start: uint64, was: Crash.Disk, more: nat)
      reads this`file, this`seqNo, this`sound, this`node, ix
    {
      (!fault.RewriteWorks? && Replaced(fault, start, was, more)) || (Exhausted(ix.abs, start) && node.disk == was)
    }

    /** The new file takes the place of the old one, and the new references that of the old ones. */
    method Replace(m: Image, n: nat, ghost a: Abs, ghost p: Option<Policy>, ghost order: seq<string>, ghost jobOrder: map<string, seq<string>>)
      requires Shell() && Telling(a, p) && health.None?
      requires Ordering(ix.abs, order, jobOrder) && Orderable(ix.abs, order, jobOrder)
      requires n == |Records(ix.abs, order, jobOrder)| && seqNo + n <= MAX_SEQ
      requires Pictures(codec, Compacted(ix.abs, order, jobOrder, seqNo), m)
      modifies this`file, this`seqNo, this`eventCount, this`node, this`sound, ix`requestRecord, ix`attemptRecord
      ensures Core() && seqNo == old(seqNo) + n && eventCount == 0 && Rewritten(old(seqNo))
      ensures sound ==> node.disk == Crash.Alone(Crash.Image(file, old(node.disk.file.told) + Crash.Adds(p)))
      ensures sound ==> old(sound) && Crash.Reaches(Setup(), old(node), node)
      ensures old(sound) && SnapshotFits(codec, ix.abs) ==> sound
    {
      hide Linked, RequestRefs, AttemptRefs, Records, Ordering, Orderable, Compacted, Fit, Crash.Inv, Crash.Tracks, Crash.Reaches, Pictures,
           Indexes.Complete, Indexes.Coherent, SnapshotFits, Telling;
      ghost var b, start := ix.abs, seqNo;
      PicturesState(codec, b, order, jobOrder, seqNo, m);
      NodeRewritten(a, p, order, jobOrder);
      file := m.content;
      if n > 0 {
        seqNo := seqNo + n;
      }
      eventCount := 0;
      ix.SetRefs(m.requestRecord, m.attemptRecord);
      SetRewritten(start, order, jobOrder);
    }

    /** The replacement of the log file, with the ways it can fail. */
    method Install(fault: RewriteFault, m: Image, n: nat, ghost a: Abs, ghost p: Option<Policy>,
                   ghost order: seq<string>, ghost jobOrder: map<string, seq<string>>) returns (ok: bool)
      requires Shell() && Telling(a, p) && health.None?
      requires Ordering(ix.abs, order, jobOrder) && Orderable(ix.abs, order, jobOrder)
      requires n == |Records(ix.abs, order, jobOrder)| && seqNo + n <= MAX_SEQ
      requires Pictures(codec, Compacted(ix.abs, order, jobOrder, seqNo), m)
      modifies this`file, this`health, this`seqNo, this`eventCount, this`node, this`sound, ix`requestRecord, ix`attemptRecord
      ensures Core() && ix.abs == old(ix.abs) && seqNo >= old(seqNo)
      ensures ok ==> health.None? && eventCount == 0 && Rewritten(old(seqNo))
      ensures !ok ==> health.Some?
      ensures ok <==> fault.RewriteWorks?
      ensures Replaced(fault, old(seqNo), old(node.disk), Crash.Adds(p))
      ensures sound ==> old(sound) && Crash.Reaches(Setup(), old(node), node)
      ensures old(sound) && SnapshotFits(codec, ix.abs) ==> sound
    {
      hide Indexing, Referenced, Readable, Records, Ordering, Orderable, Compacted, Crash.Inv, Crash.Tracks, Crash.Reaches, Pictures,
           Rewritten, SnapshotFits, Crash.Redacting;
      Crash.ReachesSelf(Setup(), node);
      ToldFile(a, p);
      if fault.BeforeRename? {
        health := Some(IO);
      } else if fault.AfterRename? {
        NodeRenamed(a, p, order, jobOrder);
        SetReplaced(seqNo, old(node.disk), Crash.Adds(p), order, jobOrder);
        health := Some(IO);
      } else {
        Replace(m, n, a, p, order, jobOrder);
        if fault.OldCloseFails? {
          health := Some(IO);
        }
      }
      ok := fault.RewriteWorks?;
    }

    /** `compactLocked`, and the poisoning its callers answer a failure with. The log tells the state `a`; what is written
        is the state in memory, which is `a` or its redaction. */
    method Compact(fault: RewriteFault, ghost a: Abs, ghost p: Option<Policy>) returns (ok: bool)
      requires Shell() && Telling(a, p) && health.None?
      modifies this`file, this`health, this`seqNo, this`eventCount, this`node, this`sound, ix`requestRecord, ix`attemptRecord
      ensures Core() && ix.abs == old(ix.abs) && seqNo >= old(seqNo)
      ensures ok ==> health.None? && eventCount == 0 && Rewritten(old(seqNo)) && fault.RewriteWorks?
      ensures if ok then Replaced(fault, old(seqNo), old(node.disk), Crash.Adds(p))
              else health.Some? && (old(sound) ==> Halted(fault, old(seqNo), old(node.disk), Crash.Adds(p)))
      ensures !ok && old(sound) ==> !fault.RewriteWorks? || Exhausted(ix.abs, old(seqNo))
      ensures sound ==> old(sound) && Crash.Reaches(Setup(), old(node), node)
      ensures old(sound) && SnapshotFits(codec, ix.abs) ==> sound
    {
      hide Linked, RequestRefs, AttemptRefs, Records, Ordering, Orderable, Compacted, Fit, Bares, Crash.Inv, Crash.Tracks, Crash.Reaches,
           Indexes.Complete, Indexes.Coherent, Pictures, Crash.Redacting, Rewritten, SnapshotFits, Replaced;
      Crash.ReachesSelf(Setup(), node);
      ToldFile(a, p);
      var bares, order, jobOrder := SnapshotRecords(ix);
      BaresLength(ix.abs, order, jobOrder, bares);
      if |bares| > MAX_SEQ - seqNo {
        health := Some(SequenceExhausted);
        ok := false;
      } else {
        var r := Rewrite(codec, file, ix.requestRecord, ix.attemptRecord, bares, seqNo, ix.abs, order, jobOrder);
        if r.Err? {
          health := Some(r.error);
          ok := false;
        } else {
          ok := Install(fault, r.value, |bares|, a, p, order, jobOrder);
        }
      }
    }

    lemma CoreTells()
      requires Core() && health.None?
      ensures Shell() && Telling(ix.abs, None)
    {
      hide Indexing, Referenced, Readable, Crash.Inv, Crash.Tracks;
    }

    /** The ring takes in a record that is in the log, and the log is compacted if it has grown too long. */
    method Settle(x: Event, env: Env) returns (ok: bool)
      requires Core() && Streaming() && !feed.behind && health.None? && !closed && x.seqNo == seqNo
      requires sound ==> forall e :: e in feed.published ==> e.seqNo < x.seqNo
      modifies this`file, this`health, this`seqNo, this`eventCount, this`node, this`sound, ix`requestRecord, ix`attemptRecord, feed
      ensures Core() && Streaming() && ix.abs == old(ix.abs)
      ensures feed.ring == Trim(codec, opts, old(feed.ring) + [x]) && feed.published == old(feed.published) + [Plain(x)]
      ensures feed.subs == old(feed.subs) && feed.chans == old(feed.chans) && feed.joined == old(feed.joined) && feed.taken == old(feed.taken)
      ensures ok ==> health.None? && feed.behind && !feed.stalled && (old(eventCount) > opts.maxEvents ==> env.rewrite.RewriteWorks?)
                     && (if old(eventCount) > opts.maxEvents then
                           eventCount == 0 && Rewritten(old(seqNo)) && (sound ==> node.disk == Crash.Alone(Crash.Image(file, old(node.disk.file.told))))
                         else eventCount == old(eventCount) && seqNo == old(seqNo) && file == old(file) && node.disk == old(node.disk))
      ensures !ok ==> health.Some? && !feed.behind && feed.stalled && old(eventCount) > opts.maxEvents
                      && (old(sound) ==> Halted(env.rewrite, old(seqNo), old(node.disk), 0) && (!env.rewrite.RewriteWorks? || Exhausted(ix.abs, old(seqNo))))
      ensures sound ==> old(sound) && Crash.Reaches(Setup(), old(node), node)
      ensures old(sound) && SnapshotFits(codec, ix.abs) ==> sound
    {
      hide Core, InOrder, Exhausted, Halted, SnapshotFits, Crash.Reaches, Feed.Valid, Trim, Rewritten, Telling, Shell;
      Crash.ReachesSelf(Setup(), node);
      InOrderAppended(feed.published, seqNo, x);
      CoreTells();
      feed.AppendRing(x);
      ok := true;
      if eventCount > opts.maxEvents {
        ok := Compact(env.rewrite, ix.abs, None);
        InOrderLater(feed.published, x.seqNo, seqNo);
        if !ok {
          feed.Stall();
        }
      }
    }

    lemma ReachesOn(first: Crash.Node, mid: Crash.Node)
      requires sound ==> Crash.Reaches(Setup(), first, mid) && Crash.Reaches(Setup(), mid, node)
      ensures sound ==> Crash.Reaches(Setup(), first, node)
    {
      hide Crash.Reaches;
      if sound {
        Crash.ReachesTrans(Setup(), first, mid, node);
      }
    }

    /** Where the event is: synced at the end of the log, or, if the log had grown too long, in a snapshot of the state numbered after
        it, which is then for certain what the path names. */
    ghost predicate Logged(x: Event, v: View)
      reads this`file, this`seqNo, this`eventCount, this`sound, this`node, ix
    {
      if v.eventCount + 1 > opts.maxEvents then
        eventCount == 0 && Rewritten(x.seqNo) && (sound ==> node.disk == Crash.Alone(Crash.Image(file, v.disk.file.told + 1)))
      else
        && eventCount == v.eventCount + 1 && seqNo == x.seqNo && file == v.file + codec.Line(x)
        && (sound ==> node.disk == Crash.Extended(v.disk, codec.Line(x)))
    }

    /** The ring and the published events have taken in the event. */
    ghost predicate Taken(x: Event, f: F.Flow)
      reads feed`ring, feed`published
    {
      feed.published == f.published + [Plain(x)] && feed.ring == Trim(codec, opts, f.ring + [x])
    }

    /** What a failure after the checks leaves behind. If the write or the sync failed, the state is as before and the file
        has gained a prefix of the record. Otherwise the compaction that was due has failed, and the event is
        committed: it is in the log, in the state and in the ring, but no subscriber will be sent it. */
    ghost predicate Fails(x: Event, env: Env, v: View, a: Abs)
      reads this`file, this`seqNo, this`eventCount, this`sound, this`node, ix, feed
    {
      if env.fault.WriteFails? || env.fault.SyncFails? then
        ix.abs == a && feed.State() == v.flow && eventCount == v.eventCount && Lengthens(v.file, v.disk, codec.Line(x))
      else
        && v.eventCount + 1 > opts.maxEvents && ix.abs == Apply(a, x) && Taken(x, v.flow) && feed.stalled
        && (sound ==> Halted(env.rewrite, x.seqNo, Crash.Extended(v.disk, codec.Line(x)), 0))
    }

    /** The write, the indexes, the ring, and the compaction that may be due. The subscribers come after. */
    method Write(x: Event, env: Env, ghost op: Op) returns (ok: bool)
      requires Valid() && health.None? && !closed && x.seqNo == NextSeq(seqNo) && !x.snapshot
      requires Commits(codec, opts, ix.abs, op, x) && |codec.Line(x)| <= MAX_EVENT_BYTES
      modifies this`file, this`health, this`seqNo, this`eventCount, this`node, this`sound, ix, feed
      ensures Core() && Streaming()
      ensures feed.subs == old(feed.subs) && feed.chans == old(feed.chans) && feed.joined == old(feed.joined) && feed.taken == old(feed.taken)
      ensures ok ==> health.None? && ix.abs == Apply(old(ix.abs), x) && feed.behind && !feed.stalled && Taken(x, old(feed.State()))
                     && !env.fault.WriteFails? && !env.fault.SyncFails? && (old(eventCount) + 1 > opts.maxEvents ==> env.rewrite.RewriteWorks?)
                     && Logged(x, old(Outside()))
      ensures !ok ==> health.Some? && !feed.behind && Fails(x, env, old(Outside()), old(ix.abs))
      ensures !ok && old(sound) ==>
                || env.fault.WriteFails? || env.fault.SyncFails?
                || (old(eventCount) + 1 > opts.maxEvents
                    && (old(seqNo) == MAX_SEQ || !env.rewrite.RewriteWorks? || Exhausted(Apply(old(ix.abs), x), x.seqNo)))
      ensures sound ==> old(sound) && old(seqNo) < MAX_SEQ && Crash.Reaches(Setup(), old(node), node)
      ensures old(sound) && !sound ==> old(seqNo) == MAX_SEQ || !SnapshotFits(codec, ix.abs)
    {
      hide Core, Commits, Apply, InOrder, Exhausted, SnapshotFits, Crash.Reaches, Trim, Feed.Valid, Lengthens, Rewritten, Halted;
      ok := Persist(x, env.fault, op);
      InOrderLater(feed.published, old(seqNo), seqNo);
      if ok {
        ghost var mid := node;
        ok := Settle(x, env);
        ReachesOn(old(node), mid);
      }
    }

    lemma CoherentIndexes()
      requires Core()
      ensures ix.Coherent() && ix.codec == codec && ix.opts == opts && opts.Positive() && Linked(codec, ix.abs) && ix.Complete()
      ensures codec.Valid()
    {
    }

    /** `poison`: the first failure stays. */
    method Fail(error: Error)
      requires Valid()
      modifies this`health
      ensures Valid() && health == if old(health.None?) then Some(error) else old(health)
    {
      hide Indexing, Referenced, Readable, Crash.Inv, Crash.Tracks, InOrder;
      if health.None? {
        health := Some(error);
      }
    }

    /** The event is one that the checks let through, and nothing fails before the write. */
    ghost predicate Admissible(x: Event, env: Env, a: Abs) {
      && EventValid(codec, x) && StateValid(a, x) && |codec.Line(x)| <= MAX_EVENT_BYTES
      && (env.fault.NoFault? || env.fault.WriteFails? || env.fault.SyncFails?)
    }

    /** The checks an event passes before it is written. */
    method Admit(e: Event, env: Env, ghost op: Op) returns (r: Result<Event, Error>)
      requires Valid() && Produces(opts, ix.abs, op, e)
      modifies this`health
      ensures Valid()
      ensures r.Ok? <==> !closed && old(health.None?) && Admissible(Stamped(e, seqNo, env.now), env, ix.abs)
      ensures r.Err? ==> !r.error.Capacity?
      ensures r.Ok? ==> && health == old(health) && r.value == Stamped(e, seqNo, env.now)
                        && Commits(codec, opts, ix.abs, op, r.value) && |codec.Line(r.value)| <= MAX_EVENT_BYTES
      ensures old(health.Some?) || closed || !env.fault.HookFails? ==> health == old(health)
    {
      hide Core, Streaming, Produces, StateValid, EventValid;
      var x := Stamped(e, seqNo, env.now);
      ProducesStamped(opts, ix.abs, op, e, seqNo, env.now);
      CoherentIndexes();
      var sane := ValidateState(x);
      if closed {
        r := Err(Closed);
      } else if health.Some? {
        r := Err(Poisoned);
      } else if !EventValid(codec, x) || !sane {
        r := Err(Invalid);
      } else if env.fault.HookFails? {
        Fail(IO);
        r := Err(IO);
      } else if env.fault.EncodingFails? {
        r := Err(IO);
      } else if |codec.Line(x)| > MAX_EVENT_BYTES {
        r := Err(Oversize);
      } else if env.fault.SeekFails? {
        r := Err(IO);
      } else {
        r := Ok(x);
      }
    }

    /** The stream has only shown events before the next one. */
    lemma Earlier(was: uint64, x: Event)
      requires Streaming() && was == seqNo && x.seqNo == NextSeq(seqNo)
      ensures sound && seqNo < MAX_SEQ ==> forall y :: y in feed.published ==> y.seqNo < x.seqNo
    {
    }

    /** Every subscriber has been sent the event, or has been closed and dropped because its channel was full. */
    ghost predicate Offered(f: F.Flow, e: Event)
      reads feed`subs, feed`chans
    {
      F.IsOffered(f.subs, f.chans, e, opts.subscriberBacklog, feed.subs, feed.chans)
    }

    /** The write, and what follows from it for the subscribers. */
    method AppendAdmitted(x: Event, env: Env, ghost op: Op) returns (r: Result<Event, Error>)
      requires Valid() && health.None? && !closed && x.seqNo == NextSeq(seqNo) && !x.snapshot
      requires Commits(codec, opts, ix.abs, op, x) && |codec.Line(x)| <= MAX_EVENT_BYTES
      modifies this`file, this`health, this`seqNo, this`eventCount, this`node, this`sound, ix, feed
      ensures Valid()
      ensures r.Ok? ==> r.value == x && health.None? && ix.abs == Apply(old(ix.abs), x)
                        && !env.fault.WriteFails? && !env.fault.SyncFails? && (old(eventCount) + 1 > opts.maxEvents ==> env.rewrite.RewriteWorks?)
                        && Logged(x, old(Outside())) && Taken(x, old(feed.State())) && Offered(old(feed.State()), x)
      ensures r.Err? ==> !r.error.Capacity? && health.Some? && Fails(x, env, old(Outside()), old(ix.abs)) && feed.subs == old(feed.subs) && feed.chans == old(feed.chans)
      ensures r.Err? && old(sound) ==>
                || env.fault.WriteFails? || env.fault.SyncFails?
                || (old(eventCount) + 1 > opts.maxEvents
                    && (old(seqNo) == MAX_SEQ || !env.rewrite.RewriteWorks? || Exhausted(Apply(old(ix.abs), x), x.seqNo)))
      ensures sound ==> old(sound) && Crash.Reaches(Setup(), old(node), node)
      ensures F.Carries(Flowing(), old(feed.State()), feed.State(), sound)
      ensures old(sound) && !sound ==> old(seqNo) == MAX_SEQ || !SnapshotFits(codec, ix.abs)
    {
      hide Core, Apply, Commits, Exhausted, SnapshotFits, Crash.Reaches, Trim, F.Carries, Lengthens, Logged, Halted;
      ghost var f := feed.State();
      Earlier(seqNo, x);
      var ok := Write(x, env, op);
      if ok {
        feed.Publish(x);
        r := Ok(x);
      } else {
        r := Err(IO);
      }
      if feed.State() == f {
        F.CarriesSelf(Flowing(), f, sound);
      } else {
        F.CarriesAppend(Flowing(), f, x, feed.State(), sound);
      }
    }

    /** What is left of an append that returns an error. A closed or poisoned store does not change at all. An event that
        is not admissible changes nothing, but that a failing hook poisons the store. An admissible one leaves the state
        as it was if the write or the sync failed, and is committed otherwise. */
    ghost predicate Unappended(e: Event, env: Env, op: Op, v: View, a: Abs)
      reads this, ix, feed
    {
      var x := Stamped(e, v.seqNo, env.now);
      if v.health.Some? || closed then Outside() == v && ix.abs == a
      else if !Admissible(x, env, a) then
        Outside() == v.(health := health) && ix.abs == a && (health == v.health || env.fault.HookFails?)
      else
        health.Some? && Fails(x, env, v, a)
    }

    /** The event as it was recorded, and the state it led to. */
    ghost predicate Appended(e: Event, env: Env, was: uint64, a: Abs, op: Op, x: Event)
      reads ix`abs
    {
      x == Stamped(e, was, env.now) && Commits(codec, opts, a, op, x) && ix.abs == Apply(a, x)
    }

    /** An operation that has gone through: an event with these parts is committed and synced, it has the next number, and
        it is in the ring and has been offered to every subscriber. */
    ghost predicate Announced(a: Abs, v: View, op: Op, request: Option<Request>, attempt: Option<Attempt>, job: Option<Job>)
      reads this`file, this`seqNo, this`eventCount, this`health, this`sound, this`node, ix, feed
    {
      v.health.None? && health.None? && exists e ::
        && Commits(codec, opts, a, op, e) && ix.abs == Apply(a, e) && e.seqNo == NextSeq(v.seqNo)
        && e.request == request && e.attempt == attempt && e.job == job
        && Logged(e, v) && Taken(e, v.flow) && Offered(v.flow, e)
    }

    lemma Announces(e: Event, env: Env, a: Abs, v: View, op: Op, x: Event)
      requires Appended(e, env, v.seqNo, a, op, x) && Logged(x, v) && Taken(x, v.flow) && Offered(v.flow, x) && v.health.None? && health.None?
      ensures Announced(a, v, op, e.request, e.attempt, e.job)
    {
      hide Commits, Apply, Logged, Taken, Offered;
    }

    /** Why a valid event may still not be appended. */
    ghost predicate Unwritable(e: Event, env: Env, was: uint64, a: Abs, count: nat) {
      var x := Stamped(e, was, env.now);
      || |codec.Line(x)| > MAX_EVENT_BYTES || !env.fault.NoFault?
      || (count + 1 > opts.maxEvents && (was == MAX_SEQ || !env.rewrite.RewriteWorks? || Exhausted(Apply(a, x), x.seqNo)))
    }

    /** Why a healthy, sound store may fail to append: the event is invalid or too long, the file system
        failed, or compaction was due and ran out of sequence numbers. */
    ghost predicate Excused(e: Event, env: Env, was: uint64, a: Abs, count: nat) {
      !EventValid(codec, Stamped(e, was, env.now)) || !StateValid(a, Stamped(e, was, env.now)) || Unwritable(e, env, was, a, count)
    }

    /** `appendLocked`: the one way into the log. An error means that the event is committed exactly if it was
        admissible, was written and synced, and the compaction it made necessary has failed; see `Unappended`. */
    method AppendLocked(e: Event, env: Env, ghost op: Op) returns (r: Result<Event, Error>)
      requires Valid() && Produces(opts, ix.abs, op, e)
      modifies this`file, this`health, this`seqNo, this`eventCount, this`node, this`sound, ix, feed
      ensures Valid()
      ensures r.Ok? ==> Appended(e, env, old(seqNo), old(ix.abs), op, r.value) && old(health.None?) && health.None?
                        && env.fault.NoFault? && (old(eventCount) + 1 > opts.maxEvents ==> env.rewrite.RewriteWorks?)
                        && Logged(r.value, old(Outside())) && Taken(r.value, old(feed.State())) && Offered(old(feed.State()), r.value)
      ensures r.Ok? ==> Announced(old(ix.abs), old(Outside()), op, e.request, e.attempt, e.job)
      ensures r.Ok? ==> r.value == e.(seqNo := r.value.seqNo, snapshot := false, at := if e.at == 0 then env.now else e.at)
                        && r.value.seqNo == if old(seqNo) == MAX_SEQ then 0 else old(seqNo) + 1
      ensures r.Err? ==> !r.error.Capacity? && Unappended(e, env, op, old(Outside()), old(ix.abs))
      ensures r.Err? ==> ix.abs == old(ix.abs) || (health.Some? && Appended(e, env, old(seqNo), old(ix.abs), op, Stamped(e, old(seqNo), env.now)))
      ensures r.Err? && old(sound && health.None?) && !closed ==> Excused(e, env, old(seqNo), old(ix.abs), old(eventCount))
      ensures sound ==> old(sound) && Crash.Reaches(Setup(), old(node), node)
      ensures F.Carries(Flowing(), old(feed.State()), feed.State(), sound)
      ensures old(sound) && !sound ==> old(seqNo) == MAX_SEQ || !SnapshotFits(codec, ix.abs)
    {
      hide Core, Streaming, Apply, Produces, StateValid, EventValid, Exhausted, SnapshotFits, Crash.Reaches, Trim, Offered, Taken, F.Carries, Lengthens, Logged, Halted, Announced,
           Linked, Indexes.Coherent, Indexes.Complete;
      Crash.ReachesSelf(Setup(), node);
      F.CarriesSelf(Flowing(), feed.State(), sound);
      ghost var a, v := ix.abs, Outside();
      r := Admit(e, env, op);
      if r.Ok? {
        r := AppendAdmitted(r.value, env, op);
        if r.Ok? {
          Announces(e, env, a, v, op, r.value);
        }
      }
    }

    /* ---- reading, redaction, and the end ---- */

    /** `Load`: the request with its body and its attempts with theirs, as they were captured and recorded. It
        fails, and poisons the store, only when the file is closed or a snapshot record has outgrown the record
        limit. */
    method Load(id: string) returns (r: Result<Option<(Request, seq<Attempt>)>, Error>)
      requires Valid()
      modifies this`health
      ensures Valid()
      ensures id !in ix.abs.requests ==> r == Ok(None) && health == old(health)
      ensures id in ix.abs.requests && r.Ok? ==> r.value == Some((ix.abs.requests[id], AttemptsOf(ix.abs, id))) && health == old(health)
      ensures r.Err? ==> health.Some? && (old(health.Some?) ==> health == old(health))
      ensures r.Err? ==> closed || !Readable()
    {
      hide Durable, Streaming, RequestRefs, AttemptRefs, Fit, Linked, Indexes.Complete, Indexes.Coherent;
      IndexFacts(ix);
      if id !in ix.requests {
        return Ok(None);
      }
      var error := IO;
      if !closed {
        var full := LoadFull(codec, file, ix, id);
        if full.Ok? {
          return Ok(Some(full.value));
        }
        error := full.error;
      }
      Fail(error);
      r := Err(error);
    }

    /** `Close`. */
    method Close()
      requires Valid()
      modifies this`closed, feed
      ensures Valid() && closed && feed.published == old(feed.published) && feed.ring == old(feed.ring)
      ensures if old(closed) then feed.State() == old(feed.State())
              else feed.subs == {} && F.LeaveStep(old(feed.State()), old(feed.subs), feed.State())
    {
      hide Core, InOrder;
      if !closed {
        closed := true;
        feed.CloseAll();
      }
    }

    /** `SubscribeFrom`. */
    method SubscribeFrom(cursor: uint64) returns (r: Result<(seq<Event>, nat), Error>)
      requires Valid()
      modifies feed`subs, feed`chans, feed`joined, feed`taken
      ensures Valid()
      ensures r.Err? <==> feed.ring != [] && cursor + 1 < feed.ring[0].seqNo
      ensures r.Ok? ==> forall e :: e in r.value.0 <==> e in feed.ring && e.seqNo > cursor
      ensures r.Ok? ==> var (events, k) := r.value;
                        events == Since(feed.ring, cursor) && F.JoinStep(old(feed.State()), k, feed.State())
      ensures r.Ok? && sound && feed.ring != [] ==> Plains(r.value.0) == Since(feed.published, cursor)
    {
      hide Core, Since, Plains, InOrder, Feed.Valid;
      r := feed.SubscribeFrom(cursor);
      if r.Ok? {
        CaughtUp(feed, seqNo, cursor);
      }
    }

    /** The in-memory part of a redaction. */
    method RedactIndexes(sensitive: Policy) returns (changed: bool)
      requires Core() && health.None?
      modifies ix
      ensures Shell() && Telling(old(ix.abs), if changed then Some(sensitive) else None)
      ensures ix.abs == RedactAbs(sensitive, old(ix.abs))
      ensures (changed <==> AbsExposed(sensitive, old(ix.abs))) && (!changed ==> ix.abs == old(ix.abs) && Core())
    {
      hide Linked, RequestRefs, AttemptRefs, Fit, Indexes.Complete, Indexes.Coherent, Crash.Inv, Crash.Tracks, AbsExposed, RedactAbs;
      RedactLinked(codec, sensitive, ix.abs);
      RedactRefs(codec, sensitive, file, ix.abs, ix.requestRecord, ix.attemptRecord);
      AbsRedacted(sensitive, ix.abs);
      changed := ix.RedactAll(sensitive);
    }

    lemma RewrittenClean(sensitive: Policy, a: Abs, start: uint64)
      requires codec.Valid() && Rewritten(start) && ix.abs == RedactAbs(sensitive, a)
      ensures CleanLog(codec, sensitive, file)
    {
      hide Ordering, Orderable, Records, Compacted, Print, CleanLog, RedactAbs;
      var order, jobOrder :|
        && Ordering(ix.abs, order, jobOrder) && Orderable(ix.abs, order, jobOrder)
        && start + |Records(ix.abs, order, jobOrder)| == seqNo
        && file == Print(codec, Compacted(ix.abs, order, jobOrder, start));
      CompactedClean(codec, sensitive, a, order, jobOrder, start);
    }

    /** The compaction that takes what was exposed off the disk. */
    method CompactRedacted(sensitive: Policy, ghost a: Abs, ghost p: Option<Policy>, env: Env) returns (res: Option<Error>)
      requires Shell() && Telling(a, p) && ix.abs == RedactAbs(sensitive, a)
      requires Streaming() && !feed.behind && health.None? && !closed
      modifies this`file, this`health, this`seqNo, this`eventCount, this`node, this`sound, ix`requestRecord, ix`attemptRecord
      ensures Valid() && (res.None? <==> health.None?) && ix.abs == old(ix.abs)
      ensures res.None? ==> CleanLog(codec, sensitive, file) && Replaced(env.rewrite, old(seqNo), old(node.disk), Crash.Adds(p)) && env.rewrite.RewriteWorks?
      ensures res.Some? && old(sound) ==> Halted(env.rewrite, old(seqNo), old(node.disk), Crash.Adds(p))
      ensures sound ==> old(sound) && Crash.Reaches(Setup(), old(node), node)
      ensures old(sound) && SnapshotFits(codec, ix.abs) ==> sound
    {
      hide Core, Shell, Telling, InOrder, CleanLog, SnapshotFits, RedactAbs, Rewritten, Replaced, Halted, Feed.Valid, Crash.Reaches;
      ghost var start := seqNo;
      var ok := Compact(env.rewrite, a, p);
      InOrderLater(feed.published, start, seqNo);
      if ok {
        CoherentIndexes();
        RewrittenClean(sensitive, a, start);
      }
      res := health;
    }

    /** The scan of the log when nothing in memory was exposed. */
    method Scanned(sensitive: Policy, size: nat) returns (res: Option<Error>, exposed: bool)
      requires Valid() && size >= 1 && health.None?
      modifies this`health
      ensures Valid() && (res.None? <==> health.None?) && (res.Some? ==> !exposed)
      ensures res.Some? ==> exists l :: l in Split(file).complete && (|l| > MAX_EVENT_BYTES || codec.decode(l).None?)
      ensures res.None? && !exposed <==> CleanLog(codec, sensitive, file) && forall l :: l in Split(file).complete ==> |l| <= MAX_EVENT_BYTES
    {
      hide Core, Streaming, CleanLog, Split;
      var scanned := ScanLog(codec, sensitive, file, size);
      if scanned.Err? {
        Fail(scanned.error);
        res, exposed := Some(scanned.error), false;
      } else {
        res, exposed := None, scanned.value;
      }
    }

    lemma CarriesLess(f: F.Flow)
      requires F.Carries(Flowing(), f, feed.State(), true)
      ensures F.Carries(Flowing(), f, feed.State(), sound)
    {
    }

    /** A sensitive value stands in the state, in the ring, or in a log that can be read to its end. */
    ghost predicate Dirty(sensitive: Policy, a: Abs, ring: seq<Event>, log: Bytes) {
      || AbsExposed(sensitive, a) || F.RingExposed(sensitive, ring)
      || (!CleanLog(codec, sensitive, log)
          && forall l :: l in Split(log).complete ==> |l| <= MAX_EVENT_BYTES && codec.decode(l).Some?)
    }

    method RedactOpen(sensitive: Policy, size: nat, env: Env) returns (res: Option<Error>)
      requires Valid() && size >= 1 && !closed && health.None?
      modifies this`file, this`health, this`seqNo, this`eventCount, this`node, this`sound, ix, feed
      ensures Valid() && ix.abs == RedactAbs(sensitive, old(ix.abs)) && (res.None? <==> health.None?)
      ensures F.RedactStep(Flowing(), old(feed.State()), sensitive, feed.State())
      ensures res.None? ==> CleanLog(codec, sensitive, file) && !F.RingExposed(sensitive, feed.ring)
      ensures old(Dirty(sensitive, ix.abs, feed.ring, file)) ==>
                var more := if AbsExposed(sensitive, old(ix.abs)) then 1 else 0;
                if res.None? then Replaced(RewriteWorks, old(seqNo), old(node.disk), more)
                else old(sound) ==> Halted(env.rewrite, old(seqNo), old(node.disk), more)
      ensures !AbsExposed(sensitive, old(ix.abs)) && !F.RingExposed(sensitive, old(feed.ring))
              && CleanLog(codec, sensitive, old(file)) && (forall l :: l in Split(old(file)).complete ==> |l| <= MAX_EVENT_BYTES) ==>
                res.None? && ix.abs == old(ix.abs) && Outside() == old(Outside())
      ensures sound ==> old(sound) && Crash.Reaches(Setup(), old(node), node)
      ensures F.Carries(Flowing(), old(feed.State()), feed.State(), sound)
      ensures old(sound) && SnapshotFits(codec, ix.abs) ==> sound
    {
      hide Core, Shell, Telling, InOrder, F.RingExposed, AbsExposed, CleanLog, Split, SnapshotFits, RedactAbs, RedactRing, Trim, Crash.Reaches,
           F.Carries, Replaced, Halted;
      Crash.ReachesSelf(Setup(), node);
      ghost var f, a := feed.State(), ix.abs;
      F.RingUntouched(codec, opts, sensitive, feed.ring);
      TrimClean(codec, opts, sensitive, feed.ring);
      var inState := RedactIndexes(sensitive);
      var changed := feed.RedactEntries(sensitive, inState);
      F.CarriesRedact(Flowing(), f, sensitive, feed.State(), true);
      if !changed {
        res, changed := Scanned(sensitive, size);
      } else {
        res := None;
      }
      if changed {
        res := CompactRedacted(sensitive, a, if inState then Some(sensitive) else None, env);
      }
      CarriesLess(f);
    }

    /** `RedactHeaders`. It is a step of the log like every operation: however it fails, what it leaves to the path opens to the old
        state or to the redacted one, or to an older state if such a content was possible before. */
    method RedactHeaders(sensitive: Policy, size: nat, env: Env) returns (res: Option<Error>)
      requires Valid() && size >= 1
      modifies this`file, this`health, this`seqNo, this`eventCount, this`node, this`sound, ix, feed
      ensures Valid()
      ensures closed || old(health.Some?) ==> res.Some? && ix.abs == old(ix.abs) && Outside() == old(Outside())
      ensures !closed && old(health.None?) ==>
                && ix.abs == RedactAbs(sensitive, old(ix.abs))
                && F.RedactStep(Flowing(), old(feed.State()), sensitive, feed.State())
                && (res.None? <==> health.None?)
      ensures res.None? ==> CleanLog(codec, sensitive, file) && !F.RingExposed(sensitive, feed.ring)
      ensures !closed && old(health.None?) && old(Dirty(sensitive, ix.abs, feed.ring, file)) ==>
                var more := if AbsExposed(sensitive, old(ix.abs)) then 1 else 0;
                if res.None? then Replaced(RewriteWorks, old(seqNo), old(node.disk), more)
                else old(sound) ==> Halted(env.rewrite, old(seqNo), old(node.disk), more)
      ensures !closed && old(health.None?) && !AbsExposed(sensitive, old(ix.abs)) && !F.RingExposed(sensitive, old(feed.ring))
              && CleanLog(codec, sensitive, old(file)) && (forall l :: l in Split(old(file)).complete ==> |l| <= MAX_EVENT_BYTES) ==>
                res.None? && ix.abs == old(ix.abs) && Outside() == old(Outside())
      ensures sound ==> old(sound) && Crash.Reaches(Setup(), old(node), node)
      ensures F.Carries(Flowing(), old(feed.State()), feed.State(), sound)
      ensures old(sound) && SnapshotFits(codec, ix.abs) ==> sound
    {
      hide Core, Shell, Telling, InOrder, F.RingExposed, AbsExposed, CleanLog, Split, SnapshotFits, RedactAbs, RedactRing, Trim, Feed.Valid, Crash.Reaches,
           F.Carries, Replaced, Halted, Dirty;
      Crash.ReachesSelf(Setup(), node);
      F.CarriesSelf(Flowing(), feed.State(), sound);
      if closed {
        res := Some(Closed);
      } else if health.Some? {
        res := Some(Poisoned);
      } else {
        res := RedactOpen(sensitive, size, env);
      }
    }

    /* ---- the operations ---- */

    /** Some committed capture of this request and job led to the present state. */
    ghost predicate CapturedAs(a: Abs, r: Request, job: Option<Job>)
      reads ix`abs
    {
      exists e :: Commits(codec, opts, a, Capturing, e) && e.request == Some(r) && e.job == job && ix.abs == Apply(a, e)
    }

    /** The forwarding intent that may come with a capture. */
    predicate Intent(r: Request, job: Option<Job>) {
      job.Some? ==> job.value.id != "" && job.value.requestID == r.id && job.value.state == Pending
    }

    /** A repeat of the retained request `id`: a conflict or a duplicate, which changes nothing, or the repair of
        a request that has no job. */
    ghost predicate Answered(a: Abs, v: View, id: string, r: Request, job: Option<Job>, res: Result<Accepted, Error>)
      reads this`file, this`sound, this`node, this`seqNo, this`eventCount, this`health, ix, feed
    {
      && id in a.requests
      && var conflict := a.requests[id].bodySHA256 != r.bodySHA256;
         if !conflict && job.Some? && JobsOf(a, id) == {} then
           var repaired := job.value.(requestID := id);
           && (res.Ok? ==> res.value == Accepted(id, Duplicate, Some(repaired)) && repaired.id !in a.jobs && ix.abs == AddJob(a, Some(repaired))
                           && Announced(a, v, Repairing, None, None, Some(repaired)))
           && (res.Err? ==> !res.error.Capacity? && (ix.abs == a || (health.Some? && ix.abs == AddJob(a, Some(repaired)))))
         else
           && ix.abs == a && Outside() == v && res.Ok? && res.value.id == id && res.value.result == (if conflict then Conflict else Duplicate)
           && (res.value.job.None? <==> JobsOf(a, id) == {})
           && (res.value.job.Some? ==> var j := res.value.job.value;
                                       && j.id in JobsOf(a, id) && a.jobs[j.id] == j
                                       && (forall k :: k in JobsOf(a, id) && !Terminal(a.jobs[k].state) ==> !Terminal(j.state))
                                       && (forall k :: k in JobsOf(a, id) && (Terminal(a.jobs[k].state) <==> Terminal(j.state)) ==>
                                                         j.createdAt <= a.jobs[k].createdAt))
    }

    /** The job that answers a repeat is unfinished if any job of the request is, and the oldest of those as finished as it is. */
    lemma AnsweredJob(a: Abs, v: View, id: string, r: Request, job: Option<Job>, res: Result<Accepted, Error>)
      requires Answered(a, v, id, r, job, res)
      ensures res.Ok? ==> res.value.id == id && !res.value.result.Captured?
      ensures res.Ok? && JobsOf(a, id) != {} ==>
                && res.value.job.Some?
                && var j := res.value.job.value;
                   && j.id in a.jobs && a.jobs[j.id] == j && j.requestID == id
                   && (forall k :: k in a.jobs && a.jobs[k].requestID == id ==>
                                     var other := a.jobs[k];
                                     && (!Terminal(other.state) ==> !Terminal(j.state))
                                     && ((Terminal(other.state) <==> Terminal(j.state)) ==> j.createdAt <= other.createdAt))
    {
      hide Announced, AddJob, Outside;
      assert forall k :: k in a.jobs && a.jobs[k].requestID == id ==> k in JobsOf(a, id);
    }

    /** An appended event that only carries a job has written that job and nothing else. */
    lemma JobWritten(a: Abs, e: Event, env: Env, was: uint64, op: Op, r: Result<Event, Error>)
      requires e.request.None? && e.attempt.None? && e.evictedJobIDs == [] && e.evictedRequestIDs == []
      requires r.Ok? ==> Appended(e, env, was, a, op, r.value)
      requires r.Err? ==> ix.abs == a || (health.Some? && Appended(e, env, was, a, op, Stamped(e, was, env.now)))
      ensures r.Ok? ==> ix.abs == AddJob(a, e.job) && StateValid(a, r.value)
      ensures r.Err? ==> ix.abs == a || (health.Some? && ix.abs == AddJob(a, e.job))
    {
      hide Produces, Apply, StateValid, EventValid;
      JobOnly(a, e, was, env.now);
    }

    method Repair(id: string, job: Job, env: Env) returns (res: Result<Accepted, Error>)
      requires Valid() && id in ix.abs.requests && JobsOf(ix.abs, id) == {} && job.state == Pending
      modifies this`file, this`health, this`seqNo, this`eventCount, this`node, this`sound, ix, feed
      ensures Valid()
      ensures var repaired := job.(requestID := id);
              && (res.Ok? ==> res.value == Accepted(id, Duplicate, Some(repaired)) && repaired.id !in old(ix.abs.jobs)
                              && ix.abs == AddJob(old(ix.abs), Some(repaired))
                              && Announced(old(ix.abs), old(Outside()), Repairing, None, None, Some(repaired)))
              && (res.Err? ==> !res.error.Capacity?
                               && (ix.abs == old(ix.abs) || (health.Some? && ix.abs == AddJob(old(ix.abs), Some(repaired)))))
      ensures sound ==> old(sound) && Crash.Reaches(Setup(), old(node), node)
      ensures F.Carries(Flowing(), old(feed.State()), feed.State(), sound)
      ensures old(sound) && !sound ==> old(seqNo) == MAX_SEQ || !SnapshotFits(codec, ix.abs)
    {
      hide F.Carries, Unappended, Core, Streaming, Produces, Crash.Reaches, JobsOf, Appended, Excused, AddJob, SnapshotFits, Announced,
           Linked, Indexes.Coherent, Indexes.Complete;
      Crash.ReachesSelf(Setup(), node);
      F.CarriesSelf(Flowing(), feed.State(), sound);
      CoherentIndexes();
      var plan := PlanRepair(ix, id, job);
      if plan.Err? {
        res := Err(plan.error);
      } else {
        ghost var a, was := ix.abs, seqNo;
        var appended := AppendLocked(plan.value, env, Repairing);
        JobWritten(a, plan.value, env, was, Repairing, appended);
        res := if appended.Err? then Err(appended.error) else Ok(Accepted(id, Duplicate, Some(job.(requestID := id))));
      }
    }

    method Repeat(earlier: Earlier, r: Request, job: Option<Job>, env: Env) returns (res: Result<Accepted, Error>)
      requires Valid() && Intent(r, job) && earlier.id in ix.abs.requests
      requires earlier.conflict <==> ix.abs.requests[earlier.id].bodySHA256 != r.bodySHA256
      modifies this`file, this`health, this`seqNo, this`eventCount, this`node, this`sound, ix, feed
      ensures Valid() && Answered(old(ix.abs), old(Outside()), earlier.id, r, job, res)
      ensures sound ==> old(sound) && Crash.Reaches(Setup(), old(node), node)
      ensures F.Carries(Flowing(), old(feed.State()), feed.State(), sound)
      ensures old(sound) && !sound ==> old(seqNo) == MAX_SEQ || !SnapshotFits(codec, ix.abs)
    {
      hide F.Carries, Unappended, Core, Streaming, Apply, Commits, Crash.Reaches, JobsOf, Preferred, SnapshotFits, Announced,
           Linked, Indexes.Coherent, Indexes.Complete;
      Crash.ReachesSelf(Setup(), node);
      F.CarriesSelf(Flowing(), feed.State(), sound);
      CoherentIndexes();
      var persisted := DiscoverableJob(ix, earlier.id);
      if !earlier.conflict && job.Some? && persisted.None? {
        res := Repair(earlier.id, job.value, env);
      } else {
        res := Ok(Accepted(earlier.id, if earlier.conflict then Conflict else Duplicate, persisted));
      }
    }

    /** Why a sound, healthy store with room and fresh identifiers may fail to take a capture. */
    ghost predicate CaptureExcused(a: Abs, r: Request, job: Option<Job>, env: Env, was: uint64, count: nat) {
      exists ids :: CaptureEvictions(opts, a, ids) && Excused(CaptureEvent(r, job, ids), env, was, a, count)
    }

    lemma CaptureWritten(a: Abs, e: Event, r: Request, job: Option<Job>, env: Env, was: uint64, count: nat)
      requires e == CaptureEvent(r, job, e.evictedRequestIDs) && CaptureEvictions(opts, a, e.evictedRequestIDs)
      ensures forall x :: Appended(e, env, was, a, Capturing, x) ==> CapturedAs(a, r, job)
      ensures Excused(e, env, was, a, count) ==> CaptureExcused(a, r, job, env, was, count)
    {
      hide Commits, Apply, Excused, CaptureEvictions;
    }

    /** The append of a capture. */
    method TakeCapture(e: Event, r: Request, job: Option<Job>, env: Env) returns (res: Result<Accepted, Error>)
      requires Valid() && e == CaptureEvent(r, job, e.evictedRequestIDs) && CaptureEvictions(opts, ix.abs, e.evictedRequestIDs)
      requires Produces(opts, ix.abs, Capturing, e)
      modifies this`file, this`health, this`seqNo, this`eventCount, this`node, this`sound, ix, feed
      ensures Valid()
      ensures res.Ok? ==>
                && res.value == Accepted(r.id, Captured, job) && CapturedAs(old(ix.abs), r, job)
                && Announced(old(ix.abs), old(Outside()), Capturing, Some(r), None, job)
      ensures res.Err? ==> ix.abs == old(ix.abs) || (health.Some? && CapturedAs(old(ix.abs), r, job))
      ensures res.Err? ==> !res.error.Capacity?
      ensures res.Err? && old(sound && health.None?) && !closed ==> CaptureExcused(old(ix.abs), r, job, env, old(seqNo), old(eventCount))
      ensures sound ==> old(sound) && Crash.Reaches(Setup(), old(node), node)
      ensures F.Carries(Flowing(), old(feed.State()), feed.State(), sound)
      ensures old(sound) && !sound ==> old(seqNo) == MAX_SEQ || !SnapshotFits(codec, ix.abs)
    {
      hide F.Carries, Unappended, Core, Streaming, Produces, Crash.Reaches, CaptureEvictions, Excused, Appended, CaptureExcused, CapturedAs, SnapshotFits, Announced,
           Linked, Indexes.Coherent, Indexes.Complete;
      ghost var a, was, count := ix.abs, seqNo, eventCount;
      var appended := AppendLocked(e, env, Capturing);
      CaptureWritten(a, e, r, job, env, was, count);
      res := if appended.Err? then Err(appended.error) else Ok(Accepted(r.id, Captured, job));
    }

    /** A new capture: fresh identifiers, room made by evicting the oldest finished requests, one record. */
    method Capture(r: Request, job: Option<Job>, env: Env) returns (res: Result<Accepted, Error>)
      requires Valid() && Intent(r, job) && Holders(ix.abs, KeyOf(r)) == {}
      modifies this`file, this`health, this`seqNo, this`eventCount, this`node, this`sound, ix, feed
      ensures Valid()
      ensures res.Ok? ==>
                && res.value == Accepted(r.id, Captured, job) && CapturedAs(old(ix.abs), r, job)
                && Announced(old(ix.abs), old(Outside()), Capturing, Some(r), None, job)
      ensures res.Err? ==> ix.abs == old(ix.abs) || (health.Some? && CapturedAs(old(ix.abs), r, job))
      ensures var refusal := CaptureRefusal(opts, old(ix.abs), r, job);
              && (refusal.Some? ==> res == Err(refusal.value) && ix.abs == old(ix.abs) && Outside() == old(Outside()))
              && (refusal.None? && res.Err? ==> !res.error.Capacity?)
              && (refusal.None? && res.Err? && old(sound && health.None?) && !closed ==>
                    CaptureExcused(old(ix.abs), r, job, env, old(seqNo), old(eventCount)))
      ensures sound ==> old(sound) && Crash.Reaches(Setup(), old(node), node)
      ensures F.Carries(Flowing(), old(feed.State()), feed.State(), sound)
      ensures old(sound) && !sound ==> old(seqNo) == MAX_SEQ || !SnapshotFits(codec, ix.abs)
    {
      hide F.Carries, Core, Streaming, Produces, Holders, Crash.Reaches, CaptureEvictions, CaptureExcused, CapturedAs, CaptureRefusal, Outside, SnapshotFits, Announced,
           Linked, Indexes.Coherent, Indexes.Complete;
      CoherentIndexes();
      var plan := PlanCapture(ix, r, job);
      if plan.Err? {
        Crash.ReachesSelf(Setup(), node);
        F.CarriesSelf(Flowing(), feed.State(), sound);
        res := Err(plan.error);
      } else {
        res := TakeCapture(plan.value, r, job, env);
      }
    }

    /** `Accept`: a capture with its forwarding job in one record, or the answer to a repeat. */
    method Accept(r: Request, job: Option<Job>, env: Env) returns (res: Result<Accepted, Error>)
      requires Valid()
      modifies this`file, this`health, this`seqNo, this`eventCount, this`node, this`sound, ix, feed
      ensures Valid()
      ensures !Intent(r, job) ==> res == Err(Invalid) && ix.abs == old(ix.abs) && Outside() == old(Outside())
      ensures Intent(r, job) && Holders(old(ix.abs), KeyOf(r)) == {} ==>
                && (res.Ok? ==>
                      && res.value == Accepted(r.id, Captured, job) && CapturedAs(old(ix.abs), r, job)
                      && Announced(old(ix.abs), old(Outside()), Capturing, Some(r), None, job))
                && (res.Err? ==> ix.abs == old(ix.abs) || (health.Some? && CapturedAs(old(ix.abs), r, job)))
      ensures Intent(r, job) && Holders(old(ix.abs), KeyOf(r)) == {} ==>
                var refusal := CaptureRefusal(opts, old(ix.abs), r, job);
                && (refusal.Some? ==> res == Err(refusal.value) && ix.abs == old(ix.abs) && Outside() == old(Outside()))
                && (refusal.None? && res.Err? ==> !res.error.Capacity?)
                && (refusal.None? && res.Err? && old(sound && health.None?) && !closed ==>
                      CaptureExcused(old(ix.abs), r, job, env, old(seqNo), old(eventCount)))
      ensures Intent(r, job) && Holders(old(ix.abs), KeyOf(r)) != {} ==>
                exists id :: Holders(old(ix.abs), KeyOf(r)) == {id} && Answered(old(ix.abs), old(Outside()), id, r, job, res)
      ensures Intent(r, job) && res.Ok? && !res.value.result.Captured? && JobsOf(old(ix.abs), res.value.id) != {} ==>
                && res.value.job.Some?
                && var j := res.value.job.value;
                   && j.id in old(ix.abs.jobs) && old(ix.abs.jobs)[j.id] == j && j.requestID == res.value.id
                   && (forall k :: k in old(ix.abs.jobs) && old(ix.abs.jobs)[k].requestID == res.value.id ==>
                                     var other := old(ix.abs.jobs)[k];
                                     && (!Terminal(other.state) ==> !Terminal(j.state))
                                     && ((Terminal(other.state) <==> Terminal(j.state)) ==> j.createdAt <= other.createdAt))
      ensures sound ==> old(sound) && Crash.Reaches(Setup(), old(node), node)
      ensures F.Carries(Flowing(), old(feed.State()), feed.State(), sound)
      ensures old(sound) && !sound ==> old(seqNo) == MAX_SEQ || !SnapshotFits(codec, ix.abs)
    {
      hide F.Carries, Unappended, Core, Streaming, Apply, Commits, Holders, Crash.Reaches, JobsOf, Preferred, CaptureRefusal, CaptureExcused, CapturedAs, SnapshotFits, Announced,
           Linked, Indexes.Coherent, Indexes.Complete;
      Crash.ReachesSelf(Setup(), node);
      F.CarriesSelf(Flowing(), feed.State(), sound);
      if job.Some? && (job.value.id == "" || job.value.requestID != r.id || job.value.state != Pending) {
        return Err(Invalid);
      }
      CoherentIndexes();
      var earlier := Queries.Duplicate(ix, r);
      if earlier.Some? {
        res := Repeat(earlier.value, r, job, env);
        assert Answered(old(ix.abs), old(Outside()), earlier.value.id, r, job, res);
        AnsweredJob(old(ix.abs), old(Outside()), earlier.value.id, r, job, res);
      } else {
        res := Capture(r, job, env);
      }
    }

    /** Some committed enqueue of this job led to the present state. */
    ghost predicate EnqueuedAs(a: Abs, j: Job)
      reads ix`abs
    {
      exists e :: Commits(codec, opts, a, Enqueuing, e) && e.job == Some(j) && ix.abs == Apply(a, e)
    }

    /** The jobs after an enqueue: the new one has joined, and of a request that was full its oldest finished job has left. */
    lemma EnqueueLaw(a: Abs, j: Job)
      requires EnqueuedAs(a, j) && Linked(codec, a)
      ensures j.id !in a.jobs && j.requestID in a.requests && j.state == Pending && ix.abs.requests == a.requests
      ensures if |(set k | k in a.jobs && a.jobs[k].requestID == j.requestID)| < opts.maxJobsPerRequest then ix.abs.jobs == a.jobs[j.id := j]
              else exists gone :: gone in a.jobs && ix.abs.jobs == (a.jobs - {gone})[j.id := j]
                                  && a.jobs[gone].requestID == j.requestID && Terminal(a.jobs[gone].state)
                                  && forall k :: k in a.jobs && a.jobs[k].requestID == j.requestID && Terminal(a.jobs[k].state) ==>
                                                   a.jobs[gone].createdAt <= a.jobs[k].createdAt
    {
      var e :| Commits(codec, opts, a, Enqueuing, e) && e.job == Some(j) && ix.abs == Apply(a, e);
      assert JobsOf(a, j.requestID) == set k | k in a.jobs && a.jobs[k].requestID == j.requestID;
      EnqueueLeaves(codec, opts, a, e);
      hide Linked, Commits, Apply;
    }

    lemma EnqueueWritten(a: Abs, e: Event, j: Job, env: Env, was: uint64)
      requires e.job == Some(j)
      ensures forall x :: Appended(e, env, was, a, Enqueuing, x) ==> EnqueuedAs(a, j)
    {
      hide Commits, Apply;
    }

    /** `Enqueue`: one more job for a retained request. */
    method Enqueue(j: Job, env: Env) returns (res: Option<Error>)
      requires Valid()
      modifies this`file, this`health, this`seqNo, this`eventCount, this`node, this`sound, ix, feed
      ensures Valid()
      ensures res.None? ==> EnqueuedAs(old(ix.abs), j) && Announced(old(ix.abs), old(Outside()), Enqueuing, None, None, Some(j))
      ensures res.Some? ==> ix.abs == old(ix.abs) || (health.Some? && EnqueuedAs(old(ix.abs), j))
      ensures EnqueueRefusal(opts, old(ix.abs), j).Some? ==> res == EnqueueRefusal(opts, old(ix.abs), j) && ix.abs == old(ix.abs) && Outside() == old(Outside())
      ensures EnqueueRefusal(opts, old(ix.abs), j).None? && res.Some? && old(sound && health.None?) && !closed ==>
                exists ids :: EnqueueEvictions(opts, old(ix.abs), j.requestID, ids)
                              && Excused(JobEvent(j, ids), env, old(seqNo), old(ix.abs), old(eventCount))
      ensures res.None? ==>
                && j.id !in old(ix.abs.jobs) && j.requestID in old(ix.abs.requests) && j.state == Pending && ix.abs.requests == old(ix.abs.requests)
                && if |(set k | k in old(ix.abs.jobs) && old(ix.abs.jobs)[k].requestID == j.requestID)| < opts.maxJobsPerRequest
                   then ix.abs.jobs == old(ix.abs.jobs)[j.id := j]
                   else exists gone :: && gone in old(ix.abs.jobs) && ix.abs.jobs == (old(ix.abs.jobs) - {gone})[j.id := j]
                                       && old(ix.abs.jobs)[gone].requestID == j.requestID && Terminal(old(ix.abs.jobs)[gone].state)
                                       && forall k :: k in old(ix.abs.jobs) && old(ix.abs.jobs)[k].requestID == j.requestID
                                                      && Terminal(old(ix.abs.jobs)[k].state) ==>
                                                        old(ix.abs.jobs)[gone].createdAt <= old(ix.abs.jobs)[k].createdAt
      ensures sound ==> old(sound) && Crash.Reaches(Setup(), old(node), node)
      ensures F.Carries(Flowing(), old(feed.State()), feed.State(), sound)
      ensures old(sound) && !sound ==> old(seqNo) == MAX_SEQ || !SnapshotFits(codec, ix.abs)
    {
      hide F.Carries, Unappended, Core, Streaming, Produces, Crash.Reaches, EnqueueRefusal, Excused, Appended, EnqueuedAs, EnqueueEvictions, SnapshotFits, Announced,
           Linked, Indexes.Coherent, Indexes.Complete;
      Crash.ReachesSelf(Setup(), node);
      F.CarriesSelf(Flowing(), feed.State(), sound);
      CoherentIndexes();
      var plan := PlanEnqueue(ix, j);
      if plan.Err? {
        res := Some(plan.error);
      } else {
        ghost var a, was := ix.abs, seqNo;
        var appended := AppendLocked(plan.value, env, Enqueuing);
        EnqueueWritten(a, plan.value, j, env, was);
        if appended.Err? {
          res := Some(appended.error);
        } else {
          EnqueueLaw(a, j);
          res := None;
        }
      }
    }

    /** The job is eligible, no eligible job comes before it, and this is its version leased to the owner. */
    ghost predicate IsNextClaim(a: Abs, j: Job, owner: string, now: Time, lease: int) {
      && j.id in a.jobs && Eligible(a.jobs[j.id], now)
      && (forall k :: k in a.jobs && Eligible(a.jobs[k], now) ==> !Before(a.jobs[k], a.jobs[j.id]))
      && j == LeasedTo(a.jobs[j.id], owner, now, lease)
    }

    ghost predicate ClaimedAs(a: Abs, j: Job, owner: string, now: Time, lease: int)
      reads ix`abs
    {
      && IsNextClaim(a, j, owner, now, lease) && ix.abs == AddJob(a, Some(j))
      && exists e :: Commits(codec, opts, a, Claiming(owner, now, lease), e) && e.job == Some(j) && ix.abs == Apply(a, e)
    }

    /** No job may be claimed exactly if none waits, no retry is due and every lease is good. */
    lemma NoneEligible(a: Abs, now: Time)
      ensures (forall k :: k in a.jobs ==> !Eligible(a.jobs[k], now)) <==>
              forall k :: k in a.jobs ==>
                            var j := a.jobs[k];
                            && j.state != Pending && j.state != Queued && (j.state == Retrying ==> now < j.availableAt)
                            && (j.state == Leased || j.state == Running ==> j.leaseExpiresAt != 0 && now < j.leaseExpiresAt)
    {
    }

    /** What a claim does to the jobs, and why this job could be claimed and no other before it. */
    lemma ClaimLaw(a: Abs, c: Job, owner: string, now: Time, lease: int)
      requires ClaimedAs(a, c, owner, now, lease) && Keyed(a)
      ensures c.id in a.jobs && ix.abs.jobs == a.jobs[c.id := c]
      ensures var j := a.jobs[c.id];
              && (|| j.state == Pending || j.state == Queued || (j.state == Retrying && j.availableAt <= now)
                  || ((j.state == Leased || j.state == Running) && (j.leaseExpiresAt == 0 || j.leaseExpiresAt <= now)))
              && c == Job(c.id, j.requestID, j.url, Leased, j.error, owner, j.createdAt, now, j.availableAt, now + lease, j.finishedAt)
              && (forall k :: k in a.jobs && Eligible(a.jobs[k], now) ==>
                                var other := a.jobs[k];
                                j.availableAt < other.availableAt || (j.availableAt == other.availableAt && j.createdAt <= other.createdAt))
    {
      JobLaws(a.jobs[c.id], owner, "", now, lease);
      hide Commits, Apply, LeasedTo, AttemptsKeyed;
    }

    /** Only the outside world can keep a claim from being written. */
    lemma ClaimAdmitted(a: Abs, e: Event, j: Job, owner: string, now: Time, lease: int, env: Env, was: uint64)
      requires Linked(codec, a) && e == JobEvent(j, []) && Produces(opts, a, Claiming(owner, now, lease), e)
      ensures IsNextClaim(a, j, owner, now, lease)
      ensures forall count: nat :: env.now != ZERO && Excused(e, env, was, a, count) ==> Unwritable(e, env, was, a, count)
    {
      hide Linked, EventValid, StateValid, Unwritable, Eligible, Before;
      if env.now != ZERO {
        ProducesStamped(opts, a, Claiming(owner, now, lease), e, was, env.now);
        MoveAdmitted(codec, opts, a, Claiming(owner, now, lease), Stamped(e, was, env.now));
      }
    }

    lemma ClaimWritten(a: Abs, e: Event, j: Job, owner: string, now: Time, lease: int, env: Env, was: uint64)
      requires e == JobEvent(j, []) && Produces(opts, a, Claiming(owner, now, lease), e)
      ensures forall x :: Appended(e, env, was, a, Claiming(owner, now, lease), x) ==> ClaimedAs(a, j, owner, now, lease)
    {
      hide Commits, Apply, Eligible, Before, AddJob;
      JobOnly(a, e, was, env.now);
    }

    /** `ClaimNextJob`. */
    method ClaimNextJob(owner: string, now: Time, lease: int, env: Env) returns (res: Result<Option<Job>, Error>)
      requires Valid()
      modifies this`file, this`health, this`seqNo, this`eventCount, this`node, this`sound, ix, feed
      ensures Valid()
      ensures res == Ok(None) <==>
                forall k :: k in old(ix.abs.jobs) ==>
                              var j := old(ix.abs.jobs)[k];
                              && j.state != Pending && j.state != Queued && (j.state == Retrying ==> now < j.availableAt)
                              && (j.state == Leased || j.state == Running ==> j.leaseExpiresAt != 0 && now < j.leaseExpiresAt)
      ensures res == Ok(None) ==> ix.abs == old(ix.abs) && Outside() == old(Outside())
      ensures res.Ok? && res.value.Some? ==> ClaimedAs(old(ix.abs), res.value.value, owner, now, lease)
                                             && Announced(old(ix.abs), old(Outside()), Claiming(owner, now, lease), None, None, res.value)
      ensures res.Ok? && res.value.Some? ==>
                var id := res.value.value.id;
                && id in old(ix.abs.jobs) && ix.abs.jobs == old(ix.abs.jobs)[id := res.value.value]
                && var j := old(ix.abs.jobs)[id];
                   && (|| j.state == Pending || j.state == Queued || (j.state == Retrying && j.availableAt <= now)
                       || ((j.state == Leased || j.state == Running) && (j.leaseExpiresAt == 0 || j.leaseExpiresAt <= now)))
                   && res.value.value == Job(id, j.requestID, j.url, Leased, j.error, owner, j.createdAt, now, j.availableAt, now + lease, j.finishedAt)
                   && (forall k :: k in old(ix.abs.jobs) && Eligible(old(ix.abs.jobs)[k], now) ==>
                                     var other := old(ix.abs.jobs)[k];
                                     j.availableAt < other.availableAt || (j.availableAt == other.availableAt && j.createdAt <= other.createdAt))
      ensures res.Err? ==> ix.abs == old(ix.abs) || (health.Some? && exists j :: ClaimedAs(old(ix.abs), j, owner, now, lease))
      ensures res.Err? && old(sound && health.None?) && !closed && env.now != ZERO ==>
                exists j :: IsNextClaim(old(ix.abs), j, owner, now, lease)
                            && Unwritable(JobEvent(j, []), env, old(seqNo), old(ix.abs), old(eventCount))
      ensures sound ==> old(sound) && Crash.Reaches(Setup(), old(node), node)
      ensures F.Carries(Flowing(), old(feed.State()), feed.State(), sound)
      ensures old(sound) && !sound ==> old(seqNo) == MAX_SEQ || !SnapshotFits(codec, ix.abs)
    {
      hide F.Carries, Unappended, Core, Streaming, Produces, Crash.Reaches, Eligible, Excused, Unwritable, Appended, ClaimedAs, IsNextClaim, SnapshotFits, Announced,
           Linked, Indexes.Coherent, Indexes.Complete, Keyed;
      Crash.ReachesSelf(Setup(), node);
      F.CarriesSelf(Flowing(), feed.State(), sound);
      CoherentIndexes();
      NoneEligible(ix.abs, now);
      LinkedFacts(codec, ix.abs);
      var plan := PlanClaim(ix, owner, now, lease);
      if plan.None? {
        res := Ok(None);
      } else {
        ghost var a, was := ix.abs, seqNo;
        var j := plan.value.job.value;
        var appended := AppendLocked(plan.value, env, Claiming(owner, now, lease));
        ClaimWritten(a, plan.value, j, owner, now, lease, env, was);
        ClaimAdmitted(a, plan.value, j, owner, now, lease, env, was);
        if appended.Err? {
          res := Err(appended.error);
        } else {
          ClaimLaw(a, j, owner, now, lease);
          res := Ok(Some(j));
        }
      }
    }

    /** The owner held the lease, the attempt carried the next number and belonged to the job, and the outcome and the attempt are
        stored; nothing else changed. */
    ghost predicate RecordedAs(a: Abs, jobID: string, owner: string, x: Attempt, state: JobState, message: string, availableAt: Time, clock: Time)
      reads ix`abs
    {
      && OutcomeRefusal(opts, a, jobID, owner, x, state).None?
      && x.jobID == jobID && x.requestID == a.jobs[jobID].requestID
      && var j := OutcomeJob(a.jobs[jobID], x, state, message, availableAt, clock);
         && ix.abs == AddJob(AddAttempt(a, Some(x)), Some(j))
         && exists e :: Commits(codec, opts, a, Recording(owner), e) && e.attempt == Some(x) && e.job == Some(j) && ix.abs == Apply(a, e)
    }

    /** The stored job and attempts after an outcome, field by field. */
    lemma RecordLaw(a: Abs, jobID: string, owner: string, x: Attempt, state: JobState, message: string, availableAt: Time, clock: Time)
      requires RecordedAs(a, jobID, owner, x, state, message, availableAt, clock) && Keyed(a)
      ensures jobID in a.jobs && a.jobs[jobID].state == Leased && a.jobs[jobID].leaseOwner == owner
      ensures state in {Retrying, Succeeded, Fatal, DeadLetter}
      ensures var j, end := a.jobs[jobID], if x.finishedAt == 0 then clock else x.finishedAt;
              var done := if state == Retrying then j.finishedAt else end;
              && ix.abs.jobs == a.jobs[jobID := Job(jobID, j.requestID, j.url, state, message, "", j.createdAt, end, availableAt, 0, done)]
              && ix.abs.requests == a.requests && AttemptsOf(ix.abs, j.requestID) == AttemptsOf(a, j.requestID) + [x]
    {
      OutcomeJobLaw(a.jobs[jobID], x, state, message, availableAt, clock);
      hide Commits, Apply, OutcomeJob, AttemptsKeyed, MaxNumber, IDsIn;
    }

    lemma OutcomeWritten(a: Abs, e: Event, jobID: string, owner: string, x: Attempt, state: JobState, message: string, availableAt: Time,
                         env: Env, was: uint64)
      requires jobID in a.jobs && a.jobs[jobID].id == jobID && OutcomeRefusal(opts, a, jobID, owner, x, state).None?
      requires e == OutcomeEvent(OutcomeJob(a.jobs[jobID], x, state, message, availableAt, env.now), x)
      ensures forall y :: Appended(e, env, was, a, Recording(owner), y) ==> RecordedAs(a, jobID, owner, x, state, message, availableAt, env.now)
    {
      hide Produces, StateValid, Apply, AddJob, AddAttempt, OutcomeRefusal;
      AttemptOnly(a, e, was, env.now);
    }

    /** `RecordAttempt`: the outcome of a leased job and its attempt in one record. */
    method RecordAttempt(jobID: string, owner: string, x: Attempt, state: JobState, message: string, availableAt: Time, env: Env)
      returns (res: Option<Error>)
      requires Valid()
      modifies this`file, this`health, this`seqNo, this`eventCount, this`node, this`sound, ix, feed
      ensures Valid()
      ensures res.None? ==> RecordedAs(old(ix.abs), jobID, owner, x, state, message, availableAt, env.now)
                            && Announced(old(ix.abs), old(Outside()), Recording(owner), None, Some(x),
                                         Some(OutcomeJob(old(ix.abs).jobs[jobID], x, state, message, availableAt, env.now)))
      ensures res.None? ==>
                && jobID in old(ix.abs.jobs) && old(ix.abs.jobs)[jobID].state == Leased && old(ix.abs.jobs)[jobID].leaseOwner == owner
                && state in {Retrying, Succeeded, Fatal, DeadLetter}
                && var j, end := old(ix.abs.jobs)[jobID], if x.finishedAt == 0 then env.now else x.finishedAt;
                   var done := if state == Retrying then j.finishedAt else end;
                   && ix.abs.jobs == old(ix.abs.jobs)[jobID := Job(jobID, j.requestID, j.url, state, message, "", j.createdAt, end, availableAt, 0, done)]
                   && ix.abs.requests == old(ix.abs.requests)
                   && AttemptsOf(ix.abs, j.requestID) == AttemptsOf(old(ix.abs), j.requestID) + [x]
      ensures res.Some? ==> ix.abs == old(ix.abs)
                            || (health.Some? && RecordedAs(old(ix.abs), jobID, owner, x, state, message, availableAt, env.now))
      ensures var refusal := OutcomeRefusal(opts, old(ix.abs), jobID, owner, x, state);
              && (refusal.Some? ==> res == refusal && ix.abs == old(ix.abs) && Outside() == old(Outside()))
              && (refusal.None? && res.Some? && old(sound && health.None?) && !closed ==>
                    Excused(OutcomeEvent(OutcomeJob(old(ix.abs).jobs[jobID], x, state, message, availableAt, env.now), x), env, old(seqNo),
                            old(ix.abs), old(eventCount)))
      ensures sound ==> old(sound) && Crash.Reaches(Setup(), old(node), node)
      ensures F.Carries(Flowing(), old(feed.State()), feed.State(), sound)
      ensures old(sound) && !sound ==> old(seqNo) == MAX_SEQ || !SnapshotFits(codec, ix.abs)
    {
      hide F.Carries, Unappended, Core, Streaming, Produces, Crash.Reaches, Excused, Appended, OutcomeRefusal, RecordedAs, SnapshotFits, Announced,
           Linked, Indexes.Coherent, Indexes.Complete, Keyed, AttemptsOf, OutcomeJob;
      Crash.ReachesSelf(Setup(), node);
      F.CarriesSelf(Flowing(), feed.State(), sound);
      CoherentIndexes();
      LinkedFacts(codec, ix.abs);
      var plan := PlanOutcome(ix, jobID, owner, x, state, message, availableAt, env.now);
      if plan.Err? {
        res := Some(plan.error);
      } else {
        ghost var a, was := ix.abs, seqNo;
        var appended := AppendLocked(plan.value, env, Recording(owner));
        OutcomeWritten(a, plan.value, jobID, owner, x, state, message, availableAt, env, was);
        if appended.Err? {
          res := Some(appended.error);
        } else {
          RecordLaw(a, jobID, owner, x, state, message, availableAt, env.now);
          res := None;
        }
      }
    }

    /** How a discard that is not refused ends: the job is poisoned, or the append has failed. */
    ghost predicate Discarded(a: Abs, v: View, jobID: string, owner: string, message: string, env: Env, res: Option<Error>)
      requires jobID in a.jobs
      reads this`file, this`sound, this`node, this`seqNo, this`eventCount, this`health, ix, feed
    {
      var poisoned := PoisonedJob(a.jobs[jobID], message, env.now);
      && (res.None? ==> ix.abs == AddJob(a, Some(poisoned)) && Announced(a, v, Finishing(owner), None, None, Some(poisoned)))
      && (res.Some? ==> ix.abs == a || (health.Some? && ix.abs == AddJob(a, Some(poisoned))))
    }

    /** The stored job after a discard, field by field. */
    lemma DiscardLaw(a: Abs, v: View, jobID: string, owner: string, state: JobState, message: string, env: Env, res: Option<Error>)
      requires DiscardRefusal(a, jobID, owner, state).None? && Discarded(a, v, jobID, owner, message, env, res) && res.None? && Keyed(a)
      ensures jobID in a.jobs && a.jobs[jobID].state == Leased && a.jobs[jobID].leaseOwner == owner && state == Poison
      ensures var j := a.jobs[jobID];
              && ix.abs.jobs == a.jobs[jobID := Job(jobID, j.requestID, j.url, Poison, message, "", j.createdAt, env.now, j.availableAt, 0, env.now)]
              && ix.abs.requests == a.requests && ix.abs.attempts == a.attempts
    {
      JobLaws(a.jobs[jobID], owner, message, env.now, 0);
      hide Announced, PoisonedJob, AttemptsKeyed;
    }

    /** The append of `FinishWithoutAttempt`. */
    method Discard(e: Event, jobID: string, owner: string, message: string, env: Env) returns (res: Option<Error>)
      requires Valid() && jobID in ix.abs.jobs && e == JobEvent(PoisonedJob(ix.abs.jobs[jobID], message, env.now), [])
      requires Produces(opts, ix.abs, Finishing(owner), e)
      modifies this`file, this`health, this`seqNo, this`eventCount, this`node, this`sound, ix, feed
      ensures Valid()
      ensures Discarded(old(ix.abs), old(Outside()), jobID, owner, message, env, res)
      ensures res.Some? && old(sound && health.None?) && !closed ==> Excused(e, env, old(seqNo), old(ix.abs), old(eventCount))
      ensures sound ==> old(sound) && Crash.Reaches(Setup(), old(node), node)
      ensures F.Carries(Flowing(), old(feed.State()), feed.State(), sound)
      ensures old(sound) && !sound ==> old(seqNo) == MAX_SEQ || !SnapshotFits(codec, ix.abs)
    {
      hide F.Carries, Unappended, Core, Streaming, Produces, Crash.Reaches, Excused, Appended, PoisonedJob, Stamped, AddJob, SnapshotFits, Announced,
           Linked, Indexes.Coherent, Indexes.Complete;
      ghost var a, was := ix.abs, seqNo;
      var appended := AppendLocked(e, env, Finishing(owner));
      JobWritten(a, e, env, was, Finishing(owner), appended);
      res := if appended.Err? then Some(appended.error) else None;
    }

    /** `FinishWithoutAttempt`. */
    method FinishWithoutAttempt(jobID: string, owner: string, state: JobState, message: string, env: Env) returns (res: Option<Error>)
      requires Valid()
      modifies this`file, this`health, this`seqNo, this`eventCount, this`node, this`sound, ix, feed
      ensures Valid()
      ensures var refusal := DiscardRefusal(old(ix.abs), jobID, owner, state);
              && (refusal.Some? ==> res == refusal && ix.abs == old(ix.abs) && Outside() == old(Outside()))
              && (refusal.None? ==> Discarded(old(ix.abs), old(Outside()), jobID, owner, message, env, res))
              && (refusal.None? && res.Some? && old(sound && health.None?) && !closed ==>
                    Excused(JobEvent(PoisonedJob(old(ix.abs).jobs[jobID], message, env.now), []), env, old(seqNo), old(ix.abs), old(eventCount)))
      ensures res.None? ==>
                && jobID in old(ix.abs.jobs) && old(ix.abs.jobs)[jobID].state == Leased && old(ix.abs.jobs)[jobID].leaseOwner == owner && state == Poison
                && var j := old(ix.abs.jobs)[jobID];
                   && ix.abs.jobs == old(ix.abs.jobs)[jobID := Job(jobID, j.requestID, j.url, Poison, message, "", j.createdAt, env.now, j.availableAt, 0,
                                                                   env.now)]
                   && ix.abs.requests == old(ix.abs.requests) && ix.abs.attempts == old(ix.abs.attempts)
      ensures sound ==> old(sound) && Crash.Reaches(Setup(), old(node), node)
      ensures F.Carries(Flowing(), old(feed.State()), feed.State(), sound)
      ensures old(sound) && !sound ==> old(seqNo) == MAX_SEQ || !SnapshotFits(codec, ix.abs)
    {
      hide F.Carries, Core, Streaming, Produces, Crash.Reaches, Discarded, PoisonedJob, JobEvent, Outside, DiscardRefusal, SnapshotFits, Announced, Excused,
           Linked, Indexes.Coherent, Indexes.Complete, Keyed;
      Crash.ReachesSelf(Setup(), node);
      F.CarriesSelf(Flowing(), feed.State(), sound);
      CoherentIndexes();
      var plan := PlanPoison(ix, jobID, owner, state, message, env.now);
      if plan.Ok? {
        ghost var a, v := ix.abs, Outside();
        LinkedFacts(codec, a);
        res := Discard(plan.value, jobID, owner, message, env);
        if res.None? {
          DiscardLaw(a, v, jobID, owner, state, message, env, res);
        }
      } else {
        res := Some(plan.error);
      }
    }

    lemma ShownBy(a: Abs, e: Event, env: Env, op: Op, v: View, job: Job, r: Result<Event, Error>)
      requires e.request.None? && e.attempt.None? && e.evictedJobIDs == [] && e.evictedRequestIDs == [] && e.job == Some(job)
      requires r.Ok? ==> Appended(e, env, v.seqNo, a, op, r.value) && Taken(r.value, v.flow)
      requires r.Err? ==> Unappended(e, env, op, v, a)
      ensures || (ix.abs == AddJob(a, Some(job)) && Shows(v.flow.published, job, feed.published))
              || (r.Err? && ix.abs == a && feed.published == v.flow.published)
    {
      hide Commits, Apply, AddJob, Logged, Offered, Trim, EventValid, StateValid, Lengthens, Halted;
      JobOnly(a, e, v.seqNo, env.now);
    }

    /** How far the counter can have come after a logged event. */
    lemma CounterBound(e: Event, env: Env, a: Abs, v: View, op: Op, x: Event)
      requires Appended(e, env, v.seqNo, a, op, x) && Logged(x, v) && Linked(codec, ix.abs)
      ensures seqNo <= v.seqNo + 1 + Volume(ix.abs)
    {
      hide Linked, Commits, Apply, Records, Ordering, Orderable, Print, Compacted;
      if v.eventCount + 1 > opts.maxEvents {
        var order, jobOrder :|
          && Ordering(ix.abs, order, jobOrder) && Orderable(ix.abs, order, jobOrder)
          && x.seqNo + |Records(ix.abs, order, jobOrder)| == seqNo
          && file == Print(codec, Compacted(ix.abs, order, jobOrder, x.seqNo));
        RecordsCount(codec, ix.abs, order, jobOrder);
      }
    }

    /** One turn of the loop of `RecoverLeases`. */
    method ReclaimOne(id: string, now: Time, env: Env) returns (res: Option<Error>)
      requires Valid() && id in ix.abs.jobs && Held(ix.abs.jobs[id])
      modifies this`file, this`health, this`seqNo, this`eventCount, this`node, this`sound, ix, feed
      ensures Valid()
      ensures var job := Reclaimed(old(ix.abs).jobs[id], now);
              || (ix.abs == AddJob(old(ix.abs), Some(job)) && Shows(old(feed.published), job, feed.published))
              || (res.Some? && ix.abs == old(ix.abs) && feed.published == old(feed.published))
      ensures res.None? ==> seqNo <= old(seqNo) + 1 + Volume(ix.abs)
      ensures sound ==> old(sound) && Crash.Reaches(Setup(), old(node), node)
      ensures F.Carries(Flowing(), old(feed.State()), feed.State(), sound)
      ensures old(sound) && !sound ==> old(seqNo) == MAX_SEQ || !SnapshotFits(codec, ix.abs)
    {
      hide F.Carries, Unappended, Core, Streaming, Produces, Crash.Reaches, Excused, Appended, AddJob, SnapshotFits, Linked, Indexes.Coherent,
           Indexes.Complete, Announced, Shows, Volume, Logged, Taken;
      CoherentIndexes();
      ghost var a, v := ix.abs, Outside();
      var e := PlanReclaim(ix, id, now);
      var appended := AppendLocked(e, env, Reclaiming(now));
      ShownBy(a, e, env, Reclaiming(now), v, e.job.value, appended);
      if appended.Err? {
        res := Some(appended.error);
      } else {
        CoherentIndexes();
        CounterBound(e, env, a, v, Reclaiming(now), appended.value);
        res := None;
      }
    }

    /** The loop may use up the sequence numbers, or pass through a state whose snapshot does not fit. */
    ghost predicate Strained(a: Abs, was: uint64, now: Time) {
      || was + |Stale(a)| * (1 + Volume(a)) > MAX_SEQ
      || exists done :: done <= Stale(a) && !SnapshotFits(codec, Freed(a, done, now))
    }

    /** Why the flag may be lost in the loop. */
    lemma Strains(a: Abs, was: uint64, before: uint64, stale: seq<string>, i: nat, now: Time)
      requires Lists(stale, Stale(a)) && i < |stale| && before <= was + i * (1 + Volume(a))
      requires exists done :: done <= Stale(a) && ix.abs == Freed(a, done, now)
      requires before == MAX_SEQ || !SnapshotFits(codec, ix.abs)
      ensures Strained(a, was, now)
    {
      hide Lists, Stale, Freed, SnapshotFits, Volume;
      ListsSize(stale, Stale(a));
      if before == MAX_SEQ {
        assert |stale| * (1 + Volume(a)) >= (i + 1) * (1 + Volume(a));
      }
    }

    /** `RecoverLeases`: every leased or running job becomes pending again, one record each; the clock and the file system may
        be different for each of them. */
    method RecoverLeases(now: Time, envs: nat -> Env) returns (res: Option<Error>)
      requires Valid()
      modifies this`file, this`health, this`seqNo, this`eventCount, this`node, this`sound, ix, feed
      ensures Valid()
      ensures exists done :: TakenBack(old(ix.abs), old(feed.published), done, now, ix.abs, feed.published)
      ensures res.None? ==> TakenBack(old(ix.abs), old(feed.published), Stale(old(ix.abs)), now, ix.abs, feed.published) && Stale(ix.abs) == {}
      ensures res.None? ==>
                && ix.abs.requests == old(ix.abs.requests) && ix.abs.attempts == old(ix.abs.attempts) && ix.abs.jobs.Keys == old(ix.abs.jobs).Keys
                && forall k :: k in old(ix.abs.jobs) ==>
                                 var j := old(ix.abs.jobs)[k];
                                 ix.abs.jobs[k] == if j.state == Leased || j.state == Running
                                                   then Job(j.id, j.requestID, j.url, Pending, "", "", j.createdAt, now, now, 0, j.finishedAt)
                                                   else j
      ensures sound ==> old(sound) && Crash.Reaches(Setup(), old(node), node)
      ensures F.Carries(Flowing(), old(feed.State()), feed.State(), sound)
      ensures old(sound) && !sound ==> Strained(old(ix.abs), old(seqNo), now)
    {
      hide F.Carries, Core, Streaming, Crash.Reaches, AddJob, Stale, Freed, Held, Lists, Elems, Linked, Indexes.Coherent, Indexes.Complete,
           SnapshotFits, Volume, TakenBack, Strained, Shows;
      Crash.ReachesSelf(Setup(), node);
      F.CarriesSelf(Flowing(), feed.State(), sound);
      CoherentIndexes();
      IndexFacts(ix);
      var stale := StaleJobs(ix);
      ghost var a, was, published := ix.abs, seqNo, feed.published;
      StaleListed(a, stale);
      NothingTaken(a, now, published);
      for i := 0 to |stale|
        invariant Valid() && TakenBack(a, published, Elems(stale[..i]), now, ix.abs, feed.published)
        invariant seqNo <= was + i * (1 + Volume(a))
        invariant sound ==> old(sound) && Crash.Reaches(Setup(), old(node), node)
        invariant F.Carries(Flowing(), old(feed.State()), feed.State(), sound)
        invariant old(sound) && !sound ==> Strained(a, was, now)
      {
        FreedNext(a, stale, i, now);
        TakenFreed(a, published, Elems(stale[..i]), now, ix.abs, feed.published);
        ghost var mid, here, sure, before, b := node, feed.State(), sound, seqNo, ix.abs;
        var error := ReclaimOne(stale[i], now, envs(i));
        ReachesOn(old(node), mid);
        F.CarriesTrans(Flowing(), old(feed.State()), here, feed.State(), sure, sound);
        if Shows(here.published, Reclaimed(b.jobs[stale[i]], now), feed.published) {
          TakenNext(a, published, stale, i, now, b, here.published, feed.published);
        }
        if sure && !sound {
          Strains(a, was, before, stale, i, now);
        }
        if error.Some? {
          return error;
        }
        TakenFreed(a, published, Elems(stale[..i + 1]), now, ix.abs, feed.published);
        assert (i + 1) * (1 + Volume(a)) == i * (1 + Volume(a)) + 1 + Volume(a);
      }
      assert stale[..|stale|] == stale;
      TakenFreed(a, published, Stale(a), now, ix.abs, feed.published);
      FreedAll(a, now);
      FreedLaw(a, now);
      res := None;
    }
  }

  /** Opening a store on a file with any content. If the content is what the end of a process, by a power
      loss or in any other way, may have left to the path, opening succeeds, and the store continues the part of the history that
      the content tells. Nothing is synced: after a power loss there is one content, and otherwise whatever the path might have
      shown after one it still may. */
  method Open(codec: Codec, opts: Options, content: Bytes, size: nat, ghost prior: Crash.Node, ghost how: Crash.Ending)
    returns (r: Result<Store, Error>)
    requires codec.Valid() && size >= 1
    ensures r.Err? ==> Recover(codec, content) == Err(r.error)
    ensures r.Ok? ==>
              var s := r.value;
              && fresh(s) && fresh(s.ix) && fresh(s.feed) && s.codec == codec && s.opts == opts.WithDefaults()
              && s.health.None? && !s.closed && s.file == content[..Good(content)]
              && (exists mutated :: Recover(codec, content) == Ok(Recovered(s.ix.abs, s.seqNo, s.eventCount, mutated)))
              && s.Recovering(s.file) && s.Presented(EventsOf(codec, Split(content).complete))
    ensures var g := Crash.Setup(codec, opts.WithDefaults());
            Crash.Inv(g, prior) && Crash.Left(prior, how, content) ==>
              && r.Ok? && r.value.Valid() && r.value.sound
              && Crash.Reaches(g, prior, r.value.node) && Crash.Reopens(prior, how, content, r.value.node)
  {
    hide Crash.Inv, Crash.Tracks, Crash.Reaches, Recover, Split, UnambiguousLines, Linked, Store.Reading, Indexes.Complete, Indexes.Coherent,
         RequestRefs, AttemptRefs, Fit, InOrder, EventsOf, RingOf, Plains;
    var s := new Store(codec, opts, content);
    s.Blank();
    ghost var g := Crash.Setup(codec, opts.WithDefaults());
    ghost var continues := Crash.Inv(g, prior) && Crash.Left(prior, how, content);
    ghost var node := prior;
    if continues {
      ghost var es, reopened := Crash.Reopened(g, prior, how, content);
      node := reopened;
    }
    var error := s.ReadLog(size);
    if error.Some? {
      r := Err(error.value);
    } else {
      ghost var mutated :| Recover(codec, content) == Ok(Recovered(s.ix.abs, s.seqNo, s.eventCount, mutated));
      s.node, s.sound := node, continues;
      assert Recover(codec, content) == Ok(Recovered(s.ix.abs, s.seqNo, s.eventCount, mutated));
      if continues {
        assert s.Presented(EventsOf(codec, Split(content).complete));
        s.Continued();
      }
      r := Ok(s);
    }
  }

  lemma EmptyFile(c: Codec)
    ensures Recover(c, []) == Ok(START) && Good([]) == 0
  {
  }

  lemma FirstPresented(s: Store)
    requires s.Presented(EventsOf(s.codec, Split([]).complete))
    ensures s.feed.published == [] && s.feed.ring == [] && s.feed.subs == {}
  {
    hide Feed.Valid, InOrder;
    assert Split([]).complete == [];
  }

  /** Opening a file that was just created. */
  lemma CreatedReopens(g: Crash.Setup, n: Crash.Node)
    requires n == Crash.Node(EMPTY, [], [], Crash.Created(0), 0, None, true) && g.codec.Valid() && g.opts.Positive()
    ensures Crash.Inv(g, n) && Crash.Left(n, Crash.Exited, [])
    ensures forall m: Crash.Node :: Crash.Reopens(n, Crash.Exited, [], m) ==> m.disk == Crash.Created(0) && m.hist == [] && m.base == EMPTY
  {
    hide Crash.Inv, Crash.Init;
    Crash.CreatedInit(g);
    Crash.InitInv(g, n);
    EmptyFile(g.codec);
    hide Good;
  }

  /** Opening a store on a new, empty file. */
  method OpenNew(codec: Codec, opts: Options, size: nat) returns (s: Store)
    requires codec.Valid() && size >= 1
    ensures fresh(s) && fresh(s.ix) && fresh(s.feed) && s.codec == codec && s.opts == opts.WithDefaults()
    ensures s.Valid() && s.sound && s.health.None? && !s.closed
    ensures s.ix.abs == EMPTY && s.seqNo == 0 && s.eventCount == 0 && s.file == []
    ensures s.feed.published == [] && s.feed.ring == [] && s.feed.subs == {}
    ensures F.FlowValid(s.Flowing(), s.feed.State()) && F.Filled(s.feed.State())
    ensures s.node.disk == Crash.Created(0) && s.node.hist == [] && s.node.base == EMPTY
  {
    hide Crash.Inv, Crash.Init, Crash.Reaches, Store.Valid, Store.Recovering, Store.Presented, Split, EventsOf, Recover, ReplayLines, Crash.Reopens,
         Crash.Left, Crash.Created, F.FlowValid, Good;
    ghost var g := Crash.Setup(codec, opts.WithDefaults());
    ghost var prior := Crash.Node(EMPTY, [], [], Crash.Created(0), 0, None, true);
    CreatedReopens(g, prior);
    EmptyFile(codec);
    var r := Open(codec, opts, [], size, prior, Crash.Exited);
    s := r.value;
    FirstPresented(s);
    s.StreamsValid();
  }

  lemma CaptureStands(s: Store, a: Abs, v: View, r: Request, job: Option<Job>)
    requires Linked(s.codec, a) && s.Announced(a, v, Capturing, Some(r), None, job)
    ensures s.health.None? && r.id in s.ix.abs.requests
    ensures job.Some? ==> job.value.id in s.ix.abs.jobs && s.ix.abs.jobs[job.value.id] == job.value
  {
    hide Linked, Commits, Apply, Store.Logged, Store.Taken, Store.Offered;
    var e :| Commits(s.codec, s.opts, a, Capturing, e) && s.ix.abs == Apply(a, e) && e.request == Some(r) && e.job == job;
    Crash.CaptureWhole(s.codec, s.opts, a, e);
  }

  lemma DefaultsStay(s: Store)
    requires s.Valid()
    ensures s.codec.Valid() && s.opts.WithDefaults() == s.opts
  {
    s.CoherentIndexes();
  }

  lemma AnnouncedHealthy(s: Store, a: Abs, v: View, op: Op, request: Option<Request>, attempt: Option<Attempt>, job: Option<Job>)
    requires s.Announced(a, v, op, request, attempt, job)
    ensures v.health.None? && s.health.None?
  {
    hide Commits, Apply, Store.Logged, Store.Taken, Store.Offered;
  }

  lemma HealthyNode(s: Store)
    requires s.Valid() && s.sound && s.health.None?
    ensures Crash.Inv(s.Setup(), s.node) && s.node.healthy
  {
    hide Store.Shell, Store.Streaming, Crash.Inv;
  }

  /** What the path may show once an operation has gone through. */
  lemma AnnouncedSettles(s: Store, a: Abs, v: View, n: Crash.Node, op: Op, request: Option<Request>, attempt: Option<Attempt>, job: Option<Job>)
    requires s.Valid() && s.sound && s.Announced(a, v, op, request, attempt, job)
    requires Crash.Inv(s.Setup(), n) && n.healthy && n.disk == v.disk
    ensures Crash.Settled(s.node) <==> n.disk.others == iset{} || v.eventCount + 1 > s.opts.maxEvents
  {
    hide Store.Shell, Store.Streaming, Commits, Apply, Store.Taken, Store.Offered, Crash.Inv, Store.Rewritten, Crash.Settled;
    HealthyNode(s);
    var e :| Commits(s.codec, s.opts, a, op, e) && s.ix.abs == Apply(a, e) && s.Logged(e, v);
    if v.eventCount + 1 > s.opts.maxEvents {
      Crash.AloneSettles(s.Setup(), s.node.disk.file, s.node);
    } else {
      assert s.Logged(e, v);
      Crash.ExtendedSettles(s.Setup(), n, s.codec.Line(e), s.node);
    }
  }

  lemma ToldAll(s: Store, i: Crash.Image)
    requires Crash.Inv(s.Setup(), s.node) && s.node.healthy
    ensures Crash.Live(s.node.disk) in Crash.Images(s.node.disk)
    ensures i in Crash.Images(s.node.disk) && Crash.Settled(s.node) ==> i.told == |s.node.hist|
  {
    hide Crash.Explained, Crash.Tells, IsRun, Crash.Ordered, Linked;
  }

  /** The content that is opened tells all, if the process only ended or all was certain. */
  lemma FoundAll(s: Store, how: Crash.Ending, content: Bytes)
    requires s.Valid() && s.sound && s.health.None? && Crash.Left(s.node, how, content) && (how.Exited? || Crash.Settled(s.node))
    ensures Recover(s.codec, content).Ok? && Recover(s.codec, content).value.abs == s.ix.abs
  {
    var i := match how case PowerLost(told) => Crash.Image(content, told) case Exited => Crash.Live(s.node.disk);
    hide Store.Valid, Crash.Inv, Recover, After, Linked;
    s.Recoverable(i);
    HealthyNode(s);
    ToldAll(s, i);
  }

  /** An acknowledged capture is found again, with its job, by whoever opens the store next: after any end of the process but a power
      loss always, and after a power loss right away exactly if no other file than the store's could be found at the path, or the
      capture made the store rewrite its log. What follows later is for `Crash.WorkSurvives` to say. */
  method AcceptAndReopen(s: Store, r: Request, job: Option<Job>, env: Env, content: Bytes, ghost how: Crash.Ending, size: nat)
    returns (res: Result<Accepted, Error>, t: Result<Store, Error>)
    requires s.Valid() && s.sound && s.seqNo < MAX_SEQ && s.Intent(r, job) && Holders(s.ix.abs, KeyOf(r)) == {} && size >= 1
    modifies s`file, s`health, s`seqNo, s`eventCount, s`node, s`sound, s.ix, s.feed
    ensures s.Valid()
    ensures res.Ok? && SnapshotFits(s.codec, s.ix.abs) ==>
              (Crash.Settled(s.node) <==> old(s.node.disk.others) == iset{} || old(s.eventCount) + 1 > s.opts.maxEvents)
    ensures res.Ok? && SnapshotFits(s.codec, s.ix.abs) && Crash.Left(s.node, how, content) && (how.Exited? || Crash.Settled(s.node)) ==>
              && t.Ok? && t.value.Valid() && t.value.sound && t.value.ix.abs == s.ix.abs && r.id in t.value.ix.abs.requests
              && (job.Some? ==> job.value.id in t.value.ix.abs.jobs && t.value.ix.abs.jobs[job.value.id] == job.value)
              && Crash.Reaches(s.Setup(), old(s.node), t.value.node)
  {
    hide Store.Core, Store.Streaming, Store.Announced, Linked, Crash.Inv, Crash.Reaches, F.Carries, SnapshotFits, Holders, CaptureRefusal, Recover,
         Store.CapturedAs, Store.CaptureExcused, Store.Answered, Store.Recovering, Store.Presented, Indexes.Coherent, Indexes.Complete,
         Crash.Settled, Crash.Left, Crash.Reopens;
    s.CoherentIndexes();
    ghost var a, v, n := s.ix.abs, s.Outside(), s.node;
    if s.health.None? {
      HealthyNode(s);
    }
    res := s.Accept(r, job, env);
    DefaultsStay(s);
    ghost var mid := s.node;
    t := Open(s.codec, s.opts, content, size, s.node, how);
    if res.Ok? && s.sound {
      CaptureStands(s, a, v, r, job);
      AnnouncedHealthy(s, a, v, Capturing, Some(r), None, job);
      AnnouncedSettles(s, a, v, n, Capturing, Some(r), None, job);
      HealthyNode(s);
      if Crash.Left(s.node, how, content) && (how.Exited? || Crash.Settled(s.node)) {
        FoundAll(s, how, content);
        Crash.ReachesTrans(s.Setup(), n, mid, t.value.node);
      }
    }
  }

  lemma CaptureProduced(o: Options, a: Abs, r: Request)
    requires r.id !in a.requests && Holders(a, KeyOf(r)) == {} && |a.requests| < o.maxCaptures
    ensures Produces(o, a, Capturing, CaptureEvent(r, None, []))
  {
  }

  /** The state after one capture in an empty store. */
  lemma FirstCapture(r: Request, x: Event, next: Request)
    requires x == CaptureEvent(r, None, []).(seqNo := x.seqNo, at := x.at) && r.id != next.id && KeyOf(r) != KeyOf(next)
    ensures Apply(EMPTY, x) == Abs(map[r.id := r], map[], map[])
    ensures Holders(Apply(EMPTY, x), KeyOf(next)) == {} && next.id !in Apply(EMPTY, x).requests && |Apply(EMPTY, x).requests| == 1
    ensures forall y: Event :: y.request == Some(next) && y.evictedRequestIDs == [] && y.evictedJobIDs == [] && y.attempt.None? && y.job.None? ==>
              next.id in Apply(Apply(EMPTY, x), y).requests
  {
  }

  lemma NobodyHolds(k: Key)
    ensures Holders(EMPTY, k) == {}
  {
  }

  /** An append that returns an error although its event is committed: the second capture of a store that compacts its log
      after every event, when the rewrite of the log fails. */
  method CommittedDespiteError(codec: Codec, first: Request, second: Request, now: Time, size: nat) returns (s: Store, r: Result<Event, Error>)
    requires codec.Valid() && size >= 1 && now != ZERO
    requires first.id != "" && second.id != "" && first.id != second.id && KeyOf(first) != KeyOf(second)
    requires DigestValid(codec, first) && DigestValid(codec, second)
    requires |codec.Line(Stamped(CaptureEvent(first, None, []), 0, now))| <= MAX_EVENT_BYTES
    requires |codec.Line(Stamped(CaptureEvent(second, None, []), 1, now))| <= MAX_EVENT_BYTES
    ensures r.Err? && s.health.Some? && second.id in s.ix.abs.requests
  {
    hide Store.Core, Store.Streaming, Store.Rewritten, Crash.Inv, Crash.Reaches, F.Carries, Exhausted, SnapshotFits, CaptureEvictions, Apply, Holders, KeyOf,
         Store.Taken, Store.Offered, Store.Announced, Store.Halted, Store.Lengthens, Linked, Indexes.Coherent, Indexes.Complete, F.FlowValid, F.Filled;
    s := OpenNew(codec, Options(0, 1, 0, 0, 0, 0, 0, 0), size);
    var e := CaptureEvent(first, None, []);
    NobodyHolds(KeyOf(first));
    CaptureProduced(s.opts, EMPTY, first);
    var done := s.AppendLocked(e, Env(now, NoFault, RewriteWorks), Capturing);
    assert done.Ok?;
    FirstCapture(first, done.value, second);
    CaptureProduced(s.opts, s.ix.abs, second);
    r := s.AppendLocked(CaptureEvent(second, None, []), Env(now, NoFault, BeforeRename), Capturing);
  }
}
