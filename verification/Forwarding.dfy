/** The application's side of a forwarding job and of a delivery: what it asks of the store, and in which order. */
module Forwarding {
  import opened Wrappers
  import opened Model
  import opened Spec
  import opened Linkage
  import opened IndexMaps
  import opened IndexTable
  import opened Operations
  import opened Queries
  import opened Retry
  import S = Store
  import Crash
  import F = Flows

  datatype Policy = Policy(attempts: int, baseBackoff: int, maxBackoff: int, parsers: Parsers)

  /** What the destination did: an error instead of a response, or a response. */
  datatype Reply = Reply(
    error: Option<string>, status: int, headers: Header, body: Bytes, retryAfter: string,
    started: Time, answered: Time, finished: Time)

  /** What the forwarding of a job finds outside the store. */
  datatype World = World(attemptID: Option<string>, reply: Reply, jitter: int, wild: int)

  datatype Done =
    | Skipped(error: Error)          // the request could not be loaded
    | Discarded(refusal: Option<Error>)
    | Recorded(attempt: Attempt, state: JobState, availableAt: Time)
    | Unrecorded(attempt: Attempt, state: JobState, availableAt: Time, error: Error)

  /** The attempt record of a reply. */
  function AttemptOf(id: string, j: Job, n: int, r: Reply): Attempt {
    Attempt(id, j.id, j.requestID, j.url, if r.error.Some? then r.error.value else "", n, r.status, r.started, r.finished, r.headers, r.body)
  }

  /** The delay the destination asks for, if there was a response that asks for one. */
  function Asked(p: Policy, r: Reply): Option<int> {
    if r.error.Some? && r.status == 0 then None else ParseRetry(p.parsers, r.retryAfter, r.answered)
  }

  function RetryTime(p: Policy, n: int, w: World): Time
    requires n >= 1
  {
    w.reply.finished + Delay(Asked(p, w.reply), Backoff(p.baseBackoff, n, w.jitter, w.wild), p.maxBackoff)
  }

  /** A status as `%d` prints it. */
  function Decimal(n: int): string
    decreases if n < 0 then 1 - n else n
  {
    if n < 0 then "-" + Decimal(-n)
    else if n < 10 then [('0' as int + n) as char]
    else Decimal(n / 10) + [('0' as int + n % 10) as char]
  }

  function MessageOf(state: JobState, status: int): string {
    if state == Fatal then "non-retryable status " + Decimal(status) else if state == DeadLetter then "attempts exhausted" else ""
  }

  const NO_REQUEST := "request missing"
  const NO_IDENTIFIER := "attempt ID unavailable"

  /** How a discard ends: with the job poisoned, if the owner held the lease; with an error, with nothing done or, in a store
      that is poisoned itself, with the job poisoned all the same. */
  ghost predicate Poisoned(a: Abs, s: S.Store, owner: string, j: Job, message: string, clock: Time, refusal: Option<Error>)
    reads s, s.ix
  {
    && (refusal.None? ==> HoldsLease(a, j.id, owner) && s.ix.abs == AddJob(a, Some(PoisonedJob(a.jobs[j.id], message, clock))))
    && (refusal.Some? ==> s.ix.abs == a || (s.health.Some? && HoldsLease(a, j.id, owner)
                                            && s.ix.abs == AddJob(a, Some(PoisonedJob(a.jobs[j.id], message, clock)))))
    && (!HoldsLease(a, j.id, owner) ==> refusal == Some(LeaseLost))
  }

  method Finish(s: S.Store, owner: string, j: Job, message: string, env: S.Env) returns (done: Done)
    requires s.Valid()
    modifies s`file, s`health, s`seqNo, s`eventCount, s`node, s`sound, s.ix, s.feed
    ensures s.Valid() && done.Discarded? && Poisoned(old(s.ix.abs), s, owner, j, message, env.now, done.refusal)
    ensures s.sound ==> old(s.sound) && Crash.Reaches(s.Setup(), old(s.node), s.node)
    ensures F.Carries(s.Flowing(), old(s.feed.State()), s.feed.State(), s.sound)
    ensures old(s.sound) && !s.sound ==> old(s.seqNo) == MAX_SEQ || !S.SnapshotFits(s.codec, s.ix.abs)
  {
    hide S.Store.Core, S.Store.Streaming, S.Store.Excused, Crash.Reaches, F.Carries, S.Store.Outside, HoldsLease, AddJob,
         S.SnapshotFits, S.Store.Announced, Linked, Indexes.Coherent, Indexes.Complete;
    var error := s.FinishWithoutAttempt(j.id, owner, Poison, message, env);
    done := Discarded(error);
  }

  /** The switch of `forward`: the state, the message and the due time of an outcome. A reply without an error and with a status
      of the two hundreds succeeds. An error, and the statuses 0, 408, 425, 429 and the five hundreds, are retried as long as
      attempts are left. Every other reply is final. */
  method Decide(p: Policy, n: int, w: World) returns (state: JobState, message: string, availableAt: Time)
    requires n >= 1
    ensures var r := w.reply;
            && (r.error.None? && 200 <= r.status <= 299 ==> state == Succeeded)
            && (r.error.Some? || r.status in {0, 408, 425, 429} || 500 <= r.status <= 599 ==>
                  state == if n < p.attempts then Retrying else DeadLetter)
            && (r.error.None? && !(200 <= r.status <= 299) && r.status !in {0, 408, 425, 429} && !(500 <= r.status <= 599) ==> state == Fatal)
    ensures state == OutcomeOf(w.reply.error.Some?, w.reply.status, n, p.attempts)
    ensures message == MessageOf(state, w.reply.status)
    ensures availableAt == if state == Retrying then RetryTime(p, n, w) else ZERO
  {
    hide Backoff, Asked, Decimal;
    var r := w.reply;
    state, message, availableAt := Succeeded, "", ZERO;
    if r.error.None? && 200 <= r.status < 300 {
    } else if r.error.None? && !RetryStatus(r.status) {
      state, message := Fatal, "non-retryable status " + Decimal(r.status);
    } else if n >= p.attempts {
      state, message := DeadLetter, "attempts exhausted";
    } else {
      state := Retrying;
      var retry := Asked(p, r);
      var delay := if retry.Some? then retry.value else Backoff(p.baseBackoff, n, w.jitter, w.wild);
      if delay > p.maxBackoff {
        delay := p.maxBackoff;
      }
      availableAt := r.finished + delay;
    }
  }

  /** What forwarding a job has done to the store: the owner held the lease; the attempt carries the number after the
      highest one; the state is what the retry policy says; a retry is due after the delay the policy says. */
  ghost predicate Follows(a: Abs, s: S.Store, owner: string, j: Job, p: Policy, w: World, x: Attempt, state: JobState, availableAt: Time, clock: Time)
    reads s, s.ix
  {
    exists count, message ::
      && IsHighest(a, j.id, count) && count >= 0 && w.attemptID.Some? && x == AttemptOf(w.attemptID.value, j, count + 1, w.reply)
      && state == OutcomeOf(w.reply.error.Some?, w.reply.status, count + 1, p.attempts)
      && availableAt == (if state == Retrying then RetryTime(p, count + 1, w) else ZERO)
      && message == MessageOf(state, w.reply.status)
      && s.RecordedAs(a, j.id, owner, x, state, message, availableAt, clock)
  }

  /** A retry that was recorded is due within the maximal backoff of the attempt's end, and only if attempts are left. */
  lemma RetryDue(p: Policy, n: int, w: World)
    requires n >= 1 && p.baseBackoff >= 0 && 0 <= p.maxBackoff <= MAX_DURATION && Jitter(w.jitter) && IsDuration(w.wild)
    requires Asked(p, w.reply).Some? || !Overflows(p.baseBackoff, n, w.jitter)
    ensures w.reply.finished <= RetryTime(p, n, w) <= w.reply.finished + p.maxBackoff
  {
    hide RawBackoff, ParseRetry;
    RetryAfterNonNegative(p.parsers, w.reply.retryAfter, w.reply.answered);
    RawBounds(p.baseBackoff, n, w.jitter);
  }

  /** The outcome by its statuses: a success, a retry while attempts are left, or a final failure. */
  lemma OutcomeText(r: Reply, n: int, attempts: int, state: JobState)
    requires state == OutcomeOf(r.error.Some?, r.status, n, attempts)
    ensures state == if r.error.None? && 200 <= r.status <= 299 then Succeeded
                     else if r.error.None? && r.status !in {0, 408, 425, 429} && !(500 <= r.status <= 599) then Fatal
                     else if n < attempts then Retrying else DeadLetter
  {
    OutcomeLaw(r.error.Some?, r.status, n, attempts);
    hide OutcomeOf;
  }

  /** What is recorded of a reply, and the job as it then stands in the store. */
  lemma FollowsLaw(a: Abs, s: S.Store, owner: string, j: Job, p: Policy, w: World, x: Attempt, state: JobState, availableAt: Time, clock: Time)
    requires Follows(a, s, owner, j, p, w, x, state, availableAt, clock) && Keyed(a)
    ensures w.attemptID.Some? && x.number >= 1
    ensures var r := w.reply;
            x == Attempt(w.attemptID.value, j.id, j.requestID, j.url, if r.error.Some? then r.error.value else "", x.number, r.status, r.started,
                         r.finished, r.headers, r.body)
    ensures var r := w.reply;
            state == if r.error.None? && 200 <= r.status <= 299 then Succeeded
                     else if r.error.None? && r.status !in {0, 408, 425, 429} && !(500 <= r.status <= 599) then Fatal
                     else if x.number < p.attempts then Retrying else DeadLetter
    ensures j.id in a.jobs && j.id in s.ix.abs.jobs
    ensures var was, job := a.jobs[j.id], s.ix.abs.jobs[j.id];
            && was.state == Leased && was.leaseOwner == owner
            && job.id == j.id && job.requestID == was.requestID && job.url == was.url && job.createdAt == was.createdAt
            && job.state == state && job.leaseOwner == "" && job.leaseExpiresAt == 0
            && job.error == (if state == Fatal then "non-retryable status " + Decimal(w.reply.status)
                             else if state == DeadLetter then "attempts exhausted" else "")
            && job.availableAt == (if state == Retrying then RetryTime(p, x.number, w) else 0)
  {
    hide IsHighest, RetryTime, S.Store.RecordedAs, Keyed, OutcomeOf, Decimal;
    var count, message :|
      && IsHighest(a, j.id, count) && count >= 0 && w.attemptID.Some? && x == AttemptOf(w.attemptID.value, j, count + 1, w.reply)
      && state == OutcomeOf(w.reply.error.Some?, w.reply.status, count + 1, p.attempts)
      && availableAt == (if state == Retrying then RetryTime(p, count + 1, w) else ZERO)
      && message == MessageOf(state, w.reply.status)
      && s.RecordedAs(a, j.id, owner, x, state, message, availableAt, clock);
    OutcomeText(w.reply, count + 1, p.attempts, state);
    s.RecordLaw(a, j.id, owner, x, state, message, availableAt, clock);
  }

  /** A backoff that is not negative, and jitter and conversion of their types. */
  predicate Sensible(p: Policy, w: World) {
    p.baseBackoff >= 0 && 0 <= p.maxBackoff <= MAX_DURATION && Jitter(w.jitter) && IsDuration(w.wild)
  }

  /** When a retry is due: after the delay that the destination names, or after the backoff, but never before the end of the attempt
      nor later than the maximal backoff after it. */
  lemma DueLaw(p: Policy, n: int, w: World)
    requires n >= 1 && Sensible(p, w)
    ensures var r := w.reply;
            var named := p.parsers.seconds(r.retryAfter);
            && (Asked(p, r).Some? || !Overflows(p.baseBackoff, n, w.jitter) ==> r.finished <= RetryTime(p, n, w) <= r.finished + p.maxBackoff)
            && (r.retryAfter != "" && named.Some? && 0 <= named.value <= 9_223_372_036 && !(r.error.Some? && r.status == 0) ==>
                  RetryTime(p, n, w) == r.finished + if named.value * SECOND < p.maxBackoff then named.value * SECOND else p.maxBackoff)
  {
    ParseLaw(p.parsers, w.reply.retryAfter, w.reply.answered);
    hide RawBackoff, ParseRetry;
    if Asked(p, w.reply).Some? || !Overflows(p.baseBackoff, n, w.jitter) {
      RetryDue(p, n, w);
    }
  }

  /** The second half of `forward`: classify the reply and record the attempt with its result. */
  method Report(s: S.Store, owner: string, j: Job, p: Policy, w: World, count: int, env: S.Env) returns (done: Done)
    requires s.Valid() && IsHighest(s.ix.abs, j.id, count) && count >= 0 && w.attemptID.Some?
    modifies s`file, s`health, s`seqNo, s`eventCount, s`node, s`sound, s.ix, s.feed
    ensures s.Valid() && (done.Recorded? || done.Unrecorded?)
    ensures done.Recorded? ==> Follows(old(s.ix.abs), s, owner, j, p, w, done.attempt, done.state, done.availableAt, env.now)
    ensures done.Unrecorded? ==>
              || s.ix.abs == old(s.ix.abs)
              || (s.health.Some? && Follows(old(s.ix.abs), s, owner, j, p, w, done.attempt, done.state, done.availableAt, env.now))
    ensures s.sound ==> old(s.sound) && Crash.Reaches(s.Setup(), old(s.node), s.node)
    ensures F.Carries(s.Flowing(), old(s.feed.State()), s.feed.State(), s.sound)
    ensures old(s.sound) && !s.sound ==> old(s.seqNo) == MAX_SEQ || !S.SnapshotFits(s.codec, s.ix.abs)
  {
    hide S.Store.Core, S.Store.Streaming, S.Store.RecordedAs, RetryTime, OutcomeOf, IsHighest, S.Store.Outside, F.Carries, Crash.Reaches, OutcomeRefusal, S.Store.Excused,
         S.SnapshotFits, S.Store.Announced, Linked, Indexes.Coherent, Indexes.Complete, Keyed, Asked, Overflows, Decimal;
    var x := AttemptOf(w.attemptID.value, j, count + 1, w.reply);
    var state, message, availableAt := Decide(p, count + 1, w);
    var error := s.RecordAttempt(j.id, owner, x, state, message, availableAt, env);
    done := if error.None? then Recorded(x, state, availableAt) else Unrecorded(x, state, availableAt, error.value);
  }

  lemma HighestPositive(a: Abs, jobID: string, n: int)
    requires IsHighest(a, jobID, n)
    ensures n >= 0
  {
  }

  lemma ReadableSound(s: S.Store)
    requires s.Valid()
    ensures s.sound ==> s.Readable()
  {
    hide S.Store.Indexing, S.Store.Referenced, S.Store.Readable, S.Store.Durable, S.Store.Streaming;
  }

  /** `forward`: load the request, send its body, and record what came of it. */
  method Forward(s: S.Store, owner: string, j: Job, p: Policy, w: World, finish: S.Env, record: S.Env)
    returns (sent: Option<Bytes>, done: Done)
    requires s.Valid()
    modifies s`file, s`health, s`seqNo, s`eventCount, s`node, s`sound, s.ix, s.feed
    ensures s.Valid()
    ensures sent.Some? ==> j.requestID in old(s.ix.abs.requests) && sent.value == old(s.ix.abs.requests)[j.requestID].body
    ensures done.Skipped? ==> s.ix.abs == old(s.ix.abs) && (s.closed || !old(s.sound))
    ensures done.Discarded? ==>
              && (if j.requestID !in old(s.ix.abs.requests) then Poisoned(old(s.ix.abs), s, owner, j, "request missing", finish.now, done.refusal)
                  else w.attemptID.None? && Poisoned(old(s.ix.abs), s, owner, j, "attempt ID unavailable", finish.now, done.refusal))
    ensures done.Recorded? ==> sent.Some? && Follows(old(s.ix.abs), s, owner, j, p, w, done.attempt, done.state, done.availableAt, record.now)
    ensures done.Recorded? ==>
              var r, x := w.reply, done.attempt;
              && w.attemptID.Some? && x.number >= 1
              && x == Attempt(w.attemptID.value, j.id, j.requestID, j.url, if r.error.Some? then r.error.value else "", x.number, r.status, r.started,
                              r.finished, r.headers, r.body)
              && done.state == (if r.error.None? && 200 <= r.status <= 299 then Succeeded
                                else if r.error.None? && r.status !in {0, 408, 425, 429} && !(500 <= r.status <= 599) then Fatal
                                else if x.number < p.attempts then Retrying else DeadLetter)
              && j.id in s.ix.abs.jobs && s.ix.abs.jobs[j.id].state == done.state && s.ix.abs.jobs[j.id].leaseOwner == ""
    ensures done.Recorded? && done.state == Retrying ==>
              var r, due := w.reply, s.ix.abs.jobs[j.id].availableAt;
              && due == RetryTime(p, done.attempt.number, w)
              && (Sensible(p, w) && (Asked(p, r).Some? || !Overflows(p.baseBackoff, done.attempt.number, w.jitter)) ==>
                    r.finished <= due <= r.finished + p.maxBackoff)
    ensures done.Unrecorded? ==>
              || s.ix.abs == old(s.ix.abs)
              || (s.health.Some? && Follows(old(s.ix.abs), s, owner, j, p, w, done.attempt, done.state, done.availableAt, record.now))
    ensures s.sound ==> old(s.sound) && Crash.Reaches(s.Setup(), old(s.node), s.node)
    ensures F.Carries(s.Flowing(), old(s.feed.State()), s.feed.State(), s.sound)
    ensures old(s.sound) && !s.sound ==> old(s.seqNo) == MAX_SEQ || !S.SnapshotFits(s.codec, s.ix.abs)
  {
    hide S.Store.Core, S.Store.Streaming, S.Store.Readable, S.Store.RecordedAs, Backoff, HoldsLease, IsHighest,
         Asked, OutcomeRefusal, S.Store.Excused,
         Crash.Reaches, F.Carries, S.SnapshotFits, S.Store.Announced, Linked, Indexes.Coherent, Indexes.Complete, Keyed, Overflows, Decimal;
    sent := None;
    s.CoherentIndexes();
    ReadableSound(s);
    ghost var a := s.ix.abs;
    Crash.ReachesSelf(s.Setup(), s.node);
    F.CarriesSelf(s.Flowing(), s.feed.State(), s.sound);
    var loaded := s.Load(j.requestID);
    if loaded.Err? {
      return None, Skipped(loaded.error);
    }
    if loaded.value.None? {
      done := Finish(s, owner, j, NO_REQUEST, finish);
      return;
    }
    var count := AttemptsForJob(s.ix, j.id);
    HighestPositive(s.ix.abs, j.id, count);
    if w.attemptID.None? {
      done := Finish(s, owner, j, NO_IDENTIFIER, finish);
      return;
    }
    sent := Some(loaded.value.value.0.body);
    S.LinkedFacts(s.codec, a);
    done := Report(s, owner, j, p, w, count, record);
    if done.Recorded? {
      FollowsLaw(a, s, owner, j, p, w, done.attempt, done.state, done.availableAt, record.now);
      if Sensible(p, w) {
        DueLaw(p, done.attempt.number, w);
      }
    }
  }

  lemma CommitOwnAttempt(c: Codec, o: Options, a: Abs, owner: string, e: Event)
    requires Commits(c, o, a, Recording(owner), e)
    ensures e.attempt.Some? && e.job.Some? && e.job.value.id == e.attempt.value.jobID
  {
    hide StateValid;
  }

  /** What forwarding records is what the lease protocol asks of its workers: a committed outcome of the owner, with the number
      after the highest one, that never retries after the last permitted attempt. */
  lemma ObeysProtocol(a: Abs, s: S.Store, owner: string, j: Job, p: Policy, w: World, x: Attempt, state: JobState, availableAt: Time, clock: Time)
    requires Follows(a, s, owner, j, p, w, x, state, availableAt, clock)
    ensures IsHighest(a, j.id, x.number - 1)
    ensures exists e :: Commits(s.codec, s.opts, a, Recording(owner), e) && s.ix.abs == Apply(a, e)
                        && e.attempt == Some(x) && e.job.Some? && e.job.value.id == x.jobID && e.job.value.state == state
                        && (x.number >= p.attempts ==> state != Retrying)
  {
    hide IsHighest, Commits, Apply, Backoff, ParseRetry, OutcomeRefusal;
    var count, message :|
      && IsHighest(a, j.id, count) && count >= 0 && w.attemptID.Some? && x == AttemptOf(w.attemptID.value, j, count + 1, w.reply)
      && state == OutcomeOf(w.reply.error.Some?, w.reply.status, count + 1, p.attempts)
      && s.RecordedAs(a, j.id, owner, x, state, message, availableAt, clock);
    LastAttemptFinal(w.reply.error.Some?, w.reply.status, count + 1, p.attempts);
    var e :| Commits(s.codec, s.opts, a, Recording(owner), e) && e.attempt == Some(x) && e.job.Some? && e.job.value.state == state && s.ix.abs == Apply(a, e);
    CommitOwnAttempt(s.codec, s.opts, a, owner, e);
  }

  /* ---- deliveries ---- */

  lemma RepairedHasJob(s: S.Store, a: Abs, v: S.View, id: string, r: Request, job: Option<Job>, res: Result<S.Accepted, Error>)
    requires s.Answered(a, v, id, r, job, res) && res.Ok? && job.Some?
    ensures res.value.result == S.Duplicate ==> JobsOf(s.ix.abs, id) != {}
  {
    hide Preferred;
    if JobsOf(a, id) == {} && res.value.result == S.Duplicate {
      assert job.value.id in JobsOf(s.ix.abs, id);
    }
  }

  /** `ingest`, from the point where the delivery has been read and verified: the status of the answer. */
  method Ingest(s: S.Store, r: Request, job: Option<Job>, env: S.Env) returns (status: int)
    requires s.Valid() && s.Intent(r, job)
    modifies s`file, s`health, s`seqNo, s`eventCount, s`node, s`sound, s.ix, s.feed
    ensures s.Valid() && status in {202, 200, 409, 507, 500}
    ensures status == 202 ==>
              && Holders(old(s.ix.abs), KeyOf(r)) == {} && s.CapturedAs(old(s.ix.abs), r, job)
              && s.Announced(old(s.ix.abs), old(s.Outside()), Capturing, Some(r), None, job)
    ensures status == 409 || status == 200 ==>
              exists id :: Holders(old(s.ix.abs), KeyOf(r)) == {id} && id in old(s.ix.abs.requests)
                           && (status == 409 <==> old(s.ix.abs.requests)[id].bodySHA256 != r.bodySHA256)
                           && (status == 409 ==> s.ix.abs == old(s.ix.abs) && s.Outside() == old(s.Outside()))
                           && (status == 200 && job.Some? ==> JobsOf(s.ix.abs, id) != {})
    ensures status == 507 ==> CaptureRefusal(s.opts, old(s.ix.abs), r, job) == Some(Capacity)
                              && s.ix.abs == old(s.ix.abs) && s.Outside() == old(s.Outside())
    ensures status == 500 ==> s.ix.abs == old(s.ix.abs) || s.health.Some?
    ensures s.sound ==> old(s.sound) && Crash.Reaches(s.Setup(), old(s.node), s.node)
    ensures F.Carries(s.Flowing(), old(s.feed.State()), s.feed.State(), s.sound)
    ensures old(s.sound) && !s.sound ==> old(s.seqNo) == MAX_SEQ || !S.SnapshotFits(s.codec, s.ix.abs)
  {
    hide S.Store.Core, S.Store.Streaming, S.Store.CapturedAs, Holders, Crash.Reaches, Preferred, JobsOf, F.Carries, S.Store.Outside,
         S.Store.CaptureExcused, CaptureRefusal,
         S.SnapshotFits, S.Store.Announced, Linked, Indexes.Coherent, Indexes.Complete;
    var res := s.Accept(r, job, env);
    if res.Err? {
      return if res.error == Capacity then 507 else 500;
    }
    if Holders(old(s.ix.abs), KeyOf(r)) != {} {
      ghost var id :| Holders(old(s.ix.abs), KeyOf(r)) == {id} && s.Answered(old(s.ix.abs), old(s.Outside()), id, r, job, res);
      if job.Some? {
        RepairedHasJob(s, old(s.ix.abs), old(s.Outside()), id, r, job, res);
      }
    }
    status := match res.value.result
      case Conflict => 409
      case Duplicate => 200
      case Captured => 202;
  }
}
