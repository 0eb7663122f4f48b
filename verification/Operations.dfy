/** The guarded operations of the store: which event each of them appends in which state. */
module Operations {
  import opened Wrappers
  import opened Model
  import opened Spec
  import opened Linkage
  import opened Redaction

  /** An operation, with the arguments a history of the store remembers. `Reclaiming` is one turn of the
      loop in `RecoverLeases`. */
  datatype Op =
    | Capturing
    | Repairing
    | Enqueuing
    | Claiming(owner: string, now: Time, lease: int)
    | Reclaiming(now: Time)
    | Recording(owner: string)
    | Finishing(owner: string)

  ghost predicate RequestTerminal(a: Abs, id: string) {
    forall j :: j in JobsOf(a, id) ==> Terminal(a.jobs[j].state)
  }

  ghost predicate Distinct(s: seq<string>) {
    forall i, j :: 0 <= i < j < |s| ==> s[i] != s[j]
  }

  /** The requests a new capture evicts: exactly the overflow, fully terminal, oldest first. */
  ghost predicate CaptureEvictions(o: Options, a: Abs, ids: seq<string>) {
    && |ids| == (if |a.requests| + 1 - o.maxCaptures <= 0 then 0 else |a.requests| + 1 - o.maxCaptures)
    && Distinct(ids)
    && (forall x :: x in ids ==> x in a.requests && RequestTerminal(a, x))
    && (forall x, y :: x in ids && y in a.requests && RequestTerminal(a, y) && y !in ids ==>
                         a.requests[x].receivedAt <= a.requests[y].receivedAt)
  }

  /** The job an enqueue evicts when its request is full: a terminal one, none of the terminal ones older. */
  ghost predicate EnqueueEvictions(o: Options, a: Abs, requestID: string, ids: seq<string>) {
    if |JobsOf(a, requestID)| < o.maxJobsPerRequest then ids == []
    else
      && |ids| == 1 && ids[0] in JobsOf(a, requestID) && Terminal(a.jobs[ids[0]].state)
      && (forall k :: k in JobsOf(a, requestID) && Terminal(a.jobs[k].state) ==> a.jobs[ids[0]].createdAt <= a.jobs[k].createdAt)
  }

  predicate Eligible(j: Job, now: Time) {
    || j.state == Pending || j.state == Queued
    || (j.state == Retrying && j.availableAt <= now)
    || ((j.state == Leased || j.state == Running) && (j.leaseExpiresAt == ZERO || j.leaseExpiresAt <= now))
  }

  /** Who may be claimed at an instant: whoever waits, a retry that is due, and whoever holds no lease or an expired one. */
  lemma EligibleLaw(now: Time)
    ensures forall j: Job :: Eligible(j, now) <==>
                               match j.state
                               case Pending => true
                               case Queued => true
                               case Retrying => j.availableAt <= now
                               case Leased => j.leaseExpiresAt <= now || j.leaseExpiresAt == 0
                               case Running => j.leaseExpiresAt <= now || j.leaseExpiresAt == 0
                               case _ => false
  {
  }

  /** No instant makes a finished job eligible, and no other known state is finished. */
  lemma TerminalLaw(j: Job)
    ensures Terminal(j.state) ==> forall now :: !Eligible(j, now)
    ensures KnownState(j.state) && !Terminal(j.state) ==> exists now :: Eligible(j, now)
  {
    if KnownState(j.state) && !Terminal(j.state) {
      var now := if j.availableAt > j.leaseExpiresAt then j.availableAt else j.leaseExpiresAt;
      assert Eligible(j, now);
    }
  }

  /** The claim order: by availability, then by creation. */
  predicate Before(j: Job, k: Job) {
    j.availableAt < k.availableAt || (j.availableAt == k.availableAt && j.createdAt < k.createdAt)
  }

  /** The highest attempt number of the job in the list, 0 if there is none. */
  function MaxNumber(l: seq<Attempt>, jobID: string): int {
    if l == [] then 0
    else
      var p := MaxNumber(l[..|l| - 1], jobID);
      if l[|l| - 1].jobID == jobID && l[|l| - 1].number > p then l[|l| - 1].number else p
  }

  /** What `AttemptsForJob` returns: the highest number among the job's attempts, 0 without any. */
  ghost predicate IsHighest(a: Abs, jobID: string, n: int) {
    && n >= 0
    && (forall x :: x in All(a.attempts) && x.jobID == jobID ==> x.number <= n)
    && (n > 0 ==> exists x :: x in All(a.attempts) && x.jobID == jobID && x.number == n)
  }

  predicate OutcomeState(s: JobState) {
    s == Retrying || s == Succeeded || s == Fatal || s == DeadLetter
  }

  function LeasedTo(j: Job, owner: string, now: Time, lease: int): Job {
    j.(state := Leased, leaseOwner := owner, leaseExpiresAt := now + lease, updatedAt := now)
  }

  function Reclaimed(j: Job, now: Time): Job {
    j.(state := Pending, error := "", leaseOwner := "", leaseExpiresAt := ZERO, availableAt := now, updatedAt := now)
  }

  function Resolved(j: Job, state: JobState, message: string, now: Time, availableAt: Time): Job {
    j.(state := state, error := message, updatedAt := now, leaseOwner := "", leaseExpiresAt := ZERO,
       availableAt := availableAt, finishedAt := if Terminal(state) then now else j.finishedAt)
  }

  function PoisonedJob(j: Job, message: string, now: Time): Job {
    j.(state := Poison, error := message, updatedAt := now, finishedAt := now, leaseOwner := "", leaseExpiresAt := ZERO)
  }

  /** How the operations change a job, field by field. */
  lemma JobLaws(j: Job, owner: string, message: string, now: Time, lease: int)
    ensures LeasedTo(j, owner, now, lease)
         == Job(j.id, j.requestID, j.url, Leased, j.error, owner, j.createdAt, now, j.availableAt, now + lease, j.finishedAt)
    ensures Reclaimed(j, now) == Job(j.id, j.requestID, j.url, Pending, "", "", j.createdAt, now, now, 0, j.finishedAt)
    ensures PoisonedJob(j, message, now) == Job(j.id, j.requestID, j.url, Poison, message, "", j.createdAt, now, j.availableAt, 0, now)
  {
  }

  ghost predicate HoldsLease(a: Abs, jobID: string, owner: string) {
    jobID in a.jobs && a.jobs[jobID].state == Leased && a.jobs[jobID].leaseOwner == owner
  }

  /** In state `a` a successful `op` appends the event `e`. */
  ghost predicate Produces(o: Options, a: Abs, op: Op, e: Event) {
    match op {
      case Capturing =>
        && e.kind == CaptureAccepted && e.request.Some? && e.attempt.None? && e.evictedJobIDs == []
        && Holders(a, KeyOf(e.request.value)) == {}
        && e.request.value.id !in a.requests
        && (e.job.Some? ==> e.job.value.id !in a.jobs && e.job.value.requestID == e.request.value.id && e.job.value.state == Pending)
        && CaptureEvictions(o, a, e.evictedRequestIDs)
      case Repairing =>
        && e.kind == Forward(Pending) && e.request.None? && e.attempt.None? && e.job.Some?
        && e.evictedJobIDs == [] && e.evictedRequestIDs == []
        && e.job.value.id !in a.jobs && e.job.value.state == Pending
        && e.job.value.requestID in a.requests && JobsOf(a, e.job.value.requestID) == {}
      case Enqueuing =>
        && e.kind == Forward(Pending) && e.request.None? && e.attempt.None? && e.job.Some?
        && e.evictedRequestIDs == []
        && e.job.value.id !in a.jobs && e.job.value.state == Pending && e.job.value.requestID in a.requests
        && EnqueueEvictions(o, a, e.job.value.requestID, e.evictedJobIDs)
      case Claiming(owner, now, lease) =>
        && e.kind == Forward(Leased) && e.request.None? && e.attempt.None? && e.job.Some?
        && e.evictedJobIDs == [] && e.evictedRequestIDs == []
        && var id := e.job.value.id;
        && id in a.jobs && Eligible(a.jobs[id], now)
        && (forall k :: k in a.jobs && Eligible(a.jobs[k], now) ==> !Before(a.jobs[k], a.jobs[id]))
        && e.job.value == LeasedTo(a.jobs[id], owner, now, lease)
      case Reclaiming(now) =>
        && e.kind == Forward(Pending) && e.request.None? && e.attempt.None? && e.job.Some?
        && e.evictedJobIDs == [] && e.evictedRequestIDs == []
        && var id := e.job.value.id;
        && id in a.jobs && (a.jobs[id].state == Leased || a.jobs[id].state == Running)
        && e.job.value == Reclaimed(a.jobs[id], now)
      case Recording(owner) =>
        && e.request.None? && e.attempt.Some? && e.job.Some?
        && e.evictedJobIDs == [] && e.evictedRequestIDs == []
        && var j := e.job.value;
        && HoldsLease(a, j.id, owner)
        && OutcomeState(j.state) && e.kind == Forward(j.state)
        && e.attempt.value.number <= o.maxAttemptsPerJob
        && e.attempt.value.number == MaxNumber(AttemptsOf(a, a.jobs[j.id].requestID), j.id) + 1
        && (e.attempt.value.finishedAt != ZERO ==> j.updatedAt == e.attempt.value.finishedAt)
        && j == Resolved(a.jobs[j.id], j.state, j.error, j.updatedAt, j.availableAt)
      case Finishing(owner) =>
        && e.kind == Forward(Poison) && e.request.None? && e.attempt.None? && e.job.Some?
        && e.evictedJobIDs == [] && e.evictedRequestIDs == []
        && var j := e.job.value;
        && HoldsLease(a, j.id, owner)
        && j == PoisonedJob(a.jobs[j.id], j.error, j.updatedAt)
    }
  }

  /** An operation that succeeds: it produces the event, and the event passes the store's own checks. */
  ghost predicate Commits(c: Codec, o: Options, a: Abs, op: Op, e: Event) {
    Produces(o, a, op, e) && EventValid(c, e) && StateValid(a, e)
  }

  /* ---- the events the operations build ---- */

  function CaptureEvent(r: Request, job: Option<Job>, evicted: seq<string>): Event {
    Event(0, CaptureAccepted, ZERO, false, Some(r), None, job, evicted, [])
  }

  function JobEvent(j: Job, evicted: seq<string>): Event {
    Event(0, Forward(j.state), ZERO, false, None, None, Some(j), [], evicted)
  }

  function OutcomeEvent(j: Job, x: Attempt): Event {
    Event(0, Forward(j.state), ZERO, false, None, Some(x), Some(j), [], [])
  }

  /** What a run consists of: operations that append an event, and redactions. */
  datatype Entry = Commit(op: Op, event: Event) | Redact(policy: Policy)

  function Effect(a: Abs, x: Entry): Abs {
    match x {
      case Commit(_, e) => Apply(a, e)
      case Redact(p) => RedactAbs(p, a)
    }
  }

  ghost predicate Happens(c: Codec, o: Options, a: Abs, x: Entry) {
    x.Commit? ==> Commits(c, o, a, x.op, x.event)
  }

  /** The state after a run. */
  function After(a: Abs, run: seq<Entry>): Abs {
    if run == [] then a else Effect(After(a, run[..|run| - 1]), run[|run| - 1])
  }

  /** A run of successful operations and redactions from `a`. */
  ghost predicate IsRun(c: Codec, o: Options, a: Abs, run: seq<Entry>) {
    run == [] || (IsRun(c, o, a, run[..|run| - 1]) && Happens(c, o, After(a, run[..|run| - 1]), run[|run| - 1]))
  }

  lemma {:induction false} RunSplit(c: Codec, o: Options, a: Abs, h: seq<Entry>, run: seq<Entry>)
    requires IsRun(c, o, a, h + run)
    ensures IsRun(c, o, a, h) && IsRun(c, o, After(a, h), run)
    ensures After(a, h + run) == After(After(a, h), run)
    decreases |run|
  {
    hide Effect, Happens;
    if run == [] {
      assert h + run == h;
    } else {
      var init := run[..|run| - 1];
      assert (h + run)[..|h + run| - 1] == h + init;
      RunSplit(c, o, a, h, init);
    }
  }

  lemma {:induction false} RunPrefix(c: Codec, o: Options, a: Abs, run: seq<Entry>, n: nat)
    requires IsRun(c, o, a, run) && n <= |run|
    ensures IsRun(c, o, a, run[..n])
    decreases |run| - n
  {
    if n == |run| {
      assert run[..n] == run;
    } else {
      RunPrefix(c, o, a, run, n + 1);
      assert run[..n + 1][..n] == run[..n];
    }
  }

  /* ---- the invariant over runs ---- */

  ghost predicate Numbers(l: seq<Attempt>) {
    forall i :: 0 <= i < |l| ==> l[i].number == i + 1
  }

  function AttemptsByJob(a: Abs, jobID: string): seq<Attempt>
    requires jobID in a.jobs
  {
    Only(AttemptsOf(a, a.jobs[jobID].requestID), jobID)
  }

  /** The attempts of every job are numbered 1, 2, ..., k in stored order. */
  ghost predicate Numbered(a: Abs) {
    forall j :: j in a.jobs ==> Numbers(AttemptsByJob(a, j))
  }

  lemma ProducesDisciplined(c: Codec, o: Options, a: Abs, op: Op, e: Event)
    requires Linked(c, a) && Commits(c, o, a, op, e)
    ensures Disciplined(a, e)
  {
    hide Linked;
    match op {
      case Capturing =>
        assert forall x :: x in e.evictedRequestIDs ==> x in a.requests;
      case _ =>
    }
  }

  lemma CommitLinked(c: Codec, o: Options, a: Abs, op: Op, e: Event)
    requires Linked(c, a) && Commits(c, o, a, op, e)
    ensures Linked(c, Apply(a, e))
  {
    hide Linked, Produces, Apply, Disciplined, EventValid, StateValid;
    ProducesDisciplined(c, o, a, op, e);
    ApplyLinked(c, a, e);
  }

  lemma EffectLinked(c: Codec, o: Options, a: Abs, x: Entry)
    requires Linked(c, a) && Happens(c, o, a, x)
    ensures Linked(c, Effect(a, x))
  {
    hide Linked, Commits, Apply, RedactAbs;
    match x {
      case Commit(op, e) => CommitLinked(c, o, a, op, e);
      case Redact(p) => RedactLinked(c, p, a);
    }
  }

  lemma {:induction false} OnlyRedacted(p: Policy, l: seq<Attempt>, jobID: string)
    ensures Only(RedactList(p, l), jobID) == RedactList(p, Only(l, jobID))
    decreases |l|
  {
    hide RedactHeader;
    if l == [] {
    } else {
      var init := l[..|l| - 1];
      assert RedactList(p, l)[..|l| - 1] == RedactList(p, init);
      OnlyRedacted(p, init, jobID);
    }
  }

  lemma RedactRequestsFrame(p: Policy, m: map<string, Request>)
    ensures var n := RedactRequests(p, m);
            && n.Keys == m.Keys && |n| == |m| && (n == map[] <==> m == map[])
            && forall id :: id in m ==> n[id] == m[id].(headers := n[id].headers)
  {
    hide RedactHeader;
    var n := RedactRequests(p, m);
    assert n.Keys == m.Keys;
    assert |n| == |n.Keys|;
  }

  lemma RedactedNone(p: Policy)
    ensures RedactList(p, []) == [] && forall j :: Only([], j) == []
  {
  }

  lemma RedactJobAttempts(p: Policy, a: Abs, j: string)
    requires j in a.jobs
    ensures AttemptsByJob(RedactAbs(p, a), j) == RedactList(p, AttemptsByJob(a, j))
  {
    hide RedactList, Only, RedactRequests;
    OnlyRedacted(p, AttemptsOf(a, a.jobs[j].requestID), j);
    RedactedNone(p);
  }

  /** Redaction touches neither the jobs nor the keys of anything, and of the attempts only the headers. */
  lemma RedactFrame(p: Policy, a: Abs)
    ensures var b := RedactAbs(p, a);
            && b.jobs == a.jobs && b.requests.Keys == a.requests.Keys && (b.requests == map[] <==> a.requests == map[])
            && |b.requests| == |a.requests|
            && (forall r :: JobsOf(b, r) == JobsOf(a, r))
            && (forall j :: j in a.jobs ==> AttemptsByJob(b, j) == RedactList(p, AttemptsByJob(a, j)))
            && (forall id :: id in a.requests ==> b.requests[id] == a.requests[id].(headers := b.requests[id].headers))
  {
    RedactRequestsFrame(p, a.requests);
    hide RedactRequests, RedactAttempts;
    var b := RedactAbs(p, a);
    forall j | j in a.jobs ensures AttemptsByJob(b, j) == RedactList(p, AttemptsByJob(a, j)) {
      RedactJobAttempts(p, a, j);
    }
  }

  lemma {:induction false} MaxIsCount(l: seq<Attempt>, jobID: string)
    requires Numbers(Only(l, jobID))
    ensures MaxNumber(l, jobID) == |Only(l, jobID)|
    decreases |l|
  {
    if l == [] {
    } else {
      var init := l[..|l| - 1];
      var x := l[|l| - 1];
      assert Only(l, jobID) == if x.jobID == jobID then Only(init, jobID) + [x] else Only(init, jobID);
      assert Numbers(Only(init, jobID)) by {
        forall i | 0 <= i < |Only(init, jobID)| ensures Only(init, jobID)[i].number == i + 1 {
          assert Only(init, jobID)[i] == Only(l, jobID)[i];
        }
      }
      MaxIsCount(init, jobID);
      if x.jobID == jobID {
        assert Only(l, jobID)[|Only(init, jobID)|] == x;
      }
    }
  }

  lemma {:induction false} NoneOfJob(l: seq<Attempt>, jobID: string)
    requires forall x :: x in l ==> x.jobID != jobID
    ensures Only(l, jobID) == []
    decreases |l|
  {
    if l == [] {
    } else {
      NoneOfJob(l[..|l| - 1], jobID);
    }
  }

  /** A job that does not exist has no attempts left behind. */
  lemma NoOrphans(c: Codec, a: Abs, jobID: string, requestID: string)
    requires Linked(c, a) && jobID !in a.jobs
    ensures Only(AttemptsOf(a, requestID), jobID) == []
  {
    forall x | x in AttemptsOf(a, requestID) ensures x.jobID != jobID {
      InAll(a.attempts, requestID, x);
    }
    NoneOfJob(AttemptsOf(a, requestID), jobID);
  }

  lemma RemoveJobAttempts(a: Abs, id: string, j: string)
    requires j in a.jobs && j != id
    ensures j in RemoveJob(a, id).jobs && RemoveJob(a, id).jobs[j] == a.jobs[j]
    ensures AttemptsByJob(RemoveJob(a, id), j) == AttemptsByJob(a, j)
  {
    if id in a.jobs {
      OnlyWithout(AttemptsOf(a, a.jobs[id].requestID), id, j);
    }
  }

  lemma {:induction false} RemoveJobsAttempts(a: Abs, ids: seq<string>, j: string)
    requires j in a.jobs && j !in ids
    ensures j in RemoveJobs(a, ids).jobs && RemoveJobs(a, ids).jobs[j] == a.jobs[j]
    ensures AttemptsByJob(RemoveJobs(a, ids), j) == AttemptsByJob(a, j)
    decreases |ids|
  {
    if ids == [] {
    } else {
      assert ids == ids[..|ids| - 1] + [ids[|ids| - 1]];
      RemoveJobsAttempts(a, ids[..|ids| - 1], j);
      RemoveJobAttempts(RemoveJobs(a, ids[..|ids| - 1]), ids[|ids| - 1], j);
    }
  }

  lemma {:induction false} RemoveRequestsAttempts(a: Abs, ids: seq<string>, j: string)
    requires j in a.jobs && a.jobs[j].requestID !in ids
    ensures j in RemoveRequests(a, ids).jobs && RemoveRequests(a, ids).jobs[j] == a.jobs[j]
    ensures AttemptsByJob(RemoveRequests(a, ids), j) == AttemptsByJob(a, j)
    decreases |ids|
  {
    if ids == [] {
    } else {
      assert ids == ids[..|ids| - 1] + [ids[|ids| - 1]];
      RemoveRequestsAttempts(a, ids[..|ids| - 1], j);
    }
  }

  /** Eviction leaves every surviving job and its attempts exactly as they were. */
  lemma EvictAttempts(c: Codec, a: Abs, e: Event, j: string)
    requires Linked(c, a) && j in Evict(a, e).jobs
    ensures j in a.jobs && Evict(a, e).jobs[j] == a.jobs[j]
    ensures AttemptsByJob(Evict(a, e), j) == AttemptsByJob(a, j)
  {
    EvictLinked(c, a, e);
    RemoveJobsAttempts(a, e.evictedJobIDs, j);
    RemoveRequestsAttempts(RemoveJobs(a, e.evictedJobIDs), e.evictedRequestIDs, j);
  }

  lemma JobNamed(c: Codec, a: Abs, id: string)
    requires Linked(c, a) && id in a.jobs
    ensures id != "" && a.jobs[id].id == id && a.jobs[id].requestID != "" && a.jobs[id].requestID in a.requests
  {
  }

  /** Moving a job of the store is always admitted: in a linked state the store's own checks cannot refuse it. */
  lemma MoveAdmitted(c: Codec, o: Options, a: Abs, op: Op, e: Event)
    requires Linked(c, a) && Produces(o, a, op, e) && (op.Claiming? || op.Reclaiming? || op.Finishing?) && e.at != ZERO
    ensures EventValid(c, e) && StateValid(a, e)
  {
    hide Linked, CaptureEvictions, EnqueueEvictions, Holders, JobsOf, Before, Eligible;
    JobNamed(c, a, e.job.value.id);
  }
}
