/** What runs of the store's operations guarantee. */
module Guarantees {
  import opened Wrappers
  import opened Model
  import opened Spec
  import opened Linkage
  import opened Operations
  import opened Redaction

  function Added(b: Abs, e: Event): Abs {
    AddJob(AddAttempt(AddRequest(b, e.request), e.attempt), e.job)
  }

  /* ---- attempt numbers ---- */

  lemma AddedAttempts(c: Codec, b: Abs, e: Event, j: string)
    requires Linked(c, b) && j in Added(b, e).jobs
    requires e.attempt.Some? ==> e.job.Some? && e.attempt.value.jobID == e.job.value.id && e.attempt.value.requestID == e.job.value.requestID
    requires e.job.Some? && e.job.value.id in b.jobs ==> b.jobs[e.job.value.id].requestID == e.job.value.requestID
    requires e.attempt.Some? ==> e.job.value.id in b.jobs
    ensures AttemptsByJob(Added(b, e), j) ==
            (if j in b.jobs then AttemptsByJob(b, j) else [])
            + (if e.attempt.Some? && e.attempt.value.jobID == j then [e.attempt.value] else [])
  {
    hide Linked, Only;
    var d := Added(b, e);
    var r := d.jobs[j].requestID;
    if j !in b.jobs {
      NoOrphans(c, b, j, r);
    }
    if e.attempt.Some? && e.attempt.value.requestID == r {
      OnlySnoc(AttemptsOf(b, r), e.attempt.value, j);
    }
  }

  /** What a committed event writes for a job that is in the store already survives its evictions. */
  lemma CommitOwn(c: Codec, o: Options, a: Abs, op: Op, e: Event)
    requires Linked(c, a) && Commits(c, o, a, op, e)
    ensures e.job.Some? && e.job.value.id in a.jobs ==> Evict(a, e) == a && a.jobs[e.job.value.id].requestID == e.job.value.requestID
    ensures e.attempt.Some? ==> e.job.Some? && e.job.value.id in a.jobs
                                && e.attempt.value.jobID == e.job.value.id && e.attempt.value.requestID == e.job.value.requestID
  {
    hide Linked, CaptureEvictions, EnqueueEvictions, Holders, MaxNumber, JobsOf;
    if e.job.Some? && e.job.value.id in a.jobs {
      assert e.evictedJobIDs == [] && e.evictedRequestIDs == [];
    }
  }

  /** What a committed operation does to the attempts of a job: nothing, except that an outcome appends one
      and a new job starts with none. */
  lemma CommitAttempts(c: Codec, o: Options, a: Abs, op: Op, e: Event, j: string)
    requires Linked(c, a) && Commits(c, o, a, op, e) && j in Apply(a, e).jobs
    ensures AttemptsByJob(Apply(a, e), j) ==
            (if j in a.jobs then AttemptsByJob(a, j) else [])
            + (if e.attempt.Some? && e.attempt.value.jobID == j then [e.attempt.value] else [])
  {
    hide Linked, Evict, Produces, EventValid, StateValid, AttemptsByJob;
    var b := Evict(a, e);
    EvictLinked(c, a, e);
    CommitOwn(c, o, a, op, e);
    if j in b.jobs {
      EvictAttempts(c, a, e, j);
    }
    AddedAttempts(c, b, e, j);
  }

  lemma NumbersSnoc(l: seq<Attempt>, x: Attempt)
    requires Numbers(l) && x.number == |l| + 1
    ensures Numbers(l + [x])
  {
  }

  lemma OutcomeNumber(c: Codec, o: Options, a: Abs, op: Op, e: Event)
    requires Linked(c, a) && Numbered(a) && Commits(c, o, a, op, e) && e.attempt.Some?
    ensures var x := e.attempt.value;
            x.jobID in a.jobs && x.number == |AttemptsByJob(a, x.jobID)| + 1 && x.number <= o.maxAttemptsPerJob
  {
    hide Linked, StateValid;
    var j := e.attempt.value.jobID;
    assert j in a.jobs;
    MaxIsCount(AttemptsOf(a, a.jobs[j].requestID), j);
  }

  /** One more attempt is recorded for a job only by its own outcome, with the next number. */
  lemma CommitNumbered(c: Codec, o: Options, a: Abs, op: Op, e: Event)
    requires Linked(c, a) && Numbered(a) && Commits(c, o, a, op, e)
    ensures Numbered(Apply(a, e))
  {
    if e.attempt.Some? {
      OutcomeNumber(c, o, a, op, e);
    }
    assert Numbers([]);
    hide Linked, Commits, Apply, AttemptsByJob, Numbers;
    forall j | j in Apply(a, e).jobs ensures Numbers(AttemptsByJob(Apply(a, e), j)) {
      CommitAttempts(c, o, a, op, e, j);
      if e.attempt.Some? && e.attempt.value.jobID == j {
        NumbersSnoc(AttemptsByJob(a, j), e.attempt.value);
      } else if j in a.jobs {
        assert AttemptsByJob(a, j) + [] == AttemptsByJob(a, j);
      }
    }
  }

  lemma EffectNumbered(c: Codec, o: Options, a: Abs, x: Entry)
    requires Linked(c, a) && Numbered(a) && Happens(c, o, a, x)
    ensures Numbered(Effect(a, x))
  {
    hide Linked, Commits, Apply, RedactAbs, AttemptsByJob;
    match x {
      case Commit(op, e) => CommitNumbered(c, o, a, op, e);
      case Redact(p) => RedactFrame(p, a);
    }
  }

  /** In every state of every run the attempts of each job carry the numbers 1 to k. */
  lemma {:induction false} RunNumbered(c: Codec, o: Options, a: Abs, run: seq<Entry>)
    requires Linked(c, a) && Numbered(a) && IsRun(c, o, a, run)
    ensures Linked(c, After(a, run)) && Numbered(After(a, run))
    decreases |run|
  {
    if run == [] {
    } else {
      var init := run[..|run| - 1];
      var x := run[|run| - 1];
      hide Linked, Numbered, Happens, Effect;
      RunNumbered(c, o, a, init);
      EffectLinked(c, o, After(a, init), x);
      EffectNumbered(c, o, After(a, init), x);
    }
  }

  /* ---- the state diagram ---- */

  /** The arrows of the forwarding state machine. `Queued` and `Running` are the older names of `Pending`
      and `Leased`. */
  predicate Arrow(s: JobState, t: JobState) {
    || ((s == Pending || s == Queued || s == Retrying || s == Leased || s == Running) && t == Leased)
    || (s == Leased && (t == Retrying || t == Succeeded || t == Fatal || t == DeadLetter || t == Poison))
    || ((s == Leased || s == Running) && t == Pending)
  }

  lemma ArrowLaw()
    ensures forall s, t :: Arrow(s, t) ==>
                             || (t == Leased && s in {Pending, Queued, Retrying, Leased, Running})
                             || (t in {Retrying, Succeeded, Fatal, DeadLetter, Poison} && s == Leased)
                             || (t == Pending && s in {Leased, Running})
  {
  }

  /** The jobs after an event: those that were not evicted, and the event's own. */
  lemma JobsAfter(c: Codec, a: Abs, e: Event)
    requires Linked(c, a)
    ensures forall j :: j in Apply(a, e).jobs <==>
                          (e.job.Some? && e.job.value.id == j)
                          || (j in a.jobs && j !in e.evictedJobIDs && a.jobs[j].requestID !in e.evictedRequestIDs)
    ensures forall j :: j in Apply(a, e).jobs ==>
                          Apply(a, e).jobs[j] == if e.job.Some? && e.job.value.id == j then e.job.value else a.jobs[j]
  {
    hide Linked, Evict;
    EvictLinked(c, a, e);
    assert Apply(a, e).jobs == AddJob(Evict(a, e), e.job).jobs;
  }

  /** The requests after an event. */
  lemma RequestsAfter(c: Codec, a: Abs, e: Event)
    requires Linked(c, a)
    ensures forall r :: r in Apply(a, e).requests <==>
                          (e.request.Some? && e.request.value.id == r) || (r in a.requests && r !in e.evictedRequestIDs)
    ensures forall r :: r in Apply(a, e).requests ==>
                          Apply(a, e).requests[r] == if e.request.Some? && e.request.value.id == r then e.request.value else a.requests[r]
  {
    hide Linked, Evict;
    EvictLinked(c, a, e);
    assert Apply(a, e).requests == AddRequest(Evict(a, e), e.request).requests;
  }

  /** The job an operation writes: a move along an arrow if it existed, pending if it did not. */
  lemma OwnJob(o: Options, a: Abs, op: Op, e: Event)
    requires Produces(o, a, op, e) && e.job.Some?
    ensures var j := e.job.value;
            if j.id in a.jobs then
              && Arrow(a.jobs[j.id].state, j.state)
              && j.requestID == a.jobs[j.id].requestID && j.url == a.jobs[j.id].url && j.createdAt == a.jobs[j.id].createdAt
            else j.state == Pending
  {
    hide CaptureEvictions, EnqueueEvictions, Holders, JobsOf;
  }

  /** What a commit evicts is finished. */
  lemma CommitDrops(c: Codec, o: Options, a: Abs, op: Op, e: Event)
    requires Commits(c, o, a, op, e)
    ensures forall j :: j in a.jobs && (j in e.evictedJobIDs || a.jobs[j].requestID in e.evictedRequestIDs) ==> Terminal(a.jobs[j].state)
    ensures forall x :: x in e.evictedRequestIDs ==> x in a.requests
  {
    forall j | j in a.jobs && (j in e.evictedJobIDs || a.jobs[j].requestID in e.evictedRequestIDs)
      ensures Terminal(a.jobs[j].state)
    {
      if j in e.evictedJobIDs {
        assert op == Enqueuing;
      } else {
        assert op == Capturing;
        assert RequestTerminal(a, a.jobs[j].requestID);
        assert j in JobsOf(a, a.jobs[j].requestID);
      }
    }
  }

  /** Every commit moves at most one existing job, along an arrow; it starts new jobs as pending; and it
      drops only terminal jobs. A job's request, target and creation time never change. */
  lemma CommitFollowsDiagram(c: Codec, o: Options, a: Abs, op: Op, e: Event)
    requires Linked(c, a) && Commits(c, o, a, op, e)
    ensures forall j :: j in a.jobs && j in Apply(a, e).jobs && Apply(a, e).jobs[j] != a.jobs[j] ==>
                          e.job.Some? && j == e.job.value.id && Arrow(a.jobs[j].state, Apply(a, e).jobs[j].state)
    ensures forall j :: j in a.jobs && j in Apply(a, e).jobs && Apply(a, e).jobs[j] != a.jobs[j] ==>
                          var s, t := a.jobs[j].state, Apply(a, e).jobs[j].state;
                          || (t == Leased && s in {Pending, Queued, Retrying, Leased, Running})
                          || (t in {Retrying, Succeeded, Fatal, DeadLetter, Poison} && s == Leased)
                          || (t == Pending && s in {Leased, Running})
    ensures forall j :: j in Apply(a, e).jobs && j !in a.jobs ==> Apply(a, e).jobs[j].state == Pending
    ensures forall j :: j in a.jobs && j !in Apply(a, e).jobs ==> Terminal(a.jobs[j].state)
    ensures forall j :: j in a.jobs && j in Apply(a, e).jobs ==>
                          Apply(a, e).jobs[j].requestID == a.jobs[j].requestID && Apply(a, e).jobs[j].url == a.jobs[j].url
                          && Apply(a, e).jobs[j].createdAt == a.jobs[j].createdAt
  {
    hide Linked, Apply, Produces, StateValid, EventValid;
    ArrowLaw();
    hide Arrow;
    JobsAfter(c, a, e);
    CommitDrops(c, o, a, op, e);
    if e.job.Some? {
      OwnJob(o, a, op, e);
    }
  }

  /** A terminal job does not change while it is retained. */
  lemma TerminalAbsorbing(c: Codec, o: Options, a: Abs, op: Op, e: Event, j: string)
    requires Linked(c, a) && Commits(c, o, a, op, e)
    requires j in a.jobs && Terminal(a.jobs[j].state) && j in Apply(a, e).jobs
    ensures Apply(a, e).jobs[j] == a.jobs[j]
  {
    hide Linked, Commits, Apply;
    CommitFollowsDiagram(c, o, a, op, e);
  }

  /* ---- no acknowledged work is lost ---- */

  ghost predicate Keeps(a: Abs, j: string, requestID: string, url: string) {
    j in a.jobs && a.jobs[j].requestID == requestID && a.jobs[j].url == url && requestID in a.requests
  }

  lemma JobHasRequest(c: Codec, a: Abs, j: string)
    requires Linked(c, a) && j in a.jobs
    ensures a.jobs[j].requestID in a.requests
  {
  }

  lemma CommitKeeps(c: Codec, o: Options, a: Abs, op: Op, e: Event, j: string)
    requires Linked(c, a) && Commits(c, o, a, op, e)
    requires j in a.jobs && !Terminal(a.jobs[j].state)
    ensures Keeps(Apply(a, e), j, a.jobs[j].requestID, a.jobs[j].url)
  {
    CommitFollowsDiagram(c, o, a, op, e);
    CommitLinked(c, o, a, op, e);
    hide Linked, Commits, Apply, Arrow;
    JobHasRequest(c, Apply(a, e), j);
  }

  lemma EffectKeeps(c: Codec, o: Options, a: Abs, x: Entry, j: string)
    requires Linked(c, a) && Happens(c, o, a, x)
    requires j in a.jobs && !Terminal(a.jobs[j].state)
    ensures Keeps(Effect(a, x), j, a.jobs[j].requestID, a.jobs[j].url)
  {
    hide Linked, Commits, Apply, RedactAbs;
    match x {
      case Commit(op, e) => CommitKeeps(c, o, a, op, e, j);
      case Redact(p) =>
        JobHasRequest(c, a, j);
        RedactFrame(p, a);
    }
  }

  ghost predicate WasFinished(a: Abs, j: string, requestID: string, url: string) {
    Keeps(a, j, requestID, url) && Terminal(a.jobs[j].state)
  }

  /** At some point of the run before its end the job was retained and terminal. */
  ghost predicate FinishedDuring(a: Abs, run: seq<Entry>, j: string, requestID: string, url: string) {
    exists k :: 0 <= k < |run| && WasFinished(After(a, run[..k]), j, requestID, url)
  }

  lemma FinishedLonger(a: Abs, run: seq<Entry>, j: string, requestID: string, url: string)
    requires run != []
    requires var init := run[..|run| - 1]; FinishedDuring(a, init, j, requestID, url) || WasFinished(After(a, init), j, requestID, url)
    ensures FinishedDuring(a, run, j, requestID, url)
  {
    hide After, WasFinished;
    var init := run[..|run| - 1];
    if FinishedDuring(a, init, j, requestID, url) {
      var k :| 0 <= k < |init| && WasFinished(After(a, init[..k]), j, requestID, url);
      assert init[..k] == run[..k];
    }
  }

  lemma {:induction false} RunLinked(c: Codec, o: Options, a: Abs, run: seq<Entry>)
    requires Linked(c, a) && IsRun(c, o, a, run)
    ensures Linked(c, After(a, run))
    decreases |run|
  {
    if run == [] {
    } else {
      var init := run[..|run| - 1];
      hide Linked, Happens, Effect;
      RunLinked(c, o, a, init);
      EffectLinked(c, o, After(a, init), run[|run| - 1]);
    }
  }

  /** Through any run, a job that was in the store is in it still, for the same request and target and with
      that request, unless it was terminal at some earlier point of the run. */
  lemma {:induction false} WorkKept(c: Codec, o: Options, a: Abs, run: seq<Entry>, j: string)
    requires Linked(c, a) && IsRun(c, o, a, run) && j in a.jobs
    ensures Keeps(After(a, run), j, a.jobs[j].requestID, a.jobs[j].url)
         || FinishedDuring(a, run, j, a.jobs[j].requestID, a.jobs[j].url)
    decreases |run|
  {
    if run == [] {
      JobHasRequest(c, a, j);
    } else {
      var init := run[..|run| - 1];
      var x := run[|run| - 1];
      var b := After(a, init);
      var r, u := a.jobs[j].requestID, a.jobs[j].url;
      RunLinked(c, o, a, init);
      assert After(a, run) == Effect(b, x);
      hide Linked, Happens, Effect, FinishedDuring, After;
      WorkKept(c, o, a, init, j);
      if Keeps(b, j, r, u) && !Terminal(b.jobs[j].state) {
        EffectKeeps(c, o, b, x, j);
      } else {
        FinishedLonger(a, run, j, r, u);
      }
    }
  }

  /* ---- retention ---- */

  lemma {:induction false} DistinctSize(s: seq<string>, ids: set<string>)
    requires Distinct(s) && forall x :: x in s <==> x in ids
    ensures |ids| == |s|
    decreases |s|
  {
    if s == [] {
      assert ids == {};
    } else {
      var x := s[|s| - 1];
      assert s == s[..|s| - 1] + [x];
      DistinctSize(s[..|s| - 1], ids - {x});
    }
  }

  lemma CaptureSize(was: set<string>, now: set<string>, evicted: seq<string>, id: string)
    requires Distinct(evicted) && (forall x :: x in evicted ==> x in was) && id !in was
    requires forall x :: x in now <==> x == id || (x in was && x !in evicted)
    ensures |now| == |was| - |evicted| + 1
  {
    var ev := set x | x in evicted;
    DistinctSize(evicted, ev);
    assert now == (was - ev) + {id};
    assert |was - ev| == |was| - |ev|;
  }

  /** A new capture leaves at most the permitted number of requests, having evicted exactly the overflow,
      and none of the requests it kept is evictable and older than one it evicted. */
  lemma CaptureBounded(c: Codec, o: Options, a: Abs, e: Event)
    requires Linked(c, a) && Commits(c, o, a, Capturing, e) && o.maxCaptures >= 1
    ensures var b := Apply(a, e);
            && |b.requests| <= (if |a.requests| < o.maxCaptures then |a.requests| + 1 else o.maxCaptures)
            && |b.requests| == |a.requests| - |e.evictedRequestIDs| + 1
            && e.request.value.id in b.requests
            && (forall x :: x in a.requests && x !in b.requests ==> RequestTerminal(a, x))
            && (forall x, j :: x in a.requests && x !in b.requests && j in a.jobs && a.jobs[j].requestID == x ==> Terminal(a.jobs[j].state))
            && (forall x, y :: x in a.requests && x !in b.requests && y in b.requests && y in a.requests && RequestTerminal(a, y) ==>
                                 a.requests[x].receivedAt <= a.requests[y].receivedAt)
  {
    RequestsAfter(c, a, e);
    forall x, j | x in a.requests && RequestTerminal(a, x) && j in a.jobs && a.jobs[j].requestID == x ensures Terminal(a.jobs[j].state) {
      assert j in JobsOf(a, x);
    }
    hide Linked, Apply, RequestTerminal, EventValid, Holders, StateValid;
    CaptureSize(a.requests.Keys, Apply(a, e).requests.Keys, e.evictedRequestIDs, e.request.value.id);
  }

  ghost predicate JobsBounded(o: Options, a: Abs) {
    forall r :: r in a.requests ==> |JobsOf(a, r)| <= o.maxJobsPerRequest
  }

  /** The jobs of a request after an event. */
  lemma JobsOfAfter(c: Codec, a: Abs, e: Event, r: string)
    requires Linked(c, a) && r !in e.evictedRequestIDs
    requires e.job.Some? && e.job.value.id in a.jobs ==> a.jobs[e.job.value.id].requestID == e.job.value.requestID
    ensures JobsOf(Apply(a, e), r) ==
            (JobsOf(a, r) - Elems(e.evictedJobIDs))
            + (if e.job.Some? && e.job.value.requestID == r then {e.job.value.id} else {})
  {
    JobsAfter(c, a, e);
    hide Linked, Apply;
  }

  lemma EnqueueGone(o: Options, a: Abs, e: Event, r: string)
    requires e.job.Some? && EnqueueEvictions(o, a, e.job.value.requestID, e.evictedJobIDs)
    ensures var gone := Elems(e.evictedJobIDs);
            if e.job.value.requestID != r then JobsOf(a, r) - gone == JobsOf(a, r)
            else if |JobsOf(a, r)| < o.maxJobsPerRequest then gone == {}
            else |JobsOf(a, r) - gone| == |JobsOf(a, r)| - 1
  {
    if |JobsOf(a, e.job.value.requestID)| >= o.maxJobsPerRequest {
      var k := e.evictedJobIDs[0];
      assert Elems(e.evictedJobIDs) == {k};
      if e.job.value.requestID == r {
        assert |JobsOf(a, r) - {k}| == |JobsOf(a, r)| - 1;
      }
    }
  }

  lemma EvictedJobs(o: Options, a: Abs, op: Op, e: Event, r: string)
    requires Produces(o, a, op, e) && r in a.requests
    ensures var gone := Elems(e.evictedJobIDs);
            var own := e.job.Some? && e.job.value.requestID == r;
            && (!(op == Enqueuing && own) ==> JobsOf(a, r) - gone == JobsOf(a, r))
            && (op == Enqueuing && own ==>
                  if |JobsOf(a, r)| < o.maxJobsPerRequest then gone == {} else |JobsOf(a, r) - gone| == |JobsOf(a, r)| - 1)
            && (own ==> op == Enqueuing || (op == Repairing && JobsOf(a, r) == {}) || e.job.value.id in JobsOf(a, r))
  {
    hide Holders, CaptureEvictions, StateValid, EventValid;
    if op == Enqueuing {
      EnqueueGone(o, a, e, r);
    } else {
      assert e.evictedJobIDs == [];
      hide EnqueueEvictions;
    }
  }

  lemma GrowByOne(s: set<string>, x: string)
    ensures |s + {x}| <= |s| + 1 && s + {x} != {}
  {
    if x in s {
      assert s + {x} == s;
    }
    assert x in s + {x};
  }

  lemma Growth(was: set<string>, gone: set<string>, x: string, limit: int, enqueuing: bool, repairing: bool)
    requires !enqueuing ==> was - gone == was && ((repairing && was == {}) || x in was)
    requires enqueuing ==> if |was| < limit then gone == {} else |was - gone| == |was| - 1
    ensures (was - gone) + {x} != {}
    ensures |(was - gone) + {x}| <= |was| || |(was - gone) + {x}| <= limit || |(was - gone) + {x}| == 1
  {
    GrowByOne(was - gone, x);
    if !enqueuing && x in was {
      assert (was - gone) + {x} == was;
    } else if enqueuing && |was| < limit {
      assert was - gone == was;
    }
  }

  lemma CommitJobsAfter(c: Codec, o: Options, a: Abs, op: Op, e: Event, r: string)
    requires Linked(c, a) && Commits(c, o, a, op, e) && r in a.requests && r in Apply(a, e).requests
    ensures JobsOf(Apply(a, e), r) ==
            (JobsOf(a, r) - Elems(e.evictedJobIDs))
            + (if e.job.Some? && e.job.value.requestID == r then {e.job.value.id} else {})
  {
    RequestsAfter(c, a, e);
    assert r !in e.evictedRequestIDs;
    if e.job.Some? {
      OwnJob(o, a, op, e);
    }
    hide Linked, Apply, JobsOf, EventValid, Produces;
    JobsOfAfter(c, a, e, r);
  }

  /** A retained request keeps at least one job once it has one, and its jobs never grow past the bound,
      except that a repair always gives a request without jobs its first. */
  lemma CommitJobsOf(c: Codec, o: Options, a: Abs, op: Op, e: Event, r: string)
    requires Linked(c, a) && Commits(c, o, a, op, e) && r in a.requests && r in Apply(a, e).requests
    ensures JobsOf(a, r) != {} ==> JobsOf(Apply(a, e), r) != {}
    ensures |JobsOf(Apply(a, e), r)| <= |JobsOf(a, r)| || |JobsOf(Apply(a, e), r)| <= o.maxJobsPerRequest || |JobsOf(Apply(a, e), r)| == 1
  {
    hide Linked, Apply, JobsOf, Produces, EventValid, StateValid, Elems;
    CommitJobsAfter(c, o, a, op, e, r);
    EvictedJobs(o, a, op, e, r);
    var gone := Elems(e.evictedJobIDs);
    var own := e.job.Some? && e.job.value.requestID == r;
    if own {
      Growth(JobsOf(a, r), gone, e.job.value.id, o.maxJobsPerRequest, op == Enqueuing, op == Repairing);
    }
  }

  /** A request that arrives brings at most the one job of its own record. */
  lemma CaptureJobs(c: Codec, o: Options, a: Abs, op: Op, e: Event, r: string)
    requires Linked(c, a) && Commits(c, o, a, op, e) && r !in a.requests && r in Apply(a, e).requests
    ensures JobsOf(Apply(a, e), r) == (if e.job.Some? then {e.job.value.id} else {})
  {
    JobsAfter(c, a, e);
    RequestsAfter(c, a, e);
    assert JobsOf(a, r) == {};
    hide Linked, Apply;
    assert op == Capturing;
  }

  /** From a store within the bound, no commit lets a request have more jobs than permitted. */
  lemma CommitJobsBounded(c: Codec, o: Options, a: Abs, op: Op, e: Event)
    requires Linked(c, a) && Commits(c, o, a, op, e) && o.maxJobsPerRequest >= 1 && JobsBounded(o, a)
    ensures JobsBounded(o, Apply(a, e))
  {
    hide Linked, Commits, Apply, JobsOf;
    forall r | r in Apply(a, e).requests ensures |JobsOf(Apply(a, e), r)| <= o.maxJobsPerRequest {
      if r in a.requests {
        CommitJobsOf(c, o, a, op, e, r);
      } else {
        CaptureJobs(c, o, a, op, e, r);
      }
    }
  }

  /** Every operation but a capture writes a job of a request that is there. */
  lemma OwnRequest(c: Codec, o: Options, a: Abs, op: Op, e: Event)
    requires Linked(c, a) && Commits(c, o, a, op, e) && op != Capturing
    ensures e.job.Some? && e.job.value.requestID in a.requests
  {
    hide Apply, EventValid, EnqueueEvictions, MaxNumber, AttemptsOf, UniqueKeys, RequestsSound, AttemptsLinked, Keyed;
  }

  lemma OthersKeepRequests(c: Codec, o: Options, a: Abs, op: Op, e: Event)
    requires Linked(c, a) && Commits(c, o, a, op, e) && op != Capturing
    ensures Apply(a, e).requests == a.requests && a.requests != map[]
  {
    hide Linked, Apply, EventValid, EnqueueEvictions, MaxNumber, AttemptsOf;
    RequestsAfter(c, a, e);
    OwnRequest(c, o, a, op, e);
    assert e.request.None? && e.evictedRequestIDs == [];
    assert Apply(a, e).requests == a.requests;
  }

  lemma CommitRequests(c: Codec, o: Options, a: Abs, op: Op, e: Event)
    requires Linked(c, a) && Commits(c, o, a, op, e) && o.maxCaptures >= 1
    ensures op != Capturing ==> Apply(a, e).requests == a.requests && a.requests != map[]
    ensures op == Capturing ==> |Apply(a, e).requests| <= (if |a.requests| < o.maxCaptures then |a.requests| + 1 else o.maxCaptures)
    ensures Apply(a, e).requests != map[]
  {
    hide *;
    if op == Capturing {
      CaptureBounded(c, o, a, e);
    } else {
      OthersKeepRequests(c, o, a, op, e);
    }
  }

  lemma EffectBounded(c: Codec, o: Options, a: Abs, x: Entry)
    requires Linked(c, a) && Happens(c, o, a, x) && o.maxCaptures >= 1 && o.maxJobsPerRequest >= 1
    requires JobsBounded(o, a) && |a.requests| <= o.maxCaptures
    ensures var b := Effect(a, x);
            && JobsBounded(o, b) && |b.requests| <= o.maxCaptures
            && (x.Commit? || a.requests != map[] ==> b.requests != map[])
  {
    hide Linked, Commits, Apply, RedactAbs, JobsOf;
    match x {
      case Commit(op, e) =>
        hide JobsBounded;
        CommitJobsBounded(c, o, a, op, e);
        CommitRequests(c, o, a, op, e);
      case Redact(p) => RedactFrame(p, a);
    }
  }

  lemma EmptyLinked(c: Codec, o: Options)
    ensures Linked(c, EMPTY) && Numbered(EMPTY) && JobsBounded(o, EMPTY) && |EMPTY.requests| == 0
  {
  }

  /** Over every run from the empty store: at most the permitted number of requests once captures are
      bounded, at most the permitted number of jobs each, and once there is a request there always is one. */
  lemma {:induction false} RunBounded(c: Codec, o: Options, run: seq<Entry>)
    requires IsRun(c, o, EMPTY, run) && o.maxCaptures >= 1 && o.maxJobsPerRequest >= 1
    ensures |After(EMPTY, run).requests| <= o.maxCaptures
    ensures JobsBounded(o, After(EMPTY, run))
    ensures (exists i :: 0 <= i < |run| && run[i].Commit?) ==> After(EMPTY, run).requests != map[]
    decreases |run|
  {
    hide Linked, Happens, Effect, JobsBounded;
    if run == [] {
      EmptyLinked(c, o);
    } else {
      var init := run[..|run| - 1];
      var x := run[|run| - 1];
      EmptyLinked(c, o);
      RunLinked(c, o, EMPTY, init);
      RunBounded(c, o, init);
      assert forall i :: 0 <= i < |run| && run[i].Commit? ==> i == |init| || init[i].Commit?;
      EffectBounded(c, o, After(EMPTY, init), x);
    }
  }
}
