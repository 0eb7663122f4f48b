/** The store as a reader sees it: full requests, jobs, and each request's attempts in stored order. */
module Spec {
  import opened Wrappers
  import opened Model

  datatype Abs = Abs(requests: map<string, Request>, jobs: map<string, Job>, attempts: map<string, seq<Attempt>>)

  const EMPTY := Abs(map[], map[], map[])

  function AttemptsOf(a: Abs, requestID: string): seq<Attempt> {
    if requestID in a.attempts then a.attempts[requestID] else []
  }

  ghost function Elems(s: seq<string>): set<string> {
    set x | x in s
  }

  /** Every stored attempt. */
  ghost function All(m: map<string, seq<Attempt>>): set<Attempt> {
    set r, x | r in m && x in m[r] :: x
  }

  ghost function IDsIn(m: map<string, seq<Attempt>>): set<string> {
    set x | x in All(m) :: x.id
  }

  ghost function AttemptIDs(a: Abs): set<string> {
    IDsIn(a.attempts)
  }

  ghost function JobsOf(a: Abs, requestID: string): set<string> {
    set j | j in a.jobs && a.jobs[j].requestID == requestID
  }

  /** The attempts that do not belong to the job. */
  function Without(l: seq<Attempt>, jobID: string): seq<Attempt> {
    if l == [] then []
    else
      var p := Without(l[..|l| - 1], jobID);
      if l[|l| - 1].jobID != jobID then p + [l[|l| - 1]] else p
  }

  /** The attempts that belong to the job. */
  function Only(l: seq<Attempt>, jobID: string): seq<Attempt> {
    if l == [] then []
    else
      var p := Only(l[..|l| - 1], jobID);
      if l[|l| - 1].jobID == jobID then p + [l[|l| - 1]] else p
  }

  function RemoveJob(a: Abs, id: string): Abs {
    if id !in a.jobs then a
    else
      var r := a.jobs[id].requestID;
      var kept := Without(AttemptsOf(a, r), id);
      a.(jobs := a.jobs - {id}, attempts := if kept == [] then a.attempts - {r} else a.attempts[r := kept])
  }

  function RemoveJobs(a: Abs, ids: seq<string>): Abs {
    if ids == [] then a else RemoveJob(RemoveJobs(a, ids[..|ids| - 1]), ids[|ids| - 1])
  }

  function RemoveRequest(a: Abs, id: string): Abs {
    if id !in a.requests then a
    else
      Abs(a.requests - {id}, map j | j in a.jobs && a.jobs[j].requestID != id :: a.jobs[j], a.attempts - {id})
  }

  function RemoveRequests(a: Abs, ids: seq<string>): Abs {
    if ids == [] then a else RemoveRequest(RemoveRequests(a, ids[..|ids| - 1]), ids[|ids| - 1])
  }

  function AddRequest(a: Abs, r: Option<Request>): Abs {
    if r.None? then a else a.(requests := a.requests[r.value.id := r.value])
  }

  function AddAttempt(a: Abs, x: Option<Attempt>): Abs {
    if x.None? then a
    else a.(attempts := a.attempts[x.value.requestID := AttemptsOf(a, x.value.requestID) + [x.value]])
  }

  function AddJob(a: Abs, j: Option<Job>): Abs {
    if j.None? then a else a.(jobs := a.jobs[j.value.id := j.value])
  }

  function Evict(a: Abs, e: Event): Abs {
    RemoveRequests(RemoveJobs(a, e.evictedJobIDs), e.evictedRequestIDs)
  }

  /** What one committed event does to the state. */
  function Apply(a: Abs, e: Event): Abs {
    AddJob(AddAttempt(AddRequest(Evict(a, e), e.request), e.attempt), e.job)
  }

  /* ---- the checks an event must pass ---- */

  predicate KnownState(s: JobState) {
    !s.OtherState?
  }

  predicate DigestValid(c: Codec, r: Request) {
    r.bodySHA256 == c.digest(r.body)
  }

  predicate AttemptValid(x: Attempt) {
    x.id != "" && x.jobID != "" && x.requestID != "" && x.number >= 1
  }

  predicate EventValid(c: Codec, e: Event) {
    && e.at != ZERO
    && "" !in e.evictedRequestIDs && "" !in e.evictedJobIDs
    && match e.kind {
         case CaptureAccepted =>
           && e.request.Some? && e.attempt.None? && e.request.value.id != ""
           && (e.job.Some? ==> e.job.value.id != "" && e.job.value.requestID == e.request.value.id && e.job.value.state == Pending)
           && DigestValid(c, e.request.value)
         case RequestReceived =>
           && e.request.Some? && e.attempt.None? && e.job.None? && e.request.value.id != ""
           && DigestValid(c, e.request.value)
         case AttemptFinished =>
           e.attempt.Some? && e.request.None? && e.job.None? && AttemptValid(e.attempt.value)
         case Forward(s) =>
           && KnownState(s)
           && e.job.Some? && e.request.None? && e.job.value.id != "" && e.job.value.requestID != ""
           && e.job.value.state == s
           && (e.attempt.Some? ==>
                 && AttemptValid(e.attempt.value)
                 && e.attempt.value.jobID == e.job.value.id && e.attempt.value.requestID == e.job.value.requestID)
         case OtherKind(_) => false
       }
  }

  ghost predicate StateValid(a: Abs, e: Event) {
    && (e.request.Some? ==> e.request.value.id !in a.requests)
    && (e.job.Some? ==>
          var j := e.job.value;
          if j.id in a.jobs then a.jobs[j.id].requestID == j.requestID && a.jobs[j.id].url == j.url
          else j.requestID in a.requests || (e.request.Some? && e.request.value.id == j.requestID))
    && (e.attempt.Some? ==>
          var x := e.attempt.value;
          && x.id !in AttemptIDs(a)
          && (x.requestID in a.requests || (e.request.Some? && e.request.value.id == x.requestID))
          && (x.jobID in a.jobs || (e.job.Some? && e.job.value.id == x.jobID)))
  }

  /* ---- what every replayed state satisfies ---- */

  ghost predicate DistinctIDs(l: seq<Attempt>) {
    forall i, j :: 0 <= i < j < |l| ==> l[i].id != l[j].id
  }

  ghost predicate AttemptsKeyed(m: map<string, seq<Attempt>>) {
    && (forall r :: r in m ==> m[r] != [] && DistinctIDs(m[r]))
    && (forall r, x :: r in m && x in m[r] ==> x.requestID == r)
    && (forall x, y :: x in All(m) && y in All(m) && x.id == y.id ==> x == y)
  }

  /** Map keys are the identifiers of what they map to, and attempt identifiers are unique. */
  ghost predicate Keyed(a: Abs) {
    && (forall id :: id in a.requests ==> a.requests[id].id == id)
    && (forall id :: id in a.jobs ==> a.jobs[id].id == id)
    && AttemptsKeyed(a.attempts)
  }

  lemma DistinctInit(l: seq<Attempt>, x: Attempt)
    requires DistinctIDs(l + [x])
    ensures DistinctIDs(l) && forall y :: y in l ==> y.id != x.id
  {
    forall i, j | 0 <= i < j < |l| ensures l[i].id != l[j].id {
      assert (l + [x])[i] == l[i] && (l + [x])[j] == l[j];
    }
    forall y | y in l ensures y.id != x.id {
      var i :| 0 <= i < |l| && l[i] == y;
      assert (l + [x])[i] == y && (l + [x])[|l|] == x;
    }
  }

  lemma DistinctSnoc(l: seq<Attempt>, x: Attempt)
    requires DistinctIDs(l) && forall y :: y in l ==> y.id != x.id
    ensures DistinctIDs(l + [x])
  {
  }

  lemma {:induction false} WithoutFilters(l: seq<Attempt>, jobID: string)
    ensures forall x :: x in Without(l, jobID) <==> x in l && x.jobID != jobID
    ensures DistinctIDs(l) ==> DistinctIDs(Without(l, jobID))
    decreases |l|
  {
    if l == [] {
    } else {
      var init := l[..|l| - 1];
      var x := l[|l| - 1];
      WithoutFilters(init, jobID);
      assert l == init + [x];
      if DistinctIDs(l) {
        DistinctInit(init, x);
        hide DistinctIDs;
        if x.jobID != jobID {
          DistinctSnoc(Without(init, jobID), x);
        }
      }
    }
  }

  /** Filtering one job out leaves every other job's attempts alone, in order. */
  lemma {:induction false} OnlyWithout(l: seq<Attempt>, removed: string, jobID: string)
    ensures Only(Without(l, removed), jobID) == if removed == jobID then [] else Only(l, jobID)
    decreases |l|
  {
    if l == [] {
    } else {
      var init := l[..|l| - 1];
      OnlyWithout(init, removed, jobID);
      var p := Without(init, removed);
      assert (p + [l[|l| - 1]])[..|p|] == p;
    }
  }

  lemma {:induction false} OnlySnoc(l: seq<Attempt>, x: Attempt, jobID: string)
    ensures Only(l + [x], jobID) == if x.jobID == jobID then Only(l, jobID) + [x] else Only(l, jobID)
  {
    assert (l + [x])[..|l + [x]| - 1] == l;
  }

  lemma RemoveJobKeyed(a: Abs, id: string)
    requires Keyed(a)
    ensures Keyed(RemoveJob(a, id))
    ensures AttemptIDs(RemoveJob(a, id)) <= AttemptIDs(a)
    ensures RemoveJob(a, id).requests == a.requests
    ensures RemoveJob(a, id).jobs == a.jobs - {id}
    ensures forall r :: r in RemoveJob(a, id).attempts ==>
                          r in a.attempts && forall x :: x in RemoveJob(a, id).attempts[r] ==> x in a.attempts[r]
  {
    if id in a.jobs {
      WithoutFilters(AttemptsOf(a, a.jobs[id].requestID), id);
    }
  }

  lemma {:induction false} RemoveJobsKeyed(a: Abs, ids: seq<string>)
    requires Keyed(a)
    ensures Keyed(RemoveJobs(a, ids))
    ensures AttemptIDs(RemoveJobs(a, ids)) <= AttemptIDs(a)
    ensures RemoveJobs(a, ids).requests == a.requests
    ensures forall id :: id in RemoveJobs(a, ids).jobs <==> id in a.jobs && id !in ids
    ensures forall id :: id in RemoveJobs(a, ids).jobs ==> RemoveJobs(a, ids).jobs[id] == a.jobs[id]
    decreases |ids|
  {
    if ids == [] {
    } else {
      RemoveJobsKeyed(a, ids[..|ids| - 1]);
      RemoveJobKeyed(RemoveJobs(a, ids[..|ids| - 1]), ids[|ids| - 1]);
      assert ids == ids[..|ids| - 1] + [ids[|ids| - 1]];
    }
  }

  lemma RemoveRequestKeyed(a: Abs, id: string)
    requires Keyed(a)
    ensures Keyed(RemoveRequest(a, id))
    ensures AttemptIDs(RemoveRequest(a, id)) <= AttemptIDs(a)
    ensures RemoveRequest(a, id).requests == a.requests - {id}
  {
  }

  lemma {:induction false} RemoveRequestsKeyed(a: Abs, ids: seq<string>)
    requires Keyed(a)
    ensures Keyed(RemoveRequests(a, ids))
    ensures AttemptIDs(RemoveRequests(a, ids)) <= AttemptIDs(a)
    ensures forall id :: id in RemoveRequests(a, ids).requests <==> id in a.requests && id !in ids
    ensures forall id :: id in RemoveRequests(a, ids).requests ==> RemoveRequests(a, ids).requests[id] == a.requests[id]
    ensures forall id :: id in RemoveRequests(a, ids).jobs ==> id in a.jobs && RemoveRequests(a, ids).jobs[id] == a.jobs[id]
    decreases |ids|
  {
    if ids == [] {
    } else {
      RemoveRequestsKeyed(a, ids[..|ids| - 1]);
      RemoveRequestKeyed(RemoveRequests(a, ids[..|ids| - 1]), ids[|ids| - 1]);
      assert ids == ids[..|ids| - 1] + [ids[|ids| - 1]];
    }
  }

  lemma InAll(m: map<string, seq<Attempt>>, r: string, x: Attempt)
    requires r in m && x in m[r]
    ensures x in All(m)
  {
  }

  lemma AppendAttemptAll(m: map<string, seq<Attempt>>, x: Attempt)
    ensures var l := if x.requestID in m then m[x.requestID] else [];
            All(m[x.requestID := l + [x]]) == All(m) + {x}
  {
    var l := if x.requestID in m then m[x.requestID] else [];
    var n := m[x.requestID := l + [x]];
    forall y | y in All(m) ensures y in All(n) {
      var r :| r in m && y in m[r];
      InAll(n, r, y);
    }
    assert x in n[x.requestID];
  }

  lemma AppendAttemptIDs(m: map<string, seq<Attempt>>, x: Attempt)
    ensures var l := if x.requestID in m then m[x.requestID] else [];
            IDsIn(m[x.requestID := l + [x]]) == IDsIn(m) + {x.id}
  {
    AppendAttemptAll(m, x);
    hide All;
    var l := if x.requestID in m then m[x.requestID] else [];
    assert x in All(m[x.requestID := l + [x]]);
  }

  lemma AppendAttemptKeyed(m: map<string, seq<Attempt>>, x: Attempt)
    requires AttemptsKeyed(m) && x.id !in IDsIn(m)
    ensures var l := if x.requestID in m then m[x.requestID] else [];
            AttemptsKeyed(m[x.requestID := l + [x]]) && IDsIn(m[x.requestID := l + [x]]) == IDsIn(m) + {x.id}
  {
    var l := if x.requestID in m then m[x.requestID] else [];
    AppendAttemptAll(m, x);
    AppendAttemptIDs(m, x);
    forall y | y in All(m) ensures y.id != x.id {
      assert y.id in IDsIn(m);
    }
    forall y | y in l ensures y.id != x.id {
      InAll(m, x.requestID, y);
    }
    DistinctSnoc(l, x);
    hide All, IDsIn, DistinctIDs;
  }

  lemma EvictKeyed(a: Abs, e: Event)
    requires Keyed(a)
    ensures Keyed(Evict(a, e))
    ensures AttemptIDs(Evict(a, e)) <= AttemptIDs(a)
  {
    RemoveJobsKeyed(a, e.evictedJobIDs);
    RemoveRequestsKeyed(RemoveJobs(a, e.evictedJobIDs), e.evictedRequestIDs);
  }

  /** Every event that passes the store's checks keeps the keys and the uniqueness of attempt identifiers. */
  lemma ApplyKeyed(a: Abs, e: Event)
    requires Keyed(a) && StateValid(a, e)
    ensures Keyed(Apply(a, e))
  {
    EvictKeyed(a, e);
    if e.attempt.Some? {
      AppendAttemptKeyed(Evict(a, e).attempts, e.attempt.value);
    }
  }
}
