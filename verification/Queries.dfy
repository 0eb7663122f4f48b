/** The questions the operations ask of the indexes, under the lock and without changing anything. */
module Queries {
  import opened Wrappers
  import opened Model
  import opened Spec
  import opened Linkage
  import opened IndexMaps
  import opened IndexTable
  import opened Snapshot
  import opened Sorting
  import opened Operations

  lemma IndexFacts(ix: Indexes)
    requires ix.Coherent()
    ensures ix.jobs == ix.abs.jobs && Keyed(ix.abs)
    ensures ix.requests.Keys == ix.abs.requests.Keys
    ensures forall id :: id in ix.requests ==> ix.requests[id] == Bare(ix.abs.requests[id])
    ensures DedupSound(ix.abs.requests, ix.delivery, ix.body)
  {
  }

  /** The request that already holds the key, and whether the body differs. */
  datatype Earlier = Earlier(id: string, conflict: bool)

  /** `duplicateLocked`. */
  method Duplicate(ix: Indexes, r: Request) returns (d: Option<Earlier>)
    requires ix.Coherent() && ix.Complete()
    ensures d.None? ==> Holders(ix.abs, KeyOf(r)) == {}
    ensures d.None? <==> forall id :: id in ix.abs.requests ==>
                                        var q := ix.abs.requests[id];
                                        if r.deliveryID != "" then q.deliveryID != r.deliveryID
                                        else q.deliveryID != "" || q.bodySHA256 != r.bodySHA256
    ensures d.Some? ==> Holders(ix.abs, KeyOf(r)) == {d.value.id} && d.value.id in ix.abs.requests
                        && (d.value.conflict <==> ix.abs.requests[d.value.id].bodySHA256 != r.bodySHA256)
  {
    HoldersLaw(ix.abs, r);
    IndexFacts(ix);
    hide Indexes.Coherent, Keyed, Holders, KeyOf;
    DedupExact(ix.abs, ix.delivery, ix.body, r);
    if r.deliveryID != "" {
      if r.deliveryID in ix.delivery {
        var id := ix.delivery[r.deliveryID];
        d := Some(Earlier(id, ix.requests[id].bodySHA256 != r.bodySHA256));
      } else {
        d := None;
      }
    } else if r.bodySHA256 in ix.body {
      d := Some(Earlier(ix.body[r.bodySHA256], false));
    } else {
      d := None;
    }
  }

  /** The identifiers under a request, from the inverse index. */
  method JobIDs(ix: Indexes, requestID: string) returns (ids: set<string>)
    requires ix.Coherent()
    ensures ids == JobsOf(ix.abs, requestID)
  {
    hide Keyed, DedupSound, ByRequest, JobsOf, IDsIn, BareAttempts, BareRequests, BodySizes, SearchTexts;
    ByRequestIs(ix.abs, requestID);
    ids := if requestID in ix.jobsByRequest then ix.jobsByRequest[requestID] else {};
  }

  /** The order in which a request's jobs are shown for it: unfinished ones first, then the older ones. */
  predicate Preferred(j: Job, k: Job) {
    (Terminal(k.state) && !Terminal(j.state)) || (Terminal(j.state) == Terminal(k.state) && j.createdAt < k.createdAt)
  }

  /** `discoverableJobLocked`: some job of the request that no other is preferred to. */
  method DiscoverableJob(ix: Indexes, requestID: string) returns (selected: Option<Job>)
    requires ix.Coherent()
    ensures selected.None? <==> JobsOf(ix.abs, requestID) == {}
    ensures selected.Some? ==>
              var j := selected.value;
              && j.id in JobsOf(ix.abs, requestID) && ix.abs.jobs[j.id] == j
              && (forall k :: k in JobsOf(ix.abs, requestID) ==> !Preferred(ix.abs.jobs[k], j))
              && (forall k :: k in JobsOf(ix.abs, requestID) && !Terminal(ix.abs.jobs[k].state) ==> !Terminal(j.state))
              && (forall k :: k in JobsOf(ix.abs, requestID) && (Terminal(ix.abs.jobs[k].state) <==> Terminal(j.state)) ==>
                                j.createdAt <= ix.abs.jobs[k].createdAt)
  {
    IndexFacts(ix);
    hide Indexes.Coherent;
    var left := JobIDs(ix, requestID);
    ghost var all := left;
    selected := None;
    while left != {}
      invariant left <= all
      invariant selected.None? <==> left == all
      invariant selected.Some? ==> selected.value.id in all && ix.abs.jobs[selected.value.id] == selected.value
                                   && forall k :: k in all - left ==> !Preferred(ix.abs.jobs[k], selected.value)
      decreases left
    {
      var id :| id in left;
      var j := ix.jobs[id];
      if selected.None? || Preferred(j, selected.value) {
        selected := Some(j);
      }
      left := left - {id};
    }
  }

  /** `requestTerminalLocked`. */
  method IsRequestTerminal(ix: Indexes, requestID: string) returns (terminal: bool)
    requires ix.Coherent()
    ensures terminal == RequestTerminal(ix.abs, requestID)
  {
    IndexFacts(ix);
    hide Indexes.Coherent;
    var left := JobIDs(ix, requestID);
    while left != {}
      invariant left <= JobsOf(ix.abs, requestID)
      invariant forall k :: k in JobsOf(ix.abs, requestID) - left ==> Terminal(ix.abs.jobs[k].state)
      decreases left
    {
      var id :| id in left;
      if !Terminal(ix.jobs[id].state) {
        return false;
      }
      left := left - {id};
    }
    terminal := true;
  }

  ghost function TerminalRequests(a: Abs): set<string> {
    set id | id in a.requests && RequestTerminal(a, id)
  }

  method EvictableRequests(ix: Indexes) returns (ids: set<string>)
    requires ix.Coherent()
    ensures ids == TerminalRequests(ix.abs)
  {
    IndexFacts(ix);
    hide Indexes.Coherent, RequestTerminal;
    ids := {};
    var left := ix.requests.Keys;
    while left != {}
      invariant left <= ix.requests.Keys && ids <= ix.requests.Keys
      invariant forall id :: id in ix.requests.Keys ==> (id in ids <==> id !in left && RequestTerminal(ix.abs, id))
      decreases left
    {
      var id :| id in left;
      var terminal := IsRequestTerminal(ix, id);
      if terminal {
        ids := ids + {id};
      }
      left := left - {id};
    }
  }

  lemma EarlierInOrder(sorted: seq<string>, n: nat, x: string, y: string, le: (string, string) -> bool)
    requires n <= |sorted| && Sorted(le, sorted) && x in sorted[..n] && y in sorted && y !in sorted[..n]
    ensures le(x, y)
  {
    var i :| 0 <= i < n && sorted[i] == x;
    var k :| 0 <= k < |sorted| && sorted[k] == y;
    forall l | 0 <= l < n ensures sorted[l] != y {
      assert sorted[..n][l] == sorted[l];
    }
  }

  lemma OldestFirst(o: Options, a: Abs, m: map<string, Request>, sorted: seq<string>, over: nat)
    requires Lists(sorted, TerminalRequests(a)) && over == |a.requests| + 1 - o.maxCaptures && 0 < over <= |sorted|
    requires m.Keys == a.requests.Keys && forall id :: id in m ==> m[id] == Bare(a.requests[id])
    requires Sorted((x, y) => ReceivedAt(m, x) <= ReceivedAt(m, y), sorted)
    ensures CaptureEvictions(o, a, sorted[..over])
  {
    var ids := sorted[..over];
    forall x | x in ids ensures x in a.requests && RequestTerminal(a, x) {
      assert x in sorted;
      assert x in TerminalRequests(a);
    }
    hide RequestTerminal;
    forall x, y | x in ids && y in a.requests && RequestTerminal(a, y) && y !in ids
      ensures a.requests[x].receivedAt <= a.requests[y].receivedAt
    {
      assert y in TerminalRequests(a);
      assert y in sorted;
      EarlierInOrder(sorted, over, x, y, (x, y) => ReceivedAt(m, x) <= ReceivedAt(m, y));
    }
  }

  /** `captureEvictionsLocked(1)`: the oldest fully terminal requests, or no room. */
  method OldestRequests(ix: Indexes) returns (r: Result<seq<string>, Error>)
    requires ix.Coherent() && ix.opts.Positive()
    ensures r.Ok? ==> CaptureEvictions(ix.opts, ix.abs, r.value)
    ensures r.Err? <==> |TerminalRequests(ix.abs)| < |ix.abs.requests| + 1 - ix.opts.maxCaptures
    ensures r.Err? ==> r.error == Capacity
  {
    IndexFacts(ix);
    hide Indexes.Coherent, RequestTerminal;
    var over := |ix.requests.Keys| + 1 - ix.opts.maxCaptures;
    if over <= 0 {
      return Ok([]);
    }
    var candidates := EvictableRequests(ix);
    var m := ix.requests;
    var sorted := Sort(candidates, (x, y) => ReceivedAt(m, x) <= ReceivedAt(m, y));
    ListsSize(sorted, candidates);
    if |sorted| < over {
      return Err(Capacity);
    }
    OldestFirst(ix.opts, ix.abs, m, sorted, over);
    r := Ok(sorted[..over]);
  }

  function CreatedAt(m: map<string, Job>, id: string): Time {
    if id in m then m[id].createdAt else ZERO
  }

  /** The request has as many jobs as permitted, none of them finished. */
  ghost predicate Full(o: Options, a: Abs, requestID: string) {
    |JobsOf(a, requestID)| >= o.maxJobsPerRequest && forall k :: k in JobsOf(a, requestID) ==> !Terminal(a.jobs[k].state)
  }

  lemma FirstIsOldest(m: map<string, Job>, ids: set<string>, sorted: seq<string>)
    requires Lists(sorted, ids) && sorted != [] && ids <= m.Keys && Sorted((x, y) => CreatedAt(m, x) <= CreatedAt(m, y), sorted)
    ensures sorted[0] in ids && forall k :: k in ids ==> m[sorted[0]].createdAt <= m[k].createdAt
  {
    assert sorted[0] in sorted;
    forall k | k in ids ensures m[sorted[0]].createdAt <= m[k].createdAt {
      var i :| 0 <= i < |sorted| && sorted[i] == k;
      assert i > 0 ==> CreatedAt(m, sorted[0]) <= CreatedAt(m, sorted[i]);
    }
  }

  /** The eviction of `Enqueue`: the oldest terminal job of a full request, or no room. */
  method OldestJob(ix: Indexes, requestID: string) returns (r: Result<seq<string>, Error>)
    requires ix.Coherent()
    ensures r.Ok? ==> EnqueueEvictions(ix.opts, ix.abs, requestID, r.value)
    ensures r.Err? <==> Full(ix.opts, ix.abs, requestID)
    ensures r.Err? ==> r.error == Capacity
  {
    IndexFacts(ix);
    hide Indexes.Coherent;
    var ids := JobIDs(ix, requestID);
    if |ids| < ix.opts.maxJobsPerRequest {
      return Ok([]);
    }
    var m := ix.jobs;
    var candidates := set k | k in ids && k in m && Terminal(m[k].state);
    assert forall k :: k in ids && Terminal(m[k].state) ==> k in candidates;
    if candidates == {} {
      return Err(Capacity);
    }
    var sorted := Sort(candidates, (x, y) => CreatedAt(m, x) <= CreatedAt(m, y));
    ListsSize(sorted, candidates);
    FirstIsOldest(m, candidates, sorted);
    assert sorted[0] in candidates;
    r := Ok([sorted[0]]);
  }

  /** The claim order on identifiers. */
  predicate NotAfter(m: map<string, Job>, x: string, y: string) {
    y !in m || (x in m && !Before(m[y], m[x]))
  }

  lemma ClaimOrder(m: map<string, Job>)
    ensures Preorder((x, y) => NotAfter(m, x, y))
  {
  }

  lemma FirstIsLeast(m: map<string, Job>, ids: set<string>, sorted: seq<string>)
    requires Lists(sorted, ids) && sorted != [] && ids <= m.Keys && Sorted((x, y) => NotAfter(m, x, y), sorted)
    ensures forall k :: k in ids ==> !Before(m[k], m[sorted[0]])
  {
    forall k | k in ids ensures !Before(m[k], m[sorted[0]]) {
      var i :| 0 <= i < |sorted| && sorted[i] == k;
      assert i > 0 ==> NotAfter(m, sorted[0], sorted[i]);
    }
  }

  /** The choice of `ClaimNextJob`: none exactly when no job is eligible, else one that no eligible job
      comes before. */
  method NextClaim(ix: Indexes, now: Time) returns (r: Option<Job>)
    requires ix.Coherent()
    ensures r.None? <==> forall k :: k in ix.abs.jobs ==> !Eligible(ix.abs.jobs[k], now)
    ensures r.Some? ==>
              forall k :: k in ix.abs.jobs && Eligible(ix.abs.jobs[k], now) ==>
                            r.value.availableAt < ix.abs.jobs[k].availableAt
                            || (r.value.availableAt == ix.abs.jobs[k].availableAt && r.value.createdAt <= ix.abs.jobs[k].createdAt)
    ensures r.Some? ==>
              var j := r.value;
              && j.id in ix.abs.jobs && ix.abs.jobs[j.id] == j && Eligible(j, now)
              && forall k :: k in ix.abs.jobs && Eligible(ix.abs.jobs[k], now) ==> !Before(ix.abs.jobs[k], j)
  {
    IndexFacts(ix);
    hide Indexes.Coherent, Eligible;
    var m := ix.jobs;
    var candidates := set k | k in m && Eligible(m[k], now);
    if candidates == {} {
      assert forall k :: k in m && Eligible(m[k], now) ==> k in candidates;
      return None;
    }
    ClaimOrder(m);
    var sorted := Sort(candidates, (x, y) => NotAfter(m, x, y));
    ListsSize(sorted, candidates);
    FirstIsLeast(m, candidates, sorted);
    assert sorted[0] in candidates;
    r := Some(m[sorted[0]]);
  }

  predicate Held(j: Job) {
    j.state == Leased || j.state == Running
  }

  ghost function Stale(a: Abs): set<string> {
    set k | k in a.jobs && Held(a.jobs[k])
  }

  /** The jobs `RecoverLeases` takes back, in order of creation. */
  method StaleJobs(ix: Indexes) returns (sorted: seq<string>)
    requires ix.Coherent()
    ensures Lists(sorted, Stale(ix.abs))
    ensures forall i :: 0 <= i < |sorted| ==> sorted[i] in ix.abs.jobs
    ensures forall i, j :: 0 <= i < j < |sorted| ==> ix.abs.jobs[sorted[i]].createdAt <= ix.abs.jobs[sorted[j]].createdAt
  {
    IndexFacts(ix);
    hide Indexes.Coherent;
    var m := ix.jobs;
    var held := set k | k in m && Held(m[k]);
    sorted := Sort(held, (x, y) => CreatedAt(m, x) <= CreatedAt(m, y));
    forall i | 0 <= i < |sorted| ensures sorted[i] in m {
      assert sorted[i] in sorted;
    }
    forall i, j | 0 <= i < j < |sorted| ensures m[sorted[i]].createdAt <= m[sorted[j]].createdAt {
      assert CreatedAt(m, sorted[i]) <= CreatedAt(m, sorted[j]);
    }
  }

  lemma {:induction false} MaxBare(l: seq<Attempt>, jobID: string)
    ensures MaxNumber(BareList(l), jobID) == MaxNumber(l, jobID)
    decreases |l|
  {
    if l == [] {
    } else {
      var init := l[..|l| - 1];
      assert BareList(l)[..|l| - 1] == BareList(init);
      MaxBare(init, jobID);
    }
  }

  /** The highest number is that of some attempt of the job, and no attempt of the job has a higher one. */
  lemma {:induction false} MaxLaw(l: seq<Attempt>, jobID: string)
    ensures MaxNumber(l, jobID) >= 0 && forall x :: x in l && x.jobID == jobID ==> x.number <= MaxNumber(l, jobID)
    ensures MaxNumber(l, jobID) > 0 ==> exists x :: x in l && x.jobID == jobID && x.number == MaxNumber(l, jobID)
    decreases |l|
  {
    if l == [] {
      assert MaxNumber(l, jobID) == 0;
    } else {
      MaxLaw(l[..|l| - 1], jobID);
      assert l == l[..|l| - 1] + [l[|l| - 1]];
    }
  }

  lemma MaxNext(l: seq<Attempt>, i: nat, jobID: string)
    requires i < |l|
    ensures MaxNumber(l[..i + 1], jobID)
         == if l[i].jobID == jobID && l[i].number > MaxNumber(l[..i], jobID) then l[i].number else MaxNumber(l[..i], jobID)
  {
    assert l[..i + 1][..i] == l[..i];
  }

  lemma BareAttemptsOf(ix: Indexes, requestID: string)
    requires ix.Coherent()
    ensures (if requestID in ix.attempts then ix.attempts[requestID] else []) == BareList(AttemptsOf(ix.abs, requestID))
  {
  }

  /** The next attempt number of a job, as `RecordAttempt` computes it. */
  method ExpectedNumber(ix: Indexes, requestID: string, jobID: string) returns (n: int)
    requires ix.Coherent()
    ensures n == MaxNumber(AttemptsOf(ix.abs, requestID), jobID) + 1
    ensures n >= 1 && forall x :: x in AttemptsOf(ix.abs, requestID) && x.jobID == jobID ==> x.number < n
    ensures n > 1 ==> exists x :: x in AttemptsOf(ix.abs, requestID) && x.jobID == jobID && x.number == n - 1
  {
    MaxLaw(AttemptsOf(ix.abs, requestID), jobID);
    BareAttemptsOf(ix, requestID);
    MaxBare(AttemptsOf(ix.abs, requestID), jobID);
    assert MaxNumber([], jobID) == 0;
    hide Indexes.Coherent, AttemptsOf, MaxNumber, BareList;
    var list := if requestID in ix.attempts then ix.attempts[requestID] else [];
    n := 1;
    for i := 0 to |list|
      invariant n == MaxNumber(list[..i], jobID) + 1
    {
      MaxNext(list, i, jobID);
      if list[i].jobID == jobID && list[i].number >= n {
        n := list[i].number + 1;
      }
    }
    assert list[..|list|] == list;
  }

  lemma AttemptsFacts(ix: Indexes)
    requires ix.Coherent()
    ensures ix.attempts.Keys == ix.abs.attempts.Keys
    ensures forall r :: r in ix.attempts ==> ix.attempts[r] == BareList(ix.abs.attempts[r])
  {
  }

  method HighestIn(ghost m: map<string, seq<Attempt>>, ghost r: string, list: seq<Attempt>, id: string, start: int) returns (n: int)
    requires r in m && list == BareList(m[r]) && start >= 0
    requires start > 0 ==> exists x :: x in All(m) && x.jobID == id && x.number == start
    ensures n >= start && forall x :: x in m[r] && x.jobID == id ==> x.number <= n
    ensures n > 0 ==> exists x :: x in All(m) && x.jobID == id && x.number == n
  {
    n := start;
    for i := 0 to |list|
      invariant n >= start && forall k :: 0 <= k < i && m[r][k].jobID == id ==> m[r][k].number <= n
      invariant n > 0 ==> exists x :: x in All(m) && x.jobID == id && x.number == n
    {
      if list[i].jobID == id && list[i].number > n {
        n := list[i].number;
        InAll(m, r, m[r][i]);
      }
    }
  }

  /** `AttemptsForJob`: the highest attempt number of the job over all requests. */
  method AttemptsForJob(ix: Indexes, id: string) returns (n: int)
    requires ix.Coherent()
    ensures IsHighest(ix.abs, id, n)
  {
    AttemptsFacts(ix);
    hide Indexes.Coherent;
    n := 0;
    var left := ix.attempts.Keys;
    ghost var m := ix.abs.attempts;
    while left != {}
      invariant left <= ix.attempts.Keys && n >= 0
      invariant forall r, x :: r in m.Keys - left && x in m[r] && x.jobID == id ==> x.number <= n
      invariant n > 0 ==> exists x :: x in All(m) && x.jobID == id && x.number == n
      decreases left
    {
      var r :| r in left;
      n := HighestIn(m, r, ix.attempts[r], id, n);
      left := left - {r};
    }
  }

  /* ---- the event an operation wants appended, or why there is none ---- */

  method PlanRepair(ix: Indexes, id: string, job: Job) returns (r: Result<Event, Error>)
    requires ix.Coherent() && id in ix.abs.requests && JobsOf(ix.abs, id) == {} && job.state == Pending
    ensures r.Err? <==> job.id in ix.abs.jobs
    ensures r.Err? ==> r.error == IDCollision
    ensures r.Ok? ==> r.value == JobEvent(job.(requestID := id), []) && Produces(ix.opts, ix.abs, Repairing, r.value)
  {
    IndexFacts(ix);
    hide Indexes.Coherent, JobsOf;
    r := if job.id in ix.jobs then Err(IDCollision) else Ok(JobEvent(job.(requestID := id), []));
  }

  /** Why a new capture is refused before anything is written. */
  ghost function CaptureRefusal(o: Options, a: Abs, r: Request, job: Option<Job>): Option<Error> {
    if r.id in a.requests || (job.Some? && job.value.id in a.jobs) then Some(IDCollision)
    else if |TerminalRequests(a)| < |a.requests| + 1 - o.maxCaptures then Some(Capacity)
    else None
  }

  /** A capture needs fresh identifiers and room. */
  method PlanCapture(ix: Indexes, r: Request, job: Option<Job>) returns (res: Result<Event, Error>)
    requires ix.Coherent() && ix.opts.Positive() && Holders(ix.abs, KeyOf(r)) == {}
    requires job.Some? ==> job.value.requestID == r.id && job.value.state == Pending
    ensures res.Err? <==> CaptureRefusal(ix.opts, ix.abs, r, job).Some?
    ensures res.Err? ==> CaptureRefusal(ix.opts, ix.abs, r, job) == Some(res.error)
    ensures res.Ok? ==> res.value == CaptureEvent(r, job, res.value.evictedRequestIDs)
                        && CaptureEvictions(ix.opts, ix.abs, res.value.evictedRequestIDs)
                        && Produces(ix.opts, ix.abs, Capturing, res.value)
  {
    hide Indexes.Coherent, CaptureEvictions, Holders, TerminalRequests, Keyed, DedupSound;
    IndexFacts(ix);
    if r.id in ix.requests || (job.Some? && job.value.id in ix.jobs) {
      res := Err(IDCollision);
    } else {
      var evictions := OldestRequests(ix);
      res := if evictions.Err? then Err(evictions.error) else Ok(CaptureEvent(r, job, evictions.value));
    }
  }

  /** Why an enqueue is refused before anything is written. */
  ghost function EnqueueRefusal(o: Options, a: Abs, j: Job): Option<Error> {
    if j.requestID !in a.requests then Some(Missing)
    else if j.state != Pending then Some(Invalid)
    else if j.id in a.jobs then Some(IDCollision)
    else if Full(o, a, j.requestID) then Some(Capacity)
    else None
  }

  method PlanEnqueue(ix: Indexes, j: Job) returns (r: Result<Event, Error>)
    requires ix.Coherent()
    ensures r.Err? <==> EnqueueRefusal(ix.opts, ix.abs, j).Some?
    ensures r.Err? ==> EnqueueRefusal(ix.opts, ix.abs, j) == Some(r.error)
    ensures r.Ok? ==> r.value == JobEvent(j, r.value.evictedJobIDs) && Produces(ix.opts, ix.abs, Enqueuing, r.value)
                      && EnqueueEvictions(ix.opts, ix.abs, j.requestID, r.value.evictedJobIDs)
  {
    hide Indexes.Coherent, EnqueueEvictions, JobsOf, Full, Keyed, DedupSound;
    IndexFacts(ix);
    if j.requestID !in ix.requests {
      r := Err(Missing);
    } else if j.state != Pending {
      r := Err(Invalid);
    } else if j.id in ix.jobs {
      r := Err(IDCollision);
    } else {
      var evictions := OldestJob(ix, j.requestID);
      r := if evictions.Err? then Err(evictions.error) else Ok(JobEvent(j, evictions.value));
    }
  }

  /** The claim of the next job, none exactly when no job is eligible. */
  method PlanClaim(ix: Indexes, owner: string, now: Time, lease: int) returns (r: Option<Event>)
    requires ix.Coherent()
    ensures r.None? <==> forall k :: k in ix.abs.jobs ==> !Eligible(ix.abs.jobs[k], now)
    ensures r.Some? ==> r.value.job.Some? && r.value == JobEvent(r.value.job.value, [])
                        && Produces(ix.opts, ix.abs, Claiming(owner, now, lease), r.value)
  {
    hide Indexes.Coherent, Eligible, Before;
    var next := NextClaim(ix, now);
    r := if next.None? then None else Some(JobEvent(LeasedTo(next.value, owner, now, lease), []));
  }

  /** Why an outcome is refused before anything is written, in the order of the checks. */
  ghost function OutcomeRefusal(o: Options, a: Abs, jobID: string, owner: string, x: Attempt, state: JobState): Option<Error> {
    if !HoldsLease(a, jobID, owner) then Some(LeaseLost)
    else if x.number > o.maxAttemptsPerJob then Some(Capacity)
    else if x.number != MaxNumber(AttemptsOf(a, a.jobs[jobID].requestID), jobID) + 1 then Some(Invalid)
    else if x.id in AttemptIDs(a) then Some(IDCollision)
    else if !OutcomeState(state) then Some(Invalid)
    else None
  }

  /** A capture is refused for an identifier in use, or if too few requests have only finished jobs to make room. */
  lemma CaptureRefusalLaw(o: Options, a: Abs, r: Request, job: Option<Job>)
    ensures CaptureRefusal(o, a, r, job)
         == if r.id in a.requests || (job.Some? && job.value.id in a.jobs) then Some(IDCollision)
            else if |(set id | id in a.requests && forall k :: k in a.jobs && a.jobs[k].requestID == id ==> Terminal(a.jobs[k].state))|
                    + o.maxCaptures <= |a.requests| then Some(Capacity)
            else None
  {
    var done := set id | id in a.requests && forall k :: k in a.jobs && a.jobs[k].requestID == id ==> Terminal(a.jobs[k].state);
    forall id | id in a.requests ensures id in done <==> id in TerminalRequests(a) {
      assert forall k :: k in JobsOf(a, id) <==> k in a.jobs && a.jobs[k].requestID == id;
    }
    assert done == TerminalRequests(a);
    hide TerminalRequests;
  }

  /** An enqueue is refused for a missing request, a job that is not new, or a request that is full of unfinished jobs. */
  lemma EnqueueRefusalLaw(o: Options, a: Abs, j: Job)
    ensures EnqueueRefusal(o, a, j)
         == if j.requestID !in a.requests then Some(Missing) else if j.state != Pending then Some(Invalid)
            else if j.id in a.jobs then Some(IDCollision)
            else if |(set k | k in a.jobs && a.jobs[k].requestID == j.requestID)| >= o.maxJobsPerRequest
                    && forall k :: k in a.jobs && a.jobs[k].requestID == j.requestID ==> !Terminal(a.jobs[k].state) then Some(Capacity)
            else None
  {
    assert JobsOf(a, j.requestID) == set k | k in a.jobs && a.jobs[k].requestID == j.requestID;
  }

  /** Why a discard is refused before anything is written. */
  ghost function DiscardRefusal(a: Abs, jobID: string, owner: string, state: JobState): Option<Error> {
    if !HoldsLease(a, jobID, owner) then Some(LeaseLost)
    else if state != Poison then Some(Invalid)
    else None
  }

  /** An outcome is refused without the lease, beyond the limit, and unless number, identifier and state are as they must be. */
  lemma OutcomeRefusalLaw(o: Options, a: Abs, jobID: string, owner: string, x: Attempt, state: JobState)
    ensures var held := jobID in a.jobs && a.jobs[jobID].state == Leased && a.jobs[jobID].leaseOwner == owner;
            && DiscardRefusal(a, jobID, owner, state) == (if !held then Some(LeaseLost) else if state != Poison then Some(Invalid) else None)
            && (!held ==> OutcomeRefusal(o, a, jobID, owner, x, state) == Some(LeaseLost))
            && (held && x.number > o.maxAttemptsPerJob ==> OutcomeRefusal(o, a, jobID, owner, x, state) == Some(Capacity))
            && (OutcomeRefusal(o, a, jobID, owner, x, state).None? <==>
                  && held && x.number <= o.maxAttemptsPerJob && x.number == MaxNumber(AttemptsOf(a, a.jobs[jobID].requestID), jobID) + 1
                  && x.id !in AttemptIDs(a) && state in {Retrying, Succeeded, Fatal, DeadLetter})
  {
    hide MaxNumber, AttemptsOf, IDsIn;
  }

  /** The job as an outcome leaves it. */
  function OutcomeJob(j: Job, x: Attempt, state: JobState, message: string, availableAt: Time, clock: Time): Job {
    Resolved(j, state, message, if x.finishedAt == ZERO then clock else x.finishedAt, availableAt)
  }

  /** The stored job, field by field: the outcome's state, message and due time, no lease, and the end of the attempt as the instant of
      the change, which is also the end of the job unless it is to be retried. */
  lemma OutcomeJobLaw(j: Job, x: Attempt, state: JobState, message: string, availableAt: Time, clock: Time)
    requires OutcomeState(state)
    ensures var now := if x.finishedAt == 0 then clock else x.finishedAt;
            var done := if state == Retrying then j.finishedAt else now;
            OutcomeJob(j, x, state, message, availableAt, clock)
            == Job(j.id, j.requestID, j.url, state, message, "", j.createdAt, now, availableAt, 0, done)
    ensures state in {Retrying, Succeeded, Fatal, DeadLetter}
  {
  }

  lemma OutcomeProduced(o: Options, a: Abs, jobID: string, owner: string, x: Attempt, state: JobState, message: string,
                        availableAt: Time, clock: Time)
    requires OutcomeRefusal(o, a, jobID, owner, x, state).None? && Keyed(a)
    ensures jobID in a.jobs && a.jobs[jobID].id == jobID
    ensures Produces(o, a, Recording(owner), OutcomeEvent(OutcomeJob(a.jobs[jobID], x, state, message, availableAt, clock), x))
  {
    hide MaxNumber, AttemptsOf, IDsIn, AttemptsKeyed;
  }

  lemma AttemptIDsFact(ix: Indexes)
    requires ix.Coherent()
    ensures ix.attemptIDs == AttemptIDs(ix.abs)
  {
  }

  method PlanOutcome(ix: Indexes, jobID: string, owner: string, x: Attempt, state: JobState, message: string, availableAt: Time, clock: Time)
    returns (r: Result<Event, Error>)
    requires ix.Coherent()
    ensures r.Err? <==> OutcomeRefusal(ix.opts, ix.abs, jobID, owner, x, state).Some?
    ensures r.Err? ==> OutcomeRefusal(ix.opts, ix.abs, jobID, owner, x, state) == Some(r.error)
    ensures r.Ok? ==> jobID in ix.abs.jobs && ix.abs.jobs[jobID].id == jobID
                      && r.value == OutcomeEvent(OutcomeJob(ix.abs.jobs[jobID], x, state, message, availableAt, clock), x)
                      && Produces(ix.opts, ix.abs, Recording(owner), r.value)
  {
    hide Indexes.Coherent, MaxNumber, AttemptsOf, IDsIn, Keyed, DedupSound, Produces, OutcomeState;
    IndexFacts(ix);
    AttemptIDsFact(ix);
    if jobID !in ix.jobs || ix.jobs[jobID].state != Leased || ix.jobs[jobID].leaseOwner != owner {
      r := Err(LeaseLost);
    } else {
      var j := ix.jobs[jobID];
      if x.number > ix.opts.maxAttemptsPerJob {
        r := Err(Capacity);
      } else {
        var expected := ExpectedNumber(ix, j.requestID, jobID);
        if x.number != expected {
          r := Err(Invalid);
        } else if x.id in ix.attemptIDs {
          r := Err(IDCollision);
        } else if !OutcomeState(state) {
          r := Err(Invalid);
        } else {
          r := Ok(OutcomeEvent(OutcomeJob(j, x, state, message, availableAt, clock), x));
          OutcomeProduced(ix.opts, ix.abs, jobID, owner, x, state, message, availableAt, clock);
        }
      }
    }
  }

  method PlanPoison(ix: Indexes, jobID: string, owner: string, state: JobState, message: string, clock: Time) returns (r: Result<Event, Error>)
    requires ix.Coherent()
    ensures r.Err? <==> DiscardRefusal(ix.abs, jobID, owner, state).Some?
    ensures r.Err? ==> DiscardRefusal(ix.abs, jobID, owner, state) == Some(r.error)
    ensures r.Ok? ==> jobID in ix.abs.jobs && r.value == JobEvent(PoisonedJob(ix.abs.jobs[jobID], message, clock), [])
                      && Produces(ix.opts, ix.abs, Finishing(owner), r.value)
  {
    hide Indexes.Coherent;
    IndexFacts(ix);
    if jobID !in ix.jobs || ix.jobs[jobID].state != Leased || ix.jobs[jobID].leaseOwner != owner {
      r := Err(LeaseLost);
    } else if state != Poison {
      r := Err(Invalid);
    } else {
      r := Ok(JobEvent(PoisonedJob(ix.jobs[jobID], message, clock), []));
    }
  }

  /** One turn of the loop in `RecoverLeases`. */
  method PlanReclaim(ix: Indexes, id: string, now: Time) returns (e: Event)
    requires ix.Coherent() && id in ix.abs.jobs && Held(ix.abs.jobs[id])
    ensures e == JobEvent(Reclaimed(ix.abs.jobs[id], now), []) && Produces(ix.opts, ix.abs, Reclaiming(now), e)
  {
    IndexFacts(ix);
    hide Indexes.Coherent;
    e := JobEvent(Reclaimed(ix.jobs[id], now), []);
  }
}
