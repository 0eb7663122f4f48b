/** The index fields of the store and the procedures that keep them in step with the state. */
module IndexTable {
  import opened Wrappers
  import opened Model
  import opened Spec
  import opened Linkage
  import opened IndexMaps
  import opened Redaction

  lemma RedactDedup(sensitive: Policy, m: map<string, Request>, delivery: map<string, string>, body: map<string, string>)
    ensures RedactRequests(sensitive, m).Keys == m.Keys
    ensures DedupSound(m, delivery, body) ==> DedupSound(RedactRequests(sensitive, m), delivery, body)
    ensures DedupComplete(m, delivery, body) ==> DedupComplete(RedactRequests(sensitive, m), delivery, body)
  {
    hide RedactHeader;
  }

  ghost function IDsOf(l: seq<Attempt>): set<string> {
    set x | x in l :: x.id
  }

  lemma DroppedIDs(a: Abs, id: string)
    requires Keyed(a)
    ensures var m := BareAttempts(a.attempts);
            var b := a.(attempts := a.attempts - {id});
            && Keyed(b)
            && BareAttempts(b.attempts) == m - {id}
            && AttemptIDs(b) == AttemptIDs(a) - IDsOf(if id in m then m[id] else [])
  {
    var b := a.(attempts := a.attempts - {id});
    var l := AttemptsOf(a, id);
    var list := BareList(l);
    forall x | x in l ensures x.id in IDsOf(list) {
      var i :| 0 <= i < |l| && l[i] == x;
      assert list[i] in list;
    }
    forall y | y in list ensures exists x :: x in l && x.id == y.id {
      var i :| 0 <= i < |list| && list[i] == y;
      assert l[i] in l;
    }
    forall x | x in All(b.attempts) ensures x in All(a.attempts) && x.id !in IDsOf(list) {
      var q :| q in b.attempts && x in b.attempts[q];
      InAll(a.attempts, q, x);
      if x.id in IDsOf(list) {
        var y :| y in list && y.id == x.id;
        var z :| z in l && z.id == y.id;
        InAll(a.attempts, id, z);
        assert false;
      }
    }
    forall x | x in All(a.attempts) && x.id !in IDsOf(list) ensures x in All(b.attempts) {
      var q :| q in a.attempts && x in a.attempts[q];
      InAll(b.attempts, q, x);
    }
  }

  /** Removing a job of one request leaves the attempts of the others alone. */
  lemma RemovedElsewhere(a: Abs, j: string, id: string)
    requires j in a.jobs ==> a.jobs[j].requestID == id
    ensures Spec.RemoveJob(a, j).attempts - {id} == a.attempts - {id}
    ensures Spec.RemoveJob(a, j).requests == a.requests && Spec.RemoveJob(a, j).jobs == a.jobs - {j}
  {
  }

  /** The request's own part of its removal. */
  lemma RequestDropped(a: Abs, id: string, delivery: map<string, string>, body: map<string, string>)
    requires Keyed(a) && id in a.requests && DedupSound(a.requests, delivery, body)
    ensures Spec.RemoveRequest(a, id) == Abs(a.requests - {id}, a.jobs - JobsOf(a, id), a.attempts - {id})
    ensures Keyed(Spec.RemoveRequest(a, id))
    ensures var bare := Bare(a.requests[id]);
            && bare.id == id
            && DedupSound(a.requests - {id}, DropDelivery(delivery, bare), DropBody(body, bare))
            && (DedupComplete(a.requests, delivery, body) ==>
                  DedupComplete(a.requests - {id}, DropDelivery(delivery, bare), DropBody(body, bare)))
  {
    RemoveRequestKeyed(a, id);
    DedupDrop(a.requests, delivery, body, id);
    hide Keyed, DedupSound, DedupComplete;
  }

  lemma DropBare(m: map<string, Request>, id: string, limit: nat)
    ensures BareRequests(m - {id}) == BareRequests(m) - {id}
    ensures BodySizes(m - {id}) == BodySizes(m) - {id}
    ensures SearchTexts(m - {id}, limit) == SearchTexts(m, limit) - {id}
    ensures (m - {id}).Keys == m.Keys - {id}
  {
  }

  lemma AddBareRequest(m: map<string, Request>, r: Request)
    ensures BareRequests(m[r.id := r]) == BareRequests(m)[r.id := Bare(r)]
  {
    hide Bare;
  }

  lemma AddBare(m: map<string, Request>, r: Request, limit: nat)
    ensures BareRequests(m[r.id := r]) == BareRequests(m)[r.id := Bare(r)]
    ensures BodySizes(m[r.id := r]) == BodySizes(m)[r.id := |r.body|]
    ensures SearchTexts(m[r.id := r], limit) == SearchTexts(m, limit)[r.id := TextOf(r, limit)]
  {
    hide Bare, TextOf;
    AddBareRequest(m, r);
  }

  lemma AppendBare(m: map<string, seq<Attempt>>, x: Attempt)
    ensures var l := if x.requestID in m then m[x.requestID] else [];
            var b := BareAttempts(m);
            BareAttempts(m[x.requestID := l + [x]])
            == b[x.requestID := (if x.requestID in b then b[x.requestID] else []) + [BareAttempt(x)]]
  {
    var l := if x.requestID in m then m[x.requestID] else [];
    assert BareList(l + [x]) == BareList(l) + [BareAttempt(x)];
  }

  lemma RemoveJobsNext(a: Abs, ids: seq<string>, i: nat)
    requires i < |ids|
    ensures RemoveJobs(a, ids[..i + 1]) == Spec.RemoveJob(RemoveJobs(a, ids[..i]), ids[i])
  {
    assert ids[..i + 1][..i] == ids[..i];
  }

  lemma RemoveRequestsNext(a: Abs, ids: seq<string>, i: nat)
    requires i < |ids|
    ensures RemoveRequests(a, ids[..i + 1]) == Spec.RemoveRequest(RemoveRequests(a, ids[..i]), ids[i])
  {
    assert ids[..i + 1][..i] == ids[..i];
  }

  /** The checks made before the evictions still hold after them. */
  lemma EvictReady(a: Abs, e: Event)
    requires Keyed(a) && StateValid(a, e)
    ensures var b := Spec.Evict(a, e);
            && (e.request.Some? ==> e.request.value.id !in b.requests)
            && (e.attempt.Some? ==> e.attempt.value.id !in AttemptIDs(b))
            && (e.job.Some? && e.job.value.id in b.jobs ==> b.jobs[e.job.value.id].requestID == e.job.value.requestID)
  {
    EvictKeyed(a, e);
    RemoveJobsKeyed(a, e.evictedJobIDs);
    RemoveRequestsKeyed(RemoveJobs(a, e.evictedJobIDs), e.evictedRequestIDs);
  }

  /** If the keys are unique once the request is in, no other request had its key. */
  lemma NewKey(b: Abs, e: Event)
    requires e.request.Some? ==> e.request.value.id !in b.requests
    ensures var d := AddJob(AddAttempt(AddRequest(b, e.request), e.attempt), e.job);
            UniqueKeys(d.requests) && e.request.Some? ==> Holders(b, KeyOf(e.request.value)) == {}
  {
    if e.request.Some? {
      var r := e.request.value;
      var d := AddRequest(b, e.request);
      if UniqueKeys(d.requests) {
        forall id | id in b.requests ensures KeyOf(b.requests[id]) != KeyOf(r) {
          assert d.requests[id] == b.requests[id] && d.requests[r.id] == r;
        }
      }
    }
  }

  lemma AddKeys(a: Abs, delivery: map<string, string>, body: map<string, string>, r: Request)
    requires r.id !in a.requests && DedupSound(a.requests, delivery, body)
    ensures DedupSound(a.requests[r.id := r], AddDelivery(delivery, r), AddBody(body, r))
    ensures DedupComplete(a.requests, delivery, body) && Holders(a, KeyOf(r)) == {} ==>
              DedupComplete(a.requests[r.id := r], AddDelivery(delivery, r), AddBody(body, r))
  {
    DedupAdd(a.requests, delivery, body, r);
    if Holders(a, KeyOf(r)) == {} {
      forall id | id in a.requests ensures KeyOf(a.requests[id]) != KeyOf(r) {
        assert id !in Holders(a, KeyOf(r));
      }
    }
  }

  lemma NoSuchJob(a: Abs, id: string)
    requires id !in a.jobs
    ensures Spec.RemoveJob(a, id) == a
  {
  }

  ghost function RemovedIDs(l: seq<Attempt>, jobID: string): set<string> {
    set x | x in l && x.jobID == jobID :: x.id
  }

  lemma FilterNothing(id: string)
    ensures Without([], id) == [] && RemovedIDs([], id) == {}
  {
  }

  lemma RemovedBare(a: Abs, id: string)
    requires id in a.jobs
    ensures var r := a.jobs[id].requestID;
            var m := BareAttempts(a.attempts);
            var list := if r in m then m[r] else [];
            && BareAttempts(Spec.RemoveJob(a, id).attempts) == (if Without(list, id) == [] then m - {r} else m[r := Without(list, id)])
            && RemovedIDs(list, id) == RemovedIDs(AttemptsOf(a, r), id)
  {
    hide Without;
    var r := a.jobs[id].requestID;
    var l := AttemptsOf(a, r);
    BareWithout(l, id);
    assert BareList([]) == [];
    var list := BareList(l);
    forall x | x in l && x.jobID == id ensures x.id in RemovedIDs(list, id) {
      var i :| 0 <= i < |l| && l[i] == x;
      assert list[i] in list;
    }
    forall y | y in list && y.jobID == id ensures y.id in RemovedIDs(l, id) {
      var i :| 0 <= i < |list| && list[i] == y;
      assert l[i] in l;
    }
    assert BareList(Without(l, id)) == [] <==> Without(l, id) == [];
  }

  lemma WithoutNext(l: seq<Attempt>, i: nat, jobID: string)
    requires i < |l|
    ensures l[..i + 1] == l[..i] + [l[i]]
    ensures Without(l[..i + 1], jobID) == if l[i].jobID != jobID then Without(l[..i], jobID) + [l[i]] else Without(l[..i], jobID)
    ensures RemovedIDs(l[..i + 1], jobID) == if l[i].jobID != jobID then RemovedIDs(l[..i], jobID) else RemovedIDs(l[..i], jobID) + {l[i].id}
  {
    assert l[..i + 1] == l[..i] + [l[i]];
    assert l[..i + 1][..i] == l[..i];
  }

  /** What is left of the identifiers when a job's attempts go. */
  lemma RemovedExactly(a: Abs, id: string)
    requires Keyed(a) && id in a.jobs
    ensures AttemptIDs(Spec.RemoveJob(a, id)) == AttemptIDs(a) - RemovedIDs(AttemptsOf(a, a.jobs[id].requestID), id)
  {
    var r := a.jobs[id].requestID;
    var l := AttemptsOf(a, r);
    var b := Spec.RemoveJob(a, id);
    WithoutFilters(l, id);
    forall x | x in All(b.attempts) ensures x in All(a.attempts) && x.id !in RemovedIDs(l, id) {
      var q :| q in b.attempts && x in b.attempts[q];
      InAll(a.attempts, q, x);
      if x.id in RemovedIDs(l, id) {
        var y :| y in l && y.jobID == id && y.id == x.id;
        InAll(a.attempts, r, y);
        assert false;
      }
    }
    forall x | x in All(a.attempts) && x.id !in RemovedIDs(l, id) ensures x in All(b.attempts) {
      var q :| q in a.attempts && x in a.attempts[q];
      if q == r {
        assert x.jobID != id;
        assert x in Without(l, id);
      }
      InAll(b.attempts, q, x);
    }
  }

  class Indexes {
    const codec: Codec
    const opts: Options

    ghost predicate RequestsCoherent()
      reads this
    {
      && requests == BareRequests(abs.requests)
      && requestBytes == BodySizes(abs.requests)
      && opts.Positive() && search == SearchTexts(abs.requests, opts.maxSearchBytes)
      && requestRecord.Keys == abs.requests.Keys
    }

    ghost predicate JobsCoherent()
      reads this
    {
      jobs == abs.jobs && jobsByRequest == ByRequest(abs.jobs)
    }

    ghost predicate AttemptsCoherent()
      reads this
    {
      && attempts == BareAttempts(abs.attempts)
      && attemptIDs == AttemptIDs(abs)
      && attemptRecord.Keys == attemptIDs
    }

    ghost predicate Coherent()
      reads this
    {
      && Keyed(abs)
      && RequestsCoherent() && JobsCoherent() && AttemptsCoherent()
      && DedupSound(abs.requests, delivery, body)
    }

    var requests: map<string, Request>
    var attempts: map<string, seq<Attempt>>
    var attemptIDs: set<string>
    var jobs: map<string, Job>
    var jobsByRequest: map<string, set<string>>
    var delivery: map<string, string>
    var body: map<string, string>
    var requestRecord: map<string, RecordRef>
    var requestBytes: map<string, nat>
    var attemptRecord: map<string, RecordRef>
    var search: map<string, SearchText>

    /** The state the indexes stand for. */
    ghost var abs: Abs

    constructor (codec: Codec, opts: Options)
      requires opts.Positive()
      ensures this.codec == codec && this.opts == opts && abs == EMPTY && Coherent()
      ensures requestRecord == map[] && attemptRecord == map[]
    {
      this.codec, this.opts := codec, opts;
      requests, attempts, attemptIDs, jobs, jobsByRequest := map[], map[], {}, map[], map[];
      delivery, body, requestRecord, requestBytes, attemptRecord, search := map[], map[], map[], map[], map[], map[];
      abs := EMPTY;
    }

    /** Every retained request is found under its key. */
    ghost predicate Complete()
      reads this
    {
      DedupComplete(abs.requests, delivery, body)
    }

    /** No record reference has been added or moved. */
    twostate predicate RefsKept()
      reads this
    {
      && (forall k :: k in attemptRecord ==> k in old(attemptRecord) && attemptRecord[k] == old(attemptRecord)[k])
      && (forall k :: k in requestRecord ==> k in old(requestRecord) && requestRecord[k] == old(requestRecord)[k])
    }

    /** The in-place filter of `removeJob`: one request's list loses the job's attempts, and they lose their
        identifiers and references. */
    method FilterAttempts(r: string, id: string)
      modifies this`attempts, this`attemptIDs, this`attemptRecord
      ensures var list := if r in old(attempts) then old(attempts)[r] else [];
              && attempts == (if Without(list, id) == [] then old(attempts) - {r} else old(attempts)[r := Without(list, id)])
              && attemptIDs == old(attemptIDs) - RemovedIDs(list, id)
              && attemptRecord == old(attemptRecord) - RemovedIDs(list, id)
    {
      hide Without, RemovedIDs;
      var list := if r in attempts then attempts[r] else [];
      ghost var was := list;
      FilterNothing(id);
      var n := 0;
      for i := 0 to |list|
        invariant n <= i && |list| == |was|
        invariant list[i..] == was[i..]
        invariant list[..n] == Without(was[..i], id)
        invariant attempts == old(attempts)
        invariant attemptIDs == old(attemptIDs) - RemovedIDs(was[..i], id)
        invariant attemptRecord == old(attemptRecord) - RemovedIDs(was[..i], id)
      {
        var a := list[i];
        assert a == list[i..][0] == was[i];
        WithoutNext(was, i, id);
        assert was[i..][1..] == was[i + 1..];
        if a.jobID != id {
          list := list[n := a];
          n := n + 1;
        } else {
          attemptIDs := attemptIDs - {a.id};
          attemptRecord := attemptRecord - {a.id};
        }
      }
      assert was[..|was|] == was;
      if n == 0 {
        attempts := attempts - {r};
      } else {
        attempts := attempts[r := list[..n]];
      }
    }

    /** The job leaves `jobs` and the set of its request, and an emptied set leaves its map. */
    method UnindexJob(id: string)
      requires id in jobs && jobsByRequest == ByRequest(jobs)
      modifies this`jobs, this`jobsByRequest
      ensures jobs == old(jobs) - {id} && jobsByRequest == ByRequest(jobs)
    {
      var r := jobs[id].requestID;
      hide ByRequest;
      ByRequestRemove(jobs, id);
      jobs := jobs - {id};
      if r in jobsByRequest {
        jobsByRequest := jobsByRequest[r := jobsByRequest[r] - {id}];
        if jobsByRequest[r] == {} {
          jobsByRequest := jobsByRequest - {r};
        }
      }
    }

    method RemoveHeldJob(id: string)
      requires Keyed(abs) && JobsCoherent() && AttemptsCoherent() && id in jobs
      modifies this`jobs, this`jobsByRequest, this`attempts, this`attemptIDs, this`attemptRecord, this`abs
      ensures abs == Spec.RemoveJob(old(abs), id)
      ensures Keyed(abs) && JobsCoherent() && AttemptsCoherent()
      ensures forall k :: k in attemptRecord ==> k in old(attemptRecord) && attemptRecord[k] == old(attemptRecord)[k]
    {
      hide Keyed, Spec.RemoveJob, IDsIn, RemovedIDs, Without, BareAttempts, ByRequest, AttemptsOf;
      var r := jobs[id].requestID;
      RemoveJobKeyed(abs, id);
      RemovedExactly(abs, id);
      RemovedBare(abs, id);
      UnindexJob(id);
      FilterAttempts(r, id);
      abs := Spec.RemoveJob(abs, id);
    }

    /** `removeJob`: the job, its entry under its request, and its attempts. */
    method RemoveJob(id: string)
      requires Keyed(abs) && JobsCoherent() && AttemptsCoherent()
      modifies this`jobs, this`jobsByRequest, this`attempts, this`attemptIDs, this`attemptRecord, this`abs
      ensures abs == Spec.RemoveJob(old(abs), id)
      ensures Keyed(abs) && JobsCoherent() && AttemptsCoherent()
      ensures forall k :: k in attemptRecord ==> k in old(attemptRecord) && attemptRecord[k] == old(attemptRecord)[k]
    {
      hide Keyed, Spec.RemoveJob, IDsIn, RemovedIDs, Without, BareAttempts, ByRequest, AttemptsOf;
      if id in jobs {
        RemoveHeldJob(id);
      } else {
        NoSuchJob(abs, id);
      }
    }

    lemma NotHeld(id: string)
      requires Coherent() && id !in requests
      ensures Spec.RemoveRequest(abs, id) == abs
    {
    }

    lemma HeldRequest(id: string)
      requires RequestsCoherent() && id in requests
      ensures id in abs.requests && requests[id] == Bare(abs.requests[id])
    {
    }

    /** The jobs of a request go one by one, in any order, each with its attempts. */
    method RemoveJobsOf(id: string)
      requires Keyed(abs) && JobsCoherent() && AttemptsCoherent()
      modifies this`jobs, this`jobsByRequest, this`attempts, this`attemptIDs, this`attemptRecord, this`abs
      ensures Keyed(abs) && JobsCoherent() && AttemptsCoherent()
      ensures abs.requests == old(abs.requests) && abs.jobs == old(abs.jobs) - JobsOf(old(abs), id)
      ensures abs.attempts - {id} == old(abs.attempts) - {id}
      ensures id !in jobsByRequest
      ensures forall k :: k in attemptRecord ==> k in old(attemptRecord) && attemptRecord[k] == old(attemptRecord)[k]
    {
      hide Keyed, Spec.RemoveJob, IDsIn;
      ByRequestIs(abs, id);
      var left := if id in jobsByRequest then jobsByRequest[id] else {};
      while left != {}
        invariant left <= JobsOf(old(abs), id)
        invariant Keyed(abs) && JobsCoherent() && AttemptsCoherent()
        invariant abs.requests == old(abs.requests)
        invariant abs.jobs == old(abs.jobs) - (JobsOf(old(abs), id) - left)
        invariant abs.attempts - {id} == old(abs.attempts) - {id}
        invariant forall k :: k in attemptRecord ==> k in old(attemptRecord) && attemptRecord[k] == old(attemptRecord)[k]
      {
        var j :| j in left;
        RemovedElsewhere(abs, j, id);
        RemoveJob(j);
        left := left - {j};
      }
      ByRequestIs(abs, id);
    }

    /** The attempts lose their identifiers and references. */
    method ForgetAttempts(list: seq<Attempt>)
      modifies this`attemptIDs, this`attemptRecord
      ensures attemptIDs == old(attemptIDs) - IDsOf(list) && attemptRecord == old(attemptRecord) - IDsOf(list)
    {
      for i := 0 to |list|
        invariant attemptIDs == old(attemptIDs) - IDsOf(list[..i])
        invariant attemptRecord == old(attemptRecord) - IDsOf(list[..i])
      {
        assert list[..i + 1] == list[..i] + [list[i]];
        assert IDsOf(list[..i + 1]) == IDsOf(list[..i]) + {list[i].id};
        attemptIDs := attemptIDs - {list[i].id};
        attemptRecord := attemptRecord - {list[i].id};
      }
      assert list[..|list|] == list;
    }

    /** What is left of a request's attempts goes with it. */
    method RemoveAttemptsOf(id: string)
      requires Keyed(abs) && AttemptsCoherent() && id !in jobsByRequest
      modifies this`attempts, this`attemptIDs, this`attemptRecord, this`abs
      ensures abs == old(abs).(attempts := old(abs.attempts) - {id})
      ensures AttemptsCoherent() && Keyed(abs)
      ensures forall k :: k in attemptRecord ==> k in old(attemptRecord) && attemptRecord[k] == old(attemptRecord)[k]
    {
      hide Keyed, IDsIn, BareAttempts, IDsOf;
      DroppedIDs(abs, id);
      ForgetAttempts(if id in attempts then attempts[id] else []);
      attempts := attempts - {id};
      abs := abs.(attempts := abs.attempts - {id});
    }

    /** Everything that belongs to a request. */
    method RemoveWorkOf(id: string)
      requires Keyed(abs) && JobsCoherent() && AttemptsCoherent()
      modifies this`jobs, this`jobsByRequest, this`attempts, this`attemptIDs, this`attemptRecord, this`abs
      ensures Keyed(abs) && JobsCoherent() && AttemptsCoherent()
      ensures abs == old(abs).(jobs := old(abs.jobs) - JobsOf(old(abs), id), attempts := old(abs.attempts) - {id})
      ensures forall k :: k in attemptRecord ==> k in old(attemptRecord) && attemptRecord[k] == old(attemptRecord)[k]
    {
      hide Keyed, IDsIn, BareAttempts, ByRequest, JobsOf;
      RemoveJobsOf(id);
      RemoveAttemptsOf(id);
    }

    /** The request's entry in the deduplication maps, if it is its own. */
    method DropKeys(id: string)
      requires id in requests && requests[id].id == id
      modifies this`delivery, this`body
      ensures delivery == DropDelivery(old(delivery), requests[id]) && body == DropBody(old(body), requests[id])
    {
      var r := requests[id];
      if r.deliveryID != "" && r.deliveryID in delivery && delivery[r.deliveryID] == id {
        delivery := delivery - {r.deliveryID};
      }
      if r.deliveryID == "" && r.bodySHA256 in body && body[r.bodySHA256] == id {
        body := body - {r.bodySHA256};
      }
    }

    method DropRequest(id: string)
      requires RequestsCoherent()
      modifies this`requests, this`requestRecord, this`requestBytes, this`search, this`abs
      ensures RequestsCoherent() && abs == old(abs).(requests := old(abs.requests) - {id})
      ensures requestRecord == old(requestRecord) - {id}
    {
      hide BareRequests, BodySizes, SearchTexts;
      DropBare(abs.requests, id, opts.maxSearchBytes);
      requests := requests - {id};
      requestRecord := requestRecord - {id};
      requestBytes := requestBytes - {id};
      search := search - {id};
      abs := abs.(requests := abs.requests - {id});
    }

    method RemoveHeldRequest(id: string)
      requires Coherent() && id in requests
      modifies this`requests, this`attempts, this`attemptIDs, this`jobs, this`jobsByRequest, this`delivery, this`body,
               this`requestRecord, this`requestBytes, this`attemptRecord, this`search, this`abs
      ensures abs == Spec.RemoveRequest(old(abs), id)
      ensures Coherent()
      ensures RefsKept()
      ensures old(Complete()) ==> Complete()
    {
      hide Keyed, Spec.RemoveRequest, DedupSound, DedupComplete, ByRequest, IDsIn, BareAttempts, BareRequests, BodySizes, SearchTexts,
           DropDelivery, DropBody, JobsOf;
      HeldRequest(id);
      RequestDropped(abs, id, delivery, body);
      DropKeys(id);
      RemoveWorkOf(id);
      DropRequest(id);
    }

    /** `removeRequest`: the request, its dedup entry, all its jobs, and all its attempts. */
    method RemoveRequest(id: string)
      requires Coherent()
      modifies this`requests, this`attempts, this`attemptIDs, this`jobs, this`jobsByRequest, this`delivery, this`body,
               this`requestRecord, this`requestBytes, this`attemptRecord, this`search, this`abs
      ensures abs == Spec.RemoveRequest(old(abs), id)
      ensures Coherent()
      ensures RefsKept()
      ensures old(Complete()) ==> Complete()
    {
      hide Coherent, Spec.RemoveRequest, DedupComplete;
      if id in requests {
        RemoveHeldRequest(id);
      } else {
        NotHeld(id);
      }
    }

    /* ---- apply ---- */

    method EvictJob(id: string)
      requires Coherent()
      modifies this`jobs, this`jobsByRequest, this`attempts, this`attemptIDs, this`attemptRecord, this`abs
      ensures Coherent() && abs == Spec.RemoveJob(old(abs), id)
      ensures RefsKept() && (old(Complete()) ==> Complete())
    {
      hide Keyed, Spec.RemoveJob, DedupSound, DedupComplete, ByRequest, IDsIn, BareAttempts, BareRequests, BodySizes, SearchTexts;
      RemoveJobKeyed(abs, id);
      RemoveJob(id);
    }

    /** The evictions an event carries: jobs first, then requests. */
    method Evict(e: Event)
      requires Coherent()
      modifies this
      ensures Coherent() && abs == Spec.Evict(old(abs), e)
      ensures RefsKept() && (old(Complete()) ==> Complete())
    {
      hide Coherent, DedupComplete, Spec.RemoveRequest, Spec.RemoveJob;
      var js, rs := e.evictedJobIDs, e.evictedRequestIDs;
      for i := 0 to |js|
        invariant Coherent() && abs == RemoveJobs(old(abs), js[..i])
        invariant RefsKept() && (old(Complete()) ==> Complete())
      {
        RemoveJobsNext(old(abs), js, i);
        EvictJob(js[i]);
      }
      ghost var mid := abs;
      assert js[..|js|] == js;
      for i := 0 to |rs|
        invariant Coherent() && abs == RemoveRequests(mid, rs[..i])
        invariant RefsKept() && (old(Complete()) ==> Complete())
      {
        RemoveRequestsNext(mid, rs, i);
        RemoveRequest(rs[i]);
      }
      assert rs[..|rs|] == rs;
    }

    method StoreKey(r: Request)
      modifies this`delivery, this`body
      ensures delivery == AddDelivery(old(delivery), r) && body == AddBody(old(body), r)
    {
      if r.deliveryID != "" {
        delivery := delivery[r.deliveryID := r.id];
      } else {
        body := body[r.bodySHA256 := r.id];
      }
    }

    /** A new request, without its body. */
    method StoreRequest(r: Request, ref: RecordRef)
      requires RequestsCoherent()
      modifies this`requests, this`requestRecord, this`requestBytes, this`search, this`delivery, this`body, this`abs
      ensures RequestsCoherent() && abs == AddRequest(old(abs), Some(r))
      ensures requestRecord == old(requestRecord)[r.id := ref]
      ensures delivery == AddDelivery(old(delivery), r) && body == AddBody(old(body), r)
    {
      hide BareRequests, BodySizes, SearchTexts, Bare, TextOf, AddDelivery, AddBody;
      AddBare(abs.requests, r, opts.maxSearchBytes);
      requests := requests[r.id := Bare(r)];
      requestRecord := requestRecord[r.id := ref];
      requestBytes := requestBytes[r.id := |r.body|];
      StoreKey(r);
      search := search[r.id := TextOf(r, opts.maxSearchBytes)];
      abs := AddRequest(abs, Some(r));
    }

    /** A new attempt, without its response body, at the end of its request's list. */
    method StoreAttempt(x: Attempt, ref: RecordRef)
      requires AttemptsCoherent() && AttemptsKeyed(abs.attempts) && x.id !in AttemptIDs(abs)
      modifies this`attempts, this`attemptIDs, this`attemptRecord, this`abs
      ensures AttemptsCoherent() && AttemptsKeyed(abs.attempts) && abs == AddAttempt(old(abs), Some(x))
      ensures attemptRecord == old(attemptRecord)[x.id := ref]
    {
      hide AttemptsKeyed, IDsIn, BareAttempts, BareAttempt;
      AppendAttemptKeyed(abs.attempts, x);
      AppendBare(abs.attempts, x);
      var list := if x.requestID in attempts then attempts[x.requestID] else [];
      attempts := attempts[x.requestID := list + [BareAttempt(x)]];
      attemptIDs := attemptIDs + {x.id};
      attemptRecord := attemptRecord[x.id := ref];
      abs := AddAttempt(abs, Some(x));
    }

    /** A new job, or a new version of a job of the same request. */
    method StoreJob(j: Job)
      requires JobsCoherent() && (j.id in abs.jobs ==> abs.jobs[j.id].requestID == j.requestID)
      modifies this`jobs, this`jobsByRequest, this`abs
      ensures JobsCoherent() && abs == AddJob(old(abs), Some(j))
    {
      hide ByRequest;
      ByRequestAdd(jobs, j);
      jobs := jobs[j.id := j];
      if j.requestID !in jobsByRequest {
        jobsByRequest := jobsByRequest[j.requestID := {}];
      }
      jobsByRequest := jobsByRequest[j.requestID := jobsByRequest[j.requestID] + {j.id}];
      abs := AddJob(abs, Some(j));
    }

    /** The references after an event: its own records stand at `ref`, all others where they stood. */
    twostate predicate RefsAdded(e: Event, ref: RecordRef)
      reads this
    {
      && (forall k :: k in requestRecord ==>
                        if e.request.Some? && e.request.value.id == k then requestRecord[k] == ref
                        else k in old(requestRecord) && requestRecord[k] == old(requestRecord)[k])
      && (forall k :: k in attemptRecord ==>
                        if e.attempt.Some? && e.attempt.value.id == k then attemptRecord[k] == ref
                        else k in old(attemptRecord) && attemptRecord[k] == old(attemptRecord)[k])
    }

    lemma CoherentKeyed()
      requires Coherent()
      ensures Keyed(abs)
    {
    }

    method AddOneRequest(r: Request, ref: RecordRef)
      requires Coherent() && r.id !in abs.requests
      modifies this`requests, this`requestRecord, this`requestBytes, this`search, this`delivery, this`body, this`abs
      ensures Coherent() && abs == AddRequest(old(abs), Some(r))
      ensures requestRecord == old(requestRecord)[r.id := ref]
      ensures old(Complete()) && Holders(old(abs), KeyOf(r)) == {} ==> Complete()
    {
      hide DedupSound, DedupComplete, BareRequests, BodySizes, SearchTexts, AttemptsKeyed, Holders, AddDelivery, AddBody;
      AddKeys(abs, delivery, body, r);
      StoreRequest(r, ref);
    }

    method AddOneAttempt(x: Attempt, ref: RecordRef)
      requires Coherent() && x.id !in AttemptIDs(abs)
      modifies this`attempts, this`attemptIDs, this`attemptRecord, this`abs
      ensures Coherent() && abs == AddAttempt(old(abs), Some(x))
      ensures attemptRecord == old(attemptRecord)[x.id := ref]
      ensures old(Complete()) ==> Complete()
    {
      hide DedupSound, DedupComplete, BareRequests, BodySizes, SearchTexts, AttemptsKeyed, IDsIn, BareAttempts;
      StoreAttempt(x, ref);
    }

    method AddOneJob(j: Job)
      requires Coherent() && (j.id in abs.jobs ==> abs.jobs[j.id].requestID == j.requestID)
      modifies this`jobs, this`jobsByRequest, this`abs
      ensures Coherent() && abs == AddJob(old(abs), Some(j))
      ensures old(Complete()) ==> Complete()
    {
      hide DedupSound, DedupComplete, BareRequests, BodySizes, SearchTexts, AttemptsKeyed, IDsIn, BareAttempts, ByRequest;
      StoreJob(j);
    }

    /** The records of an event, after its evictions. */
    method Add(e: Event, ref: RecordRef)
      requires Coherent()
      requires e.request.Some? ==> e.request.value.id !in abs.requests
      requires e.attempt.Some? ==> e.attempt.value.id !in AttemptIDs(abs)
      requires e.job.Some? && e.job.value.id in abs.jobs ==> abs.jobs[e.job.value.id].requestID == e.job.value.requestID
      modifies this
      ensures Coherent() && abs == AddJob(AddAttempt(AddRequest(old(abs), e.request), e.attempt), e.job)
      ensures RefsAdded(e, ref)
      ensures old(Complete()) && (e.request.Some? ==> Holders(old(abs), KeyOf(e.request.value)) == {}) ==> Complete()
    {
      hide Coherent, Complete, Holders;
      if e.request.Some? {
        AddOneRequest(e.request.value, ref);
      }
      if e.attempt.Some? {
        AddOneAttempt(e.attempt.value, ref);
      }
      if e.job.Some? {
        AddOneJob(e.job.value);
      }
    }

    /** `apply`, as far as the indexes go. */
    method Apply(e: Event, ref: RecordRef)
      requires Coherent() && StateValid(abs, e)
      modifies this
      ensures Coherent() && abs == Spec.Apply(old(abs), e)
      ensures RefsAdded(e, ref)
      ensures old(Complete()) && UniqueKeys(abs.requests) ==> Complete()
    {
      hide Coherent, Complete, Keyed, Holders, UniqueKeys, StateValid, AttemptIDs;
      CoherentKeyed();
      EvictReady(abs, e);
      Evict(e);
      NewKey(abs, e);
      Add(e, ref);
    }

    /** The part of `RedactHeaders` that works on the indexes. */
    method RedactAll(sensitive: Policy) returns (changed: bool)
      requires Coherent()
      modifies this`requests, this`attempts, this`abs
      ensures Coherent() && (old(Complete()) ==> Complete())
      ensures abs == RedactAbs(sensitive, old(abs)) && (changed <==> AbsExposed(sensitive, old(abs)))
    {
      hide Keyed, RedactRequests, RedactAttempts, BareRequests, BareAttempts, BodySizes, SearchTexts, ByRequest, DedupSound, DedupComplete,
           RequestsExposed, AttemptsExposed, IDsIn;
      BareRequestsRedacted(sensitive, abs.requests, opts.maxSearchBytes);
      BareRequestsExposed(sensitive, abs.requests);
      BareAttemptsRedacted(sensitive, abs.attempts);
      BareAttemptsExposed(sensitive, abs.attempts);
      RedactKeyed(sensitive, abs);
      RedactDedup(sensitive, abs.requests, delivery, body);
      RedactedAll(sensitive, abs.attempts);
      var one, two;
      requests, one := RedactHeldRequests(sensitive, requests);
      attempts, two := RedactHeldAttempts(sensitive, attempts);
      abs := RedactAbs(sensitive, abs);
      changed := one || two;
    }

    /** The references of a rewritten log. */
    method SetRefs(requestRefs: map<string, RecordRef>, attemptRefs: map<string, RecordRef>)
      requires Coherent() && requestRefs.Keys == abs.requests.Keys && attemptRefs.Keys == AttemptIDs(abs)
      modifies this`requestRecord, this`attemptRecord
      ensures Coherent() && (old(Complete()) ==> Complete())
      ensures requestRecord == requestRefs && attemptRecord == attemptRefs
    {
      hide Keyed, DedupSound, BareRequests, BareAttempts, IDsIn, BodySizes, SearchTexts, ByRequest, DedupComplete;
      requestRecord, attemptRecord := requestRefs, attemptRefs;
    }
  }
}
