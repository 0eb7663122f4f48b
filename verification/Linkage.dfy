/** The stronger invariant of states that only the store's own operations have written. */
module Linkage {
  import opened Wrappers
  import opened Model
  import opened Spec

  /** What idempotency is decided on: the delivery identifier, or the body hash of a request without one. */
  datatype Key = Delivery(id: string) | Body(hash: string)

  function KeyOf(r: Request): Key {
    if r.deliveryID != "" then Delivery(r.deliveryID) else Body(r.bodySHA256)
  }

  ghost function Holders(a: Abs, k: Key): set<string> {
    set id | id in a.requests && KeyOf(a.requests[id]) == k
  }

  /** Two requests have one key if they carry the same delivery identifier, or carry none and have the same body hash. */
  lemma HoldersLaw(a: Abs, r: Request)
    ensures forall id :: id in Holders(a, KeyOf(r)) <==>
                           id in a.requests && if r.deliveryID != "" then a.requests[id].deliveryID == r.deliveryID
                                               else a.requests[id].deliveryID == "" && a.requests[id].bodySHA256 == r.bodySHA256
  {
  }

  ghost predicate UniqueKeys(m: map<string, Request>) {
    forall x, y :: x in m && y in m && KeyOf(m[x]) == KeyOf(m[y]) ==> x == y
  }

  ghost predicate RequestsSound(c: Codec, m: map<string, Request>) {
    forall id :: id in m ==> id != "" && DigestValid(c, m[id])
  }

  ghost predicate JobsLinked(a: Abs) {
    forall j :: j in a.jobs ==> j != "" && a.jobs[j].requestID in a.requests && KnownState(a.jobs[j].state)
  }

  ghost predicate AttemptsLinked(a: Abs) {
    forall x :: x in All(a.attempts) ==>
                  AttemptValid(x) && x.jobID in a.jobs && a.jobs[x.jobID].requestID == x.requestID
  }

  /** No job without its request, no attempt without its job, and no two requests with one key. */
  ghost predicate Linked(c: Codec, a: Abs) {
    && Keyed(a)
    && RequestsSound(c, a.requests)
    && UniqueKeys(a.requests)
    && JobsLinked(a)
    && AttemptsLinked(a)
  }

  /** What the store's operations and snapshots add to the recovery checks. */
  ghost predicate Disciplined(a: Abs, e: Event) {
    && (e.job.Some? ==> e.job.value.requestID !in e.evictedRequestIDs)
    && (e.request.Some? ==> Holders(a, KeyOf(e.request.value)) == {})
    && (e.kind == AttemptFinished && e.attempt.Some? ==>
          var x := e.attempt.value;
          && e.evictedJobIDs == [] && e.evictedRequestIDs == []
          && x.jobID in a.jobs && a.jobs[x.jobID].requestID == x.requestID)
  }

  lemma RemoveJobAll(a: Abs, id: string)
    requires Keyed(a) && AttemptsLinked(a)
    ensures All(RemoveJob(a, id).attempts) == set x | x in All(a.attempts) && x.jobID != id
  {
    if id in a.jobs {
      var r := a.jobs[id].requestID;
      var l := AttemptsOf(a, r);
      WithoutFilters(l, id);
      var b := RemoveJob(a, id);
      forall x | x in All(a.attempts) && x.jobID != id ensures x in All(b.attempts) {
        assert x in a.attempts[x.requestID];
        InAll(b.attempts, x.requestID, x);
      }
      forall x | x in All(b.attempts) ensures x in All(a.attempts) && x.jobID != id {
        var q :| q in b.attempts && x in b.attempts[q];
        InAll(a.attempts, q, x);
      }
    }
  }

  lemma RemoveJobLinked(c: Codec, a: Abs, id: string)
    requires Linked(c, a)
    ensures Linked(c, RemoveJob(a, id))
  {
    RemoveJobKeyed(a, id);
    RemoveJobAll(a, id);
  }

  lemma {:induction false} RemoveJobsLinked(c: Codec, a: Abs, ids: seq<string>)
    requires Linked(c, a)
    ensures Linked(c, RemoveJobs(a, ids))
    decreases |ids|
  {
    if ids == [] {
    } else {
      RemoveJobsLinked(c, a, ids[..|ids| - 1]);
      RemoveJobLinked(c, RemoveJobs(a, ids[..|ids| - 1]), ids[|ids| - 1]);
    }
  }

  lemma RemoveRequestLinked(c: Codec, a: Abs, id: string)
    requires Linked(c, a)
    ensures Linked(c, RemoveRequest(a, id))
  {
    RemoveRequestKeyed(a, id);
    var b := RemoveRequest(a, id);
    if id in a.requests {
      forall x | x in All(b.attempts) ensures x in All(a.attempts) && x.requestID != id {
        var q :| q in b.attempts && x in b.attempts[q];
        InAll(a.attempts, q, x);
      }
    }
  }

  lemma {:induction false} RemoveRequestsLinked(c: Codec, a: Abs, ids: seq<string>)
    requires Linked(c, a)
    ensures Linked(c, RemoveRequests(a, ids))
    decreases |ids|
  {
    if ids == [] {
    } else {
      RemoveRequestsLinked(c, a, ids[..|ids| - 1]);
      RemoveRequestLinked(c, RemoveRequests(a, ids[..|ids| - 1]), ids[|ids| - 1]);
    }
  }

  /** After removing a request none of its jobs is left; removing others does not bring one back. */
  lemma {:induction false} RemoveRequestsJobs(a: Abs, ids: seq<string>)
    requires Keyed(a)
    ensures forall j :: j in RemoveRequests(a, ids).jobs <==>
                          j in a.jobs && !(a.jobs[j].requestID in ids && a.jobs[j].requestID in a.requests)
    decreases |ids|
  {
    if ids == [] {
    } else {
      var init := ids[..|ids| - 1];
      RemoveRequestsJobs(a, init);
      RemoveRequestsKeyed(a, init);
      assert ids == init + [ids[|ids| - 1]];
    }
  }

  lemma EvictLinked(c: Codec, a: Abs, e: Event)
    requires Linked(c, a)
    ensures Linked(c, Evict(a, e))
    ensures forall id :: id in Evict(a, e).requests <==> id in a.requests && id !in e.evictedRequestIDs
    ensures forall id :: id in Evict(a, e).requests ==> Evict(a, e).requests[id] == a.requests[id]
    ensures forall j :: j in Evict(a, e).jobs <==> j in a.jobs && j !in e.evictedJobIDs && a.jobs[j].requestID !in e.evictedRequestIDs
    ensures forall j :: j in Evict(a, e).jobs ==> Evict(a, e).jobs[j] == a.jobs[j]
  {
    RemoveJobsLinked(c, a, e.evictedJobIDs);
    RemoveJobsKeyed(a, e.evictedJobIDs);
    var b := RemoveJobs(a, e.evictedJobIDs);
    RemoveRequestsLinked(c, b, e.evictedRequestIDs);
    RemoveRequestsKeyed(b, e.evictedRequestIDs);
    RemoveRequestsJobs(b, e.evictedRequestIDs);
  }

  lemma AddRequestLinked(c: Codec, b: Abs, o: Option<Request>)
    requires Linked(c, b)
    requires o.Some? ==> o.value.id != "" && o.value.id !in b.requests && DigestValid(c, o.value) && Holders(b, KeyOf(o.value)) == {}
    ensures Linked(c, AddRequest(b, o))
  {
    if o.Some? {
      forall id | id in b.requests ensures KeyOf(b.requests[id]) != KeyOf(o.value) {
        assert id !in Holders(b, KeyOf(o.value));
      }
    }
  }

  lemma AddJobLinked(c: Codec, b: Abs, o: Option<Job>)
    requires Linked(c, b)
    requires o.Some? ==> o.value.id != "" && o.value.requestID in b.requests && KnownState(o.value.state)
    requires o.Some? && o.value.id in b.jobs ==> b.jobs[o.value.id].requestID == o.value.requestID
    ensures Linked(c, AddJob(b, o))
  {
  }

  lemma AddAttemptLinked(c: Codec, b: Abs, o: Option<Attempt>)
    requires Linked(c, b)
    requires o.Some? ==> AttemptValid(o.value) && o.value.id !in AttemptIDs(b)
    requires o.Some? ==> o.value.jobID in b.jobs && b.jobs[o.value.jobID].requestID == o.value.requestID
    ensures Linked(c, AddAttempt(b, o))
  {
    if o.Some? {
      AppendAttemptKeyed(b.attempts, o.value);
      AppendAttemptAll(b.attempts, o.value);
    }
  }

  lemma EvictHolders(c: Codec, a: Abs, e: Event, k: Key)
    requires Linked(c, a)
    ensures Holders(Evict(a, e), k) <= Holders(a, k)
  {
    EvictLinked(c, a, e);
  }

  lemma JobThenAttempt(d: Abs, e: Event)
    ensures AddAttempt(AddJob(d, e.job), e.attempt) == AddJob(AddAttempt(d, e.attempt), e.job)
  {
  }

  lemma ApplyRequestReady(c: Codec, a: Abs, e: Event)
    requires Linked(c, a) && EventValid(c, e) && StateValid(a, e) && Disciplined(a, e) && e.request.Some?
    ensures var b := Evict(a, e);
            var r := e.request.value;
            r.id != "" && r.id !in b.requests && DigestValid(c, r) && Holders(b, KeyOf(r)) == {}
  {
    hide Linked, Evict;
    EvictLinked(c, a, e);
    EvictHolders(c, a, e, KeyOf(e.request.value));
  }

  lemma ApplyJobReady(c: Codec, a: Abs, e: Event)
    requires Linked(c, a) && EventValid(c, e) && StateValid(a, e) && Disciplined(a, e) && e.job.Some?
    ensures var d := AddRequest(Evict(a, e), e.request);
            var j := e.job.value;
            && j.id != "" && KnownState(j.state) && j.requestID in d.requests
            && (j.id in d.jobs ==> d.jobs[j.id].requestID == j.requestID)
  {
    EvictLinked(c, a, e);
  }

  lemma ApplyAttemptReady(c: Codec, a: Abs, e: Event)
    requires Linked(c, a) && EventValid(c, e) && StateValid(a, e) && Disciplined(a, e) && e.attempt.Some?
    ensures var f := AddJob(AddRequest(Evict(a, e), e.request), e.job);
            var x := e.attempt.value;
            && AttemptValid(x) && x.id !in AttemptIDs(f)
            && x.jobID in f.jobs && f.jobs[x.jobID].requestID == x.requestID
  {
    EvictLinked(c, a, e);
    EvictKeyed(a, e);
  }

  /** The invariant is inductive: every disciplined event that passes the store's checks keeps it. */
  lemma ApplyLinked(c: Codec, a: Abs, e: Event)
    requires Linked(c, a) && EventValid(c, e) && StateValid(a, e) && Disciplined(a, e)
    ensures Linked(c, Apply(a, e))
  {
    hide Linked, EventValid, StateValid, Disciplined, Evict, AddRequest, AddJob, AddAttempt, AttemptIDs, DigestValid, AttemptValid;
    var b := Evict(a, e);
    EvictLinked(c, a, e);
    var d := AddRequest(b, e.request);
    if e.request.Some? {
      ApplyRequestReady(c, a, e);
    }
    AddRequestLinked(c, b, e.request);
    var f := AddJob(d, e.job);
    if e.job.Some? {
      ApplyJobReady(c, a, e);
    }
    AddJobLinked(c, d, e.job);
    if e.attempt.Some? {
      ApplyAttemptReady(c, a, e);
    }
    AddAttemptLinked(c, f, e.attempt);
    JobThenAttempt(d, e);
  }
}
