/** Record references through appends: where the records of the state stand in a growing file. */
module References {
  import opened Wrappers
  import opened Model
  import opened Log
  import opened Spec
  import opened Linkage
  import opened IndexMaps
  import opened Recovery

  /** The requests after an event that passed the checks. */
  lemma RequestsKept(a: Abs, e: Event)
    requires Keyed(a)
    ensures forall r :: r in Apply(a, e).requests ==>
                          if e.request.Some? && e.request.value.id == r then Apply(a, e).requests[r] == e.request.value
                          else r in a.requests && Apply(a, e).requests[r] == a.requests[r]
  {
    RemoveJobsKeyed(a, e.evictedJobIDs);
    RemoveRequestsKeyed(RemoveJobs(a, e.evictedJobIDs), e.evictedRequestIDs);
  }

  lemma Subset(m: map<string, seq<Attempt>>, n: map<string, seq<Attempt>>)
    requires forall r :: r in m ==> r in n && forall x :: x in m[r] ==> x in n[r]
    ensures All(m) <= All(n)
  {
    forall x | x in All(m) ensures x in All(n) {
      var r :| r in m && x in m[r];
      InAll(n, r, x);
    }
  }

  lemma {:induction false} RemoveJobsAll(a: Abs, ids: seq<string>)
    requires Keyed(a)
    ensures All(RemoveJobs(a, ids).attempts) <= All(a.attempts)
    decreases |ids|
  {
    if ids == [] {
    } else {
      var b := RemoveJobs(a, ids[..|ids| - 1]);
      RemoveJobsAll(a, ids[..|ids| - 1]);
      RemoveJobsKeyed(a, ids[..|ids| - 1]);
      RemoveJobKeyed(b, ids[|ids| - 1]);
      Subset(RemoveJob(b, ids[|ids| - 1]).attempts, b.attempts);
    }
  }

  lemma {:induction false} RemoveRequestsAll(a: Abs, ids: seq<string>)
    ensures All(RemoveRequests(a, ids).attempts) <= All(a.attempts)
    decreases |ids|
  {
    if ids == [] {
    } else {
      RemoveRequestsAll(a, ids[..|ids| - 1]);
      Subset(RemoveRequests(a, ids).attempts, RemoveRequests(a, ids[..|ids| - 1]).attempts);
    }
  }

  lemma EvictAll(a: Abs, e: Event)
    requires Keyed(a)
    ensures All(Evict(a, e).attempts) <= All(a.attempts)
  {
    RemoveJobsAll(a, e.evictedJobIDs);
    RemoveJobsKeyed(a, e.evictedJobIDs);
    RemoveRequestsAll(RemoveJobs(a, e.evictedJobIDs), e.evictedRequestIDs);
  }

  /** No attempt comes from anywhere but the event. */
  lemma AllAfter(a: Abs, e: Event)
    requires Keyed(a)
    ensures All(Apply(a, e).attempts) <= All(a.attempts) + (if e.attempt.Some? then {e.attempt.value} else {})
  {
    EvictAll(a, e);
    var b := Evict(a, e);
    hide Keyed, Evict;
    if e.attempt.Some? {
      AppendAttemptAll(b.attempts, e.attempt.value);
    }
  }

  /** How a reference map changes when a record at `ref` is taken in. */
  ghost predicate RefsStep(was: map<string, RecordRef>, now: map<string, RecordRef>, own: Option<string>, ref: RecordRef) {
    forall k :: k in now ==> if own == Some(k) then now[k] == ref else k in was && now[k] == was[k]
  }

  function RequestID(e: Event): Option<string> {
    if e.request.Some? then Some(e.request.value.id) else None
  }

  function AttemptID(e: Event): Option<string> {
    if e.attempt.Some? then Some(e.attempt.value.id) else None
  }

  /** A record has just been written: the line decodes to the event and starts where the file ended. */
  ghost predicate Written(c: Codec, file: Bytes, line: Bytes, e: Event, ref: RecordRef) {
    line != [] && c.decode(line) == Some(e) && ref == RecordRef(|file|, |line|, e.seqNo)
  }

  lemma HoldsNew(c: Codec, file: Bytes, line: Bytes, e: Event, ref: RecordRef)
    requires Written(c, file, line, e, ref)
    ensures Holds(c, file + line, ref, e)
  {
    assert (file + line)[|file|..|file| + |line|] == line;
  }

  lemma RequestRefsAfter(c: Codec, a: Abs, file: Bytes, line: Bytes, e: Event, ref: RecordRef,
                         was: map<string, RecordRef>, now: map<string, RecordRef>)
    requires Keyed(a) && RequestRefs(c, file, a.requests, was) && Written(c, file, line, e, ref)
    requires now.Keys == Apply(a, e).requests.Keys && RefsStep(was, now, RequestID(e), ref)
    ensures RequestRefs(c, file + line, Apply(a, e).requests, now)
  {
    RequestsKept(a, e);
    RequestRefsLonger(c, file, line, a.requests, was);
    HoldsNew(c, file, line, e, ref);
    hide Keyed, Apply, Written, Holds;
    var f := file + line;
    var b := Apply(a, e);
    forall id | id in b.requests ensures HoldsRequest(c, f, now[id], b.requests[id]) {
      if RequestID(e) == Some(id) {
        assert b.requests[id] == e.request.value;
      } else {
        assert HoldsRequest(c, f, was[id], a.requests[id]);
      }
    }
  }

  lemma FreshID(a: Abs, e: Event)
    requires StateValid(a, e) && e.attempt.Some?
    ensures e.attempt.value.id !in AttemptIDs(a)
  {
  }

  lemma AttemptRefsAfter(c: Codec, a: Abs, file: Bytes, line: Bytes, e: Event, ref: RecordRef,
                         was: map<string, RecordRef>, now: map<string, RecordRef>)
    requires Keyed(a) && StateValid(a, e) && AttemptRefs(c, file, a.attempts, was) && Written(c, file, line, e, ref)
    requires now.Keys == AttemptIDs(Apply(a, e)) && RefsStep(was, now, AttemptID(e), ref)
    ensures AttemptRefs(c, file + line, Apply(a, e).attempts, now)
  {
    AllAfter(a, e);
    if e.attempt.Some? {
      FreshID(a, e);
    }
    AttemptRefsLonger(c, file, line, a.attempts, was);
    HoldsNew(c, file, line, e, ref);
    hide Keyed, Apply, StateValid, Written, Holds;
    var f := file + line;
    forall x | x in All(Apply(a, e).attempts) ensures x.id in now && HoldsAttempt(c, f, now[x.id], x) {
      assert x.id in IDsIn(Apply(a, e).attempts);
      if x in All(a.attempts) {
        assert HoldsAttempt(c, f, was[x.id], x);
        assert x.id in AttemptIDs(a);
      } else {
        assert Some(x) == e.attempt;
      }
    }
  }

  /** No reference is too long to be read back. */
  ghost predicate Fit(refs: map<string, RecordRef>) {
    forall k :: k in refs ==> refs[k].length <= MAX_EVENT_BYTES
  }

  lemma FitAfter(was: map<string, RecordRef>, now: map<string, RecordRef>, own: Option<string>, ref: RecordRef)
    requires Fit(was) && RefsStep(was, now, own, ref) && ref.length <= MAX_EVENT_BYTES
    ensures Fit(now)
  {
  }
}
