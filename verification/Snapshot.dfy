/** Compaction: the records of a snapshot, and what replaying them gives. */
module Snapshot {
  import opened Wrappers
  import opened Model
  import opened Spec
  import opened Linkage
  import opened Recovery

  function OrFirst(t: Time): Time {
    if t == ZERO then FIRST_TICK else t
  }

  function RequestRecord(r: Request): Event {
    Event(0, RequestReceived, OrFirst(r.receivedAt), false, Some(r), None, None, [], [])
  }

  function JobRecord(j: Job): Event {
    Event(0, Forward(j.state), OrFirst(if j.updatedAt == ZERO then j.createdAt else j.updatedAt), false, None, None, Some(j), [], [])
  }

  function AttemptRecord(x: Attempt): Event {
    Event(0, AttemptFinished, OrFirst(x.finishedAt), false, None, Some(x), None, [], [])
  }

  /** What is written for a request, a job and an attempt: the record itself, with the time of its last change, or the first tick if
      there is none. */
  lemma RecordLaws(r: Request, j: Job, x: Attempt)
    ensures RequestRecord(r) == Event(0, RequestReceived, if r.receivedAt == 0 then 1 else r.receivedAt, false, Some(r), None, None, [], [])
    ensures JobRecord(j) == Event(0, Forward(j.state), if j.updatedAt != 0 then j.updatedAt else if j.createdAt != 0 then j.createdAt else 1,
                                  false, None, None, Some(j), [], [])
    ensures AttemptRecord(x) == Event(0, AttemptFinished, if x.finishedAt == 0 then 1 else x.finishedAt, false, None, Some(x), None, [], [])
  {
  }

  /** `s` lists the elements of `ids`, each once. */
  ghost predicate Lists(s: seq<string>, ids: set<string>) {
    && (forall x :: x in s <==> x in ids)
    && (forall i, j :: 0 <= i < j < |s| ==> s[i] != s[j])
  }

  function JobRecords(a: Abs, js: seq<string>): seq<Event>
    requires forall j :: j in js ==> j in a.jobs
  {
    seq(|js|, i requires 0 <= i < |js| => JobRecord(a.jobs[js[i]]))
  }

  function AttemptRecords(l: seq<Attempt>): seq<Event> {
    seq(|l|, i requires 0 <= i < |l| => AttemptRecord(l[i]))
  }

  /** One request, then its jobs, then its attempts. */
  function Block(a: Abs, id: string, js: seq<string>): seq<Event>
    requires id in a.requests && forall j :: j in js ==> j in a.jobs
  {
    [RequestRecord(a.requests[id])] + JobRecords(a, js) + AttemptRecords(AttemptsOf(a, id))
  }

  /** The order of a snapshot: every retained request once, and for each of them every job once. */
  ghost predicate Ordering(a: Abs, order: seq<string>, jobOrder: map<string, seq<string>>) {
    && Lists(order, a.requests.Keys)
    && (forall id :: id in a.requests ==> id in jobOrder && Lists(jobOrder[id], JobsOf(a, id)))
  }

  predicate Orderable(a: Abs, order: seq<string>, jobOrder: map<string, seq<string>>) {
    && (forall id :: id in order ==> id in a.requests && id in jobOrder)
    && (forall id, j :: id in order && id in jobOrder && j in jobOrder[id] ==> j in a.jobs)
  }

  function Records(a: Abs, order: seq<string>, jobOrder: map<string, seq<string>>): seq<Event>
    requires Orderable(a, order, jobOrder)
  {
    if order == [] then []
    else
      var id := order[|order| - 1];
      Records(a, order[..|order| - 1], jobOrder) + Block(a, id, jobOrder[id])
  }

  /** The numbers and the snapshot mark that compaction gives its records. */
  function Stamp(es: seq<Event>, start: uint64): (stamped: seq<Event>)
    requires start + |es| - 1 <= MAX_SEQ
    ensures |stamped| == |es|
  {
    seq(|es|, i requires 0 <= i < |es| => es[i].(seqNo := start + i, snapshot := true))
  }

  /** What compaction writes after the event numbered `seqNo`: its records take the numbers that follow. */
  function Compacted(a: Abs, order: seq<string>, jobOrder: map<string, seq<string>>, seqNo: uint64): seq<Event>
    requires Orderable(a, order, jobOrder) && seqNo + |Records(a, order, jobOrder)| <= MAX_SEQ
  {
    var records := Records(a, order, jobOrder);
    if records == [] then [] else Stamp(records, seqNo + 1)
  }

  /* ---- partially replayed states ---- */

  ghost function Restrict(a: Abs, done: set<string>): Abs {
    Abs(map r | r in a.requests && r in done :: a.requests[r],
        map j | j in a.jobs && a.jobs[j].requestID in done :: a.jobs[j],
        map r | r in a.attempts && r in done :: a.attempts[r])
  }

  ghost function Upto(m: map<string, seq<Attempt>>, done: set<string>, id: string, k: nat): map<string, seq<Attempt>>
    requires id in m ==> k <= |m[id]|
  {
    map r | r in m && (r in done || (r == id && k > 0)) :: if r in done then m[r] else m[r][..k]
  }

  ghost function Partial(a: Abs, done: set<string>, id: string, js: set<string>, k: nat): Abs
    requires k <= |AttemptsOf(a, id)|
  {
    Abs(map r | r in a.requests && (r in done || r == id) :: a.requests[r],
        map j | j in a.jobs && (a.jobs[j].requestID in done || j in js) :: a.jobs[j],
        Upto(a.attempts, done, id, k))
  }

  /** A snapshot record that passes the checks is taken over as it is. */
  lemma StepPlain(c: Codec, p: Abs, s: uint64, e: Event, q: Abs)
    requires e.snapshot && e.evictedJobIDs == [] && e.evictedRequestIDs == []
    requires e.seqNo != 0 && (s == 0 || e.seqNo == s + 1)
    requires EventValid(c, e) && StateValid(p, e)
    requires AddJob(AddAttempt(AddRequest(p, e.request), e.attempt), e.job) == q
    ensures Step(c, Recovered(p, s, 0, false), e) == Ok(Recovered(q, e.seqNo, 0, false))
  {
  }

  lemma PartialStart(a: Abs, done: set<string>, id: string)
    requires id in a.requests && id !in done && a.requests[id].id == id
    ensures AddRequest(Restrict(a, done), Some(a.requests[id])) == Partial(a, done, id, {}, 0)
  {
    var p := Restrict(a, done);
    var q := Partial(a, done, id, {}, 0);
    assert p.requests[id := a.requests[id]] == q.requests;
    assert p.jobs == q.jobs;
    assert p.attempts == q.attempts;
  }

  lemma RequestAdmitted(c: Codec, a: Abs, done: set<string>, id: string, e: Event)
    requires Linked(c, a) && id in a.requests && id !in done
    requires e == RequestRecord(a.requests[id]).(seqNo := e.seqNo, snapshot := true)
    ensures EventValid(c, e) && StateValid(Restrict(a, done), e)
  {
  }

  lemma StepRequest(c: Codec, a: Abs, done: set<string>, id: string, s: uint64, e: Event)
    requires Linked(c, a) && id in a.requests && id !in done
    requires e == RequestRecord(a.requests[id]).(seqNo := e.seqNo, snapshot := true)
    requires e.seqNo != 0 && (s == 0 || e.seqNo == s + 1)
    ensures Step(c, Recovered(Restrict(a, done), s, 0, false), e) == Ok(Recovered(Partial(a, done, id, {}, 0), e.seqNo, 0, false))
  {
    PartialStart(a, done, id);
    RequestAdmitted(c, a, done, id, e);
    StepPlain(c, Restrict(a, done), s, e, Partial(a, done, id, {}, 0));
  }

  lemma PartialJob(a: Abs, done: set<string>, id: string, js: set<string>, j: string)
    requires j in a.jobs && a.jobs[j].id == j
    ensures AddJob(Partial(a, done, id, js, 0), Some(a.jobs[j])) == Partial(a, done, id, js + {j}, 0)
  {
    var p := Partial(a, done, id, js, 0);
    var q := Partial(a, done, id, js + {j}, 0);
    assert p.jobs[j := a.jobs[j]] == q.jobs;
    assert p.requests == q.requests;
    assert p.attempts == q.attempts;
  }

  lemma JobAdmitted(c: Codec, a: Abs, done: set<string>, id: string, js: set<string>, j: string, e: Event)
    requires Linked(c, a) && id in a.requests && j in JobsOf(a, id)
    requires e == JobRecord(a.jobs[j]).(seqNo := e.seqNo, snapshot := true)
    ensures EventValid(c, e) && StateValid(Partial(a, done, id, js, 0), e)
  {
    assert id in Partial(a, done, id, js, 0).requests;
  }

  lemma StepJob(c: Codec, a: Abs, done: set<string>, id: string, js: set<string>, j: string, s: uint64, e: Event)
    requires Linked(c, a) && id in a.requests && id !in done && j in JobsOf(a, id)
    requires e == JobRecord(a.jobs[j]).(seqNo := e.seqNo, snapshot := true)
    requires s != 0 && e.seqNo == s + 1
    ensures Step(c, Recovered(Partial(a, done, id, js, 0), s, 0, false), e) == Ok(Recovered(Partial(a, done, id, js + {j}, 0), e.seqNo, 0, false))
  {
    PartialJob(a, done, id, js, j);
    JobAdmitted(c, a, done, id, js, j, e);
    StepPlain(c, Partial(a, done, id, js, 0), s, e, Partial(a, done, id, js + {j}, 0));
  }

  lemma FreshAttempt(c: Codec, a: Abs, done: set<string>, id: string, js: set<string>, k: nat)
    requires Linked(c, a) && id !in done && k < |AttemptsOf(a, id)|
    ensures AttemptsOf(a, id)[k].id !in AttemptIDs(Partial(a, done, id, js, k))
  {
    var p := Partial(a, done, id, js, k);
    var x := AttemptsOf(a, id)[k];
    InAll(a.attempts, id, x);
    forall y | y in All(p.attempts) ensures y.id != x.id {
      var r :| r in p.attempts && y in p.attempts[r];
      InAll(a.attempts, r, y);
      if r == id {
        var i :| 0 <= i < k && a.attempts[id][i] == y;
        assert a.attempts[id][i].id != a.attempts[id][k].id;
      } else {
        assert y.requestID != x.requestID;
      }
    }
  }

  lemma PartialAttempts(m: map<string, seq<Attempt>>, done: set<string>, id: string, k: nat)
    requires id in m && id !in done && k < |m[id]|
    ensures Upto(m, done, id, k + 1) == Upto(m, done, id, k)[id := m[id][..k + 1]]
    ensures k > 0 ==> id in Upto(m, done, id, k) && Upto(m, done, id, k)[id] == m[id][..k]
    ensures k == 0 ==> id !in Upto(m, done, id, k)
  {
  }

  lemma PartialAttempt(c: Codec, a: Abs, done: set<string>, id: string, k: nat)
    requires Linked(c, a) && id !in done && k < |AttemptsOf(a, id)|
    ensures AddAttempt(Partial(a, done, id, JobsOf(a, id), k), Some(AttemptsOf(a, id)[k])) == Partial(a, done, id, JobsOf(a, id), k + 1)
  {
    var l := AttemptsOf(a, id);
    assert l[k].requestID == id;
    hide Linked;
    assert l[..k] + [l[k]] == l[..k + 1];
    PartialAttempts(a.attempts, done, id, k);
  }

  lemma AttemptAdmitted(c: Codec, a: Abs, done: set<string>, id: string, k: nat, e: Event)
    requires Linked(c, a) && id in a.requests && id !in done && k < |AttemptsOf(a, id)|
    requires e == AttemptRecord(AttemptsOf(a, id)[k]).(seqNo := e.seqNo, snapshot := true)
    ensures EventValid(c, e) && StateValid(Partial(a, done, id, JobsOf(a, id), k), e)
  {
    FreshAttempt(c, a, done, id, JobsOf(a, id), k);
    InAll(a.attempts, id, AttemptsOf(a, id)[k]);
  }

  lemma StepAttempt(c: Codec, a: Abs, done: set<string>, id: string, k: nat, s: uint64, e: Event)
    requires Linked(c, a) && id in a.requests && id !in done && k < |AttemptsOf(a, id)|
    requires e == AttemptRecord(AttemptsOf(a, id)[k]).(seqNo := e.seqNo, snapshot := true)
    requires s != 0 && e.seqNo == s + 1
    ensures Step(c, Recovered(Partial(a, done, id, JobsOf(a, id), k), s, 0, false), e)
         == Ok(Recovered(Partial(a, done, id, JobsOf(a, id), k + 1), e.seqNo, 0, false))
  {
    hide Linked, Partial, StateValid;
    AttemptAdmitted(c, a, done, id, k, e);
    PartialAttempt(c, a, done, id, k);
    StepPlain(c, Partial(a, done, id, JobsOf(a, id), k), s, e, Partial(a, done, id, JobsOf(a, id), k + 1));
  }

  /* ---- folding the steps over a block and over the whole snapshot ---- */

  ghost predicate At(c: Codec, es: seq<Event>, n: nat, p: Abs)
    requires n <= |es|
  {
    Replay(c, es[..n]) == Ok(Recovered(p, LastSeq(es[..n]), 0, false))
  }

  lemma Advance(c: Codec, es: seq<Event>, n: nat, p: Abs, q: Abs)
    requires n < |es| && At(c, es, n, p)
    requires Step(c, Recovered(p, LastSeq(es[..n]), 0, false), es[n]) == Ok(Recovered(q, es[n].seqNo, 0, false))
    ensures At(c, es, n + 1, q)
  {
    assert es[..n + 1] == es[..n] + [es[n]];
    ReplaySnoc(c, es[..n], es[n]);
  }

  lemma StampAt(recs: seq<Event>, start: uint64, n: nat)
    requires 0 < start && start + |recs| - 1 <= MAX_SEQ && n < |recs|
    ensures var es := Stamp(recs, start);
            && es[n] == recs[n].(seqNo := start + n, snapshot := true)
            && LastSeq(es[..n]) == if n == 0 then 0 else start + n - 1
  {
    var es := Stamp(recs, start);
    assert n > 0 ==> es[..n][n - 1] == es[n - 1];
  }

  lemma ElemsTake(s: seq<string>, k: nat)
    requires k < |s|
    ensures Elems(s[..k + 1]) == Elems(s[..k]) + {s[k]}
  {
    assert s[..k + 1] == s[..k] + [s[k]];
  }

  lemma {:induction false} ReplayJobs(c: Codec, a: Abs, done: set<string>, id: string, js: seq<string>, k: nat, recs: seq<Event>,
                                      start: uint64, n: nat)
    requires Linked(c, a) && id in a.requests && id !in done && Lists(js, JobsOf(a, id)) && k <= |js|
    requires 0 < start && start + |recs| - 1 <= MAX_SEQ && 0 < n && n + |js| <= |recs|
    requires forall i :: 0 <= i < |js| ==> js[i] in a.jobs && recs[n + i] == JobRecord(a.jobs[js[i]])
    requires At(c, Stamp(recs, start), n, Partial(a, done, id, {}, 0))
    ensures At(c, Stamp(recs, start), n + k, Partial(a, done, id, Elems(js[..k]), 0))
    decreases k
  {
    hide Linked, Partial, Step, Stamp, At;
    var es := Stamp(recs, start);
    if k == 0 {
      assert Elems(js[..0]) == {};
    } else {
      ReplayJobs(c, a, done, id, js, k - 1, recs, start, n);
      var m := n + k - 1;
      var j := js[k - 1];
      ElemsTake(js, k - 1);
      StampAt(recs, start, m);
      assert j in JobsOf(a, id);
      StepJob(c, a, done, id, Elems(js[..k - 1]), j, LastSeq(es[..m]), es[m]);
      Advance(c, es, m, Partial(a, done, id, Elems(js[..k - 1]), 0), Partial(a, done, id, Elems(js[..k]), 0));
    }
  }

  lemma {:induction false} ReplayAttempts(c: Codec, a: Abs, done: set<string>, id: string, k: nat, recs: seq<Event>, start: uint64, n: nat)
    requires Linked(c, a) && id in a.requests && id !in done && k <= |AttemptsOf(a, id)|
    requires 0 < start && start + |recs| - 1 <= MAX_SEQ && 0 < n && n + |AttemptsOf(a, id)| <= |recs|
    requires forall i :: 0 <= i < |AttemptsOf(a, id)| ==> recs[n + i] == AttemptRecord(AttemptsOf(a, id)[i])
    requires At(c, Stamp(recs, start), n, Partial(a, done, id, JobsOf(a, id), 0))
    ensures At(c, Stamp(recs, start), n + k, Partial(a, done, id, JobsOf(a, id), k))
    decreases k
  {
    hide Linked, Partial, Step, Stamp, At;
    if k == 0 {
    } else {
      var es := Stamp(recs, start);
      ReplayAttempts(c, a, done, id, k - 1, recs, start, n);
      var m := n + k - 1;
      StampAt(recs, start, m);
      StepAttempt(c, a, done, id, k - 1, LastSeq(es[..m]), es[m]);
      Advance(c, es, m, Partial(a, done, id, JobsOf(a, id), k - 1), Partial(a, done, id, JobsOf(a, id), k));
    }
  }

  lemma PartialEndJobs(a: Abs, done: set<string>, id: string)
    ensures Partial(a, done, id, JobsOf(a, id), |AttemptsOf(a, id)|).jobs == Restrict(a, done + {id}).jobs
  {
    hide Upto;
  }

  lemma PartialEndRequests(a: Abs, done: set<string>, id: string)
    ensures Partial(a, done, id, JobsOf(a, id), |AttemptsOf(a, id)|).requests == Restrict(a, done + {id}).requests
  {
    hide Upto, JobsOf;
  }

  lemma UptoEnd(m: map<string, seq<Attempt>>, done: set<string>, id: string)
    requires id !in done && (id in m ==> m[id] != [])
    ensures Upto(m, done, id, if id in m then |m[id]| else 0) == map r | r in m && r in done + {id} :: m[r]
  {
    assert id in m ==> m[id][..|m[id]|] == m[id];
  }

  lemma PartialEnd(c: Codec, a: Abs, done: set<string>, id: string)
    requires Linked(c, a) && id !in done
    ensures Partial(a, done, id, JobsOf(a, id), |AttemptsOf(a, id)|) == Restrict(a, done + {id})
  {
    assert id in a.attempts ==> a.attempts[id] != [];
    hide Linked, Upto, JobsOf;
    UptoEnd(a.attempts, done, id);
    PartialEndJobs(a, done, id);
    PartialEndRequests(a, done, id);
  }

  /** Where the parts of a block stand in the record list. */
  lemma BlockParts(a: Abs, id: string, js: seq<string>, recs: seq<Event>, n: nat)
    requires id in a.requests && forall j :: j in js ==> j in a.jobs
    requires n + |Block(a, id, js)| <= |recs| && recs[n..n + |Block(a, id, js)|] == Block(a, id, js)
    ensures |Block(a, id, js)| == 1 + |js| + |AttemptsOf(a, id)|
    ensures recs[n] == RequestRecord(a.requests[id])
    ensures forall i :: 0 <= i < |js| ==> recs[n + 1 + i] == JobRecord(a.jobs[js[i]])
    ensures forall i :: 0 <= i < |AttemptsOf(a, id)| ==> recs[n + 1 + |js| + i] == AttemptRecord(AttemptsOf(a, id)[i])
  {
    var b := Block(a, id, js);
    forall i | 0 <= i < |b| ensures recs[n + i] == b[i] {
      assert recs[n..n + |b|][i] == b[i];
    }
    assert recs[n + 0] == b[0];
    forall i | 0 <= i < |js| ensures recs[n + 1 + i] == JobRecord(a.jobs[js[i]]) {
      assert recs[n + (1 + i)] == b[1 + i];
      assert b[1 + i] == JobRecords(a, js)[i];
    }
    forall i | 0 <= i < |AttemptsOf(a, id)| ensures recs[n + 1 + |js| + i] == AttemptRecord(AttemptsOf(a, id)[i]) {
      assert recs[n + (1 + |js| + i)] == b[1 + |js| + i];
      assert b[1 + |js| + i] == AttemptRecords(AttemptsOf(a, id))[i];
    }
  }

  lemma ReplayBlock(c: Codec, a: Abs, done: set<string>, id: string, js: seq<string>, recs: seq<Event>, start: uint64, n: nat)
    requires Linked(c, a) && id in a.requests && id !in done && Lists(js, JobsOf(a, id))
    requires 0 < start && start + |recs| - 1 <= MAX_SEQ
    requires n + |Block(a, id, js)| <= |recs| && recs[n..n + |Block(a, id, js)|] == Block(a, id, js)
    requires At(c, Stamp(recs, start), n, Restrict(a, done))
    ensures At(c, Stamp(recs, start), n + |Block(a, id, js)|, Restrict(a, done + {id}))
  {
    hide Linked, Partial, Restrict, Step, LastSeq, Stamp, At;
    var es := Stamp(recs, start);
    BlockParts(a, id, js, recs, n);
    StampAt(recs, start, n);
    StepRequest(c, a, done, id, LastSeq(es[..n]), es[n]);
    Advance(c, es, n, Restrict(a, done), Partial(a, done, id, {}, 0));
    ReplayJobs(c, a, done, id, js, |js|, recs, start, n + 1);
    assert js[..|js|] == js;
    assert Elems(js) == JobsOf(a, id);
    ReplayAttempts(c, a, done, id, |AttemptsOf(a, id)|, recs, start, n + 1 + |js|);
    PartialEnd(c, a, done, id);
  }

  lemma {:induction false} RecordsPrefix(a: Abs, order: seq<string>, jobOrder: map<string, seq<string>>, m: nat)
    requires Orderable(a, order, jobOrder) && m <= |order|
    ensures Records(a, order[..m], jobOrder) <= Records(a, order, jobOrder)
    decreases |order| - m
  {
    if m == |order| {
      assert order[..m] == order;
    } else {
      RecordsPrefix(a, order, jobOrder, m + 1);
      assert order[..m + 1][..m] == order[..m];
    }
  }

  lemma RecordsTake(a: Abs, order: seq<string>, jobOrder: map<string, seq<string>>, m: nat)
    requires Orderable(a, order, jobOrder) && m < |order|
    ensures var recs := Records(a, order, jobOrder);
            var n := |Records(a, order[..m], jobOrder)|;
            var b := Block(a, order[m], jobOrder[order[m]]);
            && n + |b| == |Records(a, order[..m + 1], jobOrder)| <= |recs|
            && recs[n..n + |b|] == b
  {
    hide Block;
    RecordsPrefix(a, order, jobOrder, m + 1);
    assert order[..m + 1][..m] == order[..m];
  }

  lemma ReplayNext(c: Codec, a: Abs, order: seq<string>, jobOrder: map<string, seq<string>>, m: nat, start: uint64)
    requires Linked(c, a) && Ordering(a, order, jobOrder) && Orderable(a, order, jobOrder) && m < |order|
    requires 0 < start && start + |Records(a, order, jobOrder)| - 1 <= MAX_SEQ
    requires |Records(a, order[..m], jobOrder)| <= |Records(a, order, jobOrder)|
    requires At(c, Stamp(Records(a, order, jobOrder), start), |Records(a, order[..m], jobOrder)|, Restrict(a, Elems(order[..m])))
    ensures |Records(a, order[..m + 1], jobOrder)| <= |Records(a, order, jobOrder)|
    ensures At(c, Stamp(Records(a, order, jobOrder), start), |Records(a, order[..m + 1], jobOrder)|, Restrict(a, Elems(order[..m + 1])))
  {
    hide Linked, Restrict, Step, Stamp, Block, At, Records;
    RecordsTake(a, order, jobOrder, m);
    ElemsTake(order, m);
    assert order[m] !in Elems(order[..m]);
    ReplayBlock(c, a, Elems(order[..m]), order[m], jobOrder[order[m]], Records(a, order, jobOrder), start, |Records(a, order[..m], jobOrder)|);
  }

  lemma {:induction false} ReplayOrder(c: Codec, a: Abs, order: seq<string>, jobOrder: map<string, seq<string>>, m: nat, start: uint64)
    requires Linked(c, a) && Ordering(a, order, jobOrder) && Orderable(a, order, jobOrder) && m <= |order|
    requires 0 < start && start + |Records(a, order, jobOrder)| - 1 <= MAX_SEQ
    ensures |Records(a, order[..m], jobOrder)| <= |Records(a, order, jobOrder)|
    ensures At(c, Stamp(Records(a, order, jobOrder), start), |Records(a, order[..m], jobOrder)|, Restrict(a, Elems(order[..m])))
    decreases m
  {
    if m == 0 {
      hide Linked, Ordering;
      assert Restrict(a, Elems(order[..0])) == EMPTY;
    } else {
      hide Linked, Restrict, Stamp, At, Records;
      ReplayOrder(c, a, order, jobOrder, m - 1, start);
      ReplayNext(c, a, order, jobOrder, m - 1, start);
    }
  }

  lemma RestrictAll(c: Codec, a: Abs, ids: set<string>)
    requires Linked(c, a) && ids == a.requests.Keys
    ensures Restrict(a, ids) == a
  {
    var r := Restrict(a, ids);
    assert r.requests == a.requests;
    assert r.jobs == a.jobs;
    forall q | q in a.attempts ensures q in a.requests {
      InAll(a.attempts, q, a.attempts[q][0]);
    }
    assert r.attempts == a.attempts;
  }

  /** Compaction preserves meaning: whatever order the snapshot is written in, replaying it passes every
      recovery check and rebuilds the same requests, jobs and attempt sequences, counting no mutation. */
  lemma SnapshotReplays(c: Codec, a: Abs, order: seq<string>, jobOrder: map<string, seq<string>>, start: uint64)
    requires Linked(c, a) && Ordering(a, order, jobOrder)
    requires 0 < start && start + |Records(a, order, jobOrder)| - 1 <= MAX_SEQ
    ensures var es := Stamp(Records(a, order, jobOrder), start);
            Replay(c, es) == Ok(Recovered(a, LastSeq(es), 0, false))
  {
    var es := Stamp(Records(a, order, jobOrder), start);
    ReplayOrder(c, a, order, jobOrder, |order|, start);
    assert order[..|order|] == order;
    assert es[..|es|] == es;
    RestrictAll(c, a, Elems(order));
  }

  /** The rewritten file opens exactly when no snapshot record has outgrown the record limit, which
      compaction does not check again. */
  lemma SnapshotOpens(c: Codec, a: Abs, order: seq<string>, jobOrder: map<string, seq<string>>, start: uint64)
    requires c.Valid() && Linked(c, a) && Ordering(a, order, jobOrder)
    requires 0 < start && start + |Records(a, order, jobOrder)| - 1 <= MAX_SEQ
    ensures var es := Stamp(Records(a, order, jobOrder), start);
            && (Recover(c, Print(c, es)).Ok? <==> AllFit(c, es))
            && (AllFit(c, es) ==> Recover(c, Print(c, es)) == Ok(Recovered(a, LastSeq(es), 0, false)))
  {
    var es := Stamp(Records(a, order, jobOrder), start);
    SnapshotReplays(c, a, order, jobOrder, start);
    if AllFit(c, es) {
      RecoverPrinted(c, es, []);
      assert Print(c, es) + [] == Print(c, es);
    } else {
      OversizeRefused(c, es);
    }
  }

  lemma CompactedReplays(c: Codec, a: Abs, order: seq<string>, jobOrder: map<string, seq<string>>, seqNo: uint64)
    requires Linked(c, a) && Ordering(a, order, jobOrder) && Orderable(a, order, jobOrder)
    requires seqNo + |Records(a, order, jobOrder)| <= MAX_SEQ
    ensures var es := Compacted(a, order, jobOrder, seqNo);
            && Replay(c, es) == Ok(Recovered(a, LastSeq(es), 0, false))
            && (es == [] <==> a.requests == map[])
            && (es != [] ==> LastSeq(es) == seqNo + |Records(a, order, jobOrder)|)
  {
    var records := Records(a, order, jobOrder);
    if records == [] {
      assert order == [];
      assert a.requests == map[];
      SnapshotReplays(c, a, order, jobOrder, 1);
      assert Stamp(records, 1) == [];
    } else {
      assert order != [] && order[0] in a.requests;
      hide Linked, Ordering, Replay;
      SnapshotReplays(c, a, order, jobOrder, seqNo + 1);
    }
  }

  lemma {:induction false} RecordsPlain(a: Abs, order: seq<string>, jobOrder: map<string, seq<string>>)
    requires Orderable(a, order, jobOrder)
    ensures forall e :: e in Records(a, order, jobOrder) ==> e.evictedRequestIDs == [] && e.evictedJobIDs == []
    decreases |order|
  {
    if order == [] {
    } else {
      RecordsPlain(a, order[..|order| - 1], jobOrder);
    }
  }

  lemma CompactedUnambiguous(c: Codec, a: Abs, order: seq<string>, jobOrder: map<string, seq<string>>, seqNo: uint64)
    requires Linked(c, a) && Ordering(a, order, jobOrder) && Orderable(a, order, jobOrder)
    requires seqNo + |Records(a, order, jobOrder)| <= MAX_SEQ
    ensures Unambiguous(c, Compacted(a, order, jobOrder, seqNo))
  {
    assert UniqueKeys(a.requests);
    hide Linked, Records, Ordering, Replay, Unambiguous, UniqueKeys;
    CompactedReplays(c, a, order, jobOrder, seqNo);
    RecordsPlain(a, order, jobOrder);
    var es := Compacted(a, order, jobOrder, seqNo);
    forall e | e in es ensures e.evictedRequestIDs == [] && e.evictedJobIDs == [] {
      var i :| 0 <= i < |es| && es[i] == e;
      assert Records(a, order, jobOrder)[i] in Records(a, order, jobOrder);
    }
    UnambiguousPlain(c, es);
  }

  /* ---- how many records a snapshot has ---- */

  /** How many records a snapshot of the state takes. */
  ghost function Volume(a: Abs): nat {
    |a.requests| + |a.jobs| + |All(a.attempts)|
  }

  lemma {:induction false} ListsSize(s: seq<string>, ids: set<string>)
    requires Lists(s, ids)
    ensures |s| == |ids|
    decreases |s|
  {
    if s == [] {
      assert ids == {};
    } else {
      var init := s[..|s| - 1];
      var x := s[|s| - 1];
      assert s == init + [x];
      ListsSize(init, ids - {x});
    }
  }

  ghost function JobsIn(a: Abs, order: seq<string>): set<string> {
    set j | j in a.jobs && a.jobs[j].requestID in order
  }

  ghost function AttemptsIn(a: Abs, order: seq<string>): set<Attempt> {
    set r, x | r in order && r in a.attempts && x in a.attempts[r] :: x
  }

  lemma {:induction false} DistinctSize(l: seq<Attempt>)
    requires DistinctIDs(l)
    ensures |set x | x in l| == |l|
    decreases |l|
  {
    if l == [] {
      assert (set x | x in l) == {};
    } else {
      var init := l[..|l| - 1];
      var x := l[|l| - 1];
      assert l == init + [x];
      DistinctInit(init, x);
      DistinctSize(init);
      assert (set y | y in l) == (set y | y in init) + {x};
    }
  }

  lemma AttemptsSplit(a: Abs, init: seq<string>, id: string)
    ensures AttemptsIn(a, init + [id]) == AttemptsIn(a, init) + set x | x in AttemptsOf(a, id)
  {
    var more := init + [id];
    assert forall r :: r in more <==> r in init || r == id;
  }

  lemma AttemptsApart(a: Abs, init: seq<string>, id: string)
    requires AttemptsKeyed(a.attempts) && id !in init
    ensures AttemptsIn(a, init) !! set x | x in AttemptsOf(a, id)
  {
    forall x | x in AttemptsIn(a, init) ensures x.requestID != id {
    }
    forall x | x in AttemptsOf(a, id) ensures x.requestID == id {
    }
  }

  lemma AttemptsNext(a: Abs, init: seq<string>, id: string)
    requires AttemptsKeyed(a.attempts) && id !in init
    ensures |AttemptsIn(a, init + [id])| == |AttemptsIn(a, init)| + |AttemptsOf(a, id)|
  {
    assert DistinctIDs(AttemptsOf(a, id));
    hide AttemptsKeyed, AttemptsIn, AttemptsOf, DistinctIDs;
    DistinctSize(AttemptsOf(a, id));
    AttemptsSplit(a, init, id);
    AttemptsApart(a, init, id);
  }

  lemma JobsNext(a: Abs, init: seq<string>, id: string)
    requires id !in init
    ensures |JobsIn(a, init + [id])| == |JobsIn(a, init)| + |JobsOf(a, id)|
  {
    assert JobsIn(a, init + [id]) == JobsIn(a, init) + JobsOf(a, id);
    assert JobsIn(a, init) !! JobsOf(a, id);
  }

  lemma {:induction false} RecordsIn(a: Abs, order: seq<string>, jobOrder: map<string, seq<string>>)
    requires AttemptsKeyed(a.attempts) && Orderable(a, order, jobOrder)
    requires forall i, j :: 0 <= i < j < |order| ==> order[i] != order[j]
    requires forall id :: id in order ==> Lists(jobOrder[id], JobsOf(a, id))
    ensures |Records(a, order, jobOrder)| == |order| + |JobsIn(a, order)| + |AttemptsIn(a, order)|
    decreases |order|
  {
    if order == [] {
      assert JobsIn(a, order) == {} && AttemptsIn(a, order) == {};
    } else {
      var init := order[..|order| - 1];
      var id := order[|order| - 1];
      assert order == init + [id];
      hide AttemptsKeyed, Lists, JobsOf, JobsIn, AttemptsIn;
      RecordsIn(a, init, jobOrder);
      ListsSize(jobOrder[id], JobsOf(a, id));
      JobsNext(a, init, id);
      AttemptsNext(a, init, id);
    }
  }

  lemma AllListed(c: Codec, a: Abs, order: seq<string>)
    requires Linked(c, a) && Lists(order, a.requests.Keys)
    ensures AttemptsIn(a, order) == All(a.attempts)
  {
    forall x | x in All(a.attempts) ensures x in AttemptsIn(a, order) {
      var r :| r in a.attempts && x in a.attempts[r];
      assert x.requestID == r && r in a.requests;
    }
  }

  /** However a snapshot is ordered, it has one record for each request, job and attempt. */
  lemma RecordsCount(c: Codec, a: Abs, order: seq<string>, jobOrder: map<string, seq<string>>)
    requires Linked(c, a) && Ordering(a, order, jobOrder) && Orderable(a, order, jobOrder)
    ensures |Records(a, order, jobOrder)| == Volume(a)
  {
    RecordsIn(a, order, jobOrder);
    ListsSize(order, a.requests.Keys);
    assert JobsIn(a, order) == a.jobs.Keys;
    AllListed(c, a, order);
    hide Records;
  }

  /* ---- a snapshot that does not open ---- */

  ghost function Zeros(size: nat): Bytes {
    seq(size, _ => 0)
  }

  /** A codec that encodes one event as `size` zero bytes and all others as `c` does, after a one. */
  ghost function Inflated(c: Codec, target: Event, size: nat): Codec {
    Codec(
      (e: Event) => if e == target then Zeros(size) else [1] + c.encode(e),
      (l: Bytes) => if l == Zeros(size) + [NEWLINE] then Some(target) else if l != [] && l[0] == 1 then c.decode(l[1..]) else None,
      c.digest)
  }

  lemma InflatedValid(c: Codec, target: Event, size: nat)
    requires c.Valid() && size >= 1
    ensures Inflated(c, target, size).Valid()
  {
    var d := Inflated(c, target, size);
    forall e: Event ensures d.decode(d.encode(e) + [NEWLINE]) == Some(e) && NEWLINE !in d.encode(e) {
      if e != target {
        var l := d.encode(e) + [NEWLINE];
        assert l[0] == 1 && (Zeros(size) + [NEWLINE])[0] == 0;
        assert l[1..] == c.encode(e) + [NEWLINE];
        assert c.decode(c.encode(e) + [NEWLINE]) == Some(e);
      }
    }
  }

  /** The snapshot after one capture. */
  lemma OneRecord(r: Request, e: Event) returns (es: seq<Event>)
    requires e.request == Some(r) && e.job.None? && e.attempt.None? && e.evictedRequestIDs == [] && e.evictedJobIDs == []
    ensures Orderable(Apply(EMPTY, e), [r.id], map[r.id := []]) && Ordering(Apply(EMPTY, e), [r.id], map[r.id := []])
    ensures |Records(Apply(EMPTY, e), [r.id], map[r.id := []])| == 1
    ensures es == Compacted(Apply(EMPTY, e), [r.id], map[r.id := []], 1) == [RequestRecord(r).(seqNo := 2, snapshot := true)]
  {
    var a := Apply(EMPTY, e);
    assert a == Abs(map[r.id := r], map[], map[]);
    assert [r.id][..0] == [];
    assert Records(a, [], map[r.id := []]) == [];
    es := Compacted(a, [r.id], map[r.id := []], 1);
  }

  /** The record of a capture without a job, the first of a log. */
  function CaptureRecord(r: Request, at: Time): Event {
    Event(1, CaptureAccepted, at, false, Some(r), None, None, [], [])
  }

  /** The record a compaction writes for it. */
  function SnapshotRecord(r: Request): Event {
    RequestRecord(r).(seqNo := 2, snapshot := true)
  }

  /** A capture that is admitted and written may have a snapshot record over the limit: then the store compacts its log
      into a file that it cannot open again. This is so for every capture within `growth` bytes of the limit, if its snapshot
      record is longer by `growth`. In JSON the mark of a snapshot record alone takes 16 bytes. */
  lemma SnapshotOutgrows(c: Codec, r: Request, at: Time, growth: nat)
    requires c.Valid() && r.id != "" && DigestValid(c, r) && at != ZERO
    requires |c.encode(SnapshotRecord(r))| >= |c.encode(CaptureRecord(r, at))| + growth
    requires MAX_EVENT_BYTES - growth < |c.Line(CaptureRecord(r, at))| <= MAX_EVENT_BYTES
    ensures var e := CaptureRecord(r, at);
            && EventValid(c, e) && StateValid(EMPTY, e)
            && Orderable(Apply(EMPTY, e), [r.id], map[r.id := []]) && Ordering(Apply(EMPTY, e), [r.id], map[r.id := []])
            && |Records(Apply(EMPTY, e), [r.id], map[r.id := []])| == 1
            && Recover(c, Print(c, Compacted(Apply(EMPTY, e), [r.id], map[r.id := []], 1))).Err?
  {
    var es := OneRecord(r, CaptureRecord(r, at));
    assert |c.Line(es[0])| > MAX_EVENT_BYTES;
    hide Recover, Print;
    OversizeRefused(c, es);
  }

  /** There is a codec with such a capture. */
  lemma OutgrowingCodec(c: Codec, r: Request, at: Time) returns (d: Codec, growth: nat)
    requires c.Valid() && r.id != "" && DigestValid(c, r) && at != ZERO
    requires |c.Line(CaptureRecord(r, at))| < MAX_EVENT_BYTES
    ensures d.Valid() && DigestValid(d, r)
    ensures |d.encode(SnapshotRecord(r))| >= |d.encode(CaptureRecord(r, at))| + growth
    ensures MAX_EVENT_BYTES - growth < |d.Line(CaptureRecord(r, at))| <= MAX_EVENT_BYTES
  {
    d := Inflated(c, SnapshotRecord(r), MAX_EVENT_BYTES);
    InflatedValid(c, SnapshotRecord(r), MAX_EVENT_BYTES);
    growth := MAX_EVENT_BYTES - |d.encode(CaptureRecord(r, at))|;
    hide Zeros;
    assert |Zeros(MAX_EVENT_BYTES)| == MAX_EVENT_BYTES;
  }
}
