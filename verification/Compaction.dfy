/** The body of compaction: collecting the records, filling in their bodies, and writing the new file. */
module Compaction {
  import opened Wrappers
  import opened Model
  import opened Log
  import opened Spec
  import opened Linkage
  import opened IndexMaps
  import opened IndexTable
  import opened Recovery
  import opened Snapshot
  import opened Sorting
  import opened References

  function BareEvent(e: Event): Event {
    e.(request := if e.request.Some? then Some(Bare(e.request.value)) else None,
       attempt := if e.attempt.Some? then Some(BareAttempt(e.attempt.value)) else None)
  }

  function Bares(es: seq<Event>): seq<Event> {
    seq(|es|, i requires 0 <= i < |es| => BareEvent(es[i]))
  }

  lemma BaresConcat(es: seq<Event>, fs: seq<Event>)
    ensures Bares(es + fs) == Bares(es) + Bares(fs)
  {
  }

  /* ---- collecting the records ---- */

  lemma BareArrival(m: map<string, Request>)
    ensures BareRequests(m).Keys == m.Keys
    ensures forall id :: id in m ==> ReceivedAt(BareRequests(m), id) == m[id].receivedAt
  {
  }

  lemma ListedJobs(a: Abs, id: string, js: seq<string>)
    requires Lists(js, JobsOf(a, id))
    ensures forall j :: j in js ==> j in a.jobs
  {
  }

  lemma NextOrderable(a: Abs, order: seq<string>, i: nat, jobOrder: map<string, seq<string>>, js: seq<string>)
    requires Lists(order, a.requests.Keys) && i < |order| && Lists(js, JobsOf(a, order[i]))
    requires Orderable(a, order[..i], jobOrder)
    ensures var next := jobOrder[order[i] := js];
            && Orderable(a, order[..i], next) && Orderable(a, order[..i + 1], next)
            && (forall j :: j in js ==> j in a.jobs) && forall id :: id in order[..i] ==> id != order[i]
  {
    assert order[..i + 1] == order[..i] + [order[i]];
    forall k | 0 <= k < i ensures order[..i][k] != order[i] {
      assert order[k] != order[i];
    }
    ListedJobs(a, order[i], js);
    assert order[i] in order;
  }

  lemma {:induction false} SameRecords(a: Abs, order: seq<string>, x: map<string, seq<string>>, y: map<string, seq<string>>)
    requires Orderable(a, order, x) && Orderable(a, order, y) && forall id :: id in order ==> x[id] == y[id]
    ensures Records(a, order, x) == Records(a, order, y)
    decreases |order|
  {
    if order == [] {
    } else {
      SameRecords(a, order[..|order| - 1], x, y);
    }
  }

  lemma NextBlock(a: Abs, order: seq<string>, i: nat, jobOrder: map<string, seq<string>>, js: seq<string>)
    requires Lists(order, a.requests.Keys) && i < |order| && Lists(js, JobsOf(a, order[i]))
    requires jobOrder.Keys == Elems(order[..i]) && Orderable(a, order[..i], jobOrder)
    ensures var next := jobOrder[order[i] := js];
            && next.Keys == Elems(order[..i + 1])
            && Orderable(a, order[..i + 1], next)
            && Records(a, order[..i + 1], next) == Records(a, order[..i], jobOrder) + Block(a, order[i], js)
  {
    var next := jobOrder[order[i] := js];
    NextOrderable(a, order, i, jobOrder, js);
    hide Block, Lists, Orderable;
    assert order[..i + 1][..i] == order[..i];
    ElemsTake(order, i);
    hide Elems;
    SameRecords(a, order[..i], jobOrder, next);
  }

  lemma BlockBares(a: Abs, id: string, js: seq<string>)
    requires id in a.requests && forall j :: j in js ==> j in a.jobs
    ensures Bares(Block(a, id, js))
         == [RequestRecord(Bare(a.requests[id]))] + Bares(JobRecords(a, js)) + Bares(AttemptRecords(AttemptsOf(a, id)))
  {
  }

  method JobsPart(ghost full: map<string, Job>, jobs: map<string, Job>, js: seq<string>) returns (records: seq<Event>)
    requires jobs == full && forall j :: j in js ==> j in jobs
    ensures forall a: Abs :: a.jobs == full ==> records == Bares(JobRecords(a, js))
  {
    records := [];
    for i := 0 to |js|
      invariant |records| == i && forall k :: 0 <= k < i ==> records[k] == JobRecord(jobs[js[k]])
    {
      records := records + [JobRecord(jobs[js[i]])];
    }
  }

  method AttemptsPart(ghost full: seq<Attempt>, list: seq<Attempt>) returns (records: seq<Event>)
    requires list == BareList(full)
    ensures records == Bares(AttemptRecords(full))
  {
    records := [];
    for i := 0 to |list|
      invariant |records| == i && forall k :: 0 <= k < i ==> records[k] == AttemptRecord(list[k])
    {
      records := records + [AttemptRecord(list[i])];
    }
  }

  /** One request with its jobs and attempts. */
  method BlockOf(ix: Indexes, id: string) returns (block: seq<Event>, js: seq<string>)
    requires ix.Coherent() && id in ix.abs.requests
    ensures Lists(js, JobsOf(ix.abs, id)) && Sorted((x, y) => LexLeq(x, y), js)
    ensures forall j :: j in js ==> j in ix.abs.jobs
    ensures block == Bares(Block(ix.abs, id, js))
  {
    hide Keyed, DedupSound, ByRequest, BodySizes, SearchTexts, IDsIn, LexLeq, Sorted, JobsOf;
    ByRequestIs(ix.abs, id);
    LexPreorder();
    js := Sort(if id in ix.jobsByRequest then ix.jobsByRequest[id] else {}, (x, y) => LexLeq(x, y));
    ListedJobs(ix.abs, id, js);
    var jobs := JobsPart(ix.abs.jobs, ix.jobs, js);
    var atts := AttemptsPart(AttemptsOf(ix.abs, id), if id in ix.attempts then ix.attempts[id] else []);
    block := [RequestRecord(ix.requests[id])] + jobs + atts;
    BlockBares(ix.abs, id, js);
  }

  /** `snapshotRecordsLocked`: requests in order of arrival, each followed by its jobs in order of their
      identifiers and by its attempts in stored order, all without bodies. */
  method SnapshotRecords(ix: Indexes) returns (records: seq<Event>, order: seq<string>, jobOrder: map<string, seq<string>>)
    requires ix.Coherent()
    ensures Ordering(ix.abs, order, jobOrder) && Orderable(ix.abs, order, jobOrder)
    ensures forall i, j :: 0 <= i < j < |order| ==> ix.abs.requests[order[i]].receivedAt <= ix.abs.requests[order[j]].receivedAt
    ensures forall id :: id in jobOrder ==> Sorted((x, y) => LexLeq(x, y), jobOrder[id])
    ensures records == Bares(Records(ix.abs, order, jobOrder))
  {
    hide Keyed, DedupSound, ByRequest, JobsOf, IDsIn, BareAttempts, BareRequests, BodySizes, SearchTexts, Block;
    var m := ix.requests;
    BareArrival(ix.abs.requests);
    order := Sort(m.Keys, (x, y) => ReceivedAt(m, x) <= ReceivedAt(m, y));
    records, jobOrder := [], map[];
    for i := 0 to |order|
      invariant jobOrder.Keys == Elems(order[..i])
      invariant forall id :: id in jobOrder ==> Lists(jobOrder[id], JobsOf(ix.abs, id)) && Sorted((x, y) => LexLeq(x, y), jobOrder[id])
      invariant Orderable(ix.abs, order[..i], jobOrder) && records == Bares(Records(ix.abs, order[..i], jobOrder))
    {
      var id := order[i];
      var block, js := BlockOf(ix, id);
      NextBlock(ix.abs, order, i, jobOrder, js);
      BaresConcat(Records(ix.abs, order[..i], jobOrder), Block(ix.abs, id, js));
      jobOrder := jobOrder[id := js];
      records := records + block;
    }
    assert order[..|order|] == order;
  }

  /* ---- filling in the bodies ---- */

  /** What compaction and `Load` rely on for a record without its body: the reference holds it. */
  ghost predicate Backed(c: Codec, file: Bytes, reqs: map<string, RecordRef>, atts: map<string, RecordRef>, full: Event) {
    && (full.request.Some? ==> full.request.value.id in reqs && HoldsRequest(c, file, reqs[full.request.value.id], full.request.value)
                               && DigestValid(c, full.request.value))
    && (full.attempt.Some? ==> full.attempt.value.id in atts && HoldsAttempt(c, file, atts[full.attempt.value.id], full.attempt.value))
  }

  /** The body of a request, read from its record. */
  method ReadBody(c: Codec, file: Bytes, ref: RecordRef, id: string, ghost full: Request) returns (r: Result<Bytes, Error>)
    requires HoldsRequest(c, file, ref, full) && full.id == id && DigestValid(c, full)
    ensures r.Ok? <==> ref.length <= MAX_EVENT_BYTES
    ensures r.Ok? ==> r.value == full.body
  {
    ghost var e: Event :| Holds(c, file, ref, e) && e.request.Some? && e.request.value.(headers := full.headers) == full;
    HoldsReads(c, file, ref, e);
    var stored := ReadEventAt(c, file, ref);
    if stored.Err? {
      r := Err(stored.error);
    } else if stored.value.request.None? || stored.value.request.value.id != id {
      r := Err(BadReference);
    } else if stored.value.request.value.bodySHA256 != c.digest(stored.value.request.value.body) {
      r := Err(Corrupt);
    } else {
      r := Ok(stored.value.request.value.body);
    }
  }

  /** The response body of an attempt, read from its record. */
  method ReadResponse(c: Codec, file: Bytes, ref: RecordRef, id: string, ghost full: Attempt) returns (r: Result<Bytes, Error>)
    requires HoldsAttempt(c, file, ref, full) && full.id == id
    ensures r.Ok? <==> ref.length <= MAX_EVENT_BYTES
    ensures r.Ok? ==> r.value == full.responseBody
  {
    ghost var e: Event :| Holds(c, file, ref, e) && e.attempt.Some? && e.attempt.value.(responseHeaders := full.responseHeaders) == full;
    HoldsReads(c, file, ref, e);
    var stored := ReadEventAt(c, file, ref);
    if stored.Err? {
      r := Err(stored.error);
    } else if stored.value.attempt.None? || stored.value.attempt.value.id != id {
      r := Err(BadReference);
    } else {
      r := Ok(stored.value.attempt.value.responseBody);
    }
  }

  lemma Unfit(refs: map<string, RecordRef>, k: string)
    requires k in refs && refs[k].length > MAX_EVENT_BYTES
    ensures !Fit(refs)
  {
  }

  method LoadAttempts(c: Codec, file: Bytes, refs: map<string, RecordRef>, list: seq<Attempt>, ghost full: seq<Attempt>)
    returns (r: Result<seq<Attempt>, Error>)
    requires list == BareList(full)
    requires forall x :: x in full ==> x.id in refs && HoldsAttempt(c, file, refs[x.id], x)
    ensures r.Ok? ==> r.value == full
    ensures r.Err? ==> !Fit(refs)
  {
    hide HoldsAttempt;
    var attempts: seq<Attempt> := [];
    for i := 0 to |list|
      invariant attempts == full[..i]
    {
      assert full[i] in full;
      var response := ReadResponse(c, file, refs[list[i].id], list[i].id, full[i]);
      if response.Err? {
        return Err(response.error);
      }
      attempts := attempts + [list[i].(responseBody := response.value)];
    }
    assert full[..|full|] == full;
    r := Ok(attempts);
  }

  lemma LoadFacts(c: Codec, ix: Indexes, id: string)
    requires ix.Coherent() && Linked(c, ix.abs) && id in ix.abs.requests
    ensures id in ix.requests && ix.requests[id] == Bare(ix.abs.requests[id]) && ix.abs.requests[id].id == id
    ensures DigestValid(c, ix.abs.requests[id])
    ensures var list := if id in ix.attempts then ix.attempts[id] else [];
            list == BareList(AttemptsOf(ix.abs, id))
    ensures forall x :: x in AttemptsOf(ix.abs, id) ==> x in All(ix.abs.attempts)
  {
  }

  /** The bodies of a request and of its attempts, as `Load` reads them. */
  method LoadFull(c: Codec, file: Bytes, ix: Indexes, id: string) returns (r: Result<(Request, seq<Attempt>), Error>)
    requires ix.Coherent() && Linked(c, ix.abs) && id in ix.abs.requests
    requires RequestRefs(c, file, ix.abs.requests, ix.requestRecord) && AttemptRefs(c, file, ix.abs.attempts, ix.attemptRecord)
    ensures r.Ok? ==> r.value == (ix.abs.requests[id], AttemptsOf(ix.abs, id))
    ensures r.Err? ==> !(Fit(ix.requestRecord) && Fit(ix.attemptRecord))
  {
    LoadFacts(c, ix, id);
    hide Linked, Indexes.Coherent, HoldsRequest, HoldsAttempt, DigestValid, IDsIn, AttemptsOf, All, Fit;
    var bare := ix.requests[id];
    var body := ReadBody(c, file, ix.requestRecord[id], id, ix.abs.requests[id]);
    if body.Err? {
      Unfit(ix.requestRecord, id);
      return Err(body.error);
    }
    var attempts := LoadAttempts(c, file, ix.attemptRecord, if id in ix.attempts then ix.attempts[id] else [], AttemptsOf(ix.abs, id));
    r := if attempts.Err? then Err(attempts.error) else Ok((bare.(body := body.value), attempts.value));
  }

  /** `hydrateSnapshotEventLocked`: the record with the body it has in the old file. */
  method Hydrate(c: Codec, file: Bytes, reqs: map<string, RecordRef>, atts: map<string, RecordRef>, bare: Event, ghost full: Event)
    returns (r: Result<Event, Error>)
    requires bare == BareEvent(full) && Backed(c, file, reqs, atts, full)
    ensures r.Ok? ==> r.value == full
    ensures r.Err? ==> !(Fit(reqs) && Fit(atts))
  {
    hide HoldsRequest, HoldsAttempt, DigestValid;
    var e := bare;
    if e.request.Some? {
      var body := ReadBody(c, file, reqs[e.request.value.id], e.request.value.id, full.request.value);
      if body.Err? {
        return Err(body.error);
      }
      e := e.(request := Some(e.request.value.(body := body.value)));
    }
    if e.attempt.Some? {
      var body := ReadResponse(c, file, atts[e.attempt.value.id], e.attempt.value.id, full.attempt.value);
      if body.Err? {
        return Err(body.error);
      }
      e := e.(attempt := Some(e.attempt.value.(responseBody := body.value)));
    }
    r := Ok(e);
  }

  /* ---- writing the new file ---- */

  datatype Image = Image(content: Bytes, requestRecord: map<string, RecordRef>, attemptRecord: map<string, RecordRef>)

  /** The new file holds these records and the references point to them. */
  ghost predicate Pictures(c: Codec, es: seq<Event>, m: Image) {
    && m.content == Print(c, es) && Replay(c, es).Ok?
    && RequestRefs(c, m.content, Replay(c, es).value.abs.requests, m.requestRecord)
    && AttemptRefs(c, m.content, Replay(c, es).value.abs.attempts, m.attemptRecord)
    && (AllFit(c, es) ==> Fit(m.requestRecord) && Fit(m.attemptRecord))
  }

  function Extended(m: map<string, RecordRef>, id: Option<string>, ref: RecordRef): map<string, RecordRef> {
    if id.Some? then m[id.value := ref] else m
  }

  function Added(c: Codec, m: Image, e: Event): Image {
    var ref := RecordRef(|m.content|, |c.Line(e)|, e.seqNo);
    Image(m.content + c.Line(e), Extended(m.requestRecord, RequestID(e), ref), Extended(m.attemptRecord, AttemptID(e), ref))
  }

  lemma CompactedAt(a: Abs, order: seq<string>, jobOrder: map<string, seq<string>>, seqNo: uint64)
    requires Orderable(a, order, jobOrder) && seqNo + |Records(a, order, jobOrder)| <= MAX_SEQ
    ensures var es := Compacted(a, order, jobOrder, seqNo);
            var full := Records(a, order, jobOrder);
            |es| == |full| && forall i :: 0 <= i < |es| ==> es[i] == full[i].(seqNo := seqNo + 1 + i, snapshot := true)
  {
  }

  lemma PicturesNothing(c: Codec)
    ensures Pictures(c, [], Image([], map[], map[]))
  {
    ReplayNil(c);
  }

  lemma RequestBacked(c: Codec, file: Bytes, reqs: map<string, RecordRef>, atts: map<string, RecordRef>, a: Abs, id: string)
    requires Linked(c, a) && id in a.requests && RequestRefs(c, file, a.requests, reqs)
    ensures Backed(c, file, reqs, atts, RequestRecord(a.requests[id]))
  {
    hide HoldsRequest, HoldsAttempt, DigestValid, JobsLinked, UniqueKeys, AttemptsLinked, AttemptsKeyed;
  }

  lemma BlockBacked(c: Codec, file: Bytes, reqs: map<string, RecordRef>, atts: map<string, RecordRef>, a: Abs, id: string, js: seq<string>)
    requires Linked(c, a) && id in a.requests && forall j :: j in js ==> j in a.jobs
    requires RequestRefs(c, file, a.requests, reqs) && AttemptRefs(c, file, a.attempts, atts)
    ensures forall e :: e in Block(a, id, js) ==> Backed(c, file, reqs, atts, e)
  {
    hide HoldsRequest, HoldsAttempt, DigestValid, IDsIn, JobsLinked, UniqueKeys, DistinctIDs;
    RequestBacked(c, file, reqs, atts, a, id);
    var l := AttemptsOf(a, id);
    forall e | e in AttemptRecords(l) ensures Backed(c, file, reqs, atts, e) {
      var i :| 0 <= i < |l| && e == AttemptRecord(l[i]);
      InAll(a.attempts, id, l[i]);
    }
    forall e | e in JobRecords(a, js) ensures Backed(c, file, reqs, atts, e) {
    }
  }

  /** Each snapshot record is backed by the old file. */
  lemma {:induction false} RecordsBacked(c: Codec, file: Bytes, reqs: map<string, RecordRef>, atts: map<string, RecordRef>, a: Abs,
                                         order: seq<string>, jobOrder: map<string, seq<string>>)
    requires Linked(c, a) && Orderable(a, order, jobOrder)
    requires RequestRefs(c, file, a.requests, reqs) && AttemptRefs(c, file, a.attempts, atts)
    ensures forall e :: e in Records(a, order, jobOrder) ==> Backed(c, file, reqs, atts, e)
    decreases |order|
  {
    if order == [] {
    } else {
      RecordsBacked(c, file, reqs, atts, a, order[..|order| - 1], jobOrder);
      BlockBacked(c, file, reqs, atts, a, order[|order| - 1], jobOrder[order[|order| - 1]]);
    }
  }

  lemma AddedContent(c: Codec, m: Image, e: Event)
    ensures Added(c, m, e).content == m.content + c.Line(e)
  {
  }

  lemma {:induction false} ReplayPrefix(c: Codec, es: seq<Event>, n: nat)
    requires Replay(c, es).Ok? && n <= |es|
    ensures Replay(c, es[..n]).Ok?
    decreases |es| - n
  {
    if n == |es| {
      assert es[..n] == es;
    } else {
      ReplayPrefix(c, es, n + 1);
      assert es[..n + 1][..n] == es[..n];
    }
  }

  lemma NextStep(c: Codec, es: seq<Event>, n: nat)
    requires Replay(c, es).Ok? && n < |es|
    ensures Replay(c, es[..n]).Ok? && Replay(c, es[..n + 1]).Ok?
    ensures var a := Replay(c, es[..n]).value.abs;
            Keyed(a) && StateValid(a, es[n]) && EventValid(c, es[n]) && Replay(c, es[..n + 1]).value.abs == Apply(a, es[n])
  {
    hide Keyed, StateValid, EventValid, Apply, Replay;
    var fs := es[..n + 1];
    assert fs[..|fs| - 1] == es[..n] && fs[|fs| - 1] == es[n];
    ReplayPrefix(c, es, n + 1);
    ReplayInit(c, fs);
    ReplayKeyed(c, es[..n]);
  }

  lemma RefKeys(c: Codec, m: Image, a: Abs)
    requires RequestRefs(c, m.content, a.requests, m.requestRecord) && AttemptRefs(c, m.content, a.attempts, m.attemptRecord)
    ensures m.requestRecord.Keys == a.requests.Keys && m.attemptRecord.Keys == IDsIn(a.attempts)
  {
    hide HoldsRequest, HoldsAttempt, IDsIn;
  }

  lemma NoEvictions(a: Abs, e: Event)
    requires e.evictedRequestIDs == [] && e.evictedJobIDs == []
    ensures Apply(a, e).requests == AddRequest(a, e.request).requests
    ensures Apply(a, e).attempts == AddAttempt(a, e.attempt).attempts
  {
  }

  lemma PlainKeys(c: Codec, a: Abs, m: Image, e: Event)
    requires Keyed(a) && StateValid(a, e) && e.evictedRequestIDs == [] && e.evictedJobIDs == []
    requires RequestRefs(c, m.content, a.requests, m.requestRecord) && AttemptRefs(c, m.content, a.attempts, m.attemptRecord)
    ensures Added(c, m, e).requestRecord.Keys == Apply(a, e).requests.Keys
    ensures Added(c, m, e).attemptRecord.Keys == AttemptIDs(Apply(a, e))
  {
    hide IDsIn, Apply, RequestRefs, AttemptRefs, Keyed, StateValid;
    NoEvictions(a, e);
    RefKeys(c, m, a);
    if e.attempt.Some? {
      AppendAttemptIDs(a.attempts, e.attempt.value);
    }
  }

  lemma PicturesAdded(c: Codec, a: Abs, m: Image, e: Event)
    requires c.Valid() && Keyed(a) && StateValid(a, e) && e.evictedRequestIDs == [] && e.evictedJobIDs == []
    requires RequestRefs(c, m.content, a.requests, m.requestRecord) && AttemptRefs(c, m.content, a.attempts, m.attemptRecord)
    ensures var m' := Added(c, m, e);
            && RequestRefs(c, m'.content, Apply(a, e).requests, m'.requestRecord)
            && AttemptRefs(c, m'.content, Apply(a, e).attempts, m'.attemptRecord)
  {
    assert c.decode(c.Line(e)) == Some(e);
    hide Keyed, StateValid, Apply, RequestRefs, AttemptRefs, IDsIn;
    PlainKeys(c, a, m, e);
    var ref := RecordRef(|m.content|, |c.Line(e)|, e.seqNo);
    var m' := Added(c, m, e);
    RequestRefsAfter(c, a, m.content, c.Line(e), e, ref, m.requestRecord, m'.requestRecord);
    AttemptRefsAfter(c, a, m.content, c.Line(e), e, ref, m.attemptRecord, m'.attemptRecord);
  }

  lemma FitNext(c: Codec, es: seq<Event>, m: Image, e: Event)
    requires AllFit(c, es) ==> Fit(m.requestRecord) && Fit(m.attemptRecord)
    ensures var m' := Added(c, m, e);
            AllFit(c, es + [e]) ==> Fit(m'.requestRecord) && Fit(m'.attemptRecord)
  {
    var fs := es + [e];
    if AllFit(c, fs) {
      assert fs[|es|] == e;
      assert forall i :: 0 <= i < |es| ==> fs[i] == es[i];
    }
  }

  /** Writing one more record keeps the picture. */
  lemma PicturesNext(c: Codec, es: seq<Event>, n: nat, m: Image)
    requires c.Valid() && Replay(c, es).Ok? && n < |es| && Pictures(c, es[..n], m)
    requires es[n].evictedRequestIDs == [] && es[n].evictedJobIDs == []
    ensures Pictures(c, es[..n + 1], Added(c, m, es[n]))
  {
    hide Replay, Keyed, StateValid, EventValid, Apply, RequestRefs, AttemptRefs, Print, Fit, IDsIn, Added, AllFit;
    var e := es[n];
    assert es[..n + 1] == es[..n] + [e];
    NextStep(c, es, n);
    PrintSnoc(c, es[..n], e);
    PicturesAdded(c, Replay(c, es[..n]).value.abs, m, e);
    FitNext(c, es[..n], m, e);
    AddedContent(c, m, e);
  }

  /** The loop of `compactLocked`: each record is filled in, numbered, written and referenced. */
  method Rewrite(c: Codec, file: Bytes, reqs: map<string, RecordRef>, atts: map<string, RecordRef>, bares: seq<Event>, seqNo: uint64,
                 ghost a: Abs, ghost order: seq<string>, ghost jobOrder: map<string, seq<string>>)
    returns (r: Result<Image, Error>)
    requires c.Valid() && Linked(c, a) && Ordering(a, order, jobOrder) && Orderable(a, order, jobOrder)
    requires RequestRefs(c, file, a.requests, reqs) && AttemptRefs(c, file, a.attempts, atts)
    requires bares == Bares(Records(a, order, jobOrder)) && seqNo + |bares| <= MAX_SEQ
    ensures r.Ok? ==> Pictures(c, Compacted(a, order, jobOrder, seqNo), r.value)
    ensures r.Err? ==> !(Fit(reqs) && Fit(atts))
  {
    hide Linked, Ordering, Orderable, RequestRefs, AttemptRefs, Fit, Backed, Records, Compacted, Pictures, BareEvent;
    ghost var full := Records(a, order, jobOrder);
    ghost var es := Compacted(a, order, jobOrder, seqNo);
    CompactedReplays(c, a, order, jobOrder, seqNo);
    RecordsBacked(c, file, reqs, atts, a, order, jobOrder);
    RecordsPlain(a, order, jobOrder);
    CompactedAt(a, order, jobOrder, seqNo);
    PicturesNothing(c);
    var m := Image([], map[], map[]);
    assert es[..0] == [];
    for i := 0 to |bares|
      invariant Pictures(c, es[..i], m)
    {
      assert full[i] in full;
      var filled := Hydrate(c, file, reqs, atts, bares[i], full[i]);
      if filled.Err? {
        return Err(filled.error);
      }
      var e := filled.value.(seqNo := seqNo + 1 + i, snapshot := true);
      assert e == es[i];
      PicturesNext(c, es, i, m);
      m := Added(c, m, e);
    }
    assert es[..|es|] == es;
    r := Ok(m);
  }
}
