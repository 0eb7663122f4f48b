/** The in-memory indexes of the store, each as what it must be for a given state. */
module IndexMaps {
  import opened Wrappers
  import opened Model
  import opened Spec
  import opened Linkage

  /** Where a record stands in the log file, and the sequence number it carries. */
  datatype RecordRef = RecordRef(offset: int, length: int, seqNo: uint64)

  /** The searchable text of a request: its identifiers, its path and a prefix of its body. */
  datatype SearchText = SearchText(id: string, path: string, deliveryID: string, bodyPrefix: Bytes)

  function Bare(r: Request): Request {
    r.(body := [])
  }

  function BareAttempt(x: Attempt): Attempt {
    x.(responseBody := [])
  }

  function BareList(l: seq<Attempt>): seq<Attempt> {
    seq(|l|, i requires 0 <= i < |l| => BareAttempt(l[i]))
  }

  function TextOf(r: Request, limit: nat): SearchText {
    SearchText(r.id, r.path, r.deliveryID, if |r.body| > limit then r.body[..limit] else r.body)
  }

  /** What stays in memory of a request: everything but its body, and of the body a bounded part to search in. */
  lemma BareLaw(r: Request, x: Attempt, limit: nat)
    ensures Bare(r).body == [] && r == Bare(r).(body := r.body)
    ensures BareAttempt(x).responseBody == [] && x == BareAttempt(x).(responseBody := x.responseBody)
    ensures TextOf(r, limit) == SearchText(r.id, r.path, r.deliveryID, r.body[..if |r.body| < limit then |r.body| else limit])
  {
    assert r.body[..|r.body|] == r.body;
  }

  function BareRequests(m: map<string, Request>): map<string, Request> {
    map id | id in m :: Bare(m[id])
  }

  function BodySizes(m: map<string, Request>): map<string, nat> {
    map id | id in m :: |m[id].body|
  }

  function SearchTexts(m: map<string, Request>, limit: nat): map<string, SearchText> {
    map id | id in m :: TextOf(m[id], limit)
  }

  function BareAttempts(m: map<string, seq<Attempt>>): map<string, seq<Attempt>> {
    map r | r in m :: BareList(m[r])
  }

  function ReceivedAt(m: map<string, Request>, id: string): Time {
    if id in m then m[id].receivedAt else ZERO
  }

  lemma {:induction false} BareWithout(l: seq<Attempt>, jobID: string)
    ensures Without(BareList(l), jobID) == BareList(Without(l, jobID))
    decreases |l|
  {
    if l == [] {
    } else {
      var init := l[..|l| - 1];
      assert BareList(l) == BareList(init) + [BareAttempt(l[|l| - 1])];
      assert BareList(l)[..|l| - 1] == BareList(init);
      BareWithout(init, jobID);
    }
  }

  ghost function Referred(jobs: map<string, Job>): set<string> {
    set j | j in jobs :: jobs[j].requestID
  }

  /** The inverse of `Job.requestID`; no request is mapped to an empty set. */
  ghost function ByRequest(jobs: map<string, Job>): map<string, set<string>> {
    map r | r in Referred(jobs) :: set j | j in jobs && jobs[j].requestID == r
  }

  lemma ByRequestRemove(jobs: map<string, Job>, id: string)
    requires id in jobs
    ensures jobs[id].requestID in ByRequest(jobs)
    ensures var r := jobs[id].requestID; var left := ByRequest(jobs)[r] - {id};
            ByRequest(jobs - {id}) == if left == {} then ByRequest(jobs) - {r} else ByRequest(jobs)[r := left]
  {
    var r := jobs[id].requestID;
    var was := ByRequest(jobs);
    var left := was[r] - {id};
    var now := ByRequest(jobs - {id});
    forall q | q in now ensures q in was && now[q] == (if q == r then left else was[q]) {
      assert now[q] == was[q] - {id};
    }
    forall q | q in was && q != r ensures q in now {
      var j :| j in jobs && jobs[j].requestID == q;
      assert j in jobs - {id};
    }
    if left != {} {
      var j :| j in left;
      assert j in jobs - {id};
      assert r in now;
    }
  }

  lemma ByRequestAdd(jobs: map<string, Job>, j: Job)
    requires j.id in jobs ==> jobs[j.id].requestID == j.requestID
    ensures ByRequest(jobs[j.id := j]) ==
            ByRequest(jobs)[j.requestID := (if j.requestID in ByRequest(jobs) then ByRequest(jobs)[j.requestID] else {}) + {j.id}]
  {
    var was := ByRequest(jobs);
    var next := jobs[j.id := j];
    var now := ByRequest(next);
    assert j.id in next && next[j.id].requestID == j.requestID;
    assert j.requestID in now;
    forall q | q in was ensures q in now {
      var k :| k in jobs && jobs[k].requestID == q;
      assert k in next && next[k].requestID == q;
    }
    forall q | q in now ensures q == j.requestID || q in was {
      var k :| k in next && next[k].requestID == q;
    }
    forall q | q in was && q != j.requestID ensures now[q] == was[q] {
    }
    var mine := if j.requestID in was then was[j.requestID] else {};
    assert now[j.requestID] == mine + {j.id};
  }

  lemma ByRequestIs(a: Abs, r: string)
    ensures r in ByRequest(a.jobs) <==> JobsOf(a, r) != {}
    ensures r in ByRequest(a.jobs) ==> ByRequest(a.jobs)[r] == JobsOf(a, r)
  {
    if JobsOf(a, r) != {} {
      var j :| j in JobsOf(a, r);
      assert j in a.jobs && a.jobs[j].requestID == r;
    }
    if r in ByRequest(a.jobs) {
      var j :| j in a.jobs && a.jobs[j].requestID == r;
      assert j in JobsOf(a, r);
    }
  }

  /* ---- the deduplication maps ---- */

  /** Every entry points to a retained request with that key. */
  ghost predicate DedupSound(m: map<string, Request>, delivery: map<string, string>, body: map<string, string>) {
    && (forall d :: d in delivery ==> d != "" && delivery[d] in m && m[delivery[d]].deliveryID == d)
    && (forall h :: h in body ==> body[h] in m && m[body[h]].deliveryID == "" && m[body[h]].bodySHA256 == h)
  }

  /** Every retained request is the entry of its key. */
  ghost predicate DedupComplete(m: map<string, Request>, delivery: map<string, string>, body: map<string, string>) {
    forall id :: id in m ==>
                   if m[id].deliveryID != "" then m[id].deliveryID in delivery && delivery[m[id].deliveryID] == id
                   else m[id].bodySHA256 in body && body[m[id].bodySHA256] == id
  }

  function DropDelivery(delivery: map<string, string>, r: Request): map<string, string> {
    if r.deliveryID != "" && r.deliveryID in delivery && delivery[r.deliveryID] == r.id then delivery - {r.deliveryID} else delivery
  }

  function DropBody(body: map<string, string>, r: Request): map<string, string> {
    if r.deliveryID == "" && r.bodySHA256 in body && body[r.bodySHA256] == r.id then body - {r.bodySHA256} else body
  }

  function AddDelivery(delivery: map<string, string>, r: Request): map<string, string> {
    if r.deliveryID != "" then delivery[r.deliveryID := r.id] else delivery
  }

  function AddBody(body: map<string, string>, r: Request): map<string, string> {
    if r.deliveryID != "" then body else body[r.bodySHA256 := r.id]
  }

  lemma DedupDrop(m: map<string, Request>, delivery: map<string, string>, body: map<string, string>, id: string)
    requires id in m && m[id].id == id && DedupSound(m, delivery, body)
    ensures DedupSound(m - {id}, DropDelivery(delivery, m[id]), DropBody(body, m[id]))
    ensures DedupComplete(m, delivery, body) ==> DedupComplete(m - {id}, DropDelivery(delivery, m[id]), DropBody(body, m[id]))
  {
  }

  lemma DedupCompleteAdd(m: map<string, Request>, delivery: map<string, string>, body: map<string, string>, r: Request)
    requires r.id !in m && DedupComplete(m, delivery, body) && forall id :: id in m ==> KeyOf(m[id]) != KeyOf(r)
    ensures DedupComplete(m[r.id := r], AddDelivery(delivery, r), AddBody(body, r))
  {
  }

  lemma DedupAdd(m: map<string, Request>, delivery: map<string, string>, body: map<string, string>, r: Request)
    requires r.id !in m && DedupSound(m, delivery, body)
    ensures DedupSound(m[r.id := r], AddDelivery(delivery, r), AddBody(body, r))
    ensures DedupComplete(m, delivery, body) && (forall id :: id in m ==> KeyOf(m[id]) != KeyOf(r)) ==>
              DedupComplete(m[r.id := r], AddDelivery(delivery, r), AddBody(body, r))
  {
    hide DedupComplete, KeyOf;
    if DedupComplete(m, delivery, body) && forall id :: id in m ==> KeyOf(m[id]) != KeyOf(r) {
      DedupCompleteAdd(m, delivery, body, r);
    }
  }

  /** With both properties a lookup answers exactly: the holder of the key, or none. */
  lemma DedupExact(a: Abs, delivery: map<string, string>, body: map<string, string>, r: Request)
    requires DedupSound(a.requests, delivery, body) && DedupComplete(a.requests, delivery, body)
    ensures r.deliveryID != "" ==>
              if r.deliveryID in delivery then Holders(a, KeyOf(r)) == {delivery[r.deliveryID]} else Holders(a, KeyOf(r)) == {}
    ensures r.deliveryID == "" ==>
              if r.bodySHA256 in body then Holders(a, KeyOf(r)) == {body[r.bodySHA256]} else Holders(a, KeyOf(r)) == {}
  {
  }

  /* ---- record references ---- */

  /** `readEventAt`: the record in the byte range, if it is one and carries the remembered number. */
  function ReadEventAt(c: Codec, file: Bytes, ref: RecordRef): Result<Event, Error> {
    if ref.offset < 0 || ref.length <= 0 || ref.length > MAX_EVENT_BYTES then Err(BadReference)
    else if ref.offset + ref.length > |file| then Err(IO)
    else
      var d := c.decode(file[ref.offset..ref.offset + ref.length]);
      if d.None? then Err(Corrupt) else if d.value.seqNo != ref.seqNo then Err(BadReference) else Ok(d.value)
  }

  /** The byte range holds a whole record carrying that number. */
  ghost predicate Holds(c: Codec, file: Bytes, ref: RecordRef, e: Event) {
    && 0 <= ref.offset && 0 < ref.length && ref.offset + ref.length <= |file|
    && c.decode(file[ref.offset..ref.offset + ref.length]) == Some(e)
    && e.seqNo == ref.seqNo
  }

  ghost predicate HoldsRequest(c: Codec, file: Bytes, ref: RecordRef, r: Request) {
    exists e: Event :: Holds(c, file, ref, e) && e.request.Some? && e.request.value.(headers := r.headers) == r
  }

  ghost predicate HoldsAttempt(c: Codec, file: Bytes, ref: RecordRef, x: Attempt) {
    exists e: Event :: Holds(c, file, ref, e) && e.attempt.Some? && e.attempt.value.(responseHeaders := x.responseHeaders) == x
  }

  ghost predicate RequestRefs(c: Codec, file: Bytes, m: map<string, Request>, refs: map<string, RecordRef>) {
    && refs.Keys == m.Keys
    && (forall id :: id in m ==> HoldsRequest(c, file, refs[id], m[id]))
  }

  ghost predicate AttemptRefs(c: Codec, file: Bytes, m: map<string, seq<Attempt>>, refs: map<string, RecordRef>) {
    && refs.Keys == IDsIn(m)
    && (forall x :: x in All(m) ==> x.id in refs && HoldsAttempt(c, file, refs[x.id], x))
  }

  /** Appending to the file leaves every record where it was. */
  lemma HoldsLonger(c: Codec, file: Bytes, more: Bytes, ref: RecordRef, e: Event)
    requires Holds(c, file, ref, e)
    ensures Holds(c, file + more, ref, e)
  {
    assert (file + more)[ref.offset..ref.offset + ref.length] == file[ref.offset..ref.offset + ref.length];
  }

  lemma RequestRefsLonger(c: Codec, file: Bytes, more: Bytes, m: map<string, Request>, refs: map<string, RecordRef>)
    requires RequestRefs(c, file, m, refs)
    ensures RequestRefs(c, file + more, m, refs)
  {
    forall id | id in m ensures HoldsRequest(c, file + more, refs[id], m[id]) {
      var e: Event :| Holds(c, file, refs[id], e) && e.request.Some? && e.request.value.(headers := m[id].headers) == m[id];
      HoldsLonger(c, file, more, refs[id], e);
    }
  }

  lemma AttemptRefsLonger(c: Codec, file: Bytes, more: Bytes, m: map<string, seq<Attempt>>, refs: map<string, RecordRef>)
    requires AttemptRefs(c, file, m, refs)
    ensures AttemptRefs(c, file + more, m, refs)
  {
    forall x | x in All(m) ensures HoldsAttempt(c, file + more, refs[x.id], x) {
      var e: Event :| Holds(c, file, refs[x.id], e) && e.attempt.Some? && e.attempt.value.(responseHeaders := x.responseHeaders) == x;
      HoldsLonger(c, file, more, refs[x.id], e);
    }
  }

  /** A reference that holds a record of readable size reads back exactly that record. */
  lemma HoldsReads(c: Codec, file: Bytes, ref: RecordRef, e: Event)
    requires Holds(c, file, ref, e)
    ensures ReadEventAt(c, file, ref) == if ref.length <= MAX_EVENT_BYTES then Ok(e) else Err(BadReference)
  {
  }
}
