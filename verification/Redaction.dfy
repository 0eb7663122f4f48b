/** Header redaction: what it does to records, states and logs. */
module Redaction {
  import opened Wrappers
  import opened Model
  import opened Log
  import opened Spec
  import opened Linkage
  import opened IndexMaps
  import opened Recovery
  import opened Snapshot
  import opened Stream

  const MARK := ["[REDACTED]"]

  type Policy = string -> bool

  function RedactHeader(sensitive: Policy, h: Header): Header {
    map k | k in h :: if sensitive(k) then MARK else h[k]
  }

  predicate Exposed(sensitive: Policy, h: Header) {
    exists k :: k in h && sensitive(k) && h[k] != MARK
  }

  function RedactRequest(sensitive: Policy, r: Request): Request {
    r.(headers := RedactHeader(sensitive, r.headers))
  }

  function RedactAttempt(sensitive: Policy, x: Attempt): Attempt {
    x.(responseHeaders := RedactHeader(sensitive, x.responseHeaders))
  }

  function RedactList(sensitive: Policy, l: seq<Attempt>): seq<Attempt> {
    seq(|l|, i requires 0 <= i < |l| => RedactAttempt(sensitive, l[i]))
  }

  function RedactEvent(sensitive: Policy, e: Event): Event {
    e.(request := if e.request.None? then None else Some(RedactRequest(sensitive, e.request.value)),
       attempt := if e.attempt.None? then None else Some(RedactAttempt(sensitive, e.attempt.value)))
  }

  function RedactRing(sensitive: Policy, es: seq<Event>): seq<Event> {
    seq(|es|, i requires 0 <= i < |es| => RedactEvent(sensitive, es[i]))
  }

  function RedactRequests(sensitive: Policy, m: map<string, Request>): map<string, Request> {
    map id | id in m :: RedactRequest(sensitive, m[id])
  }

  function RedactAttempts(sensitive: Policy, m: map<string, seq<Attempt>>): map<string, seq<Attempt>> {
    map r | r in m :: RedactList(sensitive, m[r])
  }

  function RedactAbs(sensitive: Policy, a: Abs): Abs {
    Abs(RedactRequests(sensitive, a.requests), a.jobs, RedactAttempts(sensitive, a.attempts))
  }

  predicate EventExposed(sensitive: Policy, e: Event) {
    || (e.request.Some? && Exposed(sensitive, e.request.value.headers))
    || (e.attempt.Some? && Exposed(sensitive, e.attempt.value.responseHeaders))
  }

  /** Nothing is exposed exactly when redaction changes nothing, and redaction leaves nothing exposed. */
  lemma HeaderRedacted(sensitive: Policy, h: Header)
    ensures !Exposed(sensitive, RedactHeader(sensitive, h))
    ensures Exposed(sensitive, h) <==> RedactHeader(sensitive, h) != h
    ensures RedactHeader(sensitive, RedactHeader(sensitive, h)) == RedactHeader(sensitive, h)
    ensures RedactHeader(sensitive, h).Keys == h.Keys
    ensures forall k :: k in h ==> RedactHeader(sensitive, h)[k] == if sensitive(k) then ["[REDACTED]"] else h[k]
    ensures Exposed(sensitive, h) <==> exists k :: k in h && sensitive(k) && h[k] != ["[REDACTED]"]
  {
    var g := RedactHeader(sensitive, h);
    assert RedactHeader(sensitive, g) == g;
    if !Exposed(sensitive, h) {
      assert g == h;
    }
  }

  lemma EventRedacted(sensitive: Policy, e: Event)
    ensures !EventExposed(sensitive, RedactEvent(sensitive, e))
    ensures EventExposed(sensitive, e) <==> RedactEvent(sensitive, e) != e
    ensures Plain(RedactEvent(sensitive, e)) == Plain(e) && RedactEvent(sensitive, e).seqNo == e.seqNo
  {
    hide Exposed, RedactHeader;
    if e.request.Some? {
      HeaderRedacted(sensitive, e.request.value.headers);
    }
    if e.attempt.Some? {
      HeaderRedacted(sensitive, e.attempt.value.responseHeaders);
    }
  }

  /** A second redaction under the same policy finds nothing to do. */
  lemma RedactTwice(sensitive: Policy, a: Abs)
    ensures RedactAbs(sensitive, RedactAbs(sensitive, a)) == RedactAbs(sensitive, a)
  {
    var b := RedactAbs(sensitive, a);
    hide RedactHeader;
    forall id | id in a.requests ensures RedactRequest(sensitive, b.requests[id]) == b.requests[id] {
      HeaderRedacted(sensitive, a.requests[id].headers);
    }
    assert RedactRequests(sensitive, b.requests) == b.requests;
    forall r | r in a.attempts ensures RedactList(sensitive, b.attempts[r]) == b.attempts[r] {
      forall i | 0 <= i < |a.attempts[r]| ensures RedactAttempt(sensitive, b.attempts[r][i]) == b.attempts[r][i] {
        HeaderRedacted(sensitive, a.attempts[r][i].responseHeaders);
      }
    }
    assert RedactAttempts(sensitive, b.attempts) == b.attempts;
  }

  lemma SameIDs(sensitive: Policy, m: map<string, seq<Attempt>>, n: map<string, seq<Attempt>>)
    requires forall x :: x in All(m) ==> RedactAttempt(sensitive, x) in All(n)
    requires forall y :: y in All(n) ==> exists x :: x in All(m) && y == RedactAttempt(sensitive, x)
    ensures IDsIn(n) == IDsIn(m)
  {
    forall k | k in IDsIn(m) ensures k in IDsIn(n) {
      var x :| x in All(m) && x.id == k;
      assert RedactAttempt(sensitive, x) in All(n);
    }
  }

  lemma RedactedAll(sensitive: Policy, m: map<string, seq<Attempt>>)
    ensures forall x :: x in All(m) ==> RedactAttempt(sensitive, x) in All(RedactAttempts(sensitive, m))
    ensures forall y :: y in All(RedactAttempts(sensitive, m)) ==> exists x :: x in All(m) && y == RedactAttempt(sensitive, x)
    ensures IDsIn(RedactAttempts(sensitive, m)) == IDsIn(m)
  {
    var n := RedactAttempts(sensitive, m);
    hide RedactAttempt;
    forall x | x in All(m) ensures RedactAttempt(sensitive, x) in All(n) {
      var r :| r in m && x in m[r];
      var i :| 0 <= i < |m[r]| && m[r][i] == x;
      assert n[r][i] == RedactAttempt(sensitive, x);
      InAll(n, r, n[r][i]);
    }
    forall y | y in All(n) ensures exists x :: x in All(m) && y == RedactAttempt(sensitive, x) {
      var r :| r in n && y in n[r];
      var i :| 0 <= i < |n[r]| && n[r][i] == y;
      InAll(m, r, m[r][i]);
    }
    SameIDs(sensitive, m, n);
  }

  lemma RedactKeyed(sensitive: Policy, a: Abs)
    requires Keyed(a)
    ensures Keyed(RedactAbs(sensitive, a))
  {
    var m: map<string, seq<Attempt>> := a.attempts;
    var n: map<string, seq<Attempt>> := RedactAbs(sensitive, a).attempts;
    RedactedAll(sensitive, m);
    forall r: string | r in n ensures n[r] != [] && DistinctIDs(n[r]) {
      forall i, j | 0 <= i < j < |n[r]| ensures n[r][i].id != n[r][j].id {
        assert m[r][i].id != m[r][j].id;
      }
    }
    forall r: string, y: Attempt | r in n && y in n[r] ensures y.requestID == r {
      var i :| 0 <= i < |n[r]| && n[r][i] == y;
      assert m[r][i] in m[r];
    }
    forall y: Attempt, z: Attempt | y in All(n) && z in All(n) && y.id == z.id ensures y == z {
      var x :| x in All(m) && y == RedactAttempt(sensitive, x);
      var w :| w in All(m) && z == RedactAttempt(sensitive, w);
      assert x.id == w.id;
    }
  }

  /** Redaction touches nothing the invariant speaks of. */
  lemma RedactLinked(c: Codec, sensitive: Policy, a: Abs)
    requires Linked(c, a)
    ensures Linked(c, RedactAbs(sensitive, a))
  {
    RedactKeyed(sensitive, a);
    RedactedAll(sensitive, a.attempts);
    hide Keyed, RedactHeader, RedactList;
    var b := RedactAbs(sensitive, a);
    forall y | y in All(b.attempts)
      ensures AttemptValid(y) && y.jobID in b.jobs && b.jobs[y.jobID].requestID == y.requestID
    {
      var x :| x in All(a.attempts) && y == RedactAttempt(sensitive, x);
    }
  }

  lemma HoldsRedactedRequest(c: Codec, sensitive: Policy, file: Bytes, ref: RecordRef, r: Request)
    requires HoldsRequest(c, file, ref, r)
    ensures HoldsRequest(c, file, ref, RedactRequest(sensitive, r))
  {
    var s := RedactRequest(sensitive, r);
    var e: Event :| Holds(c, file, ref, e) && e.request.Some? && e.request.value.(headers := r.headers) == r;
    assert e.request.value.(headers := s.headers) == s;
  }

  lemma HoldsRedactedAttempt(c: Codec, sensitive: Policy, file: Bytes, ref: RecordRef, x: Attempt)
    requires HoldsAttempt(c, file, ref, x)
    ensures HoldsAttempt(c, file, ref, RedactAttempt(sensitive, x))
  {
    var y := RedactAttempt(sensitive, x);
    var e: Event :| Holds(c, file, ref, e) && e.attempt.Some? && e.attempt.value.(responseHeaders := x.responseHeaders) == x;
    assert e.attempt.value.(responseHeaders := y.responseHeaders) == y;
  }

  /** The references go on holding: they vouch for everything but the headers. */
  lemma RedactRefs(c: Codec, sensitive: Policy, file: Bytes, a: Abs, reqs: map<string, RecordRef>, atts: map<string, RecordRef>)
    requires RequestRefs(c, file, a.requests, reqs) && AttemptRefs(c, file, a.attempts, atts)
    ensures var b := RedactAbs(sensitive, a);
            RequestRefs(c, file, b.requests, reqs) && AttemptRefs(c, file, b.attempts, atts)
  {
    hide RedactHeader, RedactList, IDsIn, HoldsRequest, HoldsAttempt;
    RedactedAll(sensitive, a.attempts);
    var b := RedactAbs(sensitive, a);
    forall id | id in b.requests ensures HoldsRequest(c, file, reqs[id], b.requests[id]) {
      HoldsRedactedRequest(c, sensitive, file, reqs[id], a.requests[id]);
    }
    forall y | y in All(b.attempts) ensures y.id in atts && HoldsAttempt(c, file, atts[y.id], y) {
      var x :| x in All(a.attempts) && y == RedactAttempt(sensitive, x);
      HoldsRedactedAttempt(c, sensitive, file, atts[x.id], x);
    }
  }

  /* ---- logs ---- */

  /** No complete record of the file exposes a sensitive header. */
  ghost predicate CleanLines(c: Codec, sensitive: Policy, ls: seq<Bytes>) {
    forall i :: 0 <= i < |ls| ==> c.decode(ls[i]).Some? && !EventExposed(sensitive, c.decode(ls[i]).value)
  }

  ghost predicate CleanLog(c: Codec, sensitive: Policy, file: Bytes) {
    CleanLines(c, sensitive, Split(file).complete)
  }

  /** The records of a snapshot of a redacted state expose nothing. */
  lemma {:induction false} RecordsClean(sensitive: Policy, a: Abs, order: seq<string>, jobOrder: map<string, seq<string>>)
    requires Orderable(RedactAbs(sensitive, a), order, jobOrder)
    ensures forall e :: e in Records(RedactAbs(sensitive, a), order, jobOrder) ==> !EventExposed(sensitive, e)
    decreases |order|
  {
    if order == [] {
    } else {
      var b := RedactAbs(sensitive, a);
      var id := order[|order| - 1];
      assert id in order && id in b.requests && id in a.requests;
      RecordsClean(sensitive, a, order[..|order| - 1], jobOrder);
      hide Exposed, RedactHeader;
      HeaderRedacted(sensitive, a.requests[id].headers);
      var l := AttemptsOf(b, id);
      forall e | e in AttemptRecords(l) ensures !EventExposed(sensitive, e) {
        var i :| 0 <= i < |l| && e == AttemptRecord(l[i]);
        HeaderRedacted(sensitive, AttemptsOf(a, id)[i].responseHeaders);
      }
      forall e | e in JobRecords(b, jobOrder[id]) ensures !EventExposed(sensitive, e) {
      }
    }
  }

  lemma StampKeeps(sensitive: Policy, e: Event, f: Event)
    requires f == e.(seqNo := f.seqNo, snapshot := f.snapshot) && !EventExposed(sensitive, e)
    ensures !EventExposed(sensitive, f)
  {
  }

  lemma CompactedClean(c: Codec, sensitive: Policy, a: Abs, order: seq<string>, jobOrder: map<string, seq<string>>, seqNo: uint64)
    requires c.Valid() && Orderable(RedactAbs(sensitive, a), order, jobOrder)
    requires seqNo + |Records(RedactAbs(sensitive, a), order, jobOrder)| <= MAX_SEQ
    ensures CleanLog(c, sensitive, Print(c, Compacted(RedactAbs(sensitive, a), order, jobOrder, seqNo)))
  {
    hide Records, Orderable, Split, EventExposed, Join;
    RecordsClean(sensitive, a, order, jobOrder);
    var b := RedactAbs(sensitive, a);
    hide RedactAbs;
    var es := Compacted(b, order, jobOrder, seqNo);
    var ls := LinesOf(c, es);
    forall l | l in ls ensures IsLine(l) {
      var i :| 0 <= i < |es| && l == c.Line(es[i]);
      LineIsLine(c, es[i]);
    }
    SplitJoin(ls, []);
    assert Print(c, es) + [] == Print(c, es);
    forall i | 0 <= i < |ls| ensures c.decode(ls[i]).Some? && !EventExposed(sensitive, c.decode(ls[i]).value) {
      LineIsLine(c, es[i]);
      assert Records(b, order, jobOrder)[i] in Records(b, order, jobOrder);
      StampKeeps(sensitive, Records(b, order, jobOrder)[i], es[i]);
    }
  }

  /** `headerValuesNeedRedaction`. */
  method NeedsRedaction(sensitive: Policy, h: Header) returns (yes: bool)
    ensures yes == Exposed(sensitive, h)
  {
    var left := h.Keys;
    while left != {}
      invariant left <= h.Keys && forall k :: k in h.Keys - left ==> !(sensitive(k) && h[k] != MARK)
      decreases left
    {
      var k :| k in left;
      if sensitive(k) && h[k] != MARK {
        return true;
      }
      left := left - {k};
    }
    yes := false;
  }

  method EventNeedsRedaction(sensitive: Policy, e: Event) returns (yes: bool)
    ensures yes == EventExposed(sensitive, e)
  {
    hide Exposed;
    yes := false;
    if e.request.Some? {
      yes := NeedsRedaction(sensitive, e.request.value.headers);
    }
    if !yes && e.attempt.Some? {
      yes := NeedsRedaction(sensitive, e.attempt.value.responseHeaders);
    }
  }

  /** The `redact` closure of `RedactHeaders`. */
  method RedactOne(sensitive: Policy, h: Header) returns (g: Header, changed: bool)
    ensures g == RedactHeader(sensitive, h) && (changed <==> Exposed(sensitive, h))
  {
    g, changed := h, false;
    var left := h.Keys;
    while left != {}
      invariant left <= h.Keys && g.Keys == h.Keys
      invariant forall k :: k in h ==> g[k] == if k in left || !sensitive(k) then h[k] else MARK
      invariant changed <==> exists k :: k in h.Keys - left && sensitive(k) && h[k] != MARK
      decreases left
    {
      var k :| k in left;
      if sensitive(k) && h[k] != MARK {
        g, changed := g[k := MARK], true;
      }
      left := left - {k};
    }
  }

  ghost predicate RequestsExposed(sensitive: Policy, m: map<string, Request>) {
    exists id :: id in m && Exposed(sensitive, m[id].headers)
  }

  method RedactHeldRequests(sensitive: Policy, m: map<string, Request>) returns (n: map<string, Request>, changed: bool)
    ensures n == RedactRequests(sensitive, m)
    ensures changed <==> RequestsExposed(sensitive, m)
  {
    hide Exposed, RedactHeader;
    n, changed := m, false;
    var left := m.Keys;
    while left != {}
      invariant left <= m.Keys && n.Keys == m.Keys
      invariant forall id :: id in m ==> n[id] == if id in left then m[id] else RedactRequest(sensitive, m[id])
      invariant changed <==> exists id :: id in m.Keys - left && Exposed(sensitive, m[id].headers)
      decreases left
    {
      var id :| id in left;
      var g, c := RedactOne(sensitive, m[id].headers);
      if c {
        n, changed := n[id := m[id].(headers := g)], true;
      } else {
        HeaderRedacted(sensitive, m[id].headers);
      }
      left := left - {id};
    }
  }

  ghost predicate ListExposed(sensitive: Policy, l: seq<Attempt>) {
    exists i :: 0 <= i < |l| && Exposed(sensitive, l[i].responseHeaders)
  }

  method RedactHeldList(sensitive: Policy, l: seq<Attempt>) returns (n: seq<Attempt>, changed: bool)
    ensures n == RedactList(sensitive, l) && (changed <==> ListExposed(sensitive, l))
  {
    hide Exposed, RedactHeader;
    n, changed := l, false;
    for i := 0 to |l|
      invariant |n| == |l| && n[..i] == RedactList(sensitive, l[..i]) && n[i..] == l[i..]
      invariant changed <==> exists k :: 0 <= k < i && Exposed(sensitive, l[k].responseHeaders)
    {
      assert n[i] == n[i..][0] == l[i];
      var g, c := RedactOne(sensitive, n[i].responseHeaders);
      n, changed := n[i := n[i].(responseHeaders := g)], changed || c;
    }
  }

  ghost predicate AttemptsExposed(sensitive: Policy, m: map<string, seq<Attempt>>) {
    exists r :: r in m && ListExposed(sensitive, m[r])
  }

  method RedactHeldAttempts(sensitive: Policy, m: map<string, seq<Attempt>>) returns (n: map<string, seq<Attempt>>, changed: bool)
    ensures n == RedactAttempts(sensitive, m)
    ensures changed <==> AttemptsExposed(sensitive, m)
  {
    hide ListExposed, RedactList;
    n, changed := m, false;
    var left := m.Keys;
    while left != {}
      invariant left <= m.Keys && n.Keys == m.Keys
      invariant forall r :: r in m ==> n[r] == if r in left then m[r] else RedactList(sensitive, m[r])
      invariant changed <==> exists r :: r in m.Keys - left && ListExposed(sensitive, m[r])
      decreases left
    {
      var r :| r in left;
      var l, c := RedactHeldList(sensitive, m[r]);
      n, changed := n[r := l], changed || c;
      left := left - {r};
    }
  }

  ghost predicate AbsExposed(sensitive: Policy, a: Abs) {
    RequestsExposed(sensitive, a.requests) || AttemptsExposed(sensitive, a.attempts)
  }

  /** The indexed requests are exposed where the state is, and redact to the index of the redacted state. */
  lemma BareRequestsRedacted(sensitive: Policy, m: map<string, Request>, limit: nat)
    ensures var n := RedactRequests(sensitive, m);
            && n.Keys == m.Keys
            && BareRequests(n) == RedactRequests(sensitive, BareRequests(m))
            && BodySizes(n) == BodySizes(m) && SearchTexts(n, limit) == SearchTexts(m, limit)
  {
    hide RedactHeader;
  }

  lemma BareRequestsExposed(sensitive: Policy, m: map<string, Request>)
    ensures RequestsExposed(sensitive, BareRequests(m)) <==> RequestsExposed(sensitive, m)
  {
    hide Exposed;
    forall id | id in m ensures BareRequests(m)[id].headers == m[id].headers {
    }
  }

  lemma BareExposed(sensitive: Policy, l: seq<Attempt>)
    ensures ListExposed(sensitive, BareList(l)) <==> ListExposed(sensitive, l)
    ensures BareList(RedactList(sensitive, l)) == RedactList(sensitive, BareList(l))
  {
    hide Exposed, RedactHeader;
    forall i | 0 <= i < |l| ensures BareList(l)[i].responseHeaders == l[i].responseHeaders {
    }
  }

  lemma BareAttemptsRedacted(sensitive: Policy, m: map<string, seq<Attempt>>)
    ensures BareAttempts(RedactAttempts(sensitive, m)) == RedactAttempts(sensitive, BareAttempts(m))
  {
    hide ListExposed, RedactList, BareList;
    forall r | r in m
      ensures BareList(RedactList(sensitive, m[r])) == RedactList(sensitive, BareList(m[r]))
    {
      BareExposed(sensitive, m[r]);
    }
    var x := BareAttempts(RedactAttempts(sensitive, m));
    var y := RedactAttempts(sensitive, BareAttempts(m));
    assert x.Keys == y.Keys;
    assert forall r :: r in x ==> x[r] == y[r];
  }

  lemma BareAttemptsExposed(sensitive: Policy, m: map<string, seq<Attempt>>)
    ensures AttemptsExposed(sensitive, BareAttempts(m)) <==> AttemptsExposed(sensitive, m)
  {
    hide ListExposed, BareList;
    forall r | r in m ensures ListExposed(sensitive, BareAttempts(m)[r]) <==> ListExposed(sensitive, m[r]) {
      BareExposed(sensitive, m[r]);
    }
  }

  lemma SameMap(m: map<string, Request>, n: map<string, Request>)
    requires m.Keys == n.Keys && forall k :: k in m ==> m[k] == n[k]
    ensures m == n
  {
  }

  lemma RequestsRedacted(sensitive: Policy, m: map<string, Request>)
    ensures RequestsExposed(sensitive, m) <==> RedactRequests(sensitive, m) != m
  {
    hide RedactHeader, Exposed;
    var n := RedactRequests(sensitive, m);
    forall id | id in m ensures Exposed(sensitive, m[id].headers) <==> n[id] != m[id] {
      HeaderRedacted(sensitive, m[id].headers);
    }
    if !RequestsExposed(sensitive, m) {
      SameMap(m, n);
    }
  }

  lemma SameLists(m: map<string, seq<Attempt>>, n: map<string, seq<Attempt>>)
    requires m.Keys == n.Keys && forall k :: k in m ==> m[k] == n[k]
    ensures m == n
  {
  }

  lemma ListRedacted(sensitive: Policy, l: seq<Attempt>)
    ensures ListExposed(sensitive, l) <==> RedactList(sensitive, l) != l
  {
    hide RedactHeader, Exposed;
    var n := RedactList(sensitive, l);
    forall i | 0 <= i < |l| ensures Exposed(sensitive, l[i].responseHeaders) <==> n[i] != l[i] {
      HeaderRedacted(sensitive, l[i].responseHeaders);
    }
    if !ListExposed(sensitive, l) {
      assert n == l;
    }
  }

  lemma AttemptsRedacted(sensitive: Policy, m: map<string, seq<Attempt>>)
    ensures AttemptsExposed(sensitive, m) <==> RedactAttempts(sensitive, m) != m
  {
    hide ListExposed, RedactList;
    var n := RedactAttempts(sensitive, m);
    forall r | r in m ensures ListExposed(sensitive, m[r]) <==> n[r] != m[r] {
      ListRedacted(sensitive, m[r]);
    }
    if !AttemptsExposed(sensitive, m) {
      SameLists(m, n);
    }
  }

  /** The state is exposed exactly when redaction changes it. */
  lemma AbsRedacted(sensitive: Policy, a: Abs)
    ensures AbsExposed(sensitive, a) <==> RedactAbs(sensitive, a) != a
  {
    hide RequestsExposed, AttemptsExposed, RedactRequests, RedactAttempts;
    RequestsRedacted(sensitive, a.requests);
    AttemptsRedacted(sensitive, a.attempts);
  }

  lemma EmptySplit()
    ensures Split([]) == Lines([], [])
  {
  }

  /** `logNeedsHeaderRedactionLocked`: read the whole log, up to the first exposed header. */
  method ScanLog(c: Codec, sensitive: Policy, file: Bytes, size: nat) returns (r: Result<bool, Error>)
    requires size >= 1
    ensures r == Ok(false) <==> CleanLog(c, sensitive, file) && forall l :: l in Split(file).complete ==> |l| <= MAX_EVENT_BYTES
    ensures r.Err? ==> exists l :: l in Split(file).complete && (|l| > MAX_EVENT_BYTES || c.decode(l).None?)
  {
    hide Split, EventExposed;
    var reader := new Reader(file);
    ghost var lines: seq<Bytes> := [];
    assert file[..0] == [];
    EmptySplit();
    while true
      invariant reader.Valid() && reader.data == file && fresh(reader)
      invariant Split(file[..reader.pos]) == Lines(lines, []) && CleanLines(c, sensitive, lines)
      invariant forall l :: l in lines ==> |l| <= MAX_EVENT_BYTES
      decreases |file| - reader.pos
    {
      ghost var good := reader.pos;
      NextLine(c, file, good, lines);
      var record := reader.ReadRecord(size);
      if record.Err? {
        assert Split(file).complete[|lines|] == Split(file[good..]).complete[0];
        return Err(record.error);
      }
      if record.value.None? {
        assert lines + [] == lines;
        return Ok(false);
      }
      var line := record.value.value;
      LineTaken(file, good, reader.pos, lines);
      assert Split(file).complete[|lines|] == line;
      var decoded := c.decode(line);
      if decoded.None? {
        return Err(Corrupt);
      }
      var yes := EventNeedsRedaction(sensitive, decoded.value);
      if yes {
        return Ok(true);
      }
      lines := lines + [line];
    }
  }
}
