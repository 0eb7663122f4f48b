/** The catch-up ring, the live channels, and what a client of the event stream receives. */
module Stream {
  import opened Wrappers
  import opened Model

  /* ---- the ring ---- */

  function RingBytes(c: Codec, ring: seq<Event>): nat {
    if ring == [] then 0 else |c.encode(ring[0])| + RingBytes(c, ring[1..])
  }

  predicate WithinBounds(c: Codec, o: Options, ring: seq<Event>) {
    |ring| <= o.maxCatchUpEvents && RingBytes(c, ring) <= o.maxCatchUpBytes
  }

  /** The longest suffix within both bounds. */
  function Trim(c: Codec, o: Options, ring: seq<Event>): seq<Event> {
    if ring == [] || WithinBounds(c, o, ring) then ring else Trim(c, o, ring[1..])
  }

  lemma {:induction false} TrimLongest(c: Codec, o: Options, ring: seq<Event>, k: nat)
    requires k <= |ring| && o.maxCatchUpEvents >= 0 && o.maxCatchUpBytes >= 0
    ensures WithinBounds(c, o, Trim(c, o, ring))
    ensures |Trim(c, o, ring)| <= |ring| && Trim(c, o, ring) == ring[|ring| - |Trim(c, o, ring)|..]
    ensures WithinBounds(c, o, ring[k..]) ==> |ring[k..]| <= |Trim(c, o, ring)|
    decreases |ring|
  {
    if ring != [] && !WithinBounds(c, o, ring) {
      if k > 0 {
        TrimLongest(c, o, ring[1..], k - 1);
        assert ring[1..][k - 1..] == ring[k..];
      } else {
        TrimLongest(c, o, ring[1..], 0);
        assert ring[0..] == ring;
      }
      var n := |Trim(c, o, ring)|;
      assert ring[1..][|ring| - 1 - n..] == ring[|ring| - n..];
    } else {
      assert ring[0..] == ring;
    }
  }

  lemma {:induction false} RingBytesSnoc(c: Codec, ring: seq<Event>, e: Event)
    ensures RingBytes(c, ring + [e]) == RingBytes(c, ring) + |c.encode(e)|
    decreases |ring|
  {
    if ring == [] {
    } else {
      assert (ring + [e])[1..] == ring[1..] + [e];
      RingBytesSnoc(c, ring[1..], e);
    }
  }

  /** An event that fits the byte bound is not trimmed away when it arrives. */
  lemma TrimKeepsLast(c: Codec, o: Options, ring: seq<Event>, e: Event)
    requires o.maxCatchUpEvents >= 1 && o.maxCatchUpBytes >= 0
    ensures Trim(c, o, ring + [e]) != [] <==> |c.encode(e)| <= o.maxCatchUpBytes
  {
    var r := ring + [e];
    TrimLongest(c, o, r, |ring|);
    assert r[|ring|..] == [e];
    RingBytesSnoc(c, [], e);
    assert [] + [e] == [e];
    var t := Trim(c, o, r);
    if t != [] {
      assert t == t[..|t| - 1] + [e];
      RingBytesSnoc(c, t[..|t| - 1], e);
    }
  }

  /** The ring after these events have been taken in one by one. */
  function RingOf(c: Codec, o: Options, es: seq<Event>): seq<Event> {
    if es == [] then [] else Trim(c, o, RingOf(c, o, es[..|es| - 1]) + [es[|es| - 1]])
  }

  /* ---- events up to redaction ---- */

  /** An event with its headers left out: what redaction never changes. */
  function Plain(e: Event): Event {
    e.(request := if e.request.None? then None else Some(e.request.value.(headers := map[])),
       attempt := if e.attempt.None? then None else Some(e.attempt.value.(responseHeaders := map[])))
  }

  function Plains(es: seq<Event>): seq<Event> {
    seq(|es|, i requires 0 <= i < |es| => Plain(es[i]))
  }

  /** What is compared up to redaction is everything but the two header maps. */
  lemma PlainLaw(e: Event, f: Event)
    requires Plain(e) == Plain(f)
    ensures e.seqNo == f.seqNo && e.kind == f.kind && e.at == f.at && e.snapshot == f.snapshot && e.job == f.job
    ensures e.evictedRequestIDs == f.evictedRequestIDs && e.evictedJobIDs == f.evictedJobIDs
    ensures e.request.Some? <==> f.request.Some?
    ensures e.request.Some? ==> e.request.value == f.request.value.(headers := e.request.value.headers)
    ensures e.attempt.Some? <==> f.attempt.Some?
    ensures e.attempt.Some? ==> e.attempt.value == f.attempt.value.(responseHeaders := e.attempt.value.responseHeaders)
  {
    if e.request.Some? {
      assert e.request.value.(headers := map[]) == f.request.value.(headers := map[]);
    }
    if e.attempt.Some? {
      assert e.attempt.value.(responseHeaders := map[]) == f.attempt.value.(responseHeaders := map[]);
    }
  }

  lemma RingOfSnoc(c: Codec, o: Options, es: seq<Event>, e: Event)
    ensures RingOf(c, o, es + [e]) == Trim(c, o, RingOf(c, o, es) + [e])
    ensures Plains(es + [e]) == Plains(es) + [Plain(e)]
  {
    assert (es + [e])[..|es|] == es;
  }

  /* ---- channels ---- */

  /** A subscriber's bounded channel. */
  datatype Channel = Channel(buffer: seq<Event>, open: bool)

  /** A send that would block closes the channel instead. */
  function Offer(ch: Channel, e: Event, backlog: int): Channel {
    if |ch.buffer| < backlog then Channel(ch.buffer + [e], ch.open) else Channel(ch.buffer, false)
  }

  /* ---- cursors ---- */

  ghost predicate Increasing(es: seq<Event>) {
    forall i, j :: 0 <= i < j < |es| ==> es[i].seqNo < es[j].seqNo
  }

  /** The events after a cursor. */
  function Since(es: seq<Event>, cursor: int): seq<Event> {
    if es == [] then []
    else
      var p := Since(es[..|es| - 1], cursor);
      if es[|es| - 1].seqNo > cursor then p + [es[|es| - 1]] else p
  }

  lemma {:induction false} SinceSnoc(es: seq<Event>, e: Event, cursor: int)
    ensures Since(es + [e], cursor) == if e.seqNo > cursor then Since(es, cursor) + [e] else Since(es, cursor)
  {
    assert (es + [e])[..|es|] == es;
  }

  lemma {:induction false} SinceConcat(es: seq<Event>, fs: seq<Event>, cursor: int)
    ensures Since(es + fs, cursor) == Since(es, cursor) + Since(fs, cursor)
    decreases |fs|
  {
    if fs == [] {
      assert es + fs == es;
    } else {
      SinceConcat(es, fs[..|fs| - 1], cursor);
      assert es + fs == (es + fs[..|fs| - 1]) + [fs[|fs| - 1]];
      SinceSnoc(es + fs[..|fs| - 1], fs[|fs| - 1], cursor);
    }
  }

  lemma {:induction false} SinceNone(es: seq<Event>, cursor: int)
    requires forall e :: e in es ==> e.seqNo <= cursor
    ensures Since(es, cursor) == []
    decreases |es|
  {
    if es == [] {
    } else {
      SinceNone(es[..|es| - 1], cursor);
    }
  }

  lemma {:induction false} SinceAll(es: seq<Event>, cursor: int)
    requires forall e :: e in es ==> e.seqNo > cursor
    ensures Since(es, cursor) == es
    decreases |es|
  {
    if es == [] {
    } else {
      SinceAll(es[..|es| - 1], cursor);
      assert es == es[..|es| - 1] + [es[|es| - 1]];
    }
  }

  lemma {:induction false} SincePlain(es: seq<Event>, cursor: int)
    ensures Plains(Since(es, cursor)) == Since(Plains(es), cursor)
    decreases |es|
  {
    if es == [] {
    } else {
      assert Plains(es)[..|es| - 1] == Plains(es[..|es| - 1]);
      SincePlain(es[..|es| - 1], cursor);
    }
  }

  lemma SinceSplit(es: seq<Event>, cursor: int, k: nat)
    requires k <= |es| && (forall e :: e in es[..k] ==> e.seqNo <= cursor) && (forall e :: e in es[k..] ==> e.seqNo > cursor)
    ensures Since(es, cursor) == es[k..]
  {
    hide Since;
    SinceNone(es[..k], cursor);
    SinceAll(es[k..], cursor);
    SinceConcat(es[..k], es[k..], cursor);
    assert es == es[..k] + es[k..];
  }

  lemma IncreasingSuffix(es: seq<Event>, k: nat)
    requires Increasing(es) && k <= |es|
    ensures Increasing(es[k..])
    ensures forall i :: k < i < |es| ==> es[k].seqNo < es[i].seqNo
  {
    var rest := es[k..];
    forall i, j | 0 <= i < j < |rest| ensures rest[i].seqNo < rest[j].seqNo {
      assert es[k + i].seqNo < es[k + j].seqNo;
    }
  }

  /** In an increasing history the events after a cursor are a suffix, and strictly increasing. */
  lemma SinceSuffix(es: seq<Event>, cursor: int) returns (k: nat)
    requires Increasing(es)
    ensures k <= |es| && Since(es, cursor) == es[k..] && Increasing(es[k..])
    ensures forall i :: 0 <= i < k ==> es[i].seqNo <= cursor
    ensures forall i :: k <= i < |es| ==> es[i].seqNo > cursor
  {
    hide Since;
    k := 0;
    while k < |es| && es[k].seqNo <= cursor
      invariant 0 <= k <= |es|
      invariant forall i :: 0 <= i < k ==> es[i].seqNo <= cursor
    {
      k := k + 1;
    }
    IncreasingSuffix(es, k);
    hide Increasing;
    SinceSplit(es, cursor, k);
  }

  /* ---- catching up ---- */

  ghost predicate IsSuffix(part: seq<Event>, whole: seq<Event>) {
    |part| <= |whole| && part == whole[|whole| - |part|..]
  }

  /** `SubscribeFrom` refuses a cursor that the ring no longer reaches. */
  predicate Refused(ring: seq<Event>, cursor: uint64) {
    ring != [] && cursor < ring[0].seqNo && ring[0].seqNo - cursor > 1
  }

  lemma IncreasingPrefix(p: seq<Event>, q: seq<Event>)
    requires Increasing(q) && p <= q
    ensures Increasing(p)
  {
    forall i, j | 0 <= i < j < |p| ensures p[i].seqNo < p[j].seqNo {
      assert p[i] == q[i] && p[j] == q[j];
    }
  }

  /** The events after a cursor are all of those, and no others, in order. */
  lemma {:induction false} SinceLaw(es: seq<Event>, cursor: int)
    ensures forall e :: e in Since(es, cursor) <==> e in es && e.seqNo > cursor
    ensures Increasing(es) ==> Increasing(Since(es, cursor))
    decreases |es|
  {
    if es == [] {
      assert Since(es, cursor) == [];
    } else {
      var init := es[..|es| - 1];
      var x := es[|es| - 1];
      assert es == init + [x];
      SinceLaw(init, cursor);
      if Increasing(es) {
        IncreasingPrefix(init, es);
        forall e | e in Since(init, cursor) ensures e.seqNo < x.seqNo {
          var i :| 0 <= i < |init| && init[i] == e;
          assert es[i].seqNo < es[|es| - 1].seqNo;
        }
      }
    }
  }

  /** The published numbers follow one another. */
  ghost predicate Consecutive(es: seq<Event>) {
    forall i :: 0 < i < |es| ==> es[i].seqNo == es[i - 1].seqNo + 1
  }

  /** What is refused: on an empty ring nothing, and otherwise a cursor before the one that the oldest entry follows. Where the
      published numbers are consecutive and the ring has lost some of them, that is exactly when the ring would not catch up. */
  lemma RefusalLaw(published: seq<Event>, ring: seq<Event>, cursor: uint64)
    ensures Refused(ring, cursor) <==> ring != [] && cursor + 1 < ring[0].seqNo
    ensures Increasing(published) && Consecutive(published) && IsSuffix(ring, published) && 0 < |ring| < |published| ==>
              (Refused(ring, cursor) <==> Since(ring, cursor) != Since(published, cursor))
  {
    if Increasing(published) && Consecutive(published) && IsSuffix(ring, published) && 0 < |ring| < |published| {
      var d := |published| - |ring|;
      var before, last := published[..d], published[d - 1];
      assert published == before + ring && ring[0] == published[d];
      SinceConcat(before, ring, cursor);
      assert ring[0].seqNo == last.seqNo + 1;
      if cursor < last.seqNo {
        SinceLaw(before, cursor);
        assert last in before;
        assert last in Since(before, cursor);
      } else {
        forall e | e in before ensures e.seqNo <= cursor {
          var i :| 0 <= i < d && published[i] == e;
          assert i < d - 1 ==> published[i].seqNo < published[d - 1].seqNo;
        }
        SinceNone(before, cursor);
      }
    }
  }

  /** Where nothing was published before the ring, as after a restart on a compacted log, the refusal may be needless: the code cannot
      tell whether the numbers before the ring were ever given to an event that a client should have seen. */
  lemma RefusedNeedlessly(e: Event)
    requires e.seqNo > 1
    ensures Increasing([e]) && Consecutive([e]) && IsSuffix([e], [e]) && Refused([e], 0)
  {
  }

  /** An accepted subscription starts with exactly the published events after its cursor if and only if the
      ring holds some event or nothing was published after the cursor: on an empty ring there is no check. */
  lemma CatchUpExact(published: seq<Event>, ring: seq<Event>, cursor: uint64)
    requires Increasing(published) && IsSuffix(ring, published) && !Refused(ring, cursor)
    ensures Since(ring, cursor) == Since(published, cursor)
        <==> ring != [] || published == [] || published[|published| - 1].seqNo <= cursor
  {
    var d := |published| - |ring|;
    var before := published[..d];
    assert published == before + ring;
    SinceConcat(before, ring, cursor);
    if ring != [] {
      assert ring[0] == published[d];
      forall e | e in before ensures e.seqNo <= cursor {
        var i :| 0 <= i < d && published[i] == e;
        assert published[i].seqNo < published[d].seqNo;
      }
      SinceNone(before, cursor);
    } else {
      assert before == published;
      var k := SinceSuffix(published, cursor);
      assert Since(ring, cursor) == [];
    }
  }

  lemma SinceOne(e: Event)
    requires e.seqNo > 0
    ensures Since([e], 0) == [e] && Since([], 0) == []
  {
    assert [] + [e] == [e];
    SinceSnoc([], e, 0);
  }

  lemma RingOfFirst(c: Codec, o: Options, e: Event)
    requires o.Positive()
    ensures RingOf(c, o, [e]) != [] <==> |c.encode(e)| <= o.maxCatchUpBytes
  {
    hide Trim, WithinBounds;
    assert [] + [e] == [e];
    RingOfSnoc(c, o, [], e);
    TrimKeepsLast(c, o, [], e);
  }

  /** The gap is real: an event that is larger than the ring may be leaves the ring empty, and then a client that has
      seen nothing subscribes, is accepted, and misses that event. */
  lemma EmptyRingGap(c: Codec, o: Options, e: Event)
    requires o.Positive() && e.seqNo > 0 && |c.encode(e)| > o.maxCatchUpBytes
    ensures RingOf(c, o, [e]) == [] && Increasing([e]) && IsSuffix(RingOf(c, o, [e]), [e])
    ensures !Refused(RingOf(c, o, [e]), 0) && Since(RingOf(c, o, [e]), 0) != Since([e], 0)
  {
    hide RingOf, Since;
    RingOfFirst(c, o, e);
    SinceOne(e);
  }

  /* ---- when the counter drifts ---- */

  /** The trimming loop on a counter that need not be the sum of the sizes: an index out of range is `None`. */
  function Counted(c: Codec, o: Options, ring: seq<Event>, bytes: int): Option<(seq<Event>, int)> {
    if |ring| <= o.maxCatchUpEvents && bytes <= o.maxCatchUpBytes then Some((ring, bytes))
    else if ring == [] then None
    else Counted(c, o, ring[1..], bytes - |c.encode(ring[0])|)
  }

  /** With a counter that is `drift` too high the loop trims as if the byte bound were lower by that much, and it runs out of
      entries exactly if the drift alone exceeds the bound. */
  lemma {:induction false} CountedTrims(c: Codec, o: Options, ring: seq<Event>, drift: int)
    requires o.Positive()
    ensures var r := Counted(c, o, ring, RingBytes(c, ring) + drift);
            && (r.None? <==> drift > o.maxCatchUpBytes)
            && (r.Some? ==> var kept := Trim(c, o.(maxCatchUpBytes := o.maxCatchUpBytes - drift), ring);
                            r.value == (kept, RingBytes(c, kept) + drift))
    decreases |ring|
  {
    if ring == [] {
      assert RingBytes(c, ring) == 0;
    } else {
      CountedTrims(c, o, ring[1..], drift);
    }
  }

  /** Events as they arrive, each with the size it is measured at before it is copied. */
  type Arrivals = seq<(Event, nat)>

  /** By how much the measured sizes exceed those of the copies. */
  function Drift(c: Codec, es: Arrivals): int {
    if es == [] then 0
    else Drift(c, es[..|es| - 1]) + es[|es| - 1].1 - |c.encode(es[|es| - 1].0)|
  }

  /** `appendRing` on one event after the other, with the two sizes it works with. */
  function Arrived(c: Codec, o: Options, es: Arrivals): Option<(seq<Event>, int)> {
    if es == [] then Some(([], 0))
    else
      var p := Arrived(c, o, es[..|es| - 1]);
      var (e, size) := es[|es| - 1];
      if p.None? then None else Counted(c, o, p.value.0 + [e], p.value.1 + size)
  }

  lemma ArrivedNext(c: Codec, o: Options, es: Arrivals)
    requires o.Positive() && es != []
    requires var p := Arrived(c, o, es[..|es| - 1]);
             p.Some? && p.value.1 == RingBytes(c, p.value.0) + Drift(c, es[..|es| - 1])
    ensures Arrived(c, o, es).Some? <==> Drift(c, es) <= o.maxCatchUpBytes
    ensures Arrived(c, o, es).Some? ==> Arrived(c, o, es).value.1 == RingBytes(c, Arrived(c, o, es).value.0) + Drift(c, es)
  {
    hide Counted, RingBytes, Trim;
    var ring := Arrived(c, o, es[..|es| - 1]).value.0;
    var (e, size) := es[|es| - 1];
    RingBytesSnoc(c, ring, e);
    CountedTrims(c, o, ring + [e], Drift(c, es));
  }

  /** The counter is off by the drift of all that has arrived, and the loop fails exactly if that drift has ever exceeded
      the byte bound. */
  lemma {:induction false} ArrivedDrifts(c: Codec, o: Options, es: Arrivals)
    requires o.Positive()
    ensures Arrived(c, o, es).Some? <==> forall n :: 0 <= n <= |es| ==> Drift(c, es[..n]) <= o.maxCatchUpBytes
    ensures Arrived(c, o, es).Some? ==> var (ring, bytes) := Arrived(c, o, es).value; bytes == RingBytes(c, ring) + Drift(c, es)
    decreases |es|
  {
    if es == [] {
      assert forall n :: 0 <= n <= |es| ==> es[..n] == [];
    } else {
      var init := es[..|es| - 1];
      var (e, size) := es[|es| - 1];
      ArrivedDrifts(c, o, init);
      assert es[..|es|] == es;
      assert forall n :: 0 <= n <= |init| ==> es[..n] == init[..n];
      hide Drift, Counted, RingBytes;
      if Arrived(c, o, init).Some? {
        ArrivedNext(c, o, es);
      }
    }
  }

  /** Without drift the ring is the one the store is modelled with. */
  lemma {:induction false} ArrivedExactly(c: Codec, o: Options, es: Arrivals, plain: seq<Event>)
    requires o.Positive() && |plain| == |es|
    requires forall i :: 0 <= i < |es| ==> es[i] == (plain[i], |c.encode(plain[i])|)
    ensures Drift(c, es) == 0 && Arrived(c, o, es) == Some((RingOf(c, o, plain), RingBytes(c, RingOf(c, o, plain))))
    decreases |es|
  {
    if es == [] {
      assert RingOf(c, o, plain) == [];
    } else {
      var n := |es| - 1;
      ArrivedExactly(c, o, es[..n], plain[..n]);
      hide Counted, RingBytes, Trim;
      var ring := RingOf(c, o, plain[..n]);
      RingBytesSnoc(c, ring, plain[n]);
      CountedTrims(c, o, ring + [plain[n]], 0);
    }
  }

  lemma {:induction false} DriftGrows(c: Codec, es: Arrivals, more: nat)
    requires forall i :: 0 <= i < |es| ==> es[i].1 >= |c.encode(es[i].0)| + more
    ensures Drift(c, es) >= more * |es|
    decreases |es|
  {
    if es == [] {
      assert more * |es| == 0;
    } else {
      DriftGrows(c, es[..|es| - 1], more);
      assert more * |es| == more * (|es| - 1) + more;
    }
  }

  /** The failure is real: an attempt that got no reply has no headers, which JSON writes as `null`, and `{}` in the copy. After
      enough of them the loop fails. */
  lemma DriftFails(c: Codec, o: Options, es: Arrivals)
    requires o.Positive() && 2 * |es| > o.maxCatchUpBytes
    requires forall i :: 0 <= i < |es| ==> es[i].1 >= |c.encode(es[i].0)| + 2
    ensures Arrived(c, o, es).None?
  {
    hide Arrived, Drift;
    DriftGrows(c, es, 2);
    assert es[..|es|] == es;
    ArrivedDrifts(c, o, es);
  }

  /* ---- what a client is shown ---- */

  /** The largest sequence number the client has, starting from its cursor. */
  function Cursor(cursor: uint64, delivered: seq<Event>): uint64 {
    if delivered == [] then cursor else delivered[|delivered| - 1].seqNo
  }

  function Take(es: seq<Event>, n: nat): seq<Event> {
    if n < |es| then es[..n] else es
  }

  /** The catch-up loop of the stream: it ends at the first send that fails, after `sends` of them. */
  method DeliverOld(caughtUp: seq<Event>, cursor: uint64, sends: nat) returns (delivered: seq<Event>, last: uint64)
    ensures delivered == Take(caughtUp, sends) && last == Cursor(cursor, delivered)
  {
    delivered, last := [], cursor;
    for i := 0 to |caughtUp|
      invariant delivered == caughtUp[..i] && |delivered| <= sends && last == Cursor(cursor, delivered)
    {
      if |delivered| == sends {
        return;
      }
      delivered, last := delivered + [caughtUp[i]], caughtUp[i].seqNo;
    }
  }

  lemma SinceFirst(es: seq<Event>, cursor: int)
    requires es != [] && es[0].seqNo > cursor
    ensures Since(es, cursor) != []
  {
    SinceConcat([es[0]], es[1..], cursor);
    assert es == [es[0]] + es[1..];
    SinceSnoc([], es[0], cursor);
    assert [] + [es[0]] == [es[0]];
  }

  /** The live loop of the stream: what is not new is skipped. */
  method DeliverLive(received: seq<Event>, cursor: uint64, sends: nat) returns (delivered: seq<Event>, last: uint64)
    requires Increasing(received)
    ensures delivered == Take(Since(received, cursor), sends) && last == Cursor(cursor, delivered)
  {
    hide Since;
    SinceNone([], cursor);
    delivered, last := [], cursor;
    for i := 0 to |received|
      invariant delivered == Since(received[..i], cursor) && |delivered| <= sends
      invariant last == Cursor(cursor, delivered) && cursor <= last
      invariant last == cursor || (i > 0 && last <= received[i - 1].seqNo)
    {
      var e := received[i];
      SinceSnoc(received[..i], e, cursor);
      assert received[..i + 1] == received[..i] + [e];
      assert i > 0 ==> received[i - 1].seqNo < e.seqNo;
      if e.seqNo > last {
        if |delivered| == sends {
          SinceConcat(received[..i], received[i..], cursor);
          assert received == received[..i] + received[i..];
          SinceFirst(received[i..], cursor);
          return;
        }
        delivered, last := delivered + [e], e.seqNo;
      }
    }
    assert received[..|received|] == received;
  }

  /** The delivery loop of the stream: the catch-up events, then whatever the channel gives. */
  method Deliver(caughtUp: seq<Event>, received: seq<Event>, cursor: uint64, sends: nat) returns (delivered: seq<Event>, last: uint64)
    requires Increasing(received)
    ensures delivered == Take(caughtUp + Since(received, Cursor(cursor, caughtUp)), sends) && last == Cursor(cursor, delivered)
  {
    hide Since;
    delivered, last := DeliverOld(caughtUp, cursor, sends);
    if |delivered| == |caughtUp| {
      var more, end := DeliverLive(received, last, sends - |caughtUp|);
      delivered, last := delivered + more, end;
    }
  }

  /** `d` is a contiguous run of the published events, starting right after the cursor. */
  ghost predicate Run(published: seq<Event>, cursor: uint64, d: seq<Event>) {
    d <= Since(published, cursor)
  }

  /** A run begins right after the cursor and leaves nothing out. */
  lemma RunLaw(published: seq<Event>, cursor: uint64, d: seq<Event>) returns (k: nat)
    requires Increasing(published) && Run(published, cursor, d)
    ensures k + |d| <= |published| && d == published[k..k + |d|]
    ensures forall i :: 0 <= i < k ==> published[i].seqNo <= cursor
    ensures forall i :: k <= i < |published| ==> published[i].seqNo > cursor
  {
    k := SinceSuffix(published, cursor);
    assert d == published[k..][..|d|];
  }

  lemma {:induction false} CursorSince(es: seq<Event>, cursor: uint64)
    requires Increasing(es)
    ensures Cursor(cursor, Since(es, cursor)) >= cursor
    ensures forall e :: e in es ==> e.seqNo <= Cursor(cursor, Since(es, cursor))
  {
    var k := SinceSuffix(es, cursor);
  }

  /** What is published later is after the cursor exactly if it is after everything caught up with. */
  lemma SameSince(published: seq<Event>, more: seq<Event>, cursor: uint64)
    requires Increasing(published + more)
    ensures Since(more, cursor) == Since(more, Cursor(cursor, Since(published, cursor)))
  {
    var h := published + more;
    assert forall i :: 0 <= i < |published| ==> h[i] == published[i];
    assert Increasing(published);
    var k := SinceSuffix(published, cursor);
    if k < |published| {
      forall e | e in more ensures e.seqNo > published[|published| - 1].seqNo {
        var i :| 0 <= i < |more| && more[i] == e;
        assert h[|published| - 1].seqNo < h[|published| + i].seqNo;
      }
      SinceAll(more, cursor);
      SinceAll(more, published[|published| - 1].seqNo);
    }
  }

  /** One session: the catch-up events and then the events the channel was given, which were published
      right after the subscription. */
  lemma SessionRun(published: seq<Event>, more: seq<Event>, received: seq<Event>, cursor: uint64, sends: nat)
    requires Increasing(published + more) && received <= more
    ensures var caughtUp := Since(published, cursor);
            Run(published + more, cursor, Take(caughtUp + Since(received, Cursor(cursor, caughtUp)), sends))
  {
    hide Since;
    var caughtUp := Since(published, cursor);
    var c := Cursor(cursor, caughtUp);
    IncreasingPrefix(published, published + more);
    CursorSince(published, cursor);
    SinceConcat(published, more, cursor);
    SameSince(published, more, cursor);
    assert more == received + more[|received|..];
    SinceConcat(received, more[|received|..], c);
  }

  /** A later history shows the same run. */
  lemma RunLater(published: seq<Event>, later: seq<Event>, cursor: uint64, d: seq<Event>)
    requires published <= later && Run(published, cursor, d)
    ensures Run(later, cursor, d)
  {
    assert later == published + later[|published|..];
    SinceConcat(published, later[|published|..], cursor);
  }

  /** Reconnecting at the last delivered event continues the run without a gap or a duplicate. */
  lemma RunResumed(published: seq<Event>, cursor: uint64, d: seq<Event>, next: seq<Event>)
    requires Increasing(published) && Run(published, cursor, d) && Run(published, Cursor(cursor, d), next)
    ensures Run(published, cursor, d + next)
  {
    hide Since;
    var k := SinceSuffix(published, cursor);
    if d != [] {
      var m := SinceSuffix(published, Cursor(cursor, d));
      var n := k + |d|;
      assert d[|d| - 1] == published[k..][|d| - 1] == published[n - 1];
      assert n < |published| ==> published[n - 1].seqNo < published[n].seqNo;
      assert m == n;
      assert published[k..][..|d|] + published[m..] == published[k..];
    } else {
      assert d + next == next;
    }
  }

  lemma RunIncreasing(published: seq<Event>, cursor: uint64, d: seq<Event>)
    requires Increasing(published) && Run(published, cursor, d)
    ensures Increasing(d) && forall e :: e in d ==> e.seqNo > cursor
  {
    var k := SinceSuffix(published, cursor);
    assert forall i :: 0 <= i < |d| ==> d[i] == published[k + i];
  }
}
