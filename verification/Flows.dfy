/** The stream as a state machine, and what a client of it is shown over a whole run. */
module Flows {
  import opened Wrappers
  import opened Model
  import opened Stream
  import opened Redaction

  /** The ring, the events published so far (up to redaction), and the subscribers: for each channel what had been
      published when it was made and what has been taken from it. `stalled` says that the newest event will never be
      offered, because compaction failed right after it. `drift` is by how much the byte counter of the ring exceeds the sizes of
      its entries, because an event may be smaller when it is copied than when it is measured. */
  datatype Flow = Flow(
    ring: seq<Event>, published: seq<Event>, joined: map<nat, nat>, taken: map<nat, seq<Event>>,
    chans: map<nat, Channel>, subs: set<nat>, stalled: bool, drift: int)

  datatype Setup = Setup(codec: Codec, opts: Options)

  /* ---- the channels ---- */

  lemma RedactedRing(sensitive: Policy, ring: seq<Event>, published: seq<Event>)
    requires IsSuffix(Plains(ring), published)
    ensures IsSuffix(Plains(RedactRing(sensitive, ring)), published)
  {
    hide RedactEvent, EventExposed, Plain;
    forall i | 0 <= i < |ring| ensures Plain(RedactEvent(sensitive, ring[i])) == Plain(ring[i]) {
      EventRedacted(sensitive, ring[i]);
    }
    assert Plains(RedactRing(sensitive, ring)) == Plains(ring);
  }

  ghost predicate RingExposed(sensitive: Policy, ring: seq<Event>) {
    exists k :: 0 <= k < |ring| && EventExposed(sensitive, ring[k])
  }

  lemma RingUntouched(c: Codec, o: Options, sensitive: Policy, ring: seq<Event>)
    requires WithinBounds(c, o, ring)
    ensures !RingExposed(sensitive, ring) ==> RedactRing(sensitive, ring) == ring && Trim(c, o, ring) == ring
  {
    hide RedactEvent, EventExposed;
    if !RingExposed(sensitive, ring) {
      forall i | 0 <= i < |ring| ensures RedactEvent(sensitive, ring[i]) == ring[i] {
        EventRedacted(sensitive, ring[i]);
      }
      assert RedactRing(sensitive, ring) == ring;
    }
  }

  lemma SuffixSnoc(ring: seq<Event>, published: seq<Event>, e: Event)
    requires IsSuffix(Plains(ring), published)
    ensures IsSuffix(Plains(ring + [e]), published + [Plain(e)])
  {
    assert Plains(ring + [e]) == Plains(ring) + [Plain(e)];
  }

  lemma SuffixTrimmed(c: Codec, o: Options, ring: seq<Event>, published: seq<Event>)
    requires o.maxCatchUpEvents >= 0 && o.maxCatchUpBytes >= 0 && IsSuffix(Plains(ring), published)
    ensures IsSuffix(Plains(Trim(c, o, ring)), published)
  {
    TrimLongest(c, o, ring, 0);
    var t := Trim(c, o, ring);
    assert Plains(t) == Plains(ring)[|ring| - |t|..];
  }

  /** What a channel has ever been given is what was published from its subscription on. */
  ghost predicate Follows(published: seq<Event>, joined: nat, taken: seq<Event>, ch: Channel, backlog: int) {
    var n := |taken| + |ch.buffer|;
    && joined + n <= |published|
    && Plains(taken + ch.buffer) == published[joined..joined + n]
    && |ch.buffer| <= backlog
  }

  /** It has been given everything but what is not yet offered. */
  ghost predicate UpToDate(published: seq<Event>, behind: bool, stalled: bool, joined: nat, taken: seq<Event>, ch: Channel) {
    && ch.open
    && var n := joined + |taken| + |ch.buffer|;
       if behind then n == |published| - 1 else n == |published| || (stalled && n == |published| - 1)
  }

  lemma FollowsLater(published: seq<Event>, e: Event, joined: nat, taken: seq<Event>, ch: Channel, backlog: int)
    requires Follows(published, joined, taken, ch, backlog)
    ensures Follows(published + [e], joined, taken, ch, backlog)
    ensures UpToDate(published, false, false, joined, taken, ch) ==> UpToDate(published + [e], true, false, joined, taken, ch)
  {
    var n := |taken| + |ch.buffer|;
    assert (published + [e])[joined..joined + n] == published[joined..joined + n];
  }

  /** A channel that was up to date is given the newest event. */
  lemma GivenNext(taken: seq<Event>, buffer: seq<Event>, e: Event, published: seq<Event>, joined: nat)
    requires published != [] && published[|published| - 1] == Plain(e)
    requires joined + |taken| + |buffer| == |published| - 1
    requires Plains(taken + buffer) == published[joined..|published| - 1]
    ensures Plains(taken + (buffer + [e])) == published[joined..|published|]
  {
    assert taken + (buffer + [e]) == (taken + buffer) + [e];
    assert Plains((taken + buffer) + [e]) == Plains(taken + buffer) + [Plain(e)];
    assert published[joined..|published|] == published[joined..|published| - 1] + [published[|published| - 1]];
  }

  lemma OfferFollows(published: seq<Event>, stalled: bool, joined: nat, taken: seq<Event>, ch: Channel, e: Event, backlog: int, live: bool)
    requires published != [] && published[|published| - 1] == Plain(e) && Follows(published, joined, taken, ch, backlog)
    requires live ==> UpToDate(published, true, stalled, joined, taken, ch)
    ensures Follows(published, joined, taken, if live then Offer(ch, e, backlog) else ch, backlog)
    ensures live && |ch.buffer| < backlog ==> UpToDate(published, false, stalled, joined, taken, Offer(ch, e, backlog))
  {
    if live && |ch.buffer| < backlog {
      GivenNext(taken, ch.buffer, e, published, joined);
    }
  }

  lemma ClosedFollows(published: seq<Event>, joined: nat, taken: seq<Event>, ch: Channel, backlog: int)
    requires Follows(published, joined, taken, ch, backlog)
    ensures Follows(published, joined, taken, ch.(open := false), backlog)
  {
  }

  lemma NewFollows(published: seq<Event>, backlog: int)
    requires backlog >= 0
    ensures Follows(published, |published|, [], Channel([], true), backlog)
  {
  }

  lemma TakeFollows(published: seq<Event>, behind: bool, stalled: bool, joined: nat, taken: seq<Event>, ch: Channel, backlog: int)
    requires Follows(published, joined, taken, ch, backlog) && ch.buffer != []
    ensures var next := Channel(ch.buffer[1..], ch.open);
            && Follows(published, joined, taken + [ch.buffer[0]], next, backlog)
            && (UpToDate(published, behind, stalled, joined, taken, ch) ==>
                  UpToDate(published, behind, stalled, joined, taken + [ch.buffer[0]], next))
  {
    assert taken + ch.buffer == (taken + [ch.buffer[0]]) + ch.buffer[1..];
  }

  lemma TakenPart(published: seq<Event>, joined: nat, taken: seq<Event>, ch: Channel, backlog: int)
    requires Follows(published, joined, taken, ch, backlog)
    ensures joined <= |published| && Plains(taken) <= published[joined..]
  {
    var n := |taken| + |ch.buffer|;
    assert Plains(taken) == Plains(taken + ch.buffer)[..|taken|];
    assert published[joined..joined + n] == published[joined..][..n];
  }

  lemma PlainCursor(es: seq<Event>, cursor: uint64)
    ensures Cursor(cursor, Plains(es)) == Cursor(cursor, es)
  {
  }

  lemma PlainTake(es: seq<Event>, fs: seq<Event>, n: nat)
    ensures Plains(Take(es + fs, n)) == Take(Plains(es) + Plains(fs), n)
  {
  }

  /* ---- the steps of the stream ---- */

  /** Every subscriber has been sent the event, or has been closed and dropped because its channel was full. */
  ghost predicate IsOffered(subs: set<nat>, chans: map<nat, Channel>, e: Event, backlog: int, subs': set<nat>, chans': map<nat, Channel>) {
    && chans'.Keys == chans.Keys
    && (forall k :: k in chans ==> chans'[k] == if k in subs then Offer(chans[k], e, backlog) else chans[k])
    && subs' == set k | k in subs && k in chans && |chans[k].buffer| < backlog
  }

  /** The bounds that the trimming loop keeps when its counter is too high by `drift`. */
  function Lowered(o: Options, drift: int): Options {
    o.(maxCatchUpBytes := o.maxCatchUpBytes - drift)
  }

  /** The event joins the ring; with the size it is measured at the drift changes, and while it does not exceed the bound the
      oldest entries leave until the counter is within it. */
  ghost predicate RingTakes(g: Setup, f: Flow, e: Event, ring: seq<Event>, drift: int) {
    && f.drift - |g.codec.encode(e)| <= drift <= g.opts.maxCatchUpBytes
    && ring == Trim(g.codec, Lowered(g.opts, drift), f.ring + [e])
  }

  /** This is what the loop does with its counter. */
  lemma RingCounted(g: Setup, f: Flow, e: Event, size: nat)
    requires g.opts.Positive()
    ensures var drift := f.drift + size - |g.codec.encode(e)|;
            var r := Counted(g.codec, g.opts, f.ring + [e], RingBytes(g.codec, f.ring) + f.drift + size);
            && (r.Some? <==> drift <= g.opts.maxCatchUpBytes)
            && (r.Some? ==> RingTakes(g, f, e, r.value.0, drift) && r.value.1 == RingBytes(g.codec, r.value.0) + drift)
  {
    hide Counted, RingBytes, Trim;
    RingBytesSnoc(g.codec, f.ring, e);
    CountedTrims(g.codec, g.opts, f.ring + [e], f.drift + size - |g.codec.encode(e)|);
  }

  /** An event newer than all before is taken in and offered to every subscriber. */
  ghost predicate AppendStep(g: Setup, f: Flow, e: Event, f': Flow) {
    && !f.stalled && (forall x :: x in f.published ==> x.seqNo < e.seqNo) && RingTakes(g, f, e, f'.ring, f'.drift)
    && f' == f.(ring := f'.ring, drift := f'.drift, published := f.published + [Plain(e)], chans := f'.chans, subs := f'.subs)
    && IsOffered(f.subs, f.chans, e, g.opts.subscriberBacklog, f'.subs, f'.chans)
  }

  /** An event is taken in, and the compaction that follows fails before it is offered. */
  ghost predicate StallStep(g: Setup, f: Flow, e: Event, f': Flow) {
    && !f.stalled && (forall x :: x in f.published ==> x.seqNo < e.seqNo) && RingTakes(g, f, e, f'.ring, f'.drift)
    && f' == f.(ring := f'.ring, drift := f'.drift, published := f.published + [Plain(e)], stalled := true)
  }

  /** The ring is redacted and counted again, which is only left out when nothing was exposed. */
  ghost predicate RedactStep(g: Setup, f: Flow, p: Policy, f': Flow) {
    || f' == f.(ring := Trim(g.codec, g.opts, RedactRing(p, f.ring)), drift := 0)
    || (f' == f && !RingExposed(p, f.ring))
  }

  /** Somebody subscribes and gets a new channel. */
  ghost predicate JoinStep(f: Flow, k: nat, f': Flow) {
    && k !in f.chans
    && f' == f.(chans := f.chans[k := Channel([], true)], subs := f.subs + {k}, joined := f.joined[k := |f.published|], taken := f.taken[k := []])
  }

  /** Somebody takes the next event from a channel. */
  ghost predicate TakeStep(f: Flow, k: nat, f': Flow) {
    && k in f.chans && k in f.taken && f.chans[k].buffer != []
    && f' == f.(chans := f.chans[k := f.chans[k].(buffer := f.chans[k].buffer[1..])], taken := f.taken[k := f.taken[k] + [f.chans[k].buffer[0]]])
  }

  /** Subscribers leave, one that cancels or all when the store is closed; their channels are closed. */
  ghost predicate LeaveStep(f: Flow, gone: set<nat>, f': Flow) {
    && f' == f.(subs := f.subs - gone, chans := f'.chans) && f'.chans.Keys == f.chans.Keys
    && forall k :: k in f.chans ==> f'.chans[k] == if k in gone && k in f.subs then f.chans[k].(open := false) else f.chans[k]
  }

  ghost predicate FlowNext(g: Setup, f: Flow, f': Flow) {
    || (exists e :: AppendStep(g, f, e, f'))
    || (exists e :: StallStep(g, f, e, f'))
    || (exists p :: RedactStep(g, f, p, f'))
    || (exists k :: JoinStep(f, k, f'))
    || (exists k :: TakeStep(f, k, f'))
    || (exists gone :: LeaveStep(f, gone, f'))
  }

  ghost predicate FlowPath(g: Setup, b: seq<Flow>, f: Flow, f': Flow) {
    && b != [] && b[0] == f && b[|b| - 1] == f'
    && (forall i :: 0 < i < |b| ==> FlowNext(g, b[i - 1], b[i]))
  }

  /** Zero or more steps. */
  ghost predicate FlowReaches(g: Setup, f: Flow, f': Flow) {
    exists b :: FlowPath(g, b, f, f')
  }

  lemma FlowSelf(g: Setup, f: Flow)
    ensures FlowReaches(g, f, f)
  {
    assert FlowPath(g, [f], f, f);
  }

  lemma FlowStep(g: Setup, f: Flow, f': Flow)
    requires FlowNext(g, f, f')
    ensures FlowReaches(g, f, f')
  {
    hide FlowNext;
    assert FlowPath(g, [f, f'], f, f');
  }

  lemma FlowTrans(g: Setup, f: Flow, h: Flow, f': Flow)
    requires FlowReaches(g, f, h) && FlowReaches(g, h, f')
    ensures FlowReaches(g, f, f')
  {
    hide FlowNext;
    var b :| FlowPath(g, b, f, h);
    var d :| FlowPath(g, d, h, f');
    var p := b + d[1..];
    forall i | 0 < i < |p| ensures FlowNext(g, p[i - 1], p[i]) {
      if i >= |b| {
        assert p[i] == d[i - |b| + 1];
        assert p[i - 1] == d[i - |b|];
      }
    }
    assert FlowPath(g, p, f, f');
  }

  /** What an operation of the store does to the stream: nothing published is taken back, every subscription goes on, and if
      `sure`, the stream has taken steps. */
  ghost predicate Carries(g: Setup, f: Flow, f': Flow, sure: bool) {
    && f.published <= f'.published && f'.joined == f.joined && f'.taken == f.taken
    && (sure ==> FlowReaches(g, f, f'))
  }

  lemma CarriesSelf(g: Setup, f: Flow, sure: bool)
    ensures Carries(g, f, f, sure)
  {
    hide FlowReaches;
    FlowSelf(g, f);
  }

  lemma CarriesTrans(g: Setup, f: Flow, h: Flow, f': Flow, first: bool, second: bool)
    requires Carries(g, f, h, first) && Carries(g, h, f', second) && (second ==> first)
    ensures Carries(g, f, f', second)
  {
    hide FlowReaches;
    if second {
      FlowTrans(g, f, h, f');
    }
  }

  /** Taking in an event is one step, whether it is offered or not. */
  lemma CarriesAppend(g: Setup, f: Flow, e: Event, f': Flow, sure: bool)
    requires f'.published == f.published + [Plain(e)] && f'.ring == Trim(g.codec, g.opts, f.ring + [e])
    requires f.drift == f'.drift == 0 && g.opts.Positive()
    requires f'.joined == f.joined && f'.taken == f.taken && !f.stalled
    requires if f'.stalled then f'.subs == f.subs && f'.chans == f.chans
             else IsOffered(f.subs, f.chans, e, g.opts.subscriberBacklog, f'.subs, f'.chans)
    requires sure ==> forall x :: x in f.published ==> x.seqNo < e.seqNo
    ensures Carries(g, f, f', sure)
  {
    hide IsOffered, Trim;
    assert Lowered(g.opts, 0) == g.opts;
    if sure {
      if f'.stalled {
        assert StallStep(g, f, e, f');
      } else {
        assert AppendStep(g, f, e, f');
      }
      hide AppendStep, StallStep;
      assert FlowNext(g, f, f');
      hide FlowNext;
      FlowStep(g, f, f');
    }
  }

  lemma CarriesRedact(g: Setup, f: Flow, p: Policy, f': Flow, sure: bool)
    requires RedactStep(g, f, p, f')
    ensures Carries(g, f, f', sure)
  {
    assert FlowNext(g, f, f');
    hide FlowNext, FlowReaches;
    FlowStep(g, f, f');
  }

  /* ---- the invariant of the stream ---- */

  ghost predicate ChannelValid(g: Setup, f: Flow, k: nat)
    requires k in f.chans && k in f.joined && k in f.taken
  {
    && Follows(f.published, f.joined[k], f.taken[k], f.chans[k], g.opts.subscriberBacklog)
    && (k in f.subs ==> UpToDate(f.published, false, f.stalled, f.joined[k], f.taken[k], f.chans[k]))
  }

  ghost predicate FlowValid(g: Setup, f: Flow) {
    && g.opts.Positive() && IsSuffix(Plains(f.ring), f.published) && Increasing(f.published)
    && f.subs <= f.chans.Keys && f.chans.Keys == f.joined.Keys == f.taken.Keys
    && forall k :: k in f.chans ==> ChannelValid(g, f, k)
  }

  /** What every step does for a channel that exists: history is only added to. */
  ghost predicate Grows(f: Flow, f': Flow) {
    && f.published <= f'.published
    && (forall k :: k in f.chans && k in f.joined && k in f.taken ==>
                      k in f'.chans && k in f'.joined && k in f'.taken && f'.joined[k] == f.joined[k] && f.taken[k] <= f'.taken[k])
  }

  lemma NotStalled(published: seq<Event>, joined: nat, taken: seq<Event>, ch: Channel)
    ensures UpToDate(published, false, false, joined, taken, ch) ==> UpToDate(published, false, true, joined, taken, ch)
  {
  }

  /** The ring and the published events after one more. */
  lemma PublishedMore(g: Setup, f: Flow, e: Event, ring: seq<Event>, drift: int)
    requires FlowValid(g, f) && (forall x :: x in f.published ==> x.seqNo < e.seqNo) && RingTakes(g, f, e, ring, drift)
    ensures IsSuffix(Plains(ring), f.published + [Plain(e)]) && Increasing(f.published + [Plain(e)])
  {
    hide ChannelValid, Trim, Plains;
    SuffixSnoc(f.ring, f.published, e);
    SuffixTrimmed(g.codec, Lowered(g.opts, drift), f.ring + [e], f.published + [Plain(e)]);
  }

  lemma AppendKept(g: Setup, f: Flow, e: Event, f': Flow)
    requires FlowValid(g, f) && AppendStep(g, f, e, f')
    ensures FlowValid(g, f') && Grows(f, f')
  {
    hide Follows, UpToDate, Trim, Plains;
    PublishedMore(g, f, e, f'.ring, f'.drift);
    forall k | k in f'.chans ensures ChannelValid(g, f', k) {
      assert ChannelValid(g, f, k);
      FollowsLater(f.published, Plain(e), f.joined[k], f.taken[k], f.chans[k], g.opts.subscriberBacklog);
      NotStalled(f.published, f.joined[k], f.taken[k], f.chans[k]);
      OfferFollows(f'.published, false, f.joined[k], f.taken[k], f.chans[k], e, g.opts.subscriberBacklog, k in f.subs);
    }
  }

  lemma StallKept(g: Setup, f: Flow, e: Event, f': Flow)
    requires FlowValid(g, f) && StallStep(g, f, e, f')
    ensures FlowValid(g, f') && Grows(f, f')
  {
    hide Follows, Trim, Plains;
    PublishedMore(g, f, e, f'.ring, f'.drift);
    forall k | k in f'.chans ensures ChannelValid(g, f', k) {
      assert ChannelValid(g, f, k);
      FollowsLater(f.published, Plain(e), f.joined[k], f.taken[k], f.chans[k], g.opts.subscriberBacklog);
    }
  }

  lemma RedactKept(g: Setup, f: Flow, p: Policy, f': Flow)
    requires FlowValid(g, f) && RedactStep(g, f, p, f')
    ensures FlowValid(g, f') && Grows(f, f')
  {
    hide Follows, UpToDate, Trim, Plains, RedactRing, Increasing;
    RedactedRing(p, f.ring, f.published);
    SuffixTrimmed(g.codec, g.opts, RedactRing(p, f.ring), f.published);
    forall k | k in f'.chans ensures ChannelValid(g, f', k) {
      assert ChannelValid(g, f, k);
    }
  }

  lemma JoinKept(g: Setup, f: Flow, k: nat, f': Flow)
    requires FlowValid(g, f) && JoinStep(f, k, f')
    ensures FlowValid(g, f') && Grows(f, f')
  {
    hide Follows, Trim, Plains, Increasing, IsSuffix;
    NewFollows(f.published, g.opts.subscriberBacklog);
    forall q | q in f'.chans ensures ChannelValid(g, f', q) {
      if q != k {
        assert ChannelValid(g, f, q);
      }
    }
  }

  lemma TakeKept(g: Setup, f: Flow, k: nat, f': Flow)
    requires FlowValid(g, f) && TakeStep(f, k, f')
    ensures FlowValid(g, f') && Grows(f, f')
  {
    hide Follows, UpToDate, Trim, Plains, Increasing, IsSuffix;
    assert ChannelValid(g, f, k);
    TakeFollows(f.published, false, f.stalled, f.joined[k], f.taken[k], f.chans[k], g.opts.subscriberBacklog);
    forall q | q in f'.chans ensures ChannelValid(g, f', q) {
      if q != k {
        assert ChannelValid(g, f, q);
      }
    }
  }

  lemma LeaveKept(g: Setup, f: Flow, gone: set<nat>, f': Flow)
    requires FlowValid(g, f) && LeaveStep(f, gone, f')
    ensures FlowValid(g, f') && Grows(f, f')
  {
    hide Follows, UpToDate, Trim, Plains, Increasing, IsSuffix;
    forall k | k in f'.chans ensures ChannelValid(g, f', k) {
      assert ChannelValid(g, f, k);
      ClosedFollows(f.published, f.joined[k], f.taken[k], f.chans[k], g.opts.subscriberBacklog);
    }
  }

  lemma FlowKept(g: Setup, f: Flow, f': Flow)
    requires FlowValid(g, f) && FlowNext(g, f, f')
    ensures FlowValid(g, f') && Grows(f, f')
  {
    hide FlowValid, Grows, AppendStep, StallStep, RedactStep, JoinStep, TakeStep, LeaveStep;
    if e :| AppendStep(g, f, e, f') {
      AppendKept(g, f, e, f');
    } else if e :| StallStep(g, f, e, f') {
      StallKept(g, f, e, f');
    } else if p :| RedactStep(g, f, p, f') {
      RedactKept(g, f, p, f');
    } else if k :| JoinStep(f, k, f') {
      JoinKept(g, f, k, f');
    } else if k :| TakeStep(f, k, f') {
      TakeKept(g, f, k, f');
    } else {
      var gone :| LeaveStep(f, gone, f');
      LeaveKept(g, f, gone, f');
    }
  }

  /* ---- the ring stays filled ---- */

  /** Something published is always still in the ring. */
  predicate Filled(f: Flow) {
    f.published != [] ==> f.ring != []
  }

  /** Every event that the step leaves as the newest of the ring fits the byte bound, lowered by the drift: the event that is taken
      in, or, since redaction may make an entry longer, the newest entry as it is redacted. */
  ghost predicate Fitting(g: Setup, f: Flow, f': Flow) {
    && (forall e :: AppendStep(g, f, e, f') || StallStep(g, f, e, f') ==> |g.codec.encode(e)| <= g.opts.maxCatchUpBytes - f'.drift)
    && (forall p :: RedactStep(g, f, p, f') && f.ring != [] && f' != f ==>
                      |g.codec.encode(RedactEvent(p, f.ring[|f.ring| - 1]))| <= g.opts.maxCatchUpBytes)
  }

  lemma Positive(g: Setup, f: Flow)
    requires FlowValid(g, f)
    ensures g.opts.Positive()
  {
  }

  lemma OthersFilled(g: Setup, f: Flow, f': Flow)
    requires (exists k :: JoinStep(f, k, f')) || (exists k :: TakeStep(f, k, f')) || (exists gone :: LeaveStep(f, gone, f'))
    ensures f'.ring == f.ring && f'.published == f.published
  {
  }

  lemma LastRedacted(p: Policy, ring: seq<Event>)
    requires ring != []
    ensures RedactRing(p, ring) == RedactRing(p, ring[..|ring| - 1]) + [RedactEvent(p, ring[|ring| - 1])]
  {
    hide RedactEvent;
  }

  /** As long as every event fits the byte bound, lowered by the drift, the ring never runs empty. */
  lemma FilledKept(g: Setup, f: Flow, f': Flow)
    requires FlowValid(g, f) && Filled(f) && FlowNext(g, f, f') && Fitting(g, f, f')
    ensures Filled(f')
  {
    hide FlowValid, Trim, JoinStep, TakeStep, LeaveStep, IsOffered, RedactRing;
    if e :| AppendStep(g, f, e, f') || StallStep(g, f, e, f') {
      Positive(g, f);
      TrimKeepsLast(g.codec, Lowered(g.opts, f'.drift), f.ring, e);
    } else if p :| RedactStep(g, f, p, f') {
      Positive(g, f);
      if f.ring != [] && f' != f {
        LastRedacted(p, f.ring);
        TrimKeepsLast(g.codec, g.opts, RedactRing(p, f.ring[..|f.ring| - 1]), RedactEvent(p, f.ring[|f.ring| - 1]));
      }
    } else {
      OthersFilled(g, f, f');
    }
  }

  /* ---- a client ---- */

  /** A subscription of the client: its channel, the events it was given to catch up with, the cursor it
      subscribed with, and what has been sent to it. */
  datatype Session = Session(k: nat, caughtUp: seq<Event>, since: uint64, delivered: seq<Event>)

  /** The stream and one client, which started with the cursor `first` and was shown `before` in earlier sessions. */
  datatype World = World(flow: Flow, first: uint64, before: seq<Event>, session: Option<Session>)

  /** Everything the client has been shown. */
  function Shown(w: World): seq<Event> {
    w.before + if w.session.Some? then w.session.value.delivered else []
  }

  /** What the delivery loop sends in a session, as far as events have been taken from the channel. */
  function Sendable(f: Flow, s: Session): seq<Event> {
    s.caughtUp + if s.k in f.taken then Since(f.taken[s.k], Cursor(s.since, s.caughtUp)) else []
  }

  /** The client connects with the last sequence number it has been shown, and is not refused. */
  ghost predicate ConnectStep(w: World, k: nat, w': World) {
    && w.session.None? && !Refused(w.flow.ring, Cursor(w.first, w.before)) && JoinStep(w.flow, k, w'.flow)
    && var cursor := Cursor(w.first, w.before);
       w' == World(w'.flow, w.first, w.before, Some(Session(k, Since(w.flow.ring, cursor), cursor, [])))
  }

  /** The next event is sent to the client. */
  ghost predicate SendStep(w: World, w': World) {
    && w.session.Some?
    && var s := w.session.value;
       && |s.delivered| < |Sendable(w.flow, s)|
       && w' == w.(session := Some(s.(delivered := Sendable(w.flow, s)[..|s.delivered| + 1])))
  }

  /** The connection ends, for whatever reason. */
  ghost predicate DisconnectStep(w: World, w': World) {
    w.session.Some? && w' == w.(before := Shown(w), session := None)
  }

  ghost predicate Next(g: Setup, w: World, w': World) {
    || (FlowNext(g, w.flow, w'.flow) && w' == w.(flow := w'.flow))
    || (exists k :: ConnectStep(w, k, w'))
    || SendStep(w, w')
    || DisconnectStep(w, w')
  }

  /** The stream right after the store was opened, and a client that has not connected yet. */
  ghost predicate Init(g: Setup, w: World) {
    FlowValid(g, w.flow) && Filled(w.flow) && w.before == [] && w.session.None?
  }

  ghost predicate IsBehavior(g: Setup, b: seq<World>) {
    && b != [] && Init(g, b[0])
    && (forall i :: 0 < i < |b| ==> Next(g, b[i - 1], b[i]) && Fitting(g, b[i - 1].flow, b[i].flow))
  }

  ghost predicate SessionValid(w: World, s: Session) {
    && s.k in w.flow.chans && s.k in w.flow.joined && s.k in w.flow.taken
    && w.flow.joined[s.k] <= |w.flow.published|
    && s.since == Cursor(w.first, w.before)
    && Plains(s.caughtUp) == Since(w.flow.published[..w.flow.joined[s.k]], s.since)
    && s.delivered <= Sendable(w.flow, s)
  }

  ghost predicate Inv(g: Setup, w: World) {
    && FlowValid(g, w.flow) && Filled(w.flow)
    && Run(w.flow.published, w.first, Plains(w.before))
    && (w.session.Some? ==> SessionValid(w, w.session.value))
  }

  lemma InitInv(g: Setup, w: World)
    requires Init(g, w)
    ensures Inv(g, w)
  {
    assert Plains([]) == [];
  }

  lemma SessionMoved(w: World, w': World, s: Session)
    requires SessionValid(w, s) && Grows(w.flow, w'.flow) && w' == w.(flow := w'.flow)
    ensures SessionValid(w', s)
  {
    hide Since;
    var j := w.flow.joined[s.k];
    assert w'.flow.published[..j] == w.flow.published[..j];
    var was, now := w.flow.taken[s.k], w'.flow.taken[s.k];
    assert now == was + now[|was|..];
    SinceConcat(was, now[|was|..], Cursor(s.since, s.caughtUp));
  }

  /** The stream moves on under the client. */
  lemma MoveKept(g: Setup, w: World, w': World)
    requires Inv(g, w) && FlowNext(g, w.flow, w'.flow) && Fitting(g, w.flow, w'.flow) && w' == w.(flow := w'.flow)
    ensures Inv(g, w')
  {
    hide FlowValid, FlowNext, Fitting, Filled, Since, Run, Plains;
    FlowKept(g, w.flow, w'.flow);
    FilledKept(g, w.flow, w'.flow);
    RunLater(w.flow.published, w'.flow.published, w.first, Plains(w.before));
    if w.session.Some? {
      SessionMoved(w, w', w.session.value);
    }
  }

  lemma CatchUpPlain(published: seq<Event>, ring: seq<Event>, cursor: uint64)
    requires Increasing(published) && IsSuffix(Plains(ring), published) && !Refused(ring, cursor) && (published != [] ==> ring != [])
    ensures Since(Plains(ring), cursor) == Since(published, cursor)
  {
    hide Since;
    CatchUpExact(published, Plains(ring), cursor);
  }

  /** Connecting catches up with exactly what was published after the last event shown. */
  lemma ConnectKept(g: Setup, w: World, k: nat, w': World)
    requires Inv(g, w) && ConnectStep(w, k, w')
    ensures Inv(g, w')
  {
    hide Since, Run, ChannelValid;
    JoinKept(g, w.flow, k, w'.flow);
    var cursor := Cursor(w.first, w.before);
    SincePlain(w.flow.ring, cursor);
    CatchUpPlain(w.flow.published, w.flow.ring, cursor);
    assert w'.flow.published[..|w.flow.published|] == w.flow.published;
  }

  lemma SendKept(g: Setup, w: World, w': World)
    requires Inv(g, w) && SendStep(w, w')
    ensures Inv(g, w')
  {
    hide FlowValid, Since, Run, Filled;
  }

  lemma PlainConcat(es: seq<Event>, fs: seq<Event>)
    ensures Plains(es + fs) == Plains(es) + Plains(fs)
  {
  }

  /** What the delivery loop sends to a client of a channel is a contiguous run of the published events after its
      cursor, if the catch-up was complete. */
  lemma SessionShown(g: Setup, f: Flow, s: Session)
    requires FlowValid(g, f) && s.k in f.chans && s.delivered <= Sendable(f, s)
    requires f.joined[s.k] <= |f.published| && Plains(s.caughtUp) == Since(f.published[..f.joined[s.k]], s.since)
    ensures Run(f.published, s.since, Plains(s.delivered))
  {
    var j, taken, published := f.joined[s.k], f.taken[s.k], f.published;
    assert ChannelValid(g, f, s.k);
    TakenPart(published, j, taken, f.chans[s.k], g.opts.subscriberBacklog);
    hide Since, Follows, UpToDate, RingBytes, Increasing, ChannelValid;
    var before, more := published[..j], published[j..];
    assert published == before + more;
    var n := |s.delivered|;
    assert s.delivered == Take(Sendable(f, s), n);
    PlainCursor(s.caughtUp, s.since);
    SessionRun(before, more, Plains(taken), s.since, n);
    SincePlain(taken, Cursor(s.since, s.caughtUp));
    PlainTake(s.caughtUp, Since(taken, Cursor(s.since, s.caughtUp)), n);
  }

  /** What a session has sent continues the run of what was shown before. */
  lemma SessionRuns(g: Setup, w: World)
    requires Inv(g, w)
    ensures Run(w.flow.published, w.first, Plains(Shown(w)))
  {
    if w.session.None? {
      assert Shown(w) == w.before;
    } else {
      var s := w.session.value;
      hide Since, Run, Filled, ChannelValid;
      assert ChannelValid(g, w.flow, s.k);
      SessionShown(g, w.flow, s);
      PlainCursor(w.before, w.first);
      PlainConcat(w.before, s.delivered);
      RunResumed(w.flow.published, w.first, Plains(w.before), Plains(s.delivered));
    }
  }

  lemma DisconnectKept(g: Setup, w: World, w': World)
    requires Inv(g, w) && DisconnectStep(w, w')
    ensures Inv(g, w')
  {
    SessionRuns(g, w);
    hide FlowValid, Run, Filled;
  }

  lemma NextKept(g: Setup, w: World, w': World)
    requires Inv(g, w) && Next(g, w, w') && Fitting(g, w.flow, w'.flow)
    ensures Inv(g, w')
  {
    hide Inv, FlowNext, ConnectStep, SendStep, DisconnectStep, Fitting;
    if FlowNext(g, w.flow, w'.flow) && w' == w.(flow := w'.flow) {
      MoveKept(g, w, w');
    } else if k :| ConnectStep(w, k, w') {
      ConnectKept(g, w, k, w');
    } else if SendStep(w, w') {
      SendKept(g, w, w');
    } else {
      DisconnectKept(g, w, w');
    }
  }

  lemma {:induction false} BehaviorInv(g: Setup, b: seq<World>, i: nat)
    requires IsBehavior(g, b) && i < |b|
    ensures Inv(g, b[i]) && b[i].first == b[0].first
    decreases i
  {
    hide Inv, Init, Fitting;
    if i == 0 {
      InitInv(g, b[0]);
    } else {
      BehaviorInv(g, b, i - 1);
      NextKept(g, b[i - 1], b[i]);
      hide FlowNext, JoinStep, Sendable;
    }
  }

  lemma PlainIncreasing(es: seq<Event>, cursor: int)
    requires Increasing(Plains(es)) && forall e :: e in Plains(es) ==> e.seqNo > cursor
    ensures Increasing(es) && forall e :: e in es ==> e.seqNo > cursor
  {
    forall e | e in es ensures e.seqNo > cursor {
      var i :| 0 <= i < |es| && es[i] == e;
      assert Plains(es)[i] in Plains(es);
    }
    forall i, j | 0 <= i < j < |es| ensures es[i].seqNo < es[j].seqNo {
      assert Plains(es)[i].seqNo < Plains(es)[j].seqNo;
    }
  }

  /** These are the published events from position `k` on, which is the first after the cursor. */
  ghost predicate Follow(published: seq<Event>, cursor: uint64, k: nat, d: seq<Event>) {
    && k + |d| <= |published| && d == published[k..k + |d|]
    && (forall i :: 0 <= i < k ==> published[i].seqNo <= cursor) && (forall i :: k <= i < |published| ==> published[i].seqNo > cursor)
  }

  /** The stream is gap-free and duplicate-free over runs: whatever is appended, compacted, redacted, subscribed, taken and
      cancelled by anybody in between, and however often the client is disconnected and connects again with the
      last sequence number it was shown, everything it has been shown is a contiguous, strictly increasing run of the
      published events after its first cursor. */
  lemma StreamExact(g: Setup, b: seq<World>, i: nat)
    requires IsBehavior(g, b) && i < |b|
    ensures Run(b[i].flow.published, b[0].first, Plains(Shown(b[i])))
    ensures exists k: nat :: Follow(b[i].flow.published, b[0].first, k, Plains(Shown(b[i])))
    ensures Increasing(Shown(b[i])) && forall e :: e in Shown(b[i]) ==> e.seqNo > b[0].first
  {
    hide Next, Init, Run;
    BehaviorInv(g, b, i);
    SessionRuns(g, b[i]);
    RunIncreasing(b[i].flow.published, b[0].first, Plains(Shown(b[i])));
    assert Increasing(b[i].flow.published);
    var k := RunLaw(b[i].flow.published, b[0].first, Plains(Shown(b[i])));
    assert Follow(b[i].flow.published, b[0].first, k, Plains(Shown(b[i])));
    PlainIncreasing(Shown(b[i]), b[0].first);
  }

  /** A client without a session is refused, or can connect. */
  lemma ConnectOrRefused(g: Setup, w: World, k: nat) returns (w': World)
    requires w.session.None? && k !in w.flow.chans
    ensures Refused(w.flow.ring, Cursor(w.first, w.before)) || ConnectStep(w, k, w')
  {
    var f, cursor := w.flow, Cursor(w.first, w.before);
    var f' := f.(chans := f.chans[k := Channel([], true)], subs := f.subs + {k}, joined := f.joined[k := |f.published|], taken := f.taken[k := []]);
    w' := World(f', w.first, w.before, Some(Session(k, Since(f.ring, cursor), cursor, [])));
  }

  /** A client that knows everything before the oldest entry of the ring, because its last number is not before the one that the entry
      follows, can connect; so can anybody as long as the ring is empty. Every other client is refused. */
  lemma CanConnect(g: Setup, w: World, k: nat) returns (w': World)
    requires w.session.None? && k !in w.flow.chans
    ensures w.flow.ring == [] || Cursor(w.first, w.before) + 1 >= w.flow.ring[0].seqNo ==> ConnectStep(w, k, w')
    ensures w.flow.ring != [] && Cursor(w.first, w.before) + 1 < w.flow.ring[0].seqNo ==> forall q, v :: !ConnectStep(w, q, v)
  {
    RefusalLaw([], w.flow.ring, Cursor(w.first, w.before));
    hide Refused, Since;
    w' := ConnectOrRefused(g, w, k);
  }

}
