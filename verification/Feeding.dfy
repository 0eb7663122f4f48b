/** The catch-up ring and the subscribers of the store, updated in place. */
module Feeding {
  import opened Wrappers
  import opened Model
  import opened Stream
  import opened Redaction
  import opened Flows

  method Fresh(used: set<nat>) returns (k: nat)
    ensures k !in used
  {
    k := 0;
    ghost var seen: set<nat> := {};
    while k in used
      invariant seen <= used && forall x :: x in seen <==> 0 <= x < k
      decreases used - seen
    {
      seen := seen + {k};
      k := k + 1;
    }
  }

  class Feed {
    const codec: Codec
    const opts: Options

    ghost predicate RingValid()
      reads this`ring, this`ringBytes, this`published
    {
      && IsSuffix(Plains(ring), published)
      && ringBytes == RingBytes(codec, ring) && WithinBounds(codec, opts, ring)
    }

    ghost predicate Valid()
      reads this
    {
      && opts.Positive() && RingValid() && (behind ==> published != [])
      && subs <= chans.Keys && chans.Keys == joined.Keys == taken.Keys
      && forall k :: k in chans ==> Follows(published, joined[k], taken[k], chans[k], opts.subscriberBacklog)
                                    && (k in subs ==> UpToDate(published, behind, stalled, joined[k], taken[k], chans[k]))
    }

    var ring: seq<Event>
    var ringBytes: int
    var subs: set<nat>
    var chans: map<nat, Channel>

    /** Every event applied since the process started, up to redaction. */
    ghost var published: seq<Event>
    /** The newest event has not been offered to the subscribers. */
    ghost var behind: bool
    /** The newest event will never be offered: compaction failed right after it was appended. */
    ghost var stalled: bool
    /** For each channel, how much had been published when it was made, and what has been taken from it. */
    ghost var joined: map<nat, nat>
    ghost var taken: map<nat, seq<Event>>

    constructor (codec: Codec, opts: Options)
      requires opts.Positive()
      ensures this.codec == codec && this.opts == opts && Valid() && !behind && !stalled
      ensures ring == [] && published == [] && subs == {} && chans == map[]
    {
      this.codec, this.opts := codec, opts;
      ring, ringBytes, subs, chans := [], 0, {}, map[];
      published, behind, stalled, joined, taken := [], false, false, map[], map[];
    }

    /** What the stream is at this moment. */
    ghost function State(): Flow
      reads this
    {
      Flow(ring, published, joined, taken, chans, subs, stalled, 0)
    }

    ghost function Setting(): Setup {
      Setup(codec, opts)
    }

    /** The trimming loop of `appendRing` and `recountRingLocked`. */
    method TrimRing()
      requires opts.Positive() && ringBytes == RingBytes(codec, ring)
      modifies this`ring, this`ringBytes
      ensures ring == Trim(codec, opts, old(ring))
      ensures ringBytes == RingBytes(codec, ring) && WithinBounds(codec, opts, ring)
    {
      while |ring| > opts.maxCatchUpEvents || ringBytes > opts.maxCatchUpBytes
        invariant ringBytes == RingBytes(codec, ring)
        invariant Trim(codec, opts, ring) == Trim(codec, opts, old(ring))
        decreases |ring|
      {
        ringBytes := ringBytes - |codec.encode(ring[0])|;
        ring := ring[1..];
      }
    }

    /** `appendRing`: the event joins the ring, and the oldest events leave until both bounds are met. */
    method AppendRing(e: Event)
      requires Valid() && !behind && !stalled
      modifies this`ring, this`ringBytes, this`published, this`behind
      ensures Valid() && behind && !stalled && published == old(published) + [Plain(e)]
      ensures ring == Trim(codec, opts, old(ring) + [e])
      ensures ring != [] <==> |codec.encode(e)| <= opts.maxCatchUpBytes
    {
      hide Trim, RingBytes;
      ghost var whole := ring + [e];
      RingBytesSnoc(codec, ring, e);
      TrimKeepsLast(codec, opts, ring, e);
      SuffixSnoc(ring, published, e);
      ring := ring + [e];
      ringBytes := ringBytes + |codec.encode(e)|;
      TrimRing();
      SuffixTrimmed(codec, opts, whole, published + [Plain(e)]);
      published := published + [Plain(e)];
      behind := true;
      forall k | k in chans
        ensures Follows(published, joined[k], taken[k], chans[k], opts.subscriberBacklog)
      {
        FollowsLater(old(published), Plain(e), joined[k], taken[k], chans[k], opts.subscriberBacklog);
      }
    }

    /** `recountRingLocked`. */
    method Recount()
      requires opts.Positive()
      modifies this`ring, this`ringBytes
      ensures ring == Trim(codec, opts, old(ring))
      ensures ringBytes == RingBytes(codec, ring) && WithinBounds(codec, opts, ring)
    {
      ringBytes := 0;
      for i := 0 to |ring|
        invariant ring == old(ring) && ringBytes == RingBytes(codec, ring[..i])
      {
        RingBytesSnoc(codec, ring[..i], ring[i]);
        assert ring[..i + 1] == ring[..i] + [ring[i]];
        ringBytes := ringBytes + |codec.encode(ring[i])|;
      }
      assert ring[..|ring|] == ring;
      TrimRing();
    }

    method RedactInPlace(sensitive: Policy, already: bool) returns (changed: bool)
      modifies this`ring
      ensures ring == RedactRing(sensitive, old(ring))
      ensures changed <==> already || RingExposed(sensitive, old(ring))
    {
      hide RedactEvent, EventExposed;
      changed := already;
      for i := 0 to |ring|
        invariant |ring| == |old(ring)|
        invariant forall k :: 0 <= k < |ring| ==> ring[k] == if k < i then RedactEvent(sensitive, old(ring)[k]) else old(ring)[k]
        invariant changed <==> already || exists k :: 0 <= k < i && EventExposed(sensitive, old(ring)[k])
      {
        var yes := EventNeedsRedaction(sensitive, ring[i]);
        ring := ring[i := RedactEvent(sensitive, ring[i])];
        changed := changed || yes;
      }
    }

    /** The part of `RedactHeaders` that works on the ring: the sizes are counted again if anything has changed,
        here or (`already`) in the state. */
    method RedactEntries(sensitive: Policy, already: bool) returns (changed: bool)
      requires Valid()
      modifies this`ring, this`ringBytes
      ensures Valid()
      ensures ring == Trim(codec, opts, RedactRing(sensitive, old(ring)))
      ensures RedactStep(Setting(), old(State()), sensitive, State())
      ensures changed <==> already || RingExposed(sensitive, old(ring))
    {
      hide Trim, RingBytes, Follows, UpToDate, RedactEvent, EventExposed;
      changed := RedactInPlace(sensitive, already);
      RedactedRing(sensitive, old(ring), published);
      RingUntouched(codec, opts, sensitive, old(ring));
      if changed {
        Recount();
        SuffixTrimmed(codec, opts, RedactRing(sensitive, old(ring)), published);
      }
    }

    method OfferAll(e: Event)
      requires subs <= chans.Keys
      modifies this`subs, this`chans
      ensures chans.Keys == old(chans).Keys
      ensures forall k :: k in chans ==> chans[k] == if k in old(subs) then Offer(old(chans)[k], e, opts.subscriberBacklog) else old(chans)[k]
      ensures subs == set k | k in old(subs) && |old(chans)[k].buffer| < opts.subscriberBacklog
    {
      var left := subs;
      while left != {}
        invariant left <= old(subs) && subs <= old(subs) && subs <= chans.Keys
        invariant chans.Keys == old(chans).Keys
        invariant forall k :: k in chans ==>
                    chans[k] == if k in old(subs) - left then Offer(old(chans)[k], e, opts.subscriberBacklog) else old(chans)[k]
        invariant forall k :: k in old(subs) ==> (k in subs <==> k in left || |old(chans)[k].buffer| < opts.subscriberBacklog)
        decreases left
      {
        var k :| k in left;
        if |chans[k].buffer| < opts.subscriberBacklog {
          chans := chans[k := Channel(chans[k].buffer + [e], chans[k].open)];
        } else {
          chans := chans[k := Channel(chans[k].buffer, false)];
          subs := subs - {k};
        }
        left := left - {k};
      }
    }

    /** The newest event goes to every subscriber; one whose channel is full is closed and dropped. */
    method Publish(e: Event)
      requires Valid() && behind && published[|published| - 1] == Plain(e)
      modifies this`subs, this`chans, this`behind
      ensures Valid() && !behind
      ensures IsOffered(old(subs), old(chans), e, opts.subscriberBacklog, subs, chans)
      ensures forall k :: k in old(subs) && k in old(chans) ==>
                            var ch := old(chans)[k];
                            if |ch.buffer| < opts.subscriberBacklog then k in subs && chans[k] == Channel(ch.buffer + [e], ch.open)
                            else k !in subs && chans[k] == Channel(ch.buffer, false)
    {
      hide Follows, RingValid, UpToDate;
      OfferAll(e);
      behind := false;
      forall k | k in chans
        ensures Follows(published, joined[k], taken[k], chans[k], opts.subscriberBacklog)
        ensures k in subs ==> UpToDate(published, false, stalled, joined[k], taken[k], chans[k])
      {
        OfferFollows(published, stalled, joined[k], taken[k], old(chans)[k], e, opts.subscriberBacklog, k in old(subs));
      }
    }

    /** Without subscribers nothing is owed to anyone. */
    ghost method Skip()
      requires Valid() && behind && subs == {}
      modifies this`behind
      ensures Valid() && !behind
    {
      behind := false;
    }

    /** The newest event is not offered after all. */
    ghost method Stall()
      requires Valid() && behind
      modifies this`behind, this`stalled
      ensures Valid() && !behind && stalled
    {
      behind, stalled := false, true;
    }

    method Backlogged(cursor: uint64) returns (yes: bool)
      ensures yes == Refused(ring, cursor)
    {
      yes := false;
      if |ring| > 0 {
        var oldest := ring[0].seqNo;
        yes := cursor < oldest && oldest - cursor > 1;
      }
    }

    method Collect(cursor: uint64) returns (events: seq<Event>)
      ensures events == Since(ring, cursor)
    {
      SinceNone([], cursor);
      hide Since;
      events := [];
      for i := 0 to |ring|
        invariant events == Since(ring[..i], cursor)
      {
        SinceSnoc(ring[..i], ring[i], cursor);
        assert ring[..i + 1] == ring[..i] + [ring[i]];
        if ring[i].seqNo > cursor {
          events := events + [ring[i]];
        }
      }
      assert ring[..|ring|] == ring;
    }

    /** A new, empty channel joins the subscribers. */
    method Join() returns (k: nat)
      requires Valid() && !behind
      modifies this`subs, this`chans, this`joined, this`taken
      ensures Valid()
      ensures k !in old(chans) && chans == old(chans)[k := Channel([], true)] && subs == old(subs) + {k}
      ensures joined == old(joined)[k := |published|] && taken == old(taken)[k := []]
    {
      hide Follows, RingValid;
      k := Fresh(chans.Keys);
      NewFollows(published, opts.subscriberBacklog);
      chans, subs := chans[k := Channel([], true)], subs + {k};
      joined, taken := joined[k := |published|], taken[k := []];
    }

    /** `SubscribeFrom`: refuse a cursor the ring no longer reaches, else the ring's events after the cursor
        and a new channel. */
    method SubscribeFrom(cursor: uint64) returns (r: Result<(seq<Event>, nat), Error>)
      requires Valid() && !behind
      modifies this`subs, this`chans, this`joined, this`taken
      ensures Valid()
      ensures r.Err? <==> Refused(ring, cursor)
      ensures r.Err? <==> ring != [] && cursor + 1 < ring[0].seqNo
      ensures r.Ok? ==> forall e :: e in r.value.0 <==> e in ring && e.seqNo > cursor
      ensures r.Err? ==> r.error == Backlog && subs == old(subs) && chans == old(chans)
      ensures r.Ok? ==> var (events, k) := r.value;
                && events == Since(ring, cursor)
                && k !in old(chans) && chans == old(chans)[k := Channel([], true)] && subs == old(subs) + {k}
                && joined == old(joined)[k := |published|] && taken == old(taken)[k := []]
                && JoinStep(old(State()), k, State())
    {
      hide Follows, UpToDate, RingValid, Since, Plains;
      var backlog := Backlogged(cursor);
      if backlog {
        r := Err(Error.Backlog);
      } else {
        var events := Collect(cursor);
        SinceLaw(ring, cursor);
        var k := Join();
        r := Ok((events, k));
      }
    }

    /** A client takes the next event from its channel; nothing is left once it is closed and drained. */
    method Receive(k: nat) returns (e: Option<Event>)
      requires Valid() && k in chans && (chans[k].buffer != [] || !chans[k].open)
      modifies this`chans, this`taken
      ensures Valid()
      ensures e.None? <==> old(chans[k].buffer) == []
      ensures e.Some? ==> && old(chans[k].buffer) == [e.value] + chans[k].buffer && taken[k] == old(taken[k]) + [e.value]
                          && chans[k].open == old(chans[k].open)
      ensures forall q :: q in chans && q != k ==> q in old(chans) && chans[q] == old(chans)[q] && taken[q] == old(taken)[q]
      ensures if e.Some? then TakeStep(old(State()), k, State()) else State() == old(State())
    {
      hide Follows, RingValid, UpToDate;
      if chans[k].buffer == [] {
        return None;
      }
      var ch := chans[k];
      TakeFollows(published, behind, stalled, joined[k], taken[k], ch, opts.subscriberBacklog);
      chans := chans[k := Channel(ch.buffer[1..], ch.open)];
      taken := taken[k := taken[k] + [ch.buffer[0]]];
      e := Some(ch.buffer[0]);
    }

    /** `cancel`: the client leaves. */
    method Cancel(k: nat)
      requires Valid() && k in chans
      modifies this`subs, this`chans
      ensures Valid() && subs == old(subs) - {k}
      ensures chans == if k in old(subs) then old(chans)[k := old(chans)[k].(open := false)] else old(chans)
      ensures LeaveStep(old(State()), {k}, State())
    {
      hide Follows, RingValid;
      if k in subs {
        subs := subs - {k};
        ClosedFollows(published, joined[k], taken[k], chans[k], opts.subscriberBacklog);
        chans := chans[k := chans[k].(open := false)];
      }
    }

    /** `Close` closes every channel; what is buffered can still be drained. */
    method CloseAll()
      requires Valid()
      modifies this`subs, this`chans
      ensures Valid() && subs == {}
      ensures chans.Keys == old(chans).Keys
      ensures forall k :: k in chans ==> chans[k] == if k in old(subs) then old(chans)[k].(open := false) else old(chans)[k]
      ensures LeaveStep(old(State()), old(subs), State())
    {
      hide Follows, RingValid;
      while subs != {}
        invariant subs <= old(subs) && chans.Keys == old(chans).Keys
        invariant forall k :: k in chans ==> chans[k] == if k in old(subs) - subs then old(chans)[k].(open := false) else old(chans)[k]
        decreases subs
      {
        var k :| k in subs;
        chans := chans[k := chans[k].(open := false)];
        subs := subs - {k};
      }
      forall k | k in chans ensures Follows(published, joined[k], taken[k], chans[k], opts.subscriberBacklog) {
        ClosedFollows(published, joined[k], taken[k], old(chans)[k], opts.subscriberBacklog);
      }
    }
  }
}
