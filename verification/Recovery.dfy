/** Replaying a log, from decoded events and from bytes. */
module Recovery {
  import opened Wrappers
  import opened Model
  import opened Log
  import opened Spec
  import opened Linkage

  datatype Recovered = Recovered(abs: Abs, seqNo: uint64, count: nat, mutated: bool)

  const START := Recovered(EMPTY, 0, 0, false)

  /** The recovery checks of one record, in the order the store makes them. */
  ghost function Check(c: Codec, st: Recovered, e: Event): Option<Error> {
    if e.seqNo == 0 || (st.seqNo != 0 && e.seqNo != st.seqNo + 1) then Some(SequenceGap)
    else if !EventValid(c, e) || !StateValid(st.abs, e) then Some(Invalid)
    else if e.snapshot && st.mutated then Some(SnapshotAfterMutation)
    else None
  }

  ghost function Step(c: Codec, st: Recovered, e: Event): Result<Recovered, Error> {
    if Check(c, st, e).Some? then Err(Check(c, st, e).value)
    else Ok(Recovered(Apply(st.abs, e), e.seqNo, if e.snapshot then st.count else st.count + 1, st.mutated || !e.snapshot))
  }

  ghost function Replay(c: Codec, es: seq<Event>): Result<Recovered, Error> {
    if es == [] then Ok(START)
    else
      var p := Replay(c, es[..|es| - 1]);
      if p.Err? then p else Step(c, p.value, es[|es| - 1])
  }

  ghost function StepLine(c: Codec, st: Recovered, l: Bytes): Result<Recovered, Error> {
    if |l| > MAX_EVENT_BYTES then Err(Oversize)
    else if c.decode(l).None? then Err(Corrupt)
    else Step(c, st, c.decode(l).value)
  }

  ghost function ReplayLines(c: Codec, lines: seq<Bytes>): Result<Recovered, Error> {
    if lines == [] then Ok(START)
    else
      var p := ReplayLines(c, lines[..|lines| - 1]);
      if p.Err? then p else StepLine(c, p.value, lines[|lines| - 1])
  }

  /** What opening a file with this content yields. */
  ghost function Recover(c: Codec, b: Bytes): Result<Recovered, Error> {
    ReplayLines(c, Split(b).complete)
  }

  function LinesOf(c: Codec, es: seq<Event>): seq<Bytes> {
    seq(|es|, i requires 0 <= i < |es| => c.Line(es[i]))
  }

  /** The log file holding these records. */
  function Print(c: Codec, es: seq<Event>): Bytes {
    Join(LinesOf(c, es))
  }

  predicate AllFit(c: Codec, es: seq<Event>) {
    forall i :: 0 <= i < |es| ==> |c.Line(es[i])| <= MAX_EVENT_BYTES
  }

  lemma {:induction false} ReplaySnoc(c: Codec, es: seq<Event>, e: Event)
    ensures Replay(c, es + [e]) == if Replay(c, es).Err? then Replay(c, es) else Step(c, Replay(c, es).value, e)
  {
    assert (es + [e])[..|es + [e]| - 1] == es;
  }

  lemma {:induction false} ReplayLinesSnoc(c: Codec, ls: seq<Bytes>, l: Bytes)
    ensures ReplayLines(c, ls + [l]) ==
            if ReplayLines(c, ls).Err? then ReplayLines(c, ls) else StepLine(c, ReplayLines(c, ls).value, l)
  {
    assert (ls + [l])[..|ls + [l]| - 1] == ls;
  }

  lemma {:induction false} PrintSnoc(c: Codec, es: seq<Event>, e: Event)
    ensures LinesOf(c, es + [e]) == LinesOf(c, es) + [c.Line(e)]
    ensures Print(c, es + [e]) == Print(c, es) + c.Line(e)
  {
    assert LinesOf(c, es + [e]) == LinesOf(c, es) + [c.Line(e)];
    JoinSnoc(LinesOf(c, es), c.Line(e));
  }

  lemma LineIsLine(c: Codec, e: Event)
    requires c.Valid()
    ensures IsLine(c.Line(e)) && c.decode(c.Line(e)) == Some(e)
  {
    assert c.Line(e)[..|c.Line(e)| - 1] == c.encode(e);
  }

  lemma {:induction false} ReplayPrinted(c: Codec, es: seq<Event>)
    requires c.Valid() && AllFit(c, es)
    ensures ReplayLines(c, LinesOf(c, es)) == Replay(c, es)
    decreases |es|
  {
    if es == [] {
    } else {
      var init := es[..|es| - 1];
      var e := es[|es| - 1];
      assert es == init + [e];
      ReplayPrinted(c, init);
      PrintSnoc(c, init, e);
      ReplayLinesSnoc(c, LinesOf(c, init), c.Line(e));
      LineIsLine(c, e);
      assert c.Line(e) == c.Line(es[|init|]);
    }
  }

  /** Print, tear, recover: a log followed by a newline-free tail is read back as exactly its records,
      and everything after them is what truncation cuts off. */
  lemma RecoverPrinted(c: Codec, es: seq<Event>, tail: Bytes)
    requires c.Valid() && AllFit(c, es) && NEWLINE !in tail
    ensures Recover(c, Print(c, es) + tail) == Replay(c, es)
    ensures Good(Print(c, es) + tail) == |Print(c, es)|
  {
    forall l | l in LinesOf(c, es) ensures IsLine(l) {
      var i :| 0 <= i < |es| && l == c.Line(es[i]);
      LineIsLine(c, es[i]);
    }
    SplitJoin(LinesOf(c, es), tail);
    ReplayPrinted(c, es);
  }

  lemma {:induction false} OversizeLines(c: Codec, es: seq<Event>)
    requires !AllFit(c, es)
    ensures ReplayLines(c, LinesOf(c, es)).Err?
    decreases |es|
  {
    var init := es[..|es| - 1];
    var e := es[|es| - 1];
    assert es == init + [e];
    PrintSnoc(c, init, e);
    ReplayLinesSnoc(c, LinesOf(c, init), c.Line(e));
    if !AllFit(c, init) {
      OversizeLines(c, init);
    }
  }

  /** A record over the size limit makes the whole log unreadable, so the fit is exactly what is needed. */
  lemma {:induction false} OversizeRefused(c: Codec, es: seq<Event>)
    requires c.Valid() && !AllFit(c, es)
    ensures Recover(c, Print(c, es)).Err?
    decreases |es|
  {
    forall l | l in LinesOf(c, es) ensures IsLine(l) {
      var i :| 0 <= i < |es| && l == c.Line(es[i]);
      LineIsLine(c, es[i]);
    }
    SplitJoin(LinesOf(c, es), []);
    assert Print(c, es) + [] == Print(c, es);
    OversizeLines(c, es);
  }

  /* ---- facts about replayed logs ---- */

  /** What every accepted record is, by its kind: with a time and named evictions, a capture with its digest and perhaps its own pending
      job, an arrival, an attempt, or a job in a known state with perhaps its own attempt. */
  ghost predicate Sane(c: Codec, e: Event) {
    && e.at != 0 && (forall id :: id in e.evictedRequestIDs || id in e.evictedJobIDs ==> id != "")
    && (e.request.Some? ==> e.request.value.id != "" && e.request.value.bodySHA256 == c.digest(e.request.value.body))
    && (e.job.Some? ==> e.job.value.id != "" && !e.job.value.state.OtherState?)
    && (e.attempt.Some? ==> var x := e.attempt.value; x.id != "" && x.jobID != "" && x.requestID != "" && x.number >= 1)
    && (e.attempt.Some? && e.job.Some? ==> e.attempt.value.jobID == e.job.value.id && e.attempt.value.requestID == e.job.value.requestID)
    && (e.request.Some? && e.job.Some? ==> e.job.value.requestID == e.request.value.id && e.job.value.state == Pending)
    && (e.request.Some? ==> e.kind in {CaptureAccepted, RequestReceived} && e.attempt.None?)
    && (e.request.None? && e.job.Some? ==> e.job.value.requestID != "" && e.kind == Forward(e.job.value.state))
    && (e.request.None? && e.job.None? ==> e.attempt.Some? && e.kind == AttemptFinished)
  }

  lemma AcceptedRecord(c: Codec, st: Recovered, e: Event)
    requires Step(c, st, e).Ok?
    ensures Sane(c, e)
    ensures var a := st.abs;
            && (e.request.Some? ==> e.request.value.id !in a.requests)
            && (e.job.Some? ==> var j := e.job.value;
                                if j.id in a.jobs then a.jobs[j.id].requestID == j.requestID && a.jobs[j.id].url == j.url
                                else j.requestID in a.requests || (e.request.Some? && e.request.value.id == j.requestID))
            && (e.attempt.Some? ==> var x := e.attempt.value;
                                    && (forall r, y :: r in a.attempts && y in a.attempts[r] ==> y.id != x.id) && x.requestID in a.requests
                                    && (x.jobID in a.jobs || (e.job.Some? && e.job.value.id == x.jobID)))
  {
    hide Apply;
    if e.attempt.Some? {
      forall r, y | r in st.abs.attempts && y in st.abs.attempts[r] ensures y.id != e.attempt.value.id {
        InAll(st.abs.attempts, r, y);
        assert y.id in AttemptIDs(st.abs);
      }
    }
  }

  /** Every record of an accepted log has passed the checks of its own content, and found what it refers to. */
  lemma {:induction false} AcceptedRecords(c: Codec, es: seq<Event>, n: nat)
    requires Replay(c, es).Ok? && n < |es|
    ensures Sane(c, es[n]) && Replay(c, es[..n]).Ok?
    ensures var a, e := Replay(c, es[..n]).value.abs, es[n];
            && (e.request.Some? ==> e.request.value.id !in a.requests)
            && (e.job.Some? ==> var j := e.job.value;
                                if j.id in a.jobs then a.jobs[j.id].requestID == j.requestID && a.jobs[j.id].url == j.url
                                else j.requestID in a.requests || (e.request.Some? && e.request.value.id == j.requestID))
            && (e.attempt.Some? ==> var x := e.attempt.value;
                                    && (forall r, y :: r in a.attempts && y in a.attempts[r] ==> y.id != x.id) && x.requestID in a.requests
                                    && (x.jobID in a.jobs || (e.job.Some? && e.job.value.id == x.jobID)))
    decreases |es|
  {
    var init := es[..|es| - 1];
    if n < |init| {
      assert init[..n] == es[..n];
      AcceptedRecords(c, init, n);
    } else {
      assert init == es[..n];
      AcceptedRecord(c, Replay(c, init).value, es[n]);
    }
  }

  /** The order of the checks: the number, then the content and what it refers to, then the place of a snapshot record. */
  lemma CheckLaw(c: Codec, st: Recovered, e: Event)
    ensures e.seqNo == 0 || (st.seqNo != 0 && e.seqNo != st.seqNo + 1) ==> Check(c, st, e) == Some(SequenceGap)
    ensures Check(c, st, e).None? ==> e.seqNo != 0 && (st.seqNo == 0 || e.seqNo == st.seqNo + 1) && (e.snapshot ==> !st.mutated)
    ensures Check(c, st, e) in {None, Some(SequenceGap), Some(Invalid), Some(SnapshotAfterMutation)}
  {
    hide EventValid, StateValid;
  }

  ghost predicate Contiguous(es: seq<Event>) {
    && (forall i :: 0 <= i < |es| ==> es[i].seqNo != 0)
    && (forall i :: 0 < i < |es| ==> es[i].seqNo == es[i - 1].seqNo + 1)
  }

  /** Snapshot records form a prefix. */
  ghost predicate SnapshotsFirst(es: seq<Event>) {
    forall i, j :: 0 <= i < j < |es| && es[j].snapshot ==> es[i].snapshot
  }

  function Mutations(es: seq<Event>): nat {
    if es == [] then 0 else Mutations(es[..|es| - 1]) + if es[|es| - 1].snapshot then 0 else 1
  }

  function LastSeq(es: seq<Event>): uint64 {
    if es == [] then 0 else es[|es| - 1].seqNo
  }

  lemma {:induction false} ReplayInit(c: Codec, es: seq<Event>)
    requires Replay(c, es).Ok? && es != []
    ensures var p := Replay(c, es[..|es| - 1]);
            p.Ok? && Check(c, p.value, es[|es| - 1]).None? && Step(c, p.value, es[|es| - 1]) == Replay(c, es)
  {
  }

  lemma ReplayNil(c: Codec)
    ensures Replay(c, []) == Ok(START)
  {
  }

  lemma {:induction false} ReplayContiguous(c: Codec, es: seq<Event>)
    requires Replay(c, es).Ok?
    ensures Contiguous(es) && Replay(c, es).value.seqNo == LastSeq(es)
    decreases |es|
  {
    hide Replay, Apply, EventValid, StateValid;
    if es == [] {
      ReplayNil(c);
    } else {
      var init := es[..|es| - 1];
      ReplayInit(c, es);
      ReplayContiguous(c, init);
      assert forall i :: 0 <= i < |init| ==> es[i] == init[i];
    }
  }

  lemma {:induction false} NoMutation(es: seq<Event>)
    requires Mutations(es) == 0
    ensures forall i :: 0 <= i < |es| ==> es[i].snapshot
    decreases |es|
  {
    if es == [] {
    } else {
      NoMutation(es[..|es| - 1]);
      assert forall i :: 0 <= i < |es| - 1 ==> es[i] == es[..|es| - 1][i];
    }
  }

  lemma {:induction false} ReplayCounts(c: Codec, es: seq<Event>)
    requires Replay(c, es).Ok?
    ensures Replay(c, es).value.count == Mutations(es)
    ensures Replay(c, es).value.mutated <==> Mutations(es) > 0
    decreases |es|
  {
    hide Replay, Apply, EventValid, StateValid;
    if es == [] {
      ReplayNil(c);
    } else {
      ReplayInit(c, es);
      ReplayCounts(c, es[..|es| - 1]);
    }
  }

  lemma {:induction false} ReplaySnapshots(c: Codec, es: seq<Event>)
    requires Replay(c, es).Ok?
    ensures SnapshotsFirst(es)
    decreases |es|
  {
    hide Replay, Apply, EventValid, StateValid;
    if es == [] {
    } else {
      var init := es[..|es| - 1];
      ReplayInit(c, es);
      ReplaySnapshots(c, init);
      ReplayCounts(c, init);
      assert forall i :: 0 <= i < |init| ==> es[i] == init[i];
      if es[|es| - 1].snapshot {
        NoMutation(init);
      }
    }
  }

  lemma {:induction false} ReplayKeyed(c: Codec, es: seq<Event>)
    requires Replay(c, es).Ok?
    ensures Keyed(Replay(c, es).value.abs)
    decreases |es|
  {
    if es == [] {
    } else {
      hide Replay, Apply, EventValid, StateValid, Keyed;
      var init := es[..|es| - 1];
      ReplayInit(c, es);
      ReplayKeyed(c, init);
      ApplyKeyed(Replay(c, init).value.abs, es[|es| - 1]);
    }
  }

  /** Sequence discipline of any log recovery accepts: contiguous nonzero numbers, snapshot records first,
      and the mutation count is the number of records that are not snapshot records. */
  lemma ReplayDiscipline(c: Codec, es: seq<Event>)
    requires Replay(c, es).Ok?
    ensures Contiguous(es) && SnapshotsFirst(es)
    ensures Replay(c, es).value.seqNo == LastSeq(es)
    ensures Replay(c, es).value.count == Mutations(es)
  {
    hide *;
    ReplayContiguous(c, es);
    ReplayCounts(c, es);
    ReplaySnapshots(c, es);
  }

  /** Appending the next event is exactly as recoverable as the checks say, up to the end of the
      sequence space: the live counter wraps to zero there, and recovery refuses a zero sequence. */
  lemma AppendRecoverable(c: Codec, es: seq<Event>, e: Event)
    requires Replay(c, es).Ok? && es != []
    requires e.seqNo == NextSeq(LastSeq(es)) && !e.snapshot
    requires EventValid(c, e) && StateValid(Replay(c, es).value.abs, e)
    ensures Replay(c, es + [e]).Ok? <==> LastSeq(es) != MAX_SEQ
    ensures Replay(c, es + [e]).Ok? ==> Replay(c, es + [e]).value.abs == Apply(Replay(c, es).value.abs, e)
  {
    ReplaySnoc(c, es, e);
    ReplayDiscipline(c, es);
  }

  /* ---- recovery line by line ---- */

  /** An error on a prefix is the error of the whole. */
  lemma {:induction false} ErrorStays(c: Codec, ls: seq<Bytes>, more: seq<Bytes>)
    requires ReplayLines(c, ls).Err?
    ensures ReplayLines(c, ls + more) == ReplayLines(c, ls)
    decreases |more|
  {
    if more == [] {
      assert ls + more == ls;
    } else {
      var init := more[..|more| - 1];
      ErrorStays(c, ls, init);
      assert ls + more == (ls + init) + [more[|more| - 1]];
      ReplayLinesSnoc(c, ls + init, more[|more| - 1]);
    }
  }

  /** What a reader that has taken the lines of `b[..good]` finds next decides how recovery goes on. */
  lemma NextLine(c: Codec, b: Bytes, good: nat, lines: seq<Bytes>)
    requires good <= |b| && Split(b[..good]) == Lines(lines, [])
    ensures Split(b).complete == lines + Split(b[good..]).complete
    ensures Split(b[good..]).complete == [] ==> Recover(c, b) == ReplayLines(c, lines) && Good(b) == good
    ensures Split(b[good..]).complete != [] && ReplayLines(c, lines + [Split(b[good..]).complete[0]]).Err? ==>
              Recover(c, b) == ReplayLines(c, lines + [Split(b[good..]).complete[0]])
  {
    hide Split, ReplayLines;
    SplitAfter(b[..good], b[good..]);
    assert b == b[..good] + b[good..];
    var rest := Split(b[good..]).complete;
    if rest == [] {
      assert lines + rest == lines;
      SplitExact(b[..good]);
      assert Join(lines) + [] == Join(lines);
    } else {
      assert lines + rest == (lines + [rest[0]]) + rest[1..];
      if ReplayLines(c, lines + [rest[0]]).Err? {
        ErrorStays(c, lines + [rest[0]], rest[1..]);
      }
    }
  }

  /** Taking one more line. */
  lemma LineTaken(b: Bytes, good: nat, next: nat, lines: seq<Bytes>)
    requires good <= next <= |b| && Split(b[..good]) == Lines(lines, []) && IsLine(b[good..next])
    ensures Split(b[..next]) == Lines(lines + [b[good..next]], [])
    ensures Split(b[good..]).complete != [] && Split(b[good..]).complete[0] == b[good..next]
  {
    hide Split;
    assert b[..next] == b[..good] + b[good..next];
    SplitLine(b[..good], b[good..next]);
    assert b[good..] == b[good..next] + b[next..];
    FirstLine(b[good..next], b[next..]);
  }

  /* ---- logs in which no two retained requests ever shared a key ---- */

  ghost predicate KeysUnique(r: Result<Recovered, Error>) {
    r.Ok? ==> UniqueKeys(r.value.abs.requests)
  }

  /** At no point of the log do two retained requests share a deduplication key. */
  ghost predicate Unambiguous(c: Codec, es: seq<Event>) {
    forall i :: 0 <= i <= |es| ==> KeysUnique(Replay(c, es[..i]))
  }

  lemma UnambiguousSnoc(c: Codec, es: seq<Event>, e: Event)
    requires Unambiguous(c, es) && KeysUnique(Replay(c, es + [e]))
    ensures Unambiguous(c, es + [e])
  {
    hide Replay, KeysUnique;
    var fs := es + [e];
    forall i | 0 <= i <= |fs| ensures KeysUnique(Replay(c, fs[..i])) {
      if i == |fs| {
        assert fs[..i] == fs;
      } else {
        assert fs[..i] == es[..i];
      }
    }
  }

  lemma UnambiguousNil(c: Codec)
    ensures Unambiguous(c, [])
  {
    var es: seq<Event> := [];
    forall i | 0 <= i <= |es| ensures KeysUnique(Replay(c, es[..i])) {
      assert es[..i] == [];
    }
  }

  lemma RequestsGrow(a: Abs, e: Event)
    requires StateValid(a, e) && e.evictedRequestIDs == [] && e.evictedJobIDs == []
    requires UniqueKeys(Apply(a, e).requests)
    ensures UniqueKeys(a.requests)
  {
    var b := Apply(a, e);
    assert forall id :: id in a.requests ==> id in b.requests && b.requests[id] == a.requests[id];
  }

  /** Without evictions requests only accumulate, so unique keys at the end were unique all along. */
  lemma {:induction false} UnambiguousPlain(c: Codec, es: seq<Event>)
    requires Replay(c, es).Ok? && UniqueKeys(Replay(c, es).value.abs.requests)
    requires forall e :: e in es ==> e.evictedRequestIDs == [] && e.evictedJobIDs == []
    ensures Unambiguous(c, es)
    decreases |es|
  {
    if es == [] {
      UnambiguousNil(c);
    } else {
      var init := es[..|es| - 1];
      var e := es[|es| - 1];
      assert es == init + [e];
      ReplayInit(c, es);
      hide Replay;
      RequestsGrow(Replay(c, init).value.abs, e);
      UnambiguousPlain(c, init);
      UnambiguousSnoc(c, init, e);
    }
  }

  ghost predicate UnambiguousLines(c: Codec, ls: seq<Bytes>) {
    forall i :: 0 <= i <= |ls| ==> KeysUnique(ReplayLines(c, ls[..i]))
  }

  lemma UnambiguousPrinted(c: Codec, es: seq<Event>)
    requires c.Valid() && AllFit(c, es) && Unambiguous(c, es)
    ensures UnambiguousLines(c, LinesOf(c, es))
  {
    hide Replay, ReplayLines, KeysUnique;
    var ls := LinesOf(c, es);
    forall i | 0 <= i <= |ls| ensures KeysUnique(ReplayLines(c, ls[..i])) {
      assert ls[..i] == LinesOf(c, es[..i]);
      ReplayPrinted(c, es[..i]);
    }
  }
}
