/** Payload reads outside the state lock, interleaved with appends, compactions, redactions and Close. */
module LoadRace {
  import opened Wrappers
  import opened Model
  import opened Spec
  import opened Linkage
  import opened Operations
  import opened IndexMaps
  import opened References
  import opened Redaction

  /** What a reader copies under the state lock. */
  datatype Meta = Meta(abs: Abs, reqs: map<string, RecordRef>, atts: map<string, RecordRef>)

  /** What a thread writes while it holds both locks. */
  datatype Purpose = Compacting | Closing

  /** Where a thread stands. Each phase fixes which locks are held. */
  datatype Phase =
    | Idle
    | WantRead(id: string)                                        // waits for mu, shared
    | HaveRead(id: string)                                        // mu shared
    | WantFile(id: string, snap: Meta)                            // mu shared, waits for fileMu, shared
    | HaveFile(id: string, snap: Meta, fd: nat)                   // mu and fileMu shared
    | Reading(id: string, snap: Meta, fd: nat, body: Option<Bytes>, responses: seq<Bytes>)  // fileMu shared
    | Returned(id: string, snap: Meta, result: Result<(Request, seq<Attempt>), Error>)
    | WantWrite                                                   // waits for mu, exclusive
    | HaveWrite                                                   // mu exclusive
    | WantSwap(purpose: Purpose)                                  // mu exclusive, waits for fileMu, exclusive
    | HaveSwap(purpose: Purpose)                                  // mu and fileMu exclusive
    | WantScan                                                    // mu exclusive, waits for fileMu, shared
    | HaveScan(fd: nat)                                           // mu exclusive, fileMu shared
  {
    predicate SharesMu() { HaveRead? || WantFile? || HaveFile? }
    predicate OwnsMu() { HaveWrite? || WantSwap? || HaveSwap? || WantScan? || HaveScan? }
    predicate SharesFile() { HaveFile? || Reading? || HaveScan? }
    predicate OwnsFile() { HaveSwap? }
  }

  /** The store as the threads share it: the metadata, the open descriptors, and the current one. */
  datatype Shared = Shared(meta: Meta, files: map<nat, Bytes>, current: nat, next: nat, closed: bool, threads: map<nat, Phase>)

  datatype Config = Config(codec: Codec, opts: Options)

  function At(s: Shared, t: nat): Phase {
    if t in s.threads then s.threads[t] else Idle
  }

  /* ---- the steps ---- */

  /** A lock is granted when no other thread holds it in a conflicting way. */
  ghost predicate MuFree(s: Shared, t: nat) {
    forall u :: u in s.threads && u != t ==> !s.threads[u].OwnsMu() && !s.threads[u].SharesMu()
  }

  ghost predicate MuShareable(s: Shared, t: nat) {
    forall u :: u in s.threads && u != t ==> !s.threads[u].OwnsMu()
  }

  ghost predicate FileFree(s: Shared, t: nat) {
    forall u :: u in s.threads && u != t ==> !s.threads[u].OwnsFile() && !s.threads[u].SharesFile()
  }

  ghost predicate FileShareable(s: Shared, t: nat) {
    forall u :: u in s.threads && u != t ==> !s.threads[u].OwnsFile()
  }

  /** One read of a record through a descriptor, which fails once it is closed. */
  function ReadAt(c: Codec, files: map<nat, Bytes>, fd: nat, ref: RecordRef): Result<Event, Error> {
    if fd in files then ReadEventAt(c, files[fd], ref) else Err(IO)
  }

  function ReadBodyAt(c: Codec, files: map<nat, Bytes>, fd: nat, ref: RecordRef, id: string): Result<Bytes, Error> {
    var e := ReadAt(c, files, fd, ref);
    if e.Err? then Err(e.error)
    else if e.value.request.None? || e.value.request.value.id != id then Err(BadReference)
    else if !DigestValid(c, e.value.request.value) then Err(Corrupt)
    else Ok(e.value.request.value.body)
  }

  function ReadResponseAt(c: Codec, files: map<nat, Bytes>, fd: nat, ref: RecordRef, id: string): Result<Bytes, Error> {
    var e := ReadAt(c, files, fd, ref);
    if e.Err? then Err(e.error)
    else if e.value.attempt.None? || e.value.attempt.value.id != id then Err(BadReference)
    else Ok(e.value.attempt.value.responseBody)
  }

  function WithResponses(l: seq<Attempt>, bodies: seq<Bytes>): seq<Attempt>
    requires |l| == |bodies|
  {
    seq(|l|, i requires 0 <= i < |l| => l[i].(responseBody := bodies[i]))
  }

  /** The next phase of a reader that holds `fileMu`: one record is read, or the result is put together. */
  function ReadNext(c: Codec, s: Shared, p: Phase): Phase
    requires p.Reading? && p.id in p.snap.abs.requests && |p.responses| <= |AttemptsOf(p.snap.abs, p.id)|
    requires p.id in p.snap.reqs && forall x :: x in AttemptsOf(p.snap.abs, p.id) ==> x.id in p.snap.atts
  {
    var l := AttemptsOf(p.snap.abs, p.id);
    var k := |p.responses|;
    if p.body.None? then
      var r := ReadBodyAt(c, s.files, p.fd, p.snap.reqs[p.id], p.id);
      if r.Err? then Returned(p.id, p.snap, Err(r.error)) else p.(body := Some(r.value))
    else if k < |l| then
      var r := ReadResponseAt(c, s.files, p.fd, p.snap.atts[l[k].id], l[k].id);
      if r.Err? then Returned(p.id, p.snap, Err(r.error)) else p.(responses := p.responses + [r.value])
    else
      Returned(p.id, p.snap, Ok((p.snap.abs.requests[p.id].(body := p.body.value), WithResponses(l, p.responses))))
  }

  /** The steps of `Load`. */
  ghost predicate ReaderStep(c: Codec, s: Shared, t: nat, p: Phase) {
    match At(s, t) {
      case Idle => p.WantRead?
      case WantRead(id) => p == HaveRead(id) && MuShareable(s, t)
      case HaveRead(id) => if id in s.meta.abs.requests then p == WantFile(id, s.meta) else p == Idle
      case WantFile(id, snap) => p == HaveFile(id, snap, s.current) && FileShareable(s, t)
      case HaveFile(id, snap, fd) => p == Reading(id, snap, fd, None, [])
      case Reading(id, snap, fd, body, responses) =>
        id in snap.abs.requests && |responses| <= |AttemptsOf(snap.abs, id)| && id in snap.reqs
        && (forall x :: x in AttemptsOf(snap.abs, id) ==> x.id in snap.atts)
        && p == ReadNext(c, s, At(s, t))
      case Returned(_, _, _) => p == Idle
      case _ => false
    }
  }

  /** The lock steps of a writer. */
  ghost predicate WriterStep(s: Shared, t: nat, p: Phase) {
    match At(s, t) {
      case Idle => p == WantWrite
      case WantWrite => p == HaveWrite && MuFree(s, t)
      case HaveWrite => p == Idle || ((p == WantSwap(Compacting) || p == WantScan) && !s.closed)
      case WantSwap(purpose) => p == HaveSwap(purpose) && FileFree(s, t)
      case HaveSwap(purpose) => purpose == Compacting && p == HaveWrite   // compaction failed
      case WantScan => p == HaveScan(s.current) && FileShareable(s, t)
      case HaveScan(_) => p == HaveWrite                                  // the scan of a redaction has ended
      case _ => false
    }
  }

  ghost predicate LocalStep(g: Config, s: Shared, t: nat, p: Phase, s': Shared) {
    (ReaderStep(g.codec, s, t, p) || WriterStep(s, t, p)) && s' == s.(threads := s.threads[t := p])
  }

  /** A record is appended to the current file and taken into the indexes. */
  ghost predicate AppendStep(g: Config, s: Shared, t: nat, op: Op, e: Event, s': Shared) {
    && At(s, t).HaveWrite? && !s.closed && s.current in s.files
    && Commits(g.codec, g.opts, s.meta.abs, op, e) && |g.codec.Line(e)| <= MAX_EVENT_BYTES
    && var file := s.files[s.current];
       var ref := RecordRef(|file|, |g.codec.Line(e)|, e.seqNo);
       && s' == s.(meta := s'.meta, files := s.files[s.current := file + g.codec.Line(e)])
       && s'.meta.abs == Apply(s.meta.abs, e)
       && s'.meta.reqs.Keys == s'.meta.abs.requests.Keys && RefsStep(s.meta.reqs, s'.meta.reqs, RequestID(e), ref)
       && s'.meta.atts.Keys == AttemptIDs(s'.meta.abs) && RefsStep(s.meta.atts, s'.meta.atts, AttemptID(e), ref)
  }

  /** A write that fails leaves a part of the record in the file. The code then appends no more, of which no theorem here
      makes use. */
  ghost predicate TornStep(g: Config, s: Shared, t: nat, op: Op, e: Event, k: nat, s': Shared) {
    && At(s, t).HaveWrite? && !s.closed && s.current in s.files
    && Commits(g.codec, g.opts, s.meta.abs, op, e) && k <= |g.codec.Line(e)|
    && s' == s.(files := s.files[s.current := s.files[s.current] + g.codec.Line(e)[..k]])
  }

  /** The first part of a redaction: the headers in memory are replaced, the references stay. */
  ghost predicate RedactStep(s: Shared, t: nat, policy: Policy, s': Shared) {
    && At(s, t).HaveWrite? && !s.closed
    && s' == s.(meta := s.meta.(abs := RedactAbs(policy, s.meta.abs)))
  }

  /** The references of this metadata are good for this content. */
  ghost predicate Sound(c: Codec, file: Bytes, m: Meta) {
    && Linked(c, m.abs)
    && RequestRefs(c, file, m.abs.requests, m.reqs) && AttemptRefs(c, file, m.abs.attempts, m.atts)
    && Fit(m.reqs) && Fit(m.atts)
  }

  /** Compaction replaces the descriptor and the references, and closes the old descriptor. */
  ghost predicate SwapStep(g: Config, s: Shared, t: nat, m: Meta, content: Bytes, s': Shared) {
    && At(s, t) == HaveSwap(Compacting)
    && m.abs == s.meta.abs && Sound(g.codec, content, m)
    && s' == s.(meta := m, files := (s.files - {s.current})[s.next := content], current := s.next, next := s.next + 1,
                threads := s.threads[t := HaveWrite])
  }

  /** `Close`: the mark under the state lock, the descriptor under both. */
  ghost predicate MarkStep(s: Shared, t: nat, s': Shared) {
    && At(s, t).HaveWrite? && !s.closed
    && s' == s.(closed := true, threads := s.threads[t := WantSwap(Closing)])
  }

  ghost predicate CloseStep(s: Shared, t: nat, s': Shared) {
    && At(s, t) == HaveSwap(Closing)
    && s' == s.(files := s.files - {s.current}, threads := s.threads[t := Idle])
  }

  ghost predicate Next(g: Config, s: Shared, t: nat, s': Shared) {
    || (exists p :: LocalStep(g, s, t, p, s'))
    || (exists op, e :: AppendStep(g, s, t, op, e, s'))
    || (exists op, e, k :: TornStep(g, s, t, op, e, k, s'))
    || (exists policy :: RedactStep(s, t, policy, s'))
    || (exists m, content :: SwapStep(g, s, t, m, content, s'))
    || MarkStep(s, t, s')
    || CloseStep(s, t, s')
  }

  /* ---- the invariant ---- */

  predicate Compatible(p: Phase, q: Phase) {
    && (p.OwnsMu() ==> !q.OwnsMu() && !q.SharesMu())
    && (p.OwnsFile() ==> !q.OwnsFile() && !q.SharesFile())
  }

  ghost predicate Exclusive(s: Shared) {
    forall t, u :: t in s.threads && u in s.threads && t != u ==> Compatible(s.threads[t], s.threads[u])
  }

  /** These are the response bodies of the first attempts. */
  predicate Matches(responses: seq<Bytes>, l: seq<Attempt>) {
    |responses| <= |l| && forall i :: 0 <= i < |responses| ==> responses[i] == l[i].responseBody
  }

  /** A reader in the middle of its reads has the current descriptor, its snapshot is good for it, and what it
      has read is what the snapshot says. */
  ghost predicate ReadingSound(c: Codec, s: Shared, p: Phase)
    requires p.Reading?
  {
    && p.fd == s.current && p.id in p.snap.abs.requests && Linked(c, p.snap.abs)
    && p.snap.reqs.Keys == p.snap.abs.requests.Keys && p.snap.atts.Keys == AttemptIDs(p.snap.abs)
    && (p.fd in s.files ==> Sound(c, s.files[p.fd], p.snap))
    && (p.body.Some? ==> p.body.value == p.snap.abs.requests[p.id].body)
    && Matches(p.responses, AttemptsOf(p.snap.abs, p.id))
  }

  /** What is known of a thread: its snapshot, and what it has read so far. */
  ghost predicate ThreadSound(c: Codec, s: Shared, p: Phase) {
    match p {
      case WantFile(id, snap) => snap == s.meta && id in snap.abs.requests
      case HaveFile(id, snap, fd) => snap == s.meta && id in snap.abs.requests && fd == s.current
      case Reading(_, _, _, _, _) => ReadingSound(c, s, p)
      case Returned(id, snap, result) =>
        && id in snap.abs.requests
        && (result.Ok? ==> result.value == (snap.abs.requests[id], AttemptsOf(snap.abs, id)))
        && (result.Err? ==> s.closed)
      case WantSwap(purpose) => purpose == Closing <==> s.closed
      case HaveSwap(purpose) => purpose == Closing <==> s.closed
      case WantScan => !s.closed
      case HaveScan(fd) => fd == s.current && !s.closed
      case _ => true
    }
  }

  lemma MatchesNext(responses: seq<Bytes>, l: seq<Attempt>)
    requires Matches(responses, l)
    ensures |responses| < |l| ==> Matches(responses + [l[|responses|].responseBody], l)
    ensures |responses| == |l| ==> WithResponses(l, responses) == l
  {
  }

  ghost predicate Inv(g: Config, s: Shared) {
    && g.codec.Valid()
    && Exclusive(s)
    && (forall fd :: fd in s.files ==> fd < s.next) && s.current < s.next
    && (s.current !in s.files ==> s.closed)
    && Linked(g.codec, s.meta.abs)
    && s.meta.reqs.Keys == s.meta.abs.requests.Keys && s.meta.atts.Keys == AttemptIDs(s.meta.abs)
    && (s.current in s.files ==> Sound(g.codec, s.files[s.current], s.meta))
    && (forall t :: t in s.threads ==> ThreadSound(g.codec, s, s.threads[t]))
  }

  /** The store just opened, with no thread at work. */
  ghost predicate Init(g: Config, s: Shared) {
    && g.codec.Valid() && s.threads == map[] && !s.closed
    && s.files.Keys == {s.current} && s.next == s.current + 1 && Sound(g.codec, s.files[s.current], s.meta)
  }

  lemma InitInv(g: Config, s: Shared)
    requires Init(g, s)
    ensures Inv(g, s)
  {
    hide Linked, HoldsRequest, HoldsAttempt;
  }

  /* ---- the reads ---- */

  lemma BodyHeld(c: Codec, files: map<nat, Bytes>, fd: nat, ref: RecordRef, r: Request)
    requires fd in files && HoldsRequest(c, files[fd], ref, r) && ref.length <= MAX_EVENT_BYTES && DigestValid(c, r)
    ensures ReadBodyAt(c, files, fd, ref, r.id) == Ok(r.body)
  {
    var e: Event :| Holds(c, files[fd], ref, e) && e.request.Some? && e.request.value.(headers := r.headers) == r;
    HoldsReads(c, files[fd], ref, e);
  }

  lemma ResponseHeld(c: Codec, files: map<nat, Bytes>, fd: nat, ref: RecordRef, x: Attempt)
    requires fd in files && HoldsAttempt(c, files[fd], ref, x) && ref.length <= MAX_EVENT_BYTES
    ensures ReadResponseAt(c, files, fd, ref, x.id) == Ok(x.responseBody)
  {
    var e: Event :| Holds(c, files[fd], ref, e) && e.attempt.Some? && e.attempt.value.(responseHeaders := x.responseHeaders) == x;
    HoldsReads(c, files[fd], ref, e);
  }

  lemma BodyRead(c: Codec, s: Shared, p: Phase)
    requires p.Reading? && ThreadSound(c, s, p)
    ensures var r := ReadBodyAt(c, s.files, p.fd, p.snap.reqs[p.id], p.id);
            if p.fd in s.files then r == Ok(p.snap.abs.requests[p.id].body) else r.Err?
  {
    if p.fd in s.files {
      var r := p.snap.abs.requests[p.id];
      assert DigestValid(c, r) && r.id == p.id;
      hide Linked, AttemptRefs, ReadBodyAt, HoldsRequest;
      BodyHeld(c, s.files, p.fd, p.snap.reqs[p.id], r);
    }
  }

  lemma SnapshotAttempt(m: Meta, id: string, k: nat)
    requires k < |AttemptsOf(m.abs, id)| && m.atts.Keys == AttemptIDs(m.abs)
    ensures AttemptsOf(m.abs, id)[k] in All(m.abs.attempts) && AttemptsOf(m.abs, id)[k].id in m.atts
  {
    var x := AttemptsOf(m.abs, id)[k];
    InAll(m.abs.attempts, id, x);
    assert x.id in AttemptIDs(m.abs);
  }

  lemma ResponseRead(c: Codec, s: Shared, p: Phase, k: nat)
    requires p.Reading? && ThreadSound(c, s, p) && k < |AttemptsOf(p.snap.abs, p.id)|
    ensures var x := AttemptsOf(p.snap.abs, p.id)[k];
            && x.id in p.snap.atts
            && var r := ReadResponseAt(c, s.files, p.fd, p.snap.atts[x.id], x.id);
               if p.fd in s.files then r == Ok(x.responseBody) else r.Err?
  {
    SnapshotAttempt(p.snap, p.id, k);
    if p.fd in s.files {
      hide Linked, RequestRefs, IDsIn, All, AttemptsOf, ReadResponseAt, HoldsAttempt;
      ResponseHeld(c, s.files, p.fd, p.snap.atts[AttemptsOf(p.snap.abs, p.id)[k].id], AttemptsOf(p.snap.abs, p.id)[k]);
    }
  }

  ghost predicate Ready(c: Codec, s: Shared, q: Phase) {
    && q.Reading? && ThreadSound(c, s, q) && (s.current !in s.files ==> s.closed)
    && q.id in q.snap.abs.requests && |q.responses| <= |AttemptsOf(q.snap.abs, q.id)|
    && q.id in q.snap.reqs && forall x :: x in AttemptsOf(q.snap.abs, q.id) ==> x.id in q.snap.atts
  }

  lemma BodyKept(c: Codec, s: Shared, q: Phase)
    requires Ready(c, s, q) && q.body.None?
    ensures ThreadSound(c, s, ReadNext(c, s, q))
  {
    BodyRead(c, s, q);
    hide Linked, Sound, ReadBodyAt, ReadResponseAt, AttemptsOf, IDsIn, WithResponses;
  }

  lemma NextResponse(c: Codec, s: Shared, q: Phase) returns (r: Result<Bytes, Error>)
    requires Ready(c, s, q) && q.body.Some? && |q.responses| < |AttemptsOf(q.snap.abs, q.id)|
    ensures var x := AttemptsOf(q.snap.abs, q.id)[|q.responses|];
            x.id in q.snap.atts && r == ReadResponseAt(c, s.files, q.fd, q.snap.atts[x.id], x.id)
    ensures ReadNext(c, s, q) == if r.Err? then Returned(q.id, q.snap, Err(r.error)) else q.(responses := q.responses + [r.value])
  {
    hide ReadBodyAt, ReadResponseAt, WithResponses, AttemptsOf, ThreadSound;
    var x := AttemptsOf(q.snap.abs, q.id)[|q.responses|];
    r := ReadResponseAt(c, s.files, q.fd, q.snap.atts[x.id], x.id);
  }

  lemma SoundReader(c: Codec, s: Shared, p: Phase)
    requires p.Reading? && ReadingSound(c, s, p)
    ensures ThreadSound(c, s, p)
  {
    hide ReadingSound;
  }

  lemma SoundError(c: Codec, s: Shared, q: Phase, error: Error)
    requires q.Reading? && q.id in q.snap.abs.requests && s.closed
    ensures ThreadSound(c, s, Returned(q.id, q.snap, Err(error)))
  {
  }

  lemma ResponseKept(c: Codec, s: Shared, q: Phase)
    requires Ready(c, s, q) && q.body.Some? && |q.responses| < |AttemptsOf(q.snap.abs, q.id)|
    ensures ThreadSound(c, s, ReadNext(c, s, q))
  {
    hide Linked, Sound, ReadBodyAt, ReadResponseAt, AttemptsOf, IDsIn, WithResponses, Matches;
    assert ReadingSound(c, s, q);
    hide ThreadSound, ReadNext;
    MatchesNext(q.responses, AttemptsOf(q.snap.abs, q.id));
    ResponseRead(c, s, q, |q.responses|);
    var r := NextResponse(c, s, q);
    if r.Ok? {
      SoundReader(c, s, q.(responses := q.responses + [r.value]));
    } else {
      SoundError(c, s, q, r.error);
    }
  }

  lemma ResultKept(c: Codec, s: Shared, q: Phase)
    requires Ready(c, s, q) && q.body.Some? && |q.responses| == |AttemptsOf(q.snap.abs, q.id)|
    ensures ThreadSound(c, s, ReadNext(c, s, q))
  {
    MatchesNext(q.responses, AttemptsOf(q.snap.abs, q.id));
    hide Linked, Sound, ReadBodyAt, ReadResponseAt, AttemptsOf, IDsIn, WithResponses;
  }

  /** One more read keeps what is known of the reader. */
  lemma ReadKept(g: Config, s: Shared, t: nat, p: Phase)
    requires Inv(g, s) && At(s, t).Reading? && ReaderStep(g.codec, s, t, p)
    ensures ThreadSound(g.codec, s, p)
  {
    hide Linked, Sound, ReadBodyAt, ReadResponseAt, Exclusive, AttemptsOf, IDsIn, WithResponses, ThreadSound, ReadNext;
    var q := At(s, t);
    assert ThreadSound(g.codec, s, q);
    if q.body.None? {
      BodyKept(g.codec, s, q);
    } else if |q.responses| < |AttemptsOf(q.snap.abs, q.id)| {
      ResponseKept(g.codec, s, q);
    } else {
      ResultKept(g.codec, s, q);
    }
    assert (s.current !in s.files ==> s.closed);
  }

  /* ---- the steps keep the invariant ---- */

  lemma ExclusiveKept(s: Shared, t: nat, p: Phase)
    requires Exclusive(s)
    requires forall u :: u in s.threads && u != t ==> Compatible(p, s.threads[u]) && Compatible(s.threads[u], p)
    ensures Exclusive(s.(threads := s.threads[t := p]))
  {
    hide Compatible;
  }

  lemma ReaderCompatible(c: Codec, s: Shared, t: nat, p: Phase, u: nat)
    requires u in s.threads && u != t && Compatible(At(s, t), s.threads[u]) && Compatible(s.threads[u], At(s, t)) && ReaderStep(c, s, t, p)
    ensures Compatible(p, s.threads[u]) && Compatible(s.threads[u], p)
  {
    hide ReadBodyAt, ReadResponseAt, WithResponses, AttemptsOf;
  }

  lemma WriterCompatible(s: Shared, t: nat, p: Phase, u: nat)
    requires u in s.threads && u != t && Compatible(At(s, t), s.threads[u]) && Compatible(s.threads[u], At(s, t)) && WriterStep(s, t, p)
    ensures Compatible(p, s.threads[u]) && Compatible(s.threads[u], p)
  {
  }

  lemma StepCompatible(c: Codec, s: Shared, t: nat, p: Phase, u: nat)
    requires Exclusive(s) && u in s.threads && u != t && (ReaderStep(c, s, t, p) || WriterStep(s, t, p))
    ensures Compatible(p, s.threads[u]) && Compatible(s.threads[u], p)
  {
    hide ReaderStep, WriterStep;
    assert Compatible(At(s, t), s.threads[u]) && Compatible(s.threads[u], At(s, t));
    hide Exclusive, Compatible;
    if ReaderStep(c, s, t, p) {
      ReaderCompatible(c, s, t, p, u);
    } else {
      WriterCompatible(s, t, p, u);
    }
  }

  lemma LocalExclusive(g: Config, s: Shared, t: nat, p: Phase)
    requires Inv(g, s) && (ReaderStep(g.codec, s, t, p) || WriterStep(s, t, p))
    ensures Exclusive(s.(threads := s.threads[t := p]))
  {
    assert Exclusive(s);
    hide Inv, Exclusive, Compatible, ReaderStep, WriterStep;
    forall u | u in s.threads && u != t ensures Compatible(p, s.threads[u]) && Compatible(s.threads[u], p) {
      StepCompatible(g.codec, s, t, p, u);
    }
    ExclusiveKept(s, t, p);
  }

  lemma NoWriter(s: Shared, t: nat, p: Phase)
    requires At(s, t).Reading?
    ensures !WriterStep(s, t, p)
  {
  }

  lemma SameShared(c: Codec, s: Shared, s': Shared, p: Phase)
    requires s' == s.(threads := s'.threads) && ThreadSound(c, s, p)
    ensures ThreadSound(c, s', p)
  {
    hide Linked, Sound;
  }

  lemma PhaseKept(g: Config, s: Shared, t: nat, p: Phase)
    requires Inv(g, s) && !At(s, t).Reading? && (ReaderStep(g.codec, s, t, p) || WriterStep(s, t, p))
    ensures ThreadSound(g.codec, s, p)
  {
    hide Linked, Exclusive, ReadNext, Sound, IDsIn;
    if t in s.threads {
      assert ThreadSound(g.codec, s, s.threads[t]);
    }
  }

  lemma LocalKept(g: Config, s: Shared, t: nat, p: Phase, s': Shared)
    requires Inv(g, s) && LocalStep(g, s, t, p, s')
    ensures Inv(g, s')
  {
    hide ReaderStep, WriterStep, Exclusive, Linked, Sound, ThreadSound, IDsIn;
    LocalExclusive(g, s, t, p);
    if At(s, t).Reading? {
      NoWriter(s, t, p);
      ReadKept(g, s, t, p);
    } else {
      PhaseKept(g, s, t, p);
    }
    forall u | u in s'.threads ensures ThreadSound(g.codec, s', s'.threads[u]) {
      SameShared(g.codec, s, s', s'.threads[u]);
    }
  }

  /** While a thread owns the state lock, nobody else has a snapshot that must stay current. */
  lemma OthersAway(s: Shared, t: nat, u: nat)
    requires Exclusive(s) && t in s.threads && u in s.threads && u != t && s.threads[t].OwnsMu()
    ensures !s.threads[u].SharesMu() && !s.threads[u].OwnsMu()
    ensures s.threads[t].OwnsFile() ==> !s.threads[u].SharesFile() && !s.threads[u].OwnsFile()
  {
    assert Compatible(s.threads[t], s.threads[u]);
  }

  lemma SoundLonger(c: Codec, file: Bytes, more: Bytes, m: Meta)
    requires Sound(c, file, m)
    ensures Sound(c, file + more, m)
  {
    hide Linked, RequestRefs, AttemptRefs, Fit;
    RequestRefsLonger(c, file, more, m.abs.requests, m.reqs);
    AttemptRefsLonger(c, file, more, m.abs.attempts, m.atts);
  }

  /** An append does not concern a thread that has no snapshot to keep current. */
  lemma AppendOther(c: Codec, s: Shared, s': Shared, p: Phase, line: Bytes)
    requires s.current in s.files && s' == s.(meta := s'.meta, files := s.files[s.current := s.files[s.current] + line])
    requires ThreadSound(c, s, p) && !p.SharesMu()
    ensures ThreadSound(c, s', p)
  {
    hide Linked, Sound, AttemptsOf, IDsIn;
    if p.Reading? {
      SoundLonger(c, s.files[s.current], line, p.snap);
    }
  }

  lemma AppendThreads(g: Config, s: Shared, t: nat, op: Op, e: Event, s': Shared)
    requires Inv(g, s) && AppendStep(g, s, t, op, e, s')
    ensures forall u :: u in s'.threads ==> ThreadSound(g.codec, s', s'.threads[u])
  {
    hide Linked, Sound, Commits, Apply, RefsStep, IDsIn, ThreadSound, Exclusive;
    forall u | u in s'.threads ensures ThreadSound(g.codec, s', s'.threads[u]) {
      if u != t {
        OthersAway(s, t, u);
      }
      assert ThreadSound(g.codec, s, s.threads[u]) && !s.threads[u].SharesMu();
      AppendOther(g.codec, s, s', s.threads[u], g.codec.Line(e));
    }
  }

  lemma SameThreads(s: Shared, s': Shared)
    requires s'.threads == s.threads && Exclusive(s)
    ensures Exclusive(s')
  {
  }

  lemma SoundLinked(c: Codec, file: Bytes, m: Meta)
    requires Sound(c, file, m)
    ensures Linked(c, m.abs)
  {
    hide Linked;
  }

  lemma AppendRefs(c: Codec, file: Bytes, m: Meta, e: Event, m': Meta)
    requires c.Valid() && Keyed(m.abs) && StateValid(m.abs, e) && |c.Line(e)| <= MAX_EVENT_BYTES && m'.abs == Apply(m.abs, e)
    requires RequestRefs(c, file, m.abs.requests, m.reqs) && AttemptRefs(c, file, m.abs.attempts, m.atts) && Fit(m.reqs) && Fit(m.atts)
    requires var ref := RecordRef(|file|, |c.Line(e)|, e.seqNo);
             && m'.reqs.Keys == m'.abs.requests.Keys && RefsStep(m.reqs, m'.reqs, RequestID(e), ref)
             && m'.atts.Keys == AttemptIDs(m'.abs) && RefsStep(m.atts, m'.atts, AttemptID(e), ref)
    ensures RequestRefs(c, file + c.Line(e), m'.abs.requests, m'.reqs) && AttemptRefs(c, file + c.Line(e), m'.abs.attempts, m'.atts)
    ensures Fit(m'.reqs) && Fit(m'.atts)
  {
    hide Keyed, Apply, RequestRefs, AttemptRefs, Fit, RefsStep, IDsIn, StateValid;
    var ref := RecordRef(|file|, |c.Line(e)|, e.seqNo);
    assert Written(c, file, c.Line(e), e, ref);
    hide Written;
    RequestRefsAfter(c, m.abs, file, c.Line(e), e, ref, m.reqs, m'.reqs);
    AttemptRefsAfter(c, m.abs, file, c.Line(e), e, ref, m.atts, m'.atts);
    FitAfter(m.reqs, m'.reqs, RequestID(e), ref);
    FitAfter(m.atts, m'.atts, AttemptID(e), ref);
  }

  lemma LinkedKeyed(c: Codec, a: Abs)
    requires Linked(c, a)
    ensures Keyed(a)
  {
  }

  lemma AppendSound(g: Config, s: Shared, op: Op, e: Event, s': Shared)
    requires g.codec.Valid() && s.current in s.files && Sound(g.codec, s.files[s.current], s.meta)
    requires Commits(g.codec, g.opts, s.meta.abs, op, e) && |g.codec.Line(e)| <= MAX_EVENT_BYTES
    requires s'.meta.abs == Apply(s.meta.abs, e)
    requires var ref := RecordRef(|s.files[s.current]|, |g.codec.Line(e)|, e.seqNo);
             && s'.meta.reqs.Keys == s'.meta.abs.requests.Keys && RefsStep(s.meta.reqs, s'.meta.reqs, RequestID(e), ref)
             && s'.meta.atts.Keys == AttemptIDs(s'.meta.abs) && RefsStep(s.meta.atts, s'.meta.atts, AttemptID(e), ref)
    ensures Sound(g.codec, s.files[s.current] + g.codec.Line(e), s'.meta)
  {
    hide Linked, Keyed, Apply, RequestRefs, AttemptRefs, Fit, RefsStep, IDsIn, Produces, EventValid, StateValid;
    LinkedKeyed(g.codec, s.meta.abs);
    CommitLinked(g.codec, g.opts, s.meta.abs, op, e);
    hide Commits;
    AppendRefs(g.codec, s.files[s.current], s.meta, e, s'.meta);
  }

  lemma AppendKept(g: Config, s: Shared, t: nat, op: Op, e: Event, s': Shared)
    requires Inv(g, s) && AppendStep(g, s, t, op, e, s')
    ensures Inv(g, s')
  {
    hide Linked, Sound, Commits, Apply, RefsStep, IDsIn, ThreadSound, Exclusive;
    AppendSound(g, s, op, e, s');
    AppendThreads(g, s, t, op, e, s');
    SameThreads(s, s');
    SoundLinked(g.codec, s'.files[s'.current], s'.meta);
  }

  /** A part of a record at the end of the file disturbs nobody. */
  lemma TornKept(g: Config, s: Shared, t: nat, op: Op, e: Event, k: nat, s': Shared)
    requires Inv(g, s) && TornStep(g, s, t, op, e, k, s')
    ensures Inv(g, s')
  {
    hide Linked, Sound, Commits, IDsIn, ThreadSound, Exclusive;
    var part := g.codec.Line(e)[..k];
    SoundLonger(g.codec, s.files[s.current], part, s.meta);
    forall u | u in s'.threads ensures ThreadSound(g.codec, s', s'.threads[u]) {
      if u != t {
        OthersAway(s, t, u);
      }
      AppendOther(g.codec, s, s', s.threads[u], part);
    }
    SameThreads(s, s');
  }

  lemma SoundKeys(c: Codec, content: Bytes, m: Meta)
    requires Sound(c, content, m)
    ensures m.reqs.Keys == m.abs.requests.Keys && m.atts.Keys == AttemptIDs(m.abs)
  {
  }

  lemma RedactSound(c: Codec, policy: Policy, file: Bytes, m: Meta)
    requires Sound(c, file, m)
    ensures Sound(c, file, m.(abs := RedactAbs(policy, m.abs)))
  {
    hide Linked, RequestRefs, AttemptRefs, Fit, RedactAbs;
    RedactLinked(c, policy, m.abs);
    RedactRefs(c, policy, file, m.abs, m.reqs, m.atts);
  }

  lemma RedactOther(c: Codec, s: Shared, s': Shared, p: Phase)
    requires s' == s.(meta := s'.meta) && ThreadSound(c, s, p) && !p.SharesMu()
    ensures ThreadSound(c, s', p)
  {
    hide Linked, Sound, AttemptsOf, IDsIn;
  }

  lemma RedactKept(g: Config, s: Shared, t: nat, policy: Policy, s': Shared)
    requires Inv(g, s) && RedactStep(s, t, policy, s')
    ensures Inv(g, s')
  {
    hide Linked, Sound, RedactAbs, IDsIn, ThreadSound, Exclusive;
    RedactSound(g.codec, policy, s.files[s.current], s.meta);
    SoundKeys(g.codec, s.files[s.current], s'.meta);
    SoundLinked(g.codec, s.files[s.current], s'.meta);
    forall u | u in s'.threads ensures ThreadSound(g.codec, s', s'.threads[u]) {
      if u != t {
        OthersAway(s, t, u);
      }
      RedactOther(g.codec, s, s', s.threads[u]);
    }
    SameThreads(s, s');
  }

  lemma SwapExclusive(g: Config, s: Shared, t: nat, p: Phase)
    requires Exclusive(s) && t in s.threads && s.threads[t].OwnsMu() && !p.SharesMu() && !p.SharesFile() && !p.OwnsFile()
    ensures Exclusive(s.(threads := s.threads[t := p]))
    ensures forall x: Shared :: x.threads == s.threads[t := p] ==> Exclusive(x)
  {
    forall u | u in s.threads && u != t ensures Compatible(p, s.threads[u]) && Compatible(s.threads[u], p) {
      assert Compatible(s.threads[t], s.threads[u]) && Compatible(s.threads[u], s.threads[t]);
    }
    ExclusiveKept(s, t, p);
  }

  lemma SwapKept(g: Config, s: Shared, t: nat, m: Meta, content: Bytes, s': Shared)
    requires Inv(g, s) && SwapStep(g, s, t, m, content, s')
    ensures Inv(g, s')
  {
    SoundKeys(g.codec, content, m);
    assert ThreadSound(g.codec, s, s.threads[t]);
    hide Linked, Sound, IDsIn;
    SwapExclusive(g, s, t, HaveWrite);
    forall u | u in s'.threads ensures ThreadSound(g.codec, s', s'.threads[u]) {
      if u != t {
        OthersAway(s, t, u);
        assert ThreadSound(g.codec, s, s.threads[u]);
      }
    }
  }

  lemma MarkKept(g: Config, s: Shared, t: nat, s': Shared)
    requires Inv(g, s) && MarkStep(s, t, s')
    ensures Inv(g, s')
  {
    hide Linked, Sound, IDsIn;
    SwapExclusive(g, s, t, WantSwap(Closing));
    forall u | u in s'.threads ensures ThreadSound(g.codec, s', s'.threads[u]) {
      if u != t {
        OthersAway(s, t, u);
        assert ThreadSound(g.codec, s, s.threads[u]);
      }
    }
  }

  lemma CloseKept(g: Config, s: Shared, t: nat, s': Shared)
    requires Inv(g, s) && CloseStep(s, t, s')
    ensures Inv(g, s')
  {
    assert ThreadSound(g.codec, s, s.threads[t]);
    hide Linked, Sound, IDsIn;
    SwapExclusive(g, s, t, Idle);
    forall u | u in s'.threads ensures ThreadSound(g.codec, s', s'.threads[u]) {
      if u != t {
        OthersAway(s, t, u);
        assert ThreadSound(g.codec, s, s.threads[u]);
      }
    }
  }

  lemma NextKept(g: Config, s: Shared, t: nat, s': Shared)
    requires Inv(g, s) && Next(g, s, t, s')
    ensures Inv(g, s')
  {
    hide Inv, LocalStep, AppendStep, TornStep, RedactStep, SwapStep, MarkStep, CloseStep;
    if p :| LocalStep(g, s, t, p, s') {
      LocalKept(g, s, t, p, s');
    } else if op, e :| AppendStep(g, s, t, op, e, s') {
      AppendKept(g, s, t, op, e, s');
    } else if op, e, k :| TornStep(g, s, t, op, e, k, s') {
      TornKept(g, s, t, op, e, k, s');
    } else if policy :| RedactStep(s, t, policy, s') {
      RedactKept(g, s, t, policy, s');
    } else if m, content :| SwapStep(g, s, t, m, content, s') {
      SwapKept(g, s, t, m, content, s');
    } else if MarkStep(s, t, s') {
      MarkKept(g, s, t, s');
    } else {
      CloseKept(g, s, t, s');
    }
  }

  /* ---- behaviors ---- */

  ghost predicate IsBehavior(g: Config, b: seq<Shared>, who: seq<nat>) {
    && b != [] && |who| == |b| - 1 && Init(g, b[0])
    && (forall i :: 0 <= i < |who| ==> Next(g, b[i], who[i], b[i + 1]))
  }

  lemma {:induction false} BehaviorInv(g: Config, b: seq<Shared>, who: seq<nat>, i: nat)
    requires IsBehavior(g, b, who) && i < |b|
    ensures Inv(g, b[i])
    decreases i
  {
    hide Inv, Next, Init;
    if i == 0 {
      InitInv(g, b[0]);
    } else {
      BehaviorInv(g, b, who, i - 1);
      NextKept(g, b[i - 1], who[i - 1], b[i]);
    }
  }

  /** The thread is inside the call that copied this snapshot for this request. */
  predicate InCall(p: Phase, id: string, snap: Meta) {
    (p.WantFile? || p.HaveFile? || p.Reading? || p.Returned?) && p.id == id && p.snap == snap
  }

  /** The descriptor that was open when the snapshot was copied is still open for this call. */
  ghost predicate StillOpen(s: Shared, p: Phase) {
    match p {
      case WantFile(_, _) => s.current in s.files
      case HaveFile(_, _, fd) => fd in s.files
      case Reading(_, _, fd, _, _) => fd in s.files
      case Returned(_, _, result) => result.Ok?
      case _ => true
    }
  }

  lemma NoCall(s: Shared, u: nat, id: string, snap: Meta)
    ensures forall p :: WriterStep(s, u, p) ==> !InCall(p, id, snap)
  {
  }

  /** A call begins by copying the metadata that is current, with the descriptor open unless the store is closed. */
  lemma CallBegins(g: Config, s: Shared, u: nat, s': Shared, t: nat, id: string, snap: Meta)
    requires Inv(g, s) && Next(g, s, u, s') && InCall(At(s', t), id, snap) && !InCall(At(s, t), id, snap)
    ensures s.meta == snap && At(s, t) == HaveRead(id) && id in snap.abs.requests
    ensures !s.closed ==> StillOpen(s', At(s', t))
  {
    hide Commits, Sound, RefsStep, Apply, ReadBodyAt, ReadResponseAt, WithResponses, Exclusive, ThreadSound, Linked, IDsIn, AttemptsOf,
         WriterStep;
    assert forall p :: WriterStep(s, u, p) ==> !InCall(p, id, snap) by { NoCall(s, u, id, snap); }
  }

  lemma NextOpen(c: Codec, s: Shared, q: Phase)
    requires q.Reading? && q.fd in s.files && ThreadSound(c, s, q)
    requires q.id in q.snap.reqs && (forall x :: x in AttemptsOf(q.snap.abs, q.id) ==> x.id in q.snap.atts)
    requires q.id in q.snap.abs.requests && |q.responses| <= |AttemptsOf(q.snap.abs, q.id)|
    ensures StillOpen(s, ReadNext(c, s, q))
  {
    hide ReadBodyAt, ReadResponseAt, AttemptsOf, WithResponses, ThreadSound;
    if q.body.None? {
      BodyRead(c, s, q);
    } else if |q.responses| < |AttemptsOf(q.snap.abs, q.id)| {
      ResponseRead(c, s, q, |q.responses|);
    }
  }

  lemma ReadReady(c: Codec, s: Shared, p: Phase)
    requires p.Reading? && ThreadSound(c, s, p)
    ensures p.id in p.snap.reqs && forall x :: x in AttemptsOf(p.snap.abs, p.id) ==> x.id in p.snap.atts
    ensures p.id in p.snap.abs.requests && |p.responses| <= |AttemptsOf(p.snap.abs, p.id)|
  {
    hide Linked, Sound;
    forall x | x in AttemptsOf(p.snap.abs, p.id) ensures x.id in p.snap.atts {
      InAll(p.snap.abs.attempts, p.id, x);
    }
  }

  /** A read through an open descriptor goes through. */
  lemma OpenReads(c: Codec, s: Shared, t: nat, p: Phase)
    requires t in s.threads && s.threads[t].Reading? && s.threads[t].fd in s.files && ThreadSound(c, s, s.threads[t])
    requires ReaderStep(c, s, t, p) || WriterStep(s, t, p)
    ensures StillOpen(s, p)
  {
    hide ThreadSound, StillOpen, ReadNext, AttemptsOf;
    NoWriter(s, t, p);
    ReadReady(c, s, s.threads[t]);
    NextOpen(c, s, s.threads[t]);
  }

  lemma LocalOpen(g: Config, s: Shared, u: nat, p: Phase, s': Shared, t: nat)
    requires Inv(g, s) && LocalStep(g, s, u, p, s') && t in s.threads && StillOpen(s, At(s, t))
    requires At(s, t).WantFile? || At(s, t).HaveFile? || At(s, t).Reading? || At(s, t).Returned?
    requires !At(s', t).Idle?
    ensures StillOpen(s', At(s', t))
  {
    hide Linked, Sound, ReadBodyAt, ReadResponseAt, Exclusive, AttemptsOf, IDsIn, WithResponses, ReadNext, ThreadSound;
    if u == t && At(s, t).Reading? {
      assert ThreadSound(g.codec, s, At(s, t));
      OpenReads(g.codec, s, t, p);
    }
  }

  lemma AppendOpen(g: Config, s: Shared, u: nat, op: Op, e: Event, s': Shared, t: nat)
    requires AppendStep(g, s, u, op, e, s') && StillOpen(s, At(s, t))
    ensures StillOpen(s', At(s', t))
  {
    hide Commits, Apply, RefsStep, IDsIn;
  }

  lemma TornOpen(g: Config, s: Shared, u: nat, op: Op, e: Event, k: nat, s': Shared, t: nat)
    requires TornStep(g, s, u, op, e, k, s') && StillOpen(s, At(s, t))
    ensures StillOpen(s', At(s', t))
  {
    hide Commits;
  }

  lemma RedactOpen(s: Shared, u: nat, policy: Policy, s': Shared, t: nat)
    requires RedactStep(s, u, policy, s') && StillOpen(s, At(s, t))
    ensures StillOpen(s', At(s', t))
  {
    hide RedactAbs;
  }

  lemma SwapOpen(g: Config, s: Shared, u: nat, m: Meta, content: Bytes, s': Shared, t: nat)
    requires Inv(g, s) && SwapStep(g, s, u, m, content, s') && t in s.threads && StillOpen(s, At(s, t))
    requires At(s, t).WantFile? || At(s, t).HaveFile? || At(s, t).Reading? || At(s, t).Returned?
    ensures StillOpen(s', At(s', t))
  {
    hide Linked, Sound, IDsIn, ThreadSound, Exclusive;
    OthersAway(s, u, t);
  }

  lemma MarkOpen(s: Shared, u: nat, s': Shared, t: nat)
    requires MarkStep(s, u, s') && StillOpen(s, At(s, t))
    ensures StillOpen(s', At(s', t))
  {
  }

  lemma CloseOpen(g: Config, s: Shared, u: nat, s': Shared, t: nat)
    requires Inv(g, s) && CloseStep(s, u, s') && t in s.threads && StillOpen(s, At(s, t))
    requires At(s, t).WantFile? || At(s, t).HaveFile? || At(s, t).Reading? || At(s, t).Returned?
    ensures StillOpen(s', At(s', t))
  {
    hide Linked, Sound, IDsIn, ThreadSound, Exclusive;
    OthersAway(s, u, t);
  }

  /** No step closes the descriptor under a call. */
  lemma CallGoesOn(g: Config, s: Shared, u: nat, s': Shared, t: nat, id: string, snap: Meta)
    requires Inv(g, s) && Next(g, s, u, s') && InCall(At(s, t), id, snap) && InCall(At(s', t), id, snap)
    requires StillOpen(s, At(s, t))
    ensures StillOpen(s', At(s', t))
  {
    hide LocalStep, AppendStep, TornStep, RedactStep, SwapStep, MarkStep, CloseStep, Inv, StillOpen;
    if p :| LocalStep(g, s, u, p, s') {
      LocalOpen(g, s, u, p, s', t);
    } else if op, e :| AppendStep(g, s, u, op, e, s') {
      AppendOpen(g, s, u, op, e, s', t);
    } else if op, e, k :| TornStep(g, s, u, op, e, k, s') {
      TornOpen(g, s, u, op, e, k, s', t);
    } else if policy :| RedactStep(s, u, policy, s') {
      RedactOpen(s, u, policy, s', t);
    } else if m, content :| SwapStep(g, s, u, m, content, s') {
      SwapOpen(g, s, u, m, content, s', t);
    } else if MarkStep(s, u, s') {
      MarkOpen(s, u, s', t);
    } else {
      CloseOpen(g, s, u, s', t);
    }
  }

  /** Every thread inside a call copied its snapshot at one point of that same call, from the metadata that was current,
      and the descriptor stays open for it unless the store was closed at that point. */
  lemma {:induction false} CallBegan(g: Config, b: seq<Shared>, who: seq<nat>, i: nat, t: nat, id: string, snap: Meta) returns (k: nat)
    requires IsBehavior(g, b, who) && i < |b| && InCall(At(b[i], t), id, snap)
    ensures k < i && b[k].meta == snap && At(b[k], t) == HaveRead(id) && id in snap.abs.requests
    ensures forall j :: k < j <= i ==> InCall(At(b[j], t), id, snap)
    ensures !b[k].closed ==> StillOpen(b[i], At(b[i], t))
    decreases i
  {
    hide Inv, Next, StillOpen;
    if i == 0 {
      assert false;
    } else {
      hide Init;
      BehaviorInv(g, b, who, i - 1);
      if InCall(At(b[i - 1], t), id, snap) {
        k := CallBegan(g, b, who, i - 1, t, id, snap);
        if !b[k].closed {
          CallGoesOn(g, b[i - 1], who[i - 1], b[i], t, id, snap);
        }
      } else {
        CallBegins(g, b[i - 1], who[i - 1], b[i], t, id, snap);
        k := i - 1;
      }
    }
  }

  /** Whatever appends, compactions, redactions and Close are interleaved with it, a load returns the request and its
      attempts exactly as they were in the state at the point of the call where it copied the metadata, and it
      fails only if the store was closed at that point: a Close that begins during the call cannot break it. */
  lemma LoadIsAtomic(g: Config, b: seq<Shared>, who: seq<nat>, i: nat, t: nat) returns (k: nat)
    requires IsBehavior(g, b, who) && i < |b| && At(b[i], t).Returned?
    ensures var p := At(b[i], t);
            && k < i && At(b[k], t) == HaveRead(p.id) && (forall j :: k < j <= i ==> InCall(At(b[j], t), p.id, b[k].meta))
            && p.id in b[k].meta.abs.requests
            && (p.result.Ok? ==> p.result.value == (b[k].meta.abs.requests[p.id], AttemptsOf(b[k].meta.abs, p.id)))
            && (p.result.Err? ==> b[k].closed)
  {
    hide Next, Init, Exclusive;
    BehaviorInv(g, b, who, i);
    assert ThreadSound(g.codec, b[i], At(b[i], t));
    k := CallBegan(g, b, who, i, t, At(b[i], t).id, At(b[i], t).snap);
  }

  /** The scan of a redaction reads the current descriptor, which is open and holds the records of the state. */
  lemma ScanReads(g: Config, b: seq<Shared>, who: seq<nat>, i: nat, t: nat)
    requires IsBehavior(g, b, who) && i < |b| && At(b[i], t).HaveScan?
    ensures At(b[i], t).fd == b[i].current && b[i].current in b[i].files && Sound(g.codec, b[i].files[b[i].current], b[i].meta)
  {
    hide Next, Init, Exclusive, Sound, Linked;
    BehaviorInv(g, b, who, i);
    assert ThreadSound(g.codec, b[i], At(b[i], t));
  }

  /** A reader that holds the file lock has the current descriptor, and its references are good for it: the descriptor
      is open unless the store was closed when the reader copied its snapshot. */
  lemma DescriptorStaysOpen(g: Config, b: seq<Shared>, who: seq<nat>, i: nat, t: nat) returns (k: nat)
    requires IsBehavior(g, b, who) && i < |b| && (At(b[i], t).HaveFile? || At(b[i], t).Reading?)
    ensures var p := At(b[i], t);
            && p.fd == b[i].current
            && k < i && At(b[k], t) == HaveRead(p.id) && b[k].meta == p.snap
            && (!b[k].closed ==> p.fd in b[i].files && Sound(g.codec, b[i].files[p.fd], p.snap))
  {
    hide Next, Init, Exclusive;
    BehaviorInv(g, b, who, i);
    assert ThreadSound(g.codec, b[i], At(b[i], t));
    k := CallBegan(g, b, who, i, t, At(b[i], t).id, At(b[i], t).snap);
  }

  /* ---- no deadlock ---- */

  ghost predicate Busy(s: Shared, t: nat) {
    t in s.threads && !s.threads[t].Idle? && !s.threads[t].Returned?
  }

  /** The thread can go on even if waiting writers keep new readers out. */
  ghost predicate CanStep(s: Shared, t: nat) {
    && Busy(s, t)
    && match s.threads[t] {
         case WantRead(_) => MuShareable(s, t) && forall u :: u in s.threads ==> !s.threads[u].WantWrite?
         case WantFile(_, _) => FileShareable(s, t) && forall u :: u in s.threads ==> !s.threads[u].WantSwap?
         case WantWrite => MuFree(s, t)
         case WantSwap(_) => FileFree(s, t)
         case WantScan => FileShareable(s, t) && forall u :: u in s.threads ==> !s.threads[u].WantSwap?
         case _ => true
       }
  }

  lemma WithoutOwner(s: Shared, t: nat) returns (u: nat)
    requires Busy(s, t) && forall w :: w in s.threads ==> !s.threads[w].OwnsMu()
    ensures CanStep(s, u)
  {
    if r :| r in s.threads && (s.threads[r].SharesMu() || s.threads[r].Reading?) {
      u := r;
    } else if w :| w in s.threads && s.threads[w].WantWrite? {
      u := w;
    } else {
      u := t;
    }
  }

  lemma OwnerOrReader(s: Shared, w: nat) returns (u: nat)
    requires Exclusive(s) && w in s.threads && s.threads[w].OwnsMu()
    ensures CanStep(s, u)
  {
    hide Exclusive;
    forall v | v in s.threads && v != w ensures !s.threads[v].SharesMu() && !s.threads[v].OwnsMu() {
      OthersAway(s, w, v);
    }
    if r :| r in s.threads && s.threads[r].Reading? {
      u := r;
    } else {
      u := w;
    }
  }

  /** The two locks admit no deadlock: while any thread is busy, some busy thread can go on. */
  lemma NoDeadlock(g: Config, s: Shared, t: nat) returns (u: nat)
    requires Inv(g, s) && Busy(s, t)
    ensures CanStep(s, u)
  {
    assert Exclusive(s);
    hide Inv, ThreadSound, Exclusive;
    if w :| w in s.threads && s.threads[w].OwnsMu() {
      u := OwnerOrReader(s, w);
    } else {
      u := WithoutOwner(s, t);
    }
  }

  lemma ReadMoves(c: Codec, s: Shared, p: Phase)
    requires p.Reading? && p.id in p.snap.abs.requests && |p.responses| <= |AttemptsOf(p.snap.abs, p.id)|
    requires p.id in p.snap.reqs && forall x :: x in AttemptsOf(p.snap.abs, p.id) ==> x.id in p.snap.atts
    ensures ReadNext(c, s, p) != p
  {
    hide ReadBodyAt, ReadResponseAt, WithResponses, AttemptsOf;
  }

  lemma NextByLocal(g: Config, s: Shared, t: nat, q: Phase, s': Shared)
    requires (ReaderStep(g.codec, s, t, q) || WriterStep(s, t, q)) && s' == s.(threads := s.threads[t := q])
    ensures Next(g, s, t, s')
  {
    hide ReaderStep, WriterStep;
    assert LocalStep(g, s, t, q, s');
  }

  lemma ReadingSteps(g: Config, s: Shared, t: nat) returns (s': Shared)
    requires t in s.threads && s.threads[t].Reading? && ThreadSound(g.codec, s, s.threads[t])
    ensures Next(g, s, t, s') && s'.threads.Keys == s.threads.Keys && s'.threads[t] != s.threads[t]
  {
    hide Next, AttemptsOf, ReadNext, ThreadSound;
    var p := s.threads[t];
    ReadReady(g.codec, s, p);
    ReadMoves(g.codec, s, p);
    var q := ReadNext(g.codec, s, p);
    s' := s.(threads := s.threads[t := q]);
    NextByLocal(g, s, t, q, s');
  }

  /** Where a thread that is neither reading records nor closing goes next. */
  function Onward(s: Shared, p: Phase): Phase {
    match p {
      case WantRead(id) => HaveRead(id)
      case HaveRead(id) => if id in s.meta.abs.requests then WantFile(id, s.meta) else Idle
      case WantFile(id, snap) => HaveFile(id, snap, s.current)
      case HaveFile(id, snap, fd) => Reading(id, snap, fd, None, [])
      case WantWrite => HaveWrite
      case WantSwap(purpose) => HaveSwap(purpose)
      case HaveSwap(_) => HaveWrite
      case WantScan => HaveScan(s.current)
      case HaveScan(_) => HaveWrite
      case _ => Idle
    }
  }

  lemma OnwardSteps(g: Config, s: Shared, t: nat)
    requires CanStep(s, t) && !s.threads[t].Reading? && s.threads[t] != HaveSwap(Closing)
    ensures var q := Onward(s, s.threads[t]);
            q != s.threads[t] && (ReaderStep(g.codec, s, t, q) || WriterStep(s, t, q))
  {
    hide ReadNext;
  }

  lemma CloseNow(s: Shared, t: nat, s': Shared)
    requires t in s.threads && s.threads[t] == HaveSwap(Closing)
    requires s' == s.(files := s.files - {s.current}, threads := s.threads[t := Idle])
    ensures CloseStep(s, t, s') && s'.threads.Keys == s.threads.Keys && s'.threads[t] != s.threads[t]
  {
  }

  lemma NextByClose(g: Config, s: Shared, t: nat, s': Shared)
    requires CloseStep(s, t, s')
    ensures Next(g, s, t, s')
  {
  }

  /** What can step has a step. */
  lemma CanStepSteps(g: Config, s: Shared, t: nat) returns (s': Shared)
    requires Inv(g, s) && CanStep(s, t)
    ensures Next(g, s, t, s') && s'.threads.Keys == s.threads.Keys && s'.threads[t] != s.threads[t]
  {
    assert ThreadSound(g.codec, s, s.threads[t]);
    hide Inv, Next;
    if s.threads[t] == HaveSwap(Closing) {
      s' := s.(files := s.files - {s.current}, threads := s.threads[t := Idle]);
      CloseNow(s, t, s');
      NextByClose(g, s, t, s');
    } else if s.threads[t].Reading? {
      s' := ReadingSteps(g, s, t);
    } else {
      hide ThreadSound, ReadNext;
      var q := Onward(s, s.threads[t]);
      s' := s.(threads := s.threads[t := q]);
      OnwardSteps(g, s, t);
      NextByLocal(g, s, t, q, s');
    }
  }
}
