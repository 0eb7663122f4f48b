/** Whole runs of the store over a disk that can tear writes and lose power. */
module Crash {
  import opened Wrappers
  import opened Model
  import opened Log
  import opened Spec
  import opened Linkage
  import opened Recovery
  import opened Snapshot
  import opened Operations
  import opened Guarantees
  import opened Idempotency
  import opened Redaction

  /* ---- the disk ---- */

  /** A content of the log, and how many entries of the history it tells. */
  datatype Image = Image(content: Bytes, told: nat)

  /** The disk as one process sees it. `file` is what the open descriptor reads. After a power loss the path may name the opened
      file, which then has one of the contents `mine`, or another file, which then has one of the contents `others`. A file
      that was `renamed` over the path is what the path names now; whether that is on the disk nobody knows. */
  datatype Disk = Disk(file: Image, ghost mine: iset<Image>, ghost others: iset<Image>, renamed: Option<Image>)

  /** What the path may show after a power loss. */
  ghost function Images(d: Disk): iset<Image> {
    d.mine + d.others + if d.renamed.Some? then iset{d.renamed.value} else iset{}
  }

  /** What the path shows now. */
  function Live(d: Disk): Image {
    if d.renamed.Some? then d.renamed.value else d.file
  }

  /** A file that has gained the first `k` bytes of a record. */
  function Grown(i: Image, line: Bytes, k: nat): Image
    requires k <= |line|
  {
    Image(i.content + line[..k], if k == |line| then i.told + 1 else i.told)
  }

  /** Unsynced changes of a file reach the disk in the order they were made, and possibly not all of them. */
  ghost function Write(d: Disk, line: Bytes, k: nat): Disk
    requires k <= |line|
  {
    d.(file := Grown(d.file, line, k), mine := d.mine + iset i: nat | i <= k :: Grown(d.file, line, i))
  }

  /** Syncing a file settles its content. It does not settle which file the path names. */
  ghost function Sync(d: Disk): Disk {
    d.(mine := iset{d.file})
  }

  /** The disk after a record has been appended and synced. */
  ghost function Extended(d: Disk, line: Bytes): Disk {
    Sync(Write(d, line, |line|))
  }

  /** The path names this file and this is its content, for certain: its directory has been synced, too. */
  ghost function Alone(i: Image): Disk {
    Disk(i, iset{i}, iset{}, None)
  }

  /** A file that was just created: nothing has synced its directory, and without its name there is no log, which opens like an
      empty one. */
  ghost function Created(told: nat): Disk {
    Disk(Image([], told), iset{Image([], told)}, iset{Image([], told)}, None)
  }

  ghost function Rename(d: Disk, i: Image): Disk {
    d.(renamed := Some(i))
  }

  ghost function Truncate(d: Disk, n: nat): Disk
    requires n <= |d.file.content|
  {
    var cut := Image(d.file.content[..n], d.file.told);
    d.(file := cut, mine := d.mine + iset{cut})
  }

  /** After a power loss there is one content. If it is empty the file may be missing, and is then created. */
  ghost function Survivor(i: Image): Disk {
    if i.content == [] then Created(i.told) else Alone(i)
  }

  /** When only the process ends, its successor opens what the path names now; everything else stays possible. */
  ghost function Inherited(d: Disk): Disk {
    if d.renamed.Some? then Disk(d.renamed.value, iset{d.renamed.value}, d.mine + d.others, None) else d
  }

  /* ---- the steps ---- */

  /** One store over its life: the state it started from, the operations committed since, the records of the
      current log, the disk, the last sequence number, and the operation whose record may have been torn. */
  datatype Node = Node(
    base: Abs, hist: seq<Entry>, log: seq<Event>, ghost disk: Disk, seqNo: uint64, pending: Option<Entry>, healthy: bool)

  datatype Setup = Setup(codec: Codec, opts: Options)

  ghost function State(n: Node): Abs {
    After(n.base, n.hist)
  }

  /** The history with the operation that is in flight. */
  ghost function Full(n: Node): seq<Entry> {
    n.hist + if n.pending.Some? then [n.pending.value] else []
  }

  ghost function Appended(g: Setup, n: Node, x: Entry): Node
    requires x.Commit?
  {
    Node(n.base, n.hist + [x], n.log + [x.event], Extended(n.disk, g.codec.Line(x.event)), x.event.seqNo, None, true)
  }

  ghost function Torn(g: Setup, n: Node, x: Entry, k: nat): Node
    requires x.Commit? && k <= |g.codec.Line(x.event)|
  {
    n.(disk := Write(n.disk, g.codec.Line(x.event), k), pending := Some(x), healthy := false)
  }

  /** The state a rewrite of the log is for: the present one, or the present one redacted. */
  function Redacting(p: Option<Policy>, a: Abs): Abs {
    if p.None? then a else RedactAbs(p.value, a)
  }

  ghost function Rewriting(p: Option<Policy>, h: seq<Entry>): seq<Entry> {
    if p.None? then h else h + [Redact(p.value)]
  }

  /** By how many entries a rewrite extends the history. */
  function Adds(p: Option<Policy>): nat {
    if p.None? then 0 else 1
  }

  ghost function Rewritten(g: Setup, n: Node, p: Option<Policy>, es: seq<Event>): Node {
    var h := Rewriting(p, n.hist);
    Node(n.base, h, es, Alone(Image(Print(g.codec, es), |h|)), if es == [] then n.seqNo else LastSeq(es), None, true)
  }

  ghost function Renamed(g: Setup, n: Node, p: Option<Policy>, es: seq<Event>): Node {
    n.(healthy := false, pending := if p.None? then n.pending else Some(Redact(p.value)),
       disk := Rename(n.disk, Image(Print(g.codec, es), |Rewriting(p, n.hist)|)))
  }

  /** A store just opened on a sound log that is on the disk, or on a file that was just created. */
  ghost predicate Init(g: Setup, n: Node) {
    && Linked(g.codec, n.base) && n.hist == [] && n.pending.None? && n.healthy
    && AllFit(g.codec, n.log) && Replay(g.codec, n.log).Ok? && Replay(g.codec, n.log).value.abs == n.base
    && Unambiguous(g.codec, n.log)
    && (n.log != [] ==> n.base.requests != map[])
    && n.seqNo == LastSeq(n.log)
    && (n.disk == Alone(Image(Print(g.codec, n.log), 0)) || (n.log == [] && n.disk == Created(0)))
  }

  /** The event is the next record of the log. */
  ghost predicate Ready(g: Setup, n: Node, x: Entry) {
    && n.healthy && x.Commit? && Commits(g.codec, g.opts, State(n), x.op, x.event)
    && n.seqNo < MAX_SEQ && x.event.seqNo == n.seqNo + 1 && !x.event.snapshot
    && |g.codec.Line(x.event)| <= MAX_EVENT_BYTES
  }

  ghost predicate AppendStep(g: Setup, n: Node, x: Entry, m: Node) {
    && Ready(g, n, x)
    && m == Appended(g, n, x)
  }

  /** The write or the sync fails after `k` bytes: the store is poisoned. */
  ghost predicate TornStep(g: Setup, n: Node, x: Entry, k: nat, m: Node) {
    && Ready(g, n, x) && k <= |g.codec.Line(x.event)|
    && m == Torn(g, n, x, k)
  }

  /** What a compaction of the state `a` writes after the event numbered `seqNo`, in any of its orders. */
  ghost predicate IsSnapshotOf(a: Abs, seqNo: uint64, es: seq<Event>) {
    exists order, jobOrder ::
      && Ordering(a, order, jobOrder) && Orderable(a, order, jobOrder)
      && seqNo + |Records(a, order, jobOrder)| <= MAX_SEQ
      && es == Compacted(a, order, jobOrder, seqNo)
  }

  /** The log is rewritten, for the present state or, with a policy, for the redacted one, and its directory is synced. The
      records fit: that is assumed of snapshots, and compaction does not check it. */
  ghost predicate RewriteStep(g: Setup, n: Node, p: Option<Policy>, es: seq<Event>, m: Node) {
    && n.healthy && IsSnapshotOf(Redacting(p, State(n)), n.seqNo, es) && AllFit(g.codec, es)
    && m == Rewritten(g, n, p, es)
  }

  /** A rewrite that fails after the rename: the path names the new file, which may not be on the disk. */
  ghost predicate RenameStep(g: Setup, n: Node, p: Option<Policy>, es: seq<Event>, m: Node) {
    && n.healthy && IsSnapshotOf(Redacting(p, State(n)), n.seqNo, es) && AllFit(g.codec, es)
    && m == Renamed(g, n, p, es)
  }

  /** Any other failure poisons the store without touching the disk. */
  ghost predicate PoisonStep(n: Node, m: Node) {
    m == n.(healthy := false)
  }

  /** The store is opened on this disk: the log is replayed and cut off after its last record, without any sync. */
  ghost predicate OpenOn(g: Setup, n: Node, d: Disk, es: seq<Event>, m: Node) {
    && Split(d.file.content).complete == LinesOf(g.codec, es) && Replay(g.codec, es).Ok? && d.file.told <= |Full(n)|
    && m == Node(n.base, Full(n)[..d.file.told], es, Truncate(d, Good(d.file.content)), LastSeq(es), None, true)
  }

  /** Power is lost, and the store is opened again on one of the possible contents. */
  ghost predicate PowerLossStep(g: Setup, n: Node, i: Image, es: seq<Event>, m: Node) {
    i in Images(n.disk) && OpenOn(g, n, Survivor(i), es, m)
  }

  /** The process ends, for whatever reason, and the store is opened again on what the path names. */
  ghost predicate RestartStep(g: Setup, n: Node, es: seq<Event>, m: Node) {
    OpenOn(g, n, Inherited(n.disk), es, m)
  }

  /** What a process does to the log between its start and its end. */
  ghost predicate LifeStep(g: Setup, n: Node, m: Node) {
    || (exists x :: AppendStep(g, n, x, m))
    || (exists x, k :: TornStep(g, n, x, k, m))
    || (exists p, es :: RewriteStep(g, n, p, es, m))
    || (exists p, es :: RenameStep(g, n, p, es, m))
    || PoisonStep(n, m)
  }

  ghost predicate Next(g: Setup, n: Node, m: Node) {
    || LifeStep(g, n, m)
    || (exists i, es :: PowerLossStep(g, n, i, es, m))
    || (exists es :: RestartStep(g, n, es, m))
  }

  ghost predicate Path(g: Setup, b: seq<Node>, n: Node, m: Node) {
    && b != [] && b[0] == n && b[|b| - 1] == m
    && (forall i :: 0 < i < |b| ==> Next(g, b[i - 1], b[i]))
  }

  /** Zero or more steps. */
  ghost predicate Reaches(g: Setup, n: Node, m: Node) {
    exists b :: Path(g, b, n, m)
  }

  lemma ReachesSelf(g: Setup, n: Node)
    ensures Reaches(g, n, n)
  {
    assert Path(g, [n], n, n);
  }

  lemma ReachesNext(g: Setup, n: Node, m: Node, k: Node)
    requires Reaches(g, n, m) && Next(g, m, k)
    ensures Reaches(g, n, k)
  {
    hide Next;
    var b :| Path(g, b, n, m);
    assert Path(g, b + [k], n, k);
  }

  /** A behavior in which no snapshot record that is written outgrows the record limit. */
  ghost predicate IsBehavior(g: Setup, b: seq<Node>) {
    && b != [] && Init(g, b[0])
    && (forall i :: 0 < i < |b| ==> Next(g, b[i - 1], b[i]))
  }

  /* ---- the invariant ---- */

  /** No entry has a number beyond this one. */
  ghost predicate NumbersUpTo(h: seq<Entry>, seqNo: uint64) {
    forall i :: 0 <= i < |h| && h[i].Commit? ==> h[i].event.seqNo <= seqNo
  }

  /** The numbers of the entries increase. */
  ghost predicate Ordered(h: seq<Entry>) {
    forall i, j :: 0 <= i < j < |h| && h[i].Commit? && h[j].Commit? ==> h[i].event.seqNo < h[j].event.seqNo
  }

  /** These records tell the state after this history. */
  ghost predicate Tells(g: Setup, base: Abs, h: seq<Entry>, es: seq<Event>) {
    && AllFit(g.codec, es) && Replay(g.codec, es).Ok? && Unambiguous(g.codec, es)
    && Replay(g.codec, es).value.abs == After(base, h)
    && (es != [] ==> After(base, h).requests != map[])
    && NumbersUpTo(h, LastSeq(es))
  }

  /** This content opens to the state after the part of the history that it tells. */
  ghost predicate Explained(g: Setup, n: Node, i: Image) {
    && i.told <= |Full(n)|
    && exists es, tail :: i.content == Print(g.codec, es) + tail && NEWLINE !in tail && Tells(g, n.base, Full(n)[..i.told], es)
  }

  /** What the path names tells the most, and no less than what was committed. */
  ghost predicate DiskValid(g: Setup, n: Node) {
    && n.disk.file in n.disk.mine && |n.hist| <= Live(n.disk).told
    && (forall i :: i in Images(n.disk) ==> i.told <= Live(n.disk).told)
    && (n.healthy ==> n.disk.renamed.None? && n.disk.file == Image(Print(g.codec, n.log), |n.hist|) && n.pending.None?)
  }

  ghost predicate Inv(g: Setup, n: Node) {
    && g.codec.Valid() && g.opts.Positive()
    && Linked(g.codec, n.base) && IsRun(g.codec, g.opts, n.base, Full(n)) && Ordered(Full(n))
    && Tells(g, n.base, n.hist, n.log) && n.seqNo == LastSeq(n.log)
    && DiskValid(g, n)
    && (forall i :: i in Images(n.disk) ==> Explained(g, n, i))
  }

  lemma Explain(g: Setup, n: Node, i: Image, es: seq<Event>, tail: Bytes)
    requires NEWLINE !in tail && i.content == Print(g.codec, es) + tail && i.told <= |Full(n)|
    requires Tells(g, n.base, Full(n)[..i.told], es)
    ensures Explained(g, n, i)
  {
  }

  lemma ExplainedLater(g: Setup, n: Node, m: Node, i: Image)
    requires Explained(g, n, i) && m.base == n.base
    requires i.told <= |Full(n)| ==> i.told <= |Full(m)| && Full(m)[..i.told] == Full(n)[..i.told]
    ensures Explained(g, m, i)
  {
    hide Tells, Print;
  }

  lemma AfterSnoc(a: Abs, hist: seq<Entry>, x: Entry)
    ensures After(a, hist + [x]) == Effect(After(a, hist), x)
  {
    assert (hist + [x])[..|hist + [x]| - 1] == hist;
  }

  lemma RunSnoc(g: Setup, a: Abs, hist: seq<Entry>, x: Entry)
    requires IsRun(g.codec, g.opts, a, hist) && Happens(g.codec, g.opts, After(a, hist), x)
    ensures IsRun(g.codec, g.opts, a, hist + [x])
  {
    hide Happens, Effect;
    assert (hist + [x])[..|hist + [x]| - 1] == hist;
  }

  lemma ReplayedUnique(r: Result<Recovered, Error>)
    requires r.Ok? ==> UniqueKeys(r.value.abs.requests)
    ensures KeysUnique(r)
  {
  }

  lemma LinkedKeys(c: Codec, a: Abs)
    requires Linked(c, a)
    ensures UniqueKeys(a.requests)
  {
  }

  lemma InvCodec(g: Setup, n: Node)
    requires Inv(g, n)
    ensures g.codec.Valid() && g.opts.Positive() && Linked(g.codec, n.base) && IsRun(g.codec, g.opts, n.base, n.hist)
  {
    hide Explained, Tells, IsRun, Linked, DiskValid, Ordered;
    RunPrefix(g.codec, g.opts, n.base, Full(n), |n.hist|);
    assert Full(n)[..|n.hist|] == n.hist;
  }

  lemma StateLinked(g: Setup, n: Node)
    requires Inv(g, n)
    ensures Linked(g.codec, State(n))
  {
    hide Inv, Linked, IsRun, After;
    InvCodec(g, n);
    RunLinked(g.codec, g.opts, n.base, n.hist);
  }

  lemma NumbersSnoc(h: seq<Entry>, x: Entry, was: uint64, seqNo: uint64)
    requires NumbersUpTo(h, was) && was <= seqNo && (x.Commit? ==> was < x.event.seqNo <= seqNo)
    requires Ordered(h)
    ensures NumbersUpTo(h + [x], seqNo) && Ordered(h + [x])
  {
  }

  /** The next record extends the log to one that tells the next state. */
  lemma Extends(g: Setup, n: Node, x: Entry)
    requires Inv(g, n) && Ready(g, n, x)
    ensures var es := n.log + [x.event];
            && Tells(g, n.base, n.hist + [x], es) && LastSeq(es) == x.event.seqNo
            && Print(g.codec, es) == Print(g.codec, n.log) + g.codec.Line(x.event)
    ensures IsRun(g.codec, g.opts, n.base, n.hist + [x]) && Ordered(n.hist + [x])
  {
    hide IsRun, Apply, Produces, Explained, EventValid, StateValid, Linked, Unambiguous, UniqueKeys, After, KeysUnique, DiskValid;
    StateLinked(g, n);
    InvCodec(g, n);
    CommitRequests(g.codec, g.opts, State(n), x.op, x.event);
    CommitLinked(g.codec, g.opts, State(n), x.op, x.event);
    LinkedKeys(g.codec, Apply(State(n), x.event));
    ReplaySnoc(g.codec, n.log, x.event);
    ReplayDiscipline(g.codec, n.log);
    PrintSnoc(g.codec, n.log, x.event);
    if !x.event.snapshot {
      assert Check(g.codec, Replay(g.codec, n.log).value, x.event).None?;
    }
    ReplayedUnique(Replay(g.codec, n.log + [x.event]));
    UnambiguousSnoc(g.codec, n.log, x.event);
    AfterSnoc(n.base, n.hist, x);
    RunSnoc(g, n.base, n.hist, x);
    assert Full(n)[..|n.hist|] == n.hist;
    NumbersSnoc(n.hist, x, n.seqNo, x.event.seqNo);
  }

  lemma AppendKept(g: Setup, n: Node, x: Entry, m: Node)
    requires Inv(g, n) && AppendStep(g, n, x, m)
    ensures Inv(g, m)
  {
    hide IsRun, Apply, Commits, Explained, Replay, Print, AllFit, After, Unambiguous, Tells, Ordered;
    Extends(g, n, x);
    var line := g.codec.Line(x.event);
    assert line[..|line|] == line;
    assert Full(m) == m.hist == m.hist[..|m.hist|];
    forall i | i in Images(m.disk) ensures Explained(g, m, i) {
      if i == m.disk.file {
        assert i.content + [] == i.content;
        Explain(g, m, i, m.log, []);
      } else {
        ExplainedLater(g, n, m, i);
      }
    }
  }

  lemma TornImage(g: Setup, n: Node, x: Entry, m: Node, k: nat)
    requires Inv(g, n) && Ready(g, n, x) && k <= |g.codec.Line(x.event)| && m.base == n.base && Full(m) == n.hist + [x]
    ensures Explained(g, m, Grown(n.disk.file, g.codec.Line(x.event), k))
  {
    var line := g.codec.Line(x.event);
    hide IsRun, Apply, Commits, Explained, Replay, Print, AllFit, After, Unambiguous, Tells, Ordered;
    var i := Grown(n.disk.file, line, k);
    if k < |line| {
      LineIsLine(g.codec, x.event);
      TornLine(line, k);
      assert Full(m)[..|n.hist|] == n.hist;
      Explain(g, m, i, n.log, line[..k]);
    } else {
      Extends(g, n, x);
      assert line[..k] == line;
      assert i.content + [] == i.content;
      assert Full(m)[..i.told] == Full(m);
      Explain(g, m, i, n.log + [x.event], []);
    }
  }

  lemma TornKept(g: Setup, n: Node, x: Entry, k: nat, m: Node)
    requires Inv(g, n) && TornStep(g, n, x, k, m)
    ensures Inv(g, m)
  {
    hide IsRun, Apply, Commits, Explained, Replay, Print, AllFit, After, Unambiguous, Tells, Ordered;
    Extends(g, n, x);
    assert Full(m) == n.hist + [x];
    forall i | i in Images(m.disk) ensures Explained(g, m, i) && i.told <= Live(m.disk).told {
      if i in Images(n.disk) {
        ExplainedLater(g, n, m, i);
      } else {
        var j: nat :| j <= k && i == Grown(n.disk.file, g.codec.Line(x.event), j);
        TornImage(g, n, x, m, j);
      }
    }
  }

  /** A snapshot of a linked state replays to that state, with numbers after `seqNo`. */
  lemma SnapshotReplaysTo(g: Setup, a: Abs, seqNo: uint64, es: seq<Event>)
    requires Linked(g.codec, a) && IsSnapshotOf(a, seqNo, es) && (a.requests == map[] ==> seqNo == 0)
    ensures Replay(g.codec, es).Ok? && Replay(g.codec, es).value.abs == a && Unambiguous(g.codec, es)
    ensures LastSeq(es) >= seqNo && (es != [] ==> a.requests != map[]) && (es == [] ==> seqNo == 0) && Mutations(es) == 0
  {
    hide Linked, Ordering, Orderable, Replay, Records, Compacted, Unambiguous;
    var order, jobOrder :|
      && Ordering(a, order, jobOrder) && Orderable(a, order, jobOrder)
      && seqNo + |Records(a, order, jobOrder)| <= MAX_SEQ
      && es == Compacted(a, order, jobOrder, seqNo);
    CompactedReplays(g.codec, a, order, jobOrder, seqNo);
    CompactedUnambiguous(g.codec, a, order, jobOrder, seqNo);
    ReplayCounts(g.codec, es);
  }

  /** A store whose state has no requests has never appended anything. */
  lemma EmptyNumber(g: Setup, n: Node)
    requires Inv(g, n) && State(n).requests == map[]
    ensures n.seqNo == 0
  {
    hide IsRun, Explained, Replay, Linked, After, Unambiguous, AllFit, Print, Ordered, NumbersUpTo, DiskValid;
  }

  lemma RedactedEmpty(p: Policy, a: Abs)
    ensures RedactAbs(p, a).requests == map[] <==> a.requests == map[]
  {
    RedactFrame(p, a);
  }

  lemma RewritingRuns(g: Setup, n: Node, p: Option<Policy>)
    requires Inv(g, n)
    ensures IsRun(g.codec, g.opts, n.base, Rewriting(p, n.hist)) && Ordered(Rewriting(p, n.hist)) && NumbersUpTo(Rewriting(p, n.hist), n.seqNo)
    ensures After(n.base, Rewriting(p, n.hist)) == Redacting(p, State(n)) && Linked(g.codec, Redacting(p, State(n)))
    ensures Redacting(p, State(n)).requests == map[] ==> n.seqNo == 0
  {
    InvCodec(g, n);
    StateLinked(g, n);
    assert Full(n)[..|n.hist|] == n.hist;
    assert Ordered(n.hist);
    hide Inv, IsRun, After, Linked, RedactAbs;
    if p.Some? {
      RedactLinked(g.codec, p.value, State(n));
      RedactedEmpty(p.value, State(n));
      AfterSnoc(n.base, n.hist, Redact(p.value));
      RunSnoc(g, n.base, n.hist, Redact(p.value));
      NumbersSnoc(n.hist, Redact(p.value), n.seqNo, n.seqNo);
    }
    if State(n).requests == map[] {
      EmptyNumber(g, n);
    }
  }

  /** A snapshot tells the state it was written for, with numbers after all earlier ones. */
  lemma SnapshotTells(g: Setup, n: Node, p: Option<Policy>, es: seq<Event>)
    requires Inv(g, n) && IsSnapshotOf(Redacting(p, State(n)), n.seqNo, es) && AllFit(g.codec, es)
    ensures Tells(g, n.base, Rewriting(p, n.hist), es) && LastSeq(es) >= n.seqNo && Mutations(es) == 0
    ensures Replay(g.codec, es).value.abs == Redacting(p, State(n))
    ensures es == [] ==> n.seqNo == 0
  {
    hide Inv, After, Linked, IsSnapshotOf, Replay, Unambiguous, AllFit, RedactAbs, IsRun, Ordered;
    RewritingRuns(g, n, p);
    SnapshotReplaysTo(g, Redacting(p, State(n)), n.seqNo, es);
  }

  lemma RewriteKept(g: Setup, n: Node, p: Option<Policy>, es: seq<Event>, m: Node)
    requires Inv(g, n) && RewriteStep(g, n, p, es, m)
    ensures Inv(g, m)
  {
    hide IsRun, Explained, Print, After, IsSnapshotOf, Tells, Ordered, Linked, AllFit, RedactAbs;
    SnapshotTells(g, n, p, es);
    RewritingRuns(g, n, p);
    assert Full(m) == m.hist == m.hist[..|m.hist|];
    assert m.disk.file.content + [] == m.disk.file.content;
    Explain(g, m, m.disk.file, es, []);
  }

  lemma RenameKept(g: Setup, n: Node, p: Option<Policy>, es: seq<Event>, m: Node)
    requires Inv(g, n) && RenameStep(g, n, p, es, m)
    ensures Inv(g, m)
  {
    hide IsRun, Explained, Print, After, IsSnapshotOf, Tells, Ordered, Linked, AllFit, RedactAbs;
    SnapshotTells(g, n, p, es);
    RewritingRuns(g, n, p);
    var shadow := m.disk.renamed.value;
    assert Full(m) == Rewriting(p, n.hist) == Full(m)[..shadow.told];
    assert shadow.content + [] == shadow.content;
    Explain(g, m, shadow, es, []);
    forall i | i in Images(n.disk) ensures Explained(g, m, i) {
      ExplainedLater(g, n, m, i);
    }
  }

  lemma PoisonKept(g: Setup, n: Node, m: Node)
    requires Inv(g, n) && PoisonStep(n, m)
    ensures Inv(g, m)
  {
    hide IsRun, Explained, Print, After, Tells, Ordered, Linked;
    assert Full(m) == Full(n);
    forall i | i in Images(n.disk) ensures Explained(g, m, i) {
      ExplainedLater(g, n, m, i);
    }
  }

  lemma PrintedLines(c: Codec, es: seq<Event>, tail: Bytes)
    requires c.Valid() && NEWLINE !in tail
    ensures Split(Print(c, es) + tail) == Lines(LinesOf(c, es), tail)
  {
    hide Split;
    forall l | l in LinesOf(c, es) ensures IsLine(l) {
      var i :| 0 <= i < |es| && l == c.Line(es[i]);
      LineIsLine(c, es[i]);
    }
    SplitJoin(LinesOf(c, es), tail);
  }

  /** A log determines its records. */
  lemma LinesDetermine(c: Codec, es: seq<Event>, fs: seq<Event>)
    requires c.Valid() && LinesOf(c, es) == LinesOf(c, fs)
    ensures es == fs
  {
    assert |es| == |LinesOf(c, es)| == |fs|;
    forall i | 0 <= i < |es| ensures es[i] == fs[i] {
      assert LinesOf(c, es)[i] == LinesOf(c, fs)[i];
      LineIsLine(c, es[i]);
      LineIsLine(c, fs[i]);
    }
  }

  /** Recovery of any possible content gives the state after the part of the history that it tells. */
  lemma Recovers(g: Setup, n: Node, i: Image) returns (es: seq<Event>)
    requires Inv(g, n) && i in Images(n.disk)
    ensures i.told <= |Full(n)| && Tells(g, n.base, Full(n)[..i.told], es)
    ensures Recover(g.codec, i.content) == Replay(g.codec, es) && Replay(g.codec, es).Ok?
    ensures Split(i.content).complete == LinesOf(g.codec, es) && i.content[..Good(i.content)] == Print(g.codec, es)
  {
    assert Explained(g, n, i) && g.codec.Valid();
    hide Inv, Replay, AllFit, After, Split, Join, Unambiguous, NumbersUpTo;
    var fs, tail :| i.content == Print(g.codec, fs) + tail && NEWLINE !in tail && Tells(g, n.base, Full(n)[..i.told], fs);
    es := fs;
    assert AllFit(g.codec, es);
    hide Tells, Full;
    PrintedLines(g.codec, es, tail);
    RecoverPrinted(g.codec, es, tail);
  }

  /** One of the possible contents, and with it whatever else stays possible. */
  ghost predicate Offers(n: Node, d: Disk) {
    && d.renamed.None? && d.file in d.mine && Images(d) <= Images(n.disk)
    && forall i :: i in Images(d) ==> i.told <= d.file.told
  }

  lemma SurvivorOffers(n: Node, i: Image)
    requires i in Images(n.disk)
    ensures Offers(n, Survivor(i)) && Survivor(i).file == i && Images(Survivor(i)) == iset{i}
  {
  }

  lemma InheritedOffers(g: Setup, n: Node)
    requires Inv(g, n)
    ensures Offers(n, Inherited(n.disk)) && Inherited(n.disk).file == Live(n.disk) && Images(Inherited(n.disk)) == Images(n.disk)
  {
    hide IsRun, Explained, Tells, Ordered, Linked;
  }

  lemma PrefixRuns(g: Setup, n: Node, t: nat)
    requires Inv(g, n) && t <= |Full(n)|
    ensures IsRun(g.codec, g.opts, n.base, Full(n)[..t]) && Ordered(Full(n)[..t])
  {
    RunPrefix(g.codec, g.opts, n.base, Full(n), t);
    hide IsRun, Explained, Tells, Linked;
  }

  lemma OpenKept(g: Setup, n: Node, d: Disk, es: seq<Event>, m: Node)
    requires Inv(g, n) && Offers(n, d) && OpenOn(g, n, d, es, m)
    ensures Inv(g, m) && Images(m.disk) == Images(d) + iset{m.disk.file} && m.disk.file.told == |m.hist|
  {
    hide IsRun, Explained, Replay, Tells, Ordered, Split, Linked, LinesOf, Print;
    InvCodec(g, n);
    PrefixRuns(g, n, d.file.told);
    var fs := Recovers(g, n, d.file);
    LinesDetermine(g.codec, es, fs);
    assert Full(m) == m.hist == m.hist[..|m.hist|];
    forall i | i in Images(m.disk) ensures Explained(g, m, i) {
      if i in Images(d) {
        assert Full(m)[..i.told] == Full(n)[..i.told];
        ExplainedLater(g, n, m, i);
      } else {
        assert i.content + [] == i.content;
        Explain(g, m, i, es, []);
      }
    }
  }

  lemma LifeKept(g: Setup, n: Node, m: Node)
    requires Inv(g, n) && LifeStep(g, n, m)
    ensures Inv(g, m)
  {
    hide Inv, AppendStep, TornStep, RewriteStep, RenameStep, PoisonStep;
    if x :| AppendStep(g, n, x, m) {
      AppendKept(g, n, x, m);
    } else if x, k :| TornStep(g, n, x, k, m) {
      TornKept(g, n, x, k, m);
    } else if p, es :| RewriteStep(g, n, p, es, m) {
      RewriteKept(g, n, p, es, m);
    } else if p, es :| RenameStep(g, n, p, es, m) {
      RenameKept(g, n, p, es, m);
    } else {
      PoisonKept(g, n, m);
    }
  }

  lemma NextKept(g: Setup, n: Node, m: Node)
    requires Inv(g, n) && Next(g, n, m)
    ensures Inv(g, m)
  {
    hide Inv, LifeStep, OpenOn, Offers, Survivor, Inherited;
    if LifeStep(g, n, m) {
      LifeKept(g, n, m);
    } else if i, es :| PowerLossStep(g, n, i, es, m) {
      SurvivorOffers(n, i);
      OpenKept(g, n, Survivor(i), es, m);
    } else {
      var es :| RestartStep(g, n, es, m);
      InheritedOffers(g, n);
      OpenKept(g, n, Inherited(n.disk), es, m);
    }
  }

  lemma InitInv(g: Setup, n: Node)
    requires g.codec.Valid() && g.opts.Positive() && Init(g, n)
    ensures Inv(g, n)
  {
    hide Linked, Replay, AllFit, Explained, Unambiguous;
    assert Full(n) == [] && n.hist == [];
    assert Tells(g, n.base, [], n.log);
    assert Full(n)[..0] == [];
    assert n.disk.file.content + [] == n.disk.file.content;
    hide Tells;
    Explain(g, n, n.disk.file, n.log, []);
  }

  /** A file that was just created is a sound log. */
  lemma CreatedInit(g: Setup)
    ensures Init(g, Node(EMPTY, [], [], Created(0), 0, None, true))
  {
    EmptyLinked(g.codec, g.opts);
    ReplayNil(g.codec);
    UnambiguousNil(g.codec);
  }

  lemma {:induction false} BehaviorInv(g: Setup, b: seq<Node>, i: nat)
    requires g.codec.Valid() && g.opts.Positive() && IsBehavior(g, b) && i < |b|
    ensures Inv(g, b[i])
    decreases i
  {
    hide Inv, Next, Init;
    if i == 0 {
      InitInv(g, b[0]);
    } else {
      BehaviorInv(g, b, i - 1);
      NextKept(g, b[i - 1], b[i]);
    }
  }

  /* ---- what the code that takes the steps needs ---- */

  /** The node is what a healthy store in state `a` has on disk. */
  ghost predicate Tracks(g: Setup, n: Node, a: Abs, file: Bytes, seqNo: uint64, count: nat) {
    && Inv(g, n) && n.healthy && State(n) == a
    && n.disk.file.content == file && n.seqNo == seqNo && Mutations(n.log) == count
  }

  lemma LifeReaches(g: Setup, n: Node, m: Node)
    requires LifeStep(g, n, m)
    ensures Reaches(g, n, m)
  {
    hide LifeStep;
    assert Next(g, n, m);
    hide Next;
    ReachesSelf(g, n);
    ReachesNext(g, n, n, m);
  }

  lemma MutationSnoc(es: seq<Event>, e: Event)
    ensures Mutations(es + [e]) == Mutations(es) + if e.snapshot then 0 else 1
  {
    assert (es + [e])[..|es|] == es;
  }

  /** A healthy node has committed all that its file tells. */
  lemma TracksTold(g: Setup, n: Node, a: Abs, file: Bytes, seqNo: uint64, count: nat)
    requires Tracks(g, n, a, file, seqNo, count)
    ensures n.disk.file.told == |n.hist| && n.disk.renamed.None? && n.pending.None? && Full(n) == n.hist
  {
    hide IsRun, Replay, Explained, Linked, After, Print, Tells;
  }

  lemma TracksAppended(g: Setup, n: Node, a: Abs, file: Bytes, seqNo: uint64, count: nat, x: Entry)
    requires Tracks(g, n, a, file, seqNo, count) && x.Commit? && Commits(g.codec, g.opts, a, x.op, x.event)
    requires seqNo < MAX_SEQ && x.event.seqNo == seqNo + 1 && !x.event.snapshot && |g.codec.Line(x.event)| <= MAX_EVENT_BYTES
    ensures var m := Appended(g, n, x);
            && Tracks(g, m, Apply(a, x.event), file + g.codec.Line(x.event), x.event.seqNo, count + 1) && Reaches(g, n, m)
            && m.disk == Extended(n.disk, g.codec.Line(x.event))
  {
    hide Inv, Commits, Apply, Replay, After, TornStep, RewriteStep, RenameStep, PoisonStep;
    var m := Appended(g, n, x);
    var line := g.codec.Line(x.event);
    assert line[..|line|] == line;
    assert AppendStep(g, n, x, m);
    assert LifeStep(g, n, m);
    hide AppendStep, LifeStep;
    AppendKept(g, n, x, m);
    LifeReaches(g, n, m);
    AfterSnoc(n.base, n.hist, x);
    MutationSnoc(n.log, x.event);
  }

  lemma TracksTorn(g: Setup, n: Node, a: Abs, file: Bytes, seqNo: uint64, count: nat, x: Entry, k: nat)
    requires Tracks(g, n, a, file, seqNo, count) && x.Commit? && Commits(g.codec, g.opts, a, x.op, x.event)
    requires seqNo < MAX_SEQ && x.event.seqNo == seqNo + 1 && !x.event.snapshot && |g.codec.Line(x.event)| <= MAX_EVENT_BYTES
    requires k <= |g.codec.Line(x.event)|
    ensures var m := Torn(g, n, x, k);
            && Inv(g, m) && Reaches(g, n, m) && m.disk == Write(n.disk, g.codec.Line(x.event), k)
            && m.disk.file.content == file + g.codec.Line(x.event)[..k]
  {
    hide Inv, Commits, Apply, Replay, After, AppendStep, RewriteStep, RenameStep, PoisonStep;
    var m := Torn(g, n, x, k);
    assert TornStep(g, n, x, k, m);
    assert LifeStep(g, n, m);
    hide TornStep, LifeStep;
    TornKept(g, n, x, k, m);
    LifeReaches(g, n, m);
  }

  lemma TracksRewritten(g: Setup, n: Node, a: Abs, file: Bytes, seqNo: uint64, count: nat, p: Option<Policy>, es: seq<Event>)
    requires Tracks(g, n, a, file, seqNo, count) && IsSnapshotOf(Redacting(p, a), seqNo, es) && AllFit(g.codec, es)
    ensures var m := Rewritten(g, n, p, es);
            && Tracks(g, m, Redacting(p, a), Print(g.codec, es), if es == [] then seqNo else LastSeq(es), 0) && Reaches(g, n, m)
            && m.disk == Alone(Image(Print(g.codec, es), n.disk.file.told + Adds(p)))
  {
    hide Inv, AllFit, Replay, IsSnapshotOf, After, Print, RedactAbs, AppendStep, TornStep, RenameStep, PoisonStep, Tells;
    TracksTold(g, n, a, file, seqNo, count);
    var m := Rewritten(g, n, p, es);
    assert RewriteStep(g, n, p, es, m);
    assert LifeStep(g, n, m);
    hide RewriteStep, LifeStep;
    SnapshotTells(g, n, p, es);
    RewritingRuns(g, n, p);
    RewriteKept(g, n, p, es, m);
    LifeReaches(g, n, m);
  }

  lemma TracksRenamed(g: Setup, n: Node, a: Abs, file: Bytes, seqNo: uint64, count: nat, p: Option<Policy>, es: seq<Event>)
    requires Tracks(g, n, a, file, seqNo, count) && IsSnapshotOf(Redacting(p, a), seqNo, es) && AllFit(g.codec, es)
    ensures var m := Renamed(g, n, p, es);
            && Inv(g, m) && Reaches(g, n, m) && m.disk == Rename(n.disk, Image(Print(g.codec, es), n.disk.file.told + Adds(p)))
            && m.disk.file.content == file
  {
    hide Inv, AllFit, Replay, IsSnapshotOf, After, Print, RedactAbs, AppendStep, TornStep, RewriteStep, PoisonStep;
    TracksTold(g, n, a, file, seqNo, count);
    var m := Renamed(g, n, p, es);
    assert RenameStep(g, n, p, es, m);
    assert LifeStep(g, n, m);
    hide RenameStep, LifeStep;
    RenameKept(g, n, p, es, m);
    LifeReaches(g, n, m);
  }

  lemma ReachesTrans(g: Setup, n: Node, m: Node, k: Node)
    requires Reaches(g, n, m) && Reaches(g, m, k)
    ensures Reaches(g, n, k)
  {
    hide Next;
    var b :| Path(g, b, n, m);
    var d :| Path(g, d, m, k);
    var p := b + d[1..];
    forall i | 0 < i < |p| ensures Next(g, p[i - 1], p[i]) {
      if i >= |b| {
        assert p[i] == d[i - |b| + 1];
        assert p[i - 1] == d[i - |b|];
      }
    }
    assert Path(g, p, n, k);
  }

  /** How the process before this one ended: with a power loss that left a content which tells this much, or in any other way. */
  datatype Ending = PowerLost(told: nat) | Exited

  /** The content is one that the store may be opened on after such an end. */
  ghost predicate Left(n: Node, how: Ending, content: Bytes) {
    match how
    case PowerLost(told) => Image(content, told) in Images(n.disk)
    case Exited => content == Live(n.disk).content
  }

  /** The disk that it is opened on. */
  ghost function Found(n: Node, how: Ending, content: Bytes): Disk {
    match how
    case PowerLost(told) => Survivor(Image(content, told))
    case Exited => Inherited(n.disk)
  }

  lemma FoundOffers(g: Setup, n: Node, how: Ending, content: Bytes)
    requires Inv(g, n) && Left(n, how, content)
    ensures var d := Found(n, how, content); Offers(n, d) && d.file.content == content && d.file in Images(n.disk)
  {
    match how {
      case PowerLost(told) => SurvivorOffers(n, Image(content, told));
      case Exited => InheritedOffers(g, n);
    }
    hide Inv, Survivor, Inherited;
  }

  /** The store after it has been opened: it continues the part of the history that the content tells. */
  ghost predicate Reopens(n: Node, how: Ending, content: Bytes, m: Node) {
    var d := Found(n, how, content);
    && d.file.content == content && d.file.told <= |Full(n)| && m.base == n.base && m.hist == Full(n)[..d.file.told]
    && m.disk == Truncate(d, Good(content))
  }

  lemma OpenReaches(g: Setup, n: Node, how: Ending, content: Bytes, es: seq<Event>, m: Node)
    requires Left(n, how, content) && OpenOn(g, n, Found(n, how, content), es, m)
    ensures Reaches(g, n, m)
  {
    hide OpenOn, LifeStep, Survivor, Inherited;
    match how {
      case PowerLost(told) =>
        assert PowerLossStep(g, n, Image(content, told), es, m);
      case Exited =>
        assert RestartStep(g, n, es, m);
    }
    hide PowerLossStep, RestartStep;
    assert Next(g, n, m);
    hide Next;
    ReachesSelf(g, n);
    ReachesNext(g, n, n, m);
  }

  /** Opening a content that the end of a process may have left is a step of the node, and gives what recovery gives. */
  lemma Reopened(g: Setup, n: Node, how: Ending, content: Bytes) returns (es: seq<Event>, m: Node)
    requires Inv(g, n) && Left(n, how, content)
    ensures Recover(g.codec, content).Ok? && OpenOn(g, n, Found(n, how, content), es, m)
    ensures var r := Recover(g.codec, content).value;
            && Tracks(g, m, r.abs, content[..Good(content)], r.seqNo, r.count) && Reaches(g, n, m) && Reopens(n, how, content, m)
            && Linked(g.codec, r.abs)
    ensures UnambiguousLines(g.codec, Split(content).complete)
  {
    hide IsRun, Explained, Replay, After, Linked, Unambiguous, AllFit, Split, Effect, Happens, Inv, Found, Left, Offers;
    var d := Found(n, how, content);
    FoundOffers(g, n, how, content);
    es := Recovers(g, n, d.file);
    InvCodec(g, n);
    m := Node(n.base, Full(n)[..d.file.told], es, Truncate(d, Good(content)), LastSeq(es), None, true);
    assert OpenOn(g, n, d, es, m);
    OpenKept(g, n, d, es, m);
    ReplayDiscipline(g.codec, es);
    UnambiguousPrinted(g.codec, es);
    StateLinked(g, m);
    hide OpenOn, Tells;
    OpenReaches(g, n, how, content, es, m);
  }

  /* ---- what survives ---- */

  /** Whatever the path may show after a power loss tells the first `k` entries of the history. */
  ghost predicate Certain(n: Node, k: nat) {
    forall i :: i in Images(n.disk) ==> i.told >= k
  }

  /** Everything committed is certain. */
  ghost predicate Settled(n: Node) {
    Certain(n, |n.hist|)
  }

  /** A power loss leaves one content, and with it nothing uncertain. */
  lemma PowerLossSettles(n: Node, told: nat, content: Bytes, m: Node)
    requires Reopens(n, PowerLost(told), content, m)
    ensures Settled(m) && |m.hist| == told
  {
  }

  /** The history of `m` begins with the first `k` entries of that of `n`. */
  ghost predicate Begins(n: Node, k: nat, m: Node)
    requires k <= |n.hist|
  {
    k <= |m.hist| && m.hist[..k] == n.hist[..k] && m.base == n.base
  }

  lemma CertainLife(g: Setup, n: Node, m: Node, k: nat)
    requires Inv(g, n) && LifeStep(g, n, m) && k <= |n.hist| && Certain(n, k)
    ensures Certain(m, k) && Begins(n, k, m)
  {
    hide Commits, IsSnapshotOf, AllFit, Print, After, Explained, Tells, IsRun, Ordered, Linked;
  }

  lemma PrefixOf(n: Node, t: nat, k: nat)
    requires k <= |n.hist| && k <= t <= |Full(n)|
    ensures Full(n)[..t][..k] == n.hist[..k]
  {
  }

  lemma CertainOpen(g: Setup, n: Node, d: Disk, es: seq<Event>, m: Node, k: nat)
    requires Inv(g, n) && Offers(n, d) && OpenOn(g, n, d, es, m) && k <= |n.hist| && Certain(n, k)
    ensures Certain(m, k) && Begins(n, k, m)
  {
    hide Inv, Split, LinesOf, Replay, Truncate;
    OpenKept(g, n, d, es, m);
    assert d.file in Images(d);
    hide Images;
    PrefixOf(n, d.file.told, k);
  }

  lemma CertainNext(g: Setup, n: Node, m: Node, k: nat)
    requires Inv(g, n) && Next(g, n, m) && k <= |n.hist| && Certain(n, k)
    ensures Certain(m, k) && Begins(n, k, m)
  {
    hide Inv, LifeStep, OpenOn, Offers, Survivor, Inherited, Certain, Begins;
    if LifeStep(g, n, m) {
      CertainLife(g, n, m, k);
    } else if i, es :| PowerLossStep(g, n, i, es, m) {
      SurvivorOffers(n, i);
      CertainOpen(g, n, Survivor(i), es, m, k);
    } else {
      var es :| RestartStep(g, n, es, m);
      InheritedOffers(g, n);
      CertainOpen(g, n, Inherited(n.disk), es, m, k);
    }
  }

  lemma BeginsOn(n: Node, k: nat, m: Node, q: Node)
    requires k <= |n.hist| && Begins(n, k, m) && Begins(m, k, q)
    ensures Begins(n, k, q)
  {
  }

  lemma SameBase(g: Setup, n: Node, m: Node)
    requires Next(g, n, m)
    ensures m.base == n.base
  {
    hide Commits, IsSnapshotOf, AllFit, Print, After, Replay, Split, Survivor, Inherited, Truncate, Write;
  }

  /** Along any number of steps the invariant holds, and what is certain stays. */
  lemma {:induction false} PathKeeps(g: Setup, b: seq<Node>, n: Node, m: Node, k: nat)
    requires Inv(g, n) && Path(g, b, n, m) && k <= |n.hist|
    ensures Inv(g, m) && m.base == n.base && (Certain(n, k) ==> Certain(m, k) && Begins(n, k, m))
    decreases |b|
  {
    hide Inv, Next, Certain;
    if |b| == 1 {
      assert n == m;
    } else {
      var init := b[..|b| - 1];
      var p := init[|init| - 1];
      assert Path(g, init, n, p);
      PathKeeps(g, init, n, p, k);
      assert Next(g, b[|b| - 2], b[|b| - 1]);
      NextKept(g, p, m);
      SameBase(g, p, m);
      if Certain(n, k) {
        CertainNext(g, p, m, k);
        BeginsOn(n, k, p, m);
      }
    }
  }

  lemma ReachesKeeps(g: Setup, n: Node, m: Node, k: nat)
    requires Inv(g, n) && Reaches(g, n, m) && k <= |n.hist|
    ensures Inv(g, m) && m.base == n.base && (Certain(n, k) ==> Certain(m, k) && Begins(n, k, m))
  {
    hide Inv, Path, Certain, Begins;
    var b :| Path(g, b, n, m);
    PathKeeps(g, b, n, m, k);
  }

  /** The exact condition: the first `k` entries of the history are never taken back, whatever steps, power losses and restarts
      follow, if and only if every content that the path may show after a power loss tells them. */
  lemma SurvivesExactly(g: Setup, n: Node, k: nat)
    requires Inv(g, n) && k <= |n.hist|
    ensures Certain(n, k) <==> forall m :: Reaches(g, n, m) ==> Begins(n, k, m)
  {
    if Certain(n, k) {
      forall m | Reaches(g, n, m) ensures Begins(n, k, m) {
        hide Inv, Reaches, Certain, Begins;
        ReachesKeeps(g, n, m, k);
      }
    } else {
      var i :| i in Images(n.disk) && i.told < k;
      hide Inv, Reaches, Recover, Tracks;
      var es, m := Reopened(g, n, PowerLost(i.told), i.content);
      assert !Begins(n, k, m);
    }
  }

  /* ---- a restart without a power loss ---- */

  /** A process at work: its steps from `n` to `m`. */
  ghost predicate Life(g: Setup, b: seq<Node>, n: Node, m: Node) {
    && b != [] && b[0] == n && b[|b| - 1] == m
    && (forall i :: 0 < i < |b| ==> LifeStep(g, b[i - 1], b[i]))
  }

  ghost predicate IsAppend(g: Setup, n: Node, m: Node) {
    exists x :: AppendStep(g, n, x, m)
  }

  ghost predicate IsRewrite(g: Setup, n: Node, m: Node) {
    exists p, es :: RewriteStep(g, n, p, es, m)
  }

  ghost predicate Appends(g: Setup, b: seq<Node>) {
    |b| >= 2 && (IsAppend(g, b[|b| - 2], b[|b| - 1]) || Appends(g, b[..|b| - 1]))
  }

  ghost predicate Rewrites(g: Setup, b: seq<Node>) {
    |b| >= 2 && (IsRewrite(g, b[|b| - 2], b[|b| - 1]) || Rewrites(g, b[..|b| - 1]))
  }

  /** The contents of the opened file all tell the first `k` entries. */
  ghost predicate FileTells(d: Disk, k: nat) {
    forall i :: i in d.mine ==> i.told >= k
  }

  /** The other files that the path may name all tell the first `k` entries. */
  ghost predicate PathTells(d: Disk, k: nat) {
    forall i :: i in d.others ==> i.told >= k
  }

  /** What one step does for the first `k` entries: an append settles the file, a rewrite settles both, and nothing else settles or
      unsettles anything. */
  ghost predicate Settles(k: nat, n: Node, m: Node, appended: bool, rewritten: bool) {
    && k <= |m.hist|
    && (FileTells(m.disk, k) <==> FileTells(n.disk, k) || appended || rewritten)
    && (PathTells(m.disk, k) <==> PathTells(n.disk, k) || rewritten)
    && (m.disk.renamed.Some? ==> m.disk.renamed.value.told >= k)
  }

  lemma AppendSettles(g: Setup, n: Node, x: Entry, m: Node, k: nat)
    requires Inv(g, n) && AppendStep(g, n, x, m) && k <= |n.hist|
    ensures Settles(k, n, m, true, false)
  {
    hide Commits, After, Explained, Tells, IsRun, Ordered, Linked;
  }

  lemma TornSettles(g: Setup, n: Node, x: Entry, j: nat, m: Node, k: nat)
    requires Inv(g, n) && TornStep(g, n, x, j, m) && k <= |n.hist|
    ensures Settles(k, n, m, false, false)
  {
    hide Commits, After, Explained, Tells, IsRun, Ordered, Linked;
    assert forall i :: i in n.disk.mine ==> i in m.disk.mine;
  }

  lemma RewriteSettles(g: Setup, n: Node, p: Option<Policy>, es: seq<Event>, m: Node, k: nat)
    requires Inv(g, n) && RewriteStep(g, n, p, es, m) && k <= |n.hist|
    ensures Settles(k, n, m, true, true)
  {
    hide IsSnapshotOf, AllFit, After, Explained, Tells, IsRun, Ordered, Linked, Print;
  }

  lemma RenameSettles(g: Setup, n: Node, p: Option<Policy>, es: seq<Event>, m: Node, k: nat)
    requires Inv(g, n) && RenameStep(g, n, p, es, m) && k <= |n.hist|
    ensures Settles(k, n, m, false, false)
  {
    hide IsSnapshotOf, AllFit, After, Explained, Tells, IsRun, Ordered, Linked, Print;
  }

  lemma PoisonSettles(n: Node, m: Node, k: nat)
    requires PoisonStep(n, m) && k <= |n.hist| && (n.disk.renamed.Some? ==> n.disk.renamed.value.told >= k)
    ensures Settles(k, n, m, false, false)
  {
  }

  lemma SettlesBoth(k: nat, n: Node, m: Node, appended: bool)
    requires Settles(k, n, m, true, true)
    ensures Settles(k, n, m, appended, true)
  {
  }

  /** A step is no append or rewrite by accident: what the steps of another kind leave is what they leave. */
  lemma StepSettles(g: Setup, n: Node, m: Node, k: nat)
    requires Inv(g, n) && LifeStep(g, n, m) && k <= |n.hist| && (n.disk.renamed.Some? ==> n.disk.renamed.value.told >= k)
    ensures Settles(k, n, m, IsAppend(g, n, m), IsRewrite(g, n, m))
  {
    hide Inv, AppendStep, TornStep, RewriteStep, RenameStep, Settles;
    if p, es :| RewriteStep(g, n, p, es, m) {
      RewriteSettles(g, n, p, es, m, k);
      SettlesBoth(k, n, m, IsAppend(g, n, m));
    } else if x :| AppendStep(g, n, x, m) {
      AppendSettles(g, n, x, m, k);
    } else if x, j :| TornStep(g, n, x, j, m) {
      TornSettles(g, n, x, j, m, k);
    } else if p, es :| RenameStep(g, n, p, es, m) {
      RenameSettles(g, n, p, es, m, k);
    } else {
      PoisonSettles(n, m, k);
    }
  }

  /** Which syncs a life has made decides what it has settled. */
  lemma {:induction false} LifeSettles(g: Setup, b: seq<Node>, n: Node, m: Node, k: nat)
    requires Inv(g, n) && Life(g, b, n, m) && k <= |n.hist| && n.disk.renamed.None?
    ensures Inv(g, m) && Settles(k, n, m, Appends(g, b), Rewrites(g, b))
    decreases |b|
  {
    hide Inv, LifeStep, IsAppend, IsRewrite, FileTells, PathTells;
    if |b| == 1 {
      assert n == m;
    } else {
      var init := b[..|b| - 1];
      var q := init[|init| - 1];
      assert Life(g, init, n, q);
      LifeSettles(g, init, n, q, k);
      assert LifeStep(g, b[|b| - 2], b[|b| - 1]);
      LifeKept(g, q, m);
      assert b[|b| - 2] == q;
      StepSettles(g, q, m, k);
    }
  }

  /** The file that the path names can only lose what it does not show. */
  ghost predicate FileAgrees(n: Node) {
    forall i :: i in Inherited(n.disk).mine ==> i.told == Live(n.disk).told
  }

  /** No other file that the path may name tells less. */
  ghost predicate PathAgrees(n: Node) {
    forall i :: i in Inherited(n.disk).others ==> i.told == Live(n.disk).told
  }

  lemma RestartTells(g: Setup, n: Node, es: seq<Event>, m: Node)
    requires Inv(g, n) && RestartStep(g, n, es, m)
    ensures Inv(g, m) && m.disk.renamed.None? && |m.hist| == Live(n.disk).told
    ensures FileTells(m.disk, |m.hist|) <==> FileAgrees(n)
    ensures PathTells(m.disk, |m.hist|) <==> PathAgrees(n)
  {
    InheritedOffers(g, n);
    OpenKept(g, n, Inherited(n.disk), es, m);
    hide Inv, Inherited, Split, LinesOf, Replay;
    var d := Inherited(n.disk);
    assert forall i :: i in d.mine ==> i in m.disk.mine;
    assert forall i :: i in m.disk.mine ==> i in d.mine || i == m.disk.file;
  }

  lemma CertainParts(n: Node, k: nat)
    requires n.disk.renamed.Some? ==> n.disk.renamed.value.told >= k
    ensures Certain(n, k) <==> FileTells(n.disk, k) && PathTells(n.disk, k)
  {
  }

  /** A restart that follows no power loss syncs nothing. What it shows survives all that may follow, at a later point of the life
      it begins, if and only if the contents that the earlier life left to the file agree, or that life has appended or rewritten
      since, and the other files that the path may name agree, or that life has rewritten since. */
  lemma RestartSurvives(g: Setup, n: Node, es: seq<Event>, m: Node, b: seq<Node>, p: Node)
    requires Inv(g, n) && RestartStep(g, n, es, m) && Life(g, b, m, p)
    ensures |m.hist| <= |p.hist|
    ensures (forall q :: Reaches(g, p, q) ==> Begins(p, |m.hist|, q))
        <==> (FileAgrees(n) || Appends(g, b) || Rewrites(g, b)) && (PathAgrees(n) || Rewrites(g, b))
  {
    hide Inv, RestartStep, Life, Appends, Rewrites, FileTells, PathTells, FileAgrees, PathAgrees, Certain, Begins, Reaches;
    RestartTells(g, n, es, m);
    LifeSettles(g, b, m, p, |m.hist|);
    CertainParts(p, |m.hist|);
    SurvivesExactly(g, p, |m.hist|);
  }

  /** After an append everything is certain exactly if there is no other file that the path may name. */
  lemma ExtendedSettles(g: Setup, n: Node, line: Bytes, m: Node)
    requires Inv(g, n) && n.healthy && Inv(g, m) && m.healthy && m.disk == Extended(n.disk, line)
    ensures Settled(m) <==> n.disk.others == iset{}
  {
    hide Explained, Tells, IsRun, Ordered, Linked;
  }

  lemma AloneSettles(g: Setup, i: Image, m: Node)
    requires Inv(g, m) && m.healthy && m.disk == Alone(i)
    ensures Settled(m)
  {
    hide Explained, Tells, IsRun, Ordered, Linked;
  }

  lemma StepOthers(g: Setup, n: Node, m: Node)
    requires LifeStep(g, n, m)
    ensures m.disk.others == if IsRewrite(g, n, m) then iset{} else n.disk.others
  {
    hide Commits, IsSnapshotOf, AllFit, After, Print;
  }

  /** Only a rewrite changes which other files the path may name. */
  lemma {:induction false} LifeOthers(g: Setup, b: seq<Node>, n: Node, m: Node)
    requires Life(g, b, n, m)
    ensures m.disk.others == if Rewrites(g, b) then iset{} else n.disk.others
    decreases |b|
  {
    hide LifeStep, IsRewrite;
    if |b| == 1 {
      assert n == m;
    } else {
      var init := b[..|b| - 1];
      var q := init[|init| - 1];
      assert Life(g, init, n, q);
      LifeOthers(g, init, n, q);
      assert LifeStep(g, b[|b| - 2], b[|b| - 1]);
      StepOthers(g, q, m);
    }
  }

  lemma LifeParts(g: Setup, b: seq<Node>, n: Node, m: Node, i: nat)
    requires Life(g, b, n, m) && i < |b|
    ensures Life(g, b[..i + 1], n, b[i]) && Life(g, b[i..], b[i], m)
  {
    hide LifeStep;
    var d := b[i..];
    forall j | 0 < j < |d| ensures LifeStep(g, d[j - 1], d[j]) {
      assert d[j] == b[i + j] && d[j - 1] == b[i + j - 1];
    }
  }

  lemma AppendTells(g: Setup, n: Node, x: Entry, m: Node)
    requires Inv(g, n) && AppendStep(g, n, x, m)
    ensures FileTells(m.disk, |m.hist|) && m.disk.renamed.None? && |m.hist| == |n.hist| + 1
  {
    hide Commits, After, Explained, Tells, IsRun, Ordered, Linked;
  }

  lemma OthersBehind(g: Setup, n: Node)
    requires Inv(g, n) && n.healthy
    ensures n.disk.renamed.None? && forall i :: i in n.disk.others ==> i.told <= |n.hist|
  {
    hide Explained, Tells, IsRun, Ordered, Linked;
  }

  /** What a process has acknowledged since its start, by an append that was synced, survives all that may follow if and only if
      there is no other file that the path may name, or the process has rewritten the log. Another file there is after a restart
      on a rename that was not synced, and after the log was created. */
  lemma AcknowledgedSurvives(g: Setup, n: Node, b: seq<Node>, p: Node, i: nat, x: Entry)
    requires Inv(g, n) && n.healthy && Life(g, b, n, p) && 0 < i < |b| && AppendStep(g, b[i - 1], x, b[i])
    ensures |b[i].hist| <= |p.hist|
    ensures (forall q :: Reaches(g, p, q) ==> Begins(p, |b[i].hist|, q)) <==> n.disk.others == iset{} || Rewrites(g, b)
  {
    hide Inv, AppendStep, Life, Appends, Rewrites, FileTells, Certain, Begins, Reaches;
    var k := |b[i].hist|;
    OthersBehind(g, n);
    LifeParts(g, b, n, p, i - 1);
    LifeParts(g, b, n, p, i);
    LifeSettles(g, b[..i], n, b[i - 1], |n.hist|);
    AppendTells(g, b[i - 1], x, b[i]);
    AppendKept(g, b[i - 1], x, b[i]);
    LifeSettles(g, b[i..], b[i], p, k);
    LifeOthers(g, b, n, p);
    CertainParts(p, k);
    SurvivesExactly(g, p, k);
  }

  lemma ReadyTold(g: Setup, n: Node)
    requires Inv(g, n) && n.healthy
    ensures Full(n) == n.hist && n.disk.file in n.disk.mine && n.disk.renamed.None? && n.disk.file.told == |n.hist|
  {
    hide IsRun, Explained, Tells, Ordered, Linked;
  }

  lemma LogTold(g: Setup, n: Node)
    requires Inv(g, n) && n.healthy
    ensures n.disk.file.content == Print(g.codec, n.log) && n.seqNo == LastSeq(n.log)
  {
    hide IsRun, Explained, Tells, Ordered, Linked;
  }

  /** The failing input of an unsynced record: its sync fails or the process dies before it, the restart shows the event, and a power
      loss takes it back. */
  lemma UnsyncedLost(g: Setup, n: Node, x: Entry) returns (t: Node, m: Node, q: Node)
    requires Inv(g, n) && Ready(g, n, x)
    ensures TornStep(g, n, x, |g.codec.Line(x.event)|, t)
    ensures exists es :: RestartStep(g, t, es, m)
    ensures exists i, es :: PowerLossStep(g, m, i, es, q)
    ensures m.healthy && m.hist == n.hist + [x] && q.hist == n.hist && q.base == m.base == n.base
    ensures !FileAgrees(t)
  {
    hide Inv, Commits, Recover, Reaches, OpenOn, Good, UnambiguousLines, Linked;
    var line := g.codec.Line(x.event);
    ReadyTold(g, n);
    t := Torn(g, n, x, |line|);
    TornKept(g, n, x, |line|, t);
    assert Grown(n.disk.file, line, 0) == n.disk.file;
    assert n.disk.file in t.disk.mine;
    var es, m' := Reopened(g, t, Exited, Live(t.disk).content);
    m := m';
    assert RestartStep(g, t, es, m);
    assert n.disk.file in Images(m.disk);
    var fs, q' := Reopened(g, m, PowerLost(|n.hist|), n.disk.file.content);
    q := q';
    assert PowerLossStep(g, m, n.disk.file, fs, q);
  }

  /** A capture and its forwarding job are one record: no committed or recovered state has the one without
      the other right after the capture. */
  lemma CaptureWhole(c: Codec, o: Options, a: Abs, e: Event)
    requires Linked(c, a) && Commits(c, o, a, Capturing, e)
    ensures e.request.value.id in Apply(a, e).requests
    ensures e.job.Some? ==> e.job.value.id in Apply(a, e).jobs && Apply(a, e).jobs[e.job.value.id] == e.job.value
                            && e.job.value.requestID == e.request.value.id
  {
    RequestsAfter(c, a, e);
    JobsAfter(c, a, e);
    hide Linked, Apply;
  }

  lemma CaptureArrives(c: Codec, o: Options, a: Abs, e: Event)
    requires Linked(c, a) && Commits(c, o, a, Capturing, e)
    ensures var r := e.request.value;
            && r.id !in a.requests && Holders(a, KeyOf(r)) == {}
            && r.id in Apply(a, e).requests && Holders(Apply(a, e), KeyOf(r)) != {}
  {
    hide Linked, Apply, CaptureEvictions;
    RequestsAfter(c, a, e);
    assert e.request.value.id in Holders(Apply(a, e), KeyOf(e.request.value));
  }

  /** For a capture that is the capture itself: the restarted store holds its key, so that a repeat is answered as a duplicate and
      writes nothing; after the power loss the capture is gone. */
  lemma CaptureLost(g: Setup, n: Node, x: Entry, m: Node)
    requires Inv(g, n) && x.Commit? && x.op == Capturing && Commits(g.codec, g.opts, State(n), x.op, x.event)
    requires m.base == n.base && m.hist == n.hist + [x]
    ensures var r := x.event.request.value;
            && r.id in State(m).requests && Holders(State(m), KeyOf(r)) != {}
            && r.id !in State(n).requests && Holders(State(n), KeyOf(r)) == {}
  {
    hide Inv, Linked, After, Apply, EventValid, StateValid, CaptureEvictions;
    StateLinked(g, n);
    AfterSnoc(n.base, n.hist, x);
    CaptureArrives(g.codec, g.opts, State(n), x.event);
  }

  /** Opening a printed log finds its records. */
  lemma PrintedOpened(g: Setup, n: Node, d: Disk, log: seq<Event>, es: seq<Event>, m: Node)
    requires g.codec.Valid() && OpenOn(g, n, d, es, m) && d.file.content == Print(g.codec, log)
    ensures es == log && m.seqNo == LastSeq(log)
  {
    hide Replay, Good, Split;
    assert Print(g.codec, log) + [] == Print(g.codec, log);
    PrintedLines(g.codec, log, []);
    LinesDetermine(g.codec, es, log);
  }

  /** The failing input of an unsynced rename: the rename is done and its directory is not synced, the restart opens the new file,
      an event is appended, synced and acknowledged there, and a power loss brings the old file back, with its numbers. */
  lemma RenamedLost(g: Setup, n: Node, es: seq<Event>, x: Entry) returns (t: Node, m: Node, p: Node, q: Node)
    requires Inv(g, n) && n.healthy && IsSnapshotOf(State(n), n.seqNo, es) && AllFit(g.codec, es)
    requires x.Commit? && Commits(g.codec, g.opts, State(n), x.op, x.event) && LastSeq(es) < MAX_SEQ
    requires x.event.seqNo == LastSeq(es) + 1 && !x.event.snapshot && |g.codec.Line(x.event)| <= MAX_EVENT_BYTES
    ensures RenameStep(g, n, None, es, t)
    ensures exists fs :: RestartStep(g, t, fs, m)
    ensures AppendStep(g, m, x, p)
    ensures exists i, fs :: PowerLossStep(g, p, i, fs, q)
    ensures p.healthy && p.hist == n.hist + [x] && q.hist == n.hist && q.base == p.base == n.base
    ensures q.seqNo == n.seqNo < p.seqNo
  {
    hide Inv, Commits, Recover, Reaches, OpenOn, Good, UnambiguousLines, Linked, IsSnapshotOf, AllFit, Replay, Print;
    ReadyTold(g, n);
    t := Renamed(g, n, None, es);
    assert RenameStep(g, n, None, es, t);
    RenameKept(g, n, None, es, t);
    var before := n.disk.file;
    assert before in t.disk.mine;
    SnapshotTells(g, n, None, es);
    var fs, m' := Reopened(g, t, Exited, Live(t.disk).content);
    m := m';
    assert RestartStep(g, t, fs, m);
    assert m.hist == n.hist;
    InvCodec(g, n);
    PrintedOpened(g, t, Inherited(t.disk), es, fs, m);
    assert before in m.disk.others;
    p := Appended(g, m, x);
    assert AppendStep(g, m, x, p);
    AppendKept(g, m, x, p);
    assert before in Images(p.disk);
    var gs, q' := Reopened(g, p, PowerLost(|n.hist|), before.content);
    q := q';
    assert PowerLossStep(g, p, before, gs, q);
    LogTold(g, n);
    PrintedOpened(g, p, Survivor(before), n.log, gs, q);
  }

  /** The failing input of a new file: its directory is not synced, so a power loss takes back whatever was acknowledged. */
  lemma CreatedLost(g: Setup, x: Entry) returns (n: Node, p: Node, q: Node)
    requires g.codec.Valid() && g.opts.Positive() && x.Commit? && Commits(g.codec, g.opts, EMPTY, x.op, x.event)
    requires x.event.seqNo == 1 && !x.event.snapshot && |g.codec.Line(x.event)| <= MAX_EVENT_BYTES
    ensures Init(g, n) && n.disk == Created(0) && AppendStep(g, n, x, p)
    ensures exists i, es :: PowerLossStep(g, p, i, es, q)
    ensures p.healthy && p.hist == [x] && q.hist == [] && q.base == EMPTY
  {
    hide Inv, Commits, Recover, Reaches, OpenOn, Good, UnambiguousLines, Linked;
    n := Node(EMPTY, [], [], Created(0), 0, None, true);
    CreatedInit(g);
    InitInv(g, n);
    assert State(n) == EMPTY;
    p := Appended(g, n, x);
    assert AppendStep(g, n, x, p);
    AppendKept(g, n, x, p);
    var gone := Image([], 0);
    assert gone in p.disk.others;
    var es, q' := Reopened(g, p, PowerLost(0), []);
    q := q';
    assert PowerLossStep(g, p, gone, es, q);
  }

  /* ---- the theorems ---- */

  lemma TruncatedOpens(c: Codec, img: Bytes)
    ensures Recover(c, img[..Good(img)]) == Recover(c, img)
  {
    TruncateIdempotent(img);
  }

  lemma BehaviorPath(g: Setup, b: seq<Node>, i: nat, j: nat)
    requires IsBehavior(g, b) && i <= j < |b|
    ensures Reaches(g, b[i], b[j])
  {
    hide Next, Init;
    var d := b[i..j + 1];
    forall k | 0 < k < |d| ensures Next(g, d[k - 1], d[k]) {
      assert d[k - 1] == b[i + k - 1] && d[k] == b[i + k];
    }
    assert Path(g, d, b[i], b[j]);
  }

  /** Along a behavior with any power losses and restarts, what is certain at one point stays, in the same order, at all later
      points. For the two kinds of opening this rests on `Reopened`: it shows that every content which may be left opens, to the
      part of the history that it tells. */
  lemma BehaviorExtends(g: Setup, b: seq<Node>, i: nat, j: nat, k: nat)
    requires g.codec.Valid() && g.opts.Positive() && IsBehavior(g, b) && i <= j < |b|
    requires k <= |b[i].hist| && Certain(b[i], k)
    ensures Certain(b[j], k) && Begins(b[i], k, b[j])
  {
    hide *;
    BehaviorInv(g, b, i);
    BehaviorPath(g, b, i, j);
    ReachesKeeps(g, b[i], b[j], k);
  }

  lemma BehaviorBase(g: Setup, b: seq<Node>, i: nat)
    requires g.codec.Valid() && g.opts.Positive() && IsBehavior(g, b) && i < |b|
    ensures Inv(g, b[i]) && b[i].base == b[0].base
  {
    hide *;
    BehaviorInv(g, b, 0);
    BehaviorPath(g, b, 0, i);
    ReachesKeeps(g, b[0], b[i], 0);
  }

  lemma RecoveredNumbers(g: Setup, base: Abs, h: seq<Entry>, es: seq<Event>)
    requires Tells(g, base, h, es)
    ensures Replay(g.codec, es).Ok? && Replay(g.codec, es).value.abs == After(base, h) && NumbersUpTo(h, Replay(g.codec, es).value.seqNo)
  {
    hide Replay, Unambiguous;
    ReplayDiscipline(g.codec, es);
  }

  lemma ImageTold(g: Setup, n: Node, i: Image)
    requires Inv(g, n) && i in Images(n.disk)
    ensures i == Live(n.disk) || Settled(n) ==> |n.hist| <= i.told
  {
    hide IsRun, Explained, Tells, Ordered, Linked;
  }

  /** Crash refinement: after any interleaving of operations, torn writes, compactions, redactions, failures, power losses and
      restarts, every content that the path may show can be opened, and opening it yields exactly the state after the part
      of the committed history that it tells, or of that history and the one operation in flight; the numbers of that part are not
      beyond the recovered one, and cutting the content first changes nothing. What the path names now tells everything
      committed. So does every content exactly if the store is settled. */
  lemma CrashRefinement(g: Setup, b: seq<Node>, i: nat, img: Image)
    requires g.codec.Valid() && g.opts.Positive() && IsBehavior(g, b) && i < |b| && img in Images(b[i].disk)
    ensures var r := Recover(g.codec, img.content);
            && r.Ok? && img.told <= |Full(b[i])| && r.value.abs == After(b[0].base, Full(b[i])[..img.told])
            && NumbersUpTo(Full(b[i])[..img.told], r.value.seqNo)
            && Recover(g.codec, img.content[..Good(img.content)]) == r
    ensures img == Live(b[i].disk) || Settled(b[i]) ==> |b[i].hist| <= img.told
  {
    hide *;
    BehaviorBase(g, b, i);
    var es := Recovers(g, b[i], img);
    TruncatedOpens(g.codec, img.content);
    RecoveredNumbers(g, b[i].base, Full(b[i])[..img.told], es);
    ImageTold(g, b[i], img);
  }

  /** The numbers of the committed history increase strictly, over appends, compactions, redactions, power losses and restarts. */
  lemma HistoryOrdered(g: Setup, b: seq<Node>, i: nat)
    requires g.codec.Valid() && g.opts.Positive() && IsBehavior(g, b) && i < |b|
    ensures Ordered(b[i].hist) && NumbersUpTo(b[i].hist, b[i].seqNo)
  {
    BehaviorInv(g, b, i);
    hide IsBehavior, Explained, IsRun, Linked, Replay, AllFit, Unambiguous, After;
    var n := b[i];
    assert n.hist == Full(n)[..|n.hist|];
  }

  /** Of two appends the later one has the greater number, unless the earlier one was taken back in between. That it was not is
      certain if the store was settled; `RenamedLost` is a case where it was and the numbers go back. */
  lemma SequencesIncrease(g: Setup, b: seq<Node>, i: nat, j: nat, x: Entry, y: Entry)
    requires g.codec.Valid() && g.opts.Positive() && IsBehavior(g, b) && 0 < i < j < |b|
    requires AppendStep(g, b[i - 1], x, b[i]) && AppendStep(g, b[j - 1], y, b[j])
    requires Settled(b[i]) || b[i].hist <= b[j - 1].hist
    ensures x.event.seqNo < y.event.seqNo
  {
    hide IsBehavior, Commits, Next, Certain;
    if Settled(b[i]) {
      BehaviorExtends(g, b, i, j - 1, |b[i].hist|);
    }
    HistoryOrdered(g, b, j);
    var h := b[j].hist;
    assert h[|b[i].hist| - 1] == x && h[|h| - 1] == y;
  }

  /** The state after the first `k` entries. */
  ghost function StateAt(n: Node, k: nat): Abs
    requires k <= |n.hist|
  {
    After(n.base, n.hist[..k])
  }

  /** What was committed, redactions included, after the first `k` entries. */
  ghost function Later(n: Node, k: nat): seq<Entry> {
    if k <= |n.hist| then n.hist[k..] else []
  }

  lemma LaterRuns(g: Setup, n: Node, k: nat, m: Node)
    requires Inv(g, n) && Reaches(g, n, m) && k <= |n.hist| && Certain(n, k)
    ensures Begins(n, k, m) && Linked(g.codec, StateAt(n, k))
    ensures IsRun(g.codec, g.opts, StateAt(n, k), Later(m, k)) && After(StateAt(n, k), Later(m, k)) == State(m)
  {
    hide Reaches, After, IsRun, Inv, Linked, Certain;
    ReachesKeeps(g, n, m, k);
    InvCodec(g, n);
    InvCodec(g, m);
    RunPrefix(g.codec, g.opts, n.base, n.hist, k);
    RunLinked(g.codec, g.opts, n.base, n.hist[..k]);
    assert m.hist == m.hist[..k] + Later(m, k);
    RunSplit(g.codec, g.opts, m.base, m.hist[..k], Later(m, k));
  }

  /** Acknowledged work survives: a job that was in the store after the first `k` entries, which are certain, is in it after any
      number of further operations, evictions, compactions, redactions, failures, power losses and restarts, for the same
      request and target and with that request, unless it was finished in between. For all that is committed in a settled
      store that is every job. By `SurvivesExactly` what is not certain may be lost, and `RestartSurvives` says what is. */
  lemma WorkSurvives(g: Setup, n: Node, k: nat, m: Node, j: string)
    requires Inv(g, n) && Reaches(g, n, m) && k <= |n.hist| && Certain(n, k) && j in StateAt(n, k).jobs
    ensures var job := StateAt(n, k).jobs[j];
            && Begins(n, k, m)
            && (Keeps(State(m), j, job.requestID, job.url) || FinishedDuring(StateAt(n, k), Later(m, k), j, job.requestID, job.url))
  {
    hide Reaches, After, IsRun, Inv, FinishedDuring, Keeps, Certain, Begins, Linked;
    LaterRuns(g, n, k, m);
    WorkKept(g.codec, g.opts, StateAt(n, k), Later(m, k), j);
  }

  /** Deduplication survives: a capture of the part of the history that is certain, as long as it stays retained, is after any number
      of further operations, compactions, redactions, failures, power losses and restarts the one and only holder of its key, and
      unchanged but for its headers. */
  lemma KeySurvives(g: Setup, n: Node, k: nat, m: Node, id: string)
    requires Inv(g, n) && Reaches(g, n, m) && k <= |n.hist| && Certain(n, k) && RetainedThrough(StateAt(n, k), Later(m, k), id)
    ensures id in StateAt(n, k).requests && Holders(State(m), KeyOf(StateAt(n, k).requests[id])) == {id}
    ensures id in State(m).requests && SameButHeaders(StateAt(n, k).requests[id], State(m).requests[id])
  {
    hide Reaches, After, IsRun, Inv, RetainedThrough, Linked, Holders, Certain, Begins;
    LaterRuns(g, n, k, m);
    KeyHeld(g.codec, g.opts, StateAt(n, k), Later(m, k), id);
    RetainedUnchanged(g.codec, g.opts, StateAt(n, k), Later(m, k), id);
  }

  /** In the history that stands at any point of a behavior, whatever power losses and restarts have come before, the missing job of
      a capture is repaired at most once while the capture is retained. */
  lemma RepairSurvives(g: Setup, b: seq<Node>, n: nat, i: nat, j: nat, id: string)
    requires g.codec.Valid() && g.opts.Positive() && IsBehavior(g, b) && n < |b| && i < j < |b[n].hist|
    requires var run := b[n].hist;
             RepairOf(run[i], id) && RetainedThrough(After(b[n].base, run[..i + 1]), run[i + 1..j], id)
    ensures !RepairOf(b[n].hist[j], id)
  {
    hide IsBehavior, After, IsRun, Inv, RetainedThrough, Linked;
    BehaviorInv(g, b, n);
    InvCodec(g, b[n]);
    RepairedAgain(g.codec, g.opts, b[n].base, b[n].hist, i, j, id);
  }
}
