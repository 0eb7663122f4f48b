/** Workers and leases: interleaved claims, expiries, reclaims and outcomes over the shared store. */
module Leases {
  import opened Wrappers
  import opened Model
  import opened Spec
  import opened Linkage
  import opened Operations
  import opened Guarantees
  import opened Redaction

  /** A worker forwards one job at a time: it claims, counts the earlier attempts, and resolves.
      `token` numbers the claim. */
  datatype Worker = Idle | Claimed(job: string, token: nat) | Counted(job: string, token: nat, number: int)

  datatype World = World(
    abs: Abs,
    workers: map<string, Worker>,
    latest: map<string, nat>,    // the latest claim of each job
    holder: map<nat, string>,    // who made each claim
    expiry: map<nat, Time>,      // until when
    resolved: set<nat>,          // the claims with a recorded outcome
    revoked: set<nat>,           // the claims taken back by RecoverLeases
    next: nat)

  datatype Config = Config(codec: Codec, opts: Options, attempts: int)

  function WorkerOf(s: World, w: string): Worker {
    if w in s.workers then s.workers[w] else Idle
  }

  ghost predicate ClaimStep(g: Config, s: World, w: string, now: Time, lease: int, e: Event, t: World) {
    && WorkerOf(s, w).Idle?
    && Commits(g.codec, g.opts, s.abs, Claiming(w, now, lease), e)
    && t == s.(abs := Apply(s.abs, e), workers := s.workers[w := Claimed(e.job.value.id, s.next)],
               latest := s.latest[e.job.value.id := s.next], holder := s.holder[s.next := w],
               expiry := s.expiry[s.next := now + lease], next := s.next + 1)
  }

  ghost predicate CountStep(s: World, w: string, n: int, t: World) {
    && WorkerOf(s, w).Claimed? && IsHighest(s.abs, WorkerOf(s, w).job, n)
    && t == s.(workers := s.workers[w := Counted(WorkerOf(s, w).job, WorkerOf(s, w).token, n + 1)])
  }

  /** The forwarding loop never retries after its last permitted attempt. */
  ghost predicate RecordStep(g: Config, s: World, w: string, e: Event, t: World) {
    && WorkerOf(s, w).Counted?
    && Commits(g.codec, g.opts, s.abs, Recording(w), e)
    && e.job.value.id == WorkerOf(s, w).job && e.attempt.value.number == WorkerOf(s, w).number
    && (e.attempt.value.number >= g.attempts ==> e.job.value.state != Retrying)
    && t == s.(abs := Apply(s.abs, e), workers := s.workers[w := Idle], resolved := s.resolved + {WorkerOf(s, w).token})
  }

  ghost predicate FinishStep(g: Config, s: World, w: string, e: Event, t: World) {
    && !WorkerOf(s, w).Idle?
    && Commits(g.codec, g.opts, s.abs, Finishing(w), e)
    && e.job.value.id == WorkerOf(s, w).job
    && t == s.(abs := Apply(s.abs, e), workers := s.workers[w := Idle], resolved := s.resolved + {WorkerOf(s, w).token})
  }

  /** A worker drops its job: the request could not be loaded, or its outcome was refused. */
  ghost predicate DropStep(s: World, w: string, t: World) {
    t == s.(workers := s.workers[w := Idle])
  }

  /** The process stops and starts again: no worker remembers anything. */
  ghost predicate RestartStep(s: World, t: World) {
    t == s.(workers := map[])
  }

  ghost predicate ReclaimStep(g: Config, s: World, now: Time, e: Event, t: World) {
    && Commits(g.codec, g.opts, s.abs, Reclaiming(now), e)
    && t == s.(abs := Apply(s.abs, e),
               revoked := if e.job.value.id in s.latest then s.revoked + {s.latest[e.job.value.id]} else s.revoked)
  }

  /** Captures, repairs and replays by the rest of the program. */
  ghost predicate OtherStep(g: Config, s: World, op: Op, e: Event, t: World) {
    && (op == Capturing || op == Repairing || op == Enqueuing)
    && Commits(g.codec, g.opts, s.abs, op, e)
    && t == s.(abs := Apply(s.abs, e))
  }

  /** The headers of the store are redacted. */
  ghost predicate RedactStep(s: World, p: Policy, t: World) {
    t == s.(abs := RedactAbs(p, s.abs))
  }

  ghost predicate Next(g: Config, s: World, t: World) {
    || (exists w, now, lease, e :: ClaimStep(g, s, w, now, lease, e, t))
    || (exists w, n :: CountStep(s, w, n, t))
    || (exists w, e :: RecordStep(g, s, w, e, t))
    || (exists w, e :: FinishStep(g, s, w, e, t))
    || (exists w :: DropStep(s, w, t))
    || RestartStep(s, t)
    || (exists now, e :: ReclaimStep(g, s, now, e, t))
    || (exists op, e :: OtherStep(g, s, op, e, t))
    || (exists p :: RedactStep(s, p, t))
  }

  /** No unfinished job has used up its attempts. */
  ghost predicate Spared(g: Config, a: Abs) {
    forall j :: j in a.jobs ==> Terminal(a.jobs[j].state) || |AttemptsByJob(a, j)| < g.attempts
  }

  /** Forwarding starts on a store without leases whose unfinished jobs have attempts to spare. Finished jobs may
      have any number of attempts, for instance more than are permitted now. */
  ghost predicate Init(g: Config, s: World) {
    && Linked(g.codec, s.abs) && Numbered(s.abs)
    && 1 <= g.attempts <= g.opts.maxAttemptsPerJob
    && (forall j :: j in s.abs.jobs ==> s.abs.jobs[j].state != Leased)
    && Spared(g, s.abs)
    && s.workers == map[] && s.latest == map[] && s.holder == map[] && s.expiry == map[]
    && s.resolved == {} && s.revoked == {} && s.next == 0
  }

  ghost predicate IsBehavior(g: Config, b: seq<World>) {
    && b != [] && Init(g, b[0])
    && (forall i :: 0 < i < |b| ==> Next(g, b[i - 1], b[i]))
  }

  /* ---- the invariant ---- */

  /** No job has more attempts than are permitted. */
  ghost predicate Within(g: Config, a: Abs) {
    forall j :: j in a.jobs ==> |AttemptsByJob(a, j)| <= g.attempts
  }

  /** The job's latest claim has neither an outcome nor been taken back. */
  predicate OpenClaim(s: World, j: string) {
    j in s.latest && s.latest[j] !in s.resolved && s.latest[j] !in s.revoked
  }

  /** An open claim keeps its job in the store and leased. */
  ghost predicate ClaimsHeld(s: World) {
    forall j :: OpenClaim(s, j) ==> j in s.abs.jobs && s.abs.jobs[j].state == Leased
  }

  /** A leased job is held through its latest claim, which is neither resolved nor revoked. */
  ghost predicate LeaseSound(s: World, j: string)
    requires j in s.abs.jobs
  {
    s.abs.jobs[j].state == Leased ==>
      && j in s.latest && s.latest[j] < s.next
      && s.latest[j] in s.holder && s.holder[s.latest[j]] == s.abs.jobs[j].leaseOwner
      && s.latest[j] in s.expiry && s.expiry[s.latest[j]] == s.abs.jobs[j].leaseExpiresAt
      && s.latest[j] !in s.resolved && s.latest[j] !in s.revoked
  }

  /** If a worker still holds the lease of its job, its claim is the latest one, and what it counted is right. */
  ghost predicate WorkerSound(s: World, w: string)
    requires w in s.workers
  {
    var x := s.workers[w];
    && (!x.Idle? ==> x.token < s.next)
    && (!x.Idle? && HoldsLease(s.abs, x.job, w) ==> x.job in s.latest && s.latest[x.job] == x.token)
    && (x.Counted? && HoldsLease(s.abs, x.job, w) ==> x.number == |AttemptsByJob(s.abs, x.job)| + 1)
  }

  /** Claims of different jobs are different claims. */
  ghost predicate TokensSound(s: World) {
    && (forall i, j :: i in s.latest && j in s.latest && s.latest[i] == s.latest[j] ==> i == j)
    && (forall j :: j in s.latest ==> s.latest[j] < s.next)
    && (forall n :: n in s.resolved || n in s.revoked ==> n < s.next)
  }

  ghost predicate Inv(g: Config, s: World) {
    && Linked(g.codec, s.abs) && Numbered(s.abs)
    && 1 <= g.attempts <= g.opts.maxAttemptsPerJob
    && Spared(g, s.abs)
    && TokensSound(s)
    && (forall j :: j in s.abs.jobs ==> LeaseSound(s, j))
    && (forall w :: w in s.workers ==> WorkerSound(s, w))
  }

  lemma {:induction false} OnlyFilters(l: seq<Attempt>, jobID: string)
    ensures forall x :: x in Only(l, jobID) <==> x in l && x.jobID == jobID
    decreases |l|
  {
    if l == [] {
    } else {
      OnlyFilters(l[..|l| - 1], jobID);
      assert l == l[..|l| - 1] + [l[|l| - 1]];
    }
  }

  lemma CountIsNumber(c: Codec, a: Abs, jobID: string, n: int)
    requires Linked(c, a) && Numbered(a) && jobID in a.jobs && IsHighest(a, jobID, n)
    ensures n == |AttemptsByJob(a, jobID)|
  {
    var r := a.jobs[jobID].requestID;
    var l := AttemptsOf(a, r);
    var f := AttemptsByJob(a, jobID);
    OnlyFilters(l, jobID);
    assert Numbers(f);
    if f != [] {
      assert f[|f| - 1] in l;
      InAll(a.attempts, r, f[|f| - 1]);
    }
    if n > 0 {
      var x :| x in All(a.attempts) && x.jobID == jobID && x.number == n;
      assert x.requestID == r;
      assert x in a.attempts[r];
      assert x in f;
    }
  }

  /* ---- commits and the parts of the invariant ---- */

  /** How the attempts of the jobs move in a commit, without the store's internals. */
  ghost predicate AttemptsMove(a: Abs, e: Event, b: Abs) {
    forall j :: j in b.jobs ==>
                  AttemptsByJob(b, j) == (if j in a.jobs then AttemptsByJob(a, j) else [])
                                         + (if e.attempt.Some? && e.attempt.value.jobID == j then [e.attempt.value] else [])
  }

  /** Every job is as it was, except the event's own, and a new one is pending. */
  ghost predicate JobsMove(a: Abs, e: Event, b: Abs) {
    && (forall j :: j in b.jobs && !(e.job.Some? && e.job.value.id == j) ==> j in a.jobs && b.jobs[j] == a.jobs[j])
    && (e.job.Some? ==> e.job.value.id in b.jobs && b.jobs[e.job.value.id] == e.job.value
                        && (e.job.value.id !in a.jobs ==> e.job.value.state == Pending))
  }

  lemma CommitAttemptsMove(c: Codec, o: Options, a: Abs, op: Op, e: Event)
    requires Linked(c, a) && Commits(c, o, a, op, e)
    ensures AttemptsMove(a, e, Apply(a, e))
  {
    hide Linked, Commits, Apply, AttemptsByJob;
    forall j | j in Apply(a, e).jobs
      ensures AttemptsByJob(Apply(a, e), j) == (if j in a.jobs then AttemptsByJob(a, j) else [])
                                               + (if e.attempt.Some? && e.attempt.value.jobID == j then [e.attempt.value] else [])
    {
      CommitAttempts(c, o, a, op, e, j);
    }
  }

  lemma CommitJobsMove(c: Codec, o: Options, a: Abs, op: Op, e: Event)
    requires Linked(c, a) && Commits(c, o, a, op, e)
    ensures JobsMove(a, e, Apply(a, e))
  {
    hide Linked, Apply, Arrow, Produces, EventValid, StateValid;
    JobsAfter(c, a, e);
    if e.job.Some? {
      OwnJob(o, a, op, e);
    }
  }

  lemma CommitMoves(c: Codec, o: Options, a: Abs, op: Op, e: Event)
    requires Linked(c, a) && Commits(c, o, a, op, e)
    ensures AttemptsMove(a, e, Apply(a, e)) && JobsMove(a, e, Apply(a, e))
  {
    hide *;
    CommitAttemptsMove(c, o, a, op, e);
    CommitJobsMove(c, o, a, op, e);
  }

  /** An outcome is recorded for a leased job, and it either retries or finishes it. */
  lemma OutcomeOfLeased(g: Config, a: Abs, op: Op, e: Event)
    requires Commits(g.codec, g.opts, a, op, e) && e.attempt.Some?
    ensures && op.Recording? && e.job.Some? && e.attempt.value.jobID == e.job.value.id
            && e.job.value.id in a.jobs && a.jobs[e.job.value.id].state == Leased
            && (Terminal(e.job.value.state) || e.job.value.state == Retrying)
  {
    hide StateValid, CaptureEvictions, EnqueueEvictions, Holders, MaxNumber, AttemptsOf;
  }

  /** A terminal job stays as it is. */
  lemma TerminalStays(g: Config, a: Abs, op: Op, e: Event)
    requires Linked(g.codec, a) && Commits(g.codec, g.opts, a, op, e)
    ensures forall j :: j in a.jobs && j in Apply(a, e).jobs && Terminal(a.jobs[j].state) ==> Apply(a, e).jobs[j] == a.jobs[j]
  {
    hide Linked, Commits, Apply;
    CommitFollowsDiagram(g.codec, g.opts, a, op, e);
  }

  lemma SparedKept(g: Config, a: Abs, op: Op, e: Event)
    requires Linked(g.codec, a) && Numbered(a) && Spared(g, a) && g.attempts >= 1
    requires Commits(g.codec, g.opts, a, op, e)
    requires op.Recording? && e.attempt.value.number >= g.attempts ==> e.job.value.state != Retrying
    ensures Spared(g, Apply(a, e))
  {
    hide Linked, Commits, Apply, AttemptsByJob, Numbered;
    CommitMoves(g.codec, g.opts, a, op, e);
    TerminalStays(g, a, op, e);
    if e.attempt.Some? {
      OutcomeNumber(g.codec, g.opts, a, op, e);
      OutcomeOfLeased(g, a, op, e);
    }
  }

  /* ---- the invariant is inductive ---- */

  /** The part of the invariant that only the store can break. */
  lemma StoreKept(g: Config, s: World, op: Op, e: Event)
    requires Inv(g, s) && Commits(g.codec, g.opts, s.abs, op, e)
    requires op.Recording? && e.attempt.value.number >= g.attempts ==> e.job.value.state != Retrying
    ensures var b := Apply(s.abs, e);
            Linked(g.codec, b) && Numbered(b) && Spared(g, b) && AttemptsMove(s.abs, e, b) && JobsMove(s.abs, e, b)
  {
    hide Linked, Numbered, Spared, Commits, Apply, AttemptsMove, JobsMove;
    CommitLinked(g.codec, g.opts, s.abs, op, e);
    CommitNumbered(g.codec, g.opts, s.abs, op, e);
    SparedKept(g, s.abs, op, e);
    CommitMoves(g.codec, g.opts, s.abs, op, e);
  }

  /** From `s` to `t` nothing about the claims of other jobs changes. */
  ghost predicate OthersFramed(s: World, e: Event, t: World) {
    && s.next <= t.next
    && (forall n :: n in s.holder && n < s.next ==> n in t.holder && t.holder[n] == s.holder[n])
    && (forall n :: n in s.expiry && n < s.next ==> n in t.expiry && t.expiry[n] == s.expiry[n])
    && (forall j :: j in s.latest && !(e.job.Some? && e.job.value.id == j) ==>
                      && j in t.latest && t.latest[j] == s.latest[j]
                      && (s.latest[j] in t.resolved ==> s.latest[j] in s.resolved)
                      && (s.latest[j] in t.revoked ==> s.latest[j] in s.revoked))
  }

  /** A lease that the event does not touch stays sound while its claim stays the latest, unresolved one. */
  lemma LeasesKept(s: World, e: Event, t: World)
    requires forall j :: j in s.abs.jobs ==> LeaseSound(s, j)
    requires JobsMove(s.abs, e, t.abs) && OthersFramed(s, e, t)
    requires e.job.Some? && e.job.value.state == Leased ==> e.job.value.id in t.abs.jobs && LeaseSound(t, e.job.value.id)
    ensures forall j :: j in t.abs.jobs ==> LeaseSound(t, j)
  {
    forall j | j in t.abs.jobs ensures LeaseSound(t, j) {
      if e.job.Some? && e.job.value.id == j {
        assert t.abs.jobs[j] == e.job.value;
      } else {
        assert LeaseSound(s, j);
      }
    }
  }

  /** A worker the step does not concern stays sound when the event's job, if it is its own, ends up out of
      its hands or untouched. */
  lemma WorkerKept(s: World, e: Event, t: World, w: string)
    requires w in s.workers && w in t.workers && t.workers[w] == s.workers[w] && WorkerSound(s, w)
    requires JobsMove(s.abs, e, t.abs) && AttemptsMove(s.abs, e, t.abs) && OthersFramed(s, e, t)
    requires e.job.Some? ==> e.job.value.state != Leased || e.job.value.leaseOwner != w
    requires e.attempt.Some? ==> e.job.Some? && e.attempt.value.jobID == e.job.value.id
    ensures WorkerSound(t, w)
  {
    hide AttemptsByJob;
    var x := t.workers[w];
    if !x.Idle? && HoldsLease(t.abs, x.job, w) {
      assert !(e.job.Some? && e.job.value.id == x.job);
      assert HoldsLease(s.abs, x.job, w);
      assert AttemptsByJob(s.abs, x.job) + [] == AttemptsByJob(s.abs, x.job);
    }
  }

  lemma WorkersKept(s: World, e: Event, t: World, but: set<string>)
    requires forall v :: v in s.workers ==> WorkerSound(s, v)
    requires JobsMove(s.abs, e, t.abs) && AttemptsMove(s.abs, e, t.abs) && OthersFramed(s, e, t)
    requires forall v :: v in t.workers && v !in but ==> v in s.workers && t.workers[v] == s.workers[v]
    requires e.job.Some? ==> e.job.value.state != Leased || e.job.value.leaseOwner in but
    requires e.attempt.Some? ==> e.job.Some? && e.attempt.value.jobID == e.job.value.id
    ensures forall v :: v in t.workers && v !in but ==> WorkerSound(t, v)
  {
    hide JobsMove, AttemptsMove, OthersFramed, WorkerSound;
    forall v | v in t.workers && v !in but ensures WorkerSound(t, v) {
      WorkerKept(s, e, t, v);
    }
  }

  lemma ClaimShape(g: Config, s: World, w: string, now: Time, lease: int, e: Event)
    requires Commits(g.codec, g.opts, s.abs, Claiming(w, now, lease), e)
    ensures e.job.Some? && e.attempt.None?
    ensures e.job.value.state == Leased && e.job.value.leaseOwner == w && e.job.value.leaseExpiresAt == now + lease
  {
  }

  /** Assembling the invariant after a commit. */
  lemma Assemble(g: Config, s: World, e: Event, t: World, but: set<string>)
    requires Inv(g, s)
    requires Linked(g.codec, t.abs) && Numbered(t.abs) && Spared(g, t.abs)
    requires AttemptsMove(s.abs, e, t.abs) && JobsMove(s.abs, e, t.abs)
    requires OthersFramed(s, e, t) && TokensSound(t)
    requires e.job.Some? && e.job.value.state == Leased ==> e.job.value.id in t.abs.jobs && LeaseSound(t, e.job.value.id)
    requires e.job.Some? ==> e.job.value.state != Leased || e.job.value.leaseOwner in but
    requires e.attempt.Some? ==> e.job.Some? && e.attempt.value.jobID == e.job.value.id
    requires forall v :: v in t.workers && v !in but ==> v in s.workers && t.workers[v] == s.workers[v]
    requires forall v :: v in t.workers && v in but ==> WorkerSound(t, v)
    ensures Inv(g, t)
  {
    hide Linked, Numbered, Spared, AttemptsMove, JobsMove, OthersFramed, TokensSound, LeaseSound, WorkerSound;
    LeasesKept(s, e, t);
    WorkersKept(s, e, t, but);
  }

  lemma ClaimFramed(s: World, w: string, now: Time, lease: int, e: Event, t: World)
    requires TokensSound(s) && e.job.Some? && JobsMove(s.abs, e, t.abs)
    requires e.job.value.leaseOwner == w && e.job.value.leaseExpiresAt == now + lease
    requires t == s.(abs := t.abs, workers := t.workers, latest := s.latest[e.job.value.id := s.next],
                     holder := s.holder[s.next := w], expiry := s.expiry[s.next := now + lease], next := s.next + 1)
    ensures OthersFramed(s, e, t) && TokensSound(t)
    ensures e.job.value.id in t.abs.jobs && LeaseSound(t, e.job.value.id)
  {
  }

  lemma ClaimKept(g: Config, s: World, w: string, now: Time, lease: int, e: Event, t: World)
    requires Inv(g, s) && ClaimStep(g, s, w, now, lease, e, t)
    ensures Inv(g, t)
  {
    hide Linked, Numbered, Spared, AttemptsMove, JobsMove, OthersFramed, TokensSound, LeaseSound, Apply, Commits;
    StoreKept(g, s, Claiming(w, now, lease), e);
    ClaimShape(g, s, w, now, lease, e);
    ClaimFramed(s, w, now, lease, e, t);
    assert WorkerSound(t, w);
    Assemble(g, s, e, t, {w});
  }

  lemma HolderExists(a: Abs, jobID: string, owner: string)
    requires HoldsLease(a, jobID, owner)
    ensures jobID in a.jobs
  {
  }

  lemma CountKept(g: Config, s: World, w: string, n: int, t: World)
    requires Inv(g, s) && CountStep(s, w, n, t)
    ensures Inv(g, t)
  {
    hide Linked, Numbered, Spared, AttemptsByJob, IsHighest, HoldsLease;
    var x := s.workers[w];
    if HoldsLease(s.abs, x.job, w) {
      HolderExists(s.abs, x.job, w);
      CountIsNumber(g.codec, s.abs, x.job, n);
    }
    forall u | u in t.workers ensures WorkerSound(t, u) {
      assert WorkerSound(s, u);
    }
    hide WorkerSound;
    forall j | j in t.abs.jobs ensures LeaseSound(t, j) {
      assert LeaseSound(s, j);
    }
  }

  /** An outcome is recorded through the claim its worker made: the latest of that job, with no outcome yet
      and not taken back. */
  lemma Fenced(g: Config, s: World, w: string, op: Op, e: Event)
    requires Inv(g, s) && Commits(g.codec, g.opts, s.abs, op, e) && (op == Recording(w) || op == Finishing(w))
    requires !WorkerOf(s, w).Idle? && e.job.value.id == WorkerOf(s, w).job
    ensures var x := WorkerOf(s, w);
            && x.job in s.latest && s.latest[x.job] == x.token
            && x.token in s.holder && s.holder[x.token] == w
            && x.token !in s.resolved && x.token !in s.revoked
  {
    hide Linked, Numbered, Spared, EventValid, StateValid, AttemptsByJob;
    assert HoldsLease(s.abs, e.job.value.id, w);
    assert WorkerSound(s, w);
    assert LeaseSound(s, e.job.value.id);
  }

  lemma OutcomeShape(g: Config, s: World, w: string, op: Op, e: Event)
    requires Commits(g.codec, g.opts, s.abs, op, e) && (op == Recording(w) || op == Finishing(w))
    ensures e.job.Some? && e.job.value.state != Leased
    ensures e.attempt.Some? ==> e.attempt.value.jobID == e.job.value.id
  {
    hide StateValid;
  }

  lemma RetiredFramed(s: World, e: Event, t: World, token: nat)
    requires TokensSound(s) && e.job.Some? && e.job.value.id in s.latest && s.latest[e.job.value.id] == token
    requires t.latest == s.latest && t.holder == s.holder && t.expiry == s.expiry && t.next == s.next
    requires t.resolved <= s.resolved + {token} && t.revoked <= s.revoked + {token}
    ensures OthersFramed(s, e, t) && TokensSound(t)
  {
  }

  lemma ResolveKept(g: Config, s: World, w: string, op: Op, e: Event, t: World)
    requires Inv(g, s) && Commits(g.codec, g.opts, s.abs, op, e) && (op == Recording(w) || op == Finishing(w))
    requires op.Recording? && e.attempt.value.number >= g.attempts ==> e.job.value.state != Retrying
    requires !WorkerOf(s, w).Idle? && e.job.value.id == WorkerOf(s, w).job
    requires t == s.(abs := Apply(s.abs, e), workers := s.workers[w := Idle], resolved := s.resolved + {WorkerOf(s, w).token})
    ensures Inv(g, t)
  {
    hide Linked, Numbered, Spared, AttemptsMove, JobsMove, OthersFramed, TokensSound, LeaseSound, Apply, Commits;
    StoreKept(g, s, op, e);
    Fenced(g, s, w, op, e);
    OutcomeShape(g, s, w, op, e);
    RetiredFramed(s, e, t, WorkerOf(s, w).token);
    Assemble(g, s, e, t, {w});
  }

  lemma RevokedFramed(s: World, e: Event, t: World)
    requires TokensSound(s) && e.job.Some?
    requires t == s.(abs := t.abs, revoked := if e.job.value.id in s.latest then s.revoked + {s.latest[e.job.value.id]} else s.revoked)
    ensures OthersFramed(s, e, t) && TokensSound(t)
  {
  }

  lemma StoreShape(g: Config, s: World, op: Op, e: Event)
    requires Commits(g.codec, g.opts, s.abs, op, e)
    requires op.Reclaiming? || op == Capturing || op == Repairing || op == Enqueuing
    ensures e.attempt.None? && (e.job.Some? ==> e.job.value.state == Pending)
    ensures op.Reclaiming? ==> e.job.Some?
  {
  }

  lemma ReclaimKept(g: Config, s: World, now: Time, e: Event, t: World)
    requires Inv(g, s) && ReclaimStep(g, s, now, e, t)
    ensures Inv(g, t)
  {
    hide Linked, Numbered, Spared, AttemptsMove, JobsMove, OthersFramed, TokensSound, LeaseSound, Apply, Commits;
    StoreShape(g, s, Reclaiming(now), e);
    StoreKept(g, s, Reclaiming(now), e);
    RevokedFramed(s, e, t);
    Assemble(g, s, e, t, {});
  }

  lemma OtherKept(g: Config, s: World, op: Op, e: Event, t: World)
    requires Inv(g, s) && OtherStep(g, s, op, e, t)
    ensures Inv(g, t)
  {
    hide Linked, Numbered, Spared, AttemptsMove, JobsMove, LeaseSound, Apply, Commits, WorkerSound;
    StoreShape(g, s, op, e);
    StoreKept(g, s, op, e);
    assert OthersFramed(s, e, t) && TokensSound(t);
    Assemble(g, s, e, t, {});
  }

  lemma RecordKept(g: Config, s: World, w: string, e: Event, t: World)
    requires Inv(g, s) && RecordStep(g, s, w, e, t)
    ensures Inv(g, t)
  {
    hide Inv, Commits, Apply;
    ResolveKept(g, s, w, Recording(w), e, t);
  }

  lemma FinishKept(g: Config, s: World, w: string, e: Event, t: World)
    requires Inv(g, s) && FinishStep(g, s, w, e, t)
    ensures Inv(g, t)
  {
    hide Inv, Commits, Apply;
    ResolveKept(g, s, w, Finishing(w), e, t);
  }

  lemma DropKept(g: Config, s: World, w: string, t: World)
    requires Inv(g, s) && DropStep(s, w, t)
    ensures Inv(g, t)
  {
    hide Linked, Numbered, Spared, AttemptsByJob;
    assert forall v :: v in t.workers && v != w ==> WorkerSound(s, v);
  }

  lemma RestartKept(g: Config, s: World, t: World)
    requires Inv(g, s) && RestartStep(s, t)
    ensures Inv(g, t)
  {
    hide Linked, Numbered, Spared;
  }

  lemma RedactNumbers(p: Policy, l: seq<Attempt>)
    ensures |RedactList(p, l)| == |l| && (Numbers(l) ==> Numbers(RedactList(p, l)))
  {
    hide RedactHeader;
  }

  /** What a redaction leaves of the store, as far as the protocol can tell: everything. */
  lemma RedactedStore(g: Config, a: Abs, p: Policy)
    requires Linked(g.codec, a) && Numbered(a)
    ensures var b := RedactAbs(p, a);
            && Linked(g.codec, b) && Numbered(b) && b.jobs == a.jobs
            && forall j :: j in a.jobs ==> |AttemptsByJob(b, j)| == |AttemptsByJob(a, j)|
  {
    hide Linked, RedactAbs, AttemptsByJob, RedactList, Numbers;
    RedactLinked(g.codec, p, a);
    RedactFrame(p, a);
    forall j | j in a.jobs
      ensures |AttemptsByJob(RedactAbs(p, a), j)| == |AttemptsByJob(a, j)| && Numbers(AttemptsByJob(RedactAbs(p, a), j))
    {
      RedactNumbers(p, AttemptsByJob(a, j));
    }
  }

  lemma RedactKept(g: Config, s: World, p: Policy, t: World)
    requires Inv(g, s) && RedactStep(s, p, t)
    ensures Inv(g, t)
  {
    hide Linked, Numbered, RedactAbs, AttemptsByJob;
    RedactedStore(g, s.abs, p);
    forall w | w in t.workers ensures WorkerSound(t, w) {
      assert WorkerSound(s, w);
    }
    hide WorkerSound;
    forall j | j in t.abs.jobs ensures LeaseSound(t, j) {
      assert LeaseSound(s, j);
    }
  }

  lemma RedactHeld(g: Config, s: World, p: Policy, t: World)
    requires Inv(g, s) && RedactStep(s, p, t)
    ensures ClaimsHeld(s) ==> ClaimsHeld(t)
    ensures Within(g, s.abs) ==> Within(g, t.abs)
  {
    hide Linked, Numbered, RedactAbs, AttemptsByJob, LeaseSound, WorkerSound, TokensSound, Spared;
    RedactedStore(g, s.abs, p);
  }

  lemma NextKept(g: Config, s: World, t: World)
    requires Inv(g, s) && Next(g, s, t)
    ensures Inv(g, t)
  {
    hide Inv, ClaimStep, CountStep, RecordStep, FinishStep, DropStep, RestartStep, ReclaimStep, OtherStep, RedactStep;
    if w, now, lease, e :| ClaimStep(g, s, w, now, lease, e, t) {
      ClaimKept(g, s, w, now, lease, e, t);
    } else if w, n :| CountStep(s, w, n, t) {
      CountKept(g, s, w, n, t);
    } else if w, e :| RecordStep(g, s, w, e, t) {
      RecordKept(g, s, w, e, t);
    } else if w, e :| FinishStep(g, s, w, e, t) {
      FinishKept(g, s, w, e, t);
    } else if now, e :| ReclaimStep(g, s, now, e, t) {
      ReclaimKept(g, s, now, e, t);
    } else if op, e :| OtherStep(g, s, op, e, t) {
      OtherKept(g, s, op, e, t);
    } else if p :| RedactStep(s, p, t) {
      RedactKept(g, s, p, t);
    } else if w :| DropStep(s, w, t) {
      DropKept(g, s, w, t);
    } else {
      RestartKept(g, s, t);
    }
  }

  lemma {:induction false} BehaviorInv(g: Config, b: seq<World>, i: nat)
    requires IsBehavior(g, b) && i < |b|
    ensures Inv(g, b[i])
    decreases i
  {
    if i == 0 {
      hide Linked, Numbered, Spared;
    } else {
      BehaviorInv(g, b, i - 1);
      NextKept(g, b[i - 1], b[i]);
    }
  }

  /* ---- open claims ---- */

  /** A leased job that a commit does not write stays as it is: only finished jobs are evicted. */
  lemma LeasedStays(g: Config, a: Abs, op: Op, e: Event, j: string)
    requires Linked(g.codec, a) && Commits(g.codec, g.opts, a, op, e)
    requires j in a.jobs && a.jobs[j].state == Leased && !(e.job.Some? && e.job.value.id == j)
    ensures j in Apply(a, e).jobs && Apply(a, e).jobs[j] == a.jobs[j]
  {
    hide Linked, Commits, Apply, Arrow;
    CommitFollowsDiagram(g.codec, g.opts, a, op, e);
  }

  /** What a commit must do to the claims for open claims to keep their jobs leased. */
  lemma HeldKept(g: Config, s: World, op: Op, e: Event, t: World)
    requires Inv(g, s) && ClaimsHeld(s) && Commits(g.codec, g.opts, s.abs, op, e) && t.abs == Apply(s.abs, e)
    requires forall j :: OpenClaim(t, j) && !(e.job.Some? && e.job.value.id == j) ==> OpenClaim(s, j)
    requires e.job.Some? && OpenClaim(t, e.job.value.id) ==> e.job.value.state == Leased
    ensures ClaimsHeld(t)
  {
    hide Linked, Numbered, Spared, Commits, Apply, LeaseSound, WorkerSound, TokensSound, OpenClaim;
    CommitJobsMove(g.codec, g.opts, s.abs, op, e);
    forall j | OpenClaim(t, j) ensures j in t.abs.jobs && t.abs.jobs[j].state == Leased {
      if !(e.job.Some? && e.job.value.id == j) {
        LeasedStays(g, s.abs, op, e, j);
      }
    }
  }

  lemma ClaimHeld(g: Config, s: World, w: string, now: Time, lease: int, e: Event, t: World)
    requires Inv(g, s) && ClaimsHeld(s) && ClaimStep(g, s, w, now, lease, e, t)
    ensures ClaimsHeld(t)
  {
    hide Inv, ClaimsHeld, Commits, Apply;
    ClaimShape(g, s, w, now, lease, e);
    HeldKept(g, s, Claiming(w, now, lease), e, t);
  }

  lemma ResolveHeld(g: Config, s: World, w: string, e: Event, t: World)
    requires Inv(g, s) && ClaimsHeld(s) && (RecordStep(g, s, w, e, t) || FinishStep(g, s, w, e, t))
    ensures ClaimsHeld(t)
  {
    hide Inv, ClaimsHeld, Commits, Apply;
    var op := if RecordStep(g, s, w, e, t) then Recording(w) else Finishing(w);
    Fenced(g, s, w, op, e);
    OutcomeShape(g, s, w, op, e);
    HeldKept(g, s, op, e, t);
  }

  lemma ReclaimHeld(g: Config, s: World, now: Time, e: Event, t: World)
    requires Inv(g, s) && ClaimsHeld(s) && ReclaimStep(g, s, now, e, t)
    ensures ClaimsHeld(t)
  {
    hide Inv, ClaimsHeld, Commits, Apply;
    StoreShape(g, s, Reclaiming(now), e);
    HeldKept(g, s, Reclaiming(now), e, t);
  }

  /** The rest of the program only writes jobs that were not there. */
  lemma NewJob(g: Config, a: Abs, op: Op, e: Event)
    requires Commits(g.codec, g.opts, a, op, e) && (op == Capturing || op == Repairing || op == Enqueuing)
    ensures e.job.Some? ==> e.job.value.id !in a.jobs
  {
    hide CaptureEvictions, EnqueueEvictions, Holders, JobsOf, EventValid, StateValid;
  }

  lemma OtherHeld(g: Config, s: World, op: Op, e: Event, t: World)
    requires Inv(g, s) && ClaimsHeld(s) && OtherStep(g, s, op, e, t)
    ensures ClaimsHeld(t)
  {
    hide Inv, Commits, Apply;
    NewJob(g, s.abs, op, e);
    HeldKept(g, s, op, e, t);
  }

  lemma NextHeld(g: Config, s: World, t: World)
    requires Inv(g, s) && ClaimsHeld(s) && Next(g, s, t)
    ensures ClaimsHeld(t)
  {
    hide Inv, ClaimStep, RecordStep, FinishStep, ReclaimStep, OtherStep, RedactStep;
    if w, now, lease, e :| ClaimStep(g, s, w, now, lease, e, t) {
      ClaimHeld(g, s, w, now, lease, e, t);
    } else if w, e :| RecordStep(g, s, w, e, t) {
      ResolveHeld(g, s, w, e, t);
    } else if w, e :| FinishStep(g, s, w, e, t) {
      ResolveHeld(g, s, w, e, t);
    } else if now, e :| ReclaimStep(g, s, now, e, t) {
      ReclaimHeld(g, s, now, e, t);
    } else if op, e :| OtherStep(g, s, op, e, t) {
      OtherHeld(g, s, op, e, t);
    } else if p :| RedactStep(s, p, t) {
      RedactHeld(g, s, p, t);
    } else {
      assert t.abs == s.abs && forall j :: OpenClaim(t, j) ==> OpenClaim(s, j);
    }
  }

  lemma {:induction false} BehaviorHeld(g: Config, b: seq<World>, i: nat)
    requires IsBehavior(g, b) && i < |b|
    ensures ClaimsHeld(b[i])
    decreases i
  {
    if i == 0 {
      hide Linked, Numbered, Spared;
    } else {
      hide Next, Inv, ClaimsHeld, Init;
      BehaviorHeld(g, b, i - 1);
      BehaviorInv(g, b, i - 1);
      NextHeld(g, b[i - 1], b[i]);
    }
  }

  /* ---- the number of outcomes ---- */

  /** An outcome is only recorded for a job that had attempts to spare. */
  lemma CommitWithin(g: Config, a: Abs, op: Op, e: Event)
    requires Linked(g.codec, a) && Spared(g, a) && Within(g, a) && g.attempts >= 0 && Commits(g.codec, g.opts, a, op, e)
    ensures Within(g, Apply(a, e))
  {
    hide Linked, Commits, Apply, AttemptsByJob;
    CommitMoves(g.codec, g.opts, a, op, e);
    if e.attempt.Some? {
      OutcomeOfLeased(g, a, op, e);
    }
  }

  /** Every step but a redaction leaves the store alone or commits one operation. */
  lemma NextCommits(g: Config, s: World, t: World)
    requires Next(g, s, t) && !(exists p :: RedactStep(s, p, t))
    ensures t.abs == s.abs || exists op, e :: Commits(g.codec, g.opts, s.abs, op, e) && t.abs == Apply(s.abs, e)
  {
    hide Commits, Apply, IsHighest, HoldsLease, RedactStep;
    if w, now, lease, e :| ClaimStep(g, s, w, now, lease, e, t) {
      assert Commits(g.codec, g.opts, s.abs, Claiming(w, now, lease), e);
    } else if w, e :| RecordStep(g, s, w, e, t) {
      assert Commits(g.codec, g.opts, s.abs, Recording(w), e);
    } else if w, e :| FinishStep(g, s, w, e, t) {
      assert Commits(g.codec, g.opts, s.abs, Finishing(w), e);
    } else if now, e :| ReclaimStep(g, s, now, e, t) {
      assert Commits(g.codec, g.opts, s.abs, Reclaiming(now), e);
    } else if op, e :| OtherStep(g, s, op, e, t) {
      assert Commits(g.codec, g.opts, s.abs, op, e);
    } else {
      hide ClaimStep, RecordStep, FinishStep, ReclaimStep, OtherStep;
    }
  }

  lemma NextWithin(g: Config, s: World, t: World)
    requires Inv(g, s) && Within(g, s.abs) && Next(g, s, t)
    ensures Within(g, t.abs)
  {
    hide Linked, Numbered, Spared, Within, Commits, Apply, LeaseSound, WorkerSound, TokensSound, Next, RedactStep;
    if p :| RedactStep(s, p, t) {
      RedactHeld(g, s, p, t);
    } else {
      NextCommits(g, s, t);
      if t.abs != s.abs {
        var op, e :| Commits(g.codec, g.opts, s.abs, op, e) && t.abs == Apply(s.abs, e);
        CommitWithin(g, s.abs, op, e);
      }
    }
  }

  lemma {:induction false} BehaviorWithin(g: Config, b: seq<World>, i: nat)
    requires IsBehavior(g, b) && i < |b| && Within(g, b[0].abs)
    ensures Within(g, b[i].abs)
    decreases i
  {
    hide Next, Inv, Within, Init;
    if i == 0 {
    } else {
      BehaviorWithin(g, b, i - 1);
      BehaviorInv(g, b, i - 1);
      NextWithin(g, b[i - 1], b[i]);
    }
  }

  lemma OutcomeFenced(g: Config, s: World, w: string, e: Event, t: World)
    requires Inv(g, s) && (RecordStep(g, s, w, e, t) || FinishStep(g, s, w, e, t))
    ensures var x := WorkerOf(s, w);
            && x.job in s.latest && s.latest[x.job] == x.token
            && x.token in s.holder && s.holder[x.token] == w
            && x.token !in s.resolved && x.token !in s.revoked
            && t.resolved == s.resolved + {x.token}
  {
    hide Inv, Commits, Apply;
    if RecordStep(g, s, w, e, t) {
      Fenced(g, s, w, Recording(w), e);
    } else {
      Fenced(g, s, w, Finishing(w), e);
    }
  }

  lemma ClaimAfterExpiry(g: Config, s: World, w: string, now: Time, lease: int, e: Event)
    requires Inv(g, s) && ClaimsHeld(s) && Commits(g.codec, g.opts, s.abs, Claiming(w, now, lease), e) && OpenClaim(s, e.job.value.id)
    ensures var id := e.job.value.id;
            && id in s.abs.jobs && HoldsLease(s.abs, id, s.abs.jobs[id].leaseOwner)
            && s.latest[id] in s.holder && s.holder[s.latest[id]] == s.abs.jobs[id].leaseOwner
            && s.latest[id] in s.expiry && (s.expiry[s.latest[id]] <= now || s.expiry[s.latest[id]] == ZERO)
  {
    hide Linked, Numbered, Spared, EventValid, StateValid, TokensSound, WorkerSound;
    assert Eligible(s.abs.jobs[e.job.value.id], now);
    assert LeaseSound(s, e.job.value.id);
  }

  /* ---- the theorems ---- */

  /** Fencing: in every behavior, an outcome that is recorded is recorded through the job's latest claim,
      made by that same worker, with no outcome before it and no recovery of leases since. */
  lemma LeaseFencing(g: Config, b: seq<World>, i: nat, w: string, e: Event)
    requires IsBehavior(g, b) && 0 < i < |b|
    requires RecordStep(g, b[i - 1], w, e, b[i]) || FinishStep(g, b[i - 1], w, e, b[i])
    ensures var s := b[i - 1]; var x := WorkerOf(s, w);
            && x.job in s.latest && s.latest[x.job] == x.token
            && x.token in s.holder && s.holder[x.token] == w
            && x.token !in s.resolved && x.token !in s.revoked
            && b[i].resolved == s.resolved + {x.token}
  {
    hide *;
    BehaviorInv(g, b, i - 1);
    OutcomeFenced(g, b[i - 1], w, e, b[i]);
  }

  /** A claim that has neither an outcome nor been taken back keeps its job in the store and leased to its worker,
      whatever else happens, and the job is claimed again only once that lease has expired. */
  lemma LeaseRespected(g: Config, b: seq<World>, i: nat, w: string, now: Time, lease: int, e: Event)
    requires IsBehavior(g, b) && 0 < i < |b| && ClaimStep(g, b[i - 1], w, now, lease, e, b[i])
    requires var s := b[i - 1]; var id := e.job.value.id;
             id in s.latest && s.latest[id] !in s.resolved && s.latest[id] !in s.revoked
    ensures var s := b[i - 1]; var id := e.job.value.id;
            && id in s.abs.jobs && HoldsLease(s.abs, id, s.abs.jobs[id].leaseOwner)
            && s.latest[id] in s.holder && s.holder[s.latest[id]] == s.abs.jobs[id].leaseOwner
            && s.latest[id] in s.expiry && (s.expiry[s.latest[id]] <= now || s.expiry[s.latest[id]] == ZERO)
  {
    hide IsBehavior, Next, Inv, Commits, Apply, ClaimsHeld;
    BehaviorInv(g, b, i - 1);
    BehaviorHeld(g, b, i - 1);
    ClaimAfterExpiry(g, b[i - 1], w, now, lease, e);
  }

  /** Some worker claims this job. */
  ghost predicate Claims(g: Config, s: World, t: World, id: string) {
    exists w, now, lease, e :: ClaimStep(g, s, w, now, lease, e, t) && e.job.Some? && e.job.value.id == id
  }

  lemma OnlyClaimed(o: Options, a: Abs, op: Op, e: Event, id: string)
    requires Produces(o, a, op, e) && id in a.jobs && a.jobs[id].state == Retrying && e.job.Some? && e.job.value.id == id
    ensures op.Claiming?
  {
    hide CaptureEvictions, EnqueueEvictions, Holders, JobsOf, MaxNumber, Eligible, Before;
  }

  /** Only a claim writes a job that waits for its retry, and nothing evicts it. */
  lemma WaitsOn(g: Config, a: Abs, op: Op, e: Event, id: string)
    requires Linked(g.codec, a) && Commits(g.codec, g.opts, a, op, e) && id in a.jobs && a.jobs[id].state == Retrying
    requires op.Claiming? && e.job.Some? ==> e.job.value.id != id
    ensures id in Apply(a, e).jobs && Apply(a, e).jobs[id] == a.jobs[id]
  {
    hide Linked, Apply, Produces, EventValid, StateValid;
    JobsAfter(g.codec, a, e);
    CommitDrops(g.codec, g.opts, a, op, e);
    if e.job.Some? && e.job.value.id == id {
      OnlyClaimed(g.opts, a, op, e, id);
    }
  }

  lemma WaitsNext(g: Config, s: World, t: World, id: string)
    requires Linked(g.codec, s.abs) && Next(g, s, t) && !Claims(g, s, t, id) && id in s.abs.jobs && s.abs.jobs[id].state == Retrying
    ensures id in t.abs.jobs && t.abs.jobs[id] == s.abs.jobs[id]
  {
    hide Linked, Commits, Apply, IsHighest, RedactAbs;
    if w, now, lease, e :| ClaimStep(g, s, w, now, lease, e, t) {
      WaitsOn(g, s.abs, Claiming(w, now, lease), e, id);
    } else if w, e :| RecordStep(g, s, w, e, t) {
      WaitsOn(g, s.abs, Recording(w), e, id);
    } else if w, e :| FinishStep(g, s, w, e, t) {
      WaitsOn(g, s.abs, Finishing(w), e, id);
    } else if now, e :| ReclaimStep(g, s, now, e, t) {
      WaitsOn(g, s.abs, Reclaiming(now), e, id);
    } else if op, e :| OtherStep(g, s, op, e, t) {
      WaitsOn(g, s.abs, op, e, id);
    } else if p :| RedactStep(s, p, t) {
      RedactFrame(p, s.abs);
    } else {
      hide ClaimStep, RecordStep, FinishStep, ReclaimStep, OtherStep, RedactStep;
    }
  }

  lemma LinkedWorld(g: Config, b: seq<World>, i: nat)
    requires IsBehavior(g, b) && i < |b|
    ensures Linked(g.codec, b[i].abs)
  {
    BehaviorInv(g, b, i);
    hide Linked, IsBehavior;
  }

  lemma {:induction false} Waits(g: Config, b: seq<World>, i: nat, k: nat, id: string)
    requires IsBehavior(g, b) && i <= k < |b| && id in b[i].abs.jobs && b[i].abs.jobs[id].state == Retrying
    requires forall m :: i < m <= k ==> !Claims(g, b[m - 1], b[m], id)
    ensures id in b[k].abs.jobs && b[k].abs.jobs[id] == b[i].abs.jobs[id]
    decreases k
  {
    hide Next, Init, Linked, Claims;
    if i == k {
      assert b[k] == b[i];
    } else {
      Waits(g, b, i, k - 1, id);
      LinkedWorld(g, b, k - 1);
      assert Next(g, b[k - 1], b[k]);
      WaitsNext(g, b[k - 1], b[k], id);
    }
  }

  lemma RecordedJob(g: Config, s: World, w: string, e: Event, t: World)
    requires RecordStep(g, s, w, e, t)
    ensures e.job.Some? && e.job.value.id in t.abs.jobs && t.abs.jobs[e.job.value.id] == e.job.value
  {
    hide EventValid, StateValid, Evict, MaxNumber;
  }

  lemma ClaimDue(g: Config, s: World, w: string, now: Time, lease: int, e: Event, t: World)
    requires ClaimStep(g, s, w, now, lease, e, t)
    ensures e.job.Some?
    ensures var id := e.job.value.id; id in s.abs.jobs && (s.abs.jobs[id].state == Retrying ==> s.abs.jobs[id].availableAt <= now)
  {
    EligibleLaw(now);
    hide EventValid, StateValid, Apply, Eligible, Before;
  }

  /** A retry is not made before it is due: a job recorded as to be retried stays in the store just as it was recorded, whatever else
      happens, until it is claimed, and no claim of it is made at an instant before its due time. */
  lemma RetryNotEarly(g: Config, b: seq<World>, i: nat, k: nat, w: string, e: Event, v: string, now: Time, lease: int, f: Event)
    requires IsBehavior(g, b) && 0 < i < k < |b|
    requires RecordStep(g, b[i - 1], w, e, b[i]) && e.job.value.state == Retrying
    requires ClaimStep(g, b[k - 1], v, now, lease, f, b[k]) && f.job.value.id == e.job.value.id
    requires forall m :: i < m < k ==> !Claims(g, b[m - 1], b[m], e.job.value.id)
    ensures var id := e.job.value.id; id in b[k - 1].abs.jobs && b[k - 1].abs.jobs[id] == e.job.value
    ensures e.job.value.availableAt <= now
  {
    hide IsBehavior, ClaimStep, RecordStep, Claims;
    RecordedJob(g, b[i - 1], w, e, b[i]);
    Waits(g, b, i, k - 1, e.job.value.id);
    ClaimDue(g, b[k - 1], v, now, lease, f, b[k]);
  }

  /** Whenever a worker that has counted still holds its lease, the number it will record is the next one
      and within the limit: `RecordAttempt` has no reason left to refuse the number or the capacity. */
  lemma NumberNeverRefused(g: Config, b: seq<World>, i: nat, w: string)
    requires IsBehavior(g, b) && i < |b| && w in b[i].workers && b[i].workers[w].Counted?
    requires HoldsLease(b[i].abs, b[i].workers[w].job, w)
    ensures var s := b[i]; var x := s.workers[w];
            && x.number == MaxNumber(AttemptsOf(s.abs, s.abs.jobs[x.job].requestID), x.job) + 1
            && x.number <= g.attempts <= g.opts.maxAttemptsPerJob
  {
    BehaviorInv(g, b, i);
    var s := b[i];
    var x := s.workers[w];
    hide Linked, IsBehavior;
    assert WorkerSound(s, w);
    assert Numbers(AttemptsByJob(s.abs, x.job));
    MaxIsCount(AttemptsOf(s.abs, s.abs.jobs[x.job].requestID), x.job);
  }

  /** The outcomes of every job are numbered from 1, a job that has used all that are permitted is finished, and if no
      job had more than permitted at the start, none ever has. */
  lemma OutcomesBounded(g: Config, b: seq<World>, i: nat, j: string)
    requires IsBehavior(g, b) && i < |b| && j in b[i].abs.jobs
    ensures Numbers(AttemptsByJob(b[i].abs, j))
    ensures |AttemptsByJob(b[i].abs, j)| >= g.attempts ==> Terminal(b[i].abs.jobs[j].state)
    ensures Within(g, b[0].abs) ==> |AttemptsByJob(b[i].abs, j)| <= g.attempts
  {
    BehaviorInv(g, b, i);
    hide Linked, IsBehavior, AttemptsByJob;
    if Within(g, b[0].abs) {
      BehaviorWithin(g, b, i);
    }
  }
}
