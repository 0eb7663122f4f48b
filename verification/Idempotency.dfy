/** Deduplication, repair and eligibility over whole runs. */
module Idempotency {
  import opened Wrappers
  import opened Model
  import opened Spec
  import opened Linkage
  import opened Operations
  import opened Guarantees
  import opened Redaction

  /** The request is retained at every point of the run. */
  ghost predicate RetainedThrough(a: Abs, run: seq<Entry>, id: string) {
    forall n :: 0 <= n <= |run| ==> id in After(a, run[..n]).requests
  }

  lemma RetainedInit(a: Abs, run: seq<Entry>, id: string)
    requires run != [] && RetainedThrough(a, run, id)
    ensures RetainedThrough(a, run[..|run| - 1], id) && id in After(a, run).requests
  {
    hide After;
    var init := run[..|run| - 1];
    assert run[..|run|] == run;
    forall n | 0 <= n <= |init| ensures id in After(a, init[..n]).requests {
      assert init[..n] == run[..n];
    }
  }

  predicate SameButHeaders(r: Request, s: Request) {
    s == r.(headers := s.headers)
  }

  lemma KeptUnchanged(c: Codec, o: Options, a: Abs, x: Entry, id: string)
    requires Linked(c, a) && Happens(c, o, a, x) && id in a.requests && id in Effect(a, x).requests
    ensures SameButHeaders(a.requests[id], Effect(a, x).requests[id])
    ensures x.Commit? ==> Effect(a, x).requests[id] == a.requests[id]
  {
    hide Linked, Apply, Produces, EventValid, RedactAbs;
    match x {
      case Commit(_, e) => RequestsAfter(c, a, e);
      case Redact(p) => RedactFrame(p, a);
    }
  }

  /** A retained request does not change but for its headers, which a redaction may replace: an identifier in use is
      never given to another capture. */
  lemma {:induction false} RetainedUnchanged(c: Codec, o: Options, a: Abs, run: seq<Entry>, id: string)
    requires Linked(c, a) && IsRun(c, o, a, run) && RetainedThrough(a, run, id)
    ensures id in a.requests && id in After(a, run).requests && SameButHeaders(a.requests[id], After(a, run).requests[id])
    decreases |run|
  {
    if run == [] {
      assert run[..0] == [];
    } else {
      var init := run[..|run| - 1];
      var x := run[|run| - 1];
      var b := After(a, init);
      assert After(a, run) == Effect(b, x);
      RetainedInit(a, run, id);
      hide Linked, Effect, Happens, After, RetainedThrough;
      RetainedUnchanged(c, o, a, init, id);
      RunLinked(c, o, a, init);
      hide IsRun;
      KeptUnchanged(c, o, b, x, id);
    }
  }

  lemma OneHolder(c: Codec, a: Abs, id: string)
    requires Linked(c, a) && id in a.requests
    ensures Holders(a, KeyOf(a.requests[id])) == {id}
  {
    assert UniqueKeys(a.requests);
    hide Linked;
    forall x | x in Holders(a, KeyOf(a.requests[id])) ensures x == id {
    }
  }

  /** Deduplication is exact over runs: while a capture is retained, through any operations, it is the one
      and only holder of its key, so a repeat is answered with its identifier. */
  lemma KeyHeld(c: Codec, o: Options, a: Abs, run: seq<Entry>, id: string)
    requires Linked(c, a) && IsRun(c, o, a, run) && RetainedThrough(a, run, id)
    ensures id in a.requests && Holders(After(a, run), KeyOf(a.requests[id])) == {id}
  {
    RetainedUnchanged(c, o, a, run, id);
    RunLinked(c, o, a, run);
    hide IsRun, After, RetainedThrough;
    OneHolder(c, After(a, run), id);
  }

  /** A capture is only taken when nobody holds its key. */
  lemma CaptureIsNew(c: Codec, o: Options, a: Abs, run: seq<Entry>, id: string, e: Event)
    requires Linked(c, a) && IsRun(c, o, a, run) && RetainedThrough(a, run, id)
    requires Commits(c, o, After(a, run), Capturing, e)
    ensures id in a.requests && KeyOf(e.request.value) != KeyOf(a.requests[id])
  {
    KeyHeld(c, o, a, run, id);
    hide IsRun, After, RetainedThrough, CaptureEvictions, EventValid, StateValid;
  }

  ghost predicate RepairOf(x: Entry, id: string) {
    x.Commit? && x.op == Repairing && x.event.job.Some? && x.event.job.value.requestID == id
  }

  lemma JobsStayOn(c: Codec, o: Options, a: Abs, x: Entry, id: string)
    requires Linked(c, a) && Happens(c, o, a, x) && id in a.requests && id in Effect(a, x).requests && JobsOf(a, id) != {}
    ensures JobsOf(Effect(a, x), id) != {}
  {
    hide Linked, Commits, Apply, RedactAbs, JobsOf;
    match x {
      case Commit(op, e) => CommitJobsOf(c, o, a, op, e, id);
      case Redact(p) => RedactFrame(p, a);
    }
  }

  lemma {:induction false} JobsStay(c: Codec, o: Options, a: Abs, run: seq<Entry>, id: string)
    requires Linked(c, a) && IsRun(c, o, a, run) && RetainedThrough(a, run, id) && JobsOf(a, id) != {}
    ensures JobsOf(After(a, run), id) != {}
    decreases |run|
  {
    if run == [] {
    } else {
      var init := run[..|run| - 1];
      var x := run[|run| - 1];
      var b := After(a, init);
      assert After(a, run) == Effect(b, x);
      RetainedInit(a, run, id);
      assert init[..|init|] == init;
      assert id in b.requests;
      hide Linked, Effect, Happens, After, RetainedThrough, JobsOf;
      JobsStay(c, o, a, init, id);
      RunLinked(c, o, a, init);
      hide IsRun;
      JobsStayOn(c, o, b, x, id);
    }
  }

  lemma RepairGivesJob(c: Codec, o: Options, a: Abs, x: Entry, id: string)
    requires Linked(c, a) && RepairOf(x, id) && Commits(c, o, a, x.op, x.event)
    ensures JobsOf(Apply(a, x.event), id) != {}
  {
    JobsAfter(c, a, x.event);
    hide Linked, Apply, EventValid, StateValid;
    assert x.event.job.value.id in JobsOf(Apply(a, x.event), id);
  }

  lemma RepairNeeds(c: Codec, o: Options, a: Abs, x: Entry, id: string)
    requires RepairOf(x, id) && Commits(c, o, a, x.op, x.event)
    ensures JobsOf(a, id) == {}
  {
    hide JobsOf;
  }

  /** A missing job is repaired at most once while the capture is retained. */
  lemma RepairedOnce(c: Codec, o: Options, a: Abs, first: Entry, run: seq<Entry>, second: Entry, id: string)
    requires Linked(c, a) && RepairOf(first, id) && Commits(c, o, a, first.op, first.event)
    requires var b := Apply(a, first.event);
             IsRun(c, o, b, run) && RetainedThrough(b, run, id) && Happens(c, o, After(b, run), second)
    ensures !RepairOf(second, id)
  {
    var b := Apply(a, first.event);
    CommitLinked(c, o, a, first.op, first.event);
    RepairGivesJob(c, o, a, first, id);
    hide Linked, IsRun, Apply, After, RetainedThrough;
    JobsStay(c, o, b, run, id);
    hide JobsOf;
    if RepairOf(second, id) {
      RepairNeeds(c, o, After(b, run), second, id);
    }
  }

  lemma RepairHappens(c: Codec, o: Options, a: Abs, x: Entry, id: string)
    requires RepairOf(x, id) && Happens(c, o, a, x)
    ensures Commits(c, o, a, x.op, x.event) && Effect(a, x) == Apply(a, x.event)
  {
    hide Commits, Apply;
  }

  lemma RunStep(c: Codec, o: Options, a: Abs, run: seq<Entry>)
    requires IsRun(c, o, a, run) && run != []
    ensures IsRun(c, o, a, run[..|run| - 1]) && Happens(c, o, After(a, run[..|run| - 1]), run[|run| - 1])
    ensures After(a, run) == Effect(After(a, run[..|run| - 1]), run[|run| - 1])
  {
    hide Happens, Effect;
  }

  /** Of two entries of a run, the later one does not repair the capture that the earlier one has repaired. */
  lemma RepairedAgain(c: Codec, o: Options, a: Abs, run: seq<Entry>, i: nat, j: nat, id: string)
    requires Linked(c, a) && IsRun(c, o, a, run) && i < j < |run|
    requires RepairOf(run[i], id) && RetainedThrough(After(a, run[..i + 1]), run[i + 1..j], id)
    ensures !RepairOf(run[j], id)
  {
    hide Linked, IsRun, After, Happens, Effect, Commits, RetainedThrough;
    RunPrefix(c, o, a, run, i + 1);
    RunPrefix(c, o, a, run, j + 1);
    assert run[..i + 1][..|run[..i + 1]| - 1] == run[..i] && run[..j + 1][..|run[..j + 1]| - 1] == run[..j];
    RunStep(c, o, a, run[..i + 1]);
    RunStep(c, o, a, run[..j + 1]);
    RunLinked(c, o, a, run[..i]);
    assert run[..j] == run[..i + 1] + run[i + 1..j];
    RunSplit(c, o, a, run[..i + 1], run[i + 1..j]);
    RepairHappens(c, o, After(a, run[..i]), run[i], id);
    RepairedOnce(c, o, After(a, run[..i]), run[i], run[i + 1..j], run[j], id);
  }

  /* ---- eligibility ---- */

  /** Every unfinished job is eligible from some instant on. */
  lemma EventuallyEligible(c: Codec, a: Abs, j: string) returns (from: Time)
    requires Linked(c, a) && j in a.jobs && !Terminal(a.jobs[j].state)
    ensures forall now :: now >= from ==> Eligible(a.jobs[j], now)
  {
    assert KnownState(a.jobs[j].state);
    hide Linked;
    var job := a.jobs[j];
    from := if job.availableAt > job.leaseExpiresAt then job.availableAt else job.leaseExpiresAt;
  }

  ghost function Unfinished(a: Abs): set<string> {
    set j | j in a.jobs && !Terminal(a.jobs[j].state)
  }

  lemma ReclaimShape(o: Options, a: Abs, now: Time, e: Event)
    requires Produces(o, a, Reclaiming(now), e)
    ensures e.evictedJobIDs == [] && e.evictedRequestIDs == [] && e.job.Some?
    ensures var j := e.job.value;
            j.id in a.jobs && !Terminal(a.jobs[j.id].state) && !Terminal(j.state) && forall t :: Eligible(j, t)
  {
  }

  /** Taking a lease back loses no unfinished job and leaves the job eligible at once. */
  lemma ReclaimKeepsWork(c: Codec, o: Options, a: Abs, now: Time, e: Event)
    requires Linked(c, a) && Commits(c, o, a, Reclaiming(now), e)
    ensures Unfinished(Apply(a, e)) == Unfinished(a)
    ensures forall t :: e.job.value.id in Apply(a, e).jobs && Eligible(Apply(a, e).jobs[e.job.value.id], t)
  {
    hide Linked, Apply, Produces, EventValid, StateValid, Eligible;
    JobsAfter(c, a, e);
    ReclaimShape(o, a, now, e);
    var b := Apply(a, e);
    forall j | j in a.jobs ensures j in b.jobs && (Terminal(b.jobs[j].state) <==> Terminal(a.jobs[j].state)) {
    }
  }
}
