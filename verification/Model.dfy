/** Option and Result, in the usual form. */
module Wrappers {
  datatype Option<+T> = None | Some(value: T)
  datatype Result<+T, +E> = Ok(value: T) | Err(error: E)
}

/** The durable records of the store and the boundary to code that is not modelled. */
module Model {
  import opened Wrappers

  newtype byte = x: int | 0 <= x < 256
  type Bytes = seq<byte>
  const NEWLINE: byte := 10

  const MAX_SEQ := 0xFFFF_FFFF_FFFF_FFFF
  type uint64 = x: int | 0 <= x <= MAX_SEQ

  /** An instant. The zero instant is Go's zero `time.Time`. */
  type Time = int
  const ZERO: Time := 0
  /** The instant substituted for a missing timestamp in a snapshot record. */
  const FIRST_TICK: Time := 1

  const MAX_EVENT_BYTES := 134_217_728

  type Header = map<string, seq<string>>

  datatype Request = Request(
    id: string, deliveryID: string, verb: string, path: string, remoteAddr: string, bodySHA256: string,
    receivedAt: Time, headers: Header, body: Bytes, signatureVerified: bool)

  datatype Attempt = Attempt(
    id: string, jobID: string, requestID: string, url: string, error: string,
    number: int, status: int, startedAt: Time, finishedAt: Time,
    responseHeaders: Header, responseBody: Bytes)

  /** The state strings the store knows, and any other string. */
  datatype JobState =
    | Pending | Queued | Running | Leased | Retrying
    | Succeeded | Failed | Fatal | DeadLetter | Poison
    | OtherState(name: string)

  predicate Terminal(s: JobState) {
    s == Succeeded || s == Failed || s == Fatal || s == DeadLetter || s == Poison
  }

  datatype Job = Job(
    id: string, requestID: string, url: string, state: JobState, error: string, leaseOwner: string,
    createdAt: Time, updatedAt: Time, availableAt: Time, leaseExpiresAt: Time, finishedAt: Time)

  /** `Forward(s)` stands for the kind string "forward." followed by the state string. */
  datatype Kind = CaptureAccepted | RequestReceived | AttemptFinished | Forward(state: JobState) | OtherKind(name: string)

  datatype Event = Event(
    seqNo: uint64, kind: Kind, at: Time, snapshot: bool,
    request: Option<Request>, attempt: Option<Attempt>, job: Option<Job>,
    evictedRequestIDs: seq<string>, evictedJobIDs: seq<string>)

  datatype Error =
    | Capacity | Backlog | IDCollision | LeaseLost          // the store's sentinel errors
    | Closed | Poisoned | Invalid | Oversize | Corrupt      // refusals
    | SequenceGap | SnapshotAfterMutation | SequenceExhausted
    | Missing | BadReference | IO

  /** JSON and SHA-256 as parameters: any encoding and any digest that meet `Valid`. */
  datatype Codec = Codec(encode: Event -> Bytes, decode: Bytes -> Option<Event>, digest: Bytes -> string) {
    /** A line decodes to the event it was encoded from, and an encoding holds no newline. */
    ghost predicate Valid() {
      && (forall e: Event :: decode(encode(e) + [NEWLINE]) == Some(e))
      && (forall e: Event :: NEWLINE !in encode(e))
    }

    function Line(e: Event): Bytes {
      encode(e) + [NEWLINE]
    }
  }

  datatype Options = Options(
    maxCaptures: int, maxEvents: int, maxJobsPerRequest: int, maxAttemptsPerJob: int,
    maxSearchBytes: int, maxCatchUpEvents: int, maxCatchUpBytes: int, subscriberBacklog: int)
  {
    function WithDefaults(): (o: Options)
      ensures o.Positive()
    {
      Options(
        if maxCaptures <= 0 then 1_000 else maxCaptures,
        if maxEvents <= 0 then 100_000 else maxEvents,
        if maxJobsPerRequest <= 0 then 8 else maxJobsPerRequest,
        if maxAttemptsPerJob <= 0 then 10 else maxAttemptsPerJob,
        if maxSearchBytes <= 0 then 65_536 else maxSearchBytes,
        if maxCatchUpEvents <= 0 then 1_000 else maxCatchUpEvents,
        if maxCatchUpBytes <= 0 then 33_554_432 else maxCatchUpBytes,
        if subscriberBacklog <= 0 then 128 else subscriberBacklog)
    }

    predicate Positive() {
      && maxCaptures >= 1 && maxEvents >= 1 && maxJobsPerRequest >= 1 && maxAttemptsPerJob >= 1
      && maxSearchBytes >= 1 && maxCatchUpEvents >= 1 && maxCatchUpBytes >= 1 && subscriberBacklog >= 1
    }
  }

  /** Options that are not set, or not positive, take these values; the others stay. */
  lemma OptionsLaw(o: Options)
    ensures Options(0, 0, 0, 0, 0, 0, 0, 0).WithDefaults() == Options(1_000, 100_000, 8, 10, 64 * 1024, 1_000, 32 * 1024 * 1024, 128)
    ensures o.Positive() ==> o.WithDefaults() == o
    ensures o.WithDefaults().WithDefaults() == o.WithDefaults()
  {
  }

  /** `s.seq++` on a uint64. */
  function NextSeq(s: uint64): uint64 {
    if s == MAX_SEQ then 0 else s + 1
  }
}
