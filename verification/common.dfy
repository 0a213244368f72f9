/**
 Vocabulary shared by the race server and both web clients: optional
 values, the single error kind, the drone status and the event payload
 that travels from the server to its subscribers.
 */
module Common {

  /** An optional value; `None` plays the part of JavaScript's `undefined`. */
  datatype Option<+T> = None | Some(value: T) {

    /** The value, or `default` when absent (the `??` operator). */
    function GetOr(default: T): T {
      match this
      case Some(v) => v
      case None => default
    }
  }

  /** The only failure the core knows: an id outside the fixed catalog. */
  datatype Error = NotFound(id: string)

  /** The outcome of an operation that may throw `NotFoundException`. */
  datatype Result<+T> = Success(value: T) | Failure(error: Error)

  /** The three states of a drone's race. */
  datatype Status = Idle | Running | Finished

  /** The wire spelling of a status. */
  function StatusName(s: Status): string {
    match s
    case Idle => "idle"
    case Running => "running"
    case Finished => "finished"
  }

  /**
   The progress event published for one drone and carried verbatim over
   the live stream: `{ stop, finished, etaToNextMs?, startedAt?, finishedAt? }`.
   Timestamps are milliseconds of an abstract clock.
   */
  datatype DroneEvent = DroneEvent(
    stop: int,
    finished: bool,
    etaToNextMs: Option<int>,
    startedAt: Option<int>,
    finishedAt: Option<int>)

  /** Sum of a sequence of integers, 0 for the empty sequence. */
  function Sum(xs: seq<int>): int {
    if xs == [] then 0 else xs[0] + Sum(xs[1..])
  }

  function Abs(x: int): nat {
    if x < 0 then -x else x
  }

  function Min(a: int, b: int): int {
    if a <= b then a else b
  }

  function Max(a: int, b: int): int {
    if a >= b then a else b
  }

  function MinR(a: real, b: real): real {
    if a <= b then a else b
  }

  function MaxR(a: real, b: real): real {
    if a >= b then a else b
  }

  /** Splitting a sum at any point. */
  lemma {:induction false} SumAppend(a: seq<int>, b: seq<int>)
    ensures Sum(a + b) == Sum(a) + Sum(b)
  {
    if a == [] {
      assert a + b == b;
    } else {
      assert (a + b)[1..] == a[1..] + b;
      SumAppend(a[1..], b);
    }
  }
}
