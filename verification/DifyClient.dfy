/**
 * The upstream client of `app/services/dify_client.py`: retry with exponential back-off and a
 * circuit breaker per path.
 *
 * Requests await the network between asking the breaker and recording an outcome, so any number
 * of them interleave. What the breaker sees is a history of single steps; each step is atomic.
 */
module DifyClient {
  import opened Wrappers

  const CIRCUIT_FAILURE_THRESHOLD := 5
  const CIRCUIT_RECOVERY_SECONDS := 60.0

  datatype Circuit = Circuit(failures: nat, openedAt: real, isOpen: bool, halfOpen: bool)

  const CLOSED := Circuit(0, 0.0, false, false)

  type Breakers = map<string, Circuit>

  /** One step on the breaker of `path`: a request asks to go, or an outcome is recorded. */
  datatype Event = Ask(path: string, now: real) | Failure(path: string, now: real) | Success(path: string)

  function CircuitAt(b: Breakers, path: string): Circuit {
    if path in b then b[path] else CLOSED
  }

  predicate Admitted(b: Breakers, path: string, now: real) {
    var c := CircuitAt(b, path);
    !c.isOpen || (now - c.openedAt >= CIRCUIT_RECOVERY_SECONDS && !c.halfOpen)
  }

  function Next(b: Breakers, e: Event): Breakers {
    var c := CircuitAt(b, e.path);
    match e
    case Ask(path, now) => if c.isOpen && Admitted(b, path, now) then b[path := c.(halfOpen := true)] else b
    case Failure(path, now) =>
      var failures := c.failures + 1;
      if failures >= CIRCUIT_FAILURE_THRESHOLD then b[path := Circuit(failures, now, true, false)]
      else b[path := c.(failures := failures, halfOpen := false)]
    case Success(path) => b - {path}
  }

  function ApplyAll(b: Breakers, events: seq<Event>): Breakers {
    if events == [] then b else Next(ApplyAll(b, events[..|events| - 1]), events[|events| - 1])
  }

  /** The breakers after the first `n` awaits of a request, during which other requests do `meanwhile`. */
  function During(b: Breakers, meanwhile: nat -> seq<Event>, n: nat): Breakers {
    if n == 0 then b else ApplyAll(During(b, meanwhile, n - 1), meanwhile(n - 1))
  }

  // ---------------------------------------------------------------- the client

  /**
   * What one attempt meets: no answer, a JSON or non-JSON success, an error status, or a body that
   * cannot be decoded. The last raises what no handler of the client catches: a successful body that
   * is not the Unicode its reader takes it for, or any body with a broken content encoding.
   */
  datatype Reply = NoAnswer | Json(body: string) | NotJson | ErrorStatus(code: int) | Undecodable

  datatype Answer = Ok(body: string) | DifyError(code: int)

  /**
   * How a call ends: refused by the breaker (503), answered, cancelled during one of its awaits, or
   * left by an exception it does not catch.
   */
  datatype Ending = Refused | Answered(answer: Answer) | Cancelled | Escaped

  /** What one attempt leads to: the next one, the end of trying, an answer, a cancellation, or an escape. */
  datatype Status = Again | GivenUp | Settled(answer: Answer) | Cut | Broken

  /**
   * How a streamed response ends. An abandoned one is cancelled or closed by its reader; a garbled
   * one has a content encoding that cannot be undone, which no handler catches.
   */
  datatype StreamEnd = Consumed | ErrorResponse(code: int) | Interrupted | Abandoned | Garbled

  predicate Retryable(r: Reply) {
    r.NoAnswer? || (r.ErrorStatus? && (r.code == 502 || r.code == 504))
  }

  function Pow2(n: nat): (p: nat)
    ensures p >= 1
  {
    if n == 0 then 1 else 2 * Pow2(n - 1)
  }

  lemma {:induction false} PowersGrow(a: nat, b: nat)
    requires a <= b
    ensures Pow2(a) <= Pow2(b)
    decreases b
  {
    if a < b {
      PowersGrow(a, b - 1);
    }
  }

  /** What the caller gets once `last` is the final reply (None when no attempt was made). */
  function Verdict(last: Option<Reply>): Answer {
    match last
    case Some(Json(body)) => Ok(body)
    case Some(NotJson) => DifyError(502)
    case Some(ErrorStatus(code)) => DifyError(code)
    case _ => DifyError(504)
  }

  /** The one outcome a verdict records. */
  function OutcomeOf(answer: Answer, path: string, now: real): Event {
    if answer.Ok? then Success(path) else Failure(path, now)
  }

  class DifyClientService {
    var breakers: Breakers

    constructor ()
      ensures breakers == map[]
    {
      breakers := map[];
    }

    /** Whether a request may go; false stands for the 503 the code raises. */
    method RaiseIfCircuitOpen(path: string, now: real) returns (admitted: bool)
      modifies this
      ensures admitted == Admitted(old(breakers), path, now)
      ensures breakers == Next(old(breakers), Ask(path, now))
    {
      if path !in breakers || !breakers[path].isOpen {
        return true;
      }
      if now - breakers[path].openedAt < CIRCUIT_RECOVERY_SECONDS {
        return false;
      }
      if breakers[path].halfOpen {
        return false;
      }
      breakers := breakers[path := breakers[path].(halfOpen := true)];
      return true;
    }

    method RecordFailure(path: string, now: real)
      modifies this
      ensures breakers == Next(old(breakers), Failure(path, now))
    {
      if path !in breakers {
        breakers := breakers[path := CLOSED];
      }
      var breaker := breakers[path];
      breaker := breaker.(failures := breaker.failures + 1, halfOpen := false);
      if breaker.failures >= CIRCUIT_FAILURE_THRESHOLD {
        breaker := breaker.(isOpen := true, openedAt := now);
      }
      breakers := breakers[path := breaker];
    }

    method RecordSuccess(path: string)
      modifies this
      ensures breakers == Next(old(breakers), Success(path))
    {
      breakers := breakers - {path};
    }

    /** One await: other requests run their steps. */
    method Await(events: seq<Event>)
      modifies this
      ensures breakers == ApplyAll(old(breakers), events)
    {
      breakers := ApplyAll(breakers, events);
    }

    /** Await number `n` of a request that began with the breakers at `b`; whether it is cancelled there. */
    method AwaitNumber(meanwhile: nat -> seq<Event>, n: nat, cancelled: Option<nat>, ghost b: Breakers)
      returns (wasCancelled: bool)
      requires breakers == During(b, meanwhile, n)
      modifies this
      ensures breakers == During(b, meanwhile, n + 1) && wasCancelled == (cancelled == Some(n))
    {
      Await(meanwhile(n));
      return cancelled == Some(n);
    }

    /** What one reply settles: the answer of the call, with its outcome recorded, or nothing yet. */
    method Settle(path: string, reply: Reply, ended: real) returns (answer: Option<Answer>)
      modifies this
      ensures answer == if reply.Json? || reply.NotJson? then Some(Verdict(Some(reply))) else None
      ensures breakers == if answer.None? then old(breakers)
                          else Next(old(breakers), OutcomeOf(answer.value, path, ended))
    {
      match reply {
        case Json(body) =>
          RecordSuccess(path);
          return Some(Ok(body));
        case NotJson =>
          RecordFailure(path, ended);
          return Some(DifyError(502));
        case _ =>
          return None;
      }
    }

    /** Attempt number `i`, an await, and unless trying ends there the back-off after it, another. */
    method OneAttempt(path: string, i: nat, reply: Reply, isLast: bool, meanwhile: nat -> seq<Event>,
                      cancelled: Option<nat>, ended: real, ghost b: Breakers)
      returns (status: Status, awaits: nat)
      requires breakers == During(b, meanwhile, 2 * i) && (cancelled.None? || cancelled.value >= 2 * i)
      modifies this
      ensures var now := During(b, meanwhile, awaits);
              breakers == if status.Settled? then Next(now, OutcomeOf(status.answer, path, ended)) else now
      ensures 2 * i < awaits <= 2 * i + 2 && (status.Again? ==> awaits == 2 * i + 2)
      ensures if status.Cut? then cancelled == Some(awaits - 1) else cancelled.None? || cancelled.value >= awaits
      ensures status.Settled? ==> status.answer == Verdict(Some(reply)) && !Retryable(reply)
      ensures status.Again? ==> Retryable(reply) && !isLast
      ensures status.GivenUp? ==> (isLast || !Retryable(reply)) && !reply.Json? && !reply.NotJson?
      ensures !status.Cut? ==> (status.Broken? <==> reply.Undecodable?)
    {
      awaits := 2 * i + 1;
      var wasCancelled := AwaitNumber(meanwhile, 2 * i, cancelled, b);
      if wasCancelled {
        return Cut, awaits;
      }
      if reply.Undecodable? {
        return Broken, awaits;
      }
      var answer := Settle(path, reply, ended);
      if answer.Some? {
        return Settled(answer.value), awaits;
      }
      if !Retryable(reply) || isLast {
        return GivenUp, awaits;
      }
      awaits := 2 * i + 2;
      wasCancelled := AwaitNumber(meanwhile, 2 * i + 1, cancelled, b);
      status := if wasCancelled then Cut else Again;
    }

    /** The attempts of one call, up to the last status; `slept` adds up the back-off. */
    method Attempts(path: string, retries: nat, replies: nat -> Reply, meanwhile: nat -> seq<Event>,
                    cancelled: Option<nat>, ended: real)
      returns (status: Status, attempts: nat, slept: nat, awaits: nat)
      modifies this
      ensures var now := During(old(breakers), meanwhile, awaits);
              breakers == if status.Settled? then Next(now, OutcomeOf(status.answer, path, ended)) else now
      ensures !status.Again? && 1 <= attempts <= retries + 1 && awaits > 0
      ensures forall i :: 0 <= i < attempts - 1 ==> Retryable(replies(i))
      ensures if status.Cut? then cancelled == Some(awaits - 1) else cancelled.None? || cancelled.value >= awaits
      ensures status.Settled? ==>
                status.answer == Verdict(Some(replies(attempts - 1))) && !Retryable(replies(attempts - 1))
      ensures status.GivenUp? ==>
                && (attempts == retries + 1 || !Retryable(replies(attempts - 1)))
                && !replies(attempts - 1).Json? && !replies(attempts - 1).NotJson?
      ensures !status.Cut? ==> (status.Broken? <==> replies(attempts - 1).Undecodable?)
      ensures slept + 1 == Pow2(attempts - 1)
    {
      attempts, slept := 0, 0;
      while true
        invariant attempts <= retries && slept + 1 == Pow2(attempts)
        invariant breakers == During(old(breakers), meanwhile, 2 * attempts)
        invariant forall i :: 0 <= i < attempts ==> Retryable(replies(i))
        invariant cancelled.None? || cancelled.value >= 2 * attempts
        decreases retries - attempts
      {
        status, awaits := OneAttempt(
          path, attempts, replies(attempts), attempts == retries, meanwhile, cancelled, ended, old(breakers));
        attempts := attempts + 1;
        if !status.Again? {
          return;
        }
        slept := slept + Pow2(attempts - 1);
      }
    }

    /**
     * A call asks once and tries `replies(0)`, `replies(1)`, ... An admitted call that is not cancelled
     * records exactly one outcome if and only if no reply it meets is undecodable. During its awaits
     * other requests do `meanwhile(0)`, `meanwhile(1)`, ...; `cancelled` names the await a cancellation
     * arrives in. `slept` adds up the back-off.
     */
    method WithRetry(path: string, retries: int, replies: nat -> Reply, meanwhile: nat -> seq<Event>,
                     cancelled: Option<nat>, asked: real, ended: real)
      returns (ending: Ending, attempts: nat, slept: nat, awaits: nat)
      modifies this
      ensures ending.Refused? <==> !Admitted(old(breakers), path, asked)
      ensures var b := During(Next(old(breakers), Ask(path, asked)), meanwhile, awaits);
              breakers == if ending.Answered? then Next(b, OutcomeOf(ending.answer, path, ended)) else b
      ensures ending.Refused? ==> attempts == slept == awaits == 0
      ensures ending.Cancelled? ==> awaits > 0 && cancelled == Some(awaits - 1)
      ensures ending.Answered? || ending.Escaped? ==>
                && (cancelled.None? || cancelled.value >= awaits)
                && (ending.Answered? <==> forall i :: 0 <= i < attempts ==> !replies(i).Undecodable?)
      ensures attempts <= (if retries < 0 then 0 else retries + 1)
      ensures forall i :: 0 <= i < attempts - 1 ==> Retryable(replies(i))
      ensures ending.Answered? ==>
                && (0 < attempts <= retries ==> !Retryable(replies(attempts - 1)))
                && (attempts == 0 <==> retries < 0)
                && ending.answer == Verdict(if attempts == 0 then None else Some(replies(attempts - 1)))
      ensures slept + 1 <= Pow2(if retries < 0 then 0 else retries)
      ensures ending.Answered? && attempts > 0 ==> slept + 1 == Pow2(attempts - 1)
      ensures forall i :: 0 <= i < attempts - 1 ==>
                replies(i) == NoAnswer || replies(i) == ErrorStatus(502) || replies(i) == ErrorStatus(504)
      ensures ending.Answered? && 0 < attempts <= retries ==>
                var last := replies(attempts - 1);
                last != NoAnswer && last != ErrorStatus(502) && last != ErrorStatus(504)
      ensures ending.Answered? ==>
                match if attempts == 0 then NoAnswer else replies(attempts - 1)
                case Json(body) => ending.answer == Ok(body)
                case NotJson => ending.answer == DifyError(502)
                case ErrorStatus(code) => ending.answer == DifyError(code)
                case NoAnswer => ending.answer == DifyError(504)
                case Undecodable => false
      ensures ending.Answered? ==>
                var b := During(Next(old(breakers), Ask(path, asked)), meanwhile, awaits);
                breakers == Next(b, if ending.answer.Ok? then Success(path) else Failure(path, ended))
    {
      attempts, slept, awaits := 0, 0, 0;
      PowersGrow(0, if retries < 0 then 0 else retries);
      var admitted := RaiseIfCircuitOpen(path, asked);
      if !admitted {
        return Refused, 0, 0, 0;
      }
      var last: Option<Reply> := None;
      if retries >= 0 {
        var status;
        status, attempts, slept, awaits := Attempts(path, retries, replies, meanwhile, cancelled, ended);
        PowersGrow(attempts - 1, retries);
        if status.Cut? {
          return Cancelled, attempts, slept, awaits;
        }
        if status.Broken? {
          return Escaped, attempts, slept, awaits;
        }
        if status.Settled? {
          return Answered(status.answer), attempts, slept, awaits;
        }
        last := Some(replies(attempts - 1));
      }
      RecordFailure(path, ended);
      ending := Answered(match last case Some(ErrorStatus(code)) => DifyError(code) case _ => DifyError(504));
    }

    /**
     * A streamed call: no retry; an abandoned stream records nothing, and neither does a garbled one.
     * Other requests do `meanwhile` while it streams.
     */
    method PostStream(path: string, asked: real, meanwhile: seq<Event>, end: StreamEnd, ended: real)
      returns (answer: Option<StreamEnd>)
      modifies this
      ensures answer == if Admitted(old(breakers), path, asked) then Some(end) else None
      ensures var b := Next(old(breakers), Ask(path, asked));
              breakers == match answer
                          case None => b
                          case Some(Abandoned) => ApplyAll(b, meanwhile)
                          case Some(Garbled) => ApplyAll(b, meanwhile)
                          case Some(Consumed) => Next(ApplyAll(b, meanwhile), Success(path))
                          case Some(_) => Next(ApplyAll(b, meanwhile), Failure(path, ended))
    {
      var admitted := RaiseIfCircuitOpen(path, asked);
      if !admitted {
        return None;
      }
      Await(meanwhile);
      match end {
        case Consumed => RecordSuccess(path);
        case ErrorResponse(_) => RecordFailure(path, ended);
        case Interrupted => RecordFailure(path, ended);
        case Abandoned =>
        case Garbled =>
      }
      return Some(end);
    }
  }

  // ---------------------------------------------------------------- the breaker, told from its history

  /** Failures recorded on `path` since its last success. */
  function Streak(h: seq<Event>, path: string): nat {
    if h == [] then 0 else
    var e, before := h[|h| - 1], h[..|h| - 1];
    if e.path != path then Streak(before, path) else
    match e
    case Ask(_, _) => Streak(before, path)
    case Failure(_, _) => Streak(before, path) + 1
    case Success(_) => 0
  }

  /** When the latest failure of the current streak was recorded. */
  function LastFailure(h: seq<Event>, path: string): Option<real> {
    if h == [] then None else
    var e, before := h[|h| - 1], h[..|h| - 1];
    if e.path != path then LastFailure(before, path) else
    match e
    case Ask(_, _) => LastFailure(before, path)
    case Failure(_, now) => Some(now)
    case Success(_) => None
  }

  /** A request got through the open breaker and no outcome has been recorded since. */
  predicate OnTrial(h: seq<Event>, path: string) {
    if h == [] then false else
    var e, before := h[|h| - 1], h[..|h| - 1];
    if e.path != path then OnTrial(before, path) else
    match e
    case Ask(_, now) => OnTrial(before, path) || (Tripped(before, path) && Rested(before, path, now))
    case _ => false
  }

  predicate Tripped(h: seq<Event>, path: string) {
    Streak(h, path) >= 5
  }

  /** The recovery window has passed since the latest failure. */
  predicate Rested(h: seq<Event>, path: string, now: real) {
    LastFailure(h, path).Some? && now - LastFailure(h, path).value >= 60.0
  }

  function After(h: seq<Event>): Breakers {
    if h == [] then map[] else Next(After(h[..|h| - 1]), h[|h| - 1])
  }

  lemma {:induction false} StreakHasLastFailure(h: seq<Event>, path: string)
    ensures Streak(h, path) > 0 <==> LastFailure(h, path).Some?
  {
    if h != [] {
      StreakHasLastFailure(h[..|h| - 1], path);
    }
  }

  /**
   * Over any interleaving the breaker is open exactly when at least five failures were recorded
   * since the last success, and it remembers the streak, its latest failure and the trial.
   */
  lemma {:induction false} BreakerTellsHistory(h: seq<Event>, path: string)
    ensures var c := CircuitAt(After(h), path);
            && c.isOpen == Tripped(h, path)
            && c.failures == Streak(h, path)
            && c.halfOpen == OnTrial(h, path)
            && (c.isOpen ==> Some(c.openedAt) == LastFailure(h, path))
  {
    if h != [] {
      var before := h[..|h| - 1];
      BreakerTellsHistory(before, path);
      StreakHasLastFailure(before, path);
    }
  }

  /** Exactly when a request is admitted, in terms of the recorded history alone. */
  lemma AdmittedIff(h: seq<Event>, path: string, now: real)
    ensures Admitted(After(h), path, now) <==>
            !Tripped(h, path) || (Rested(h, path, now) && !OnTrial(h, path))
  {
    BreakerTellsHistory(h, path);
    StreakHasLastFailure(h, path);
  }

  /** Step `i` of the history is a request let through the open breaker of `path`. */
  predicate TrialAt(h: seq<Event>, path: string, i: nat)
    requires i < |h|
  {
    && h[i].Ask? && h[i].path == path
    && CircuitAt(After(h[..i]), path).isOpen && Admitted(After(h[..i]), path, h[i].now)
  }

  predicate OutcomeAt(h: seq<Event>, path: string, i: nat)
    requires i < |h|
  {
    !h[i].Ask? && h[i].path == path
  }

  /** A trial lasts until an outcome is recorded on its path. */
  lemma {:induction false} TrialLasts(h: seq<Event>, path: string, i: nat)
    requires i < |h| && TrialAt(h, path, i)
    requires forall k :: i < k < |h| ==> !OutcomeAt(h, path, k)
    ensures OnTrial(h, path) && Tripped(h, path)
  {
    var before := h[..|h| - 1];
    if i == |h| - 1 {
      BreakerTellsHistory(before, path);
      StreakHasLastFailure(before, path);
    } else {
      assert before[..i] == h[..i] && !OutcomeAt(h, path, |h| - 1);
      assert forall k :: i < k < |before| ==> before[k] == h[k] && !OutcomeAt(h, path, k);
      TrialLasts(before, path, i);
    }
  }

  /** Until the trial's own path records an outcome, no request is admitted, however long it takes. */
  lemma TrialWithoutOutcomeBlocks(h: seq<Event>, path: string, i: nat, now: real)
    requires i < |h| && TrialAt(h, path, i)
    requires forall k :: i < k < |h| ==> !OutcomeAt(h, path, k)
    ensures !Admitted(After(h), path, now)
  {
    TrialLasts(h, path, i);
    AdmittedIff(h, path, now);
  }

  /** Between two requests let through an open breaker an outcome was recorded. */
  lemma OneTrialAtATime(h: seq<Event>, path: string, i: nat, j: nat)
    requires i < j < |h| && TrialAt(h, path, i) && TrialAt(h, path, j)
    ensures exists k :: i < k < j && OutcomeAt(h, path, k)
  {
    if forall k :: i < k < j ==> !OutcomeAt(h, path, k) {
      var before := h[..j];
      assert before[..i] == h[..i];
      assert forall k :: i < k < |before| ==> before[k] == h[k] && !OutcomeAt(h, path, k);
      TrialWithoutOutcomeBlocks(before, path, i, h[j].now);
    }
  }

  /** A trial still without an outcome. */
  predicate OpenTrialAt(h: seq<Event>, path: string, i: nat)
    requires i < |h|
  {
    TrialAt(h, path, i) && forall k :: i < k < |h| ==> !OutcomeAt(h, path, k)
  }

  lemma {:induction false} TrialHasOrigin(h: seq<Event>, path: string) returns (i: nat)
    requires OnTrial(h, path)
    ensures i < |h| && OpenTrialAt(h, path, i)
    decreases |h|
  {
    var (before, last) := (h[..|h| - 1], |h| - 1);
    BreakerTellsHistory(before, path);
    StreakHasLastFailure(before, path);
    if h[last].path == path && !OnTrial(before, path) {
      i := last;
    } else {
      i := TrialHasOrigin(before, path);
      assert before[..i] == h[..i] && !OutcomeAt(h, path, last);
      forall k | i < k < |h| ensures !OutcomeAt(h, path, k) {
        if k < last {
          assert before[k] == h[k] && !OutcomeAt(before, path, k);
        }
      }
    }
  }

  /**
   * A path is shut to every request, however late, if and only if a trial on it has not recorded
   * its outcome; an outcome of a request admitted earlier ends that.
   */
  lemma ShutForeverIff(h: seq<Event>, path: string)
    ensures (forall now :: !Admitted(After(h), path, now)) <==> exists i :: 0 <= i < |h| && OpenTrialAt(h, path, i)
  {
    if OnTrial(h, path) {
      var i := TrialHasOrigin(h, path);
      forall now ensures !Admitted(After(h), path, now) {
        TrialWithoutOutcomeBlocks(h, path, i, now);
      }
    } else {
      forall i | 0 <= i < |h| ensures !OpenTrialAt(h, path, i) {
        if OpenTrialAt(h, path, i) {
          TrialLasts(h, path, i);
        }
      }
      var now := (if LastFailure(h, path).Some? then LastFailure(h, path).value else 0.0) + CIRCUIT_RECOVERY_SECONDS;
      AdmittedIff(h, path, now);
      StreakHasLastFailure(h, path);
      assert Admitted(After(h), path, now);
    }
  }

  /** A client with five failures recorded on a path. */
  method TrippedClient(path: string) returns (client: DifyClientService)
    ensures fresh(client) && client.breakers == map[path := Circuit(5, 0.0, true, false)]
  {
    client := new DifyClientService();
    for i := 0 to 5
      invariant fresh(client)
      invariant client.breakers == if i == 0 then map[] else map[path := Circuit(i, 0.0, i == 5, false)]
    {
      client.RecordFailure(path, 0.0);
    }
  }

  /** One client whose trial stream is abandoned: five failures, the recovery window, and then no request goes. */
  method AbandonedTrial(path: string, later: real) returns (admitted: bool)
    ensures !admitted
  {
    var client := TrippedClient(path);
    var _ := client.PostStream(path, 60.0, [], Abandoned, 61.0);
    admitted := client.RaiseIfCircuitOpen(path, later);
  }

  /** The same with a call that nobody cancels: its trial meets one undecodable reply. */
  method UndecodableTrial(path: string, retries: nat, later: real) returns (ending: Ending, admitted: bool)
    ensures ending.Escaped? && !admitted
  {
    var client := TrippedClient(path);
    ghost var open := Next(client.breakers, Ask(path, 60.0));
    assert CircuitAt(open, path) == Circuit(5, 0.0, true, true);
    var meanwhile: nat -> seq<Event> := _ => [];
    var attempts, slept, awaits;
    ending, attempts, slept, awaits := client.WithRetry(path, retries, _ => Undecodable, meanwhile, None, 60.0, 61.0);
    QuietAwaits(open, meanwhile, awaits);
    admitted := client.RaiseIfCircuitOpen(path, later);
  }

  lemma {:induction false} QuietAwaits(b: Breakers, meanwhile: nat -> seq<Event>, n: nat)
    requires forall i :: meanwhile(i) == []
    ensures During(b, meanwhile, n) == b
  {
    if n != 0 {
      QuietAwaits(b, meanwhile, n - 1);
    }
  }

  /** A success opens its path to every request and leaves the other paths alone. */
  lemma SuccessOpensPath(h: seq<Event>, path: string, other: string, now: real)
    ensures Admitted(After(h + [Success(path)]), path, now) && Streak(h + [Success(path)], path) == 0
    ensures other != path ==> CircuitAt(After(h + [Success(path)]), other) == CircuitAt(After(h), other)
  {
    assert (h + [Success(path)])[..|h|] == h;
  }

  ghost predicate Clocked(h: seq<Event>) {
    forall i, j :: 0 <= i < j < |h| && !h[i].Success? && !h[j].Success? ==> h[i].now <= h[j].now
  }

  /** Every failure of the current streak was recorded no later than the latest one. */
  lemma {:induction false} FailureIsNoLater(h: seq<Event>, path: string, f: nat)
    requires Clocked(h) && f < |h| && h[f].Failure? && h[f].path == path
    requires forall k :: f < k < |h| ==> h[k] != Success(path)
    ensures LastFailure(h, path).Some? && h[f].now <= LastFailure(h, path).value
  {
    if f < |h| - 1 {
      var before := h[..|h| - 1];
      assert before[f] == h[f] && forall k :: 0 <= k < |before| ==> before[k] == h[k];
      FailureIsNoLater(before, path, f);
    }
  }

  /** A request let through an open breaker comes a full recovery window after every failure of the streak. */
  lemma TrialWaitsOutRecovery(h: seq<Event>, path: string, i: nat, f: nat)
    requires Clocked(h) && f < i < |h| && TrialAt(h, path, i)
    requires h[f].Failure? && h[f].path == path
    requires forall k :: f < k < i ==> h[k] != Success(path)
    ensures h[i].now - h[f].now >= 60.0
  {
    var before := h[..i];
    assert forall k :: 0 <= k < |before| ==> before[k] == h[k];
    FailureIsNoLater(before, path, f);
    BreakerTellsHistory(before, path);
  }
}
