/**
 * The limiter of `app/rate_limit.py`: a shared Redis bucket guarded by a cooldown, with a
 * per-process fallback, run by any number of worker processes against one Redis.
 *
 * An acquire awaits Redis between its cooldown test and its outcome, so acquires of one process
 * overlap. Each is cut into steps: it begins, its script may run, and its answer, its error or its
 * cancellation arrives. Any number of acquires interleave, step by step.
 */
module RateLimiter {
  import opened Wrappers
  import opened TokenBucket
  import opened LuaBucket

  const RECOVERY_RETRY_SECONDS := 30.0

  // ---------------------------------------------------------------- one process

  datatype Worker = Worker(fallback: MemState, unavailable: bool, failedAt: real)

  const FRESH_WORKER := Worker(MEM_INIT, false, 0.0)

  /** Whether an acquire that begins at `now` asks Redis at all. */
  predicate Probes(w: Worker, now: real) {
    !(w.unavailable && now - w.failedAt < RECOVERY_RETRY_SECONDS)
  }

  /** An acquire that begins at `c.at`: within the cooldown the fallback serves it at once. */
  function BeginWorker(w: Worker, c: Call): Worker {
    if Probes(w, c.at) then w else w.(fallback := MemNext(w.fallback, c))
  }

  /** Redis answered: the process is back on the shared bucket. */
  function AnswerWorker(w: Worker): Worker {
    Worker(w.fallback, false, 0.0)
  }

  /** Redis failed an acquire: the cooldown starts and the fallback serves it. */
  function FailWorker(w: Worker, c: Call): Worker {
    Worker(MemNext(w.fallback, c), true, c.at)
  }

  class RedisTokenBucket {
    const fallback: InMemoryTokenBucket
    var unavailable: bool
    var failedAt: real

    ghost function State(): Worker
      reads this, fallback
    {
      Worker(fallback.State(), unavailable, failedAt)
    }

    constructor ()
      ensures fresh(fallback) && State() == FRESH_WORKER
    {
      fallback := new InMemoryTokenBucket();
      unavailable, failedAt := false, 0.0;
    }

    /** Up to the await: serve from the fallback within the cooldown, or go and ask Redis (None). */
    method BeginAcquire(key: string, capacity: int, rate: real, now: real) returns (granted: Option<bool>)
      modifies this, fallback
      ensures var (w, c) := (old(State()), Call(key, now, Limit(capacity, rate)));
              && State() == BeginWorker(w, c)
              && granted == if Probes(w, now) then None else Some(MemGrants(w.fallback, c))
    {
      if unavailable && now - failedAt < RECOVERY_RETRY_SECONDS {
        var served := fallback.Acquire(key, capacity, rate, now);
        return Some(served);
      }
      return None;
    }

    /** The await ends with the script's reply. */
    method EndAnswered(reply: Reply) returns (granted: bool)
      requires reply != ScriptError
      modifies this
      ensures State() == AnswerWorker(old(State())) && granted == (reply == Granted)
    {
      unavailable := false;
      failedAt := 0.0;
      return reply == Granted;
    }

    /** The await ends with a Redis error, at `now`. */
    method EndFailed(key: string, capacity: int, rate: real, now: real) returns (granted: bool)
      modifies this, fallback
      ensures var (w, c) := (old(State()), Call(key, now, Limit(capacity, rate)));
              State() == FailWorker(w, c) && granted == MemGrants(w.fallback, c)
    {
      unavailable := true;
      failedAt := now;
      granted := fallback.Acquire(key, capacity, rate, now);
    }
  }

  // ---------------------------------------------------------------- a fleet of workers

  /** What a script run decided, and when. */
  datatype Decision = Decision(reply: Reply, at: real)

  /** An acquire that asked Redis; its script may run late, even after the caller has given up. */
  datatype Probe = Probe(worker: nat, key: string, decision: Option<Decision>, isWaiting: bool)

  type ProbeId = nat

  datatype Fleet = Fleet(cells: Cells, workers: seq<Worker>, probes: map<ProbeId, Probe>)

  datatype Event =
    | Begin(id: ProbeId, worker: nat, key: string, at: real)
    | Script(id: ProbeId, at: real)
    | Answer(id: ProbeId, at: real)
    | Fail(id: ProbeId, at: real)
    | Cancel(id: ProbeId, at: real)

  type Limits = string -> Limit

  function FreshFleet(n: nat): Fleet {
    Fleet(map[], seq(n, _ => FRESH_WORKER), map[])
  }

  /** The waiting acquire an outcome is for. */
  predicate Awaits(f: Fleet, id: ProbeId) {
    id in f.probes && f.probes[id].isWaiting && f.probes[id].worker < |f.workers|
  }

  predicate Enabled(f: Fleet, limits: Limits, e: Event) {
    match e
    case Begin(id, worker, key, _) => id !in f.probes && worker < |f.workers| && Enforced(limits(key))
    case Script(id, _) => id in f.probes && Enforced(limits(f.probes[id].key))
    case Answer(id, _) =>
      var d := if id in f.probes then f.probes[id].decision else None;
      Awaits(f, id) && d.Some? && d.value.reply != ScriptError
    case Fail(id, _) => Awaits(f, id)
    case Cancel(id, _) => Awaits(f, id)
  }

  /** The acquire a step belongs to, as a call at the step's own time. */
  function CallOf(f: Fleet, limits: Limits, e: Event): Call
    requires Enabled(f, limits, e)
  {
    var key := if e.Begin? then e.key else f.probes[e.id].key;
    Call(key, e.at, limits(key))
  }

  function WorkerOf(f: Fleet, limits: Limits, e: Event): (p: nat)
    requires Enabled(f, limits, e) && !e.Script?
    ensures p < |f.workers|
  {
    if e.Begin? then e.worker else f.probes[e.id].worker
  }

  /** One step; a step that is not enabled changes nothing. */
  function FleetNext(f: Fleet, limits: Limits, e: Event): Fleet {
    if !Enabled(f, limits, e) then f else
    var c := CallOf(f, limits, e);
    match e
    case Begin(id, p, key, at) =>
      Fleet(f.cells, f.workers[p := BeginWorker(f.workers[p], c)],
            if Probes(f.workers[p], at) then f.probes[id := Probe(p, key, None, true)] else f.probes)
    case Script(id, at) =>
      Fleet(LuaNext(f.cells, c), f.workers,
            f.probes[id := f.probes[id].(decision := Some(Decision(LuaReply(f.cells, c), at)))])
    case Answer(id, _) =>
      var p := f.probes[id].worker;
      Fleet(f.cells, f.workers[p := AnswerWorker(f.workers[p])], f.probes[id := f.probes[id].(isWaiting := false)])
    case Fail(id, _) =>
      var p := f.probes[id].worker;
      Fleet(f.cells, f.workers[p := FailWorker(f.workers[p], c)], f.probes[id := f.probes[id].(isWaiting := false)])
    case Cancel(id, _) => f.(probes := f.probes[id := f.probes[id].(isWaiting := false)])
  }

  /** The step has a caller served by its process's own fallback. */
  predicate UsesLocal(f: Fleet, limits: Limits, e: Event) {
    Enabled(f, limits, e) && (e.Fail? || (e.Begin? && !Probes(f.workers[e.worker], e.at)))
  }

  /** The step tells a caller yes; such a grant is dated when its bucket decided it. */
  predicate Grants(f: Fleet, limits: Limits, e: Event) {
    Enabled(f, limits, e) &&
    if e.Answer? then f.probes[e.id].decision.value.reply == Granted
    else UsesLocal(f, limits, e) && MemGrants(f.workers[WorkerOf(f, limits, e)].fallback, CallOf(f, limits, e))
  }

  /** The grant is of `key` and was decided inside `[s, t]`. */
  predicate GrantsWithin(f: Fleet, limits: Limits, e: Event, key: string, s: real, t: real) {
    && Grants(f, limits, e) && CallOf(f, limits, e).key == key
    && s <= (if e.Answer? then f.probes[e.id].decision.value.at else e.at) <= t
  }

  function After(n: nat, limits: Limits, h: seq<Event>): Fleet {
    if h == [] then FreshFleet(n) else FleetNext(After(n, limits, h[..|h| - 1]), limits, h[|h| - 1])
  }

  /** Times never decrease, and begun acquires name known keys. */
  ghost predicate Clocked(h: seq<Event>, keys: set<string>) {
    && (forall i, j :: 0 <= i < j < |h| ==> h[i].at <= h[j].at)
    && (forall i :: 0 <= i < |h| && h[i].Begin? ==> h[i].key in keys)
  }

  /** A time no later step precedes. */
  function Now(h: seq<Event>, start: real): real {
    if h == [] then start else h[|h| - 1].at
  }

  /** Grants of `key`, decided inside `[s, t]`, that callers of the fleet receive. */
  function Admitted(n: nat, limits: Limits, h: seq<Event>, key: string, s: real, t: real): nat {
    if h == [] then 0 else
    var (before, e) := (h[..|h| - 1], h[|h| - 1]);
    Admitted(n, limits, before, key, s, t)
    + (if GrantsWithin(After(n, limits, before), limits, e, key, s, t) then 1 else 0)
  }

  // ---------------------------------------------------------------- the buckets behind the fleet

  /** The ideal buckets the fleet's Redis and fallbacks stand for. */
  datatype Shadow = Shadow(shared: Ideal, locals: seq<Ideal>)

  function FreshShadow(n: nat): Shadow {
    Shadow(map[], seq(n, _ => map[]))
  }

  function ShadowNext(f: Fleet, b: Shadow, limits: Limits, e: Event): Shadow
    requires |f.workers| == |b.locals|
  {
    if !Enabled(f, limits, e) then b
    else if e.Script? then b.(shared := IdealNext(b.shared, CallOf(f, limits, e)))
    else if UsesLocal(f, limits, e) then
      var p := WorkerOf(f, limits, e);
      b.(locals := b.locals[p := IdealNext(b.locals[p], CallOf(f, limits, e))])
    else b
  }

  ghost predicate LocalsTrack(workers: seq<Worker>, locals: seq<Ideal>, limits: Limits, now: real) {
    && |locals| == |workers|
    && forall p :: 0 <= p < |workers| ==> MemTracks(workers[p].fallback, locals[p], limits, now)
  }

  /** Every acquire on its way is of a known key, and no script run has failed. */
  ghost predicate ProbesKnown(probes: map<ProbeId, Probe>, limits: Limits, keys: set<string>) {
    forall id :: id in probes ==>
      && probes[id].key in keys && Enforced(limits(probes[id].key))
      && (probes[id].decision.Some? ==> probes[id].decision.value.reply != ScriptError)
  }

  ghost predicate FleetTracks(f: Fleet, b: Shadow, limits: Limits, keys: set<string>, now: real) {
    && LuaTracks(f.cells, b.shared, limits, keys, now)
    && LocalsTrack(f.workers, b.locals, limits, now)
    && ProbesKnown(f.probes, limits, keys)
  }

  lemma RefillAges(s: MemState, b: Ideal, limits: Limits, now: real, at: real)
    requires MemTracks(s, b, limits, now) && now <= at
    ensures MemTracks(s, b, limits, at)
  {
    forall k | k in b && k !in s.buckets
      ensures Refilled(limits(k), b[k], at)
    {
      AccruedSplits(b[k].last, now, at, limits(k).rate);
    }
  }

  lemma LocalsAge(workers: seq<Worker>, locals: seq<Ideal>, limits: Limits, now: real, at: real)
    requires LocalsTrack(workers, locals, limits, now) && now <= at
    ensures LocalsTrack(workers, locals, limits, at)
  {
    forall p | 0 <= p < |workers|
      ensures MemTracks(workers[p].fallback, locals[p], limits, at)
    {
      RefillAges(workers[p].fallback, locals[p], limits, now, at);
    }
  }

  lemma LocalStep(workers: seq<Worker>, locals: seq<Ideal>, limits: Limits, now: real, p: nat, w: Worker, c: Call)
    requires LocalsTrack(workers, locals, limits, now) && now <= c.at && p < |workers|
    requires c.limit == limits(c.key) && Enforced(c.limit) && w.fallback == MemNext(workers[p].fallback, c)
    ensures LocalsTrack(workers[p := w], locals[p := IdealNext(locals[p], c)], limits, c.at)
  {
    MemStep(workers[p].fallback, locals[p], limits, now, c);
    LocalsAge(workers, locals, limits, now, c.at);
  }

  /** A step's fallback or script answers as the ideal bucket it stands for; the script never fails. */
  lemma StepIsIdeal(f: Fleet, b: Shadow, limits: Limits, keys: set<string>, now: real, e: Event)
    requires FleetTracks(f, b, limits, keys, now) && now <= e.at && Enabled(f, limits, e)
    requires e.Begin? ==> e.key in keys
    ensures var c := CallOf(f, limits, e);
            && (e.Script? ==> LuaReply(f.cells, c) == if IdealGrants(b.shared, c) then Granted else Denied)
            && (UsesLocal(f, limits, e) ==>
                  var p := WorkerOf(f, limits, e);
                  MemGrants(f.workers[p].fallback, c) == IdealGrants(b.locals[p], c))
  {
    var c := CallOf(f, limits, e);
    if e.Script? {
      LuaStep(f.cells, b.shared, limits, keys, now, c);
    } else if UsesLocal(f, limits, e) {
      var p := WorkerOf(f, limits, e);
      MemStep(f.workers[p].fallback, b.locals[p], limits, now, c);
    }
  }

  lemma LocalsStep(f: Fleet, b: Shadow, limits: Limits, keys: set<string>, now: real, e: Event)
    requires FleetTracks(f, b, limits, keys, now) && now <= e.at
    ensures LocalsTrack(FleetNext(f, limits, e).workers, ShadowNext(f, b, limits, e).locals, limits, e.at)
  {
    LocalsAge(f.workers, b.locals, limits, now, e.at);
    if UsesLocal(f, limits, e) {
      var p := WorkerOf(f, limits, e);
      LocalStep(f.workers, b.locals, limits, now, p, FleetNext(f, limits, e).workers[p], CallOf(f, limits, e));
    }
  }

  lemma CellsStep(f: Fleet, b: Shadow, limits: Limits, keys: set<string>, now: real, e: Event)
    requires FleetTracks(f, b, limits, keys, now) && now <= e.at
    ensures LuaTracks(FleetNext(f, limits, e).cells, ShadowNext(f, b, limits, e).shared, limits, keys, e.at)
  {
    if Enabled(f, limits, e) && e.Script? {
      LuaStep(f.cells, b.shared, limits, keys, now, CallOf(f, limits, e));
    }
  }

  lemma ProbesStep(f: Fleet, b: Shadow, limits: Limits, keys: set<string>, now: real, e: Event)
    requires FleetTracks(f, b, limits, keys, now) && now <= e.at
    requires e.Begin? ==> e.key in keys
    ensures ProbesKnown(FleetNext(f, limits, e).probes, limits, keys)
  {
    var probes := FleetNext(f, limits, e).probes;
    if Enabled(f, limits, e) && e.Script? {
      StepIsIdeal(f, b, limits, keys, now, e);
    }
    forall id | id in probes && id != e.id ensures id in f.probes && probes[id] == f.probes[id] {}
  }

  /** One step keeps the tracking. */
  lemma FleetStep(f: Fleet, b: Shadow, limits: Limits, keys: set<string>, now: real, e: Event)
    requires FleetTracks(f, b, limits, keys, now) && now <= e.at
    requires e.Begin? ==> e.key in keys
    ensures FleetTracks(FleetNext(f, limits, e), ShadowNext(f, b, limits, e), limits, keys, e.at)
  {
    LocalsStep(f, b, limits, keys, now, e);
    CellsStep(f, b, limits, keys, now, e);
    ProbesStep(f, b, limits, keys, now, e);
  }

  // ---------------------------------------------------------------- the fleet-wide bound

  /** Sum over the workers of the headroom their ideal fallbacks leave the key. */
  function LocalRoom(locals: seq<Ideal>, limit: Limit, key: string, s: real, t: real): real {
    if locals == [] then 0.0
    else Headroom(limit, Lookup(locals[0], key), s, t) + LocalRoom(locals[1..], limit, key, s, t)
  }

  lemma {:induction false} LocalRoomUpdate(
      locals: seq<Ideal>, p: nat, b: Ideal, limit: Limit, key: string, s: real, t: real)
    requires p < |locals|
    ensures LocalRoom(locals[p := b], limit, key, s, t) ==
            LocalRoom(locals, limit, key, s, t)
            - Headroom(limit, Lookup(locals[p], key), s, t) + Headroom(limit, Lookup(b, key), s, t)
  {
    if p == 0 {
      assert locals[p := b][1..] == locals[1..];
    } else {
      assert locals[p := b][1..] == locals[1..][p - 1 := b];
      LocalRoomUpdate(locals[1..], p - 1, b, limit, key, s, t);
    }
  }

  lemma {:induction false} LocalRoomFresh(n: nat, locals: seq<Ideal>, limit: Limit, key: string, s: real, t: real)
    requires |locals| == n && forall p :: 0 <= p < n ==> locals[p] == map[]
    ensures LocalRoom(locals, limit, key, s, t) == n as real * Budget(limit, s, t)
  {
    if n != 0 {
      assert Lookup(locals[0], key) == None;
      LocalRoomFresh(n - 1, locals[1..], limit, key, s, t);
    }
  }

  /** A grant of an ideal bucket is paid for out of the headroom it leaves the key. */
  lemma IdealPays(b: Ideal, c: Call, limits: Limits, now: real, key: string, s: real, t: real)
    requires Sane(b, limits, now) && now <= c.at && s <= t
    requires c.limit == limits(c.key) && Enforced(c.limit) && Enforced(limits(key))
    ensures (if IdealGrants(b, c) && c.key == key && s <= c.at <= t then 1.0 else 0.0)
            + Headroom(limits(key), Lookup(IdealNext(b, c), key), s, t)
            <= Headroom(limits(key), Lookup(b, key), s, t)
  {
    HeadroomPaysForGrant(c.limit, Lookup(b, c.key), c.at, s, t);
  }

  lemma RoomNonNegative(b: Ideal, limits: Limits, now: real, key: string, s: real, t: real)
    requires Sane(b, limits, now) && Enforced(limits(key)) && s <= t
    ensures Headroom(limits(key), Lookup(b, key), s, t) >= 0.0
  {
    HeadroomPaysForGrant(limits(key), Lookup(b, key), Later(now, t), s, t);
  }

  lemma {:induction false} LocalRoomNonNegative(
      locals: seq<Ideal>, limits: Limits, now: real, key: string, s: real, t: real)
    requires forall p :: 0 <= p < |locals| ==> Sane(locals[p], limits, now)
    requires Enforced(limits(key)) && s <= t
    ensures LocalRoom(locals, limits(key), key, s, t) >= 0.0
  {
    if locals != [] {
      RoomNonNegative(locals[0], limits, now, key, s, t);
      LocalRoomNonNegative(locals[1..], limits, now, key, s, t);
    }
  }

  ghost function Room(b: Shadow, limit: Limit, key: string, s: real, t: real): real {
    Headroom(limit, Lookup(b.shared, key), s, t) + LocalRoom(b.locals, limit, key, s, t)
  }

  // ---------------------------------------------------------------- grants on their way

  predicate IsPending(p: Probe, key: string, s: real, t: real) {
    && p.isWaiting && p.key == key && p.decision.Some?
    && p.decision.value.reply == Granted && s <= p.decision.value.at <= t
  }

  /** Grants the script has decided that their callers have not received yet. */
  ghost function Pending(probes: map<ProbeId, Probe>, key: string, s: real, t: real): set<ProbeId> {
    set id | id in probes && IsPending(probes[id], key, s, t)
  }

  lemma PendingMoves(probes: map<ProbeId, Probe>, id: ProbeId, p: Probe, key: string, s: real, t: real)
    ensures |Pending(probes[id := p], key, s, t)|
            == |Pending(probes, key, s, t)| - (if id in probes && IsPending(probes[id], key, s, t) then 1 else 0)
               + (if IsPending(p, key, s, t) then 1 else 0)
  {
    var (before, after) := (Pending(probes, key, s, t), Pending(probes[id := p], key, s, t));
    assert after == if id in after then (before - {id}) + {id} else before - {id};
  }

  /** What the key can still be granted, and what is on its way. */
  ghost function Owed(f: Fleet, b: Shadow, limit: Limit, key: string, s: real, t: real): real {
    Room(b, limit, key, s, t) + |Pending(f.probes, key, s, t)| as real
  }

  lemma ScriptPays(f: Fleet, b: Shadow, limits: Limits, keys: set<string>, now: real, e: Event,
                   key: string, s: real, t: real)
    requires FleetTracks(f, b, limits, keys, now) && now <= e.at && Enabled(f, limits, e) && e.Script?
    requires Enforced(limits(key)) && s <= t
    ensures Owed(FleetNext(f, limits, e), ShadowNext(f, b, limits, e), limits(key), key, s, t)
            <= Owed(f, b, limits(key), key, s, t)
  {
    StepIsIdeal(f, b, limits, keys, now, e);
    IdealPays(b.shared, CallOf(f, limits, e), limits, now, key, s, t);
    PendingMoves(f.probes, e.id, FleetNext(f, limits, e).probes[e.id], key, s, t);
  }

  lemma LocalPays(f: Fleet, b: Shadow, limits: Limits, keys: set<string>, now: real, e: Event,
                  key: string, s: real, t: real)
    requires FleetTracks(f, b, limits, keys, now) && now <= e.at && UsesLocal(f, limits, e)
    requires (e.Begin? ==> e.key in keys) && Enforced(limits(key)) && s <= t
    ensures (if GrantsWithin(f, limits, e, key, s, t) then 1.0 else 0.0)
            + Room(ShadowNext(f, b, limits, e), limits(key), key, s, t)
            <= Room(b, limits(key), key, s, t)
  {
    var (p, c) := (WorkerOf(f, limits, e), CallOf(f, limits, e));
    StepIsIdeal(f, b, limits, keys, now, e);
    IdealPays(b.locals[p], c, limits, now, key, s, t);
    LocalRoomUpdate(b.locals, p, IdealNext(b.locals[p], c), limits(key), key, s, t);
  }

  /** Whatever the step, a caller's grant is paid for by the one bucket that decided it. */
  lemma FleetPays(f: Fleet, b: Shadow, limits: Limits, keys: set<string>, now: real, e: Event,
                  key: string, s: real, t: real)
    requires FleetTracks(f, b, limits, keys, now) && now <= e.at
    requires (e.Begin? ==> e.key in keys) && Enforced(limits(key)) && s <= t
    ensures (if GrantsWithin(f, limits, e, key, s, t) then 1.0 else 0.0)
            + Owed(FleetNext(f, limits, e), ShadowNext(f, b, limits, e), limits(key), key, s, t)
            <= Owed(f, b, limits(key), key, s, t)
  {
    if Enabled(f, limits, e) {
      if e.Script? {
        ScriptPays(f, b, limits, keys, now, e, key, s, t);
      } else {
        if UsesLocal(f, limits, e) {
          LocalPays(f, b, limits, keys, now, e, key, s, t);
        }
        var probes := FleetNext(f, limits, e).probes;
        if e.id in probes {
          assert probes == f.probes[e.id := probes[e.id]];
          PendingMoves(f.probes, e.id, probes[e.id], key, s, t);
        }
      }
    }
  }

  ghost function ShadowAfter(n: nat, limits: Limits, h: seq<Event>): (b: Shadow)
    ensures |b.locals| == |After(n, limits, h).workers| == n
  {
    if h == [] then FreshShadow(n)
    else ShadowNext(After(n, limits, h[..|h| - 1]), ShadowAfter(n, limits, h[..|h| - 1]), limits, h[|h| - 1])
  }

  lemma {:induction false} FleetTracked(n: nat, limits: Limits, keys: set<string>, h: seq<Event>, start: real)
    requires Apart(keys) && Clocked(h, keys) && (h != [] ==> start <= h[0].at)
    ensures FleetTracks(After(n, limits, h), ShadowAfter(n, limits, h), limits, keys, Now(h, start))
    decreases |h|
  {
    if h != [] {
      var before := h[..|h| - 1];
      FleetTracked(n, limits, keys, before, start);
      FleetStep(After(n, limits, before), ShadowAfter(n, limits, before), limits, keys, Now(before, start), h[|h| - 1]);
    }
  }

  lemma {:induction false} FleetWindow(n: nat, limits: Limits, keys: set<string>, h: seq<Event>, start: real,
                                       key: string, s: real, t: real)
    requires Apart(keys) && Clocked(h, keys) && (h != [] ==> start <= h[0].at)
    requires Enforced(limits(key)) && s <= t
    ensures Admitted(n, limits, h, key, s, t) as real
            + Owed(After(n, limits, h), ShadowAfter(n, limits, h), limits(key), key, s, t)
            <= (n + 1) as real * Budget(limits(key), s, t)
    decreases |h|
  {
    if h == [] {
      FreshRoom(n, limits(key), key, s, t);
      assert Pending(FreshFleet(n).probes, key, s, t) == {};
    } else {
      var before := h[..|h| - 1];
      FleetTracked(n, limits, keys, before, start);
      FleetWindow(n, limits, keys, before, start, key, s, t);
      FleetPays(After(n, limits, before), ShadowAfter(n, limits, before), limits, keys, Now(before, start), h[|h| - 1],
                key, s, t);
    }
  }

  /**
   * However acquires overlap and Redis fails, answers late or loses answers, `n` workers sharing it
   * admit at most `n + 1` budgets of a key in any window: one from Redis and one from each fallback.
   */
  lemma FleetAdmissionBound(n: nat, limits: Limits, keys: set<string>, h: seq<Event>, key: string, s: real, t: real)
    requires Apart(keys) && Clocked(h, keys) && Enforced(limits(key)) && s <= t
    ensures Admitted(n, limits, h, key, s, t) as real <= (n + 1) as real * Budget(limits(key), s, t)
  {
    var start := if h == [] then 0.0 else h[0].at;
    FleetTracked(n, limits, keys, h, start);
    FleetWindow(n, limits, keys, h, start, key, s, t);
    RoomIsNonNegative(ShadowAfter(n, limits, h), limits, Now(h, start), key, s, t);
  }

  lemma RoomIsNonNegative(b: Shadow, limits: Limits, now: real, key: string, s: real, t: real)
    requires Sane(b.shared, limits, now) && forall p :: 0 <= p < |b.locals| ==> Sane(b.locals[p], limits, now)
    requires Enforced(limits(key)) && s <= t
    ensures Room(b, limits(key), key, s, t) >= 0.0
  {
    RoomNonNegative(b.shared, limits, now, key, s, t);
    LocalRoomNonNegative(b.locals, limits, now, key, s, t);
  }

  lemma FreshRoom(n: nat, limit: Limit, key: string, s: real, t: real)
    ensures Room(FreshShadow(n), limit, key, s, t) == (n + 1) as real * Budget(limit, s, t)
  {
    assert Lookup(FreshShadow(n).shared, key) == None;
    LocalRoomFresh(n, FreshShadow(n).locals, limit, key, s, t);
    OneMore(n, Budget(limit, s, t));
  }

  lemma OneMore(n: nat, x: real)
    ensures (n + 1) as real * x == n as real * x + x
  {
    assert (n + 1) as real == n as real + 1.0;
  }

  // ---------------------------------------------------------------- probing and recovery

  datatype Outcome = Answered | Failed(at: real)

  /** Step `i` is an outcome for worker `p`. */
  predicate OutcomeAt(n: nat, limits: Limits, h: seq<Event>, i: nat, p: nat)
    requires i < |h|
  {
    var f := After(n, limits, h[..i]);
    Enabled(f, limits, h[i]) && (h[i].Answer? || h[i].Fail?) && f.probes[h[i].id].worker == p
  }

  predicate FailsAt(n: nat, limits: Limits, h: seq<Event>, i: nat, p: nat)
    requires i < |h|
  {
    OutcomeAt(n, limits, h, i, p) && h[i].Fail?
  }

  predicate AnswersAt(n: nat, limits: Limits, h: seq<Event>, i: nat, p: nat)
    requires i < |h|
  {
    OutcomeAt(n, limits, h, i, p) && h[i].Answer?
  }

  /** The latest outcome worker `p` has observed. */
  function LastOutcome(n: nat, limits: Limits, h: seq<Event>, p: nat): Option<Outcome> {
    if h == [] then None else
    var last := |h| - 1;
    if OutcomeAt(n, limits, h, last, p) then Some(if h[last].Answer? then Answered else Failed(h[last].at))
    else LastOutcome(n, limits, h[..last], p)
  }

  lemma {:induction false} WorkerTellsOutcome(n: nat, limits: Limits, h: seq<Event>, p: nat)
    requires p < n
    ensures |After(n, limits, h).workers| == n
    ensures var (w, last) := (After(n, limits, h).workers[p], LastOutcome(n, limits, h, p));
            && w.unavailable == (last.Some? && last.value.Failed?)
            && (w.unavailable ==> w.failedAt == last.value.at)
    decreases |h|
  {
    if h != [] {
      WorkerTellsOutcome(n, limits, h[..|h| - 1], p);
    }
  }

  /**
   * Recovery, exactly: an acquire is served locally without asking Redis if and only if the latest
   * outcome its process observed is a failure less than 30 s ago.
   */
  lemma LocalIffRecentFailure(n: nat, limits: Limits, h: seq<Event>, p: nat, now: real)
    requires p < n
    ensures |After(n, limits, h).workers| == n
    ensures !Probes(After(n, limits, h).workers[p], now) <==>
            match LastOutcome(n, limits, h, p)
            case Some(Failed(at)) => now - at < 30.0
            case _ => false
  {
    WorkerTellsOutcome(n, limits, h, p);
  }

  /** A step means the same in a history and in one of its beginnings. */
  lemma SameStep(n: nat, limits: Limits, h: seq<Event>, j: nat, k: nat, p: nat)
    requires k < j <= |h|
    ensures h[..j][k] == h[k] && h[..j][..k] == h[..k]
    ensures OutcomeAt(n, limits, h[..j], k, p) == OutcomeAt(n, limits, h, k, p)
  {
    assert h[..j][..k] == h[..k];
  }

  lemma {:induction false} LastOutcomeOrigin(n: nat, limits: Limits, h: seq<Event>, p: nat) returns (i: nat)
    requires LastOutcome(n, limits, h, p).Some?
    ensures i < |h| && OutcomeAt(n, limits, h, i, p)
    ensures LastOutcome(n, limits, h, p) == Some(if h[i].Answer? then Answered else Failed(h[i].at))
    ensures forall k :: i < k < |h| ==> !OutcomeAt(n, limits, h, k, p)
    decreases |h|
  {
    var last := |h| - 1;
    if OutcomeAt(n, limits, h, last, p) {
      i := last;
    } else {
      var before := h[..last];
      i := LastOutcomeOrigin(n, limits, before, p);
      SameStep(n, limits, h, last, i, p);
      forall k | i < k < |h| ensures !OutcomeAt(n, limits, h, k, p) {
        if k < last {
          SameStep(n, limits, h, last, k, p);
        }
      }
    }
  }

  /** Once a process observes no failure after `healed`, it leaves its fallback one cooldown later. */
  lemma RecoveryWithinCooldown(
      n: nat, limits: Limits, keys: set<string>, h: seq<Event>, j: nat, p: nat, healed: real)
    requires Clocked(h, keys) && j < |h| && p < n
    requires forall i :: 0 <= i < j && FailsAt(n, limits, h, i, p) ==> h[i].at <= healed
    requires h[j].at >= healed + RECOVERY_RETRY_SECONDS
    requires Enabled(After(n, limits, h[..j]), limits, h[j]) && h[j].Begin? && h[j].worker == p
    ensures !UsesLocal(After(n, limits, h[..j]), limits, h[j])
  {
    var before := h[..j];
    LocalIffRecentFailure(n, limits, before, p, h[j].at);
    if LastOutcome(n, limits, before, p).Some? {
      var i := LastOutcomeOrigin(n, limits, before, p);
      assert before[..i] == h[..i] && before[i] == h[i];
      assert OutcomeAt(n, limits, h, i, p);
    }
  }

  /** The process is not in a cooldown. */
  predicate IsOpen(n: nat, limits: Limits, h: seq<Event>, p: nat)
    requires p < n
  {
    var workers := After(n, limits, h).workers;
    p < |workers| && !workers[p].unavailable
  }

  /** Every acquire of `p` that waits for Redis now was waiting already in `f`. */
  ghost predicate OnlyOldWait(f: Fleet, g: Fleet, p: nat) {
    forall id :: id in g.probes && g.probes[id].worker == p && g.probes[id].isWaiting ==> Awaits(f, id)
  }

  /** In a cooldown that began at `since` or later, with only acquires waiting that waited in `f0`. */
  ghost predicate Shut(f0: Fleet, f: Fleet, p: nat, since: real) {
    p < |f.workers| && f.workers[p].unavailable && f.workers[p].failedAt >= since && OnlyOldWait(f0, f, p)
  }

  lemma StaysShut(f0: Fleet, f: Fleet, limits: Limits, e: Event, p: nat, since: real)
    requires Shut(f0, f, p, since) && since <= e.at < since + RECOVERY_RETRY_SECONDS
    requires Enabled(f, limits, e) && e.Answer? && f.probes[e.id].worker == p ==> !Awaits(f0, e.id)
    ensures Shut(f0, FleetNext(f, limits, e), p, since)
  {}

  /** Step `k` answers an acquire of `p` that was already waiting right after step `i`. */
  predicate AnswersWaiter(n: nat, limits: Limits, h: seq<Event>, i: nat, k: nat, p: nat)
    requires i < |h| && k < |h|
  {
    AnswersAt(n, limits, h, k, p) && Awaits(After(n, limits, h[..i + 1]), h[k].id)
  }

  /** Within the cooldown of a failure, a process stays shut until an acquire already waiting is answered. */
  lemma {:induction false} ShutUntilAnswered(
      n: nat, limits: Limits, keys: set<string>, h: seq<Event>, i: nat, m: nat, p: nat)
    requires Clocked(h, keys) && p < n && i < m <= |h| && FailsAt(n, limits, h, i, p)
    requires h[m - 1].at < h[i].at + RECOVERY_RETRY_SECONDS
    requires forall k :: i < k < m ==> !AnswersWaiter(n, limits, h, i, k, p)
    ensures Shut(After(n, limits, h[..i + 1]), After(n, limits, h[..m]), p, h[i].at)
    decreases m
  {
    var last := m - 1;
    assert h[..m][..last] == h[..last] && h[..m][last] == h[last];
    if last == i {
      WorkerTellsOutcome(n, limits, h[..i], p);
    } else {
      ShutUntilAnswered(n, limits, keys, h, i, last, p);
      assert !AnswersWaiter(n, limits, h, i, last, p);
      StaysShut(After(n, limits, h[..i + 1]), After(n, limits, h[..last]), limits, h[last], p, h[i].at);
    }
  }

  lemma AnswerReopens(n: nat, limits: Limits, h: seq<Event>, k: nat, p: nat)
    requires p < n && k < |h| && AnswersAt(n, limits, h, k, p)
    ensures IsOpen(n, limits, h[..k + 1], p)
  {
    WorkerTellsOutcome(n, limits, h[..k], p);
    assert h[..k + 1][..k] == h[..k] && h[..k + 1][k] == h[k];
  }

  /**
   * Within 30 s of a failure its process leaves the cooldown if and only if an acquire that was
   * already waiting at that failure is answered.
   */
  lemma ReopenedIffAnswered(n: nat, limits: Limits, keys: set<string>, h: seq<Event>, i: nat, j: nat, p: nat)
    requires Clocked(h, keys) && p < n && i < j <= |h| && FailsAt(n, limits, h, i, p)
    requires h[j - 1].at < h[i].at + RECOVERY_RETRY_SECONDS
    ensures (exists m :: i < m <= j && IsOpen(n, limits, h[..m], p)) <==>
            (exists k :: i < k < j && AnswersWaiter(n, limits, h, i, k, p))
  {
    if k :| i < k < j && AnswersWaiter(n, limits, h, i, k, p) {
      AnswerReopens(n, limits, h, k, p);
    } else {
      forall m | i < m <= j ensures !IsOpen(n, limits, h[..m], p) {
        assert forall k :: i < k < m ==> !AnswersWaiter(n, limits, h, i, k, p);
        ShutUntilAnswered(n, limits, keys, h, i, m, p);
      }
    }
  }

  /**
   * Probe spacing: an acquire begun within 30 s of its process's failure asks Redis if and only if
   * the latest outcome observed since is an answer; and then one of the acquires already waiting at
   * the failure was answered in between.
   */
  lemma ProbeSpacing(n: nat, limits: Limits, keys: set<string>, h: seq<Event>, i: nat, j: nat, p: nat)
    requires Clocked(h, keys) && p < n && i < j < |h| && FailsAt(n, limits, h, i, p)
    requires h[j].at < h[i].at + RECOVERY_RETRY_SECONDS
    ensures |After(n, limits, h[..j]).workers| == n
    ensures var probes := Probes(After(n, limits, h[..j]).workers[p], h[j].at);
            && (probes <==> LastOutcome(n, limits, h[..j], p) == Some(Answered))
            && (probes ==> exists k :: i < k < j && AnswersWaiter(n, limits, h, i, k, p))
  {
    LocalIffRecentFailure(n, limits, h[..j], p, h[j].at);
    FailureIsRemembered(n, limits, h, i, j, p);
    if Probes(After(n, limits, h[..j]).workers[p], h[j].at) {
      WorkerTellsOutcome(n, limits, h[..j], p);
      ReopenedIffAnswered(n, limits, keys, h, i, j, p);
      assert IsOpen(n, limits, h[..j], p);
    }
  }

  /** After a failure the latest outcome is that failure or a later outcome. */
  lemma {:induction false} FailureIsRemembered(n: nat, limits: Limits, h: seq<Event>, i: nat, j: nat, p: nat)
    requires i < j <= |h| && FailsAt(n, limits, h, i, p)
    requires forall a, b :: 0 <= a < b < |h| ==> h[a].at <= h[b].at
    ensures var o := LastOutcome(n, limits, h[..j], p); o.Some? && (o.value.Failed? ==> o.value.at >= h[i].at)
    decreases j
  {
    var last := j - 1;
    SameStep(n, limits, h, j, last, p);
    if !OutcomeAt(n, limits, h, last, p) {
      FailureIsRemembered(n, limits, h, i, last, p);
    }
  }

  /** Two overlapping acquires of one process: one fails at 1.0, the other is answered at 1.2, a third begins at 1.3. */
  function OverlappingAcquires(key: string): seq<Event> {
    [Begin(0, 0, key, 0.0), Begin(1, 0, key, 0.1), Script(1, 0.5), Fail(0, 1.0), Answer(1, 1.2), Begin(2, 0, key, 1.3)]
  }

  /** The cooldown really is cut short: in that run the third acquire asks Redis 0.3 s after the failure. */
  lemma ProbeWithinCooldown(limits: Limits, key: string)
    requires Enforced(limits(key))
    ensures var h := OverlappingAcquires(key);
            && FailsAt(1, limits, h, 3, 0) && AnswersWaiter(1, limits, h, 3, 4, 0)
            && After(1, limits, h[..5]).workers != [] && Probes(After(1, limits, h[..5]).workers[0], h[5].at)
            && h[5].at - h[3].at < RECOVERY_RETRY_SECONDS
  {
    var h := OverlappingAcquires(key);
    assert h[..5][..4] == h[..4] && h[..4][..3] == h[..3] && h[..3][..2] == h[..2] && h[..2][..1] == h[..1];
    assert h[..1][..0] == [];
    var f0 := FreshFleet(1);
    assert After(1, limits, []) == f0;
    var f1 := After(1, limits, h[..1]);
    assert f1 == FleetNext(f0, limits, h[0]) && f1.workers == [FRESH_WORKER];
    var f2 := After(1, limits, h[..2]);
    assert f2 == FleetNext(f1, limits, h[1]) && f2.workers == [FRESH_WORKER];
    assert 0 in f2.probes && 1 in f2.probes && f2.probes[0] == f2.probes[1] == Probe(0, key, None, true);
    var f3 := After(1, limits, h[..3]);
    assert f3 == FleetNext(f2, limits, h[2]) && f3.workers == [FRESH_WORKER];
    assert f3.probes[1].decision.value.reply == Granted by { FirstScriptGrants(limits, key); }
    var f4 := After(1, limits, h[..4]);
    assert f4 == FleetNext(f3, limits, h[3]) && f4.probes[1] == f3.probes[1];
    var f5 := After(1, limits, h[..5]);
    assert f5 == FleetNext(f4, limits, h[4]) && !f5.workers[0].unavailable;
  }

  lemma FirstScriptGrants(limits: Limits, key: string)
    requires Enforced(limits(key))
    ensures LuaReply(map[], Call(key, 0.5, limits(key))) == Granted
  {}

  // ---------------------------------------------------------------- one shared bucket

  /** The script runs of a history, in order. */
  function ScriptCalls(n: nat, limits: Limits, h: seq<Event>): seq<Call> {
    if h == [] then [] else
    var (f, e) := (After(n, limits, h[..|h| - 1]), h[|h| - 1]);
    ScriptCalls(n, limits, h[..|h| - 1]) + (if Enabled(f, limits, e) && e.Script? then [CallOf(f, limits, e)] else [])
  }

  /** What those script runs replied. */
  function ScriptReplies(n: nat, limits: Limits, h: seq<Event>): seq<Reply> {
    if h == [] then [] else
    var (f, e) := (After(n, limits, h[..|h| - 1]), h[|h| - 1]);
    ScriptReplies(n, limits, h[..|h| - 1])
    + (if Enabled(f, limits, e) && e.Script? then [LuaReply(f.cells, CallOf(f, limits, e))] else [])
  }

  /** Whatever fails around it, the script replies of the whole fleet are those of one ideal bucket. */
  lemma {:induction false} RepliesAreOneBucket(
      n: nat, limits: Limits, keys: set<string>, h: seq<Event>, start: real)
    requires Apart(keys) && Clocked(h, keys) && (h != [] ==> start <= h[0].at)
    ensures ScriptReplies(n, limits, h) == Replies(IdealRun(map[], ScriptCalls(n, limits, h)))
    ensures ShadowAfter(n, limits, h).shared == IdealAfter(map[], ScriptCalls(n, limits, h))
    decreases |h|
  {
    if h != [] {
      var (before, e) := (h[..|h| - 1], h[|h| - 1]);
      RepliesAreOneBucket(n, limits, keys, before, start);
      FleetTracked(n, limits, keys, before, start);
      var (f, b) := (After(n, limits, before), ShadowAfter(n, limits, before));
      if Enabled(f, limits, e) && e.Script? {
        var (calls, c) := (ScriptCalls(n, limits, before), CallOf(f, limits, e));
        StepIsIdeal(f, b, limits, keys, Now(before, start), e);
        IdealRunSnoc(map[], calls, c);
        RepliesSnoc(IdealRun(map[], calls), IdealGrants(b.shared, c));
        assert ScriptCalls(n, limits, h) == calls + [c];
      } else {
        assert ScriptCalls(n, limits, h) == ScriptCalls(n, limits, before) + [] == ScriptCalls(n, limits, before);
        assert ScriptReplies(n, limits, h) == ScriptReplies(n, limits, before) + [] == ScriptReplies(n, limits, before);
      }
    }
  }

  lemma RepliesSnoc(granted: seq<bool>, last: bool)
    ensures Replies(granted + [last]) == Replies(granted) + [if last then Granted else Denied]
  {}

  /** While a process observes no failure, it asks Redis for every acquire. */
  lemma HealthyWorkerAsks(n: nat, limits: Limits, h: seq<Event>, j: nat, p: nat)
    requires p < n && j <= |h| && forall i :: 0 <= i < |h| ==> !FailsAt(n, limits, h, i, p)
    ensures IsOpen(n, limits, h[..j], p)
  {
    var cut := h[..j];
    WorkerTellsOutcome(n, limits, cut, p);
    if LastOutcome(n, limits, cut, p).Some? {
      var i := LastOutcomeOrigin(n, limits, cut, p);
      SameStep(n, limits, h, j, i, p);
      assert !FailsAt(n, limits, h, i, p);
    }
  }

  /** With no failure observed, every caller's answer is that of the one ideal bucket. */
  lemma HealthyFleetIsOneBucket(n: nat, limits: Limits, keys: set<string>, h: seq<Event>, j: nat)
    requires Apart(keys) && Clocked(h, keys) && j < |h|
    requires forall i, p :: 0 <= i < |h| && 0 <= p < n ==> !FailsAt(n, limits, h, i, p)
    ensures !UsesLocal(After(n, limits, h[..j]), limits, h[j])
    ensures ScriptReplies(n, limits, h) == Replies(IdealRun(map[], ScriptCalls(n, limits, h)))
  {
    RepliesAreOneBucket(n, limits, keys, h, h[0].at);
    var (f, e) := (After(n, limits, h[..j]), h[j]);
    assert |ShadowAfter(n, limits, h[..j]).locals| == |f.workers| == n;
    if Enabled(f, limits, e) && e.Begin? {
      HealthyWorkerAsks(n, limits, h, j, e.worker);
    } else if Enabled(f, limits, e) && e.Answer? {
      assert WorkerOf(f, limits, e) < n;
    } else {
      assert e.Fail? && Enabled(f, limits, e) ==> FailsAt(n, limits, h, j, f.probes[e.id].worker);
    }
  }

  // ---------------------------------------------------------------- the rule table

  datatype Rule = Rule(name: string, limit: Limit)

  datatype Settings = Settings(
    window: int, requests: int, loginPerMinute: int, conversationPerMinute: int, uploadPerMinute: int)

  function RuleTable(s: Settings): seq<Rule> {
    var window := if s.window >= 1 then s.window else 1;
    [Rule("global", Limit(s.requests, s.requests as real / window as real)),
     Rule("login", Limit(s.loginPerMinute, s.loginPerMinute as real / 60.0)),
     Rule("conversation", Limit(s.conversationPerMinute, s.conversationPerMinute as real / 60.0)),
     Rule("upload", Limit(s.uploadPerMinute, s.uploadPerMinute as real / 60.0))]
  }

  /** `a` keeps some elements of `b`, in their order. */
  predicate Subsequence(a: seq<Rule>, b: seq<Rule>) {
    a == [] || (b != [] && if a[0] == b[0] then Subsequence(a[1..], b[1..]) else Subsequence(a, b[1..]))
  }

  /** The rules in force: exactly the configured ones whose bucket can be enforced, in table order. */
  function BuildRules(s: Settings): (rules: seq<Rule>)
    ensures forall r :: r in rules <==> r in RuleTable(s) && Enforced(r.limit)
    ensures Subsequence(rules, RuleTable(s))
  {
    EnforceableOnly(RuleTable(s))
  }

  function EnforceableOnly(rules: seq<Rule>): (kept: seq<Rule>)
    ensures forall r :: r in kept <==> r in rules && Enforced(r.limit)
    ensures Subsequence(kept, rules)
  {
    if rules == [] then []
    else if rules[0].limit.capacity > 0 && rules[0].limit.rate > 0.0 then [rules[0]] + EnforceableOnly(rules[1..])
    else EnforceableOnly(rules[1..])
  }

  /** How many requests the settings allow a caller in the window of a rule. */
  function Allowance(s: Settings, name: string): int {
    match name
    case "global" => s.requests
    case "login" => s.loginPerMinute
    case "conversation" => s.conversationPerMinute
    case _ => s.uploadPerMinute
  }

  function WindowSeconds(s: Settings, name: string): int {
    if name != "global" then 60 else if s.window < 1 then 1 else s.window
  }

  predicate IsRuleName(name: string) {
    name == "global" || name == "login" || name == "conversation" || name == "upload"
  }

  /** The rule's bucket holds the allowance and refills completely in exactly one window. */
  predicate MatchesSettings(s: Settings, r: Rule) {
    && IsRuleName(r.name) && r.limit.capacity == Allowance(s, r.name)
    && r.limit.rate * WindowSeconds(s, r.name) as real == r.limit.capacity as real
  }

  /** The rule of a name, if its allowance can be enforced. */
  predicate HasRule(rules: seq<Rule>, name: string) {
    exists r :: r in rules && r.name == name
  }

  lemma TableMatchesSettings(s: Settings)
    ensures forall r :: r in RuleTable(s) ==> MatchesSettings(s, r)
  {
    var window := if s.window >= 1 then s.window else 1;
    QuotientTimes(s.requests as real, window as real);
  }

  lemma QuotientTimes(a: real, b: real)
    requires b != 0.0
    ensures a / b * b == a
  {}

  lemma TableHasRule(s: Settings, name: string)
    requires IsRuleName(name)
    ensures HasRule(RuleTable(s), name)
    ensures forall a, b :: a in RuleTable(s) && b in RuleTable(s) && a.name == b.name ==> a == b
  {
    var table := RuleTable(s);
    assert table[0] in table && table[1] in table && table[2] in table && table[3] in table;
  }

  lemma PositiveAlike(rate: real, window: int, capacity: int)
    requires window >= 1 && rate * window as real == capacity as real
    ensures rate > 0.0 <==> capacity >= 1
  {}

  lemma RuleIsKept(s: Settings, r: Rule)
    requires r in RuleTable(s)
    ensures r in BuildRules(s) <==> Allowance(s, r.name) >= 1
  {
    TableMatchesSettings(s);
    PositiveAlike(r.limit.rate, WindowSeconds(s, r.name), r.limit.capacity);
  }

  /** The rules in force are the settings': one per allowance of at least one, refilled once per window. */
  lemma RulesMatchSettings(s: Settings, name: string)
    requires IsRuleName(name)
    ensures forall r :: r in BuildRules(s) ==> MatchesSettings(s, r)
    ensures forall a, b :: a in BuildRules(s) && b in BuildRules(s) && a.name == b.name ==> a == b
    ensures HasRule(BuildRules(s), name) <==> Allowance(s, name) >= 1
  {
    TableMatchesSettings(s);
    TableHasRule(s, name);
    var r :| r in RuleTable(s) && r.name == name;
    RuleIsKept(s, r);
  }

  lemma BurstAndRefill(limit: Limit, from: real, window: int)
    requires limit.rate * window as real == limit.capacity as real
    ensures Budget(limit, from, from + window as real) == 2.0 * limit.capacity as real
  {}

  /** Such a rule admits a caller at most twice its allowance in any stretch as long as its window. */
  lemma AllowancePerWindow(s: Settings, r: Rule, from: real)
    requires MatchesSettings(s, r)
    ensures Budget(r.limit, from, from + WindowSeconds(s, r.name) as real) == 2.0 * Allowance(s, r.name) as real
  {
    BurstAndRefill(r.limit, from, WindowSeconds(s, r.name));
  }
}
