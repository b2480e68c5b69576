/**
 * `RedisLoginAttempts` of `app/auth/login_lockout.py`: every process counts login failures in the
 * shared store while it answers and in a store of its own while it does not.
 *
 * However the failures of one identifier are spread over these stores, a bounded number of them
 * within one lock window leaves it unlocked everywhere.
 */
module LoginFailover {
  import opened Wrappers
  import opened LoginLockout

  const RECOVERY_RETRY_SECONDS := 30.0

  /** What became of a command sent to Redis; one that was lost may have run all the same. */
  datatype Reply = Answered | Lost(ran: bool)

  /** What a process remembers of the shared store. */
  datatype Guard = Guard(unavailable: bool, failedAt: real)

  predicate Degraded(g: Guard, now: real) {
    g.unavailable && now - g.failedAt < RECOVERY_RETRY_SECONDS
  }

  function Marked(now: real, reply: Reply): Guard {
    if reply.Answered? then Guard(false, 0.0) else Guard(true, now)
  }

  /** The command is sent: a clear always, anything else outside the cooldown only. */
  predicate Sends(configured: bool, g: Guard, e: Event) {
    configured && (e.Clear? || !Degraded(g, e.at))
  }

  function GuardNext(configured: bool, g: Guard, e: Event, reply: Reply): Guard {
    if Sends(configured, g, e) then Marked(e.at, reply) else g
  }

  predicate ReachesShared(configured: bool, g: Guard, e: Event, reply: Reply) {
    Sends(configured, g, e) && (reply.Answered? || reply.ran)
  }

  predicate ReachesMemory(configured: bool, g: Guard, e: Event, reply: Reply) {
    e.Clear? || !Sends(configured, g, e) || reply.Lost?
  }

  class RedisLoginAttempts {
    const cfg: Config
    const redis: SharedLoginAttempts?
    const fallback: InMemoryLoginAttempts
    var unavailable: bool
    var failedAt: real

    ghost predicate Valid()
      reads this
    {
      fallback.cfg == cfg && (redis != null ==> redis.cfg == cfg)
    }

    function State(): Guard
      reads this
    {
      Guard(unavailable, failedAt)
    }

    constructor (cfg: Config, redis: SharedLoginAttempts?)
      requires redis != null ==> redis.cfg == cfg
      ensures Valid() && this.cfg == cfg && this.redis == redis && State() == Guard(redis == null, 0.0)
      ensures fresh(fallback) && fallback.State() == EMPTY_MEMORY
    {
      this.cfg, this.redis := cfg, redis;
      fallback := new InMemoryLoginAttempts(cfg);
      unavailable, failedAt := redis == null, 0.0;
    }

    method IsLocked(id: string, now: real, reply: Reply) returns (locked: bool)
      requires Valid()
      modifies this, fallback
      ensures Valid() && State() == GuardNext(redis != null, old(State()), Check(id, now), reply)
      ensures var asks := redis != null && !(old(unavailable) && now - old(failedAt) < 30.0);
              var local := !asks || reply.Lost?;
              && locked == (if local then LockedInMemory(old(fallback.State()), id, now)
                            else LockedShared(redis.State(), id, now))
              && fallback.State() == (if local then MemoryNext(cfg, old(fallback.State()), Check(id, now))
                                      else old(fallback.State()))
              && State() == if !asks then old(State()) else if reply.Lost? then Guard(true, now) else Guard(false, 0.0)
    {
      if redis == null || Degraded(State(), now) {
        locked := fallback.IsLocked(id, now);
        return;
      }
      if reply.Lost? {
        unavailable, failedAt := true, now;
        locked := fallback.IsLocked(id, now);
        return;
      }
      locked := redis.HasLock(id, now);
      unavailable, failedAt := false, 0.0;
    }

    method RecordFailure(id: string, now: real, reply: Reply)
      requires Valid()
      modifies this, fallback, redis
      ensures Valid() && State() == GuardNext(redis != null, old(State()), Failure(id, now), reply)
      ensures var asks := redis != null && !(old(unavailable) && now - old(failedAt) < 30.0);
              && State() == (if !asks then old(State())
                             else if reply.Lost? then Guard(true, now) else Guard(false, 0.0))
              && fallback.State() == (if !asks || reply.Lost?
                                      then MemoryNext(cfg, old(fallback.State()), Failure(id, now))
                                      else old(fallback.State()))
              && (redis != null ==>
                    redis.State() == if asks && (reply.Answered? || reply.ran)
                                     then SharedNext(cfg, old(redis.State()), Failure(id, now))
                                     else old(redis.State()))
    {
      if redis == null || Degraded(State(), now) {
        fallback.RecordFailure(id, now);
        return;
      }
      if reply.Answered? || reply.ran {
        var unlocked := redis.RecordFailure(id, now);
      }
      if reply.Lost? {
        unavailable, failedAt := true, now;
        fallback.RecordFailure(id, now);
        return;
      }
      unavailable, failedAt := false, 0.0;
    }

    /** A right password: the shared store is asked to forget it even during the cooldown. */
    method ClearFailures(id: string, now: real, reply: Reply)
      requires Valid()
      modifies this, fallback, redis
      ensures Valid() && State() == GuardNext(redis != null, old(State()), Clear(id, now), reply)
      ensures redis != null ==> State() == if reply.Lost? then Guard(true, now) else Guard(false, 0.0)
      ensures fallback.State() == MemoryNext(cfg, old(fallback.State()), Clear(id, now))
      ensures redis != null ==>
                redis.State() == if reply.Answered? || reply.ran
                                 then SharedNext(cfg, old(redis.State()), Clear(id, now)) else old(redis.State())
    {
      if redis != null {
        if reply.Answered? || reply.ran {
          redis.Delete(id, now);
        }
        if reply.Answered? {
          unavailable, failedAt := false, 0.0;
        } else {
          unavailable, failedAt := true, now;
        }
      }
      fallback.ClearFailures(id, now);
    }
  }

  // ---------------------------------------------------------------- one window of one store

  /** Everything happens from `start` on and before a lock of that instant would end; nobody clears `id`. */
  ghost predicate InWindow(cfg: Config, w: seq<Event>, id: string, start: real) {
    forall e :: e in w ==> start <= e.at < start + cfg.lockSeconds && !(e.Clear? && e.id == id)
  }

  function Failures(w: seq<Event>, id: string): nat {
    if w == [] then 0
    else Failures(w[..|w| - 1], id) + if w[|w| - 1].Failure? && w[|w| - 1].id == id then 1 else 0
  }

  /** The store has counted or locked: all `n` failures of the window show, to the window's end. */
  predicate Shows(failures: map<string, Count>, locks: map<string, real>, id: string, n: nat, end: real) {
    || n == 0
    || (id in locks && locks[id] >= end)
    || (id in failures && failures[id].failures >= n && failures[id].expiry >= end)
  }

  predicate Bounded(cfg: Config, failures: map<string, Count>) {
    forall id :: id in failures ==> 0 <= failures[id].failures < cfg.maxFailures
  }

  lemma {:induction false} MemoryShows(cfg: Config, h: seq<Event>, w: seq<Event>, id: string, start: real)
    requires InWindow(cfg, w, id, start)
    ensures var m := MemoryAfter(cfg, h + w);
            Bounded(cfg, m.failures) && Shows(m.failures, m.locks, id, Failures(w, id), start + cfg.lockSeconds)
    decreases |w|
  {
    CountsStayOpen(cfg, h + w);
    if w != [] {
      var (before, e) := (w[..|w| - 1], w[|w| - 1]);
      assert (h + w)[..|h + w| - 1] == h + before && (h + w)[|h + w| - 1] == e && e in w;
      assert InWindow(cfg, before, id, start);
      MemoryShows(cfg, h, before, id, start);
    }
  }

  lemma {:induction false} SharedStaysOpen(cfg: Config, h: seq<Event>)
    ensures Bounded(cfg, SharedAfter(cfg, h).failures)
  {
    if h != [] {
      SharedStaysOpen(cfg, h[..|h| - 1]);
    }
  }

  lemma {:induction false} SharedShows(cfg: Config, h: seq<Event>, w: seq<Event>, id: string, start: real)
    requires InWindow(cfg, w, id, start)
    ensures var r := SharedAfter(cfg, h + w);
            Bounded(cfg, r.failures) && Shows(r.failures, r.locks, id, Failures(w, id), start + cfg.lockSeconds)
    decreases |w|
  {
    SharedStaysOpen(cfg, h + w);
    if w != [] {
      var (before, e) := (w[..|w| - 1], w[|w| - 1]);
      assert (h + w)[..|h + w| - 1] == h + before && (h + w)[|h + w| - 1] == e && e in w;
      assert InWindow(cfg, before, id, start);
      SharedShows(cfg, h, before, id, start);
    }
  }

  // ---------------------------------------------------------------- all stores

  /** An event that reached a store: the shared one is number 0, process `p` keeps number `p + 1`. */
  datatype Placed = Placed(store: nat, event: Event)

  function View(g: seq<Placed>, store: nat): seq<Event> {
    if g == [] then []
    else View(g[..|g| - 1], store) + if g[|g| - 1].store == store then [g[|g| - 1].event] else []
  }

  /** Store `store` has `id` locked after `g`. */
  predicate LockedAt(cfg: Config, g: seq<Placed>, store: nat, id: string, now: real) {
    if store == 0 then LockedShared(SharedAfter(cfg, View(g, 0)), id, now)
    else LockedInMemory(MemoryAfter(cfg, View(g, store)), id, now)
  }

  ghost predicate PlacedInWindow(cfg: Config, g: seq<Placed>, id: string, start: real) {
    forall p :: p in g ==>
      start <= p.event.at < start + cfg.lockSeconds && !(p.event.Clear? && p.event.id == id)
  }

  function Counts(p: Placed, id: string): nat {
    if p.event.Failure? && p.event.id == id then 1 else 0
  }

  function PlacedFailures(g: seq<Placed>, id: string): nat {
    if g == [] then 0
    else PlacedFailures(g[..|g| - 1], id) + Counts(g[|g| - 1], id)
  }

  lemma {:induction false} ViewConcat(a: seq<Placed>, b: seq<Placed>, store: nat)
    ensures View(a + b, store) == View(a, store) + View(b, store)
    decreases |b|
  {
    if b == [] {
      assert a + b == a && View(b, store) == [];
    } else {
      var n := |b| - 1;
      ViewConcat(a, b[..n], store);
      assert (a + b)[..|a + b| - 1] == a + b[..n] && (a + b)[|a + b| - 1] == b[n];
      var last := if b[n].store == store then [b[n].event] else [];
      assert (View(a, store) + View(b[..n], store)) + last == View(a, store) + (View(b[..n], store) + last);
    }
  }

  lemma {:induction false} ViewInWindow(cfg: Config, g: seq<Placed>, store: nat, id: string, start: real)
    requires PlacedInWindow(cfg, g, id, start)
    ensures InWindow(cfg, View(g, store), id, start)
  {
    if g != [] {
      assert g[|g| - 1] in g;
      ViewInWindow(cfg, g[..|g| - 1], store, id, start);
    }
  }

  /** A store that saw as many failures as lock within one window is locked at its end. */
  lemma EnoughFailuresLock(cfg: Config, g: seq<Placed>, w: seq<Placed>, store: nat, id: string, start: real, now: real)
    requires PlacedInWindow(cfg, w, id, start) && now < start + cfg.lockSeconds
    requires Failures(View(w, store), id) >= cfg.maxFailures && Failures(View(w, store), id) > 0
    ensures LockedAt(cfg, g + w, store, id, now)
  {
    ViewConcat(g, w, store);
    ViewInWindow(cfg, w, store, id, start);
    if store == 0 {
      SharedShows(cfg, View(g, 0), View(w, 0), id, start);
    } else {
      MemoryShows(cfg, View(g, store), View(w, store), id, start);
    }
  }

  /** The failures that reached the first `n` stores. */
  function UpTo(g: seq<Placed>, id: string, n: nat): nat {
    if n == 0 then 0 else UpTo(g, id, n - 1) + Failures(View(g, n - 1), id)
  }

  lemma ViewSnoc(g: seq<Placed>, p: Placed, id: string, store: nat)
    ensures Failures(View(g + [p], store), id)
            == Failures(View(g, store), id) + if p.store == store then Counts(p, id) else 0
  {
    assert (g + [p])[..|g|] == g && (g + [p])[|g|] == p;
    var (before, after) := (View(g, store), View(g + [p], store));
    if p.store == store {
      assert after == before + [p.event] && after[..|before|] == before;
    } else {
      assert after == before;
    }
  }

  lemma {:induction false} UpToSnoc(g: seq<Placed>, p: Placed, id: string, n: nat)
    ensures UpTo(g + [p], id, n) == UpTo(g, id, n) + if p.store < n then Counts(p, id) else 0
    decreases n
  {
    if n != 0 {
      UpToSnoc(g, p, id, n - 1);
      ViewSnoc(g, p, id, n - 1);
    }
  }

  /** Every failure reached one of the stores. */
  lemma {:induction false} FailuresAddUp(g: seq<Placed>, id: string, n: nat)
    requires forall p :: p in g ==> p.store < n
    ensures UpTo(g, id, n) == PlacedFailures(g, id)
    decreases |g|
  {
    if g == [] {
      NothingUpTo(id, n);
    } else {
      var (before, p) := (g[..|g| - 1], g[|g| - 1]);
      assert g == before + [p] && p in g;
      FailuresAddUp(before, id, n);
      UpToSnoc(before, p, id, n);
    }
  }

  lemma {:induction false} NothingUpTo(id: string, n: nat)
    ensures UpTo([], id, n) == 0
  {
    if n != 0 {
      NothingUpTo(id, n - 1);
    }
  }

  /** More than `n * k` failures among `n` stores leave more than `k` in one of them. */
  lemma {:induction false} SomeStoreHasMore(g: seq<Placed>, id: string, n: nat, k: nat) returns (store: nat)
    requires UpTo(g, id, n) > n * k
    ensures store < n && Failures(View(g, store), id) > k
    decreases n
  {
    if Failures(View(g, n - 1), id) > k {
      store := n - 1;
    } else {
      assert n * k == (n - 1) * k + k;
      store := SomeStoreHasMore(g, id, n - 1, k);
    }
  }

  /**
   * However the failures of one identifier within one lock window are spread over `n` stores, by
   * overlapping calls or by any other way of choosing: without a clear, more than
   * n * (maxFailures - 1) of them leave it locked in some store until the window ends.
   */
  lemma SpreadFailuresLock(
      cfg: Config, before: seq<Placed>, w: seq<Placed>, n: nat, id: string, start: real, now: real)
    returns (store: nat)
    requires PlacedInWindow(cfg, w, id, start) && now < start + cfg.lockSeconds && cfg.maxFailures >= 1
    requires (forall p :: p in w ==> p.store < n) && PlacedFailures(w, id) > n * (cfg.maxFailures - 1)
    ensures store < n && LockedAt(cfg, before + w, store, id, now)
  {
    FailuresAddUp(w, id, n);
    store := SomeStoreHasMore(w, id, n, cfg.maxFailures - 1);
    EnoughFailuresLock(cfg, before, w, store, id, start, now);
  }

  // ---------------------------------------------------------------- several processes

  /** A call on one process, and what became of its Redis command if it sent one. */
  datatype Call = Call(process: nat, event: Event, reply: Reply)

  /** Where the event of a call goes, the shared store first. */
  function Places(configured: bool, g: Guard, c: Call): seq<Placed> {
    (if ReachesShared(configured, g, c.event, c.reply) then [Placed(0, c.event)] else [])
    + (if ReachesMemory(configured, g, c.event, c.reply) then [Placed(c.process + 1, c.event)] else [])
  }

  /** All that the stores see of some calls. */
  function Log(configured: bool, guards: seq<Guard>, calls: seq<Call>): seq<Placed>
    requires forall c :: c in calls ==> c.process < |guards|
    decreases calls
  {
    if calls == [] then [] else
    var c := calls[0];
    var g := guards[c.process];
    Places(configured, g, c)
    + Log(configured, guards[c.process := GuardNext(configured, g, c.event, c.reply)], calls[1..])
  }

  function CalledFailures(calls: seq<Call>, id: string): nat
    decreases calls
  {
    if calls == [] then 0
    else (if calls[0].event.Failure? && calls[0].event.id == id then 1 else 0) + CalledFailures(calls[1..], id)
  }

  ghost predicate CallsInWindow(cfg: Config, calls: seq<Call>, id: string, start: real) {
    forall c :: c in calls ==>
      start <= c.event.at < start + cfg.lockSeconds && !(c.event.Clear? && c.event.id == id)
  }

  lemma {:induction false} PlacedFailuresConcat(a: seq<Placed>, b: seq<Placed>, id: string)
    ensures PlacedFailures(a + b, id) == PlacedFailures(a, id) + PlacedFailures(b, id)
    decreases |b|
  {
    if b == [] {
      assert a + b == a;
    } else {
      var n := |b| - 1;
      PlacedFailuresConcat(a, b[..n], id);
      assert (a + b)[..|a + b| - 1] == a + b[..n] && (a + b)[|a + b| - 1] == b[n];
    }
  }

  /** No failure is lost, whatever Redis does: each call reaches at least one store. */
  lemma CallIsPlaced(configured: bool, g: Guard, c: Call, id: string)
    ensures var places := Places(configured, g, c);
            && places != [] && (forall p :: p in places ==> p.event == c.event && p.store <= c.process + 1)
            && PlacedFailures(places, id) >= CalledFailures([c], id)
  {
    var places := Places(configured, g, c);
    var before := places[..|places| - 1];
    assert places[|places| - 1].event == c.event && PlacedFailures(before, id) >= 0;
    assert [c][1..] == [];
  }

  lemma {:induction false} LogIsInWindow(
      cfg: Config, configured: bool, guards: seq<Guard>, calls: seq<Call>, id: string, start: real)
    requires (forall c :: c in calls ==> c.process < |guards|) && CallsInWindow(cfg, calls, id, start)
    ensures var log := Log(configured, guards, calls);
            && PlacedInWindow(cfg, log, id, start) && (forall p :: p in log ==> p.store < |guards| + 1)
            && PlacedFailures(log, id) >= CalledFailures(calls, id)
    decreases calls
  {
    if calls != [] {
      var c := calls[0];
      var g := guards[c.process];
      var guards' := guards[c.process := GuardNext(configured, g, c.event, c.reply)];
      assert c in calls && forall x :: x in calls[1..] ==> x in calls;
      LogIsInWindow(cfg, configured, guards', calls[1..], id, start);
      CallIsPlaced(configured, g, c, id);
      assert [c][1..] == [];
      PlacedFailuresConcat(Places(configured, g, c), Log(configured, guards', calls[1..]), id);
    }
  }

  /**
   * Whatever `n` processes make of the shared store, answering, lost or still in a cooldown, and
   * whatever the stores saw `before`: more than (n + 1) * (maxFailures - 1) failures of one
   * identifier within one lock window and without a right password leave it locked in some store,
   * for as long as the window lasts.
   */
  lemma SomeStoreLocks(cfg: Config, configured: bool, before: seq<Placed>, guards: seq<Guard>, calls: seq<Call>,
                       id: string, start: real, now: real) returns (store: nat)
    requires forall c :: c in calls ==> c.process < |guards|
    requires CallsInWindow(cfg, calls, id, start) && now < start + cfg.lockSeconds && cfg.maxFailures >= 1
    requires CalledFailures(calls, id) > (|guards| + 1) * (cfg.maxFailures - 1)
    ensures store <= |guards| && LockedAt(cfg, before + Log(configured, guards, calls), store, id, now)
  {
    var log := Log(configured, guards, calls);
    LogIsInWindow(cfg, configured, guards, calls, id, start);
    store := SpreadFailuresLock(cfg, before, log, |guards| + 1, id, start, now);
  }

  // ---------------------------------------------------------------- back to the shared store

  /** What a process learned from a command it sent. */
  datatype Outcome = Reached | Missed(at: real)

  /** The latest outcome process `p` has had; a call that asked nothing had none. */
  function LatestOutcome(configured: bool, calls: seq<Call>, p: nat): Option<Outcome>
    decreases |calls|, 0
  {
    if calls == [] then None else
    var (before, c) := (calls[..|calls| - 1], calls[|calls| - 1]);
    if c.process == p && AsksShared(configured, before, p, c.event)
    then Some(if c.reply.Answered? then Reached else Missed(c.event.at))
    else LatestOutcome(configured, before, p)
  }

  /** A process asks the shared store unless its latest command was lost less than 30 s ago; a clear always asks. */
  predicate AsksShared(configured: bool, before: seq<Call>, p: nat, e: Event)
    decreases |before|, 1
  {
    configured && (e.Clear? || match LatestOutcome(configured, before, p)
                               case Some(Missed(at)) => e.at - at >= 30.0
                               case _ => true)
  }

  /** What process `p` remembers after some calls. */
  function GuardAfter(configured: bool, calls: seq<Call>, p: nat): Guard {
    if calls == [] then Guard(!configured, 0.0) else
    var (before, c) := (calls[..|calls| - 1], calls[|calls| - 1]);
    if c.process == p then GuardNext(configured, GuardAfter(configured, before, p), c.event, c.reply)
    else GuardAfter(configured, before, p)
  }

  lemma {:induction false} GuardTellsOutcome(configured: bool, calls: seq<Call>, p: nat)
    ensures var (g, latest) := (GuardAfter(configured, calls, p), LatestOutcome(configured, calls, p));
            configured ==> g == match latest case Some(Missed(at)) => Guard(true, at) case _ => Guard(false, 0.0)
    decreases |calls|
  {
    if calls != [] {
      GuardTellsOutcome(configured, calls[..|calls| - 1], p);
    }
  }

  /**
   * Exactly when a process asks the shared store: if it has one, and its latest command was answered
   * or lost at least 30 s ago, or none was sent, or the call is a clear.
   */
  lemma AsksIffNotJustLost(configured: bool, calls: seq<Call>, p: nat, e: Event)
    ensures Sends(configured, GuardAfter(configured, calls, p), e) <==>
            configured && (e.Clear? || match LatestOutcome(configured, calls, p)
                                       case Some(Missed(at)) => e.at - at >= 30.0
                                       case _ => true)
  {
    GuardTellsOutcome(configured, calls, p);
  }

  /** The guards of `n` processes that have just started. */
  function FreshGuards(configured: bool, n: nat): seq<Guard> {
    seq(n, _ => Guard(!configured, 0.0))
  }

  function GuardsAfter(configured: bool, guards: seq<Guard>, calls: seq<Call>): (after: seq<Guard>)
    requires forall c :: c in calls ==> c.process < |guards|
    ensures |after| == |guards|
    decreases calls
  {
    if calls == [] then guards else
    var c := calls[0];
    GuardsAfter(configured, guards[c.process := GuardNext(configured, guards[c.process], c.event, c.reply)], calls[1..])
  }

  lemma {:induction false} GuardsSnoc(configured: bool, guards: seq<Guard>, calls: seq<Call>, c: Call)
    requires forall x :: x in calls + [c] ==> x.process < |guards|
    ensures c in calls + [c] && forall x :: x in calls ==> x in calls + [c]
    ensures var before := GuardsAfter(configured, guards, calls);
            GuardsAfter(configured, guards, calls + [c])
            == before[c.process := GuardNext(configured, before[c.process], c.event, c.reply)]
    decreases calls
  {
    assert forall x :: x in calls ==> x in calls + [c];
    assert c in calls + [c];
    if calls == [] {
      assert [] + [c] == [c] && [c][1..] == [];
    } else {
      var first := calls[0];
      var next := guards[first.process := GuardNext(configured, guards[first.process], first.event, first.reply)];
      assert (calls + [c])[0] == first && (calls + [c])[1..] == calls[1..] + [c];
      GuardsSnoc(configured, next, calls[1..], c);
    }
  }

  lemma {:induction false} GuardsAreHistories(configured: bool, n: nat, calls: seq<Call>, p: nat)
    requires (forall c :: c in calls ==> c.process < n) && p < n
    ensures GuardsAfter(configured, FreshGuards(configured, n), calls)[p] == GuardAfter(configured, calls, p)
    decreases |calls|
  {
    if calls != [] {
      var (before, c) := (calls[..|calls| - 1], calls[|calls| - 1]);
      assert calls == before + [c] && forall x :: x in before ==> x in calls;
      GuardsAreHistories(configured, n, before, p);
      GuardsSnoc(configured, FreshGuards(configured, n), before, c);
    }
  }

  /** What a process answers when asked about a lock after some calls. */
  predicate Refuses(cfg: Config, configured: bool, guards: seq<Guard>, calls: seq<Call>, p: nat, id: string, now: real,
                    reply: Reply)
    requires (forall c :: c in calls ==> c.process < |guards|) && p < |guards|
  {
    var (g, log) := (GuardsAfter(configured, guards, calls)[p], Log(configured, guards, calls));
    LockedAt(cfg, log, if ReachesMemory(configured, g, Check(id, now), reply) then p + 1 else 0, id, now)
  }

  /**
   * Recovery: from 30 s after the latest loss it has noticed, a process whose question is answered
   * reports the shared store's locks, whichever process set them, and those alone.
   */
  lemma SharedLockIsReported(cfg: Config, n: nat, calls: seq<Call>, p: nat, id: string, now: real)
    requires (forall c :: c in calls ==> c.process < n) && p < n
    requires match LatestOutcome(true, calls, p) case Some(Missed(at)) => now - at >= 30.0 case _ => true
    ensures Refuses(cfg, true, FreshGuards(true, n), calls, p, id, now, Answered)
            <==> LockedAt(cfg, Log(true, FreshGuards(true, n), calls), 0, id, now)
  {
    GuardsAreHistories(true, n, calls, p);
    AsksIffNotJustLost(true, calls, p, Check(id, now));
  }

  /** Within 30 s of a loss, or when its question is lost, it reports its own locks instead. */
  lemma OwnLockIsReported(cfg: Config, n: nat, calls: seq<Call>, p: nat, id: string, now: real, reply: Reply)
    requires (forall c :: c in calls ==> c.process < n) && p < n
    requires reply.Lost? ||
             match LatestOutcome(true, calls, p) case Some(Missed(at)) => now - at < 30.0 case _ => false
    ensures Refuses(cfg, true, FreshGuards(true, n), calls, p, id, now, reply)
            <==> LockedAt(cfg, Log(true, FreshGuards(true, n), calls), p + 1, id, now)
  {
    GuardsAreHistories(true, n, calls, p);
    AsksIffNotJustLost(true, calls, p, Check(id, now));
  }

  /**
   * The bound is met: one process that loses the shared store after `maxFailures - 1` failures
   * takes as many again at the same instant, and neither store has locked.
   */
  method StraddledOutage(cfg: Config, id: string, now: real) returns (s: RedisLoginAttempts)
    requires cfg.maxFailures >= 2 && cfg.lockSeconds > 0.0
    ensures fresh(s) && s.Valid() && s.redis != null
    ensures LiveCount(s.redis.State(), id, now) == MemoryCount(s.fallback.State(), id, now) == cfg.maxFailures - 1
    ensures !LockedShared(s.redis.State(), id, now) && !LockedInMemory(s.fallback.State(), id, now)
  {
    var redis := new SharedLoginAttempts(cfg);
    s := new RedisLoginAttempts(cfg, redis);
    for i := 0 to cfg.maxFailures - 1
      invariant s.Valid() && s.redis == redis && s.cfg == cfg && s.State() == Guard(false, 0.0)
      invariant LiveCount(redis.State(), id, now) == i && id !in redis.locks
      invariant s.fallback.State() == EMPTY_MEMORY
    {
      s.RecordFailure(id, now, Answered);
    }
    for i := 0 to cfg.maxFailures - 1
      invariant s.Valid() && s.redis == redis && s.cfg == cfg
      invariant i == 0 ==> s.State() == Guard(false, 0.0)
      invariant i > 0 ==> s.State() == Guard(true, now)
      invariant LiveCount(redis.State(), id, now) == cfg.maxFailures - 1 && id !in redis.locks
      invariant MemoryCount(s.fallback.State(), id, now) == i && id !in s.fallback.locks
      invariant i == 0 ==> s.fallback.State() == EMPTY_MEMORY
    {
      s.RecordFailure(id, now, Lost(false));
    }
  }
}
