/**
 * Login failure lockout (`app/auth/login_lockout.py`): the shared store kept in Redis with exact
 * times to live, and the in-memory fallback that counts eagerly and forgets lazily.
 *
 * The two differ inside a sweep interval. The fallback is proved to be at least as strict as the
 * shared store, and each of its locks is proved to be backed by enough close failures.
 */
module LoginLockout {
  import opened Wrappers

  const SWEEP_INTERVAL_SECONDS := 60.0

  datatype Config = Config(maxFailures: int, lockSeconds: real)

  /** `MAX_FAILURES` and `LOCK_SECONDS`. */
  const DEFAULTS := Config(5, 900.0)

  datatype Event = Failure(id: string, at: real) | Clear(id: string, at: real) | Check(id: string, at: real)

  // ---------------------------------------------------------------- the in-memory store

  datatype Count = Count(failures: int, expiry: real)

  datatype Memory = Memory(failures: map<string, Count>, locks: map<string, real>, lastSweep: real)

  const EMPTY_MEMORY := Memory(map[], map[], 0.0)

  function Swept(m: Memory, now: real): Memory {
    if now - m.lastSweep < SWEEP_INTERVAL_SECONDS then m
    else Memory(map id | id in m.failures && m.failures[id].expiry > now :: m.failures[id],
                map id | id in m.locks && m.locks[id] > now :: m.locks[id],
                now)
  }

  predicate LockedInMemory(m: Memory, id: string, now: real) {
    id in m.locks && now < m.locks[id]
  }

  /** The count a failure at `now` brings `id` to. */
  function Counted(m: Memory, id: string, now: real): int {
    var swept := Swept(m, now);
    (if id in swept.failures then swept.failures[id].failures else 0) + 1
  }

  function MemoryNext(cfg: Config, m: Memory, e: Event): Memory {
    match e
    case Check(id, now) =>
      if id in m.locks && m.locks[id] <= now then m.(locks := m.locks - {id}) else m
    case Clear(id, _) => m.(failures := m.failures - {id}, locks := m.locks - {id})
    case Failure(id, now) =>
      var swept := Swept(m, now);
      var count := Counted(m, id, now);
      if count >= cfg.maxFailures
      then swept.(failures := swept.failures - {id}, locks := swept.locks[id := now + cfg.lockSeconds])
      else swept.(failures := swept.failures[id := Count(count, now + cfg.lockSeconds)])
  }

  class InMemoryLoginAttempts {
    const cfg: Config
    var failures: map<string, Count>
    var locks: map<string, real>
    var lastSweep: real

    ghost function State(): Memory
      reads this
    {
      Memory(failures, locks, lastSweep)
    }

    constructor (cfg: Config)
      ensures this.cfg == cfg && State() == EMPTY_MEMORY
    {
      this.cfg := cfg;
      failures, locks, lastSweep := map[], map[], 0.0;
    }

    method IsLocked(id: string, now: real) returns (locked: bool)
      modifies this
      ensures locked == LockedInMemory(old(State()), id, now)
      ensures State() == MemoryNext(cfg, old(State()), Check(id, now))
    {
      if id !in locks {
        return false;
      }
      if locks[id] <= now {
        locks := locks - {id};
        return false;
      }
      return true;
    }

    method RecordFailure(id: string, now: real)
      modifies this
      ensures State() == MemoryNext(cfg, old(State()), Failure(id, now))
    {
      Sweep(now);
      var count := (if id in failures then failures[id].failures else 0) + 1;
      if count >= cfg.maxFailures {
        failures := failures - {id};
        locks := locks[id := now + cfg.lockSeconds];
        return;
      }
      failures := failures[id := Count(count, now + cfg.lockSeconds)];
    }

    method ClearFailures(id: string, now: real)
      modifies this
      ensures State() == MemoryNext(cfg, old(State()), Clear(id, now))
    {
      failures := failures - {id};
      locks := locks - {id};
    }

    /** At most once per interval, drop the counts and locks whose window has passed. */
    method Sweep(now: real)
      modifies this
      ensures State() == Swept(old(State()), now)
    {
      if now - lastSweep < SWEEP_INTERVAL_SECONDS {
        return;
      }
      lastSweep := now;
      var pending := failures.Keys;
      while pending != {}
        invariant pending <= failures.Keys && lastSweep == now && locks == old(locks)
        invariant forall k :: k in failures ==> k in old(failures) && failures[k] == old(failures[k])
        invariant forall k :: k in old(failures) && k !in pending ==>
                    (k in failures <==> old(failures[k]).expiry > now)
        decreases pending
      {
        var key :| key in pending;
        pending := pending - {key};
        if failures[key].expiry <= now {
          failures := failures - {key};
        }
      }
      label counted:
      pending := locks.Keys;
      while pending != {}
        invariant pending <= locks.Keys && lastSweep == now && failures == old@counted(failures)
        invariant forall k :: k in locks ==> k in old(locks) && locks[k] == old(locks[k])
        invariant forall k :: k in old(locks) && k !in pending ==> (k in locks <==> old(locks[k]) > now)
        decreases pending
      {
        var key :| key in pending;
        pending := pending - {key};
        if locks[key] <= now {
          locks := locks - {key};
        }
      }
    }
  }

  // ---------------------------------------------------------------- the shared store

  /** The two Redis keys of each identifier, with the instant each expires. */
  datatype Shared = Shared(failures: map<string, Count>, locks: map<string, real>)

  const EMPTY_SHARED := Shared(map[], map[])

  predicate LockedShared(r: Shared, id: string, now: real) {
    id in r.locks && now < r.locks[id]
  }

  /** The count Redis still holds at `now`; an expired key counts as absent. */
  function LiveCount(r: Shared, id: string, now: real): int {
    if id in r.failures && now < r.failures[id].expiry then r.failures[id].failures else 0
  }

  function SharedNext(cfg: Config, r: Shared, e: Event): Shared {
    match e
    case Check(_, _) => r
    case Clear(id, _) => Shared(r.failures - {id}, r.locks - {id})
    case Failure(id, now) =>
      var count := LiveCount(r, id, now) + 1;
      if count >= cfg.maxFailures then Shared(r.failures - {id}, r.locks[id := now + cfg.lockSeconds])
      else r.(failures := r.failures[id := Count(count, now + cfg.lockSeconds)])
  }

  class SharedLoginAttempts {
    const cfg: Config
    var failures: map<string, Count>
    var locks: map<string, real>

    ghost function State(): Shared
      reads this
    {
      Shared(failures, locks)
    }

    constructor (cfg: Config)
      ensures this.cfg == cfg && State() == EMPTY_SHARED
    {
      this.cfg := cfg;
      failures, locks := map[], map[];
    }

    /** The failure script: INCR, then either DEL and SET the lock or EXPIRE the count. */
    method RecordFailure(id: string, now: real) returns (unlocked: bool)
      modifies this
      ensures State() == SharedNext(cfg, old(State()), Failure(id, now))
      ensures unlocked <==> LiveCount(old(State()), id, now) + 1 < cfg.maxFailures
    {
      var count := 1;
      if id in failures && now < failures[id].expiry {
        count := failures[id].failures + 1;
      }
      if count >= cfg.maxFailures {
        failures := failures - {id};
        locks := locks[id := now + cfg.lockSeconds];
        return false;
      }
      failures := failures[id := Count(count, now + cfg.lockSeconds)];
      return true;
    }

    /** GET of the lock key, which is absent once it has expired. */
    method HasLock(id: string, now: real) returns (locked: bool)
      ensures locked == LockedShared(State(), id, now)
    {
      return id in locks && now < locks[id];
    }

    /** DEL of both keys. */
    method Delete(id: string, now: real)
      modifies this
      ensures State() == SharedNext(cfg, old(State()), Clear(id, now))
    {
      failures, locks := failures - {id}, locks - {id};
    }
  }

  // ---------------------------------------------------------------- one history, both stores

  function MemoryAfter(cfg: Config, h: seq<Event>): Memory {
    if h == [] then EMPTY_MEMORY else MemoryNext(cfg, MemoryAfter(cfg, h[..|h| - 1]), h[|h| - 1])
  }

  function SharedAfter(cfg: Config, h: seq<Event>): Shared {
    if h == [] then EMPTY_SHARED else SharedNext(cfg, SharedAfter(cfg, h[..|h| - 1]), h[|h| - 1])
  }

  /** Times start at zero or later and never decrease. */
  ghost predicate Clocked(h: seq<Event>) {
    && (forall i :: 0 <= i < |h| ==> 0.0 <= h[i].at)
    && (forall i, j :: 0 <= i < j < |h| ==> h[i].at <= h[j].at)
  }

  function Now(h: seq<Event>): real {
    if h == [] then 0.0 else h[|h| - 1].at
  }

  /** A stored count stands for at least one failure and for fewer than lock. */
  ghost predicate CountsOpen(cfg: Config, m: Memory) {
    forall id :: id in m.failures ==> 1 <= m.failures[id].failures < cfg.maxFailures
  }

  lemma {:induction false} CountsStayOpen(cfg: Config, h: seq<Event>)
    ensures CountsOpen(cfg, MemoryAfter(cfg, h))
  {
    if h != [] {
      CountsStayOpen(cfg, h[..|h| - 1]);
    }
  }

  // ---------------------------------------------------------------- when the two stores agree

  /** The count the in-memory store holds of `id` within its window. */
  function MemoryCount(m: Memory, id: string, now: real): int {
    if id in m.failures && now < m.failures[id].expiry then m.failures[id].failures else 0
  }

  /** Same count with the same window, and the same lock in force or none. */
  ghost predicate Agree(m: Memory, r: Shared, id: string, now: real) {
    && MemoryCount(m, id, now) == LiveCount(r, id, now)
    && (MemoryCount(m, id, now) != 0 ==> m.failures[id].expiry == r.failures[id].expiry)
    && LockedInMemory(m, id, now) == LockedShared(r, id, now)
    && (LockedInMemory(m, id, now) ==> m.locks[id] == r.locks[id])
  }

  /** A count whose window has passed, which the next failure would still find. */
  predicate Stale(m: Memory, id: string, now: real) {
    id in m.failures && m.failures[id].expiry <= now && now - m.lastSweep < SWEEP_INTERVAL_SECONDS
  }

  /** Stores that agree stay in agreement while nothing happens: locks end together. */
  lemma AgreementAges(m: Memory, r: Shared, id: string, now: real, at: real)
    requires Agree(m, r, id, now) && now <= at
    ensures Agree(m, r, id, at)
  {}

  /** From agreeing stores a failure is counted alike if and only if no stale count survives. */
  lemma CountedAlikeIff(cfg: Config, m: Memory, r: Shared, id: string, now: real)
    requires Agree(m, r, id, now) && CountsOpen(cfg, m)
    ensures Counted(m, id, now) == LiveCount(r, id, now) + 1 <==> !Stale(m, id, now)
  {}

  lemma OtherEventsAgree(cfg: Config, m: Memory, r: Shared, id: string, e: Event)
    requires Agree(m, r, id, e.at) && !(e.Failure? && e.id == id)
    ensures Agree(MemoryNext(cfg, m, e), SharedNext(cfg, r, e), id, e.at)
  {}

  /** One event ends the agreement if and only if it is a failure that finds a stale count. */
  lemma AgreeStepIff(cfg: Config, m: Memory, r: Shared, id: string, now: real, e: Event)
    requires Agree(m, r, id, now) && CountsOpen(cfg, m) && now <= e.at && cfg.lockSeconds > 0.0
    ensures Agree(MemoryNext(cfg, m, e), SharedNext(cfg, r, e), id, e.at)
            <==> !(e.Failure? && e.id == id && Stale(m, id, e.at))
  {
    AgreementAges(m, r, id, now, e.at);
    if e.Failure? && e.id == id {
      CountedAlikeIff(cfg, m, r, id, e.at);
    } else {
      OtherEventsAgree(cfg, m, r, id, e);
    }
  }

  ghost predicate AgreeAfter(cfg: Config, h: seq<Event>, id: string) {
    Agree(MemoryAfter(cfg, h), SharedAfter(cfg, h), id, Now(h))
  }

  /** Step `i` of a history is a failure of `id` that finds a stale count. */
  predicate FindsStale(cfg: Config, h: seq<Event>, i: nat, id: string)
    requires i < |h|
  {
    h[i].Failure? && h[i].id == id && Stale(MemoryAfter(cfg, h[..i]), id, h[i].at)
  }

  lemma AgreeAtIff(cfg: Config, h: seq<Event>, i: nat, id: string)
    requires Clocked(h) && cfg.lockSeconds > 0.0 && i < |h| && AgreeAfter(cfg, h[..i], id)
    ensures AgreeAfter(cfg, h[..i + 1], id) <==> !FindsStale(cfg, h, i, id)
  {
    assert h[..i + 1][..i] == h[..i] && h[..i + 1][i] == h[i];
    CountsStayOpen(cfg, h[..i]);
    AgreeStepIff(cfg, MemoryAfter(cfg, h[..i]), SharedAfter(cfg, h[..i]), id, Now(h[..i]), h[i]);
  }

  lemma {:induction false} AgreeWhileFresh(cfg: Config, h: seq<Event>, n: nat, id: string)
    requires Clocked(h) && cfg.lockSeconds > 0.0 && n <= |h|
    requires forall i :: 0 <= i < n ==> !FindsStale(cfg, h, i, id)
    ensures AgreeAfter(cfg, h[..n], id)
    decreases n
  {
    if n != 0 {
      AgreeWhileFresh(cfg, h, n - 1, id);
      AgreeAtIff(cfg, h, n - 1, id);
    }
  }

  /**
   * The mirroring, exactly: over any history, logins overlapping or not, the two stores agree on an
   * identifier throughout if and only if no failure of it finds a stale count.
   */
  lemma AgreeThroughoutIff(cfg: Config, h: seq<Event>, id: string)
    requires Clocked(h) && cfg.lockSeconds > 0.0
    ensures (forall n :: 0 <= n <= |h| ==> AgreeAfter(cfg, h[..n], id))
            <==> (forall i :: 0 <= i < |h| ==> !FindsStale(cfg, h, i, id))
  {
    if forall i :: 0 <= i < |h| ==> !FindsStale(cfg, h, i, id) {
      forall n | 0 <= n <= |h| ensures AgreeAfter(cfg, h[..n], id) {
        AgreeWhileFresh(cfg, h, n, id);
      }
    } else {
      var i :| 0 <= i < |h| && FindsStale(cfg, h, i, id);
      if AgreeAfter(cfg, h[..i], id) {
        AgreeAtIff(cfg, h, i, id);
        assert !AgreeAfter(cfg, h[..i + 1], id);
      }
    }
  }

  /** A right password brings the stores back into agreement, whatever happened before: nothing is left to count. */
  lemma ClearRestoresAgreement(cfg: Config, m: Memory, r: Shared, id: string, at: real, later: real)
    requires at <= later
    ensures var (m', r') := (MemoryNext(cfg, m, Clear(id, at)), SharedNext(cfg, r, Clear(id, at)));
            && Agree(m', r', id, at) && !LockedInMemory(m', id, later)
            && Counted(m', id, later) == LiveCount(r', id, later) + 1 == 1
  {
    assert !Stale(MemoryNext(cfg, m, Clear(id, at)), id, later);
  }

  // ---------------------------------------------------------------- when the fallback is at least as strict

  /** The in-memory lock outlasts the shared one. */
  ghost predicate Outlasts(m: Memory, r: Shared, id: string, now: real) {
    LockedShared(r, id, now) ==> id in m.locks && r.locks[id] <= m.locks[id]
  }

  /** In other words: from now on, whenever the shared store refuses, the in-memory store does. */
  lemma OutlastsMeans(m: Memory, r: Shared, id: string, now: real)
    ensures Outlasts(m, r, id, now) <==>
            forall at :: now <= at && LockedShared(r, id, at) ==> LockedInMemory(m, id, at)
  {
    if LockedShared(r, id, now) && !Outlasts(m, r, id, now) {
      var at := if id in m.locks && m.locks[id] > now then m.locks[id] else now;
      assert LockedShared(r, id, at) && !LockedInMemory(m, id, at);
    }
  }

  /** The failure brings the shared count to the threshold and leaves the in-memory lock behind. */
  predicate LocksSharedAlone(cfg: Config, m: Memory, r: Shared, e: Event) {
    && e.Failure? && LiveCount(r, e.id, e.at) + 1 >= cfg.maxFailures
    && Counted(m, e.id, e.at) < cfg.maxFailures
    && !(e.id in m.locks && m.locks[e.id] >= e.at + cfg.lockSeconds)
  }

  /** One event leaves the shared lock outlasting the in-memory one if and only if it locks the shared store alone. */
  lemma OutlastsStepIff(cfg: Config, m: Memory, r: Shared, id: string, now: real, e: Event)
    requires Outlasts(m, r, id, now) && now <= e.at && cfg.lockSeconds > 0.0
    requires id in r.locks ==> r.locks[id] <= now + cfg.lockSeconds
    ensures Outlasts(MemoryNext(cfg, m, e), SharedNext(cfg, r, e), id, e.at)
            <==> !(e.id == id && LocksSharedAlone(cfg, m, r, e))
  {}

  lemma {:induction false} SharedLocksAreBounded(cfg: Config, h: seq<Event>, id: string)
    requires Clocked(h)
    ensures var r := SharedAfter(cfg, h); id in r.locks ==> r.locks[id] <= Now(h) + cfg.lockSeconds
  {
    if h != [] {
      SharedLocksAreBounded(cfg, h[..|h| - 1], id);
    }
  }

  ghost predicate OutlastsAfter(cfg: Config, h: seq<Event>, id: string) {
    Outlasts(MemoryAfter(cfg, h), SharedAfter(cfg, h), id, Now(h))
  }

  predicate SharedAloneAt(cfg: Config, h: seq<Event>, i: nat, id: string)
    requires i < |h|
  {
    h[i].id == id && LocksSharedAlone(cfg, MemoryAfter(cfg, h[..i]), SharedAfter(cfg, h[..i]), h[i])
  }

  lemma OutlastsAtIff(cfg: Config, h: seq<Event>, i: nat, id: string)
    requires Clocked(h) && cfg.lockSeconds > 0.0 && i < |h| && OutlastsAfter(cfg, h[..i], id)
    ensures OutlastsAfter(cfg, h[..i + 1], id) <==> !SharedAloneAt(cfg, h, i, id)
  {
    assert h[..i + 1][..i] == h[..i] && h[..i + 1][i] == h[i];
    SharedLocksAreBounded(cfg, h[..i], id);
    OutlastsStepIff(cfg, MemoryAfter(cfg, h[..i]), SharedAfter(cfg, h[..i]), id, Now(h[..i]), h[i]);
  }

  lemma {:induction false} OutlastsWhileNoneAlone(cfg: Config, h: seq<Event>, n: nat, id: string)
    requires Clocked(h) && cfg.lockSeconds > 0.0 && n <= |h|
    requires forall i :: 0 <= i < n ==> !SharedAloneAt(cfg, h, i, id)
    ensures OutlastsAfter(cfg, h[..n], id)
    decreases n
  {
    if n != 0 {
      OutlastsWhileNoneAlone(cfg, h, n - 1, id);
      OutlastsAtIff(cfg, h, n - 1, id);
    }
  }

  /**
   * Strictness, exactly: over any history, whoever the shared store refuses the in-memory store
   * refuses too, at all times, if and only if no failure locks the shared store alone.
   */
  lemma StrictThroughoutIff(cfg: Config, h: seq<Event>, id: string)
    requires Clocked(h) && cfg.lockSeconds > 0.0
    ensures (forall n :: 0 <= n <= |h| ==> OutlastsAfter(cfg, h[..n], id))
            <==> (forall i :: 0 <= i < |h| ==> !SharedAloneAt(cfg, h, i, id))
  {
    if forall i :: 0 <= i < |h| ==> !SharedAloneAt(cfg, h, i, id) {
      forall n | 0 <= n <= |h| ensures OutlastsAfter(cfg, h[..n], id) {
        OutlastsWhileNoneAlone(cfg, h, n, id);
      }
    } else {
      var i :| 0 <= i < |h| && SharedAloneAt(cfg, h, i, id);
      if OutlastsAfter(cfg, h[..i], id) {
        OutlastsAtIff(cfg, h, i, id);
        assert !OutlastsAfter(cfg, h[..i + 1], id);
      }
    }
  }

  // ---------------------------------------------------------------- without a failure during a lock

  /** What the shared store still holds of `id`, the in-memory store covers by a count or a lock. */
  ghost predicate Covers(m: Memory, r: Shared, id: string, now: real) {
    && Outlasts(m, r, id, now)
    && (id in r.failures && now < r.failures[id].expiry ==>
          || (id in m.locks && r.failures[id].expiry <= m.locks[id])
          || (id in m.failures && r.failures[id].failures <= m.failures[id].failures
              && r.failures[id].expiry <= m.failures[id].expiry))
    && (id in m.failures ==> m.failures[id].failures >= 0)
  }

  /** The cover is kept by every event but a failure recorded while the in-memory lock is in force. */
  lemma CoverStep(cfg: Config, m: Memory, r: Shared, id: string, now: real, e: Event)
    requires Covers(m, r, id, now) && now <= e.at
    requires e.Failure? && e.id == id ==> !LockedInMemory(m, id, e.at)
    ensures Covers(MemoryNext(cfg, m, e), SharedNext(cfg, r, e), id, e.at)
  {}

  /** No failure of `id` is recorded while the in-memory store has it locked. */
  predicate NoneDuringLock(cfg: Config, h: seq<Event>, id: string) {
    h == [] ||
    var (before, e) := (h[..|h| - 1], h[|h| - 1]);
    && NoneDuringLock(cfg, before, id)
    && (e.Failure? && e.id == id ==> !LockedInMemory(MemoryAfter(cfg, before), id, e.at))
  }

  lemma {:induction false} FallbackAtLeastAsStrict(cfg: Config, h: seq<Event>, id: string)
    requires Clocked(h) && NoneDuringLock(cfg, h, id)
    ensures Covers(MemoryAfter(cfg, h), SharedAfter(cfg, h), id, Now(h)) && OutlastsAfter(cfg, h, id)
    decreases |h|
  {
    if h != [] {
      var before := h[..|h| - 1];
      FallbackAtLeastAsStrict(cfg, before, id);
      CoverStep(cfg, MemoryAfter(cfg, before), SharedAfter(cfg, before), id, Now(before), h[|h| - 1]);
    }
  }

  // ---------------------------------------------------------------- logins that overlap

  /**
   * A login asks whether its identifier is locked; unless refused, it looks the account up and then
   * records a wrong or a right password. Logins of one identifier overlap between the two.
   */
  datatype Login =
    | Ask(client: nat, id: string, at: real)
    | Wrong(client: nat, at: real)
    | Right(client: nat, at: real)
    | Gone(client: nat, at: real)

  /** A login past its question: the identifier, and which step of the history asked. */
  datatype Asked = Asked(id: string, step: nat)

  datatype Door = Door(memory: Memory, shared: Shared, asked: map<nat, Asked>)

  const OPENED := Door(EMPTY_MEMORY, EMPTY_SHARED, map[])

  /** What a login step does to the stores; None for a step that is not enabled. */
  function EventOf(d: Door, l: Login): Option<Event> {
    match l
    case Ask(client, id, at) => if client in d.asked then None else Some(Check(id, at))
    case Wrong(client, at) => if client in d.asked then Some(Failure(d.asked[client].id, at)) else None
    case Right(client, at) => if client in d.asked then Some(Clear(d.asked[client].id, at)) else None
    case Gone(_, _) => None
  }

  /** Step number `step`: the in-memory store decides who is refused; both stores record. */
  function DoorNext(cfg: Config, d: Door, l: Login, step: nat): Door {
    var e := EventOf(d, l);
    var asked :=
      if !l.Ask? then d.asked - {l.client}
      else if l.client in d.asked || LockedInMemory(d.memory, l.id, l.at) then d.asked
      else d.asked[l.client := Asked(l.id, step)];
    if e.None? then d.(asked := asked)
    else Door(MemoryNext(cfg, d.memory, e.value), SharedNext(cfg, d.shared, e.value), asked)
  }

  function DoorAfter(cfg: Config, h: seq<Login>): Door {
    if h == [] then OPENED else DoorNext(cfg, DoorAfter(cfg, h[..|h| - 1]), h[|h| - 1], |h| - 1)
  }

  /** The store events of a history of logins. */
  function Recorded(cfg: Config, h: seq<Login>): seq<Event> {
    if h == [] then [] else
    var before := h[..|h| - 1];
    Recorded(cfg, before) + match EventOf(DoorAfter(cfg, before), h[|h| - 1]) case Some(e) => [e] case None => []
  }

  ghost predicate InOrder(h: seq<Login>) {
    && (forall i :: 0 <= i < |h| ==> 0.0 <= h[i].at)
    && (forall i, j :: 0 <= i < j < |h| ==> h[i].at <= h[j].at)
  }

  lemma {:induction false} DoorRecords(cfg: Config, h: seq<Login>)
    ensures var d := DoorAfter(cfg, h);
            d.memory == MemoryAfter(cfg, Recorded(cfg, h)) && d.shared == SharedAfter(cfg, Recorded(cfg, h))
    decreases |h|
  {
    if h != [] {
      var before := h[..|h| - 1];
      DoorRecords(cfg, before);
      match EventOf(DoorAfter(cfg, before), h[|h| - 1])
      case Some(e) => Appended(cfg, Recorded(cfg, before), e);
      case None => assert Recorded(cfg, before) + [] == Recorded(cfg, before);
    }
  }

  lemma Appended(cfg: Config, h: seq<Event>, e: Event)
    ensures MemoryAfter(cfg, h + [e]) == MemoryNext(cfg, MemoryAfter(cfg, h), e)
    ensures SharedAfter(cfg, h + [e]) == SharedNext(cfg, SharedAfter(cfg, h), e)
  {
    assert (h + [e])[..|h|] == h;
  }

  lemma {:induction false} RecordedClocked(cfg: Config, h: seq<Login>)
    requires InOrder(h)
    ensures Clocked(Recorded(cfg, h)) && (h != [] ==> Now(Recorded(cfg, h)) <= h[|h| - 1].at)
    decreases |h|
  {
    if h != [] {
      var before := h[..|h| - 1];
      RecordedClocked(cfg, before);
      if before != [] {
        assert before[|before| - 1].at <= h[|h| - 1].at;
      }
      match EventOf(DoorAfter(cfg, before), h[|h| - 1])
      case Some(e) => ClockedSnoc(Recorded(cfg, before), e);
      case None => assert Recorded(cfg, before) + [] == Recorded(cfg, before);
    }
  }

  lemma ClockedSnoc(h: seq<Event>, e: Event)
    requires Clocked(h) && 0.0 <= e.at && Now(h) <= e.at
    ensures Clocked(h + [e])
  {}

  /** Step `k` is a wrong password that locks `id` in memory. */
  predicate LocksDoor(cfg: Config, h: seq<Login>, k: nat, id: string)
    requires k < |h|
  {
    var d := DoorAfter(cfg, h[..k]);
    && h[k].Wrong? && EventOf(d, h[k]) == Some(Failure(id, h[k].at))
    && Counted(d.memory, id, h[k].at) >= cfg.maxFailures
  }

  predicate ClearsDoor(cfg: Config, h: seq<Login>, k: nat, id: string)
    requires k < |h|
  {
    EventOf(DoorAfter(cfg, h[..k]), h[k]) == Some(Clear(id, h[k].at))
  }

  /** Step `k` locked `id`, the lock is still in force at `now`, and no right password came since. */
  ghost predicate LockStands(cfg: Config, h: seq<Login>, k: nat, id: string, now: real)
    requires k < |h|
  {
    && LocksDoor(cfg, h, k, id) && now < h[k].at + cfg.lockSeconds
    && forall i :: k < i < |h| ==> !ClearsDoor(cfg, h, i, id)
  }

  lemma StandsBefore(cfg: Config, h: seq<Login>, n: nat, k: nat, id: string, now: real)
    requires k < n <= |h|
    ensures LocksDoor(cfg, h[..n], k, id) == LocksDoor(cfg, h, k, id)
    ensures (forall i :: k < i < n ==> !ClearsDoor(cfg, h[..n], i, id))
            <==> (forall i :: k < i < n ==> !ClearsDoor(cfg, h, i, id))
  {
    assert h[..n][..k] == h[..k];
    forall i | k < i < n ensures ClearsDoor(cfg, h[..n], i, id) == ClearsDoor(cfg, h, i, id) {
      assert h[..n][..i] == h[..i];
    }
  }

  lemma {:induction false} StandingLockIsHeld(cfg: Config, h: seq<Login>, k: nat, id: string, now: real)
    requires InOrder(h) && k < |h| && LockStands(cfg, h, k, id, now) && h[|h| - 1].at <= now
    ensures var m := DoorAfter(cfg, h).memory; id in m.locks && m.locks[id] >= h[k].at + cfg.lockSeconds
    decreases |h|
  {
    var last := |h| - 1;
    if k < last {
      StandsBefore(cfg, h, last, k, id, now);
      StandingLockIsHeld(cfg, h[..last], k, id, now);
      assert !ClearsDoor(cfg, h, last, id);
    }
  }

  lemma {:induction false} HeldLockStands(cfg: Config, h: seq<Login>, id: string, now: real) returns (k: nat)
    requires LockedInMemory(DoorAfter(cfg, h).memory, id, now)
    ensures k < |h| && LockStands(cfg, h, k, id, now)
    decreases |h|
  {
    var last := |h| - 1;
    if LocksDoor(cfg, h, last, id) {
      k := last;
    } else {
      k := HeldLockStands(cfg, h[..last], id, now);
      StandsBefore(cfg, h, last, k, id, now);
      assert !ClearsDoor(cfg, h, last, id);
    }
  }

  lemma {:induction false} AskedWhenOpen(cfg: Config, h: seq<Login>, client: nat)
    requires client in DoorAfter(cfg, h).asked
    ensures var a := DoorAfter(cfg, h).asked[client];
            && a.step < |h| && h[a.step].Ask? && h[a.step].id == a.id
            && !LockedInMemory(DoorAfter(cfg, h[..a.step]).memory, a.id, h[a.step].at)
    decreases |h|
  {
    var last := |h| - 1;
    if !(h[last].Ask? && h[last].client == client && client !in DoorAfter(cfg, h[..last]).asked) {
      AskedWhenOpen(cfg, h[..last], client);
      var a := DoorAfter(cfg, h).asked[client];
      assert h[..last][..a.step] == h[..a.step];
    }
  }

  /**
   * A login that asked first finds the in-memory lock in force when it records if and only if a
   * failure that came between its question and its record set that lock.
   */
  lemma LockedSinceAsked(cfg: Config, h: seq<Login>, client: nat, now: real) returns (k: nat)
    requires InOrder(h) && client in DoorAfter(cfg, h).asked && h[|h| - 1].at <= now
    requires LockedInMemory(DoorAfter(cfg, h).memory, DoorAfter(cfg, h).asked[client].id, now)
    ensures var a := DoorAfter(cfg, h).asked[client]; a.step < k < |h| && LockStands(cfg, h, k, a.id, now)
  {
    var a := DoorAfter(cfg, h).asked[client];
    AskedWhenOpen(cfg, h, client);
    k := HeldLockStands(cfg, h, a.id, now);
    if k < a.step {
      StandsBefore(cfg, h, a.step, k, a.id, now);
      StandingLockIsHeld(cfg, h[..a.step], k, a.id, h[a.step].at);
    }
  }

  lemma LockedSinceAskedIff(cfg: Config, h: seq<Login>, client: nat, now: real)
    requires InOrder(h) && client in DoorAfter(cfg, h).asked && h[|h| - 1].at <= now
    ensures var (d, a) := (DoorAfter(cfg, h), DoorAfter(cfg, h).asked[client]);
            LockedInMemory(d.memory, a.id, now) <==> exists k :: a.step < k < |h| && LockStands(cfg, h, k, a.id, now)
  {
    var a := DoorAfter(cfg, h).asked[client];
    if LockedInMemory(DoorAfter(cfg, h).memory, a.id, now) {
      var k := LockedSinceAsked(cfg, h, client, now);
    } else {
      forall k | a.step < k < |h| ensures !LockStands(cfg, h, k, a.id, now) {
        if LockStands(cfg, h, k, a.id, now) {
          StandingLockIsHeld(cfg, h, k, a.id, now);
        }
      }
    }
  }

  /** The step records a wrong password of `id` across a failure that set the lock in force. */
  ghost predicate CrossesLock(cfg: Config, before: seq<Login>, l: Login, id: string) {
    var asked := DoorAfter(cfg, before).asked;
    && l.Wrong? && l.client in asked && asked[l.client].id == id
    && exists k :: asked[l.client].step < k < |before| && LockStands(cfg, before, k, id, l.at)
  }

  lemma CrossesIffDuringLock(cfg: Config, before: seq<Login>, l: Login, id: string)
    requires InOrder(before) && (before != [] ==> before[|before| - 1].at <= l.at)
    ensures CrossesLock(cfg, before, l, id) <==>
            var d := DoorAfter(cfg, before);
            EventOf(d, l) == Some(Failure(id, l.at)) && LockedInMemory(d.memory, id, l.at)
  {
    if l.Wrong? && l.client in DoorAfter(cfg, before).asked {
      LockedSinceAskedIff(cfg, before, l.client, l.at);
    }
  }

  /** No login of `id` records a wrong password across a failure that set the lock in force. */
  ghost predicate Apart(cfg: Config, h: seq<Login>, id: string)
    decreases |h|
  {
    h == [] || (Apart(cfg, h[..|h| - 1], id) && !CrossesLock(cfg, h[..|h| - 1], h[|h| - 1], id))
  }

  lemma NoneDuringLockSnoc(cfg: Config, h: seq<Event>, e: Event, id: string)
    ensures NoneDuringLock(cfg, h + [e], id) <==>
            && NoneDuringLock(cfg, h, id)
            && (e.Failure? && e.id == id ==> !LockedInMemory(MemoryAfter(cfg, h), id, e.at))
  {
    assert (h + [e])[..|h|] == h;
  }

  /** In terms of what is recorded: no failure reaches the store while it has the identifier locked. */
  lemma {:induction false} ApartIffNoneDuringLock(cfg: Config, h: seq<Login>, id: string)
    requires InOrder(h)
    ensures Apart(cfg, h, id) <==> NoneDuringLock(cfg, Recorded(cfg, h), id)
    decreases |h|
  {
    if h != [] {
      var (before, l) := (h[..|h| - 1], h[|h| - 1]);
      ApartIffNoneDuringLock(cfg, before, id);
      DoorRecords(cfg, before);
      if before != [] {
        assert before[|before| - 1].at <= l.at;
      }
      CrossesIffDuringLock(cfg, before, l, id);
      match EventOf(DoorAfter(cfg, before), l)
      case Some(e) => NoneDuringLockSnoc(cfg, Recorded(cfg, before), e, id);
      case None => assert Recorded(cfg, before) + [] == Recorded(cfg, before);
    }
  }

  /**
   * Logins that do not record across a locking failure leave the in-memory store at least as
   * strict: whoever the shared store would refuse, it refuses.
   */
  lemma LoginsAtLeastAsStrict(cfg: Config, h: seq<Login>, id: string, at: real)
    requires InOrder(h) && Apart(cfg, h, id) && (h != [] ==> h[|h| - 1].at <= at) && 0.0 <= at
    ensures var d := DoorAfter(cfg, h); LockedShared(d.shared, id, at) ==> LockedInMemory(d.memory, id, at)
  {
    DoorRecords(cfg, h);
    RecordedClocked(cfg, h);
    ApartIffNoneDuringLock(cfg, h, id);
    FallbackAtLeastAsStrict(cfg, Recorded(cfg, h), id);
    var d := DoorAfter(cfg, h);
    OutlastsMeans(d.memory, d.shared, id, Now(Recorded(cfg, h)));
  }

  // ---------------------------------------------------------------- overlapping logins let them differ

  /** One login that asks and is wrong at once. */
  function Attempt(client: nat, id: string, at: real): seq<Login> {
    [Ask(client, id, at), Wrong(client, at)]
  }

  lemma AttemptRecords(cfg: Config, h: seq<Login>, client: nat, id: string, at: real)
    requires var d := DoorAfter(cfg, h); client !in d.asked && id !in d.memory.locks
    ensures var (d, e) := (DoorAfter(cfg, h), Failure(id, at));
            DoorAfter(cfg, h + Attempt(client, id, at))
            == Door(MemoryNext(cfg, d.memory, e), SharedNext(cfg, d.shared, e), d.asked)
  {
    var d := DoorAfter(cfg, h);
    var (all, asking) := (h + Attempt(client, id, at), h + [Ask(client, id, at)]);
    assert all[..|h| + 1] == asking && asking[..|h|] == h;
    assert DoorAfter(cfg, asking) == d.(asked := d.asked[client := Asked(id, |h|)]);
    assert d.asked[client := Asked(id, |h|)] - {client} == d.asked;
  }

  /** A failure at 1000, one of another identifier that sweeps at 1899, and a question at 1900.5. */
  function Opening(): seq<Login> {
    Attempt(0, "a", 1000.0) + Attempt(0, "b", 1899.0) + [Ask(1, "a", 1900.5)]
  }

  /** Four failures at 1901, between that question and its answer. */
  function Overlapped(): seq<Login> {
    Opening() + Attempt(0, "a", 1901.0) + Attempt(0, "a", 1901.0) + Attempt(0, "a", 1901.0) + Attempt(0, "a", 1901.0)
  }

  lemma AfterOpening()
    ensures var d := DoorAfter(DEFAULTS, Opening());
            && "a" in d.memory.failures && d.memory.failures["a"] == Count(1, 1900.0)
            && d.memory.locks == map[] && d.memory.lastSweep == 1899.0
            && d.shared.locks == map[] && LiveCount(d.shared, "a", 1901.0) == 0
            && d.asked.Keys == {1} && d.asked[1].id == "a"
  {
    assert [] + Attempt(0, "a", 1000.0) == Attempt(0, "a", 1000.0);
    AttemptRecords(DEFAULTS, [], 0, "a", 1000.0);
    var one := Attempt(0, "a", 1000.0);
    AttemptRecords(DEFAULTS, one, 0, "b", 1899.0);
    var two := one + Attempt(0, "b", 1899.0);
    assert Opening()[..|two|] == two;
  }

  lemma FourAttempts(h: seq<Login>)
    requires var d := DoorAfter(DEFAULTS, h);
             && "a" in d.memory.failures && d.memory.failures["a"] == Count(1, 1900.0)
             && d.memory.locks == map[] && d.memory.lastSweep == 1899.0
             && d.shared.locks == map[] && LiveCount(d.shared, "a", 1901.0) == 0
             && 0 !in d.asked
    ensures var all := h + Attempt(0, "a", 1901.0) + Attempt(0, "a", 1901.0) + Attempt(0, "a", 1901.0)
                       + Attempt(0, "a", 1901.0);
            var (d, e) := (DoorAfter(DEFAULTS, h), DoorAfter(DEFAULTS, all));
            && e.memory.locks == map["a" := 2801.0] && "a" !in e.memory.failures && e.memory.lastSweep == 1899.0
            && e.shared.locks == map[] && "a" in e.shared.failures && e.shared.failures["a"] == Count(4, 2801.0)
            && e.asked == d.asked
  {
    AttemptRecords(DEFAULTS, h, 0, "a", 1901.0);
    var h1 := h + Attempt(0, "a", 1901.0);
    AttemptRecords(DEFAULTS, h1, 0, "a", 1901.0);
    var h2 := h1 + Attempt(0, "a", 1901.0);
    AttemptRecords(DEFAULTS, h2, 0, "a", 1901.0);
    var h3 := h2 + Attempt(0, "a", 1901.0);
    AttemptRecords(DEFAULTS, h3, 0, "a", 1901.0);
  }

  /**
   * Both exact conditions are met by real runs, with every login asking first. The stale count of
   * 1000 locks the in-memory store alone at 1901; the one overlapping login then records at 1902 and
   * leaves the shared store locked at 2801, when the in-memory store no longer is.
   */
  lemma StoresDiffer()
    ensures var early := DoorAfter(DEFAULTS, Overlapped());
            var late := DoorAfter(DEFAULTS, Overlapped() + [Wrong(1, 1902.0)]);
            && LockedInMemory(early.memory, "a", 1901.0) && !LockedShared(early.shared, "a", 1901.0)
            && LockedShared(late.shared, "a", 2801.0) && !LockedInMemory(late.memory, "a", 2801.0)
  {
    AfterOpening();
    FourAttempts(Opening());
    var late := Overlapped() + [Wrong(1, 1902.0)];
    assert late[..|late| - 1] == Overlapped();
  }

  // ---------------------------------------------------------------- every lock is backed by failures

  /** Step `i` of the history is the failure that locks `id`. */
  predicate LocksAt(cfg: Config, h: seq<Event>, i: nat, id: string)
    requires i < |h|
  {
    h[i].Failure? && h[i].id == id && Counted(MemoryAfter(cfg, h[..i]), id, h[i].at) >= cfg.maxFailures
  }

  /** Times of the failures of `id` since it was last cleared or locked. */
  function Recent(cfg: Config, h: seq<Event>, id: string): seq<real> {
    if h == [] then [] else
    var e, before := h[|h| - 1], h[..|h| - 1];
    if e.id != id || e.Check? then Recent(cfg, before, id)
    else if e.Clear? || LocksAt(cfg, h, |h| - 1, id) then []
    else Recent(cfg, before, id) + [e.at]
  }

  /** The last `n` of these failures follow one another within one window plus one sweep interval. */
  ghost predicate Close(cfg: Config, times: seq<real>, n: int) {
    && n <= |times|
    && forall k :: |times| - n < k < |times| && 0 < k ==>
         times[k] - times[k - 1] < cfg.lockSeconds + 60.0
  }

  lemma {:induction false} CountIsBacked(cfg: Config, h: seq<Event>, id: string)
    requires Clocked(h) && cfg.lockSeconds > 0.0
    ensures var m := MemoryAfter(cfg, h);
            && (h == [] ==> m.lastSweep == 0.0) && (h != [] ==> m.lastSweep <= h[|h| - 1].at)
            && (id in m.failures ==>
                  var times := Recent(cfg, h, id);
                  && 1 <= m.failures[id].failures && Close(cfg, times, m.failures[id].failures)
                  && m.failures[id].expiry == times[|times| - 1] + cfg.lockSeconds
                  && m.failures[id].expiry > m.lastSweep)
    decreases |h|, 1
  {
    if h != [] {
      CountIsBacked(cfg, h[..|h| - 1], id);
      if h[|h| - 1].Failure? && h[|h| - 1].id == id {
        StreakIsClose(cfg, h, id);
      }
    }
  }

  /** A failure extends the close streak its count stands for. */
  lemma {:induction false} StreakIsClose(cfg: Config, h: seq<Event>, id: string)
    requires Clocked(h) && cfg.lockSeconds > 0.0 && h != []
    requires h[|h| - 1].Failure? && h[|h| - 1].id == id
    ensures var before, e := h[..|h| - 1], h[|h| - 1];
            Close(cfg, Recent(cfg, before, id) + [e.at], Counted(MemoryAfter(cfg, before), id, e.at))
    decreases |h|, 0
  {
    CountIsBacked(cfg, h[..|h| - 1], id);
  }

  /** A lock in force stems from a failure inside the lock window, with no clear of `id` since. */
  ghost predicate LockedSince(cfg: Config, h: seq<Event>, id: string, i: nat, now: real)
    requires i < |h|
  {
    && LocksAt(cfg, h, i, id) && now < h[i].at + cfg.lockSeconds
    && forall k :: i < k < |h| && h[k].id == id ==> !h[k].Clear?
  }

  lemma {:induction false} LockHasOrigin(cfg: Config, h: seq<Event>, id: string, now: real) returns (i: nat)
    requires LockedInMemory(MemoryAfter(cfg, h), id, now)
    ensures i < |h| && LockedSince(cfg, h, id, i, now)
    decreases h
  {
    var before, last := h[..|h| - 1], |h| - 1;
    if LocksAt(cfg, h, last, id) {
      i := last;
    } else {
      i := LockHasOrigin(cfg, before, id, now);
      assert before[..i] == h[..i];
      assert forall k :: 0 <= k < |before| ==> before[k] == h[k];
    }
  }

  /**
   * Every in-memory lock is backed: it stems from a failure that ended a streak of at least
   * `maxFailures` failures since the last clear or lock, each closely after the one before.
   */
  lemma LockIsBacked(cfg: Config, h: seq<Event>, id: string, now: real) returns (i: nat)
    requires Clocked(h) && cfg.lockSeconds > 0.0 && LockedInMemory(MemoryAfter(cfg, h), id, now)
    ensures i < |h| && LockedSince(cfg, h, id, i, now)
    ensures Close(cfg, Recent(cfg, h[..i], id) + [h[i].at], cfg.maxFailures)
  {
    i := LockHasOrigin(cfg, h, id, now);
    var upTo := h[..i + 1];
    assert upTo[..i] == h[..i];
    StreakIsClose(cfg, upTo, id);
  }
}
