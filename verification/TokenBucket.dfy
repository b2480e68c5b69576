/**
 * The in-process token bucket of `app/rate_limit.py`, and the bucket it stands for.
 *
 * `IdealStep` is the textbook bucket: one level per key, refilled by elapsed time, never
 * forgotten. `MemAcquire` is what the code does: it also drops idle entries now and then.
 * The two are proved to answer every timed call sequence alike, and the textbook bucket is
 * proved to admit at most `capacity + rate * (t - s)` calls in any window `[s, t]`.
 */
module TokenBucket {
  import opened Wrappers

  /** Capacity and refill rate of a bucket; every call names them again. */
  datatype Limit = Limit(capacity: int, rate: real)

  datatype Call = Call(key: string, at: real, limit: Limit)

  /** Each call is no earlier than the one before it, and none precedes `now`. */
  ghost predicate Timed(now: real, calls: seq<Call>)
    decreases calls
  {
    calls != [] ==> now <= calls[0].at && Timed(calls[0].at, calls[1..])
  }

  predicate Enforced(limit: Limit) {
    limit.capacity >= 1 && limit.rate > 0.0
  }

  /** Every key keeps one enforceable limit throughout the run. */
  ghost predicate Fixed(calls: seq<Call>, limits: string -> Limit) {
    forall i :: 0 <= i < |calls| ==> calls[i].limit == limits(calls[i].key) && Enforced(calls[i].limit)
  }

  // ---------------------------------------------------------------- the ideal bucket

  datatype Level = Level(tokens: real, last: real)

  type Ideal = map<string, Level>

  /** Tokens that accrue between `last` and `now`. */
  function Accrued(last: real, now: real, rate: real): (p: real)
    ensures last <= now && rate >= 0.0 ==> p >= 0.0
  {
    (now - last) * rate
  }

  /** A level of `tokens` left at `last`, refilled until `now` and capped. */
  function Refill(limit: Limit, tokens: real, last: real, now: real): real {
    var have := tokens + Accrued(last, now, limit.rate);
    if have <= limit.capacity as real then have else limit.capacity as real
  }

  function Lookup<V>(m: map<string, V>, key: string): Option<V> {
    if key in m then Some(m[key]) else None
  }

  /** Tokens available at `now`; a key never seen holds a full bucket. */
  function Available(limit: Limit, level: Option<Level>, now: real): real {
    match level
    case None => limit.capacity as real
    case Some(lv) => Refill(limit, lv.tokens, lv.last, now)
  }

  function IdealGrants(b: Ideal, c: Call): bool {
    Available(c.limit, Lookup(b, c.key), c.at) >= 1.0
  }

  function IdealNext(b: Ideal, c: Call): Ideal {
    var have := Available(c.limit, Lookup(b, c.key), c.at);
    b[c.key := Level(if have < 1.0 then have else have - 1.0, c.at)]
  }

  function IdealRun(b: Ideal, calls: seq<Call>): (granted: seq<bool>)
    ensures |granted| == |calls|
    decreases calls
  {
    if calls == [] then [] else [IdealGrants(b, calls[0])] + IdealRun(IdealNext(b, calls[0]), calls[1..])
  }

  /** Grants to `key` whose time lies in the window `[s, t]`. */
  function Grants(calls: seq<Call>, granted: seq<bool>, key: string, s: real, t: real): (n: nat)
    requires |granted| == |calls|
  {
    if calls == [] then 0 else
    (if granted[0] && calls[0].key == key && s <= calls[0].at <= t then 1 else 0)
    + Grants(calls[1..], granted[1..], key, s, t)
  }

  ghost predicate Sane(b: Ideal, limits: string -> Limit, now: real) {
    forall k :: k in b ==> 0.0 <= b[k].tokens <= limits(k).capacity as real && b[k].last <= now
  }

  /** How many grants a key can still collect inside `[s, t]`. */
  function Headroom(limit: Limit, level: Option<Level>, s: real, t: real): real {
    if level.None? || level.value.last <= s then Available(limit, level, s) + Accrued(s, t, limit.rate)
    else if level.value.last <= t then level.value.tokens + Accrued(level.value.last, t, limit.rate)
    else 0.0
  }

  /** The most a bucket may admit in the window `[s, t]`: one burst plus the refill. */
  function Budget(limit: Limit, s: real, t: real): real {
    limit.capacity as real + Accrued(s, t, limit.rate)
  }

  lemma AccruedSplits(a: real, b: real, c: real, rate: real)
    ensures Accrued(a, b, rate) + Accrued(b, c, rate) == Accrued(a, c, rate)
  {}

  /** One call spends at most what it takes out of the headroom of its own key. */
  lemma HeadroomPaysForGrant(limit: Limit, level: Option<Level>, x: real, s: real, t: real)
    requires Enforced(limit) && s <= t
    requires level.Some? ==> 0.0 <= level.value.tokens <= limit.capacity as real && level.value.last <= x
    ensures var have := Available(limit, level, x);
            var next := Level(if have < 1.0 then have else have - 1.0, x);
            && 0.0 <= next.tokens <= limit.capacity as real
            && (if have >= 1.0 && s <= x <= t then 1.0 else 0.0) + Headroom(limit, Some(next), s, t)
               <= Headroom(limit, level, s, t)
  {
    var rate := limit.rate;
    AccruedSplits(x, s, t, rate);
    AccruedSplits(s, x, t, rate);
    if level.Some? {
      var last := level.value.last;
      AccruedSplits(last, x, s, rate);
      AccruedSplits(last, s, x, rate);
      AccruedSplits(last, x, t, rate);
    }
  }

  lemma {:induction false} IdealWindow(
      b: Ideal, calls: seq<Call>, limits: string -> Limit, now: real, key: string, s: real, t: real)
    requires Timed(now, calls) && Fixed(calls, limits) && Sane(b, limits, now)
    requires Enforced(limits(key)) && s <= t
    ensures Grants(calls, IdealRun(b, calls), key, s, t) as real <= Headroom(limits(key), Lookup(b, key), s, t)
    decreases calls
  {
    if calls == [] {
      HeadroomPaysForGrant(limits(key), Lookup(b, key), Later(now, t), s, t);
    } else {
      var c := calls[0];
      HeadroomPaysForGrant(c.limit, Lookup(b, c.key), c.at, s, t);
      IdealWindow(IdealNext(b, c), calls[1..], limits, c.at, key, s, t);
      assert IdealRun(b, calls)[1..] == IdealRun(IdealNext(b, c), calls[1..]);
    }
  }

  function Later(now: real, t: real): (x: real)
    ensures x >= now && x > t
  {
    (if now < t then t else now) + 1.0
  }

  /** The admission bound of the ideal bucket, for every key and every window. */
  lemma IdealAdmissionBound(
      calls: seq<Call>, limits: string -> Limit, now: real, key: string, s: real, t: real)
    requires Timed(now, calls) && Fixed(calls, limits) && Enforced(limits(key)) && s <= t
    ensures Grants(calls, IdealRun(map[], calls), key, s, t) as real
            <= Budget(limits(key), s, t)
  {
    IdealWindow(map[], calls, limits, now, key, s, t);
    assert Lookup<Level>(map[], key) == None;
  }

  // ---------------------------------------------------------------- when a call is granted

  /** Grants among the calls `i` to `n - 1` of a key. */
  function GrantsBetween(calls: seq<Call>, granted: seq<bool>, key: string, i: nat, n: nat): nat
    requires i <= n <= |calls| == |granted|
  {
    if i == n then 0
    else GrantsBetween(calls, granted, key, i, n - 1) + (if granted[n - 1] && calls[n - 1].key == key then 1 else 0)
  }

  /** Counted from call `i`, one burst and the refill since then pay for one more grant at call `n`. */
  predicate PaysSince(calls: seq<Call>, granted: seq<bool>, i: nat, n: nat)
    requires i <= n < |calls| == |granted|
  {
    var c := calls[n];
    (GrantsBetween(calls, granted, c.key, i, n) + 1) as real
    <= c.limit.capacity as real + (c.at - calls[i].at) * c.limit.rate
  }

  /** So it is counted from every call of the key so far. */
  ghost predicate Affordable(calls: seq<Call>, granted: seq<bool>, n: nat)
    requires n < |calls| == |granted|
  {
    forall i :: 0 <= i <= n && calls[i].key == calls[n].key ==> PaysSince(calls, granted, i, n)
  }

  /** The ideal bucket after some calls. */
  function IdealAfter(b: Ideal, calls: seq<Call>): Ideal
    decreases calls
  {
    if calls == [] then b else IdealAfter(IdealNext(b, calls[0]), calls[1..])
  }

  lemma {:induction false} IdealRunSnoc(b: Ideal, calls: seq<Call>, c: Call)
    ensures IdealRun(b, calls + [c]) == IdealRun(b, calls) + [IdealGrants(IdealAfter(b, calls), c)]
    ensures IdealAfter(b, calls + [c]) == IdealNext(IdealAfter(b, calls), c)
    decreases calls
  {
    if calls == [] {
      assert [] + [c] == [c] && [c][1..] == [];
      assert IdealRun(IdealNext(b, c), []) == [];
    } else {
      assert (calls + [c])[0] == calls[0] && (calls + [c])[1..] == calls[1..] + [c];
      IdealRunSnoc(IdealNext(b, calls[0]), calls[1..], c);
    }
  }

  lemma {:induction false} IdealRunAt(b: Ideal, calls: seq<Call>, n: nat)
    requires n < |calls|
    ensures IdealRun(b, calls)[n] == IdealGrants(IdealAfter(b, calls[..n]), calls[n])
    ensures IdealAfter(b, calls[..n + 1]) == IdealNext(IdealAfter(b, calls[..n]), calls[n])
    decreases n
  {
    assert calls[..n + 1] == calls[..n] + [calls[n]];
    IdealRunSnoc(b, calls[..n], calls[n]);
    if n != 0 {
      assert calls[..n][1..] == calls[1..][..n - 1];
      IdealRunAt(IdealNext(b, calls[0]), calls[1..], n - 1);
    }
  }

  /** What a key has left if its allowance is counted from call `i` alone. */
  function LeftSince(calls: seq<Call>, granted: seq<bool>, limit: Limit, i: nat, n: nat, now: real): real
    requires i < |calls| && i <= n <= |calls| == |granted|
  {
    limit.capacity as real + Accrued(calls[i].at, now, limit.rate)
    - GrantsBetween(calls, granted, calls[i].key, i, n) as real
  }

  /** The level is the least that any of the key's first `n` calls leaves. */
  ghost predicate IsLeast(
      calls: seq<Call>, granted: seq<bool>, limit: Limit, key: string, level: Option<Level>, n: nat)
    requires n <= |calls| == |granted|
  {
    match level
    case None => forall i :: 0 <= i < n ==> calls[i].key != key
    case Some(lv) =>
      && (forall i :: 0 <= i < n && calls[i].key == key ==>
            lv.tokens <= LeftSince(calls, granted, limit, i, n, lv.last))
      && (exists i :: 0 <= i < n && calls[i].key == key
            && lv.tokens == LeftSince(calls, granted, limit, i, n, lv.last))
  }

  lemma LeftLater(calls: seq<Call>, granted: seq<bool>, limit: Limit, i: nat, n: nat, last: real, now: real)
    requires i < |calls| && i <= n <= |calls| == |granted|
    ensures LeftSince(calls, granted, limit, i, n, now)
            == LeftSince(calls, granted, limit, i, n, last) + Accrued(last, now, limit.rate)
  {
    AccruedSplits(calls[i].at, last, now, limit.rate);
  }

  /** What call `n` finds is the least of what each call of its key so far leaves, itself included. */
  lemma AvailableIsLeast(calls: seq<Call>, granted: seq<bool>, level: Option<Level>, n: nat) returns (least: nat)
    requires n < |calls| == |granted|
    requires IsLeast(calls, granted, calls[n].limit, calls[n].key, level, n)
    ensures var (c, have) := (calls[n], Available(calls[n].limit, level, calls[n].at));
            && (forall i :: 0 <= i <= n && calls[i].key == c.key ==>
                  have <= LeftSince(calls, granted, c.limit, i, n, c.at))
            && least <= n && calls[least].key == c.key && have == LeftSince(calls, granted, c.limit, least, n, c.at)
  {
    var (c, have) := (calls[n], Available(calls[n].limit, level, calls[n].at));
    assert LeftSince(calls, granted, c.limit, n, n, c.at) == c.limit.capacity as real;
    forall i | 0 <= i < n && calls[i].key == c.key
      ensures have <= LeftSince(calls, granted, c.limit, i, n, c.at)
    {
      LeftLater(calls, granted, c.limit, i, n, level.value.last, c.at);
    }
    least := n;
    if have != c.limit.capacity as real {
      var lv := level.value;
      least :| 0 <= least < n && calls[least].key == c.key
        && lv.tokens == LeftSince(calls, granted, c.limit, least, n, lv.last);
      LeftLater(calls, granted, c.limit, least, n, lv.last, c.at);
    }
  }

  lemma LeastStep(calls: seq<Call>, granted: seq<bool>, b: Ideal, limit: Limit, key: string, n: nat)
    requires n < |calls| == |granted| && granted[n] == IdealGrants(b, calls[n])
    requires calls[n].key == key ==> calls[n].limit == limit
    requires IsLeast(calls, granted, limit, key, Lookup(b, key), n)
    ensures IsLeast(calls, granted, limit, key, Lookup(IdealNext(b, calls[n]), key), n + 1)
  {
    var c := calls[n];
    forall i | 0 <= i < n && calls[i].key == key
      ensures GrantsBetween(calls, granted, key, i, n + 1)
              == GrantsBetween(calls, granted, key, i, n) + (if granted[n] && c.key == key then 1 else 0)
    {}
    if c.key == key {
      var least := AvailableIsLeast(calls, granted, Lookup(b, key), n);
      var lv := Lookup(IdealNext(b, c), key).value;
      assert lv.tokens == LeftSince(calls, granted, limit, least, n + 1, lv.last);
    } else if Lookup(b, key).Some? {
      var lv := Lookup(b, key).value;
      var i :| 0 <= i < n && calls[i].key == key && lv.tokens == LeftSince(calls, granted, limit, i, n, lv.last);
      assert lv.tokens == LeftSince(calls, granted, limit, i, n + 1, lv.last);
    }
  }

  lemma {:induction false} LevelIsLeast(calls: seq<Call>, limits: string -> Limit, key: string, n: nat)
    requires Fixed(calls, limits) && n <= |calls|
    ensures IsLeast(calls, IdealRun(map[], calls), limits(key), key, Lookup(IdealAfter(map[], calls[..n]), key), n)
    decreases n
  {
    if n == 0 {
      assert calls[..0] == [] && Lookup<Level>(map[], key) == None;
    } else {
      LevelIsLeast(calls, limits, key, n - 1);
      IdealRunAt(map[], calls, n - 1);
      LeastStep(calls, IdealRun(map[], calls), IdealAfter(map[], calls[..n - 1]), limits(key), key, n - 1);
    }
  }

  /**
   * Exactly when a call is granted: if and only if, counted from any call of its key so far, the
   * grants since and this one stay within one burst and the refill of the time in between.
   */
  lemma GrantedIffAffordable(calls: seq<Call>, limits: string -> Limit, n: nat)
    requires Fixed(calls, limits) && n < |calls|
    ensures IdealRun(map[], calls)[n] <==> Affordable(calls, IdealRun(map[], calls), n)
  {
    var granted := IdealRun(map[], calls);
    var (c, b) := (calls[n], IdealAfter(map[], calls[..n]));
    LevelIsLeast(calls, limits, c.key, n);
    IdealRunAt(map[], calls, n);
    var least := AvailableIsLeast(calls, granted, Lookup(b, c.key), n);
    AffordableIffLeaves(calls, granted, n);
  }

  /** Counted from any call of its key so far, call `n` finds a token. */
  ghost predicate Leaves(calls: seq<Call>, granted: seq<bool>, n: nat)
    requires n < |calls| == |granted|
  {
    forall i :: 0 <= i <= n && calls[i].key == calls[n].key ==>
      LeftSince(calls, granted, calls[n].limit, i, n, calls[n].at) >= 1.0
  }

  lemma AffordableIffLeaves(calls: seq<Call>, granted: seq<bool>, n: nat)
    requires n < |calls| == |granted|
    ensures Affordable(calls, granted, n) <==> Leaves(calls, granted, n)
  {
    forall i | 0 <= i <= n && calls[i].key == calls[n].key
      ensures PaysSince(calls, granted, i, n)
              <==> LeftSince(calls, granted, calls[n].limit, i, n, calls[n].at) >= 1.0
    {
      PaysIfLeft(calls, granted, i, n);
    }
  }

  lemma PaysIfLeft(calls: seq<Call>, granted: seq<bool>, i: nat, n: nat)
    requires i <= n < |calls| == |granted| && calls[i].key == calls[n].key
    ensures PaysSince(calls, granted, i, n)
            <==> LeftSince(calls, granted, calls[n].limit, i, n, calls[n].at) >= 1.0
  {}

  lemma {:induction false} GrantsSplit(calls: seq<Call>, granted: seq<bool>, key: string, i: nat, m: nat, n: nat)
    requires i <= m <= n <= |calls| == |granted|
    ensures GrantsBetween(calls, granted, key, i, n)
            == GrantsBetween(calls, granted, key, i, m) + GrantsBetween(calls, granted, key, m, n)
    decreases n
  {
    if m < n {
      GrantsSplit(calls, granted, key, i, m, n - 1);
    }
  }

  /**
   * Nobody is refused forever: a call is granted once its key's latest grant is long enough ago for
   * one token to have come back, however often it was refused in between.
   */
  lemma WaitedIsGranted(calls: seq<Call>, limits: string -> Limit, now: real, m: nat, n: nat)
    requires Timed(now, calls) && Fixed(calls, limits) && m < n < |calls| && calls[m].key == calls[n].key
    requires GrantsBetween(calls, IdealRun(map[], calls), calls[n].key, m + 1, n) == 0
    requires IdealRun(map[], calls)[m] && calls[n].at - calls[m].at >= 1.0 / calls[n].limit.rate
    ensures IdealRun(map[], calls)[n]
  {
    var (granted, limit) := (IdealRun(map[], calls), calls[n].limit);
    GrantedIffAffordable(calls, limits, m);
    GrantedIffAffordable(calls, limits, n);
    AffordableIffLeaves(calls, granted, m);
    AffordableIffLeaves(calls, granted, n);
    OneCameBack(limit, calls[m].at, calls[n].at);
    forall i | 0 <= i <= n && calls[i].key == calls[n].key
      ensures LeftSince(calls, granted, limit, i, n, calls[n].at) >= 1.0
    {
      if i <= m {
        GrantsSplit(calls, granted, calls[n].key, i, m + 1, n);
        LeftLater(calls, granted, limit, i, n, calls[m].at, calls[n].at);
        assert LeftSince(calls, granted, limit, i, m, calls[m].at) >= 1.0;
      } else {
        GrantsSplit(calls, granted, calls[n].key, m + 1, i, n);
        TimedPair(now, calls, i, n);
      }
    }
  }

  lemma OneCameBack(limit: Limit, last: real, now: real)
    requires Enforced(limit) && now - last >= 1.0 / limit.rate
    ensures Accrued(last, now, limit.rate) >= 1.0
  {
    AccruedSplits(last, last + 1.0 / limit.rate, now, limit.rate);
    assert Accrued(last, last + 1.0 / limit.rate, limit.rate) == 1.0;
  }

  lemma {:induction false} TimedPair(now: real, calls: seq<Call>, i: nat, j: nat)
    requires Timed(now, calls) && i <= j < |calls|
    ensures now <= calls[i].at <= calls[j].at
    decreases calls
  {
    if i != 0 {
      TimedPair(calls[0].at, calls[1..], i - 1, j - 1);
    } else if j != 0 {
      TimedPair(calls[0].at, calls[1..], 0, j - 1);
    }
  }

  // ---------------------------------------------------------------- the in-memory bucket

  const SWEEP_INTERVAL_SECONDS := 60.0

  /** `idle` is None where the code stores an infinite idle time (no refill). */
  datatype Entry = Entry(tokens: real, last: real, idle: Option<real>)

  datatype MemState = MemState(buckets: map<string, Entry>, lastSweep: real)

  const MEM_INIT := MemState(map[], 0.0)

  predicate Expired(e: Entry, now: real) {
    e.idle.Some? && now - e.last > e.idle.value
  }

  function Swept(s: MemState, now: real): MemState {
    if now - s.lastSweep < SWEEP_INTERVAL_SECONDS then s
    else MemState(map k | k in s.buckets && !Expired(s.buckets[k], now) :: s.buckets[k], now)
  }

  function IdleSeconds(limit: Limit): Option<real> {
    if limit.rate > 0.0 then Some(limit.capacity as real / limit.rate) else None
  }

  /** Tokens a call finds: a fresh key is not tested against one, it is always granted. */
  function MemGrants(s: MemState, c: Call): bool {
    var swept := Swept(s, c.at);
    c.key in swept.buckets ==>
      var e := swept.buckets[c.key];
      Refill(c.limit, e.tokens, e.last, c.at) >= 1.0
  }

  function MemNext(s: MemState, c: Call): MemState {
    var swept := Swept(s, c.at);
    var have :=
      if c.key !in swept.buckets then c.limit.capacity as real
      else var e := swept.buckets[c.key];
           Refill(c.limit, e.tokens, e.last, c.at);
    var left := if MemGrants(s, c) then have - 1.0 else have;
    swept.(buckets := swept.buckets[c.key := Entry(left, c.at, IdleSeconds(c.limit))])
  }

  function MemRun(s: MemState, calls: seq<Call>): (granted: seq<bool>)
    ensures |granted| == |calls|
    decreases calls
  {
    if calls == [] then [] else [MemGrants(s, calls[0])] + MemRun(MemNext(s, calls[0]), calls[1..])
  }

  class InMemoryTokenBucket {
    var buckets: map<string, Entry>
    var lastSweep: real

    ghost function State(): MemState
      reads this
    {
      MemState(buckets, lastSweep)
    }

    constructor ()
      ensures State() == MEM_INIT
    {
      buckets := map[];
      lastSweep := 0.0;
    }

    /** Reserve one token; `now` is the monotonic clock's reading. */
    method Acquire(key: string, capacity: int, rate: real, now: real) returns (granted: bool)
      modifies this
      ensures granted == MemGrants(old(State()), Call(key, now, Limit(capacity, rate)))
      ensures State() == MemNext(old(State()), Call(key, now, Limit(capacity, rate)))
    {
      Sweep(now);
      var idle := IdleSeconds(Limit(capacity, rate));
      if key !in buckets {
        buckets := buckets[key := Entry(capacity as real - 1.0, now, idle)];
        return true;
      }
      var entry := buckets[key];
      var tokens := Refill(Limit(capacity, rate), entry.tokens, entry.last, now);
      if tokens < 1.0 {
        buckets := buckets[key := Entry(tokens, now, idle)];
        return false;
      }
      buckets := buckets[key := Entry(tokens - 1.0, now, idle)];
      return true;
    }

    /** At most once per interval, drop every entry idle for longer than its refill window. */
    method Sweep(now: real)
      modifies this
      ensures State() == Swept(old(State()), now)
    {
      if now - lastSweep < SWEEP_INTERVAL_SECONDS {
        return;
      }
      lastSweep := now;
      var pending := buckets.Keys;
      while pending != {}
        invariant pending <= buckets.Keys
        invariant lastSweep == now
        invariant forall k :: k in buckets ==> k in old(buckets) && buckets[k] == old(buckets[k])
        invariant forall k :: k in old(buckets) && k !in pending ==>
                    (k in buckets <==> !Expired(old(buckets[k]), now))
        invariant forall k :: k in pending ==> k in old(buckets)
        decreases pending
      {
        var key :| key in pending;
        pending := pending - {key};
        if Expired(buckets[key], now) {
          buckets := buckets - {key};
        }
      }
    }
  }

  // ---------------------------------------------------------------- forgetting is unobservable

  /** The level has had time to refill, so forgetting it changes nothing. */
  predicate Refilled(limit: Limit, lv: Level, now: real) {
    Accrued(lv.last, now, limit.rate) >= limit.capacity as real
  }

  /** The code's entries agree with the ideal levels, and only refilled levels are missing. */
  ghost predicate MemTracks(s: MemState, b: Ideal, limits: string -> Limit, now: real) {
    && Sane(b, limits, now)
    && (forall k :: k in b ==> Enforced(limits(k)))
    && (forall k :: k in s.buckets ==>
          k in b && s.buckets[k] == Entry(b[k].tokens, b[k].last, IdleSeconds(limits(k))))
    && (forall k :: k in b && k !in s.buckets ==> Refilled(limits(k), b[k], now))
  }

  lemma SweepTracks(s: MemState, b: Ideal, limits: string -> Limit, now: real, at: real)
    requires MemTracks(s, b, limits, now) && now <= at
    ensures MemTracks(Swept(s, at), b, limits, at)
  {
    forall k | k in b && k !in Swept(s, at).buckets
      ensures Refilled(limits(k), b[k], at)
    {
      if k in s.buckets {
        IdleMeansRefilled(limits(k), b[k], at);
      } else {
        AccruedSplits(b[k].last, now, at, limits(k).rate);
      }
    }
  }

  lemma IdleMeansRefilled(limit: Limit, lv: Level, now: real)
    requires Enforced(limit) && now - lv.last >= limit.capacity as real / limit.rate
    ensures Refilled(limit, lv, now)
  {
    AccruedSplits(lv.last, lv.last + limit.capacity as real / limit.rate, now, limit.rate);
  }

  /** One call is answered alike and keeps the tracking. */
  lemma MemStep(s: MemState, b: Ideal, limits: string -> Limit, now: real, c: Call)
    requires MemTracks(s, b, limits, now) && now <= c.at
    requires c.limit == limits(c.key) && Enforced(c.limit)
    ensures MemGrants(s, c) == IdealGrants(b, c)
    ensures MemTracks(MemNext(s, c), IdealNext(b, c), limits, c.at)
  {
    SweepTracks(s, b, limits, now, c.at);
  }

  lemma {:induction false} MemRunIsIdealRun(
      s: MemState, b: Ideal, calls: seq<Call>, limits: string -> Limit, now: real)
    requires MemTracks(s, b, limits, now) && Timed(now, calls) && Fixed(calls, limits)
    ensures MemRun(s, calls) == IdealRun(b, calls)
    decreases calls
  {
    if calls != [] {
      MemStep(s, b, limits, now, calls[0]);
      MemRunIsIdealRun(MemNext(s, calls[0]), IdealNext(b, calls[0]), calls[1..], limits, calls[0].at);
    }
  }

  /** Eviction is unobservable: the in-memory bucket answers as one that never forgets. */
  lemma EvictionUnobservable(calls: seq<Call>, limits: string -> Limit, now: real)
    requires Timed(now, calls) && Fixed(calls, limits)
    ensures MemRun(MEM_INIT, calls) == IdealRun(map[], calls)
  {
    MemRunIsIdealRun(MEM_INIT, map[], calls, limits, now);
  }

  /** The admission bound of the code's in-process bucket. */
  lemma MemAdmissionBound(
      calls: seq<Call>, limits: string -> Limit, now: real, key: string, s: real, t: real)
    requires Timed(now, calls) && Fixed(calls, limits) && Enforced(limits(key)) && s <= t
    ensures Grants(calls, MemRun(MEM_INIT, calls), key, s, t) as real
            <= Budget(limits(key), s, t)
  {
    EvictionUnobservable(calls, limits, now);
    IdealAdmissionBound(calls, limits, now, key, s, t);
  }

  /** The same law for the code's in-process bucket, sweeps included. */
  lemma MemGrantedIffAffordable(calls: seq<Call>, limits: string -> Limit, now: real, n: nat)
    requires Timed(now, calls) && Fixed(calls, limits) && n < |calls|
    ensures MemRun(MEM_INIT, calls)[n] <==> Affordable(calls, MemRun(MEM_INIT, calls), n)
  {
    EvictionUnobservable(calls, limits, now);
    GrantedIffAffordable(calls, limits, n);
  }

  function MemAfter(s: MemState, calls: seq<Call>): MemState
    decreases calls
  {
    if calls == [] then s else MemAfter(MemNext(s, calls[0]), calls[1..])
  }

  /** The last sweep is recent, and no entry has been idle for longer than its refill and one sweep interval. */
  ghost predicate Bounded(s: MemState, limits: string -> Limit, now: real) {
    && s.lastSweep <= now && now - s.lastSweep < 60.0
    && forall k :: k in s.buckets ==>
         && Enforced(limits(k)) && s.buckets[k].idle == Some(limits(k).capacity as real / limits(k).rate)
         && now - s.buckets[k].last < limits(k).capacity as real / limits(k).rate + 60.0
         && s.lastSweep - s.buckets[k].last <= limits(k).capacity as real / limits(k).rate
  }

  lemma {:induction false} StaysBounded(s: MemState, calls: seq<Call>, limits: string -> Limit, now: real)
    requires Bounded(s, limits, now) && Timed(now, calls) && Fixed(calls, limits)
    ensures Bounded(MemAfter(s, calls), limits, if calls == [] then now else calls[|calls| - 1].at)
    decreases calls
  {
    if calls != [] {
      var c := calls[0];
      assert c.limit.capacity as real / c.limit.rate >= 0.0;
      StaysBounded(MemNext(s, c), calls[1..], limits, c.at);
    }
  }

  /** Memory stays bounded: after any call, only keys called within their refill window and a minute are held. */
  lemma IdleKeysAreForgotten(calls: seq<Call>, limits: string -> Limit)
    requires Timed(0.0, calls) && Fixed(calls, limits) && calls != []
    ensures Bounded(MemAfter(MEM_INIT, calls), limits, calls[|calls| - 1].at)
  {
    var c := calls[0];
    assert c.limit.capacity as real / c.limit.rate >= 0.0;
    StaysBounded(MemNext(MEM_INIT, c), calls[1..], limits, c.at);
  }

  /**
   * Why the capacity must reach one: a fresh key is granted without looking at its capacity,
   * so its first call agrees with the ideal bucket exactly when the capacity is at least one.
   */
  lemma FreshKeyAgreesIffCapacity(s: MemState, b: Ideal, c: Call)
    requires c.key !in s.buckets && c.key !in b
    ensures MemGrants(s, c) == IdealGrants(b, c) <==> c.limit.capacity >= 1
  {
    assert c.key !in Swept(s, c.at).buckets;
  }
}
