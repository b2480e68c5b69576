/**
 * The shared token bucket of `app/rate_limit.py`: the Lua script run inside Redis.
 *
 * Each bucket lives in two Redis strings, the token count under the key and the refill stamp
 * under `key:ts`. A plain SET drops a key's time to live; EXPIRE gives it one. The script is
 * proved to answer every timed call sequence like the bucket that never forgets, and never to
 * meet a count without its stamp.
 */
module LuaBucket {
  import opened Wrappers
  import opened TokenBucket

  /** One Redis string; `expires` is None for a key without a time to live. */
  datatype Cell = Cell(value: real, expires: Option<real>)

  type Cells = map<string, Cell>

  datatype Reply = Granted | Denied | ScriptError

  function Read(cells: Cells, key: string, now: real): Option<real> {
    if key in cells && (cells[key].expires.None? || now < cells[key].expires.value)
    then Some(cells[key].value) else None
  }

  function StampKey(key: string): string {
    key + ":ts"
  }

  function Ceil(x: real): int {
    -((-x).Floor)
  }

  function Ttl(limit: Limit): int
    requires limit.rate != 0.0
  {
    Ceil(limit.capacity as real / limit.rate) + 1
  }

  /** Tokens the script computes; None when the stamp is missing beside a count. */
  function ScriptTokens(cells: Cells, c: Call): Option<real> {
    match (Read(cells, c.key, c.at), Read(cells, StampKey(c.key), c.at))
    case (None, _) => Some(Refill(c.limit, c.limit.capacity as real, c.at, c.at))
    case (Some(_), None) => None
    case (Some(tokens), Some(last)) => Some(Refill(c.limit, tokens, last, c.at))
  }

  function LuaReply(cells: Cells, c: Call): Reply {
    match ScriptTokens(cells, c)
    case None => ScriptError
    case Some(have) => if have < 1.0 then Denied else Granted
  }

  function LuaNext(cells: Cells, c: Call): Cells
    requires Enforced(c.limit)
  {
    match ScriptTokens(cells, c)
    case None => cells
    case Some(have) =>
      if have < 1.0 then
        cells[c.key := Cell(have, None)][StampKey(c.key) := Cell(c.at, None)]
      else
        var until := Some(c.at + Ttl(c.limit) as real);
        cells[c.key := Cell(have - 1.0, until)][StampKey(c.key) := Cell(c.at, until)]
  }

  function LuaRun(cells: Cells, calls: seq<Call>): (replies: seq<Reply>)
    requires forall i :: 0 <= i < |calls| ==> Enforced(calls[i].limit)
    ensures |replies| == |calls|
    decreases calls
  {
    if calls == [] then [] else [LuaReply(cells, calls[0])] + LuaRun(LuaNext(cells, calls[0]), calls[1..])
  }

  /** The Redis server, as far as the script uses it; `now` is the server's own clock. */
  class RedisServer {
    var cells: Cells

    constructor ()
      ensures cells == map[]
    {
      cells := map[];
    }

    method Get(key: string, now: real) returns (value: Option<real>)
      ensures value == Read(cells, key, now)
    {
      value := Read(cells, key, now);
    }

    /** SET discards any time to live the key had. */
    method Set(key: string, value: real)
      modifies this
      ensures cells == old(cells)[key := Cell(value, None)]
    {
      cells := cells[key := Cell(value, None)];
    }

    method Expire(key: string, ttl: int, now: real)
      requires key in cells
      modifies this
      ensures cells == old(cells)[key := Cell(old(cells[key].value), Some(now + ttl as real))]
    {
      cells := cells[key := cells[key].(expires := Some(now + ttl as real))];
    }

    /** The token-bucket script, atomic inside the server. */
    method Eval(key: string, capacity: int, rate: real, now: real) returns (reply: Reply)
      requires Enforced(Limit(capacity, rate))
      modifies this
      ensures reply == LuaReply(old(cells), Call(key, now, Limit(capacity, rate)))
      ensures cells == LuaNext(old(cells), Call(key, now, Limit(capacity, rate)))
    {
      var tokens := Get(key, now);
      var last := Get(StampKey(key), now);
      if tokens == None {
        tokens, last := Some(capacity as real), Some(now);
      }
      if last == None {
        return ScriptError;
      }
      var left := Refill(Limit(capacity, rate), tokens.value, last.value, now);
      if left < 1.0 {
        Set(key, left);
        Set(StampKey(key), now);
        return Denied;
      }
      left := left - 1.0;
      Set(key, left);
      Set(StampKey(key), now);
      var ttl := Ceil(capacity as real / rate) + 1;
      Expire(key, ttl, now);
      Expire(StampKey(key), ttl, now);
      return Granted;
    }
  }

  // ---------------------------------------------------------------- expiry is unobservable

  /** No bucket's key doubles as another bucket's stamp key. */
  ghost predicate Apart(keys: set<string>) {
    forall a, b :: a in keys && b in keys ==> a != StampKey(b)
  }

  ghost predicate KeysIn(calls: seq<Call>, keys: set<string>) {
    forall i :: 0 <= i < |calls| ==> calls[i].key in keys
  }

  lemma StampKeyInjective(a: string, b: string)
    requires StampKey(a) == StampKey(b)
    ensures a == b
  {
    assert a == StampKey(a)[..|StampKey(a)| - 3];
    assert b == StampKey(b)[..|StampKey(b)| - 3];
  }

  /** Both strings of a bucket hold its ideal level and expire together, after a full refill. */
  ghost predicate CellTracks(cells: Cells, b: Ideal, limit: Limit, key: string)
    requires key in b && Enforced(limit)
  {
    && key in cells && StampKey(key) in cells
    && cells[key].value == b[key].tokens && cells[StampKey(key)].value == b[key].last
    && cells[key].expires == cells[StampKey(key)].expires
    && (cells[key].expires.Some? ==>
          cells[key].expires.value - b[key].last >= limit.capacity as real / limit.rate)
  }

  ghost predicate LuaTracks(cells: Cells, b: Ideal, limits: string -> Limit, keys: set<string>, now: real) {
    && Apart(keys) && Sane(b, limits, now)
    && (forall k :: k in b ==> k in keys && Enforced(limits(k)) && CellTracks(cells, b, limits(k), k))
    && (forall k :: k in keys && k in cells ==> k in b)
  }

  lemma CeilCovers(x: real)
    ensures x <= Ceil(x) as real < x + 1.0
  {}

  /** One script run is answered like the ideal bucket, never fails, and keeps the tracking. */
  lemma LuaStep(cells: Cells, b: Ideal, limits: string -> Limit, keys: set<string>, now: real, c: Call)
    requires LuaTracks(cells, b, limits, keys, now) && now <= c.at
    requires c.key in keys && c.limit == limits(c.key) && Enforced(c.limit)
    ensures LuaReply(cells, c) == if IdealGrants(b, c) then Granted else Denied
    ensures LuaTracks(LuaNext(cells, c), IdealNext(b, c), limits, keys, c.at)
  {
    var have := Available(c.limit, Lookup(b, c.key), c.at);
    if c.key in b && Read(cells, c.key, c.at) == None {
      IdleMeansRefilled(c.limit, b[c.key], c.at);
    }
    assert ScriptTokens(cells, c) == Some(have);
    CeilCovers(c.limit.capacity as real / c.limit.rate);
    var cells', b' := LuaNext(cells, c), IdealNext(b, c);
    forall k | k in b'
      ensures k in keys && Enforced(limits(k)) && CellTracks(cells', b', limits(k), k)
    {
      if k != c.key && StampKey(k) == StampKey(c.key) {
        StampKeyInjective(k, c.key);
      }
    }
  }

  /** The replies of a script that answers as `granted` says. */
  function Replies(granted: seq<bool>): (replies: seq<Reply>)
    ensures |replies| == |granted|
    ensures forall i :: 0 <= i < |granted| ==> replies[i] == if granted[i] then Granted else Denied
  {
    if granted == [] then [] else [if granted[0] then Granted else Denied] + Replies(granted[1..])
  }

  lemma {:induction false} LuaRunIsIdealRun(
      cells: Cells, b: Ideal, calls: seq<Call>, limits: string -> Limit, keys: set<string>, now: real)
    requires LuaTracks(cells, b, limits, keys, now)
    requires Timed(now, calls) && Fixed(calls, limits) && KeysIn(calls, keys)
    ensures LuaRun(cells, calls) == Replies(IdealRun(b, calls))
    decreases calls
  {
    if calls != [] {
      var (next, ideal) := (LuaNext(cells, calls[0]), IdealNext(b, calls[0]));
      LuaStep(cells, b, limits, keys, now, calls[0]);
      LuaRunIsIdealRun(next, ideal, calls[1..], limits, keys, calls[0].at);
      assert IdealRun(b, calls)[1..] == IdealRun(ideal, calls[1..]);
    }
  }

  /** Neither the script's TTL nor the in-memory sweep is observable: the buckets agree. */
  lemma BucketsAgree(calls: seq<Call>, limits: string -> Limit, keys: set<string>, now: real)
    requires Timed(now, calls) && Fixed(calls, limits) && KeysIn(calls, keys) && Apart(keys)
    ensures LuaRun(map[], calls) == Replies(MemRun(MEM_INIT, calls))
    ensures MemRun(MEM_INIT, calls) == IdealRun(map[], calls)
  {
    EvictionUnobservable(calls, limits, now);
    LuaRunIsIdealRun(map[], map[], calls, limits, keys, now);
  }

  /** The yes and no of the script's replies. */
  function Granting(replies: seq<Reply>): (granted: seq<bool>)
    ensures |granted| == |replies| && forall i :: 0 <= i < |replies| ==> granted[i] == (replies[i] == Granted)
  {
    if replies == [] then [] else [replies[0] == Granted] + Granting(replies[1..])
  }

  /** The script grants a call exactly when the key's grants so far leave it a token, and never fails. */
  lemma LuaGrantedIffAffordable(calls: seq<Call>, limits: string -> Limit, keys: set<string>, now: real, n: nat)
    requires Timed(now, calls) && Fixed(calls, limits) && KeysIn(calls, keys) && Apart(keys) && n < |calls|
    ensures var replies := LuaRun(map[], calls);
            && replies[n] != ScriptError
            && (replies[n] == Granted <==> Affordable(calls, Granting(replies), n))
  {
    BucketsAgree(calls, limits, keys, now);
    GrantedIffAffordable(calls, limits, n);
    assert Granting(LuaRun(map[], calls)) == IdealRun(map[], calls);
  }

  /**
   * What a script run leaves in Redis: after a grant both strings live one to two seconds longer
   * than a full refill takes, after a denial they stay.
   */
  lemma ScriptExpiry(cells: Cells, c: Call)
    requires Enforced(c.limit) && LuaReply(cells, c) != ScriptError
    ensures var (left, refill) := (LuaNext(cells, c), c.limit.capacity as real / c.limit.rate);
            && c.key in left && StampKey(c.key) in left
            && left[c.key].expires == left[StampKey(c.key)].expires && left[StampKey(c.key)].value == c.at
            && match left[c.key].expires
               case None => LuaReply(cells, c) == Denied
               case Some(until) => LuaReply(cells, c) == Granted && refill + 1.0 <= until - c.at < refill + 2.0
  {
    assert |c.key| < |StampKey(c.key)|;
    CeilCovers(c.limit.capacity as real / c.limit.rate);
  }

  /** A key that is another's stamp key finds a count without its stamp, and the script fails. */
  lemma CollidingKeysFail(key: string, limits: string -> Limit, at: real)
    requires Enforced(limits(key)) && Enforced(limits(StampKey(key)))
    ensures var calls := [Call(key, at, limits(key)), Call(StampKey(key), at, limits(StampKey(key)))];
            LuaRun(map[], calls) == [Granted, ScriptError] && IdealRun(map[], calls) == [true, true]
  {
    var first, second := Call(key, at, limits(key)), Call(StampKey(key), at, limits(StampKey(key)));
    assert |key| < |StampKey(key)| < |StampKey(StampKey(key))|;
    CeilCovers(first.limit.capacity as real / first.limit.rate);
    var cells := LuaNext(map[], first);
    assert LuaReply(map[], first) == Granted && LuaReply(cells, second) == ScriptError;
    assert [first, second][1..] == [second];
    assert LuaRun(cells, [second]) == [ScriptError];
    assert IdealRun(IdealNext(map[], first), [second]) == [true];
  }

  /** Every call is answered by the script as by the bucket that never forgets. */
  ghost predicate AnswersAlike(calls: seq<Call>)
    requires forall i :: 0 <= i < |calls| ==> Enforced(calls[i].limit)
  {
    LuaRun(map[], calls) == Replies(IdealRun(map[], calls))
  }

  /** The script answers every run over some keys like the ideal bucket exactly when the keys stand apart. */
  lemma AlikeIffApart(keys: set<string>, limits: string -> Limit)
    requires forall k :: k in keys ==> Enforced(limits(k))
    ensures Apart(keys) <==>
            forall calls :: Timed(0.0, calls) && Fixed(calls, limits) && KeysIn(calls, keys) ==> AnswersAlike(calls)
  {
    if Apart(keys) {
      forall calls | Timed(0.0, calls) && Fixed(calls, limits) && KeysIn(calls, keys)
        ensures AnswersAlike(calls)
      {
        BucketsAgree(calls, limits, keys, 0.0);
      }
    } else {
      var a, b :| a in keys && b in keys && a == StampKey(b);
      var first, second := Call(b, 0.0, limits(b)), Call(a, 0.0, limits(a));
      var calls := [first, second];
      CollidingKeysFail(b, limits, 0.0);
      assert calls[1..] == [second] && [second][1..] == [];
      assert Timed(0.0, [second]) && Timed(0.0, calls);
      assert Fixed(calls, limits) && KeysIn(calls, keys);
      assert LuaRun(map[], calls)[1] == ScriptError != Replies(IdealRun(map[], calls))[1];
      assert !AnswersAlike(calls);
    }
  }

  function BucketKey(rule: string, identity: string): string {
    "ratelimit:" + rule + ":" + identity
  }

  predicate EndsAsStamp(identity: string) {
    |identity| >= 3 && identity[|identity| - 3..] == ":ts"
  }

  /** The keys of one run: a rule's name, which has no colon, and the identity of a caller. */
  ghost predicate KeyedBy(keys: set<string>, callers: map<string, (string, string)>) {
    forall k :: k in keys ==>
      k in callers && k == BucketKey(callers[k].0, callers[k].1) && ':' !in callers[k].0
  }

  lemma FirstColon(a: string, x: string)
    requires ':' !in a
    ensures var p := a + ":" + x; p[|a|] == ':' && forall i :: 0 <= i < |a| ==> p[i] != ':'
  {}

  lemma SameRule(a: string, x: string, b: string, y: string)
    requires ':' !in a && ':' !in b && a + ":" + x == b + ":" + y
    ensures a == b && x == y
  {
    FirstColon(a, x);
    FirstColon(b, y);
    assert |a| == |b|;
    assert a == (a + ":" + x)[..|a|] && x == (a + ":" + x)[|a| + 1..];
    assert b == (b + ":" + y)[..|b|] && y == (b + ":" + y)[|b| + 1..];
  }

  /** One bucket's key is another's stamp key just when the identities differ by the suffix. */
  lemma StampedBucketKey(rule: string, identity: string, other: string, caller: string)
    requires ':' !in rule && ':' !in other
    ensures BucketKey(rule, identity) == StampKey(BucketKey(other, caller))
            <==> rule == other && identity == caller + ":ts"
  {
    var (k, stamp) := (BucketKey(rule, identity), StampKey(BucketKey(other, caller)));
    assert k[10..] == rule + ":" + identity && stamp[10..] == other + ":" + (caller + ":ts");
    if k == stamp {
      SameRule(rule, identity, other, caller + ":ts");
    }
  }

  /** The limiter's keys stand apart unless some caller's identity ends in the stamp suffix. */
  lemma BucketKeysApart(keys: set<string>, callers: map<string, (string, string)>)
    requires KeyedBy(keys, callers) && forall k :: k in keys ==> !EndsAsStamp(callers[k].1)
    ensures Apart(keys)
  {
    forall a, b | a in keys && b in keys
      ensures a != StampKey(b)
    {
      StampedBucketKey(callers[a].0, callers[a].1, callers[b].0, callers[b].1);
      assert EndsAsStamp(callers[b].1 + ":ts");
    }
  }
}
