/**
 * Refresh-token rotation (`app/auth/refresh.py`): the token table and the service that issues,
 * rotates and revokes, after the rotation idea of section 10.4 of RFC 6749.
 *
 * A row is found by the hash of its token. Each service call is one transaction. What the
 * random generator draws (token, family id) is a parameter of the call.
 */
module RefreshTokens {
  import opened Wrappers

  const GRACE_PERIOD_SECONDS := 30.0
  const ROTATED := "rotated"
  const REUSE := "reuse"

  type Hash = string
  type FamilyId = string
  type UserId = string

  datatype Revocation = Revocation(at: real, reason: string)

  /** One token row; `revoked_at` and `revoked_reason` are always written together. */
  datatype Row = Row(user: UserId, family: FamilyId, expiresAt: real, revoked: Option<Revocation>)

  type Table = map<Hash, Row>

  datatype Outcome =
    | Minted(user: UserId, family: FamilyId, token: Hash)
    | Refused(status: int, code: string)
    | Done

  const EXPIRED := Refused(401, "TOKEN_EXPIRED")
  const IN_PROGRESS := Refused(409, "TOKEN_REFRESH_IN_PROGRESS")
  const REUSE_DETECTED := Refused(401, "TOKEN_REUSE_DETECTED")

  datatype Op =
    | Issue(user: UserId, token: Hash, family: FamilyId, now: real)
    | Rotate(token: Hash, successor: Hash, userExists: bool, now: real)
    | Revoke(token: Hash, reason: string, now: real)
    | RevokeFamily(family: FamilyId, reason: string, now: real)
    | RevokeAllForUser(user: UserId, reason: string, now: real)

  function RevokedRow(row: Row, reason: string, now: real): Row {
    if row.revoked.None? then row.(revoked := Some(Revocation(now, reason))) else row
  }

  function FamilyRevoked(t: Table, family: FamilyId, reason: string, now: real): Table {
    map h | h in t :: if t[h].family == family then RevokedRow(t[h], reason, now) else t[h]
  }

  function UserRevoked(t: Table, user: UserId, reason: string, now: real): Table {
    map h | h in t :: if t[h].user == user then RevokedRow(t[h], reason, now) else t[h]
  }

  predicate InGrace(row: Row, now: real)
    requires row.revoked.Some?
  {
    row.revoked.value.reason == ROTATED && now - row.revoked.value.at <= GRACE_PERIOD_SECONDS
  }

  function Result(t: Table, op: Op): Outcome {
    match op
    case Issue(user, token, family, _) => Minted(user, family, token)
    case Rotate(token, successor, userExists, now) =>
      if token !in t then EXPIRED
      else if t[token].revoked.Some? then (if InGrace(t[token], now) then IN_PROGRESS else REUSE_DETECTED)
      else if t[token].expiresAt <= now || !userExists then EXPIRED
      else Minted(t[token].user, t[token].family, successor)
    case _ => Done
  }

  function Next(t: Table, ttl: real, op: Op): Table {
    match op
    case Issue(user, token, family, now) => t[token := Row(user, family, now + ttl, None)]
    case Rotate(token, successor, _, now) =>
      var r := Result(t, op);
      if r.Minted? then
        t[token := RevokedRow(t[token], ROTATED, now)][successor := Row(r.user, r.family, now + ttl, None)]
      else if r == REUSE_DETECTED then FamilyRevoked(t, t[token].family, REUSE, now)
      else t
    case Revoke(token, reason, now) => if token in t then FamilyRevoked(t, t[token].family, reason, now) else t
    case RevokeFamily(family, reason, now) => FamilyRevoked(t, family, reason, now)
    case RevokeAllForUser(user, reason, now) => UserRevoked(t, user, reason, now)
  }

  /** `t'` is `t` with the live tokens of a family revoked for reuse, and no other row touched. */
  ghost predicate ReuseEnds(t: Table, t': Table, family: FamilyId, now: real) {
    && t'.Keys == t.Keys
    && forall h :: h in t ==>
         t'[h] == if t[h].family == family && t[h].revoked.None?
                  then t[h].(revoked := Some(Revocation(now, "reuse"))) else t[h]
  }

  /**
   * What a rotation owes: it mints just for a known, unrevoked, unexpired token of a user who
   * exists; otherwise it refuses, and only the replay of a token revoked for good changes a row.
   */
  ghost predicate Rotates(t: Table, ttl: real, t': Table, token: Hash, successor: Hash, userExists: bool, now: real,
                          r: Outcome) {
    && (r.Minted? <==> token in t && t[token].revoked.None? && now < t[token].expiresAt && userExists)
    && if r.Minted? then
         && r == Minted(t[token].user, t[token].family, successor)
         && t' == t[token := t[token].(revoked := Some(Revocation(now, "rotated")))]
                   [successor := Row(t[token].user, t[token].family, now + ttl, None)]
       else if token !in t || t[token].revoked.None? then
         r == Refused(401, "TOKEN_EXPIRED") && t' == t
       else if t[token].revoked.value.reason == "rotated" && now - t[token].revoked.value.at <= 30.0 then
         r == Refused(409, "TOKEN_REFRESH_IN_PROGRESS") && t' == t
       else
         r == Refused(401, "TOKEN_REUSE_DETECTED") && ReuseEnds(t, t', t[token].family, now)
  }

  /** A rotation's outcome, exactly: the step answers and changes the table as a rotation owes. */
  lemma RotationOutcome(t: Table, ttl: real, op: Op)
    requires op.Rotate?
    ensures Rotates(t, ttl, Next(t, ttl, op), op.token, op.successor, op.userExists, op.now, Result(t, op))
  {}

  class RefreshService {
    const ttl: real
    var table: Table

    constructor (ttl: real)
      ensures this.ttl == ttl && table == map[]
    {
      this.ttl := ttl;
      table := map[];
    }

    /** Start a new family for `user`; `raw` and `familyId` are freshly drawn. */
    method IssueToken(user: UserId, raw: Hash, familyId: FamilyId, now: real) returns (r: Outcome)
      modifies this
      ensures r == Result(old(table), Issue(user, raw, familyId, now))
      ensures table == Next(old(table), ttl, Issue(user, raw, familyId, now))
      ensures raw in table && table[raw].user == user && table[raw].family == familyId && Live(table, raw)
      ensures table[raw].expiresAt == now + ttl && forall h :: h in old(table) && h != raw ==>
                h in table && table[h] == old(table)[h]
    {
      table := table[raw := Row(user, familyId, now + ttl, None)];
      return Minted(user, familyId, raw);
    }

    /** Claim `rawToken` and mint its successor; `userExists` is the answer of the user lookup. */
    method RotateToken(rawToken: Hash, successor: Hash, userExists: bool, now: real) returns (r: Outcome)
      modifies this
      ensures r == Result(old(table), Rotate(rawToken, successor, userExists, now))
      ensures table == Next(old(table), ttl, Rotate(rawToken, successor, userExists, now))
      ensures Rotates(old(table), ttl, table, rawToken, successor, userExists, now, r)
    {
      RotationOutcome(table, ttl, Rotate(rawToken, successor, userExists, now));
      if rawToken !in table {
        return EXPIRED;
      }
      var token := table[rawToken];
      if token.revoked.Some? {
        if token.revoked.value.reason == ROTATED && now - token.revoked.value.at <= GRACE_PERIOD_SECONDS {
          return IN_PROGRESS;
        }
        RevokeFamilyRows(token.family, REUSE, now);
        return REUSE_DETECTED;
      }
      if token.expiresAt <= now {
        return EXPIRED;
      }
      if !userExists {
        return EXPIRED;
      }
      table := table[rawToken := token.(revoked := Some(Revocation(now, ROTATED)))];
      table := table[successor := Row(token.user, token.family, now + ttl, None)];
      return Minted(token.user, token.family, successor);
    }

    /** Revoke the family containing `rawToken`; nothing happens for an unknown token. */
    method RevokeToken(rawToken: Hash, reason: string, now: real)
      modifies this
      ensures table == Next(old(table), ttl, Revoke(rawToken, reason, now))
      ensures table.Keys == old(table).Keys
      ensures forall h :: h in table ==>
                table[h] == if rawToken in old(table) && table[h].family == old(table)[rawToken].family
                               && old(table)[h].revoked.None?
                            then old(table)[h].(revoked := Some(Revocation(now, reason))) else old(table)[h]
    {
      if rawToken !in table {
        return;
      }
      RevokeFamilyRows(table[rawToken].family, reason, now);
    }

    /** The bulk UPDATE behind every family revocation. */
    method RevokeFamilyRows(family: FamilyId, reason: string, now: real)
      modifies this
      ensures table == Next(old(table), ttl, RevokeFamily(family, reason, now))
      ensures table.Keys == old(table).Keys
      ensures forall h :: Live(table, h) <==> Live(old(table), h) && old(table)[h].family != family
      ensures forall h :: h in table && !(Live(old(table), h) && table[h].family == family) ==>
                table[h] == old(table)[h]
      ensures forall h :: Live(old(table), h) && old(table)[h].family == family ==>
                table[h].revoked == Some(Revocation(now, reason))
    {
      table := map h | h in table ::
        if table[h].family == family && table[h].revoked.None?
        then table[h].(revoked := Some(Revocation(now, reason))) else table[h];
    }

    method RevokeUserRows(user: UserId, reason: string, now: real)
      modifies this
      ensures table == Next(old(table), ttl, RevokeAllForUser(user, reason, now))
      ensures table.Keys == old(table).Keys
      ensures forall h :: Live(table, h) <==> Live(old(table), h) && old(table)[h].user != user
      ensures forall h :: h in table && !(Live(old(table), h) && table[h].user == user) ==>
                table[h] == old(table)[h]
      ensures forall h :: Live(old(table), h) && old(table)[h].user == user ==>
                table[h].revoked == Some(Revocation(now, reason))
    {
      table := map h | h in table ::
        if table[h].user == user && table[h].revoked.None?
        then table[h].(revoked := Some(Revocation(now, reason))) else table[h];
    }
  }

  // ---------------------------------------------------------------- families

  predicate Live(t: Table, h: Hash) {
    h in t && t[h].revoked.None?
  }

  /** A token that was not used up by rotation: live, or revoked for another reason. */
  predicate Head(t: Table, h: Hash) {
    h in t && (t[h].revoked.Some? ==> t[h].revoked.value.reason != ROTATED)
  }

  ghost predicate HeadOf(t: Table, family: FamilyId, h: Hash) {
    Head(t, h) && t[h].family == family
  }

  ghost predicate HasHead(t: Table, family: FamilyId) {
    exists h :: HeadOf(t, family, h)
  }

  /** Each family has exactly one head, and all its tokens belong to one user. */
  ghost predicate Chained(t: Table) {
    && (forall a {:trigger HasHead(t, t[a].family)} :: a in t ==> HasHead(t, t[a].family))
    && (forall a, b :: Head(t, a) && Head(t, b) && t[a].family == t[b].family ==> a == b)
    && (forall a, b :: a in t && b in t && t[a].family == t[b].family ==> t[a].user == t[b].user)
  }

  /** Freshly drawn ids are new, and no caller names rotation as its own reason. */
  predicate Proper(t: Table, op: Op) {
    match op
    case Issue(_, token, family, _) => token !in t && forall h :: h in t ==> t[h].family != family
    case Rotate(_, successor, _, _) => successor !in t
    case Revoke(_, reason, _) => reason != ROTATED
    case RevokeFamily(_, reason, _) => reason != ROTATED
    case RevokeAllForUser(_, reason, _) => reason != ROTATED
  }

  /** A step that moves no head and no membership keeps the chains. */
  lemma SameHeadsKeepChains(t: Table, t': Table)
    requires Chained(t) && t.Keys == t'.Keys
    requires forall h :: h in t ==>
               t'[h].family == t[h].family && t'[h].user == t[h].user && (Head(t', h) <==> Head(t, h))
    ensures Chained(t')
  {
    forall a | a in t'
      ensures HasHead(t', t'[a].family)
    {
      assert HasHead(t, t[a].family);
      var h :| HeadOf(t, t[a].family, h);
      assert HeadOf(t', t'[a].family, h);
    }
  }

  lemma IssueKeepsChains(t: Table, ttl: real, op: Op)
    requires Chained(t) && op.Issue? && Proper(t, op)
    ensures Chained(Next(t, ttl, op))
  {
    var t' := Next(t, ttl, op);
    assert HeadOf(t', op.family, op.token);
    forall a | a in t
      ensures HasHead(t', t[a].family)
    {
      assert HasHead(t, t[a].family);
      var h :| HeadOf(t, t[a].family, h);
      assert HeadOf(t', t[a].family, h);
    }
  }

  /** The head of one family passes from `token` to the new row `successor`; nothing else moves. */
  ghost predicate HandsOver(t: Table, t': Table, token: Hash, successor: Hash) {
    && Head(t, token) && successor !in t && t'.Keys == t.Keys + {successor}
    && (forall h :: h in t ==> t'[h].family == t[h].family && t'[h].user == t[h].user)
    && t'[successor].family == t[token].family && t'[successor].user == t[token].user
    && (forall h :: Head(t', h) <==> h == successor || (Head(t, h) && h != token))
  }

  lemma RotateHandsOver(t: Table, ttl: real, op: Op)
    requires op.Rotate? && Proper(t, op) && Result(t, op).Minted?
    ensures HandsOver(t, Next(t, ttl, op), op.token, op.successor)
  {}

  lemma HandOverKeepsHeads(t: Table, t': Table, token: Hash, successor: Hash, a: Hash)
    requires Chained(t) && HandsOver(t, t', token, successor) && a in t'
    ensures HasHead(t', t'[a].family)
  {
    var before := if a == successor then token else a;
    assert HasHead(t, t[before].family);
    var h :| HeadOf(t, t[before].family, h);
    assert HeadOf(t', t'[a].family, if h == token then successor else h);
  }

  /** A successful rotation hands the head over from the claimed token to its successor. */
  lemma RotateKeepsChains(t: Table, ttl: real, op: Op)
    requires Chained(t) && op.Rotate? && Proper(t, op) && Result(t, op).Minted?
    ensures Chained(Next(t, ttl, op))
  {
    var t' := Next(t, ttl, op);
    RotateHandsOver(t, ttl, op);
    forall a | a in t' ensures HasHead(t', t'[a].family) {
      HandOverKeepsHeads(t, t', op.token, op.successor, a);
    }
  }

  lemma StepKeepsChains(t: Table, ttl: real, op: Op)
    requires Chained(t) && Proper(t, op)
    ensures Chained(Next(t, ttl, op))
  {
    if op.Issue? {
      IssueKeepsChains(t, ttl, op);
    } else if op.Rotate? && Result(t, op).Minted? {
      RotateKeepsChains(t, ttl, op);
    } else {
      SameHeadsKeepChains(t, Next(t, ttl, op));
    }
  }

  /** Revoking a family under the name of rotation breaks its chain exactly when it was live. */
  lemma RotationIsNoReason(t: Table, ttl: real, family: FamilyId, now: real)
    requires Chained(t)
    ensures Chained(Next(t, ttl, RevokeFamily(family, ROTATED, now)))
            <==> forall h :: Live(t, h) ==> t[h].family != family
  {
    var t' := Next(t, ttl, RevokeFamily(family, ROTATED, now));
    if h :| Live(t, h) && t[h].family == family {
      assert Head(t, h);
      assert forall x :: Head(t', x) && t'[x].family == family ==> Head(t, x) && x == h;
      assert !Head(t', h);
      assert !HasHead(t', t'[h].family);
    } else {
      assert t' == t;
    }
  }

  ghost predicate ProperRun(t: Table, ttl: real, ops: seq<Op>)
    decreases ops
  {
    ops != [] ==> Proper(t, ops[0]) && ProperRun(Next(t, ttl, ops[0]), ttl, ops[1..])
  }

  function Run(t: Table, ttl: real, ops: seq<Op>): Table
    decreases ops
  {
    if ops == [] then t else Run(Next(t, ttl, ops[0]), ttl, ops[1..])
  }

  /** In every reachable table each family has exactly one head, hence at most one live token. */
  lemma {:induction false} ReachableChained(t: Table, ttl: real, ops: seq<Op>)
    requires Chained(t) && ProperRun(t, ttl, ops)
    ensures Chained(Run(t, ttl, ops))
    ensures forall a, b | Live(Run(t, ttl, ops), a) && Live(Run(t, ttl, ops), b) ::
              Run(t, ttl, ops)[a].family == Run(t, ttl, ops)[b].family ==> a == b
    decreases ops
  {
    if ops != [] {
      StepKeepsChains(t, ttl, ops[0]);
      ReachableChained(Next(t, ttl, ops[0]), ttl, ops[1..]);
    }
    assert forall h :: Live(Run(t, ttl, ops), h) ==> Head(Run(t, ttl, ops), h);
  }

  /** A minted token is the one live token of its family, with the family's own user. */
  lemma MintedIsTheLiveToken(t: Table, ttl: real, op: Op)
    requires Chained(t) && Proper(t, op) && Result(t, op).Minted?
    ensures var r := Result(t, op);
            && HeadOf(Next(t, ttl, op), r.family, r.token) && Next(t, ttl, op)[r.token].user == r.user
            && forall h :: Live(Next(t, ttl, op), h) && Next(t, ttl, op)[h].family == r.family <==> h == r.token
  {
    StepKeepsChains(t, ttl, op);
  }

  // ---------------------------------------------------------------- revocation is final

  /** Rows stay, keep user, family and expiry, and a revocation once written never changes. */
  ghost predicate Extends(t: Table, t': Table) {
    forall h :: h in t ==>
      && h in t'
      && t'[h].(revoked := None) == t[h].(revoked := None)
      && (t[h].revoked.Some? ==> t'[h].revoked == t[h].revoked)
  }

  lemma StepExtends(t: Table, ttl: real, op: Op)
    requires Proper(t, op)
    ensures Extends(t, Next(t, ttl, op))
  {}

  lemma ExtendsTwice(a: Table, b: Table, c: Table)
    requires Extends(a, b) && Extends(b, c)
    ensures Extends(a, c)
  {}

  lemma {:induction false} RevocationIsWrittenOnce(t: Table, ttl: real, ops: seq<Op>)
    requires ProperRun(t, ttl, ops)
    ensures Extends(t, Run(t, ttl, ops))
    decreases ops
  {
    if ops != [] {
      var t' := Next(t, ttl, ops[0]);
      StepExtends(t, ttl, ops[0]);
      RevocationIsWrittenOnce(t', ttl, ops[1..]);
      ExtendsTwice(t, t', Run(t', ttl, ops[1..]));
    }
  }

  /** A known family without a live token. */
  ghost predicate Dead(t: Table, family: FamilyId) {
    && (exists h :: h in t && t[h].family == family)
    && (forall h :: Live(t, h) ==> t[h].family != family)
  }

  lemma {:induction false} DeadStaysDead(t: Table, ttl: real, ops: seq<Op>, family: FamilyId)
    requires ProperRun(t, ttl, ops) && Dead(t, family)
    ensures Dead(Run(t, ttl, ops), family)
    decreases ops
  {
    if ops != [] {
      var t' := Next(t, ttl, ops[0]);
      var h :| h in t && t[h].family == family;
      assert h in t' && t'[h].family == family;
      DeadStaysDead(t', ttl, ops[1..], family);
    }
  }

  /** The table before operation `i` of a run. */
  ghost function At(t: Table, ttl: real, ops: seq<Op>, i: nat): Table
    requires i <= |ops|
  {
    Run(t, ttl, ops[..i])
  }

  lemma {:induction false} RunSplits(t: Table, ttl: real, ops: seq<Op>, i: nat)
    requires i <= |ops| && ProperRun(t, ttl, ops)
    ensures Run(t, ttl, ops) == Run(At(t, ttl, ops, i), ttl, ops[i..])
    ensures ProperRun(t, ttl, ops[..i]) && ProperRun(At(t, ttl, ops, i), ttl, ops[i..])
    decreases ops
  {
    if i == 0 {
      assert ops[0..] == ops;
    } else {
      RunSplits(Next(t, ttl, ops[0]), ttl, ops[1..], i - 1);
      assert ops[..i][1..] == ops[1..][..i - 1] && ops[1..][i - 1..] == ops[i..];
    }
  }

  /** The table before operation `j` extends the table right after operation `i < j`. */
  lemma LaterTable(t: Table, ttl: real, ops: seq<Op>, i: nat, j: nat)
    requires ProperRun(t, ttl, ops) && i < j < |ops|
    ensures var mid := Next(At(t, ttl, ops, i), ttl, ops[i]);
            At(t, ttl, ops, j) == Run(mid, ttl, ops[i + 1..j]) && ProperRun(mid, ttl, ops[i + 1..j])
  {
    RunSplits(t, ttl, ops, j);
    RunSplits(t, ttl, ops[..j], i);
    assert ops[..j][..i] == ops[..i] && ops[..j][i..][0] == ops[i] && ops[..j][i..][1..] == ops[i + 1..j];
  }

  /**
   * A token is claimed at most once, and what a replay of it meets depends only on the time
   * since the claim: 409 up to and including the grace period, 401 with the family dead after.
   */
  lemma ReplayOfAClaim(t: Table, ttl: real, ops: seq<Op>, i: nat, j: nat)
    requires ProperRun(t, ttl, ops) && i < j < |ops|
    requires ops[i].Rotate? && ops[j].Rotate? && ops[i].token == ops[j].token
    requires Result(At(t, ttl, ops, i), ops[i]).Minted?
    ensures var before := At(t, ttl, ops, j);
            && (ops[j].now - ops[i].now <= 30.0 <==> Result(before, ops[j]) == IN_PROGRESS)
            && (ops[j].now - ops[i].now > 30.0 <==> Result(before, ops[j]) == REUSE_DETECTED)
            && (Result(before, ops[j]) == IN_PROGRESS ==> Next(before, ttl, ops[j]) == before)
            && (Result(before, ops[j]) == REUSE_DETECTED ==>
                  Dead(Next(before, ttl, ops[j]), before[ops[i].token].family))
  {
    var first := At(t, ttl, ops, i);
    var mid := Next(first, ttl, ops[i]);
    LaterTable(t, ttl, ops, i, j);
    RevocationIsWrittenOnce(mid, ttl, ops[i + 1..j]);
    RunSplits(t, ttl, ops, i);
    assert Proper(first, ops[i]);
    assert mid[ops[i].token].revoked == Some(Revocation(ops[i].now, ROTATED));
    var before := At(t, ttl, ops, j);
    ghost var family := before[ops[i].token].family;
    if Result(before, ops[j]) == REUSE_DETECTED {
      var after := Next(before, ttl, ops[j]);
      assert ops[i].token in after && after[ops[i].token].family == family;
    }
  }

  /**
   * A minted token lives for `ttl`: issued or minted by a rotation at `ops[i].now`, and not revoked
   * since, it is rotated before that time is up and refused as expired from then on.
   */
  lemma AcceptedUntilExpiry(t: Table, ttl: real, ops: seq<Op>, i: nat, j: nat)
    requires ProperRun(t, ttl, ops) && i < j < |ops| && ops[j].Rotate?
    requires var minted := Result(At(t, ttl, ops, i), ops[i]); minted.Minted? && minted.token == ops[j].token
    requires Live(At(t, ttl, ops, j), ops[j].token)
    ensures var (minted, r) := (Result(At(t, ttl, ops, i), ops[i]), Result(At(t, ttl, ops, j), ops[j]));
            r == if ops[j].userExists && ops[j].now < ops[i].now + ttl
                 then Minted(minted.user, minted.family, ops[j].successor) else Refused(401, "TOKEN_EXPIRED")
  {
    var (first, token) := (At(t, ttl, ops, i), ops[j].token);
    var mid := Next(first, ttl, ops[i]);
    assert mid[token] == Row(Result(first, ops[i]).user, Result(first, ops[i]).family, ops[i].now + ttl, None);
    LaterTable(t, ttl, ops, i, j);
    RevocationIsWrittenOnce(mid, ttl, ops[i + 1..j]);
  }

  /** Whatever ends a family (reuse, logout, a password set), no later rotation mints in it. */
  lemma EndedFamilyNeverMints(t: Table, ttl: real, ops: seq<Op>, i: nat, j: nat, family: FamilyId)
    requires ProperRun(t, ttl, ops) && i < j < |ops|
    requires Dead(Next(At(t, ttl, ops, i), ttl, ops[i]), family)
    requires ops[j].Rotate?
    ensures var r := Result(At(t, ttl, ops, j), ops[j]); r.Minted? ==> r.family != family
  {
    LaterTable(t, ttl, ops, i, j);
    DeadStaysDead(Next(At(t, ttl, ops, i), ttl, ops[i]), ttl, ops[i + 1..j], family);
    var before := At(t, ttl, ops, j);
    assert Live(before, ops[j].token) ==> before[ops[j].token].family != family;
  }

  /** An issued token is all there is of its family, and every other family is as it was. */
  lemma IssueStartsFamily(t: Table, ttl: real, op: Op, family: FamilyId)
    requires op.Issue? && Proper(t, op)
    ensures var t' := Next(t, ttl, op);
            && (forall h :: h in t' && t'[h].family == op.family <==> h == op.token)
            && t'[op.token] == Row(op.user, op.family, op.now + ttl, None)
            && (family != op.family ==>
                  forall h :: (h in t' && t'[h].family == family <==> h in t && t[h].family == family)
                              && (h in t && t[h].family == family ==> t'[h] == t[h]))
  {}

  /** The first revocation wins: whatever revokes a family's tokens next, the rows keep what it wrote. */
  lemma FirstRevocationWins(t: Table, ttl: real, family: FamilyId, reason: string, now: real, later: Op)
    requires match later
             case Revoke(token, _, _) => token in t && t[token].family == family
             case RevokeFamily(f, _, _) => f == family
             case _ => false
    ensures var once := Next(t, ttl, RevokeFamily(family, reason, now)); Next(once, ttl, later) == once
  {}

  /** Revoking by token, family or user leaves no live token in what it names. */
  lemma RevocationEndsFamilies(t: Table, ttl: real, op: Op, h: Hash)
    requires h in t
    requires match op
             case Revoke(token, _, _) => token in t && t[token].family == t[h].family
             case RevokeFamily(family, _, _) => family == t[h].family
             case RevokeAllForUser(user, _, _) => Chained(t) && user == t[h].user
             case _ => false
    ensures Dead(Next(t, ttl, op), t[h].family)
  {
    assert h in Next(t, ttl, op) && Next(t, ttl, op)[h].family == t[h].family;
  }
}
