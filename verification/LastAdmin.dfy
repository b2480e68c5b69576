/**
 * The last-administrator rule of `app/services/member_service.py`.
 *
 * An adjustment locks the tenant, reads its member, counts administrators, writes and commits.
 * An adjustment that only sets a status to active takes no lock. Any number of them interleave,
 * step by step; reads see committed rows, and a write carries only the columns it changes.
 */
module LastAdmin {
  import opened Wrappers

  const PLATFORM_ADMIN := "platform_admin"

  datatype Status = Active | Disabled

  type MemberId = string

  datatype Member = Member(role: string, status: Status)

  type Members = map<MemberId, Member>

  /** One call: who asks, about whom, and the fields to change. */
  datatype Request = Request(actor: MemberId, target: MemberId, role: Option<string>, status: Option<Status>)

  datatype Outcome = Updated | NotFound | LastAdminRefused | SelfDisableRefused | Cancelled

  predicate ActiveAdmin(m: Member) {
    m.role == PLATFORM_ADMIN && m.status == Active
  }

  function Admins(members: Members): set<MemberId> {
    set id | id in members && ActiveAdmin(members[id])
  }

  predicate NeedsLock(q: Request) {
    q.role.Some? || q.status == Some(Disabled)
  }

  function NextRole(q: Request, seen: Member): string {
    if q.role.Some? then q.role.value else seen.role
  }

  function NextStatus(q: Request, seen: Member): Status {
    if q.status.Some? then q.status.value else seen.status
  }

  predicate BecomesNonAdmin(q: Request, seen: Member) {
    ActiveAdmin(seen) && (NextRole(q, seen) != PLATFORM_ADMIN || NextStatus(q, seen) != Active)
  }

  predicate DisablesSelf(q: Request, seen: Member) {
    NextStatus(q, seen) == Disabled && seen.status != Disabled && q.target == q.actor
  }

  /** The row after the commit: the columns that differ from what was read, and no other. */
  function Written(q: Request, seen: Member, row: Member): Member {
    Member(if NextRole(q, seen) != seen.role then NextRole(q, seen) else row.role,
           if NextStatus(q, seen) != seen.status then NextStatus(q, seen) else row.status)
  }

  // ---------------------------------------------------------------- one adjustment alone

  function AloneOutcome(members: Members, q: Request): Outcome {
    if q.target !in members then NotFound
    else if BecomesNonAdmin(q, members[q.target]) && |Admins(members)| <= 1 then LastAdminRefused
    else if DisablesSelf(q, members[q.target]) then SelfDisableRefused
    else Updated
  }

  function AloneMembers(members: Members, q: Request): Members {
    if AloneOutcome(members, q) != Updated then members
    else members[q.target := Member(NextRole(q, members[q.target]), NextStatus(q, members[q.target]))]
  }

  /** The other members hold no active administrator. */
  ghost predicate NoOtherAdmin(members: Members, target: MemberId) {
    forall id :: id in members && id != target ==> members[id].role != "platform_admin" || members[id].status != Active
  }

  /** The request takes an active administrator's role or status away. */
  predicate TakesAdmin(q: Request, row: Member) {
    && row.role == "platform_admin" && row.status == Active
    && (q.status == Some(Disabled) || (q.role.Some? && q.role.value != "platform_admin"))
  }

  /** What an adjustment owes: its refusals in order, and otherwise just the fields asked for. */
  ghost predicate Adjusts(before: Members, after: Members, q: Request, outcome: Outcome) {
    if q.target !in before then outcome == NotFound && after == before
    else
      var row := before[q.target];
      if TakesAdmin(q, row) && NoOtherAdmin(before, q.target) then outcome == LastAdminRefused && after == before
      else if q.target == q.actor && q.status == Some(Disabled) && row.status == Active then
        outcome == SelfDisableRefused && after == before
      else
        && outcome == Updated
        && after == before[q.target := Member(if q.role.Some? then q.role.value else row.role,
                                              if q.status.Some? then q.status.value else row.status)]
  }

  lemma OnlyAdminIff(members: Members, target: MemberId)
    requires target in Admins(members)
    ensures |Admins(members)| <= 1 <==> NoOtherAdmin(members, target)
  {
    var others := Admins(members) - {target};
    assert |Admins(members)| == |others| + 1;
    forall id | id in members && id != target
      ensures id in others <==> members[id].role == "platform_admin" && members[id].status == Active
    {}
    if others != {} {
      var id :| id in others;
      assert id in members && id != target;
    }
  }

  /** One adjustment alone does exactly what it owes. */
  lemma AloneAdjusts(members: Members, q: Request)
    ensures Adjusts(members, AloneMembers(members, q), q, AloneOutcome(members, q))
  {
    if q.target in Admins(members) {
      OnlyAdminIff(members, q.target);
    }
  }

  class MemberService {
    var members: Members

    constructor (members: Members)
      ensures this.members == members
    {
      this.members := members;
    }

    method AdminsLeft() returns (count: nat)
      ensures count == |Admins(members)|
      ensures count == 0 <==> forall id :: id in members ==> !ActiveAdmin(members[id])
    {
      count := |set id | id in members && members[id].role == PLATFORM_ADMIN && members[id].status == Active|;
      assert (set id | id in members && members[id].role == PLATFORM_ADMIN && members[id].status == Active)
          == Admins(members);
      assert Admins(members) == {} <==> forall id :: id in members ==> id !in Admins(members);
    }

    /** Adjust a member's role and status, with no other adjustment at work. */
    method UpdateMember(actor: MemberId, memberId: MemberId, role: Option<string>, status: Option<Status>)
      returns (outcome: Outcome)
      modifies this
      ensures outcome == AloneOutcome(old(members), Request(actor, memberId, role, status))
      ensures members == AloneMembers(old(members), Request(actor, memberId, role, status))
      ensures Adjusts(old(members), members, Request(actor, memberId, role, status), outcome)
    {
      AloneAdjusts(members, Request(actor, memberId, role, status));
      if memberId !in members {
        return NotFound;
      }
      var member := members[memberId];
      var nextRole := if role.None? then member.role else role.value;
      var nextStatus := if status.None? then member.status else status.value;
      var becomesNonAdmin :=
        member.role == PLATFORM_ADMIN && member.status == Active
        && (nextRole != PLATFORM_ADMIN || nextStatus != Active);
      if becomesNonAdmin {
        var left := AdminsLeft();
        if left <= 1 {
          return LastAdminRefused;
        }
      }
      if nextStatus == Disabled && member.status != Disabled {
        if memberId == actor {
          return SelfDisableRefused;
        }
      }
      members := members[memberId := Member(nextRole, nextStatus)];
      return Updated;
    }
  }

  /** An adjustment is refused for the last administrator exactly when carrying it out would leave none. */
  lemma RefusedIffNoneWouldRemain(members: Members, q: Request)
    requires q.target in members && Admins(members) != {}
    ensures var next := Member(NextRole(q, members[q.target]), NextStatus(q, members[q.target]));
            AloneOutcome(members, q) == LastAdminRefused <==> Admins(members[q.target := next]) == {}
  {
    var admins := Admins(members);
    var next := Member(NextRole(q, members[q.target]), NextStatus(q, members[q.target]));
    var after := Admins(members[q.target := next]);
    assert after == if ActiveAdmin(next) then admins + {q.target} else admins - {q.target};
    if !ActiveAdmin(next) {
      if |admins| <= 1 && q.target in admins {
        assert |admins - {q.target}| == 0;
      }
      if admins - {q.target} == {} {
        assert admins == {q.target};
      }
    }
  }

  // ---------------------------------------------------------------- adjustments interleaved

  type TxnId = nat

  /** Where a transaction stands; `seen` is the row it read. */
  datatype Stage =
    | Begun
    | Locked
    | HasRead(seen: Member)
    | Cleared(seen: Member)
    | Flushed(seen: Member)
    | Ended(outcome: Outcome)

  datatype Txn = Txn(request: Request, stage: Stage)

  datatype System = System(members: Members, lock: Option<TxnId>, txns: map<TxnId, Txn>)

  datatype Step =
    | Begin(id: TxnId, request: Request)
    | TakeLock(id: TxnId)
    | ReadMember(id: TxnId)
    | CheckRules(id: TxnId)
    | Flush(id: TxnId)
    | Commit(id: TxnId)
    | Cancel(id: TxnId)

  /** End a transaction: its lock, if it holds one, goes with it. */
  function End(s: System, id: TxnId, outcome: Outcome): System
    requires id in s.txns
  {
    System(s.members, if s.lock == Some(id) then None else s.lock,
           s.txns[id := s.txns[id].(stage := Ended(outcome))])
  }

  function Advance(s: System, id: TxnId, stage: Stage): System
    requires id in s.txns
  {
    s.(txns := s.txns[id := s.txns[id].(stage := stage)])
  }

  /** One step of one transaction; a step that is not enabled changes nothing. */
  function Next(s: System, step: Step): System {
    if step.Begin? then
      if step.id in s.txns then s else s.(txns := s.txns[step.id := Txn(step.request, Begun)])
    else if step.id !in s.txns || s.txns[step.id].stage.Ended? then s
    else
      var id := step.id;
      var q, stage := s.txns[id].request, s.txns[id].stage;
      match step
      case TakeLock(_) =>
        if stage.Begun? && NeedsLock(q) && s.lock.None? then Advance(s, id, Locked).(lock := Some(id)) else s
      case ReadMember(_) =>
        if !(if NeedsLock(q) then stage.Locked? else stage.Begun?) then s
        else if q.target !in s.members then End(s, id, NotFound)
        else Advance(s, id, HasRead(s.members[q.target]))
      case CheckRules(_) =>
        if !stage.HasRead? then s
        else if BecomesNonAdmin(q, stage.seen) && |Admins(s.members)| <= 1 then End(s, id, LastAdminRefused)
        else if DisablesSelf(q, stage.seen) then End(s, id, SelfDisableRefused)
        else Advance(s, id, Cleared(stage.seen))
      case Flush(_) => if stage.Cleared? then Advance(s, id, Flushed(stage.seen)) else s
      case Commit(_) =>
        if !stage.Flushed? || q.target !in s.members then s
        else End(s.(members := s.members[q.target := Written(q, stage.seen, s.members[q.target])]), id, Updated)
      case Cancel(_) => End(s, id, Cancelled)
  }

  function Run(s: System, steps: seq<Step>): System
    decreases steps
  {
    if steps == [] then s else Run(Next(s, steps[0]), steps[1..])
  }

  function Idle(members: Members): System {
    System(members, None, map[])
  }

  ghost predicate AnotherAdmin(members: Members, target: MemberId) {
    exists a :: a in Admins(members) && a != target
  }

  /** The transaction is past its lock and has not ended. */
  predicate Working(t: Txn) {
    !t.stage.Begun? && !t.stage.Ended?
  }

  predicate StaysAdmin(q: Request, seen: Member) {
    ActiveAdmin(seen) && !BecomesNonAdmin(q, seen)
  }

  /** Once the rules are passed, a removal leaves another administrator standing. */
  ghost predicate Covered(members: Members, t: Txn) {
    match t.stage
    case HasRead(seen) => ActiveAdmin(seen) || AnotherAdmin(members, t.request.target)
    case Cleared(seen) => StaysAdmin(t.request, seen) || AnotherAdmin(members, t.request.target)
    case Flushed(seen) => StaysAdmin(t.request, seen) || AnotherAdmin(members, t.request.target)
    case _ => true
  }

  ghost predicate Protected(s: System) {
    && Admins(s.members) != {}
    && (forall id :: id in s.txns && NeedsLock(s.txns[id].request) && Working(s.txns[id]) ==>
          s.lock == Some(id) && Covered(s.members, s.txns[id]))
  }

  /** A step that removes no administrator keeps every open transaction covered. */
  lemma GrowingAdminsCover(before: Members, after: Members, t: Txn)
    requires Admins(before) <= Admins(after) && Covered(before, t)
    ensures Covered(after, t)
  {
    if AnotherAdmin(before, t.request.target) {
      var a :| a in Admins(before) && a != t.request.target;
      assert a in Admins(after);
    }
  }

  lemma ReadIsCovered(members: Members, q: Request)
    requires Admins(members) != {} && q.target in members
    ensures Covered(members, Txn(q, HasRead(members[q.target])))
  {
    var a :| a in Admins(members);
    assert a != q.target || ActiveAdmin(members[q.target]);
  }

  lemma CheckIsCovered(members: Members, q: Request, seen: Member)
    requires Covered(members, Txn(q, HasRead(seen)))
    requires BecomesNonAdmin(q, seen) ==> |Admins(members)| > 1
    ensures Covered(members, Txn(q, Cleared(seen)))
  {
    if BecomesNonAdmin(q, seen) {
      if Admins(members) <= {q.target} {
        assert |Admins(members)| <= |{q.target}| by { SubsetSize(Admins(members), {q.target}); }
      }
      var a :| a in Admins(members) && a != q.target;
      assert AnotherAdmin(members, q.target);
    }
  }

  lemma SubsetSize<T>(a: set<T>, b: set<T>)
    requires a <= b
    ensures |a| <= |b|
  {
    assert b == a + (b - a);
  }

  /** A commit keeps an administrator: without the lock it only activates, with it it is covered. */
  lemma CommitKeepsAdmin(members: Members, t: Txn)
    requires t.stage.Flushed? && t.request.target in members && Admins(members) != {}
    requires NeedsLock(t.request) ==> Covered(members, t)
    ensures var target := t.request.target;
            var after := members[target := Written(t.request, t.stage.seen, members[target])];
            && Admins(after) != {}
            && (!NeedsLock(t.request) ==> Admins(members) <= Admins(after))
  {
    var target := t.request.target;
    var after := members[target := Written(t.request, t.stage.seen, members[target])];
    if AnotherAdmin(members, target) {
      var a :| a in Admins(members) && a != target;
      assert a in Admins(after);
    } else {
      var a :| a in Admins(members);
      assert a in Admins(after);
    }
  }

  lemma StepProtects(s: System, step: Step)
    requires Protected(s)
    ensures Protected(Next(s, step))
  {
    var s' := Next(s, step);
    if step.Commit? && s' != s {
      CommitKeepsAdmin(s.members, s.txns[step.id]);
    }
    forall id | id in s'.txns && NeedsLock(s'.txns[id].request) && Working(s'.txns[id])
      ensures s'.lock == Some(id) && Covered(s'.members, s'.txns[id])
    {
      if id == step.id && step.ReadMember? && s.txns[id].stage.Locked? {
        ReadIsCovered(s.members, s.txns[id].request);
      } else if id == step.id && step.CheckRules? && s.txns[id].stage.HasRead? {
        CheckIsCovered(s.members, s.txns[id].request, s.txns[id].stage.seen);
      } else if Admins(s.members) <= Admins(s'.members) && id in s.txns && s'.txns[id] == s.txns[id] {
        GrowingAdminsCover(s.members, s'.members, s.txns[id]);
      }
    }
  }

  lemma {:induction false} RunProtects(s: System, steps: seq<Step>)
    requires Protected(s)
    ensures Protected(Run(s, steps))
    decreases steps
  {
    if steps != [] {
      StepProtects(s, steps[0]);
      RunProtects(Next(s, steps[0]), steps[1..]);
    }
  }

  /** However adjustments interleave or are cut off, a tenant never loses its last administrator. */
  lemma AlwaysAnAdmin(members: Members, steps: seq<Step>)
    requires Admins(members) != {}
    ensures Admins(Run(Idle(members), steps).members) != {}
  {
    RunProtects(Idle(members), steps);
  }

  /** A commit writes the fields asked for that differ from what was read; whatever else the row holds stays. */
  lemma CommitWrites(q: Request, seen: Member, row: Member)
    ensures var w := Written(q, seen, row);
            && w.role == (if q.role.Some? && q.role.value != seen.role then q.role.value else row.role)
            && w.status == (if q.status.Some? && q.status.value != seen.status then q.status.value else row.status)
  {}

  /** Past the rules no transaction is about to disable its own actor. */
  predicate SparesActor(t: Txn) {
    t.stage.Cleared? || t.stage.Flushed? ==>
      t.request.target != t.request.actor || t.request.status != Some(Disabled) || t.stage.seen.status != Active
  }

  lemma {:induction false} RunSparesActors(s: System, steps: seq<Step>)
    requires forall id :: id in s.txns ==> SparesActor(s.txns[id])
    ensures forall id :: id in Run(s, steps).txns ==> SparesActor(Run(s, steps).txns[id])
    decreases steps
  {
    if steps != [] {
      RunSparesActors(Next(s, steps[0]), steps[1..]);
    }
  }

  /** However adjustments interleave, none disables the account that asked for it. */
  lemma NobodyDisablesThemselves(members: Members, steps: seq<Step>, step: Step)
    ensures var s := Run(Idle(members), steps);
            step.id in s.txns ==>
              var target := s.txns[step.id].request.target;
              target == s.txns[step.id].request.actor && target in s.members && s.members[target].status == Active ==>
                target in Next(s, step).members && Next(s, step).members[target].status == Active
  {
    RunSparesActors(Idle(members), steps);
    var s := Run(Idle(members), steps);
    if step.id in s.txns {
      assert SparesActor(s.txns[step.id]);
    }
  }

  /** The steps of one adjustment, taken one after the other. */
  function AloneRun(members: Members, id: TxnId, q: Request): System {
    var ready := Next(Next(Idle(members), Begin(id, q)), TakeLock(id));
    Next(Next(Next(Next(ready, ReadMember(id)), CheckRules(id)), Flush(id)), Commit(id))
  }

  lemma AloneReads(members: Members, id: TxnId, q: Request)
    ensures var read := Next(Next(Next(Idle(members), Begin(id, q)), TakeLock(id)), ReadMember(id));
            && read.txns.Keys == {id} && read.members == members
            && (q.target !in members ==> read.lock == None && read.txns[id] == Txn(q, Ended(AloneOutcome(members, q))))
            && (q.target in members ==> read.lock == (if NeedsLock(q) then Some(id) else None)
                                        && read.txns[id] == Txn(q, HasRead(members[q.target])))
  {
    var ready := Next(Next(Idle(members), Begin(id, q)), TakeLock(id));
    assert ready.members == members && ready.txns.Keys == {id};
    assert ready.txns[id] == Txn(q, if NeedsLock(q) then Locked else Begun);
    assert ready.lock == if NeedsLock(q) then Some(id) else None;
  }

  /** Run alone, the steps of one adjustment do what the service method does. */
  lemma AloneIsOneRun(members: Members, id: TxnId, q: Request)
    ensures AloneRun(members, id, q)
            == System(AloneMembers(members, q), None, map[id := Txn(q, Ended(AloneOutcome(members, q)))])
  {
    AloneReads(members, id, q);
    var read := Next(Next(Next(Idle(members), Begin(id, q)), TakeLock(id)), ReadMember(id));
    if q.target in members {
      var seen := members[q.target];
      assert read.txns[id] == Txn(q, HasRead(seen));
      var checked := Next(read, CheckRules(id));
      assert checked.txns.Keys == {id} && checked.members == members;
      if AloneOutcome(members, q) == Updated {
        assert checked.txns[id] == Txn(q, Cleared(seen)) && checked.lock == read.lock;
        var flushed := Next(checked, Flush(id));
        assert flushed.txns.Keys == {id} && flushed.txns[id] == Txn(q, Flushed(seen));
        assert Written(q, seen, seen) == Member(NextRole(q, seen), NextStatus(q, seen));
      }
    }
  }
}
