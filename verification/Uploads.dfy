/**
 * The in-flight upload limit of `app/uploads.py`: a process-wide semaphore, a semaphore per user
 * kept in a registry only while it is needed, and a lease released at most once.
 *
 * A request waits at two points and may be cancelled or time out at either. Between two waits its
 * code runs atomically, so the system is a step relation over requests in stages. `S` is the type
 * of references to user slots: a waiting request keeps the reference it found on arrival, while
 * the registry may in principle have moved on; the invariant says it never has.
 */
module Uploads {
  import opened Wrappers

  type User = string

  type RequestId = nat

  datatype Stage<S> =
    | AwaitingUser(slot: S)
    | AwaitingProcess(slot: S)
    | Holding
    | Gone

  datatype Request<S> = Request(user: User, stage: Stage<S>)

  /** A user's slot: free permits of its semaphore, and the requests that hold or await them. */
  datatype Slot = Slot(permits: int, requests: int)

  datatype System<S> = System(
    maxSlots: nat, perUser: nat, free: int,
    users: map<User, S>, slots: map<S, Slot>, requests: map<RequestId, Request<S>>)

  datatype Step<S> =
    | Arrive(id: RequestId, user: User, spare: S)
    | TakeUser(id: RequestId)
    | TakeProcess(id: RequestId)
    | GiveUp(id: RequestId)
    | Release(id: RequestId)

  function Moved<S>(s: System<S>, id: RequestId, stage: Stage<S>): System<S>
    requires id in s.requests
  {
    s.(requests := s.requests[id := s.requests[id].(stage := stage)])
  }

  /** Add to a slot's free permits; None stands for a reference to no slot. */
  function Permits<S>(s: System<S>, slot: S, delta: int): Option<System<S>> {
    if slot in s.slots
    then Some(s.(slots := s.slots[slot := s.slots[slot].(permits := s.slots[slot].permits + delta)]))
    else None
  }

  /** One request less for the user; None stands for the KeyError of an unregistered user. */
  function Left<S>(s: System<S>, user: User): Option<System<S>> {
    if user !in s.users || s.users[user] !in s.slots then None else
    var slot := s.users[user];
    var requests := s.slots[slot].requests - 1;
    var s' := s.(slots := s.slots[slot := s.slots[slot].(requests := requests)]);
    Some(if requests == 0 then s'.(users := s'.users - {user}) else s')
  }

  predicate Enabled<S>(s: System<S>, step: Step<S>) {
    match step
    case Arrive(id, user, spare) => id !in s.requests && (user !in s.users ==> spare !in s.slots)
    case TakeUser(id) =>
      && id in s.requests && s.requests[id].stage.AwaitingUser?
      && s.requests[id].stage.slot in s.slots && s.slots[s.requests[id].stage.slot].permits > 0
    case TakeProcess(id) => id in s.requests && s.requests[id].stage.AwaitingProcess? && s.free > 0
    case GiveUp(id) =>
      id in s.requests && (s.requests[id].stage.AwaitingUser? || s.requests[id].stage.AwaitingProcess?)
    case Release(id) => id in s.requests && (s.requests[id].stage.Holding? || s.requests[id].stage.Gone?)
  }

  /** One atomic piece of the code; None if it would fail on a missing record. */
  function Next<S>(s: System<S>, step: Step<S>): Option<System<S>>
    requires Enabled(s, step)
  {
    match step
    case Arrive(id, user, spare) =>
      var known := user in s.users;
      var slot := if known then s.users[user] else spare;
      if known && slot !in s.slots then None
      else
        var found := if known then s.slots[slot] else Slot(s.perUser, 0);
        Some(s.(users := s.users[user := slot],
                slots := s.slots[slot := found.(requests := found.requests + 1)],
                requests := s.requests[id := Request(user, AwaitingUser(slot))]))
    case TakeUser(id) =>
      var slot := s.requests[id].stage.slot;
      Permits(Moved(s, id, AwaitingProcess(slot)), slot, -1)
    case TakeProcess(id) => Some(Moved(s, id, Holding).(free := s.free - 1))
    case GiveUp(id) =>
      var r := s.requests[id];
      var gone := Moved(s, id, Gone);
      var back := if r.stage.AwaitingProcess? then Permits(gone, r.stage.slot, 1) else Some(gone);
      if back.None? then None else Left(back.value, r.user)
    case Release(id) =>
      var r := s.requests[id];
      if r.stage.Gone? then Some(s)
      else if r.user !in s.users then None
      else
        var back := Permits(Moved(s, id, Gone).(free := s.free + 1), s.users[r.user], 1);
        if back.None? then None else Left(back.value, r.user)
  }

  // ---------------------------------------------------------------- counting requests

  predicate IsAt<S>(r: Request<S>, user: User, place: int) {
    r.user == user && match r.stage
                      case AwaitingUser(_) => place == 1
                      case AwaitingProcess(_) => place == 2
                      case Holding => place == 3
                      case Gone => false
  }

  ghost function IdsAt<S>(requests: map<RequestId, Request<S>>, user: User, place: int): set<RequestId> {
    set id | id in requests && IsAt(requests[id], user, place)
  }

  predicate Holds<S>(r: Request<S>) {
    r.stage.Holding?
  }

  ghost function HeldIds<S>(requests: map<RequestId, Request<S>>): set<RequestId> {
    set id | id in requests && Holds(requests[id])
  }

  /** How many requests of `user` await their own slot (1), await the process (2), or hold (3). */
  ghost function At<S>(requests: map<RequestId, Request<S>>, user: User, place: int): nat {
    |IdsAt(requests, user, place)|
  }

  lemma SizeMoves(before: set<RequestId>, after: set<RequestId>, id: RequestId)
    requires forall i :: i != id ==> (i in before <==> i in after)
    ensures |after| == |before| - (if id in before then 1 else 0) + (if id in after then 1 else 0)
  {
    assert after == if id in after then (before - {id}) + {id} else before - {id};
  }

  lemma AtMoves<S>(requests: map<RequestId, Request<S>>, id: RequestId, r: Request<S>, user: User, place: int)
    ensures At(requests[id := r], user, place)
            == At(requests, user, place)
               - (if id in requests && IsAt(requests[id], user, place) then 1 else 0)
               + (if IsAt(r, user, place) then 1 else 0)
  {
    SizeMoves(IdsAt(requests, user, place), IdsAt(requests[id := r], user, place), id);
  }

  lemma HeldMoves<S>(requests: map<RequestId, Request<S>>, id: RequestId, r: Request<S>)
    ensures |HeldIds(requests[id := r])|
            == |HeldIds(requests)| - (if id in requests && Holds(requests[id]) then 1 else 0)
               + (if Holds(r) then 1 else 0)
  {
    SizeMoves(HeldIds(requests), HeldIds(requests[id := r]), id);
  }

  ghost function Waiting<S>(s: System<S>, user: User): nat {
    At(s.requests, user, 1) + At(s.requests, user, 2) + At(s.requests, user, 3)
  }

  // ---------------------------------------------------------------- conservation

  /** The books of one user: no permit is lost, and the record counts that user's requests. */
  ghost predicate UserBooks<S>(s: System<S>, user: User) {
    && (user in s.users <==> Waiting(s, user) > 0)
    && (user in s.users ==>
          && s.users[user] in s.slots
          && s.slots[s.users[user]].permits >= 0
          && s.slots[s.users[user]].permits + At(s.requests, user, 2) + At(s.requests, user, 3) == s.perUser
          && s.slots[s.users[user]].requests == Waiting(s, user))
  }

  ghost predicate Sound<S>(s: System<S>) {
    && s.free >= 0 && s.free + |HeldIds(s.requests)| == s.maxSlots
    && (forall user :: UserBooks(s, user))
    && (forall u :: u in s.users ==> s.users[u] in s.slots)
    && (forall u, v :: u in s.users && v in s.users && s.users[u] == s.users[v] ==> u == v)
    // The reference a waiting request keeps is the registered one.
    && (forall id :: id in s.requests ==> KeepsRegistered(s, s.requests[id]))
  }

  predicate KeepsRegistered<S(==)>(s: System<S>, r: Request<S>) {
    (r.stage.AwaitingUser? || r.stage.AwaitingProcess?) ==> r.user in s.users && s.users[r.user] == r.stage.slot
  }

  lemma ActiveIsRegistered<S>(s: System<S>, id: RequestId)
    requires Sound(s) && id in s.requests && !s.requests[id].stage.Gone?
    ensures s.requests[id].user in s.users
  {
    var r := s.requests[id];
    assert UserBooks(s, r.user);
    var place := match r.stage case AwaitingUser(_) => 1 case AwaitingProcess(_) => 2 case _ => 3;
    assert id in IdsAt(s.requests, r.user, place);
  }

  /** One request moves to `r`: what that does to the three counts of a user. */
  lemma CountsMove<S>(requests: map<RequestId, Request<S>>, id: RequestId, r: Request<S>, user: User)
    ensures forall place :: At(requests[id := r], user, place)
              == At(requests, user, place)
                 - (if id in requests && IsAt(requests[id], user, place) then 1 else 0)
                 + (if IsAt(r, user, place) then 1 else 0)
  {
    forall place {
      AtMoves(requests, id, r, user, place);
    }
  }

  /** A step of another user's request leaves a user's books alone. */
  lemma OthersKeepBooks<S>(s: System<S>, s': System<S>, id: RequestId, user: User)
    requires UserBooks(s, user) && id in s'.requests && s'.requests == s.requests[id := s'.requests[id]]
    requires s'.requests[id].user != user && (id in s.requests ==> s.requests[id].user != user)
    requires s'.perUser == s.perUser && (user in s'.users <==> user in s.users)
    requires user in s.users ==>
               && s'.users[user] == s.users[user] && s.users[user] in s'.slots
               && s'.slots[s.users[user]] == s.slots[s.users[user]]
    ensures UserBooks(s', user)
  {
    CountsMove(s.requests, id, s'.requests[id], user);
  }

  /** The user whose request moves keeps its books, whatever the step. */
  lemma OwnArrive<S>(s: System<S>, step: Step<S>)
    requires Sound(s) && Enabled(s, step) && step.Arrive?
    ensures Next(s, step).Some?
    ensures var s' := Next(s, step).value; UserBooks(s', s'.requests[step.id].user)
  {
    var user := step.user;
    assert UserBooks(s, user);
    CountsMove(s.requests, step.id, Next(s, step).value.requests[step.id], user);
  }

  lemma OwnTake<S>(s: System<S>, step: Step<S>)
    requires Sound(s) && Enabled(s, step) && (step.TakeUser? || step.TakeProcess?)
    ensures Next(s, step).Some?
    ensures var s' := Next(s, step).value; UserBooks(s', s'.requests[step.id].user)
  {
    var user := s.requests[step.id].user;
    assert UserBooks(s, user);
    ActiveIsRegistered(s, step.id);
    assert KeepsRegistered(s, s.requests[step.id]);
    CountsMove(s.requests, step.id, Next(s, step).value.requests[step.id], user);
  }

  lemma OwnLeave<S>(s: System<S>, step: Step<S>)
    requires Sound(s) && Enabled(s, step) && (step.GiveUp? || (step.Release? && s.requests[step.id].stage.Holding?))
    ensures Next(s, step).Some?
    ensures var s' := Next(s, step).value; UserBooks(s', s'.requests[step.id].user)
  {
    var user := s.requests[step.id].user;
    assert UserBooks(s, user);
    ActiveIsRegistered(s, step.id);
    assert KeepsRegistered(s, s.requests[step.id]);
    CountsMove(s.requests, step.id, s.requests[step.id].(stage := Gone), user);
  }

  lemma OwnBooks<S>(s: System<S>, step: Step<S>)
    requires Sound(s) && Enabled(s, step) && (step.Release? ==> s.requests[step.id].stage.Holding?)
    ensures Next(s, step).Some?
    ensures var s' := Next(s, step).value; UserBooks(s', s'.requests[step.id].user)
  {
    match step
    case Arrive(_, _, _) => OwnArrive(s, step);
    case TakeUser(_) => OwnTake(s, step);
    case TakeProcess(_) => OwnTake(s, step);
    case GiveUp(_) => OwnLeave(s, step);
    case Release(_) => OwnLeave(s, step);
  }

  lemma OthersBooks<S>(s: System<S>, step: Step<S>, user: User)
    requires Sound(s) && Enabled(s, step) && Next(s, step).Some?
    requires var s' := Next(s, step).value; s'.requests[step.id].user != user
    ensures UserBooks(Next(s, step).value, user)
  {
    var s' := Next(s, step).value;
    assert s'.requests == s.requests[step.id := s'.requests[step.id]];
    assert UserBooks(s, user) && UserBooks(s, s'.requests[step.id].user);
    OthersKeepBooks(s, s', step.id, user);
  }

  /** The process-wide permits and holders still add up. */
  lemma ProcessBooks<S>(s: System<S>, step: Step<S>)
    requires Sound(s) && Enabled(s, step) && Next(s, step).Some?
    ensures var s' := Next(s, step).value; s'.free >= 0 && s'.free + |HeldIds(s'.requests)| == s'.maxSlots
  {
    var s' := Next(s, step).value;
    assert s'.requests == s.requests[step.id := s'.requests[step.id]];
    HeldMoves(s.requests, step.id, s'.requests[step.id]);
  }

  /** Every enabled step runs without a missing record and keeps the books. */
  lemma StepKeepsBooks<S>(s: System<S>, step: Step<S>)
    requires Sound(s) && Enabled(s, step)
    ensures Next(s, step).Some? && Sound(Next(s, step).value)
  {
    if !(step.Release? && s.requests[step.id].stage.Gone?) {
      OwnBooks(s, step);
      var s' := Next(s, step).value;
      var own := s'.requests[step.id].user;
      ProcessBooks(s, step);
      forall user | user != own
        ensures UserBooks(s', user)
      {
        OthersBooks(s, step, user);
      }
      StepKeepsRegistry(s, step);
    }
  }

  lemma StepKeepsRegistry<S>(s: System<S>, step: Step<S>)
    requires Sound(s) && Enabled(s, step) && Next(s, step).Some?
    requires step.Release? ==> s.requests[step.id].stage.Holding?
    requires var s' := Next(s, step).value; UserBooks(s', s'.requests[step.id].user)
    ensures var s' := Next(s, step).value;
            && (forall u :: u in s'.users ==> s'.users[u] in s'.slots)
            && (forall u, v :: u in s'.users && v in s'.users && s'.users[u] == s'.users[v] ==> u == v)
            && (forall id :: id in s'.requests ==> KeepsRegistered(s', s'.requests[id]))
  {
    var s' := Next(s, step).value;
    var own := s'.requests[step.id].user;
    forall id | id in s'.requests
      ensures KeepsRegistered(s', s'.requests[id])
    {
      var r := s'.requests[id];
      if r.stage.AwaitingUser? || r.stage.AwaitingProcess? {
        assert id in IdsAt(s'.requests, r.user, if r.stage.AwaitingUser? then 1 else 2);
        if id != step.id {
          assert KeepsRegistered(s, s.requests[id]);
        }
      }
    }
  }

  // ---------------------------------------------------------------- whole runs

  function Opened<S>(maxSlots: nat, perUser: nat): System<S> {
    System(maxSlots, perUser, maxSlots, map[], map[], map[])
  }

  /** The state after a run, skipping steps that are not enabled; None if a step failed. */
  function Run<S>(s: System<S>, steps: seq<Step<S>>): Option<System<S>>
    decreases steps
  {
    if steps == [] then Some(s)
    else if !Enabled(s, steps[0]) then Run(s, steps[1..])
    else
      var next := Next(s, steps[0]);
      if next.None? then None else Run(next.value, steps[1..])
  }

  lemma {:induction false} RunKeepsBooks<S>(s: System<S>, steps: seq<Step<S>>)
    requires Sound(s)
    ensures Run(s, steps).Some? && Sound(Run(s, steps).value)
    ensures Run(s, steps).value.maxSlots == s.maxSlots && Run(s, steps).value.perUser == s.perUser
    decreases steps
  {
    if steps != [] {
      if Enabled(s, steps[0]) {
        StepKeepsBooks(s, steps[0]);
        RunKeepsBooks(Next(s, steps[0]).value, steps[1..]);
      } else {
        RunKeepsBooks(s, steps[1..]);
      }
    }
  }

  lemma OpenedIsSound<S>(maxSlots: nat, perUser: nat)
    ensures Sound<S>(Opened(maxSlots, perUser))
  {
    var s: System<S> := Opened(maxSlots, perUser);
    assert HeldIds(s.requests) == {};
    forall user
      ensures UserBooks(s, user)
    {
      assert IdsAt(s.requests, user, 1) == IdsAt(s.requests, user, 2) == IdsAt(s.requests, user, 3) == {};
    }
  }

  /**
   * In every reachable state, under any pattern of time-outs and cancellations: no step has
   * failed on a missing record, no permit is lost, and no more slots are held than allowed, in
   * all and per user.
   */
  lemma ReachableKeepsBooks<S>(maxSlots: nat, perUser: nat, steps: seq<Step<S>>)
    ensures var r := Run(Opened(maxSlots, perUser), steps);
            && r.Some? && Sound(r.value)
            && |HeldIds(r.value.requests)| <= maxSlots
            && forall user :: At(r.value.requests, user, 3) <= perUser
  {
    OpenedIsSound<S>(maxSlots, perUser);
    RunKeepsBooks(Opened(maxSlots, perUser), steps);
    var s := Run(Opened(maxSlots, perUser), steps).value;
    forall user
      ensures At(s.requests, user, 3) <= perUser
    {
      assert UserBooks(s, user);
    }
  }

  /** When every request has ended, the registry is empty and every process slot is free again. */
  lemma QuiescenceRestores<S>(s: System<S>)
    requires Sound(s) && forall id :: id in s.requests ==> s.requests[id].stage.Gone?
    ensures s.users == map[] && s.free == s.maxSlots
  {
    assert HeldIds(s.requests) == {};
    forall user
      ensures user !in s.users
    {
      assert UserBooks(s, user);
      assert IdsAt(s.requests, user, 1) == IdsAt(s.requests, user, 2) == IdsAt(s.requests, user, 3) == {};
    }
  }

  /** Releasing a lease again changes nothing. */
  lemma DoubleReleaseHarmless<S>(s: System<S>, id: RequestId)
    requires Sound(s) && Enabled(s, Release(id))
    ensures var once := Next(s, Release(id));
            once.Some? && Enabled(once.value, Release(id)) && Next(once.value, Release(id)) == once
  {
    StepKeepsBooks(s, Release(id));
  }

  /** Nobody waits for nothing: a waiting request means somebody can move on or is holding a slot. */
  lemma WaitersAreServed<S>(s: System<S>, id: RequestId)
    requires Sound(s) && s.maxSlots >= 1 && s.perUser >= 1
    requires id in s.requests && (s.requests[id].stage.AwaitingUser? || s.requests[id].stage.AwaitingProcess?)
    ensures exists other :: other in s.requests &&
              (s.requests[other].stage.Holding? || Enabled(s, TakeUser(other)) || Enabled(s, TakeProcess(other)))
  {
    if s.free == 0 {
      var holder :| holder in HeldIds(s.requests);
    } else if s.requests[id].stage.AwaitingUser? && !Enabled(s, TakeUser(id)) {
      var user := s.requests[id].user;
      assert KeepsRegistered(s, s.requests[id]) && UserBooks(s, user);
      var other :| other in IdsAt(s.requests, user, 2) + IdsAt(s.requests, user, 3);
      assert s.requests[other].stage.Holding? || Enabled(s, TakeProcess(other));
    } else if s.requests[id].stage.AwaitingProcess? {
      assert Enabled(s, TakeProcess(id));
    }
  }

  // ---------------------------------------------------------------- the code's own objects

  /** One user's upload slots plus how many requests hold or await them. */
  class UserSlot {
    var permits: int
    var requests: int

    constructor (permits: int)
      ensures this.permits == permits && requests == 0
    {
      this.permits, requests := permits, 0;
    }
  }

  /** The limit itself; what is ghost tells which request is where, for the contracts. */
  class UploadSlots {
    const maxSlots: nat
    const perUser: nat
    var free: int
    var users: map<User, UserSlot>
    ghost var known: set<UserSlot>
    ghost var requests: map<RequestId, Request<UserSlot>>

    ghost function State(): System<UserSlot>
      reads this, known
    {
      System(maxSlots, perUser, free, users, map s | s in known :: Slot(s.permits, s.requests), requests)
    }

    constructor (maxSlots: nat, perUser: nat)
      ensures State() == Opened(maxSlots, perUser) && Sound(State())
    {
      this.maxSlots, this.perUser := maxSlots, perUser;
      free, users, known, requests := maxSlots, map[], {}, map[];
      new;
      OpenedIsSound<UserSlot>(maxSlots, perUser);
    }

    /** Up to the first wait: find or create the user's slot and join it. */
    method Arrive(ghost id: RequestId, user: User) returns (slot: UserSlot)
      requires Sound(State()) && id !in requests
      modifies this, known
      ensures Enabled(old(State()), Step.Arrive(id, user, slot))
      ensures Some(State()) == Next(old(State()), Step.Arrive(id, user, slot)) && Sound(State())
      ensures known == old(known) + {slot} && (slot in old(known) || fresh(slot))
    {
      assert user in State().users ==> State().users[user] in State().slots;
      if user in users {
        slot := users[user];
      } else {
        slot := new UserSlot(perUser);
        users := users[user := slot];
        known := known + {slot};
      }
      slot.requests := slot.requests + 1;
      requests := requests[id := Request(user, AwaitingUser(slot))];
      assert users == old(users)[user := slot];
      assert State().slots == Next(old(State()), Step.Arrive(id, user, slot)).value.slots;
      StepKeepsBooks(old(State()), Step.Arrive(id, user, slot));
    }

    /** The wait for the user's semaphore ends with a permit. */
    method TakeUser(ghost id: RequestId, slot: UserSlot)
      requires Sound(State()) && Enabled(State(), Step.TakeUser(id)) && requests[id].stage.slot == slot
      modifies this`requests, slot
      ensures Some(State()) == Next(old(State()), Step.TakeUser(id)) && Sound(State())
    {
      slot.permits := slot.permits - 1;
      requests := requests[id := requests[id].(stage := AwaitingProcess(slot))];
      assert State().slots == Next(old(State()), Step.TakeUser(id)).value.slots;
      StepKeepsBooks(old(State()), Step.TakeUser(id));
    }

    /** The wait for the process semaphore ends with a permit: the slot is held. */
    method TakeProcess(ghost id: RequestId)
      requires Sound(State()) && Enabled(State(), Step.TakeProcess(id))
      modifies this`free, this`requests
      ensures Some(State()) == Next(old(State()), Step.TakeProcess(id)) && Sound(State())
    {
      free := free - 1;
      requests := requests[id := requests[id].(stage := Holding)];
      assert State().slots == old(State()).slots;
      StepKeepsBooks(old(State()), Step.TakeProcess(id));
    }

    /** A time-out or cancellation during a wait rolls back what the request took. */
    method GiveUp(ghost id: RequestId, user: User, slot: UserSlot, hasUserPermit: bool)
      requires Sound(State()) && Enabled(State(), Step.GiveUp(id)) && slot in known
      requires requests[id] == Request(user, if hasUserPermit then AwaitingProcess(slot) else AwaitingUser(slot))
      modifies this, known
      ensures Some(State()) == Next(old(State()), Step.GiveUp(id)) && Sound(State())
      ensures known == old(known)
    {
      StepKeepsBooks(State(), Step.GiveUp(id));
      ghost var before := State();
      if hasUserPermit {
        slot.permits := slot.permits + 1;
      }
      requests := requests[id := Request(user, Gone)];
      assert State().slots == if hasUserPermit
        then before.slots[slot := before.slots[slot].(permits := before.slots[slot].permits + 1)] else before.slots;
      Leave(user);
    }

    /** Give back both permits of a held slot. */
    method ReleaseSlot(ghost id: RequestId, user: User)
      requires Sound(State()) && id in requests && requests[id] == Request(user, Holding)
      modifies this, known
      ensures Some(State()) == Next(old(State()), Step.Release(id)) && Sound(State())
      ensures known == old(known)
    {
      StepKeepsBooks(State(), Step.Release(id));
      ActiveIsRegistered(State(), id);
      ghost var before, slot := State(), users[user];
      free := free + 1;
      users[user].permits := users[user].permits + 1;
      requests := requests[id := Request(user, Gone)];
      assert State().slots
          == before.slots[slot := before.slots[slot].(permits := before.slots[slot].permits + 1)];
      Leave(user);
    }

    /** One request less for the user; the last one takes the record with it. */
    method Leave(user: User)
      requires user in users && users[user] in known
      modifies this`users, users[user]
      ensures Some(State()) == Left(old(State()), user)
    {
      var slot := users[user];
      slot.requests := slot.requests - 1;
      if slot.requests == 0 {
        users := users - {user};
      }
      assert State().slots == Left(old(State()), user).value.slots;
    }
  }

  /** One held slot; whoever ends the request first releases it exactly once. */
  class Lease {
    const slots: UploadSlots
    const user: User
    ghost const id: RequestId
    var isReleased: bool

    ghost predicate Valid()
      reads this, slots, slots.known
    {
      && Sound(slots.State()) && id in slots.requests
      && slots.requests[id] == Request(user, if isReleased then Gone else Holding)
    }

    constructor (slots: UploadSlots, user: User, ghost id: RequestId)
      requires Sound(slots.State()) && id in slots.requests && slots.requests[id] == Request(user, Holding)
      ensures Valid() && this.slots == slots && this.user == user && this.id == id && !isReleased
    {
      this.slots, this.user, this.id, isReleased := slots, user, id, false;
    }

    method Release()
      requires Valid()
      modifies this, slots, slots.known
      ensures Valid() && isReleased
      ensures Some(slots.State()) == Next(old(slots.State()), Step.Release(id))
    {
      if isReleased {
        return;
      }
      isReleased := true;
      slots.ReleaseSlot(id, user);
    }
  }
}
