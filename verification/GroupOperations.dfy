/** Exactly when each operation on a group takes effect, and what the group is afterwards.

    The operations decide by guards one after the other, build events, and apply them. Here stands the other
    view: one condition on the state and the request for each operation, and the state that results, over
    every run of local operations and inbound events.
 */
module GroupOperations {
  import opened Text
  import opened GroupModel
  import opened GroupPlans
  import opened GroupService
  import opened GroupRuns
  import opened GroupPolicies
  import opened GroupAuthority

  // ---------------------------------------------------------------- who may do what

  predicate Manages(s: State, id: string)
  {
    id in s.members && s.members[id].status == Active && s.members[id].role in {Owner, Admin}
  }

  predicate Owns(s: State, id: string)
  {
    id in s.members && s.members[id].status == Active && s.members[id].role == Owner
  }

  predicate HasStatus(s: State, id: string, statuses: set<Status>)
  {
    id in s.members && s.members[id].status in statuses
  }

  function WithStatus(s: State, statuses: set<Status>): set<string>
  {
    set id | id in s.members && s.members[id].status in statuses
  }

  predicate WithinLimits(s: State, limits: Limits)
  {
    && |WithStatus(s, {Active, Invited})| < limits.maxMembers
    && |WithStatus(s, {Invited})| < limits.maxPendingInvites
  }

  /** What the requests that change a live group ask for is permitted: managers invite, remove and edit the
      profile, owners change roles; owners are neither removed nor demoted; the rest is up to the member. */
  predicate Permitted(s: State, op: Op)
  {
    match op
    case Invite(_, actor, member, _, blocked, allowed, limits, _) =>
      && Manages(s, TrimSpace(actor)) && TrimSpace(member) != "" && !blocked
      && !HasStatus(s, TrimSpace(member), {Active, Invited})
      && (limits.Some? ==> allowed && WithinLimits(s, limits.value))
    case Leave(_, actor, _, allowed, _, _) => allowed && HasStatus(s, TrimSpace(actor), {Active, Invited})
    case Accept(_, actor, _, allowed, _, _) => allowed && HasStatus(s, TrimSpace(actor), {Invited})
    case Decline(_, actor, _, allowed, _, _) => allowed && HasStatus(s, TrimSpace(actor), {Invited})
    case RemoveMember(_, actor, member, _, allowed, _, _) =>
      && allowed && Manages(s, TrimSpace(actor)) && HasStatus(s, TrimSpace(member), {Active, Invited, Left})
      && s.members[TrimSpace(member)].role != Owner
    case ChangeRole(_, actor, member, role, _, allowed, _) =>
      && allowed && Owns(s, TrimSpace(actor)) && HasStatus(s, TrimSpace(member), {Active, Invited})
      && s.members[TrimSpace(member)].role !in {Owner, role} && role != UnknownRole
    case UpdateProfile(_, actor, title, description, avatar, _, allowed, _) =>
      && allowed && Manages(s, TrimSpace(actor)) && TrimSpace(title) != ""
      && !(s.group.title == TrimSpace(title) && s.group.description == TrimSpace(description)
           && s.group.avatar == TrimSpace(avatar))
    case _ => false
  }

  /** The entry of the member concerned afterwards. */
  function NewEntry(s: State, op: Op): Member
    requires ChangesMember(op) && Permitted(s, op)
  {
    match op
    case Invite(_, _, member, now, _, _, _, _) =>
      Member(s.group.id, TrimSpace(member), User, Invited, now, ZERO_TIME, now)
    case Leave(_, actor, now, _, _, _) => s.members[TrimSpace(actor)].(status := Left, updatedAt := now)
    case Accept(_, actor, now, _, _, _) =>
      s.members[TrimSpace(actor)].(status := Active, activatedAt := now, updatedAt := now)
    case Decline(_, actor, now, _, _, _) => s.members[TrimSpace(actor)].(status := Removed, updatedAt := now)
    case RemoveMember(_, _, member, now, _, _, _) => s.members[TrimSpace(member)].(status := Removed, updatedAt := now)
    case ChangeRole(_, _, member, role, now, _, _) => s.members[TrimSpace(member)].(role := role, updatedAt := now)
  }

  /** The group afterwards, but for the events it knows and the key version. */
  function Edited(s: State, op: Op): State
    requires Permitted(s, op)
  {
    if op.UpdateProfile?
    then s.(group := s.group.(title := TrimSpace(op.title), description := TrimSpace(op.description),
                              avatar := TrimSpace(op.avatar), updatedAt := op.now))
    else s.(members := s.members[Subject(op) := NewEntry(s, op)])
  }

  /** The change is recorded; one that lets somebody in or out comes with a new key. */
  function Noted(t: State, op: Op): State
    requires ChangesMember(op) || op.UpdateProfile?
  {
    if Rotates(op)
    then t.(version := (t.version + 2) % U64_MOD, applied := t.applied + {op.eventID} + {op.rotateID},
            lastKeyVersion := (t.lastKeyVersion + 1) % U32_MOD, group := t.group.(updatedAt := op.now))
    else t.(version := (t.version + 1) % U64_MOD, applied := t.applied + {op.eventID})
  }

  /** The ids, the time and the next version the change is recorded with are in order. */
  predicate Recordable(s: State, op: Op)
    requires ChangesMember(op) || op.UpdateProfile?
  {
    !Blank(op.eventID) && op.eventID !in s.applied && s.version + 1 < U64_MOD && op.now != ZERO_TIME
  }

  // ---------------------------------------------------------------- local operations

  /** What a plan makes of a state when it can be persisted. */
  function Result(s: State, plan: Plan): State
  {
    if plan.Batch? then RunBatch(s, plan.events).state else s
  }

  /** What an operation makes of a state. */
  function Expected(s: State, op: Op): State
    requires ChangesMember(op) || op.UpdateProfile?
  {
    if Permitted(s, op) && Recordable(s, op) then Noted(Edited(s, op), op) else s
  }

  lemma EventApplies(g: string, s: State, e: Event, op: Op)
    requires GoodMembers(g, s) && !Blank(g) && (ChangesMember(op) || op.UpdateProfile?)
    requires e.id == op.eventID && e.groupID == s.group.id && e.version == (s.version + 1) % U64_MOD
    requires e.occurredAt == op.now && !Blank(e.actorID)
    requires match e.kind
             case MemberAdd => !Blank(e.memberID) && e.role != UnknownRole
             case MemberRemove => !Blank(e.memberID)
             case MemberLeave => !Blank(e.memberID)
             case ProfileChange => !Blank(e.title)
             case _ => false
    ensures Apply(s, e).Changed? <==> Recordable(s, op)
  {
  }

  lemma AppliedIs(s: State, e: Event)
    requires Apply(s, e).Changed?
    ensures Apply(s, e).state == Effect(s, e).(version := e.version, applied := s.applied + {e.id})
    ensures e.kind in {MemberAdd, MemberRemove, MemberLeave} ==>
              Effect(s, e) == s.(members := Effect(s, e).members)
    ensures e.kind == KeyRotate ==>
              Effect(s, e) == s.(lastKeyVersion := e.keyVersion, group := s.group.(updatedAt := e.occurredAt))
  {
  }

  lemma NotedIs(e: State, t: State, u: State, op: Op)
    requires Rotates(op) && e.lastKeyVersion + 1 < U32_MOD && e.version + 2 < U64_MOD
    requires t == e.(version := e.version + 1, applied := e.applied + {op.eventID})
    requires u == t.(lastKeyVersion := e.lastKeyVersion + 1, group := t.group.(updatedAt := op.now),
                     version := e.version + 2, applied := t.applied + {op.rotateID})
    ensures u == Noted(e, op)
  {
  }

  lemma PairGives(s: State, change: Event, op: Op)
    requires Rotates(op) && RotationFits(s, op.eventID, op.rotateID)
    requires change.id == op.eventID && change.version == (s.version + 1) % U64_MOD && change.occurredAt == op.now
    requires change.kind in {MemberAdd, MemberRemove, MemberLeave}
    ensures Result(s, WithRotation(s, change, op.rotateID))
         == if Apply(s, change).Changed? then Noted(Effect(s, change), op) else s
  {
    var rotate := RotateFor(s, change, op.rotateID);
    RunTwo(s, change, rotate);
    if Apply(s, change).Changed? {
      RotatedIs(s, change, rotate, op);
    }
  }

  lemma RotatedIs(s: State, change: Event, rotate: Event, op: Op)
    requires Rotates(op) && RotationFits(s, op.eventID, op.rotateID) && rotate == RotateFor(s, change, op.rotateID)
    requires change.id == op.eventID && change.version == (s.version + 1) % U64_MOD && change.occurredAt == op.now
    requires change.kind in {MemberAdd, MemberRemove, MemberLeave} && Apply(s, change).Changed?
    ensures Apply(Apply(s, change).state, rotate) == Changed(Noted(Effect(s, change), op))
  {
    RotationApplies(s, change, op.rotateID);
    AppliedIs(s, change);
    AppliedIs(Apply(s, change).state, rotate);
    NotedIs(Effect(s, change), Apply(s, change).state, Apply(Apply(s, change).state, rotate).state, op);
  }

  lemma SingleGives(s: State, e: Event, op: Op)
    requires !Rotates(op) && (ChangesMember(op) || op.UpdateProfile?)
    requires e.id == op.eventID && e.version == (s.version + 1) % U64_MOD
    ensures Result(s, Batch([e])) == if Apply(s, e).Changed? then Noted(Effect(s, e), op) else s
  {
    RunOne(s, e);
  }

  lemma LeaveGives(g: string, s: State, op: Op)
    requires GoodMembers(g, s) && op.Leave? && TrimSpace(op.groupID') == g != ""
    requires RotationFits(s, op.eventID, op.rotateID)
    ensures Result(s, PlanLeave(Some(s), op)) == Expected(s, op)
  {
    TrimSpaceTrims(op.actorID);
    TrimSpaceTrims(op.groupID');
    var a := TrimSpace(op.actorID);
    if op.allowed && HasStatus(s, a, {Active, Invited}) {
      var change := MakeEvent(op.eventID, s, MemberLeave, a, op.now, a, UnknownRole);
      EventApplies(g, s, change, op);
      PairGives(s, change, op);
      assert Effect(s, change) == Edited(s, op);
    }
  }

  lemma AcceptGives(g: string, s: State, op: Op)
    requires GoodMembers(g, s) && op.Accept? && TrimSpace(op.groupID') == g != ""
    requires RotationFits(s, op.eventID, op.rotateID)
    ensures Result(s, PlanAccept(Some(s), op)) == Expected(s, op)
  {
    TrimSpaceTrims(op.actorID);
    TrimSpaceTrims(op.groupID');
    var a := TrimSpace(op.actorID);
    if op.allowed && HasStatus(s, a, {Invited}) {
      var change := MakeEvent(op.eventID, s, MemberAdd, a, op.now, a, s.members[a].role);
      EventApplies(g, s, change, op);
      PairGives(s, change, op);
      assert Effect(s, change) == Edited(s, op);
    }
  }

  lemma DeclineGives(g: string, s: State, op: Op)
    requires GoodMembers(g, s) && op.Decline? && TrimSpace(op.groupID') == g != ""
    requires RotationFits(s, op.eventID, op.rotateID)
    ensures Result(s, PlanDecline(Some(s), op)) == Expected(s, op)
  {
    TrimSpaceTrims(op.actorID);
    TrimSpaceTrims(op.groupID');
    var a := TrimSpace(op.actorID);
    if op.allowed && HasStatus(s, a, {Invited}) {
      var change := MakeEvent(op.eventID, s, MemberRemove, a, op.now, a, UnknownRole);
      EventApplies(g, s, change, op);
      PairGives(s, change, op);
      assert Effect(s, change) == Edited(s, op);
    }
  }

  lemma RemoveGives(g: string, s: State, op: Op)
    requires GoodMembers(g, s) && op.RemoveMember? && TrimSpace(op.groupID') == g != ""
    requires RotationFits(s, op.eventID, op.rotateID)
    ensures Result(s, PlanRemoveMember(Some(s), op)) == Expected(s, op)
  {
    TrimSpaceTrims(op.actorID);
    TrimSpaceTrims(op.memberID);
    TrimSpaceTrims(op.groupID');
    if Permitted(s, op) {
      var change := MakeEvent(op.eventID, s, MemberRemove, TrimSpace(op.actorID), op.now, TrimSpace(op.memberID),
                              UnknownRole);
      EventApplies(g, s, change, op);
      PairGives(s, change, op);
      assert Effect(s, change) == Edited(s, op);
    }
  }

  lemma LimitsAgree(s: State, limits: Option<Limits>)
    ensures QuotaError(limits, s).None? <==> (limits.Some? ==> WithinLimits(s, limits.value))
  {
    assert WithStatus(s, {Active, Invited}) == Occupying(s.members);
    assert WithStatus(s, {Invited}) == Pending(s.members);
  }

  lemma InviteGives(g: string, s: State, op: Op)
    requires GoodMembers(g, s) && op.Invite? && TrimSpace(op.groupID') == g != ""
    ensures Result(s, PlanInvite(Some(s), op)) == Expected(s, op)
  {
    TrimSpaceTrims(op.actorID);
    TrimSpaceTrims(op.memberID);
    TrimSpaceTrims(op.groupID');
    LimitsAgree(s, op.limits);
    if Permitted(s, op) {
      var e := MakeEvent(op.eventID, s, MemberAdd, TrimSpace(op.actorID), op.now, TrimSpace(op.memberID), User);
      EventApplies(g, s, e, op);
      SingleGives(s, e, op);
      assert Effect(s, e) == Edited(s, op);
    }
  }

  lemma ChangeRoleGives(g: string, s: State, op: Op)
    requires GoodMembers(g, s) && op.ChangeRole? && TrimSpace(op.groupID') == g != ""
    ensures Result(s, PlanChangeRole(Some(s), op)) == Expected(s, op)
  {
    TrimSpaceTrims(op.actorID);
    TrimSpaceTrims(op.memberID);
    TrimSpaceTrims(op.groupID');
    var e := MakeEvent(op.eventID, s, MemberAdd, TrimSpace(op.actorID), op.now, TrimSpace(op.memberID), op.role);
    SingleGives(s, e, op);
    if Permitted(s, op) {
      EventApplies(g, s, e, op);
      assert Effect(s, e) == Edited(s, op);
    }
  }

  lemma UpdateProfileGives(g: string, s: State, op: Op)
    requires GoodMembers(g, s) && op.UpdateProfile? && TrimSpace(op.groupID') == g != ""
    ensures Result(s, PlanUpdateProfile(Some(s), op)) == Expected(s, op)
  {
    TrimSpaceTrims(op.actorID);
    TrimSpaceTrims(op.title);
    TrimSpaceTrims(op.description);
    TrimSpaceTrims(op.avatar);
    TrimSpaceTrims(op.groupID');
    if Permitted(s, op) {
      var e := MakeEvent(op.eventID, s, ProfileChange, TrimSpace(op.actorID), op.now, "", UnknownRole)
        .(title := TrimSpace(op.title), description := TrimSpace(op.description), avatar := TrimSpace(op.avatar));
      EventApplies(g, s, e, op);
      SingleGives(s, e, op);
      assert Effect(s, e) == Edited(s, op);
    }
  }

  lemma PlanGives(g: string, s: State, op: Op, plan: Plan)
    requires GoodMembers(g, s) && (ChangesMember(op) || op.UpdateProfile?) && TrimSpace(op.groupID') == g != ""
    requires Rotates(op) ==> RotationFits(s, op.eventID, op.rotateID)
    requires plan == PlanOf(Some(s), op)
    ensures Result(s, plan) == Expected(s, op)
  {
    match op
    case Leave(_, _, _, _, _, _) => LeaveGives(g, s, op);
    case Accept(_, _, _, _, _, _) => AcceptGives(g, s, op);
    case Decline(_, _, _, _, _, _) => DeclineGives(g, s, op);
    case RemoveMember(_, _, _, _, _, _, _) => RemoveGives(g, s, op);
    case Invite(_, _, _, _, _, _, _, _) => InviteGives(g, s, op);
    case ChangeRole(_, _, _, _, _, _, _) => ChangeRoleGives(g, s, op);
    case UpdateProfile(_, _, _, _, _, _, _, _) => UpdateProfileGives(g, s, op);
  }

  lemma LiveGroupHasName(g: string, h: History)
    requires Recorded(g, h) && h.cell.state.Some?
    ensures !Blank(g) && GoodMembers(g, h.cell.state.value)
  {
    assert GoodEvent(g, h.cell.log.value[0]);
  }

  /** A stored group afterwards, if the operation does not delete it. */
  lemma StepGives(g: string, h: History, step: Step, plan: Plan)
    requires Recorded(g, h) && Admissible(g, h, step) && h.cell.state.Some? && plan == PlanOf(h.cell.state, step.op)
    requires !plan.Delete?
    ensures var s := h.cell.state.value;
            Next(h, step).cell.state == Some(if step.persistOk then Result(s, plan) else s)
  {
    PlanShape(h.cell.state, step.op, plan);
    if plan.Batch? {
      PlannedBatchIsWhole(h.cell.state.value, step.op, plan.events);
    }
  }

  // ---------------------------------------------------------------- over every run

  /** What is stored of the group after the first `k` steps. */
  function StoredAt(steps: seq<Step>, k: nat): Option<State>
    requires k <= |steps|
  {
    Run(NoGroup, steps[..k]).cell.state
  }

  /** Over every run mixing local operations and inbound events: a request to change members or profile of a
      stored group has exactly the effect prescribed if it is permitted, recordable and can be
      persisted, and none otherwise. */
  lemma EveryOperationGives(g: string, steps: seq<Step>, k: nat)
    requires AdmissibleRun(g, NoGroup, steps) && k < |steps| && StoredAt(steps, k).Some?
    requires ChangesMember(steps[k].op) || steps[k].op.UpdateProfile?
    ensures var s := StoredAt(steps, k).value;
            StoredAt(steps, k + 1) == Some(if steps[k].persistOk then Expected(s, steps[k].op) else s)
  {
    RecordedAt(g, steps, k);
    OperationGives(g, Run(NoGroup, steps[..k]), steps[k]);
  }

  lemma OperationGives(g: string, h: History, step: Step)
    requires Recorded(g, h) && Admissible(g, h, step) && h.cell.state.Some?
    requires ChangesMember(step.op) || step.op.UpdateProfile?
    ensures var s := h.cell.state.value;
            Next(h, step).cell.state == Some(if step.persistOk then Expected(s, step.op) else s)
  {
    var plan := PlanOf(h.cell.state, step.op);
    LiveGroupHasName(g, h);
    OnlyDeletionDeletes(h.cell.state.value, step.op);
    PlanGives(g, h.cell.state.value, step.op, plan);
    StepGives(g, h, step, plan);
  }

  // ---------------------------------------------------------------- beginning and end

  lemma OnlyDeletionDeletes(s: State, op: Op)
    ensures PlanOf(Some(s), op).Delete? <==>
            && op.DeleteGroup? && TrimSpace(op.groupID') != "" && op.allowed
            && TrimSpace(op.actorID) != "" && Owns(s, TrimSpace(op.actorID))
  {
    if op.DeleteGroup? {
      TrimSpaceTrims(op.actorID);
    }
  }

  lemma StepDeletesIff(g: string, h: History, step: Step)
    requires Recorded(g, h) && Admissible(g, h, step) && h.cell.state.Some?
    ensures Next(h, step).cell.state.None? <==>
            && step.op.DeleteGroup? && step.op.allowed && step.persistOk
            && Owns(h.cell.state.value, TrimSpace(step.op.actorID))
  {
    var s, plan := h.cell.state.value, PlanOf(h.cell.state, step.op);
    LiveGroupHasName(g, h);
    OnlyDeletionDeletes(s, step.op);
    if plan.Delete? {
    } else {
      StepGives(g, h, step, plan);
    }
    if step.op.DeleteGroup? && Owns(s, TrimSpace(step.op.actorID)) {
      assert GoodMember(g, TrimSpace(step.op.actorID), s.members[TrimSpace(step.op.actorID)]);
    }
  }

  /** Over every run mixing local operations and inbound events a stored group is deleted exactly by a request
      that the limiter lets through, that can be persisted, and whose actor is an active owner just
      before; state and log are both gone then. */
  lemma DeletedIff(g: string, steps: seq<Step>, k: nat)
    requires AdmissibleRun(g, NoGroup, steps) && k < |steps| && StoredAt(steps, k).Some?
    ensures StoredAt(steps, k + 1).None? <==>
            && steps[k].op.DeleteGroup? && steps[k].op.allowed && steps[k].persistOk
            && Owns(StoredAt(steps, k).value, TrimSpace(steps[k].op.actorID))
    ensures StoredAt(steps, k + 1).None? ==> Run(NoGroup, steps[..k + 1]).cell.log.None?
  {
    RecordedAt(g, steps, k);
    StepDeletesIff(g, Run(NoGroup, steps[..k]), steps[k]);
    RecordedAt(g, steps, k + 1);
  }

  predicate Founds(op: Op)
  {
    && op.CreateGroup? && op.groupID.Some? && !Blank(op.groupID.value)
    && TrimSpace(op.title) != "" && TrimSpace(op.identityID) != "" && !Blank(op.eventID) && op.now != ZERO_TIME
  }

  /** A new group: its founder is its only member, an active owner. */
  function Founded(op: Op): State
    requires Founds(op)
  {
    var g, id, now := op.groupID.value, TrimSpace(op.identityID), op.now;
    State(Group(g, TrimSpace(op.title), "", "", id, now, now), 1, {op.eventID},
          map[id := Member(g, id, Owner, Active, now, now, now)], 1)
  }

  lemma CreationGives(op: Op)
    requires op.CreateGroup?
    ensures if Founds(op) then PlanCreate(None, op).Create? && PlanCreate(None, op).state == Founded(op)
            else PlanCreate(None, op).Refuse?
  {
    TrimSpaceTrims(op.identityID);
    if op.groupID.Some? && op.groupID.value != "" {
      var id := TrimSpace(op.identityID);
      var s := NewState(Group(op.groupID.value, TrimSpace(op.title), "", "", id, op.now, op.now));
      var e := MakeEvent(op.eventID, s, MemberAdd, id, op.now, id, Owner);
      assert Apply(s, e).Changed? <==>
             !Blank(op.groupID.value) && !Blank(op.eventID) && op.now != ZERO_TIME && id != "";
      if Founds(op) {
        var owner := Member(op.groupID.value, id, Owner, Active, op.now, op.now, op.now);
        assert Apply(s, e).state.members[id := owner] == map[id := owner];
        assert Apply(s, e).state.applied == {op.eventID};
      }
    }
  }

  /** A group that is not stored comes into being exactly by its creation. */
  lemma CreatedIff(g: string, steps: seq<Step>, k: nat)
    requires AdmissibleRun(g, NoGroup, steps) && k < |steps| && StoredAt(steps, k).None?
    ensures StoredAt(steps, k + 1) ==
            if Founds(steps[k].op) && steps[k].persistOk then Some(Founded(steps[k].op)) else None
  {
    RecordedAt(g, steps, k);
    var h, op := Run(NoGroup, steps[..k]), steps[k].op;
    if op.CreateGroup? {
      CreationGives(op);
    } else {
      UnknownGroupStays(op);
    }
  }

  lemma UnknownGroupStays(op: Op)
    requires !op.CreateGroup?
    ensures PlanOf(None, op).Refuse?
  {
    if op.Inbound? {
      InboundForUnknownGroupRefused(op);
    }
  }

  // ---------------------------------------------------------------- inbound events

  /** Owners outrank admins, admins outrank users. */
  function Rank(role: Role): int
  {
    match role
    case Owner => 2
    case Admin => 1
    case _ => 0
  }

  /** Who may announce what. Members accept invitations and leave by themselves; others are removed by
      somebody above them; newcomers take a manager, other roles for known members an owner, and no
      owner is given another role; titles and profiles take a manager, keys an owner. */
  predicate MayAnnounce(s: State, e: Event)
  {
    && e.actorID in s.members
    && var actor := s.members[e.actorID];
       var target := if e.memberID in s.members then Some(s.members[e.memberID]) else None;
       match e.kind
       case MemberAdd =>
         || (e.actorID == e.memberID && actor.status == Invited)
         || (&& actor.status == Active
             && if target.None? then Rank(actor.role) >= 1
                else target.value.role == e.role || (actor.role == Owner && target.value.role != Owner))
       case MemberRemove => actor.status == Active && target.Some? && Rank(actor.role) > Rank(target.value.role)
       case MemberLeave => e.actorID == e.memberID
       case TitleChange => actor.status == Active && Rank(actor.role) >= 1
       case ProfileChange => actor.status == Active && Rank(actor.role) >= 1
       case KeyRotate => actor.status == Active && Rank(actor.role) == 2
       case UnknownKind => false
  }

  lemma AuthorizedIff(g: string, s: State, e: Event)
    requires GoodMembers(g, s)
    ensures Authorize(s, e).None? <==> MayAnnounce(s, e)
  {
  }

  /** The event is complete, new, and the next one of this group. */
  predicate NextEvent(s: State, e: Event)
  {
    && !Blank(e.id) && e.id !in s.applied && e.groupID == s.group.id && e.version == s.version + 1
    && !Blank(e.actorID) && e.occurredAt != ZERO_TIME
    && (e.kind in {MemberAdd, MemberRemove, MemberLeave} ==> !Blank(e.memberID))
    && (e.kind == MemberAdd ==> e.role != UnknownRole)
    && (e.kind in {TitleChange, ProfileChange} ==> !Blank(e.title))
    && (e.kind == KeyRotate ==> e.keyVersion != 0)
    && e.kind != UnknownKind
  }

  lemma NextEventIff(s: State, e: Event)
    requires !Blank(s.group.id)
    ensures Apply(s, e).Changed? <==> NextEvent(s, e)
  {
  }

  /** The entry of the member concerned after an event that may be announced. */
  function AnnouncedEntry(s: State, e: Event): Member
    requires MayAnnounce(s, e) && e.kind in {MemberAdd, MemberRemove, MemberLeave}
  {
    var now := e.occurredAt;
    if e.memberID !in s.members then Member(s.group.id, e.memberID, e.role, Invited, now, ZERO_TIME, now)
    else
      var m := s.members[e.memberID].(updatedAt := now);
      if e.kind == MemberRemove then m.(status := Removed)
      else if e.kind == MemberLeave then m.(status := Left)
      else if m.status in {Left, Removed}
      then m.(role := e.role, status := Invited, invitedAt := now, activatedAt := ZERO_TIME)
      else if m.status == Invited && e.actorID == e.memberID
      then m.(role := e.role, status := Active, activatedAt := now)
      else m.(role := e.role)
  }

  /** The group after an event that may be announced. */
  function AnnouncedState(s: State, e: Event): State
    requires MayAnnounce(s, e)
  {
    var t := s.(version := e.version, applied := s.applied + {e.id});
    if e.kind in {MemberAdd, MemberRemove, MemberLeave}
    then t.(members := s.members[e.memberID := AnnouncedEntry(s, e)])
    else
      var group := s.group.(updatedAt := e.occurredAt);
      if e.kind == KeyRotate then t.(group := group, lastKeyVersion := e.keyVersion)
      else if e.kind == TitleChange then t.(group := group.(title := TrimSpace(e.title)))
      else t.(group := group.(title := TrimSpace(e.title), description := TrimSpace(e.description),
                              avatar := TrimSpace(e.avatar)))
  }

  lemma EventGives(g: string, s: State, e: Event)
    requires GoodMembers(g, s) && MayAnnounce(s, e) && Apply(s, e).Changed?
    requires Trimmed(e.actorID) && Trimmed(e.memberID)
    ensures Apply(s, e).state == AnnouncedState(s, e)
  {
    if e.kind in {MemberAdd, MemberRemove, MemberLeave} {
      MemberEventGives(g, s, e);
    }
  }

  lemma MemberEventGives(g: string, s: State, e: Event)
    requires GoodMembers(g, s) && MayAnnounce(s, e) && e.kind in {MemberAdd, MemberRemove, MemberLeave}
    requires Trimmed(e.actorID) && Trimmed(e.memberID)
    ensures Effect(s, e) == s.(members := s.members[e.memberID := AnnouncedEntry(s, e)])
  {
  }

  /** Over every run mixing local operations and inbound events: an inbound event has exactly the effect
      prescribed if it was admitted, is the next one, may be announced by its actor and can be
      persisted, and none otherwise. Ids arrive trimmed. */
  lemma EveryEventGives(g: string, steps: seq<Step>, k: nat)
    requires AdmissibleRun(g, NoGroup, steps) && k < |steps| && StoredAt(steps, k).Some?
    requires steps[k].op.Inbound? && Trimmed(steps[k].op.event.actorID) && Trimmed(steps[k].op.event.memberID)
    ensures var s, e := StoredAt(steps, k).value, steps[k].op.event;
            StoredAt(steps, k + 1) ==
            Some(if steps[k].op.admitted && steps[k].persistOk && NextEvent(s, e) && MayAnnounce(s, e)
                 then AnnouncedState(s, e) else s)
  {
    RecordedAt(g, steps, k);
    var h, e := Run(NoGroup, steps[..k]), steps[k].op.event;
    var s := h.cell.state.value;
    LiveGroupHasName(g, h);
    InboundOutcome(h, steps[k]);
    AuthorizedIff(g, s, e);
    NextEventIff(s, e);
    if MayAnnounce(s, e) && NextEvent(s, e) {
      EventGives(g, s, e);
    }
  }

  // ---------------------------------------------------------------- refusals

  /** The reason given for refusing a local request is true of it. */
  predicate Applies(found: Option<State>, op: Op, reason: Error)
    requires !op.Inbound? && !op.CreateGroup?
  {
    var actor := TrimSpace(op.actorID);
    var subject := if op.Invite? || op.RemoveMember? || op.ChangeRole? then TrimSpace(op.memberID) else actor;
    match reason
    case InvalidGroupID => TrimSpace(op.groupID') == ""
    case InvalidMemberID => actor == "" || subject == ""
    case InvalidTitle => op.UpdateProfile? && TrimSpace(op.title) == ""
    case CannotInviteSelf => op.Invite? && subject == actor
    case MemberBlocked => op.Invite? && op.blocked
    case RateLimited => !op.allowed
    case GroupNotFound => found.None?
    case MembershipNotFound => found.Some? && (actor !in found.value.members || subject !in found.value.members)
    case PermissionDenied =>
      && found.Some?
      && (|| !Manages(found.value, actor) || ((op.ChangeRole? || op.DeleteGroup?) && !Owns(found.value, actor))
          || (subject in found.value.members && found.value.members[subject].role == Owner))
    case InvalidMemberState =>
      && found.Some? && subject in found.value.members
      && !HasStatus(found.value, subject, if op.ChangeRole? then {Active, Invited} else {Invited})
    case MemberLimitExceeded =>
      op.Invite? && found.Some? && op.limits.Some?
      && |WithStatus(found.value, {Active, Invited})| >= op.limits.value.maxMembers
    case PendingInvitesExceeded =>
      op.Invite? && found.Some? && op.limits.Some?
      && |WithStatus(found.value, {Invited})| >= op.limits.value.maxPendingInvites
    case _ => false
  }

  lemma InviteRefusal(found: Option<State>, op: Op)
    requires op.Invite? && PlanInvite(found, op).Refuse?
    ensures Applies(found, op, PlanInvite(found, op).error)
  {
    TrimSpaceTrims(op.actorID);
    if found.Some? {
      assert WithStatus(found.value, {Active, Invited}) == Occupying(found.value.members);
      assert WithStatus(found.value, {Invited}) == Pending(found.value.members);
    }
  }

  lemma OwnRefusal(found: Option<State>, op: Op)
    requires op.Leave? || op.Accept? || op.Decline? || op.UpdateProfile? || op.DeleteGroup?
    requires PlanOf(found, op).Refuse?
    ensures Applies(found, op, PlanOf(found, op).error)
  {
    TrimSpaceTrims(op.actorID);
  }

  lemma ManagingRefusal(found: Option<State>, op: Op)
    requires (op.RemoveMember? || op.ChangeRole?) && PlanOf(found, op).Refuse?
    ensures Applies(found, op, PlanOf(found, op).error)
  {
    TrimSpaceTrims(op.actorID);
  }

  /** Whatever a local request is refused for is true of it. */
  lemma RefusalApplies(found: Option<State>, op: Op)
    requires !op.Inbound? && !op.CreateGroup? && PlanOf(found, op).Refuse?
    ensures Applies(found, op, PlanOf(found, op).error)
  {
    if op.Invite? {
      InviteRefusal(found, op);
    } else if op.RemoveMember? || op.ChangeRole? {
      ManagingRefusal(found, op);
    } else {
      OwnRefusal(found, op);
    }
  }
}
