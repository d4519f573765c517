/** What local operations guarantee over whole runs: key versions, quotas, ownership. */
module GroupPolicies {
  import opened Text
  import opened GroupModel
  import opened GroupPlans
  import opened GroupService
  import opened GroupRuns

  // ---------------------------------------------------------------- what one operation changes

  /** The member whose entry an operation changes. */
  function Subject(op: Op): string
    requires op.Invite? || op.RemoveMember? || op.ChangeRole? || op.Leave? || op.Accept? || op.Decline?
  {
    if op.Invite? || op.RemoveMember? || op.ChangeRole? then TrimSpace(op.memberID) else TrimSpace(op.actorID)
  }

  predicate ChangesMember(op: Op)
  {
    op.Invite? || op.RemoveMember? || op.ChangeRole? || op.Leave? || op.Accept? || op.Decline?
  }

  /** How a member entry changes, operation by operation. */
  predicate Transition(op: Op, before: Option<Member>, after: Member)
  {
    match op
    case Invite(_, _, _, _, _, _, _, _) =>
      && (before.Some? ==> before.value.status != Active && before.value.status != Invited)
      && after.role == User && after.status == Invited
    case Leave(_, _, _, _, _, _) =>
      before.Some? && after.role == before.value.role && after.status == Left
    case Accept(_, _, _, _, _, _) =>
      before.Some? && before.value.status == Invited && after.role == before.value.role && after.status == Active
    case Decline(_, _, _, _, _, _) =>
      before.Some? && before.value.status == Invited && after.role == before.value.role && after.status == Removed
    case RemoveMember(_, _, _, _, _, _, _) =>
      before.Some? && before.value.role != Owner && after.role == before.value.role && after.status == Removed
    case ChangeRole(_, _, _, role, _, _, _) =>
      && before.Some? && before.value.role != Owner && after.role == role
      && after.status == before.value.status && (after.status == Active || after.status == Invited)
    case _ => false
  }

  function Entry(s: State, id: string): Option<Member>
  {
    if id in s.members then Some(s.members[id]) else None
  }

  /** The first event of the batch puts a changed entry for the subject in place. */
  ghost predicate FirstChanges(s: State, op: Op, e: Event)
    requires ChangesMember(op)
  {
    var t, id := Effect(s, e), Subject(op);
    && id in t.members && t.members == s.members[id := t.members[id]]
    && Transition(op, Entry(s, id), t.members[id])
    && t.group == s.group && t.lastKeyVersion == s.lastKeyVersion
  }

  lemma InviteTransition(g: string, s: State, op: Op)
    requires GoodMembers(g, s) && op.Invite? && PlanInvite(Some(s), op).Batch?
    ensures var e := PlanInvite(Some(s), op).events[0];
            FirstChanges(s, op, e)
  {
    TrimSpaceTrims(op.actorID);
    TrimSpaceTrims(op.memberID);
  }

  lemma AcceptTransition(g: string, s: State, op: Op)
    requires GoodMembers(g, s) && op.Accept? && PlanAccept(Some(s), op).Batch?
    ensures var e := PlanAccept(Some(s), op).events[0];
            FirstChanges(s, op, e)
  {
    TrimSpaceTrims(op.actorID);
  }

  lemma ChangeRoleTransition(g: string, s: State, op: Op)
    requires GoodMembers(g, s) && op.ChangeRole? && PlanChangeRole(Some(s), op).Batch?
    ensures var e := PlanChangeRole(Some(s), op).events[0];
            FirstChanges(s, op, e)
  {
    TrimSpaceTrims(op.actorID);
    TrimSpaceTrims(op.memberID);
  }

  lemma LeaveTransition(g: string, s: State, op: Op)
    requires GoodMembers(g, s) && op.Leave? && PlanLeave(Some(s), op).Batch?
    ensures var e := PlanLeave(Some(s), op).events[0];
            FirstChanges(s, op, e)
  {
    TrimSpaceTrims(op.actorID);
  }

  lemma DeclineTransition(g: string, s: State, op: Op)
    requires GoodMembers(g, s) && op.Decline? && PlanDecline(Some(s), op).Batch?
    ensures var e := PlanDecline(Some(s), op).events[0];
            FirstChanges(s, op, e)
  {
    TrimSpaceTrims(op.actorID);
  }

  lemma RemoveTransition(g: string, s: State, op: Op)
    requires GoodMembers(g, s) && op.RemoveMember? && PlanRemoveMember(Some(s), op).Batch?
    ensures var e := PlanRemoveMember(Some(s), op).events[0];
            FirstChanges(s, op, e)
  {
    TrimSpaceTrims(op.actorID);
    TrimSpaceTrims(op.memberID);
  }

  ghost predicate BatchChanges(s: State, op: Op, plan: Plan)
    requires ChangesMember(op)
  {
    plan.Batch? ==> |plan.events| >= 1 && FirstChanges(s, op, plan.events[0])
  }

  lemma RotatingOpChanges(g: string, s: State, op: Op)
    requires GoodMembers(g, s) && Rotates(op) && PlanOf(Some(s), op).Batch?
    ensures BatchChanges(s, op, PlanOf(Some(s), op))
  {
    match op
    case Accept(_, _, _, _, _, _) => AcceptTransition(g, s, op);
    case Leave(_, _, _, _, _, _) => LeaveTransition(g, s, op);
    case Decline(_, _, _, _, _, _) => DeclineTransition(g, s, op);
    case RemoveMember(_, _, _, _, _, _, _) => RemoveTransition(g, s, op);
  }

  lemma PlainOpChanges(g: string, s: State, op: Op)
    requires GoodMembers(g, s) && (op.Invite? || op.ChangeRole?) && PlanOf(Some(s), op).Batch?
    ensures BatchChanges(s, op, PlanOf(Some(s), op))
  {
    if op.Invite? {
      InviteTransition(g, s, op);
    } else {
      ChangeRoleTransition(g, s, op);
    }
  }

  lemma WholePair(s: State, change: Event, rotateID: string)
    requires var events := [change, RotateFor(s, change, rotateID)]; RunBatch(s, events).applied == events
    requires RotationFits(s, change.id, rotateID)
    ensures var t := RunBatch(s, [change, RotateFor(s, change, rotateID)]).state;
            && t.members == Effect(s, change).members && t.group.createdBy == Effect(s, change).group.createdBy
            && t.lastKeyVersion == s.lastKeyVersion + 1
  {
    RunTwo(s, change, RotateFor(s, change, rotateID));
    if Apply(s, change).Changed? {
      RotationApplies(s, change, rotateID);
    }
  }

  lemma WholeOutcome(s: State, op: Op, events: seq<Event>)
    requires PlannedBatch(s, op, events) && RunBatch(s, events).applied == events
    requires Rotates(op) ==> RotationFits(s, op.eventID, op.rotateID)
    ensures var t := RunBatch(s, events).state;
            && t.members == Effect(s, events[0]).members
            && t.group.createdBy == Effect(s, events[0]).group.createdBy
            && t.lastKeyVersion == if Rotates(op) then s.lastKeyVersion + 1 else Effect(s, events[0]).lastKeyVersion
  {
    if Rotates(op) {
      var change: Event :| events == [change, RotateFor(s, change, op.rotateID)]
                           && change.id == op.eventID && change.version == (s.version + 1) % U64_MOD;
      WholePair(s, change, op.rotateID);
    } else {
      assert events == [events[0]];
      RunOne(s, events[0]);
    }
  }

  /** The effect `t` of the first event of a batch, before any key rotation. */
  ghost predicate FirstEffect(op: Op, s: State, t: State)
  {
    && t.group.createdBy == s.group.createdBy && t.lastKeyVersion == s.lastKeyVersion
    && if ChangesMember(op)
       then && Subject(op) in t.members && t.members == s.members[Subject(op) := t.members[Subject(op)]]
            && Transition(op, Entry(s, Subject(op)), t.members[Subject(op)])
            && (op.Invite? ==> QuotaError(op.limits, s).None?)
       else t.members == s.members
  }

  /** What a local operation does to a live group: nothing, or a profile change, or the transition of
      its subject's entry together with a new key version where membership shrinks or grows. */
  ghost predicate LocalEffect(op: Op, s: State, t: State)
  {
    || t == s
    || (&& t.lastKeyVersion == s.lastKeyVersion + (if Rotates(op) then 1 else 0)
        && FirstEffect(op, s, t.(lastKeyVersion := s.lastKeyVersion)))
  }

  lemma InviteWithinQuota(s: State, op: Op)
    requires op.Invite? && PlanInvite(Some(s), op).Batch?
    ensures QuotaError(op.limits, s).None?
  {
  }

  lemma ProfileEffect(s: State, op: Op)
    requires !op.Inbound? && !ChangesMember(op) && PlanOf(Some(s), op).Batch?
    ensures |PlanOf(Some(s), op).events| >= 1 && FirstEffect(op, s, Effect(s, PlanOf(Some(s), op).events[0]))
  {
  }

  lemma FirstEventEffect(g: string, s: State, op: Op, plan: Plan)
    requires GoodMembers(g, s) && !op.Inbound? && plan == PlanOf(Some(s), op) && plan.Batch?
    ensures |plan.events| >= 1 && FirstEffect(op, s, Effect(s, plan.events[0]))
  {
    if Rotates(op) {
      RotatingOpChanges(g, s, op);
    } else if ChangesMember(op) {
      PlainOpChanges(g, s, op);
      if op.Invite? {
        InviteWithinQuota(s, op);
      }
    } else {
      ProfileEffect(s, op);
    }
  }

  lemma BatchHasLocalEffect(g: string, s: State, op: Op, plan: Plan)
    requires GoodMembers(g, s) && !op.Inbound? && plan == PlanOf(Some(s), op) && plan.Batch?
    requires RunBatch(s, plan.events).applied == plan.events
    requires Rotates(op) ==> RotationFits(s, op.eventID, op.rotateID)
    ensures LocalEffect(op, s, RunBatch(s, plan.events).state)
  {
    PlanShape(Some(s), op, plan);
    WholeOutcome(s, op, plan.events);
    FirstEventEffect(g, s, op, plan);
  }

  lemma StepHasLocalEffect(g: string, h: History, step: Step)
    requires Recorded(g, h) && Admissible(g, h, step) && !step.op.Inbound?
    requires h.cell.state.Some? && Next(h, step).cell.state.Some?
    ensures LocalEffect(step.op, h.cell.state.value, Next(h, step).cell.state.value)
  {
    OperationIsAtomic(g, h, step);
    var plan := PlanOf(h.cell.state, step.op);
    if plan.Batch? && Next(h, step).cell != h.cell {
      BatchHasLocalEffect(g, h.cell.state.value, step.op, plan);
    }
  }

  // ---------------------------------------------------------------- key versions identify the active members

  /** The key version of `t` is newer than that of `s`, or the same for the same active members. */
  ghost predicate KeyOrdered(s: State, t: State)
  {
    && s.lastKeyVersion <= t.lastKeyVersion
    && (s.lastKeyVersion == t.lastKeyVersion ==> ActiveMembers(s) == ActiveMembers(t))
  }

  lemma EffectOnKeyVersion(op: Op, s: State, t: State)
    requires LocalEffect(op, s, t)
    ensures KeyOrdered(s, t)
  {
  }

  ghost predicate LocalRun(g: string, steps: seq<Step>)
  {
    AdmissibleRun(g, NoGroup, steps) && forall k :: 0 <= k < |steps| ==> !steps[k].op.Inbound?
  }

  /** The group is stored after each of the first `i`, ..., `j` steps: one lifetime of the group. */
  ghost predicate LivesThrough(steps: seq<Step>, i: nat, j: nat)
  {
    i <= j <= |steps| && forall k :: i <= k <= j ==> Run(NoGroup, steps[..k]).cell.state.Some?
  }

  function StateAt(steps: seq<Step>, k: nat): State
    requires k <= |steps| && Run(NoGroup, steps[..k]).cell.state.Some?
  {
    Run(NoGroup, steps[..k]).cell.state.value
  }

  lemma RecordedAt(g: string, steps: seq<Step>, k: nat)
    requires AdmissibleRun(g, NoGroup, steps) && k <= |steps|
    ensures Recorded(g, Run(NoGroup, steps[..k]))
    ensures k < |steps| ==> Run(NoGroup, steps[..k + 1]) == Next(Run(NoGroup, steps[..k]), steps[k])
  {
    assert forall m :: 0 <= m <= k ==> steps[..k][..m] == steps[..m];
    EveryRunIsRecorded(g, steps[..k]);
    if k < |steps| {
      assert steps[..k + 1][..k] == steps[..k];
    }
  }

  lemma KeyOrderedTransitive(s: State, t: State, u: State)
    requires KeyOrdered(s, t) && KeyOrdered(t, u)
    ensures KeyOrdered(s, u)
  {
  }

  lemma StepOnKeyVersion(g: string, h: History, step: Step)
    requires Recorded(g, h) && Admissible(g, h, step) && !step.op.Inbound?
    requires h.cell.state.Some? && Next(h, step).cell.state.Some?
    ensures KeyOrdered(h.cell.state.value, Next(h, step).cell.state.value)
  {
    StepHasLocalEffect(g, h, step);
    EffectOnKeyVersion(step.op, h.cell.state.value, Next(h, step).cell.state.value);
  }

  lemma StepAtOnKeyVersion(g: string, steps: seq<Step>, k: nat)
    requires LocalRun(g, steps) && LivesThrough(steps, k, k + 1)
    ensures KeyOrdered(StateAt(steps, k), StateAt(steps, k + 1))
  {
    RecordedAt(g, steps, k);
    StepOnKeyVersion(g, Run(NoGroup, steps[..k]), steps[k]);
  }

  lemma LivesLess(steps: seq<Step>, i: nat, j: nat)
    requires LivesThrough(steps, i, j) && i < j
    ensures LivesThrough(steps, i, j - 1) && LivesThrough(steps, j - 1, j)
  {
  }

  /** During one lifetime of a group, over every run of local operations, the key version never
      decreases, and two states with the same key version have the same active members. */
  lemma {:induction false} KeyVersionNamesActiveMembers(g: string, steps: seq<Step>, i: nat, j: nat)
    requires LocalRun(g, steps) && LivesThrough(steps, i, j)
    ensures KeyOrdered(StateAt(steps, i), StateAt(steps, j))
    decreases j
  {
    if i < j {
      LivesLess(steps, i, j);
      KeyVersionNamesActiveMembers(g, steps, i, j - 1);
      StepAtOnKeyVersion(g, steps, j - 1);
      KeyOrderedTransitive(StateAt(steps, i), StateAt(steps, j - 1), StateAt(steps, j));
    }
  }

  // ---------------------------------------------------------------- quotas and ownership

  /** Within the limits, and nobody but the creator is owner, active or having left. */
  ghost predicate Orderly(limits: Limits, s: State)
  {
    && |Occupying(s.members)| <= limits.maxMembers
    && |Pending(s.members)| <= limits.maxPendingInvites
    && forall id :: id in s.members && s.members[id].role == Owner ==>
         id == s.group.createdBy && (s.members[id].status == Active || s.members[id].status == Left)
  }

  /** A request as the group service makes it: invites under fixed limits, role changes to admin or
      user only. */
  predicate ServiceStep(limits: Limits, step: Step)
  {
    && !step.op.Inbound?
    && (step.op.Invite? ==> step.op.limits == Some(limits))
    && (step.op.ChangeRole? ==> step.op.role == Admin || step.op.role == User)
  }

  lemma CountsAfterTransition(op: Op, members: map<string, Member>, id: string, m: Member)
    requires Transition(op, if id in members then Some(members[id]) else None, m)
    ensures var extra := if op.Invite? then 1 else 0;
            && |Occupying(members[id := m])| <= |Occupying(members)| + extra
            && |Pending(members[id := m])| <= |Pending(members)| + extra
  {
    var extra := if op.Invite? then {id} else {};
    assert Occupying(members[id := m]) <= Occupying(members) + extra;
    assert Pending(members[id := m]) <= Pending(members) + extra;
    SubsetSize(Occupying(members[id := m]), Occupying(members) + extra);
    SubsetSize(Pending(members[id := m]), Pending(members) + extra);
  }

  lemma TransitionKeepsOrder(limits: Limits, op: Op, s: State, t: State)
    requires Orderly(limits, s) && LocalEffect(op, s, t)
    requires op.Invite? ==> op.limits == Some(limits)
    requires op.ChangeRole? ==> op.role == Admin || op.role == User
    ensures Orderly(limits, t)
  {
    if t != s && ChangesMember(op) {
      CountsAfterTransition(op, s.members, Subject(op), t.members[Subject(op)]);
    }
  }

  lemma CreatedIsOrderly(limits: Limits, op: Op)
    requires op.CreateGroup? && PlanCreate(None, op).Create? && limits.maxMembers >= 1
    ensures Orderly(limits, PlanCreate(None, op).state)
  {
    TrimSpaceTrims(op.identityID);
    var s := PlanCreate(None, op).state;
    var id := TrimSpace(op.identityID);
    assert s.members.Keys == {id};
    assert Occupying(s.members) == {id};
    assert Pending(s.members) == {};
  }

  lemma StepKeepsOrder(g: string, limits: Limits, h: History, step: Step)
    requires Recorded(g, h) && Admissible(g, h, step) && ServiceStep(limits, step) && limits.maxMembers >= 1
    requires h.cell.state.Some? ==> Orderly(limits, h.cell.state.value)
    ensures Next(h, step).cell.state.Some? ==> Orderly(limits, Next(h, step).cell.state.value)
  {
    if Next(h, step).cell.state.Some? {
      if h.cell.state.Some? {
        StepHasLocalEffect(g, h, step);
        TransitionKeepsOrder(limits, step.op, h.cell.state.value, Next(h, step).cell.state.value);
      } else {
        PlanShape(h.cell.state, step.op, PlanOf(h.cell.state, step.op));
        CreatedIsOrderly(limits, step.op);
      }
    }
  }

  /** Over every run of service operations under fixed limits, a live group never has more active and
      invited members than allowed nor more open invites, and only its creator is ever its owner. */
  lemma {:induction false} EveryServiceRunIsOrderly(g: string, limits: Limits, steps: seq<Step>)
    requires AdmissibleRun(g, NoGroup, steps) && limits.maxMembers >= 1
    requires forall k :: 0 <= k < |steps| ==> ServiceStep(limits, steps[k])
    ensures Run(NoGroup, steps).cell.state.Some? ==> Orderly(limits, Run(NoGroup, steps).cell.state.value)
  {
    if steps != [] {
      var before := steps[..|steps| - 1];
      assert forall k :: 0 <= k <= |before| ==> before[..k] == steps[..k];
      EveryServiceRunIsOrderly(g, limits, before);
      EveryRunIsRecorded(g, before);
      StepKeepsOrder(g, limits, Run(NoGroup, before), steps[|steps| - 1]);
    }
  }

  /** `EnforceInviteQuotas`: one pass over the members counts both quotas. */
  method EnforceInviteQuotas(limits: Limits, s: State) returns (error: Option<Error>)
    ensures error == QuotaError(Some(limits), s)
  {
    var todo := s.members.Keys;
    var memberCount, pendingInvites := 0, 0;
    ghost var occupying, pending := Occupying(s.members), Pending(s.members);
    assert occupying - todo == {} && pending - todo == {};
    while todo != {}
      invariant todo <= s.members.Keys
      invariant memberCount == |occupying - todo| && pendingInvites == |pending - todo|
      decreases todo
    {
      var id :| id in todo;
      CountOneMore(occupying, todo, id);
      CountOneMore(pending, todo, id);
      todo := todo - {id};
      var status := s.members[id].status;
      if status == Active || status == Invited {
        memberCount := memberCount + 1;
      }
      if status == Invited {
        pendingInvites := pendingInvites + 1;
      }
    }
    assert occupying - {} == occupying && pending - {} == pending;
    if memberCount >= limits.maxMembers {
      return Some(MemberLimitExceeded);
    }
    if pendingInvites >= limits.maxPendingInvites {
      return Some(PendingInvitesExceeded);
    }
    return None;
  }
}
