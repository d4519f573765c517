/** Who may change what: over every run of local operations a member entry changes only by the member
    itself or by somebody the group has put in charge; and exactly which inbound events change roles. */
module GroupAuthority {
  import opened Text
  import opened GroupModel
  import opened GroupPlans
  import opened GroupRuns
  import opened GroupPolicies

  /** Members speak for themselves about their own membership; inviting and removing takes an active
      owner or admin, changing roles an active owner; owners are not removed and keep their role. */
  ghost predicate Authorised(s: State, op: Op, id: string)
    requires ChangesMember(op)
  {
    var actor := TrimSpace(op.actorID);
    && actor in s.members
    && if op.Leave? || op.Accept? || op.Decline? then id == actor
       else && s.members[actor].status == Active
            && (s.members[actor].role == Owner || (s.members[actor].role == Admin && !op.ChangeRole?))
            && (op.Invite? ==> id != actor)
            && (!op.Invite? ==> id in s.members && s.members[id].role != Owner)
  }

  lemma InviteIsAuthorised(s: State, op: Op)
    requires op.Invite? && PlanInvite(Some(s), op).Batch?
    ensures Authorised(s, op, Subject(op))
  {
    TrimSpaceTrims(op.actorID);
  }

  lemma RemovalIsAuthorised(s: State, op: Op)
    requires op.RemoveMember? && PlanRemoveMember(Some(s), op).Batch?
    ensures Authorised(s, op, Subject(op))
  {
    TrimSpaceTrims(op.actorID);
  }

  lemma RoleChangeIsAuthorised(s: State, op: Op)
    requires op.ChangeRole? && PlanChangeRole(Some(s), op).Batch?
    ensures Authorised(s, op, Subject(op))
  {
    TrimSpaceTrims(op.actorID);
  }

  lemma OwnChangeIsAuthorised(s: State, op: Op)
    requires op.Leave? || op.Accept? || op.Decline?
    requires PlanOf(Some(s), op).Batch?
    ensures Authorised(s, op, Subject(op))
  {
  }

  lemma PlanIsAuthorised(s: State, op: Op, plan: Plan)
    requires ChangesMember(op) && plan == PlanOf(Some(s), op) && plan.Batch?
    ensures Authorised(s, op, Subject(op))
  {
    if op.Invite? {
      InviteIsAuthorised(s, op);
    } else if op.RemoveMember? {
      RemovalIsAuthorised(s, op);
    } else if op.ChangeRole? {
      RoleChangeIsAuthorised(s, op);
    } else {
      OwnChangeIsAuthorised(s, op);
    }
  }

  lemma StepIsAuthorised(g: string, h: History, step: Step, id: string)
    requires Recorded(g, h) && Admissible(g, h, step) && !step.op.Inbound?
    requires h.cell.state.Some? && Next(h, step).cell.state.Some?
    requires Entry(Next(h, step).cell.state.value, id) != Entry(h.cell.state.value, id)
    ensures ChangesMember(step.op) && Authorised(h.cell.state.value, step.op, id)
  {
    StepHasLocalEffect(g, h, step);
    OperationIsAtomic(g, h, step);
    PlanIsAuthorised(h.cell.state.value, step.op, PlanOf(h.cell.state, step.op));
  }

  /** Over every run of local operations, a step of a live group that changes the entry of `id`, or
      adds one, was authorised by the members the group had just before. */
  lemma EveryChangeIsAuthorised(g: string, steps: seq<Step>, k: nat, id: string)
    requires LocalRun(g, steps) && LivesThrough(steps, k, k + 1)
    requires Entry(StateAt(steps, k + 1), id) != Entry(StateAt(steps, k), id)
    ensures ChangesMember(steps[k].op) && Authorised(StateAt(steps, k), steps[k].op, id)
  {
    RecordedAt(g, steps, k);
    StepIsAuthorised(g, Run(NoGroup, steps[..k]), steps[k], id);
  }

  // ---------------------------------------------------------------- inbound events and roles

  function RoleOf(s: State, id: string): Option<Role>
  {
    if id in s.members then Some(s.members[id].role) else None
  }

  /** Who may give the member of an inbound event its role: invited members themselves, whatever the
      role; an active owner, to anybody but an owner; and to newcomers also an active admin. */
  predicate MayGrant(s: State, e: Event)
  {
    && e.actorID in s.members
    && var actor := s.members[e.actorID];
       if e.memberID in s.members then
         || (e.actorID == e.memberID && actor.status == Invited)
         || (actor.status == Active && actor.role == Owner && s.members[e.memberID].role != Owner)
       else actor.status == Active && (actor.role == Owner || actor.role == Admin)
  }

  lemma GrantIsAuthorised(s: State, e: Event)
    requires e.kind == MemberAdd && RoleOf(s, e.memberID) != Some(e.role)
    ensures Authorize(s, e).None? <==> MayGrant(s, e)
  {
  }

  lemma RolesAfterEffect(s: State, e: Event, id: string)
    requires Trimmed(e.memberID) && Authorize(s, e).None?
    requires forall x :: x in s.members ==> s.members[x].memberID == x
    ensures RoleOf(Effect(s, e), id) != RoleOf(s, id) <==>
            e.kind == MemberAdd && id == e.memberID && RoleOf(s, id) != Some(e.role)
    ensures e.kind == MemberAdd ==> RoleOf(Effect(s, e), e.memberID) == Some(e.role)
  {
  }

  lemma InboundOutcome(h: History, step: Step)
    requires step.op.Inbound? && h.cell.state.Some?
    ensures var s, e := h.cell.state.value, step.op.event;
            Next(h, step).cell.state ==
            if step.op.admitted && step.persistOk && Authorize(s, e).None? && Apply(s, e).Changed?
            then Some(Apply(s, e).state) else Some(s)
  {
    RunOne(h.cell.state.value, step.op.event);
  }

  lemma StepRoleIff(g: string, h: History, step: Step, id: string)
    requires Recorded(g, h) && h.cell.state.Some? && step.op.Inbound? && Trimmed(step.op.event.memberID)
    ensures Next(h, step).cell.state.Some?
    ensures var s, e := h.cell.state.value, step.op.event;
            var t := Next(h, step).cell.state.value;
            && (RoleOf(t, id) != RoleOf(s, id) <==>
                  && step.op.admitted && step.persistOk && Apply(s, e).Changed?
                  && e.kind == MemberAdd && id == e.memberID && RoleOf(s, id) != Some(e.role) && MayGrant(s, e))
            && (RoleOf(t, id) != RoleOf(s, id) ==> RoleOf(t, id) == Some(e.role))
  {
    var s, e := h.cell.state.value, step.op.event;
    InboundOutcome(h, step);
    if Authorize(s, e).None? {
      RolesAfterEffect(s, e, id);
    }
    if e.kind == MemberAdd && RoleOf(s, e.memberID) != Some(e.role) {
      GrantIsAuthorised(s, e);
    }
  }

  /** Over every run mixing local operations and inbound events: an inbound event changes somebody's role,
      or makes somebody an owner, exactly when it is admitted, new, valid and in order, adds that
      member with that role, and comes from somebody who may grant it. */
  lemma InboundRoleIff(g: string, steps: seq<Step>, k: nat, id: string)
    requires AdmissibleRun(g, NoGroup, steps) && k < |steps| && LivesThrough(steps, k, k)
    requires steps[k].op.Inbound? && Trimmed(steps[k].op.event.memberID)
    ensures LivesThrough(steps, k, k + 1)
    ensures var s, t, e := StateAt(steps, k), StateAt(steps, k + 1), steps[k].op.event;
            && (RoleOf(t, id) != RoleOf(s, id) <==>
                  && steps[k].op.admitted && steps[k].persistOk && Apply(s, e).Changed?
                  && e.kind == MemberAdd && id == e.memberID && RoleOf(s, id) != Some(e.role) && MayGrant(s, e))
            && (RoleOf(t, id) == Some(Owner) != RoleOf(s, id) ==> e.role == Owner)
  {
    RecordedAt(g, steps, k);
    StepRoleIff(g, Run(NoGroup, steps[..k]), steps[k], id);
  }
}
