/** Whole runs of operations on one group: local operations, inbound events, failing persists. */
module GroupRuns {
  import opened Text
  import opened GroupModel
  import opened GroupPlans
  import opened GroupService

  // ---------------------------------------------------------------- batches are whole

  lemma RunOne(s: State, e: Event)
    ensures RunBatch(s, [e]) == Offer(Outcome(s, [], None), e)
  {
    assert [e][..0] == [];
  }

  lemma RunTwo(s: State, a: Event, b: Event)
    ensures RunBatch(s, [a, b]) == Offer(Offer(Outcome(s, [], None), a), b)
  {
    RunOne(s, a);
    assert [a, b][..1] == [a];
  }

  /** The rotation that follows `change` will be accepted: its id is usable and new, and neither the
      key version nor the group version wraps. */
  predicate RotationFits(s: State, eventID: string, rotateID: string)
  {
    && !Blank(rotateID) && rotateID !in s.applied && rotateID != eventID
    && s.lastKeyVersion + 1 < U32_MOD && s.version + 2 < U64_MOD
  }

  lemma RotationApplies(s: State, change: Event, rotateID: string)
    requires Apply(s, change).Changed?
    ensures var t := Apply(s, change).state;
            var rotate := RotateFor(s, change, rotateID);
            && (Apply(t, rotate).Changed? <==> RotationFits(s, change.id, rotateID))
            && (Apply(t, rotate).Changed? ==> Apply(t, rotate).state.lastKeyVersion == s.lastKeyVersion + 1)
  {
    EffectKeepsGroupID(s, change);
  }

  /** A membership change and its key rotation take effect together if and only if the rotation fits;
      otherwise, once the change is acceptable, the stored state is left with the change in its maps
      but without its version. */
  lemma ChangeAndRotationIff(s: State, change: Event, rotateID: string)
    requires Apply(s, change).Changed?
    ensures var events := [change, RotateFor(s, change, rotateID)];
            var out := RunBatch(s, events);
            && (out.error.None? && out.applied == events <==> RotationFits(s, change.id, rotateID))
            && (out.error.Some? ==> Torn(s, out.state).version == s.version && change.id in Torn(s, out.state).applied)
  {
    var rotate := RotateFor(s, change, rotateID);
    RunTwo(s, change, rotate);
    RotationApplies(s, change, rotateID);
    AppliedEntry(s, change);
  }

  // ---------------------------------------------------------------- runs

  datatype Step = Step(op: Op, persistOk: bool)

  /** The group's entries and, while the group lives, its state right after creation. */
  datatype History = History(cell: Cell, origin: Option<State>)

  const NoGroup := History(Cell(None, None), None)

  function Next(h: History, step: Step): History
  {
    NextWith(h, PlanOf(h.cell.state, step.op), step.persistOk)
  }

  function NextWith(h: History, plan: Plan, persistOk: bool): History
  {
    var cell := Perform(h.cell, plan, persistOk);
    History(cell, if plan.Create? && persistOk then Some(plan.state)
                  else if cell.state.None? then None else h.origin)
  }

  function Run(h: History, steps: seq<Step>): History
  {
    if steps == [] then h else Next(Run(h, steps[..|steps| - 1]), steps[|steps| - 1])
  }

  predicate Rotates(op: Op)
  {
    op.Leave? || op.Accept? || op.Decline? || op.RemoveMember?
  }

  /** A step on group `g`: local operations that rotate the key use ids that fit. */
  predicate Admissible(g: string, h: History, step: Step)
  {
    && Target(step.op) == g
    && (h.cell.state.Some? && Rotates(step.op) ==>
          RotationFits(h.cell.state.value, step.op.eventID, step.op.rotateID))
  }

  ghost predicate AdmissibleRun(g: string, h: History, steps: seq<Step>)
  {
    forall k :: 0 <= k < |steps| ==> Admissible(g, Run(h, steps[..k]), steps[k])
  }

  // ---------------------------------------------------------------- a run that is torn

  /** Names in use: a group, its title and its owner, and ids for the four events of the run. */
  datatype Names = Names(group: string, title: string, owner: string, created: string, announced: string, left: string,
                         rotated: string)
  {
    predicate Valid() {
      && Plain(group) && Plain(title) && Plain(owner)
      && Plain(created) && Plain(announced) && Plain(left)
      && announced != created && left != created && left != announced
    }

    static predicate Plain(text: string) {
      text != "" && Trimmed(text)
    }

    function Announcement(): Event {
      Event(announced, group, 2, KeyRotate, owner, 2, "", UnknownRole, "", "", "", U32_MOD - 1)
    }

    /** The owner creates the group, announces the last key version, and leaves. */
    function Steps(): seq<Step> {
      [Step(CreateGroup(title, owner, 1, Some(group), created), true),
       Step(Inbound(Announcement(), owner, true), true),
       Step(Leave(group, owner, 3, true, left, rotated), true)]
    }

    function First(): State {
      State(Group(group, title, "", "", owner, 1, 1), 1, {created},
            map[owner := Member(group, owner, Owner, Active, 1, 1, 1)], 1)
    }

    function Second(): State {
      First().(version := 2, applied := {created} + {announced}, lastKeyVersion := U32_MOD - 1,
               group := First().group.(updatedAt := 2))
    }
  }

  lemma Creates(n: Names) returns (log: seq<Event>)
    requires n.Valid()
    ensures Next(NoGroup, n.Steps()[0]) == History(Cell(Some(n.First()), Some(log)), Some(n.First()))
  {
    var s := NewState(Group(n.group, n.title, "", "", n.owner, 1, 1));
    var e := MakeEvent(n.created, s, MemberAdd, n.owner, 1, n.owner, Owner);
    assert Apply(s, e).Changed? && Apply(s, e).state.applied == {n.created};
    var owner := Member(n.group, n.owner, Owner, Active, 1, 1, 1);
    assert Apply(s, e).state.members[n.owner := owner] == map[n.owner := owner];
    assert PlanOf(None, n.Steps()[0].op) == Create(n.First(), e);
    log := [e];
  }

  lemma AnnouncementApplies(n: Names)
    requires n.Valid()
    ensures Authorize(n.First(), n.Announcement()).None?
    ensures Apply(n.First(), n.Announcement()) == Changed(n.Second())
  {
  }

  lemma SingleEventStep(h: History, e: Event, localID: string, t: State, log: seq<Event>)
    requires h.cell.state.Some? && h.cell.log == Some(log)
    requires Authorize(h.cell.state.value, e).None? && Apply(h.cell.state.value, e) == Changed(t)
    ensures Next(h, Step(Inbound(e, localID, true), true)) == History(Cell(Some(t), Some(log + [e])), h.origin)
  {
    RunOne(h.cell.state.value, e);
    assert [] + [e] == [e];
  }

  lemma Announces(n: Names, log: seq<Event>)
    requires n.Valid()
    ensures Next(History(Cell(Some(n.First()), Some(log)), Some(n.First())), n.Steps()[1])
         == History(Cell(Some(n.Second()), Some(log + [n.Announcement()])), Some(n.First()))
  {
    AnnouncementApplies(n);
    var h := History(Cell(Some(n.First()), Some(log)), Some(n.First()));
    SingleEventStep(h, n.Announcement(), n.owner, n.Second(), log);
  }

  lemma Leaves(n: Names, log: seq<Event>)
    requires n.Valid()
    ensures var after := Next(History(Cell(Some(n.Second()), Some(log)), Some(n.First())), n.Steps()[2]).cell;
            && after.state.Some? && after.log == Some(log)
            && after.state.value.version == 2 && n.left in after.state.value.applied
  {
    var s := n.Second();
    var change := MakeEvent(n.left, s, MemberLeave, n.owner, 3, n.owner, UnknownRole);
    assert PlanOf(Some(s), n.Steps()[2].op) == WithRotation(s, change, n.rotated);
    assert Apply(s, change).Changed?;
    var out := RunBatch(s, [change, RotateFor(s, change, n.rotated)]);
    WrappedRotation(s, change, n.rotated);
    assert out.error.Some?;
    assert n.left in out.state.applied;
  }

  /** At the last key version the rotation gets key version 0 and is rejected. */
  lemma WrappedRotation(s: State, change: Event, rotateID: string)
    requires s.lastKeyVersion == U32_MOD - 1 && Apply(s, change).Changed?
    ensures var out := RunBatch(s, [change, RotateFor(s, change, rotateID)]);
            out.error.Some? && out.state == Apply(s, change).state
  {
    var rotate := RotateFor(s, change, rotateID);
    RunTwo(s, change, rotate);
    assert ValidateEvent(rotate).Some?;
  }

  /** Without room for another key version an operation is torn: in this run of three operations,
      whatever the names, the leave ends up in the group's maps, but neither in its log nor in its
      version. */
  lemma TornAtKeyVersionLimit(n: Names)
    requires n.Valid()
    ensures var before := Run(NoGroup, n.Steps()[..2]).cell;
            var after := Run(NoGroup, n.Steps()).cell;
            && before.state.Some? && after.state.Some? && after.log == before.log
            && after.state.value.version == before.state.value.version
            && n.left in after.state.value.applied && n.left !in before.state.value.applied
  {
    var log := Creates(n);
    Announces(n, log);
    Leaves(n, log + [n.Announcement()]);
    RunOfThree(n.Steps());
  }

  lemma RunOfThree(steps: seq<Step>)
    requires |steps| == 3
    ensures Run(NoGroup, steps[..2]) == Next(Next(NoGroup, steps[0]), steps[1])
    ensures Run(NoGroup, steps) == Next(Run(NoGroup, steps[..2]), steps[2])
  {
    assert steps[..2][..1] == [steps[0]] && steps[..2][1] == steps[1];
    assert [steps[0]][..0] == [];
    assert Run(NoGroup, [steps[0]]) == Next(NoGroup, steps[0]);
  }

  // ---------------------------------------------------------------- the state is the replay of the log

  predicate GoodMember(g: string, id: string, m: Member)
  {
    !Blank(id) && m.memberID == id && m.groupID == g && m.role != UnknownRole && m.status != UnknownStatus
  }

  predicate GoodEvent(g: string, e: Event)
  {
    ValidateEvent(e).None? && e.groupID == g
  }

  function IDs(log: seq<Event>): set<string>
  {
    set e | e in log :: e.id
  }

  /** A log of group `g`: entry `k` is valid and has version `k + 1`, and ids do not repeat. */
  ghost predicate GoodLog(g: string, log: seq<Event>)
  {
    && 1 <= |log| < U64_MOD
    && (forall k :: 0 <= k < |log| ==> log[k].version == k + 1 && GoodEvent(g, log[k]))
    && (forall j, k :: 0 <= j < k < |log| ==> log[j].id != log[k].id)
  }

  ghost predicate GoodMembers(g: string, s: State)
  {
    s.group.id == g && forall id :: id in s.members ==> GoodMember(g, id, s.members[id])
  }

  /** `s` is what the log makes of the state `origin` right after creation. */
  ghost predicate Logged(g: string, origin: State, s: State, log: seq<Event>)
  {
    && GoodLog(g, log) && GoodMembers(g, s)
    && s == Replay(origin, log[1..])
    && s.version == |log| && s.applied == IDs(log)
  }

  lemma AddedIsGood(g: string, s: State, e: Event)
    requires GoodMembers(g, s) && !Blank(e.memberID) && e.role != UnknownRole
    ensures GoodMember(g, Added(s, e).memberID, Added(s, e))
  {
    TrimSpaceTrims(e.memberID);
  }

  lemma GoneIsGood(g: string, s: State, e: Event, status: Status)
    requires GoodMembers(g, s) && !Blank(e.memberID) && status != UnknownStatus
    ensures GoodMember(g, TrimSpace(e.memberID), Gone(s, e, status))
  {
    TrimSpaceTrims(e.memberID);
  }

  lemma ChangeIsGood(g: string, s: State, e: Event)
    requires Apply(s, e).Changed? && GoodMembers(g, s)
    ensures GoodEvent(g, e) && GoodMembers(g, After(s, e))
  {
    match e.kind
    case MemberAdd => AddedIsGood(g, s, e);
    case MemberRemove => GoneIsGood(g, s, e, Removed);
    case MemberLeave => GoneIsGood(g, s, e, Left);
    case _ =>
  }

  lemma LogExtends(g: string, log: seq<Event>, e: Event)
    requires GoodLog(g, log) && GoodEvent(g, e) && e.version == |log| + 1 && e.id !in IDs(log)
    ensures GoodLog(g, log + [e]) && IDs(log + [e]) == IDs(log) + {e.id}
  {
    forall k | 0 <= k < |log|
      ensures log[k].id != e.id
    {
      assert log[k] in log;
    }
  }

  lemma ReplayAppends(origin: State, log: seq<Event>, e: Event)
    requires |log| >= 1
    ensures Replay(origin, (log + [e])[1..]) == After(Replay(origin, log[1..]), e)
  {
    var longer := (log + [e])[1..];
    assert longer[..|longer| - 1] == log[1..];
  }

  lemma EventExtends(g: string, origin: State, s: State, log: seq<Event>, e: Event)
    requires Logged(g, origin, s, log) && Apply(s, e).Changed?
    ensures Logged(g, origin, After(s, e), log + [e])
  {
    ChangeIsGood(g, s, e);
    AppliedEntry(s, e);
    LogExtends(g, log, e);
    ReplayAppends(origin, log, e);
  }

  lemma {:induction false} BatchExtends(g: string, origin: State, s: State, log: seq<Event>, events: seq<Event>)
    requires Logged(g, origin, s, log)
    ensures Logged(g, origin, RunBatch(s, events).state, log + RunBatch(s, events).applied)
  {
    if events == [] {
      assert log + [] == log;
    } else {
      var before, e := RunBatch(s, events[..|events| - 1]), events[|events| - 1];
      BatchExtends(g, origin, s, log, events[..|events| - 1]);
      if before.error.None? && Apply(before.state, e).Changed? {
        EventExtends(g, origin, before.state, log + before.applied, e);
        assert log + before.applied + [e] == log + (before.applied + [e]);
      }
    }
  }

  // ---------------------------------------------------------------- all or nothing

  /** A plan's batch is a single event, or a membership change followed by its key rotation. */
  ghost predicate PlannedBatch(s: State, op: Op, events: seq<Event>)
  {
    if Rotates(op) then
      exists change: Event :: events == [change, RotateFor(s, change, op.rotateID)]
                              && change.id == op.eventID && change.version == (s.version + 1) % U64_MOD
    else |events| == 1
  }

  ghost predicate RotatingShape(found: Option<State>, op: Op, plan: Plan)
  {
    plan.Batch? ==> found.Some? && PlannedBatch(found.value, op, plan.events)
  }

  lemma LeaveShape(found: Option<State>, op: Op)
    requires op.Leave?
    ensures RotatingShape(found, op, PlanLeave(found, op))
  {
  }

  lemma AcceptShape(found: Option<State>, op: Op)
    requires op.Accept?
    ensures RotatingShape(found, op, PlanAccept(found, op))
  {
  }

  lemma DeclineShape(found: Option<State>, op: Op)
    requires op.Decline?
    ensures RotatingShape(found, op, PlanDecline(found, op))
  {
  }

  lemma RemoveShape(found: Option<State>, op: Op)
    requires op.RemoveMember?
    ensures RotatingShape(found, op, PlanRemoveMember(found, op))
  {
  }

  lemma RotatingPlanShape(found: Option<State>, op: Op)
    requires Rotates(op)
    ensures RotatingShape(found, op, PlanOf(found, op))
  {
    match op
    case Leave(_, _, _, _, _, _) => LeaveShape(found, op);
    case Accept(_, _, _, _, _, _) => AcceptShape(found, op);
    case Decline(_, _, _, _, _, _) => DeclineShape(found, op);
    case RemoveMember(_, _, _, _, _, _, _) => RemoveShape(found, op);
  }

  lemma SinglePlanShape(found: Option<State>, op: Op)
    requires !Rotates(op) && PlanOf(found, op).Batch?
    ensures found.Some? && |PlanOf(found, op).events| == 1
  {
    if op.Inbound? && found.None? {
      InboundForUnknownGroupRefused(op);
    }
  }

  lemma PlanShape(found: Option<State>, op: Op, plan: Plan)
    requires plan == PlanOf(found, op)
    ensures plan.Batch? ==> found.Some? && PlannedBatch(found.value, op, plan.events)
    ensures plan.Create? ==> found.None?
    ensures plan.Delete? ==> found.Some?
  {
    if plan.Batch? {
      if Rotates(op) {
        RotatingPlanShape(found, op);
      } else {
        SinglePlanShape(found, op);
      }
    }
  }

  lemma PairIsWhole(s: State, change: Event, rotateID: string)
    requires RotationFits(s, change.id, rotateID) && change.version == (s.version + 1) % U64_MOD
    ensures var events := [change, RotateFor(s, change, rotateID)];
            var out := RunBatch(s, events);
            if Apply(s, change).Changed? then out.error.None? && out.applied == events
            else out.state == s && out.applied == []
  {
    if Apply(s, change).Changed? {
      ChangeAndRotationIff(s, change, rotateID);
    } else {
      RunTwo(s, change, RotateFor(s, change, rotateID));
    }
  }

  /** Every batch an admissible operation builds is applied completely or not at all. */
  lemma PlannedBatchIsWhole(s: State, op: Op, events: seq<Event>)
    requires PlannedBatch(s, op, events)
    requires Rotates(op) ==> RotationFits(s, op.eventID, op.rotateID)
    ensures var out := RunBatch(s, events);
            (out.error.None? && out.applied == events) || (out.state == s && out.applied == [])
  {
    if Rotates(op) {
      var change: Event :| events == [change, RotateFor(s, change, op.rotateID)]
                           && change.id == op.eventID && change.version == (s.version + 1) % U64_MOD;
      PairIsWhole(s, change, op.rotateID);
    } else {
      assert events == [events[0]];
      RunOne(s, events[0]);
    }
  }

  lemma PerformIsAtomic(c: Cell, op: Op, plan: Plan, persistOk: bool)
    requires c.state.Some? && c.log.Some?
    requires plan.Batch? ==> PlannedBatch(c.state.value, op, plan.events)
    requires !plan.Create?
    requires Rotates(op) ==> RotationFits(c.state.value, op.eventID, op.rotateID)
    ensures var c' := Perform(c, plan, persistOk);
            || c' == c
            || (persistOk && plan.Delete? && c' == Cell(None, None))
            || (persistOk && plan.Batch?
                && RunBatch(c.state.value, plan.events).applied == plan.events
                && c' == Cell(Some(RunBatch(c.state.value, plan.events).state), Some(c.log.value + plan.events)))
  {
    if plan.Batch? {
      PlannedBatchIsWhole(c.state.value, op, plan.events);
    }
  }

  /** All or nothing: an operation on a stored group leaves state and log exactly as they were, or
      applies and logs its whole batch, or deletes the group; also when persisting fails. */
  lemma OperationIsAtomic(g: string, h: History, step: Step)
    requires Admissible(g, h, step) && h.cell.state.Some? && h.cell.log.Some?
    ensures var c, plan := h.cell, PlanOf(h.cell.state, step.op);
            var c' := Next(h, step).cell;
            || c' == c
            || (step.persistOk && plan.Delete? && c' == Cell(None, None))
            || (step.persistOk && plan.Batch?
                && RunBatch(c.state.value, plan.events).applied == plan.events
                && c' == Cell(Some(RunBatch(c.state.value, plan.events).state), Some(c.log.value + plan.events)))
  {
    var plan := PlanOf(h.cell.state, step.op);
    PlanShape(h.cell.state, step.op, plan);
    PerformIsAtomic(h.cell, step.op, plan, step.persistOk);
  }

  // ---------------------------------------------------------------- replay, over every run

  /** The stored state is the replay of the rest of the log from the state after creation. */
  ghost predicate Recorded(g: string, h: History)
  {
    match h.cell.state
    case None => h.cell.log.None? && h.origin.None?
    case Some(s) =>
      && h.cell.log.Some? && h.origin.Some?
      && Logged(g, h.origin.value, s, h.cell.log.value)
      && Logged(g, h.origin.value, h.origin.value, h.cell.log.value[..1])
  }

  lemma CreatedIsRecorded(g: string, op: Op)
    requires op.CreateGroup? && Target(op) == g && PlanCreate(None, op).Create?
    ensures var plan := PlanCreate(None, op);
            plan.state.group.id == g && Logged(g, plan.state, plan.state, [plan.event])
  {
    var plan := PlanCreate(None, op);
    TrimSpaceTrims(op.identityID);
    assert [plan.event][1..] == [];
    assert IDs([plan.event]) == {plan.event.id};
  }

  lemma LivePlanIsRecorded(g: string, h: History, op: Op, plan: Plan, persistOk: bool)
    requires Recorded(g, h) && h.cell.state.Some? && !plan.Create?
    requires plan.Batch? ==> PlannedBatch(h.cell.state.value, op, plan.events)
    requires Rotates(op) ==> RotationFits(h.cell.state.value, op.eventID, op.rotateID)
    ensures Recorded(g, NextWith(h, plan, persistOk))
  {
    PerformIsAtomic(h.cell, op, plan, persistOk);
    if plan.Batch? {
      BatchExtends(g, h.origin.value, h.cell.state.value, h.cell.log.value, plan.events);
      assert (h.cell.log.value + plan.events)[..1] == h.cell.log.value[..1];
    }
  }

  lemma FirstPlanIsRecorded(g: string, h: History, plan: Plan, persistOk: bool)
    requires Recorded(g, h) && h.cell.state.None? && !plan.Batch? && !plan.Delete?
    requires plan.Create? ==> Logged(g, plan.state, plan.state, [plan.event])
    ensures Recorded(g, NextWith(h, plan, persistOk))
  {
    if plan.Create? {
      assert [plan.event][..1] == [plan.event];
    }
  }

  lemma StepIsRecorded(g: string, h: History, step: Step)
    requires Recorded(g, h) && Admissible(g, h, step)
    ensures Recorded(g, Next(h, step))
  {
    var plan := PlanOf(h.cell.state, step.op);
    PlanShape(h.cell.state, step.op, plan);
    if h.cell.state.Some? {
      LivePlanIsRecorded(g, h, step.op, plan, step.persistOk);
    } else {
      if plan.Create? {
        CreatedIsRecorded(g, step.op);
      }
      FirstPlanIsRecorded(g, h, plan, step.persistOk);
    }
  }

  /** Over every run mixing local operations, inbound events and failing persists, the state of a
      live group is the replay of its log from the state right after creation, entry `k` of the log
      has version `k + 1`, and the applied ids are exactly the ids of the log. */
  lemma {:induction false} EveryRunIsRecorded(g: string, steps: seq<Step>)
    requires AdmissibleRun(g, NoGroup, steps)
    ensures Recorded(g, Run(NoGroup, steps))
  {
    if steps != [] {
      var before := steps[..|steps| - 1];
      assert forall k :: 0 <= k <= |before| ==> before[..k] == steps[..k];
      EveryRunIsRecorded(g, before);
      StepIsRecorded(g, Run(NoGroup, before), steps[|steps| - 1]);
    }
  }
}
