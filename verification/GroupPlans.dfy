/** What each group operation decides to do: a refusal, nothing, or a batch of events.

    Every operation concerns one group id and looks at nothing but the state stored under that id,
    so plans are functions of that state, or of its absence. The guards are pure; the batches they
    build are applied by `GroupService`. Rate limiters, block lists and the replay guard are
    libraries or other components, so their answers are parameters.
 */
module GroupPlans {
  import opened Text
  import opened GroupModel

  datatype Limits = Limits(maxMembers: nat, maxPendingInvites: nat)

  /** An operation request. `eventID` and `rotateID` are what the id generator returns, `allowed` and
      `blocked` what rate limiter and block list answer; `limits` is absent when no abuse protection
      is configured. */
  datatype Op =
    | CreateGroup(title: string, identityID: string, now: Time, groupID: Option<string>, eventID: string)
    | Invite(groupID': string, actorID: string, memberID: string, now: Time, blocked: bool, allowed: bool,
             limits: Option<Limits>, eventID: string)
    | Leave(groupID': string, actorID: string, now: Time, allowed: bool, eventID: string, rotateID: string)
    | UpdateProfile(groupID': string, actorID: string, title: string, description: string, avatar: string,
                    now: Time, allowed: bool, eventID: string)
    | DeleteGroup(groupID': string, actorID: string, now: Time, allowed: bool)
    | Accept(groupID': string, actorID: string, now: Time, allowed: bool, eventID: string, rotateID: string)
    | Decline(groupID': string, actorID: string, now: Time, allowed: bool, eventID: string, rotateID: string)
    | RemoveMember(groupID': string, actorID: string, memberID: string, now: Time, allowed: bool,
                   eventID: string, rotateID: string)
    | ChangeRole(groupID': string, actorID: string, memberID: string, role: Role, now: Time, allowed: bool,
                 eventID: string)
    | Inbound(event: Event, localID: string, admitted: bool)

  /** The group id an operation concerns. */
  function Target(op: Op): string
  {
    match op
    case CreateGroup(_, _, _, groupID, _) => if groupID.Some? then groupID.value else ""
    case Inbound(event, _, _) => event.groupID
    case _ => TrimSpace(op.groupID')
  }

  /** What to do. `Create` carries the state right after creation and its first event. */
  datatype Plan =
    | Refuse(error: Error)
    | Keep
    | Batch(events: seq<Event>)
    | Create(state: State, event: Event)
    | Delete

  function Load(found: Option<State>, actorID: string, requireActive: bool): Result<State>
  {
    if found.None? then Err(GroupNotFound)
    else if Blank(actorID) then Err(InvalidMemberID)
    else
      var s := found.value;
      var id := TrimSpace(actorID);
      if id !in s.members then Err(MembershipNotFound)
      else if requireActive && s.members[id].status != Active then Err(PermissionDenied)
      else Ok(s)
  }

  function Occupying(members: map<string, Member>): set<string>
  {
    set id | id in members && (members[id].status == Active || members[id].status == Invited)
  }

  function Pending(members: map<string, Member>): set<string>
  {
    set id | id in members && members[id].status == Invited
  }

  function ActiveMembers(s: State): set<string>
  {
    set id | id in s.members && s.members[id].status == Active
  }

  /** `EnforceInviteQuotas` on the value of a state. */
  function QuotaError(limits: Option<Limits>, s: State): Option<Error>
  {
    match limits
    case None => None
    case Some(l) =>
      if |Occupying(s.members)| >= l.maxMembers then Some(MemberLimitExceeded)
      else if |Pending(s.members)| >= l.maxPendingInvites then Some(PendingInvitesExceeded)
      else None
  }

  function MakeEvent(id: string, s: State, kind: Kind, actorID: string, now: Time, memberID: string, role: Role): Event
  {
    Event(id, s.group.id, (s.version + 1) % U64_MOD, kind, actorID, now, memberID, role, "", "", "", 0)
  }

  /** The key rotation that accompanies a membership change. */
  function RotateFor(s: State, change: Event, rotateID: string): Event
  {
    var next := if s.lastKeyVersion == 0 then 1 else (s.lastKeyVersion + 1) % U32_MOD;
    Event(rotateID, change.groupID, (change.version + 1) % U64_MOD, KeyRotate, change.actorID, change.occurredAt,
          "", UnknownRole, "", "", "", next)
  }

  function WithRotation(s: State, change: Event, rotateID: string): Plan
  {
    Batch([change, RotateFor(s, change, rotateID)])
  }

  function PlanCreate(found: Option<State>, op: Op): Plan
    requires op.CreateGroup?
  {
    if Blank(op.title) then Refuse(InvalidTitle)
    else if Blank(op.identityID) then Refuse(InvalidMemberID)
    else if op.groupID.None? || found.Some? || op.groupID.value == "" then Refuse(IDExhausted)
    else
      var id := TrimSpace(op.identityID);
      var s := NewState(Group(op.groupID.value, TrimSpace(op.title), "", "", id, op.now, op.now));
      var e := MakeEvent(op.eventID, s, MemberAdd, id, op.now, id, Owner);
      match Apply(s, e)
      case Rejected(err) => Refuse(err)
      case Duplicate => Keep
      case Changed(t) =>
        var owner := Member(op.groupID.value, id, Owner, Active, op.now, op.now, op.now);
        Create(t.(members := t.members[id := owner], group := t.group.(updatedAt := op.now), lastKeyVersion := 1), e)
  }

  function PlanInvite(found: Option<State>, op: Op): Plan
    requires op.Invite?
  {
    var g, a, m := TrimSpace(op.groupID'), TrimSpace(op.actorID), TrimSpace(op.memberID);
    if g == "" then Refuse(InvalidGroupID)
    else if a == "" || m == "" then Refuse(InvalidMemberID)
    else if m == a then Refuse(CannotInviteSelf)
    else if op.blocked then Refuse(MemberBlocked)
    else if op.limits.Some? && !op.allowed then Refuse(RateLimited)
    else match Load(found, a, true)
      case Err(e) => Refuse(e)
      case Ok(s) =>
        if a !in s.members || !s.members[a].CanManageMembers() then Refuse(PermissionDenied)
        else if m in s.members && (s.members[m].status == Invited || s.members[m].status == Active) then Keep
        else match QuotaError(op.limits, s)
          case Some(e) => Refuse(e)
          case None => Batch([MakeEvent(op.eventID, s, MemberAdd, a, op.now, m, User)])
  }

  function PlanLeave(found: Option<State>, op: Op): Plan
    requires op.Leave?
  {
    var g, a := TrimSpace(op.groupID'), TrimSpace(op.actorID);
    if g == "" then Refuse(InvalidGroupID)
    else if a == "" then Refuse(InvalidMemberID)
    else if !op.allowed then Refuse(RateLimited)
    else if found.None? then Refuse(GroupNotFound)
    else
      var s := found.value;
      if a !in s.members then Refuse(MembershipNotFound)
      else if s.members[a].status == Left || s.members[a].status == Removed then Keep
      else WithRotation(s, MakeEvent(op.eventID, s, MemberLeave, a, op.now, a, UnknownRole), op.rotateID)
  }

  function PlanUpdateProfile(found: Option<State>, op: Op): Plan
    requires op.UpdateProfile?
  {
    var g, a, title := TrimSpace(op.groupID'), TrimSpace(op.actorID), TrimSpace(op.title);
    var description, avatar := TrimSpace(op.description), TrimSpace(op.avatar);
    if g == "" then Refuse(InvalidGroupID)
    else if a == "" then Refuse(InvalidMemberID)
    else if title == "" then Refuse(InvalidTitle)
    else if !op.allowed then Refuse(RateLimited)
    else match Load(found, a, true)
      case Err(e) => Refuse(e)
      case Ok(s) =>
        if a !in s.members || !s.members[a].CanManageMembers() then Refuse(PermissionDenied)
        else if s.group.title == title && s.group.description == description && s.group.avatar == avatar then Keep
        else Batch([MakeEvent(op.eventID, s, ProfileChange, a, op.now, "", UnknownRole)
                       .(title := title, description := description, avatar := avatar)])
  }

  function PlanDelete(found: Option<State>, op: Op): Plan
    requires op.DeleteGroup?
  {
    var g, a := TrimSpace(op.groupID'), TrimSpace(op.actorID);
    if g == "" then Refuse(InvalidGroupID)
    else if a == "" then Refuse(InvalidMemberID)
    else if !op.allowed then Refuse(RateLimited)
    else match Load(found, a, true)
      case Err(e) => Refuse(e)
      case Ok(s) => if a in s.members && s.members[a].IsOwner() then Delete else Refuse(PermissionDenied)
  }

  function PlanAccept(found: Option<State>, op: Op): Plan
    requires op.Accept?
  {
    var g, a := TrimSpace(op.groupID'), TrimSpace(op.actorID);
    if g == "" then Refuse(InvalidGroupID)
    else if a == "" then Refuse(InvalidMemberID)
    else if !op.allowed then Refuse(RateLimited)
    else match Load(found, a, false)
      case Err(e) => Refuse(e)
      case Ok(s) =>
        if a !in s.members then Refuse(MembershipNotFound)
        else if s.members[a].status == Active then Keep
        else if s.members[a].status != Invited then Refuse(InvalidMemberState)
        else WithRotation(s, MakeEvent(op.eventID, s, MemberAdd, a, op.now, a, s.members[a].role), op.rotateID)
  }

  function PlanDecline(found: Option<State>, op: Op): Plan
    requires op.Decline?
  {
    var g, a := TrimSpace(op.groupID'), TrimSpace(op.actorID);
    if g == "" then Refuse(InvalidGroupID)
    else if a == "" then Refuse(InvalidMemberID)
    else if !op.allowed then Refuse(RateLimited)
    else match Load(found, a, false)
      case Err(e) => Refuse(e)
      case Ok(s) =>
        if a !in s.members || s.members[a].status == Removed then Keep
        else if s.members[a].status != Invited then Refuse(InvalidMemberState)
        else WithRotation(s, MakeEvent(op.eventID, s, MemberRemove, a, op.now, a, UnknownRole), op.rotateID)
  }

  function PlanRemoveMember(found: Option<State>, op: Op): Plan
    requires op.RemoveMember?
  {
    var g, a, m := TrimSpace(op.groupID'), TrimSpace(op.actorID), TrimSpace(op.memberID);
    if g == "" then Refuse(InvalidGroupID)
    else if a == "" || m == "" then Refuse(InvalidMemberID)
    else if !op.allowed then Refuse(RateLimited)
    else match Load(found, a, true)
      case Err(e) => Refuse(e)
      case Ok(s) =>
        if a !in s.members || !s.members[a].CanManageMembers() then Refuse(PermissionDenied)
        else if m !in s.members then Refuse(MembershipNotFound)
        else if s.members[m].IsOwner() then Refuse(PermissionDenied)
        else if s.members[m].status == Removed then Keep
        else WithRotation(s, MakeEvent(op.eventID, s, MemberRemove, a, op.now, m, UnknownRole), op.rotateID)
  }

  function PlanChangeRole(found: Option<State>, op: Op): Plan
    requires op.ChangeRole?
  {
    var g, a, m := TrimSpace(op.groupID'), TrimSpace(op.actorID), TrimSpace(op.memberID);
    if g == "" then Refuse(InvalidGroupID)
    else if a == "" || m == "" then Refuse(InvalidMemberID)
    else if !op.allowed then Refuse(RateLimited)
    else match Load(found, a, true)
      case Err(e) => Refuse(e)
      case Ok(s) =>
        if a !in s.members || !s.members[a].IsOwner() then Refuse(PermissionDenied)
        else if m !in s.members then Refuse(MembershipNotFound)
        else if s.members[m].IsOwner() then Refuse(PermissionDenied)
        else if !s.members[m].CanMutateRole() then Refuse(InvalidMemberState)
        else if s.members[m].role == op.role then Keep
        else Batch([MakeEvent(op.eventID, s, MemberAdd, a, op.now, m, op.role)])
  }

  // ---------------------------------------------------------------- inbound events

  /** The state an inbound event is judged against; an unknown group may get an empty one. */
  function InboundState(found: Option<State>, e: Event, localID: string): Result<State>
  {
    if found.Some? then Ok(found.value)
    else if e.kind != MemberAdd || e.version != 1 || e.memberID != TrimSpace(localID) then Err(GroupNotFound)
    else Ok(NewState(Group(e.groupID, e.groupID, "", "", e.actorID, e.occurredAt, e.occurredAt)))
  }

  function Authorize(s: State, e: Event): Option<Error>
  {
    var actor := if e.actorID in s.members then Some(s.members[e.actorID]) else None;
    var target := if e.memberID in s.members then Some(s.members[e.memberID]) else None;
    var activeActor := actor.Some? && actor.value.status == Active;
    match e.kind
    case MemberAdd =>
      if actor.None? then Some(PermissionDenied)
      else if target.Some? && target.value.status == Invited && e.actorID == e.memberID then None
      else if actor.value.status != Active then Some(PermissionDenied)
      else if target.None? then if actor.value.CanManageMembers() then None else Some(PermissionDenied)
      else if target.value.role != e.role && actor.value.role != Owner then Some(PermissionDenied)
      else if target.value.role != e.role && target.value.role == Owner then Some(PermissionDenied)
      else None
    case MemberRemove =>
      if !activeActor then Some(PermissionDenied)
      else if target.None? then Some(MembershipNotFound)
      else if !actor.value.CanManageMembers() then Some(PermissionDenied)
      else if target.value.role == Owner then Some(PermissionDenied)
      else if actor.value.role == Admin && target.value.role == Admin then Some(PermissionDenied)
      else None
    case MemberLeave =>
      if actor.None? || e.actorID != e.memberID then Some(PermissionDenied) else None
    case TitleChange => if activeActor && actor.value.CanManageMembers() then None else Some(PermissionDenied)
    case ProfileChange => if activeActor && actor.value.CanManageMembers() then None else Some(PermissionDenied)
    case KeyRotate => if activeActor && actor.value.role == Owner then None else Some(PermissionDenied)
    case UnknownKind => Some(PermissionDenied)
  }

  function PlanInbound(found: Option<State>, op: Op): Plan
    requires op.Inbound?
  {
    if !op.admitted then Refuse(NotAdmitted)
    else match InboundState(found, op.event, op.localID)
      case Err(e) => Refuse(e)
      case Ok(s) =>
        match Authorize(s, op.event)
        case Some(e) => Refuse(e)
        case None => Batch([op.event])
  }

  function PlanOf(found: Option<State>, op: Op): Plan
  {
    match op
    case CreateGroup(_, _, _, _, _) => PlanCreate(found, op)
    case Invite(_, _, _, _, _, _, _, _) => PlanInvite(found, op)
    case Leave(_, _, _, _, _, _) => PlanLeave(found, op)
    case UpdateProfile(_, _, _, _, _, _, _, _) => PlanUpdateProfile(found, op)
    case DeleteGroup(_, _, _, _) => PlanDelete(found, op)
    case Accept(_, _, _, _, _, _) => PlanAccept(found, op)
    case Decline(_, _, _, _, _, _) => PlanDecline(found, op)
    case RemoveMember(_, _, _, _, _, _, _) => PlanRemoveMember(found, op)
    case ChangeRole(_, _, _, _, _, _, _) => PlanChangeRole(found, op)
    case Inbound(_, _, _) => PlanInbound(found, op)
  }

  /** An inbound event for a group that is not stored is always refused: the empty state it would be
      judged against has no member who could authorise it. */
  lemma InboundForUnknownGroupRefused(op: Op)
    requires op.Inbound?
    ensures PlanOf(None, op).Refuse?
  {
  }
}
