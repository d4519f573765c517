/** Group chat membership as a versioned event log: events, states, and the applier. */
module GroupModel {
  import opened Text

  type Time = int
  const ZERO_TIME: Time := 0

  type U32 = n: nat | n < U32_MOD

  datatype Role = Owner | Admin | User | UnknownRole
  datatype Status = Invited | Active | Left | Removed | UnknownStatus
  datatype Kind = MemberAdd | MemberRemove | MemberLeave | TitleChange | ProfileChange | KeyRotate | UnknownKind

  datatype Error =
    | InvalidGroupID | InvalidMemberID | InvalidMemberRole | InvalidMemberStatus | InvalidTitle
    | InvalidEventID | InvalidEventType | InvalidEventVersion | InvalidEventActorID | InvalidEventPayload
    | OutOfOrder | GroupNotFound | MembershipNotFound | PermissionDenied | CannotInviteSelf | MemberBlocked
    | RateLimited | MemberLimitExceeded | PendingInvitesExceeded | InvalidMemberState | NotAdmitted
    | IDExhausted | PersistFailed

  datatype Result<+T> = Ok(value: T) | Err(error: Error)

  datatype Group = Group(
    id: string, title: string, description: string, avatar: string, createdBy: string, createdAt: Time, updatedAt: Time)

  datatype Member = Member(
    groupID: string, memberID: string, role: Role, status: Status,
    invitedAt: Time, activatedAt: Time, updatedAt: Time)
  {
    predicate IsOwner() { role == Owner }
    predicate CanManageMembers() { role == Owner || role == Admin }
    predicate CanMutateRole() { status == Active || status == Invited }
  }

  datatype Event = Event(
    id: string, groupID: string, version: U64, kind: Kind, actorID: string, occurredAt: Time,
    memberID: string, role: Role, title: string, description: string, avatar: string, keyVersion: U32)

  /** The value of a group state, maps included. */
  datatype State = State(
    group: Group, version: U64, applied: set<string>, members: map<string, Member>, lastKeyVersion: U32)

  function NewState(group: Group): State
  {
    State(group, 0, {}, map[], 0)
  }

  // ---------------------------------------------------------------- validation and application

  function ValidateEvent(e: Event): Option<Error>
  {
    if Blank(e.id) then Some(InvalidEventID)
    else if Blank(e.groupID) then Some(InvalidGroupID)
    else if e.version == 0 then Some(InvalidEventVersion)
    else if e.kind == UnknownKind then Some(InvalidEventType)
    else if Blank(e.actorID) then Some(InvalidEventActorID)
    else if e.occurredAt == ZERO_TIME then Some(InvalidEventPayload)
    else match e.kind
      case MemberAdd => if Blank(e.memberID) || e.role == UnknownRole then Some(InvalidEventPayload) else None
      case MemberRemove => if Blank(e.memberID) then Some(InvalidEventPayload) else None
      case MemberLeave => if Blank(e.memberID) then Some(InvalidEventPayload) else None
      case TitleChange => if Blank(e.title) then Some(InvalidEventPayload) else None
      case ProfileChange => if Blank(e.title) then Some(InvalidEventPayload) else None
      case KeyRotate => if e.keyVersion == 0 then Some(InvalidEventPayload) else None
  }

  /** The outcome of offering an event to a state. */
  datatype Applied = Changed(state: State) | Duplicate | Rejected(error: Error)

  function Apply(s: State, e: Event): Applied
  {
    if ValidateEvent(e).Some? then Rejected(ValidateEvent(e).value)
    else if Blank(s.group.id) then Rejected(InvalidGroupID)
    else if e.groupID != s.group.id then Rejected(InvalidGroupID)
    else if e.id in s.applied then Duplicate
    else if e.version != (s.version + 1) % U64_MOD then Rejected(OutOfOrder)
    else Changed(Effect(s, e).(version := e.version, applied := s.applied + {e.id}))
  }

  /** What a valid, new, in-order event does apart from bookkeeping. */
  function Effect(s: State, e: Event): State
  {
    match e.kind
    case MemberAdd => s.(members := s.members[Added(s, e).memberID := Added(s, e)])
    case MemberRemove => s.(members := s.members[TrimSpace(e.memberID) := Gone(s, e, Removed)])
    case MemberLeave => s.(members := s.members[TrimSpace(e.memberID) := Gone(s, e, Left)])
    case TitleChange => s.(group := s.group.(title := TrimSpace(e.title), updatedAt := e.occurredAt))
    case ProfileChange =>
      s.(group := s.group.(title := TrimSpace(e.title), description := TrimSpace(e.description),
                           avatar := TrimSpace(e.avatar), updatedAt := e.occurredAt))
    case KeyRotate => s.(lastKeyVersion := e.keyVersion, group := s.group.(updatedAt := e.occurredAt))
    case UnknownKind => s
  }

  function Added(s: State, e: Event): Member
  {
    var id := TrimSpace(e.memberID);
    if id !in s.members then
      Member(s.group.id, id, e.role, Invited, e.occurredAt, ZERO_TIME, e.occurredAt)
    else
      var m := s.members[id].(role := e.role, updatedAt := e.occurredAt);
      match m.status
      case Invited => if TrimSpace(e.actorID) == id then m.(status := Active, activatedAt := e.occurredAt) else m
      case Left => m.(status := Invited, invitedAt := e.occurredAt, activatedAt := ZERO_TIME)
      case Removed => m.(status := Invited, invitedAt := e.occurredAt, activatedAt := ZERO_TIME)
      case _ => m
  }

  function Gone(s: State, e: Event, status: Status): Member
  {
    var id := TrimSpace(e.memberID);
    var m := if id in s.members then s.members[id]
             else Member(s.group.id, id, User, status, ZERO_TIME, ZERO_TIME, ZERO_TIME);
    m.(status := status, updatedAt := e.occurredAt)
  }

  /** The state after offering `e`. */
  function After(s: State, e: Event): State
  {
    match Apply(s, e)
    case Changed(t) => t
    case _ => s
  }

  function Replay(s: State, events: seq<Event>): State
  {
    if events == [] then s else After(Replay(s, events[..|events| - 1]), events[|events| - 1])
  }

  lemma ReplayExtends(s: State, log: seq<Event>, n: nat)
    requires n < |log|
    ensures Replay(s, log[..n + 1]) == After(Replay(s, log[..n]), log[n])
  {
    assert log[..n + 1][..n] == log[..n];
  }

  // ---------------------------------------------------------------- replicas of one log

  /** `log` continues a state at version `start`, one version per entry, ids pairwise distinct. */
  ghost predicate IsLog(start: nat, log: seq<Event>)
  {
    && start + |log| < U64_MOD
    && (forall k :: 0 <= k < |log| ==> log[k].version == start + 1 + k)
    && (forall j, k :: 0 <= j < k < |log| ==> log[j].id != log[k].id)
  }

  /** How far a replica gets that is offered the log entries `feed[0]`, `feed[1]`, ... when every
      entry is acceptable in its turn: it takes an entry exactly when it is the next one. */
  function Reached(feed: seq<nat>): nat
  {
    if feed == [] then 0
    else
      var n := Reached(feed[..|feed| - 1]);
      if feed[|feed| - 1] == n then n + 1 else n
  }

  function Feed(s: State, log: seq<Event>, feed: seq<nat>): State
    requires forall k :: 0 <= k < |feed| ==> feed[k] < |log|
  {
    if feed == [] then s
    else After(Feed(s, log, feed[..|feed| - 1]), log[feed[|feed| - 1]])
  }

  /** `t` has the version and the ids that the first `n` entries of `log` lead to from `s`. */
  ghost predicate AppliedUpTo(s: State, log: seq<Event>, n: nat, t: State)
  {
    && n <= |log|
    && t.version == s.version + n
    && (forall k :: 0 <= k < n ==> log[k].id in t.applied)
    && (forall k :: n <= k < |log| ==> (log[k].id in t.applied <==> log[k].id in s.applied))
  }

  lemma AppliedEntry(t: State, e: Event)
    requires Apply(t, e).Changed?
    ensures var t' := After(t, e);
            && e.id !in t.applied && t'.applied == t.applied + {e.id}
            && e.version == (t.version + 1) % U64_MOD && t'.version == e.version
  {
  }

  lemma OfferedEntry(s: State, log: seq<Event>, n: nat, t: State, j: nat)
    requires IsLog(s.version, log) && AppliedUpTo(s, log, n, t) && j < |log|
    ensures Apply(t, log[j]).Changed? ==> j == n && AppliedUpTo(s, log, n + 1, After(t, log[j]))
  {
    if Apply(t, log[j]).Changed? {
      AppliedEntry(t, log[j]);
    }
  }

  /** Replica prefix consistency: whatever entries of one log a replica is offered, in whatever order
      and however often, it holds the replay of a prefix of that log. */
  lemma {:induction false} ReplicaHoldsPrefix(s: State, log: seq<Event>, feed: seq<nat>) returns (n: nat)
    requires IsLog(s.version, log)
    requires forall k :: 0 <= k < |feed| ==> feed[k] < |log|
    ensures n <= |log| && n <= Reached(feed) && Feed(s, log, feed) == Replay(s, log[..n])
    ensures AppliedUpTo(s, log, n, Feed(s, log, feed))
  {
    if feed == [] {
      n := 0;
      assert log[..0] == [];
    } else {
      var before := feed[..|feed| - 1];
      n := ReplicaHoldsPrefix(s, log, before);
      var t, j := Feed(s, log, before), feed[|feed| - 1];
      OfferedEntry(s, log, n, t, j);
      if Apply(t, log[j]).Changed? {
        ReplayExtends(s, log, n);
        n := n + 1;
      }
    }
  }

  /** Two replicas that started alike and stand at the same version are equal. */
  lemma ReplicasAtSameVersionAgree(s: State, log: seq<Event>, feed: seq<nat>, feed': seq<nat>)
    requires IsLog(s.version, log)
    requires forall k :: 0 <= k < |feed| ==> feed[k] < |log|
    requires forall k :: 0 <= k < |feed'| ==> feed'[k] < |log|
    requires Feed(s, log, feed).version == Feed(s, log, feed').version
    ensures Feed(s, log, feed) == Feed(s, log, feed')
  {
    var n := ReplicaHoldsPrefix(s, log, feed);
    var n' := ReplicaHoldsPrefix(s, log, feed');
  }

  /** Every entry of the log would be accepted by a state of this group in its turn. */
  ghost predicate Acceptable(s: State, log: seq<Event>)
  {
    && !Blank(s.group.id)
    && forall k :: 0 <= k < |log| ==>
         ValidateEvent(log[k]).None? && log[k].groupID == s.group.id && log[k].id !in s.applied
  }

  lemma EffectKeepsGroupID(s: State, e: Event)
    ensures After(s, e).group.id == s.group.id
  {
  }

  lemma {:induction false} ReplayKeepsGroupID(s: State, events: seq<Event>)
    ensures Replay(s, events).group.id == s.group.id
  {
    if events != [] {
      ReplayKeepsGroupID(s, events[..|events| - 1]);
      EffectKeepsGroupID(Replay(s, events[..|events| - 1]), events[|events| - 1]);
    }
  }

  lemma NextEntryApplies(s: State, log: seq<Event>, n: nat, t: State)
    requires IsLog(s.version, log) && Acceptable(s, log) && n < |log|
    requires t.group.id == s.group.id && t.version == s.version + n && log[n].id !in t.applied
    ensures Apply(t, log[n]).Changed?
  {
  }

  /** With acceptable entries the replica gets exactly as far as the feed brings them in order; so a
      feed that contains the whole log in order leads to the replay of the whole log. */
  lemma {:induction false} ReplicaReaches(s: State, log: seq<Event>, feed: seq<nat>)
    requires IsLog(s.version, log) && Acceptable(s, log)
    requires forall k :: 0 <= k < |feed| ==> feed[k] < |log|
    ensures Reached(feed) <= |log| && Feed(s, log, feed) == Replay(s, log[..Reached(feed)])
    ensures AppliedUpTo(s, log, Reached(feed), Feed(s, log, feed))
  {
    if feed == [] {
      assert log[..0] == [];
    } else {
      var before := feed[..|feed| - 1];
      ReplicaReaches(s, log, before);
      var t, j, n := Feed(s, log, before), feed[|feed| - 1], Reached(before);
      OfferedEntry(s, log, n, t, j);
      if j == n {
        ReplayKeepsGroupID(s, log[..n]);
        NextEntryApplies(s, log, n, t);
        ReplayExtends(s, log, n);
      }
    }
  }
}
