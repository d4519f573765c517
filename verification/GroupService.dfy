/** The stored state and event log of one group, and how batches are applied to them.

    The program keeps two maps from group id to state and to log, and every operation touches only
    the entries of one id; a `GroupCell` is that pair of entries. A group state is a struct holding
    two map references. Copies of the struct share the maps, so applying an event to a copy also
    changes the stored state's maps; the rollback on a failed persist and the early return on a
    rejected event are modelled on that heap.
 */
module GroupService {
  import opened Text
  import opened GroupModel
  import opened GroupPlans

  // ---------------------------------------------------------------- batches on values

  datatype Outcome = Outcome(state: State, applied: seq<Event>, error: Option<Error>)

  function Offer(before: Outcome, e: Event): Outcome
  {
    if before.error.Some? then before
    else match Apply(before.state, e)
      case Rejected(err) => before.(error := Some(err))
      case Duplicate => before
      case Changed(t) => before.(state := t, applied := before.applied + [e])
  }

  /** Offers the events one by one, skipping duplicates and stopping at the first rejection. */
  function RunBatch(s: State, events: seq<Event>): Outcome
  {
    if events == [] then Outcome(s, [], None)
    else Offer(RunBatch(s, events[..|events| - 1]), events[|events| - 1])
  }

  /** What the two maps hold under one group id. */
  datatype Cell = Cell(state: Option<State>, log: Option<seq<Event>>)

  function LogOf(c: Cell): seq<Event>
  {
    if c.log.Some? then c.log.value else []
  }

  /** The stored struct of `s` after its shared maps have become those of `t`. */
  function Torn(s: State, t: State): State
  {
    s.(applied := t.applied, members := t.members)
  }

  /** What running a batch with outcome `out` on the stored state `s` leaves behind. */
  function AfterOutcome(c: Cell, s: State, out: Outcome, persistOk: bool): Cell
  {
    if out.error.Some? then c.(state := Some(Torn(s, out.state)))
    else if out.applied == [] then c
    else if !persistOk then Cell(Some(s), Some(LogOf(c)))
    else Cell(Some(out.state), Some(LogOf(c) + out.applied))
  }

  function Perform(c: Cell, plan: Plan, persistOk: bool): Cell
  {
    match plan
    case Refuse(_) => c
    case Keep => c
    case Batch(events) =>
      if c.state.Some? then AfterOutcome(c, c.state.value, RunBatch(c.state.value, events), persistOk) else c
    case Create(s, e) => if persistOk then Cell(Some(s), Some([e])) else Cell(None, None)
    case Delete => if persistOk then Cell(None, None) else c
  }

  // ---------------------------------------------------------------- states on the heap

  class IDSet {
    var ids: set<string>
    constructor (ids: set<string>)
      ensures this.ids == ids
    {
      this.ids := ids;
    }
  }

  class MemberMap {
    var entries: map<string, Member>
    constructor (entries: map<string, Member>)
      ensures this.entries == entries
    {
      this.entries := entries;
    }
  }

  /** A group state as stored: a struct with two shared map references. */
  datatype GroupState = GroupState(group: Group, version: U64, applied: IDSet, members: MemberMap, lastKeyVersion: U32)

  function View(gs: GroupState): State
    reads gs.applied, gs.members
  {
    State(gs.group, gs.version, gs.applied.ids, gs.members.entries, gs.lastKeyVersion)
  }

  method NewStruct(s: State) returns (gs: GroupState)
    ensures fresh(gs.applied) && fresh(gs.members)
    ensures View(gs) == s
  {
    var ids := new IDSet(s.applied);
    var entries := new MemberMap(s.members);
    gs := GroupState(s.group, s.version, ids, entries, s.lastKeyVersion);
  }

  method CloneState(gs: GroupState) returns (copy: GroupState)
    ensures fresh(copy.applied) && fresh(copy.members)
    ensures View(copy) == View(gs)
  {
    copy := NewStruct(View(gs));
  }

  /** Applies `e` to the struct `gs`, writing through its map references. */
  method ApplyGroupEvent(gs: GroupState, e: Event) returns (next: GroupState, r: Result<bool>)
    modifies gs.applied, gs.members
    ensures next.applied == gs.applied && next.members == gs.members
    ensures View(next) == After(old(View(gs)), e)
    ensures match Apply(old(View(gs)), e)
            case Changed(_) => r == Ok(true)
            case Duplicate => r == Ok(false)
            case Rejected(err) => r == Err(err)
  {
    next := gs;
    var invalid := ValidateEvent(e);
    if invalid.Some? {
      return next, Err(invalid.value);
    }
    if Blank(gs.group.id) || e.groupID != gs.group.id {
      return next, Err(InvalidGroupID);
    }
    if e.id in gs.applied.ids {
      return next, Ok(false);
    }
    if e.version != (gs.version + 1) % U64_MOD {
      return next, Err(OutOfOrder);
    }
    match e.kind {
      case MemberAdd =>
        AddMember(gs, e);
      case MemberRemove =>
        MarkGone(gs, e, Removed);
      case MemberLeave =>
        MarkGone(gs, e, Left);
      case TitleChange =>
        next := next.(group := next.group.(title := TrimSpace(e.title), updatedAt := e.occurredAt));
      case ProfileChange =>
        next := next.(group := next.group.(title := TrimSpace(e.title), description := TrimSpace(e.description),
                                           avatar := TrimSpace(e.avatar), updatedAt := e.occurredAt));
      case KeyRotate =>
        next := next.(lastKeyVersion := e.keyVersion, group := next.group.(updatedAt := e.occurredAt));
      case UnknownKind =>
    }
    next := next.(version := e.version);
    gs.applied.ids := gs.applied.ids + {e.id};
    r := Ok(true);
  }

  method AddMember(gs: GroupState, e: Event)
    modifies gs.members
    ensures gs.members.entries == old(gs.members.entries[Added(View(gs), e).memberID := Added(View(gs), e)])
  {
    var entries, id := gs.members.entries, TrimSpace(e.memberID);
    if id !in entries {
      var invited := Member(gs.group.id, id, e.role, Invited, e.occurredAt, ZERO_TIME, e.occurredAt);
      gs.members.entries := entries[id := invited];
      return;
    }
    var member := entries[id].(role := e.role);
    match member.status {
      case Invited =>
        if TrimSpace(e.actorID) == id {
          member := member.(status := Active, activatedAt := e.occurredAt);
        }
      case Left | Removed =>
        member := member.(status := Invited, invitedAt := e.occurredAt, activatedAt := ZERO_TIME);
      case _ =>
    }
    member := member.(updatedAt := e.occurredAt);
    gs.members.entries := entries[member.memberID := member];
  }

  method MarkGone(gs: GroupState, e: Event, status: Status)
    modifies gs.members
    ensures gs.members.entries == old(gs.members.entries[TrimSpace(e.memberID) := Gone(View(gs), e, status)])
  {
    var entries, id := gs.members.entries, TrimSpace(e.memberID);
    var member := Member(gs.group.id, id, User, status, ZERO_TIME, ZERO_TIME, ZERO_TIME);
    if id in entries {
      member := entries[id];
    }
    member := member.(status := status, updatedAt := e.occurredAt);
    gs.members.entries := entries[id := member];
  }

  /** Runs a batch on the struct `gs`, writing through its map references. */
  method RunEvents(gs: GroupState, events: seq<Event>)
    returns (next: GroupState, applied: seq<Event>, error: Option<Error>)
    modifies gs.applied, gs.members
    ensures next.applied == gs.applied && next.members == gs.members
    ensures Outcome(View(next), applied, error) == RunBatch(old(View(gs)), events)
  {
    next, applied, error := gs, [], None;
    ghost var start := View(gs);
    for i := 0 to |events|
      invariant next.applied == gs.applied && next.members == gs.members
      invariant Outcome(View(next), applied, error) == RunBatch(start, events[..i])
      invariant error.None?
    {
      assert events[..i + 1][..i] == events[..i];
      ghost var out := RunBatch(start, events[..i + 1]);
      var r;
      next, r := ApplyGroupEvent(next, events[i]);
      if r.Err? {
        error := Some(r.error);
        assert Outcome(View(next), applied, error) == out;
        RejectedStays(start, events, i + 1);
        return;
      }
      if r.value {
        applied := applied + [events[i]];
      }
    }
    assert events[..|events|] == events;
  }

  lemma {:induction false} RejectedStays(s: State, events: seq<Event>, n: nat)
    requires n <= |events| && RunBatch(s, events[..n]).error.Some?
    ensures RunBatch(s, events) == RunBatch(s, events[..n])
    decreases |events| - n
  {
    if n < |events| {
      assert events[..n + 1][..n] == events[..n];
      RejectedStays(s, events, n + 1);
    } else {
      assert events[..n] == events;
    }
  }

  /** What the caller of a batch is told: the events applied, or why there are none. */
  function Answer(out: Outcome, persistOk: bool): Result<seq<Event>>
  {
    if out.error.Some? then Err(out.error.value)
    else if out.applied != [] && !persistOk then Err(PersistFailed)
    else Ok(out.applied)
  }

  /** One group's entries in the state and log maps. */
  class GroupCell {
    var stored: Option<GroupState>
    var log: Option<seq<Event>>

    function StoredState(): Option<State>
      reads this, if stored.Some? then {stored.value.applied, stored.value.members} else {}
    {
      if stored.Some? then Some(View(stored.value)) else None
    }

    function Current(): Cell
      reads this, if stored.Some? then {stored.value.applied, stored.value.members} else {}
    {
      Cell(StoredState(), log)
    }

    constructor ()
      ensures Current() == Cell(None, None)
    {
      stored, log := None, None;
    }

    /** Applies a batch to the stored struct. The struct is passed by value, so the stored one keeps
        its own version and key version but sees every change of the maps. */
    method ApplyEventsWithRollback(gs: GroupState, events: seq<Event>, persistOk: bool) returns (r: Result<seq<Event>>)
      requires stored == Some(gs)
      modifies this, gs.applied, gs.members
      ensures Current() == AfterOutcome(old(Current()), old(View(gs)), RunBatch(old(View(gs)), events), persistOk)
      ensures r == Answer(RunBatch(old(View(gs)), events), persistOk)
    {
      if events == [] {
        return Ok([]);
      }
      ghost var s := View(gs);
      var previous := CloneState(gs);
      var previousLog := if log.Some? then log.value else [];
      var next, applied, error := RunEvents(gs, events);
      if error.Some? {
        return Err(error.value);
      }
      if applied == [] {
        NothingApplied(s, events);
        return Ok([]);
      }
      stored := Some(next);
      log := Some(previousLog + applied);
      if !persistOk {
        stored := Some(previous);
        log := Some(previousLog);
        return Err(PersistFailed);
      }
      return Ok(applied);
    }

    /** Carries out one operation on this group. */
    method Execute(op: Op, persistOk: bool) returns (plan: Plan)
      modifies this, if stored.Some? then {stored.value.applied, stored.value.members} else {}
      ensures plan == PlanOf(old(StoredState()), op)
      ensures Current() == Perform(old(Current()), plan, persistOk)
    {
      plan := PlanOf(StoredState(), op);
      match plan {
        case Refuse(_) =>
        case Keep =>
        case Batch(events) =>
          if stored.Some? {
            var _ := ApplyEventsWithRollback(stored.value, events, persistOk);
          }
        case Create(s, e) =>
          var gs := NewStruct(s);
          stored, log := Some(gs), Some([e]);
          if !persistOk {
            stored, log := None, None;
          }
        case Delete =>
          var previousState, previousLog := stored, log;
          stored, log := None, None;
          if !persistOk {
            stored, log := previousState, previousLog;
          }
      }
    }
  }

  lemma {:induction false} NothingApplied(s: State, events: seq<Event>)
    requires RunBatch(s, events).applied == []
    ensures RunBatch(s, events).state == s
  {
    if events != [] {
      NothingApplied(s, events[..|events| - 1]);
    }
  }

  lemma {:induction false} BatchKeepsGroupID(s: State, events: seq<Event>)
    ensures RunBatch(s, events).state.group.id == s.group.id
  {
    if events != [] {
      BatchKeepsGroupID(s, events[..|events| - 1]);
      EffectKeepsGroupID(RunBatch(s, events[..|events| - 1]).state, events[|events| - 1]);
    }
  }
}
