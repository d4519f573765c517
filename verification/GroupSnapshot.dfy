/** Normalising a snapshot of all groups before it is written and after it is read. */
module GroupSnapshot {
  import opened Text
  import opened GroupModel
  import opened GroupRuns
  import opened GroupWorld

  function ValidateMember(m: Member): Option<Error>
  {
    if Blank(m.groupID) then Some(InvalidGroupID)
    else if Blank(m.memberID) then Some(InvalidMemberID)
    else if m.role == UnknownRole then Some(InvalidMemberRole)
    else if m.status == UnknownStatus then Some(InvalidMemberStatus)
    else None
  }

  /** The order snapshots sort events in: by version, then by time. */
  predicate Before(a: Event, b: Event)
  {
    if a.version == b.version then a.occurredAt < b.occurredAt else a.version < b.version
  }

  function Insert(e: Event, sorted: seq<Event>): seq<Event>
  {
    if sorted == [] then [e]
    else if Before(e, sorted[|sorted| - 1]) then Insert(e, sorted[..|sorted| - 1]) + [sorted[|sorted| - 1]]
    else sorted + [e]
  }

  function SortEvents(log: seq<Event>): seq<Event>
  {
    if log == [] then [] else Insert(log[|log| - 1], SortEvents(log[..|log| - 1]))
  }

  ghost predicate IsSorted(log: seq<Event>)
  {
    forall i, j :: 0 <= i < j < |log| ==> !Before(log[j], log[i])
  }

  /** A sorted arrangement of the log. Events equal in version and time may come in any order. */
  ghost predicate SortedFrom(log: seq<Event>, sorted: seq<Event>)
  {
    IsSorted(sorted) && multiset(sorted) == multiset(log)
  }

  lemma {:induction false} InsertKeeps(e: Event, sorted: seq<Event>)
    ensures multiset(Insert(e, sorted)) == multiset(sorted) + multiset{e}
  {
    if sorted != [] {
      var init, last := sorted[..|sorted| - 1], sorted[|sorted| - 1];
      assert sorted == init + [last];
      InsertKeeps(e, init);
    }
  }

  lemma {:induction false} InsertSorts(e: Event, sorted: seq<Event>)
    requires IsSorted(sorted)
    ensures IsSorted(Insert(e, sorted))
  {
    if sorted != [] && Before(e, sorted[|sorted| - 1]) {
      var init, last := sorted[..|sorted| - 1], sorted[|sorted| - 1];
      InsertSorts(e, init);
      var r := Insert(e, init);
      forall i | 0 <= i < |r|
        ensures !Before(last, r[i])
      {
        InsertKeeps(e, init);
        assert r[i] in multiset(r);
        assert r[i] == e || r[i] in init;
      }
    }
  }

  /** The result is the log in order, nothing added and nothing lost. */
  lemma {:induction false} SortEventsSorts(log: seq<Event>)
    ensures IsSorted(SortEvents(log)) && multiset(SortEvents(log)) == multiset(log)
  {
    if log != [] {
      SortEventsSorts(log[..|log| - 1]);
      InsertSorts(log[|log| - 1], SortEvents(log[..|log| - 1]));
      InsertKeeps(log[|log| - 1], SortEvents(log[..|log| - 1]));
      assert log == log[..|log| - 1] + [log[|log| - 1]];
    }
  }

  ghost predicate Increasing(log: seq<Event>)
  {
    forall i, j :: 0 <= i < j < |log| ==> log[i].version < log[j].version
  }

  lemma LastIsLast(log: seq<Event>, sorted: seq<Event>)
    requires Increasing(log) && SortedFrom(log, sorted) && log != []
    ensures sorted != [] && sorted[|sorted| - 1] == log[|log| - 1]
  {
    var last := log[|log| - 1];
    assert last in multiset(log) && last in multiset(sorted);
    var i :| 0 <= i < |sorted| && sorted[i] == last;
    var end := sorted[|sorted| - 1];
    assert end in multiset(sorted) && end in multiset(log);
    var k :| 0 <= k < |log| && log[k] == end;
    assert !Before(end, last);
  }

  lemma WithoutLast(log: seq<Event>)
    requires log != []
    ensures multiset(log[..|log| - 1]) == multiset(log) - multiset{log[|log| - 1]}
  {
    assert log == log[..|log| - 1] + [log[|log| - 1]];
  }

  /** A log with increasing versions has no other sorted arrangement than itself. */
  lemma {:induction false} SortedStays(log: seq<Event>, sorted: seq<Event>)
    requires Increasing(log) && SortedFrom(log, sorted)
    ensures sorted == log
  {
    if log == [] {
      assert |multiset(sorted)| == 0;
    } else {
      LastIsLast(log, sorted);
      WithoutLast(log);
      WithoutLast(sorted);
      SortedStays(log[..|log| - 1], sorted[..|sorted| - 1]);
      assert sorted == sorted[..|sorted| - 1] + [sorted[|sorted| - 1]];
    }
  }

  predicate MemberAccepted(s: State, id: string)
    requires id in s.members
  {
    var m := s.members[id];
    !Blank(id) && !Blank(m.memberID) && m.memberID == id && m.groupID == s.group.id && ValidateMember(m).None?
  }

  ghost predicate StateAcceptable(key: string, s: State)
  {
    && key != "" && !Blank(s.group.id) && s.group.id == key
    && (forall id :: id in s.applied ==> !Blank(id))
    && (forall id :: id in s.members ==> MemberAccepted(s, id))
  }

  ghost predicate LogAccepted(key: string, log: seq<Event>)
  {
    forall k :: 0 <= k < |log| ==> GoodEvent(key, log[k])
  }

  method StateAccepted(s: State) returns (ok: bool)
    ensures ok <==> (forall id :: id in s.applied ==> !Blank(id))
                    && (forall id :: id in s.members ==> MemberAccepted(s, id))
  {
    var ids := s.applied;
    while ids != {}
      invariant ids <= s.applied
      invariant forall id :: id in s.applied && id !in ids ==> !Blank(id)
      decreases ids
    {
      var id :| id in ids;
      if Blank(id) {
        return false;
      }
      ids := ids - {id};
    }
    var keys := s.members.Keys;
    while keys != {}
      invariant keys <= s.members.Keys
      invariant forall id :: id in s.members && id !in keys ==> MemberAccepted(s, id)
      decreases keys
    {
      var id :| id in keys;
      if !MemberAccepted(s, id) {
        return false;
      }
      keys := keys - {id};
    }
    return true;
  }

  method NormalizeLog(key: string, log: seq<Event>) returns (r: Option<seq<Event>>)
    ensures r.Some? <==> LogAccepted(key, log)
    ensures r.Some? ==> SortedFrom(log, r.value)
  {
    for i := 0 to |log|
      invariant forall k :: 0 <= k < i ==> GoodEvent(key, log[k])
    {
      if !GoodEvent(key, log[i]) {
        return None;
      }
    }
    var sorted := InsertionSort(log);
    SortEventsSorts(log);
    return Some(sorted);
  }

  method InsertionSort(log: seq<Event>) returns (sorted: seq<Event>)
    ensures sorted == SortEvents(log)
  {
    sorted := [];
    for i := 0 to |log|
      invariant sorted == SortEvents(log[..i])
    {
      assert log[..i + 1][..i] == log[..i];
      sorted := Insert(log[i], sorted);
    }
    assert log[..|log|] == log;
  }

  ghost predicate AllTrimmed(keys: set<string>)
  {
    forall g :: g in keys ==> Trimmed(g)
  }

  ghost predicate StatesAcceptable(states: map<string, State>)
  {
    forall g :: g in states ==> StateAcceptable(TrimSpace(g), states[g])
  }

  ghost predicate LogsAcceptable(logs: map<string, seq<Event>>)
  {
    forall g :: g in logs ==> TrimSpace(g) != "" && LogAccepted(TrimSpace(g), logs[g])
  }

  /** Checks all states; each is written back under its trimmed key. */
  method NormalizeStates(states: map<string, State>) returns (r: Option<map<string, State>>)
    ensures AllTrimmed(states.Keys) ==> (r.Some? <==> StatesAcceptable(states)) && (r.Some? ==> r.value == states)
  {
    var out := states;
    var todo := states.Keys;
    while todo != {}
      invariant todo <= states.Keys <= out.Keys
      invariant AllTrimmed(states.Keys) ==> out == states
      invariant AllTrimmed(states.Keys) ==>
                  forall g :: g in states && g !in todo ==> StateAcceptable(TrimSpace(g), states[g])
      decreases todo
    {
      var g :| g in todo;
      var key, s := TrimSpace(g), out[g];
      if key == "" || Blank(s.group.id) || s.group.id != key {
        return None;
      }
      var ok := StateAccepted(s);
      if !ok {
        return None;
      }
      out := out[key := s];
      todo := todo - {g};
    }
    return Some(out);
  }

  ghost predicate LogsSortedFrom(logs: map<string, seq<Event>>, sorted: map<string, seq<Event>>)
  {
    sorted.Keys == logs.Keys && forall g :: g in logs ==> SortedFrom(logs[g], sorted[g])
  }

  /** Checks and sorts all logs; each is written back under its trimmed key. */
  method NormalizeLogs(logs: map<string, seq<Event>>) returns (r: Option<map<string, seq<Event>>>)
    ensures AllTrimmed(logs.Keys) ==> (r.Some? <==> LogsAcceptable(logs)) && (r.Some? ==> LogsSortedFrom(logs, r.value))
  {
    var out := logs;
    var todo := logs.Keys;
    while todo != {}
      invariant todo <= logs.Keys <= out.Keys
      invariant AllTrimmed(logs.Keys) ==> out.Keys == logs.Keys
      invariant AllTrimmed(logs.Keys) ==>
                  forall g :: g in logs ==> if g in todo then out[g] == logs[g] else SortedFrom(logs[g], out[g])
      invariant AllTrimmed(logs.Keys) ==>
                  forall g :: g in logs && g !in todo ==> TrimSpace(g) != "" && LogAccepted(TrimSpace(g), logs[g])
      decreases todo
    {
      var g :| g in todo;
      var key := TrimSpace(g);
      if key == "" {
        return None;
      }
      var sorted := NormalizeLog(key, out[g]);
      if sorted.None? {
        return None;
      }
      out := out[key := sorted.value];
      todo := todo - {g};
    }
    return Some(out);
  }

  method NormalizeSnapshot(states: map<string, State>, logs: map<string, seq<Event>>)
    returns (r: Option<(map<string, State>, map<string, seq<Event>>)>)
    ensures AllTrimmed(states.Keys + logs.Keys) ==>
              && (r.Some? <==> StatesAcceptable(states) && LogsAcceptable(logs))
              && (r.Some? ==> r.value.0 == states && LogsSortedFrom(logs, r.value.1))
  {
    var checked := NormalizeStates(states);
    if checked.None? {
      return None;
    }
    var sorted := NormalizeLogs(logs);
    return if sorted.None? then None else Some((checked.value, sorted.value));
  }

  // ---------------------------------------------------------------- snapshots of whole runs

  function States(w: World): map<string, State>
  {
    map g | g in w && w[g].cell.state.Some? :: w[g].cell.state.value
  }

  function Logs(w: World): map<string, seq<Event>>
  {
    map g | g in w && w[g].cell.log.Some? :: w[g].cell.log.value
  }

  lemma LoggedIsAccepted(g: string, origin: State, s: State, log: seq<Event>)
    requires Logged(g, origin, s, log) && Trimmed(g)
    ensures StateAcceptable(TrimSpace(g), s) && TrimSpace(g) != "" && LogAccepted(TrimSpace(g), log) && Increasing(log)
  {
    assert GoodEvent(g, log[0]);
    forall id | id in s.applied
      ensures !Blank(id)
    {
      var e :| e in log && e.id == id;
      assert GoodEvent(g, e);
    }
    forall id | id in s.members
      ensures MemberAccepted(s, id)
    {
      assert GoodMember(g, id, s.members[id]);
    }
  }

  /** What a snapshot needs of the entries under `g`. */
  ghost predicate Presentable(g: string, h: History)
  {
    && (h.cell.state.Some? ==> Trimmed(g) && StateAcceptable(TrimSpace(g), h.cell.state.value))
    && (h.cell.log.Some? ==> Trimmed(g) && TrimSpace(g) != "" && LogAccepted(TrimSpace(g), h.cell.log.value)
                             && Increasing(h.cell.log.value))
  }

  lemma RecordedIsPresentable(g: string, h: History)
    requires Recorded(g, h) && (h.cell.state.Some? ==> Trimmed(g))
    ensures Presentable(g, h)
  {
    if h.cell.state.Some? {
      LoggedIsAccepted(g, h.origin.value, h.cell.state.value, h.cell.log.value);
    }
  }

  lemma LogsUnchanged(w: World, sorted: map<string, seq<Event>>)
    requires (forall g :: g in w ==> Presentable(g, w[g])) && LogsSortedFrom(Logs(w), sorted)
    ensures sorted == Logs(w)
  {
    forall g | g in Logs(w)
      ensures sorted[g] == Logs(w)[g]
    {
      assert Presentable(g, w[g]);
      SortedStays(Logs(w)[g], sorted[g]);
    }
  }

  lemma PresentableIsAccepted(w: World)
    requires forall g :: g in w ==> Presentable(g, w[g])
    ensures AllTrimmed(States(w).Keys + Logs(w).Keys) && StatesAcceptable(States(w)) && LogsAcceptable(Logs(w))
  {
    forall g | g in w
      ensures Presentable(g, w[g])
    {
    }
  }

  /** After every run on any number of groups the snapshot of everything stored is accepted and comes
      back unchanged. */
  lemma SnapshotUnchanged(steps: seq<Step>, sorted: map<string, seq<Event>>)
    requires WorldAdmissible(steps) && NewIDsTrimmed(steps)
    ensures var w := WorldRun(steps);
            && AllTrimmed(States(w).Keys + Logs(w).Keys)
            && StatesAcceptable(States(w)) && LogsAcceptable(Logs(w))
            && (LogsSortedFrom(Logs(w), sorted) ==> sorted == Logs(w))
  {
    EveryRunIsPresentable(steps);
    PresentableIsAccepted(WorldRun(steps));
    if LogsSortedFrom(Logs(WorldRun(steps)), sorted) {
      LogsUnchanged(WorldRun(steps), sorted);
    }
  }

  lemma EveryRunIsPresentable(steps: seq<Step>)
    requires WorldAdmissible(steps) && NewIDsTrimmed(steps)
    ensures forall g :: g in WorldRun(steps) ==> Presentable(g, WorldRun(steps)[g])
  {
    EveryWorldRunIsRecorded(steps);
    StoredIDsAreTrimmed(steps);
    forall g | g in WorldRun(steps)
      ensures Presentable(g, WorldRun(steps)[g])
    {
      RecordedIsPresentable(g, WorldRun(steps)[g]);
    }
  }
}
