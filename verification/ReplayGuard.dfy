/** The guard against replayed inbound group events: a table of recently admitted keys. */
module ReplayGuard {
  import opened Text

  const WINDOW: int := 30 * 60 * 1_000_000_000
  const FUTURE_SKEW: int := 2 * 60 * 1_000_000_000

  datatype Error = InvalidPayload | OutOfOrder

  /** What identifies an event to the guard, and when it says it occurred. A time of 0 passes for not
      saying so, but no caller passes one: a message is given the time of its receipt, and so is an event
      whose own time is missing or unreadable, each time it comes; an event that names the zero time is
      refused before it gets here. */
  datatype Request = Request(kind: string, group: string, device: string, uniqueID: string, occurredAt: int, now: int)

  type Seen = map<string, int>

  // ---------------------------------------------------------------- keys

  /** What trimming leaves of text that is not blank. */
  predicate IsPart(s: string)
  {
    s != "" && !IsSpace(s[0]) && !IsSpace(s[|s| - 1])
  }

  lemma PartsAreTrimmed(s: string)
    ensures IsPart(s) ==> TrimSpace(s) == s
    ensures TrimSpace(s) == "" || IsPart(TrimSpace(s))
  {
    TrimRightEnd(s);
    TrimLeftEnds(TrimRight(s));
  }

  /** The parts of a key. */
  datatype Parts = Parts(kind: string, group: string, device: string, uniqueID: string) {
    predicate Good()
    {
      IsPart(kind) && IsPart(group) && IsPart(device) && IsPart(uniqueID)
    }

    function Join(): string
    {
      kind + "|" + group + "|" + device + "|" + uniqueID
    }
  }

  function PartsOf(r: Request): Parts
  {
    Parts(TrimSpace(r.kind), TrimSpace(r.group), TrimSpace(r.device), TrimSpace(r.uniqueID))
  }

  function Key(r: Request): Option<string>
  {
    var p := PartsOf(r);
    if p.group == "" || p.device == "" || p.uniqueID == "" || p.kind == "" then None else Some(p.Join())
  }

  lemma KeyedPartsAreGood(r: Request)
    ensures Key(r).Some? <==> PartsOf(r).Good()
  {
    PartsAreTrimmed(r.kind);
    PartsAreTrimmed(r.group);
    PartsAreTrimmed(r.device);
    PartsAreTrimmed(r.uniqueID);
  }

  /** Good parts are those of a request. */
  lemma RequestFor(p: Parts) returns (r: Request)
    requires p.Good()
    ensures PartsOf(r) == p && Key(r) == Some(p.Join())
  {
    r := Request(p.kind, p.group, p.device, p.uniqueID, 0, 0);
    PartsAreTrimmed(p.kind);
    PartsAreTrimmed(p.group);
    PartsAreTrimmed(p.device);
    PartsAreTrimmed(p.uniqueID);
  }

  // ---------------------------------------------------------------- events with one key

  /** Every request with the key of `r` has the parts of `r`. */
  ghost predicate Unmistakable(r: Request)
  {
    forall r': Request :: Key(r') == Key(r) ==> PartsOf(r') == PartsOf(r)
  }

  /** A separator with no space next to it. */
  predicate CutAt(s: string, i: int)
  {
    0 <= i < |s| && s[i] == '|' && (i > 0 ==> !IsSpace(s[i - 1])) && (i + 1 < |s| ==> !IsSpace(s[i + 1]))
  }

  /** A part holds a separator that can take the place of one next to the part: it has no space beside
      it, is not at either end of the key, and is not all there is of the group or the device. */
  ghost predicate Recuttable(p: Parts)
  {
    || (exists i :: i > 0 && CutAt(p.kind, i))
    || (p.group != "|" && exists i :: CutAt(p.group, i))
    || (p.device != "|" && exists i :: CutAt(p.device, i))
    || (exists i :: i < |p.uniqueID| - 1 && CutAt(p.uniqueID, i))
  }

  /** The two halves of a part cut at a separator. */
  lemma CutInTwo(s: string, i: int) returns (a: string, b: string)
    requires IsPart(s) && CutAt(s, i)
    ensures s == a + "|" + b && |a| == i
    ensures (a == "" || IsPart(a)) && (b == "" || IsPart(b))
  {
    a, b := s[..i], s[i + 1..];
  }

  lemma RecutKind(p: Parts, i: int) returns (q: Parts)
    requires p.Good() && i > 0 && CutAt(p.kind, i)
    ensures q.Good() && q.Join() == p.Join() && q != p
  {
    var a, b := CutInTwo(p.kind, i);
    q := p.(kind := a, group := b + "|" + p.group);
  }

  lemma RecutGroup(p: Parts, i: int) returns (q: Parts)
    requires p.Good() && p.group != "|" && CutAt(p.group, i)
    ensures q.Good() && q.Join() == p.Join() && q != p
  {
    var a, b := CutInTwo(p.group, i);
    q := if i > 0 then p.(group := a, device := b + "|" + p.device) else p.(kind := p.kind + "|", group := b);
  }

  lemma RecutDevice(p: Parts, i: int) returns (q: Parts)
    requires p.Good() && p.device != "|" && CutAt(p.device, i)
    ensures q.Good() && q.Join() == p.Join() && q != p
  {
    var a, b := CutInTwo(p.device, i);
    q := if i > 0 then p.(device := a, uniqueID := b + "|" + p.uniqueID) else p.(group := p.group + "|", device := b);
  }

  lemma RecutUniqueID(p: Parts, i: int) returns (q: Parts)
    requires p.Good() && i < |p.uniqueID| - 1 && CutAt(p.uniqueID, i)
    ensures q.Good() && q.Join() == p.Join() && q != p
  {
    var a, b := CutInTwo(p.uniqueID, i);
    q := p.(device := p.device + "|" + a, uniqueID := b);
  }

  lemma Recut(p: Parts) returns (q: Parts)
    requires p.Good() && Recuttable(p)
    ensures q.Good() && q.Join() == p.Join() && q != p
  {
    if i :| i > 0 && CutAt(p.kind, i) {
      q := RecutKind(p, i);
    } else if i :| p.group != "|" && CutAt(p.group, i) {
      q := RecutGroup(p, i);
    } else if i :| p.device != "|" && CutAt(p.device, i) {
      q := RecutDevice(p, i);
    } else {
      var i :| i < |p.uniqueID| - 1 && CutAt(p.uniqueID, i);
      q := RecutUniqueID(p, i);
    }
  }

  /** Where the separators between the parts are. */
  function First(p: Parts): int { |p.kind| }

  function Second(p: Parts): int { First(p) + 1 + |p.group| }

  function Third(p: Parts): int { Second(p) + 1 + |p.device| }

  /** A separator that has text on both sides, and no space beside it. */
  predicate Divides(key: string, x: int)
  {
    0 < x < |key| - 1 && CutAt(key, x)
  }

  lemma PartsDivide(p: Parts)
    requires p.Good()
    ensures Divides(p.Join(), First(p)) && Divides(p.Join(), Second(p)) && Divides(p.Join(), Third(p))
    ensures First(p) + 1 < Second(p) && Second(p) + 1 < Third(p)
  {
  }

  lemma PartsBetween(p: Parts)
    ensures var key := p.Join();
            && p.kind == key[..First(p)] && p.group == key[First(p) + 1..Second(p)]
            && p.device == key[Second(p) + 1..Third(p)] && p.uniqueID == key[Third(p) + 1..]
  {
  }

  /** A divider that is not between two parts is one inside a part. */
  lemma DividerInside(p: Parts, x: int)
    requires Divides(p.Join(), x)
    ensures x < First(p) ==> x > 0 && CutAt(p.kind, x)
    ensures First(p) < x < Second(p) ==> CutAt(p.group, x - First(p) - 1)
    ensures Second(p) < x < Third(p) ==> CutAt(p.device, x - Second(p) - 1)
    ensures Third(p) < x ==> x - Third(p) - 1 < |p.uniqueID| - 1 && CutAt(p.uniqueID, x - Third(p) - 1)
  {
    PartsBetween(p);
  }

  /** Unless a part can be cut, the key is divided between its parts only, or at a lone separator. */
  lemma DividersOf(p: Parts, x: int)
    requires !Recuttable(p) && Divides(p.Join(), x)
    ensures || x == First(p) || x == Second(p) || x == Third(p)
            || (p.group == "|" && x == First(p) + 1) || (p.device == "|" && x == Second(p) + 1)
  {
    DividerInside(p, x);
  }

  lemma OnlyCut(p: Parts, q: Parts)
    requires p.Good() && q.Good() && !Recuttable(p) && q.Join() == p.Join()
    ensures q == p
  {
    PartsDivide(p);
    PartsDivide(q);
    DividersOf(p, First(q));
    DividersOf(p, Second(q));
    DividersOf(p, Third(q));
    PartsBetween(p);
    PartsBetween(q);
  }

  /** A key that the guard builds belongs to one event only if and only if no part can be cut elsewhere;
      so it does when no part holds the separator, or it only makes up the whole of a group or a device. */
  lemma UnmistakableIff(r: Request)
    requires Key(r).Some?
    ensures Unmistakable(r) <==> !Recuttable(PartsOf(r))
    ensures var p := PartsOf(r);
            '|' !in p.kind + p.uniqueID && (p.group == "|" || '|' !in p.group) && (p.device == "|" || '|' !in p.device)
            ==> Unmistakable(r)
  {
    var p := PartsOf(r);
    KeyedPartsAreGood(r);
    if Recuttable(p) {
      var q := Recut(p);
      var r' := RequestFor(q);
      assert Key(r') == Key(r) && PartsOf(r') != p;
    } else {
      forall r': Request | Key(r') == Key(r)
        ensures PartsOf(r') == p
      {
        KeyedPartsAreGood(r');
        OnlyCut(p, PartsOf(r'));
      }
    }
  }

  /** Two different events with one key. */
  lemma CollidingKeys(t: int, now: int)
    ensures var r, r' := Request("event", "g", "d|x", "u", t, now), Request("event", "g", "d", "x|u", t, now);
            Key(r) == Some("event|g|d|x|u") && Key(r') == Key(r) && PartsOf(r') != PartsOf(r)
  {
    PartsAreTrimmed("event");
    PartsAreTrimmed("g");
    PartsAreTrimmed("d|x");
    PartsAreTrimmed("u");
    PartsAreTrimmed("d");
    PartsAreTrimmed("x|u");
    assert Parts("event", "g", "d|x", "u").Join() == "event|g|d|x|u" == Parts("event", "g", "d", "x|u").Join();
  }

  // ---------------------------------------------------------------- one call

  /** A request with its key built. */
  datatype Call = Call(key: Option<string>, occurredAt: int, now: int)

  predicate Timely(occurredAt: int, now: int)
  {
    occurredAt == 0 || now - WINDOW <= occurredAt <= now + FUTURE_SKEW
  }

  function Pruned(seen: Seen, now: int): Seen
  {
    map key | key in seen && seen[key] >= now - WINDOW :: seen[key]
  }

  function Verdict(seen: Seen, c: Call): Option<Error>
  {
    if c.key.None? then Some(InvalidPayload)
    else if !Timely(c.occurredAt, c.now) then Some(OutOfOrder)
    else if c.key.value in Pruned(seen, c.now) then Some(OutOfOrder)
    else None
  }

  function After(seen: Seen, c: Call): Seen
  {
    if c.key.None? || !Timely(c.occurredAt, c.now) then seen
    else if c.key.value in Pruned(seen, c.now) then Pruned(seen, c.now)
    else Pruned(seen, c.now)[c.key.value := c.now]
  }

  // ---------------------------------------------------------------- runs

  function Run(seen: Seen, calls: seq<Call>): Seen
  {
    if calls == [] then seen
    else After(Run(seen, calls[..|calls| - 1]), calls[|calls| - 1])
  }

  ghost predicate Admitted(seen: Seen, calls: seq<Call>, k: int)
    requires 0 <= k < |calls|
  {
    Verdict(Run(seen, calls[..k]), calls[k]).None?
  }

  /** The clock does not go back, and starts no earlier than `from`. */
  ghost predicate Clock(calls: seq<Call>, from: int)
  {
    && (forall k :: 0 <= k < |calls| ==> from <= calls[k].now)
    && (forall j, k :: 0 <= j < k < |calls| ==> calls[j].now <= calls[k].now)
  }

  /** The key was admitted at `t` and is still remembered, or the window has passed. */
  ghost predicate Blocked(seen: Seen, key: string, t: int, now: int)
  {
    (key in seen && seen[key] >= t) || now > t + WINDOW
  }

  lemma StaysBlocked(seen: Seen, key: string, t: int, before: int, c: Call)
    requires Blocked(seen, key, t, before) && t <= before <= c.now
    ensures Blocked(After(seen, c), key, t, c.now)
    ensures c.key == Some(key) && Verdict(seen, c).None? ==> c.now > t + WINDOW
  {
  }

  lemma {:induction false} BlockedThroughout(seen: Seen, key: string, t: int, calls: seq<Call>)
    requires Blocked(seen, key, t, t) && Clock(calls, t)
    ensures Blocked(Run(seen, calls), key, t, if calls == [] then t else calls[|calls| - 1].now)
  {
    if calls != [] {
      var before := calls[..|calls| - 1];
      BlockedThroughout(seen, key, t, before);
      StaysBlocked(Run(seen, before), key, t, if before == [] then t else before[|before| - 1].now, calls[|calls| - 1]);
    }
  }

  /** After a key was admitted, it is not admitted again until the window has passed. */
  lemma NextAdmissionIsLate(seen: Seen, first: Call, calls: seq<Call>, k: int)
    requires Verdict(seen, first).None?
    requires Clock(calls, first.now) && 0 <= k < |calls| && calls[k].key == first.key
    requires Admitted(After(seen, first), calls, k)
    ensures calls[k].now > first.now + WINDOW
  {
    var start, key := After(seen, first), first.key.value;
    var before := calls[..k];
    BlockedThroughout(start, key, first.now, before);
    StaysBlocked(Run(start, before), key, first.now, if k == 0 then first.now else calls[k - 1].now, calls[k]);
  }

  /** In every run with a clock that does not go back, two admissions of one key are more than a
      window apart. */
  lemma AdmissionsAreFarApart(seen: Seen, calls: seq<Call>, j: int, k: int)
    requires 0 <= j < k < |calls| && Clock(calls, calls[0].now)
    requires calls[j].key == calls[k].key && Admitted(seen, calls, j) && Admitted(seen, calls, k)
    ensures calls[k].now > calls[j].now + WINDOW
  {
    var rest := calls[j + 1..];
    RunSplits(seen, calls[..k], j + 1);
    assert calls[..k][..j + 1] == calls[..j + 1] && calls[..k][j + 1..] == rest[..k - j - 1];
    assert calls[..j + 1][..j] == calls[..j];
    NextAdmissionIsLate(Run(seen, calls[..j]), calls[j], rest, k - j - 1);
  }

  lemma {:induction false} RunSplits(seen: Seen, calls: seq<Call>, n: nat)
    requires n <= |calls|
    ensures Run(seen, calls) == Run(Run(seen, calls[..n]), calls[n..])
  {
    if n == |calls| {
      assert calls[..n] == calls;
    } else {
      var before := calls[..|calls| - 1];
      RunSplits(seen, before, n);
      assert before[..n] == calls[..n] && before[n..] == calls[n..][..|calls| - n - 1];
    }
  }

  /** The same event is let in once more at some later time. */
  ghost predicate AdmittedAgain(seen: Seen, first: Call, calls: seq<Call>)
  {
    exists k :: 0 <= k < |calls| && calls[k].key == first.key && calls[k].occurredAt == first.occurredAt
                && Admitted(seen, calls, k)
  }

  /** An admitted event is never admitted again, whatever else arrives, exactly when it carries a
      time and that time was not in the future when it was admitted. */
  lemma NeverAgainIff(seen: Seen, first: Call)
    requires Verdict(seen, first).None?
    ensures var start := After(seen, first);
            first.occurredAt != 0 && first.occurredAt <= first.now <==>
            forall calls :: Clock(calls, first.now) ==> !AdmittedAgain(start, first, calls)
  {
    var start := After(seen, first);
    if first.occurredAt != 0 && first.occurredAt <= first.now {
      forall calls: seq<Call> | Clock(calls, first.now)
        ensures !AdmittedAgain(start, first, calls)
      {
        if AdmittedAgain(start, first, calls) {
          var k: int :| 0 <= k < |calls| && calls[k].key == first.key && calls[k].occurredAt == first.occurredAt
                   && Admitted(start, calls, k);
          NextAdmissionIsLate(seen, first, calls, k);
          assert false;
        }
      }
    } else {
      ReadmittedLater(seen, first);
    }
  }

  /** The other half: an event without a time, or from the future, comes through a second time once
      the window after its first admission has passed. */
  lemma ReadmittedLater(seen: Seen, first: Call)
    requires Verdict(seen, first).None?
    requires first.occurredAt == 0 || first.occurredAt > first.now
    ensures var start := After(seen, first);
            var calls := [first.(now := if first.occurredAt == 0 then first.now + WINDOW + 1
                                        else first.occurredAt + WINDOW)];
            Clock(calls, first.now) && AdmittedAgain(start, first, calls)
  {
    var start := After(seen, first);
    var again := first.(now := if first.occurredAt == 0 then first.now + WINDOW + 1 else first.occurredAt + WINDOW);
    var calls := [again];
    assert calls[..0] == [];
    assert Run(start, calls[..0]) == start;
    assert Admitted(start, calls, 0);
  }

  // ---------------------------------------------------------------- exactly what is admitted

  /** Every key in the table was admitted at the time it carries. */
  lemma {:induction false} SeenWasAdmitted(calls: seq<Call>, key: string) returns (j: int)
    requires key in Run(map[], calls)
    ensures 0 <= j < |calls| && calls[j].key == Some(key) && Admitted(map[], calls, j)
    ensures calls[j].now == Run(map[], calls)[key]
  {
    var before, last := calls[..|calls| - 1], calls[|calls| - 1];
    if last.key == Some(key) && Verdict(Run(map[], before), last).None? {
      j := |before|;
    } else {
      j := SeenWasAdmitted(before, key);
      assert before[..j] == calls[..j];
    }
  }

  const MINUTES: int := 60_000_000_000

  /** Over every run of the guard, from an empty table and with a clock that does not go back, a call is
      admitted if and only if it has a key, its time is not more than 30 minutes past or 2 minutes ahead, and
      no call with its key was admitted in the 30 minutes before. */
  lemma AdmittedIff(calls: seq<Call>, k: int)
    requires 0 <= k < |calls| && Clock(calls, calls[0].now)
    ensures Admitted(map[], calls, k) <==>
            var c := calls[k];
            && c.key.Some? && (c.occurredAt == 0 || -30 * MINUTES <= c.occurredAt - c.now <= 2 * MINUTES)
            && forall j :: 0 <= j < k && calls[j].key == c.key && Admitted(map[], calls, j) ==>
                 c.now - calls[j].now > 30 * MINUTES
  {
    var c, seen := calls[k], Run(map[], calls[..k]);
    if Admitted(map[], calls, k) {
      forall j | 0 <= j < k && calls[j].key == c.key && Admitted(map[], calls, j)
        ensures c.now - calls[j].now > 30 * MINUTES
      {
        AdmissionsAreFarApart(map[], calls, j, k);
      }
    } else if c.key.Some? && c.key.value in Pruned(seen, c.now) {
      var j := SeenWasAdmitted(calls[..k], c.key.value);
      assert calls[..k][..j] == calls[..j];
      assert Admitted(map[], calls, j);
    }
  }

  // ---------------------------------------------------------------- the guard object

  class Guard {
    var seen: Seen

    constructor ()
      ensures seen == map[]
    {
      seen := map[];
    }

    method Prune(now: int)
      modifies this
      ensures seen == Pruned(old(seen), now)
    {
      var rest := seen.Keys;
      while rest != {}
        invariant rest <= old(seen).Keys
        invariant forall key :: key in seen <==> key in old(seen) && (key in rest || old(seen)[key] >= now - WINDOW)
        invariant forall key :: key in seen ==> seen[key] == old(seen)[key]
        decreases |rest|
      {
        var key :| key in rest;
        if seen[key] < now - WINDOW {
          seen := seen - {key};
        }
        rest := rest - {key};
      }
      assert seen == Pruned(old(seen), now);
    }

    method Check(r: Request) returns (error: Option<Error>)
      modifies this
      ensures error == Verdict(old(seen), Call(Key(r), r.occurredAt, r.now))
      ensures seen == After(old(seen), Call(Key(r), r.occurredAt, r.now))
    {
      var key := Key(r);
      if key.None? {
        return Some(InvalidPayload);
      }
      if !Timely(r.occurredAt, r.now) {
        return Some(OutOfOrder);
      }
      Prune(r.now);
      if key.value in seen {
        return Some(OutOfOrder);
      }
      seen := seen[key.value := r.now];
      return None;
    }
  }
}
