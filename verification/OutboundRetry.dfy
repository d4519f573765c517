/** Outbound messages: merging of delivery statuses, and the queue of messages that are sent again. */
module OutboundRetry {
  import opened Text

  const SECOND: int := 1_000_000_000
  const MAX_RETRIES: int := 8
  const STARTUP_LOOKAHEAD: int := 24 * 3600 * SECOND

  // ---------------------------------------------------------------- statuses

  /** `Unset` is the empty status, `Other` any text the program does not know. */
  datatype Status = Unset | Pending | Sent | Delivered | Read | Failed | Other(text: string)

  function Order(s: Status): int
  {
    match s
    case Pending => 1
    case Sent => 2
    case Delivered => 3
    case Read => 4
    case Failed => 1
    case Unset => 0
    case Other(_) => 0
  }

  function Merge(current: Status, candidate: Status): Status
  {
    if candidate == Failed then (if current == Unset || current == Pending then Failed else current)
    else if Order(candidate) >= Order(current) then candidate
    else current
  }

  function MergeAll(initial: Status, updates: seq<Status>): Status
  {
    if updates == [] then initial else Merge(MergeAll(initial, updates[..|updates| - 1]), updates[|updates| - 1])
  }

  predicate Known(s: Status)
  {
    !s.Unset? && !s.Other?
  }

  /** The best confirmation among the statuses, if there is one, else the latest status. */
  function Best(all: seq<Status>): Status
    requires all != []
  {
    if Read in all then Read
    else if Delivered in all then Delivered
    else if Sent in all then Sent
    else all[|all| - 1]
  }

  /** For any order of known updates the stored status is the highest of sent, delivered and read that
      was ever seen, and the latest update if none was. */
  lemma {:induction false} StatusIsBest(initial: Status, updates: seq<Status>)
    requires forall k :: 0 <= k < |updates| ==> Known(updates[k])
    requires !initial.Other?
    ensures MergeAll(initial, updates) == Best([initial] + updates)
  {
    if updates == [] {
    } else {
      var before, last := updates[..|updates| - 1], updates[|updates| - 1];
      StatusIsBest(initial, before);
      assert [initial] + updates == ([initial] + before) + [last];
      BestExtends([initial] + before, last);
    }
  }

  lemma BestExtends(all: seq<Status>, last: Status)
    requires all != [] && Known(last) && forall k :: 1 <= k < |all| ==> Known(all[k])
    requires !all[0].Other?
    ensures Best(all + [last]) == Merge(Best(all), last)
  {
    assert forall s :: s in all + [last] <==> s in all || s == last;
  }

  /** Statuses the program does not know never replace one it knows; what is known replaces them, except that
      a failure does not replace an unknown text. */
  lemma UnknownStatuses(known: Status, unknown: Status)
    requires Known(known) && !Known(unknown)
    ensures Merge(known, unknown) == known
    ensures Merge(unknown, known) == if known == Failed && unknown.Other? then unknown else known
  {
  }

  // ---------------------------------------------------------------- backoff

  function Pow2(n: nat): int
  {
    if n == 0 then 1 else 2 * Pow2(n - 1)
  }

  /** The wait before retry number `n`: 2 to the `n` seconds, at most 30. */
  function Backoff(n: int): int
  {
    var p := Pow2(if n < 1 then 1 else n);
    SECOND * (if p < 30 then p else 30)
  }

  lemma {:induction false} Pow2Grows(a: nat, b: nat)
    requires a <= b
    ensures Pow2(a) <= Pow2(b)
  {
    if a < b {
      Pow2Grows(a, b - 1);
      Pow2Positive(b - 1);
    }
  }

  lemma {:induction false} Pow2Positive(n: nat)
    ensures Pow2(n) > 0
  {
    if n > 0 {
      Pow2Positive(n - 1);
    }
  }

  /** The waits in nanoseconds: 2, 4, 8, 16 and from then on 30 seconds. */
  lemma BackoffIs(n: int)
    ensures Backoff(n) == if n <= 1 then 2_000_000_000 else if n == 2 then 4_000_000_000
                          else if n == 3 then 8_000_000_000 else if n == 4 then 16_000_000_000 else 30_000_000_000
  {
    assert Pow2(1) == 2 && Pow2(2) == 4 && Pow2(3) == 8 && Pow2(4) == 16 && Pow2(5) == 32;
    if n >= 5 {
      Pow2Grows(5, n);
    }
  }

  method ComputeBackoff(retryCount: int) returns (backoff: int)
    ensures backoff == Backoff(retryCount)
  {
    var n := if retryCount < 1 then 1 else retryCount;
    backoff := 2 * SECOND;
    var i := 1;
    assert Pow2(1) == 2 * Pow2(0);
    while i < n
      invariant 1 <= i <= n
      invariant backoff == Pow2(i) * SECOND && Pow2(i) < 30
    {
      backoff := backoff * 2;
      i := i + 1;
      if backoff >= 30 * SECOND {
        backoff := 30 * SECOND;
        Pow2Grows(i, n);
        return;
      }
    }
  }

  // ---------------------------------------------------------------- one message

  datatype Entry = Entry(count: int, nextRetry: int)

  /** What the store holds about one message. */
  datatype Cell = Cell(status: Option<Status>, pending: Option<Entry>)

  function Updated(c: Cell, s: Status): Cell
  {
    if c.status.None? then c else c.(status := Some(Merge(c.status.value, s)))
  }

  function Queued(c: Cell, count: int, at: int): Cell
  {
    c.(pending := Some(Entry(count, at + Backoff(count))))
  }

  function Succeeded(c: Cell): Cell
  {
    Updated(c, Sent).(pending := None)
  }

  function Failing(c: Cell, e: Entry, at: int): Cell
  {
    if e.count + 1 > MAX_RETRIES then Updated(c, Failed).(pending := None) else Queued(c, e.count + 1, at)
  }

  predicate Due(c: Cell, now: int)
  {
    c.pending.Some? && c.pending.value.nextRetry <= now
  }

  /** Things that happen to a message: a retry pass that lists what is due at `now` and gets to this
      message at `at`; the pass at startup, which looks ahead and ignores failures; a new status. */
  datatype Step =
    | Pass(now: int, at: int, ok: bool)
    | Startup(now: int, ok: bool)
    | Update(status: Status)

  function Next(c: Cell, step: Step): Cell
  {
    match step
    case Pass(now, at, ok) =>
      if !Due(c, now) then c else if ok then Succeeded(c) else Failing(c, c.pending.value, at)
    case Startup(now, ok) => if Due(c, now + STARTUP_LOOKAHEAD) && ok then Succeeded(c) else c
    case Update(s) => Updated(c, s)
  }

  function Run(c: Cell, steps: seq<Step>): Cell
  {
    if steps == [] then c else Next(Run(c, steps[..|steps| - 1]), steps[|steps| - 1])
  }

  // ---------------------------------------------------------------- giving up

  /** The number of retry passes that took up the message. */
  ghost function Attempts(c: Cell, steps: seq<Step>): nat
  {
    if steps == [] then 0
    else
      var before, last := steps[..|steps| - 1], steps[|steps| - 1];
      Attempts(c, before) + (if last.Pass? && Due(Run(c, before), last.now) then 1 else 0)
  }

  /** The status updates that were applied to the message. */
  ghost function Updates(c: Cell, steps: seq<Step>): seq<Status>
  {
    if steps == [] then []
    else
      var before, last := steps[..|steps| - 1], steps[|steps| - 1];
      if last.Update? then Updates(c, before) + [last.status]
      else if last.Pass? && Due(Run(c, before), last.now) && Attempts(c, before) + 1 == MAX_RETRIES
      then Updates(c, before) + [Failed]
      else Updates(c, before)
  }

  /** Sending never succeeds, time does not go back within a pass, and updates are known ones. */
  ghost predicate KeepsFailing(steps: seq<Step>)
  {
    forall k :: 0 <= k < |steps| ==>
      match steps[k]
      case Pass(now, at, ok) => !ok && now <= at
      case Startup(_, ok) => !ok
      case Update(s) => Known(s)
  }

  /** The first `n` waits, one after the other. */
  function Waits(n: nat): int
  {
    if n == 0 then 0 else Waits(n - 1) + Backoff(n)
  }

  lemma AllWaits()
    ensures Waits(MAX_RETRIES) == 150 * SECOND
  {
    assert Pow2(1) == 2 && Pow2(2) == 4 && Pow2(3) == 8 && Pow2(4) == 16 && Pow2(5) == 32;
    Pow2Grows(5, 6);
    Pow2Grows(5, 7);
    Pow2Grows(5, 8);
    assert Waits(4) == 30 * SECOND;
    assert Waits(6) == 90 * SECOND;
  }

  /** A message queued at time `t` that cannot be sent: what the store holds after `n` failed passes
      and the status updates `updates`. */
  ghost predicate OnItsWay(c: Cell, n: nat, t: int, updates: seq<Status>)
  {
    && c.status == Some(MergeAll(Pending, updates))
    && n <= MAX_RETRIES
    && (n == MAX_RETRIES ==> c.pending == None)
    && (n < MAX_RETRIES ==> c.pending.Some? && c.pending.value.count == n + 1
                            && c.pending.value.nextRetry >= t + Waits(n + 1))
  }

  lemma MergeAllExtends(initial: Status, updates: seq<Status>, s: Status)
    ensures MergeAll(initial, updates + [s]) == Merge(MergeAll(initial, updates), s)
  {
    assert (updates + [s])[..|updates|] == updates;
  }

  lemma FailingPass(c: Cell, n: nat, t: int, updates: seq<Status>, step: Step)
    requires OnItsWay(c, n, t, updates) && step.Pass? && !step.ok && step.now <= step.at && Due(c, step.now)
    ensures OnItsWay(Next(c, step), n + 1, t, if n + 1 == MAX_RETRIES then updates + [Failed] else updates)
    ensures step.now >= t + Waits(n + 1)
  {
    MergeAllExtends(Pending, updates, Failed);
    assert Waits(n + 2) == Waits(n + 1) + Backoff(n + 2);
  }

  lemma {:induction false} StaysOnItsWay(c: Cell, t: int, steps: seq<Step>)
    requires KeepsFailing(steps) && c == Queued(Cell(Some(Pending), None), 1, t)
    ensures OnItsWay(Run(c, steps), Attempts(c, steps), t, Updates(c, steps))
  {
    if steps == [] {
      assert Waits(1) == Waits(0) + Backoff(1);
    } else {
      var before, last := steps[..|steps| - 1], steps[|steps| - 1];
      StaysOnItsWay(c, t, before);
      if last.Update? {
        MergeAllExtends(Pending, Updates(c, before), last.status);
      } else if last.Pass? && Due(Run(c, before), last.now) {
        FailingPass(Run(c, before), Attempts(c, before), t, Updates(c, before), last);
      }
    }
  }

  /** A message queued for its first retry whose sends keep failing, whatever status updates arrive in
      between: it stays queued through seven failing passes, with the count telling how many there
      were; the eighth, at least 150 seconds after it was queued, removes it; there is no ninth. At
      that point it is failed, unless it was already seen as sent, delivered or read. */
  lemma GivenUpAtTheEighth(c: Cell, t: int, steps: seq<Step>)
    requires KeepsFailing(steps) && c == Queued(Cell(Some(Pending), None), 1, t)
    ensures Attempts(c, steps) <= MAX_RETRIES
    ensures Run(c, steps).pending.Some? <==> Attempts(c, steps) < MAX_RETRIES
    ensures Run(c, steps).pending.Some? ==> Run(c, steps).pending.value.count == Attempts(c, steps) + 1
    ensures Run(c, steps).status == Some(Best([Pending] + Updates(c, steps)))
  {
    StaysOnItsWay(c, t, steps);
    UpdatesAreKnown(c, steps);
    StatusIsBest(Pending, Updates(c, steps));
  }

  lemma {:induction false} UpdatesAreKnown(c: Cell, steps: seq<Step>)
    requires KeepsFailing(steps)
    ensures forall k :: 0 <= k < |Updates(c, steps)| ==> Known(Updates(c, steps)[k])
  {
    if steps != [] {
      UpdatesAreKnown(c, steps[..|steps| - 1]);
    }
  }

  /** The pass that gives the message up: it is the eighth, and not before all eight waits are over. */
  lemma GivingUpTakesTime(c: Cell, t: int, steps: seq<Step>, last: Step)
    requires KeepsFailing(steps + [last]) && c == Queued(Cell(Some(Pending), None), 1, t)
    requires Run(c, steps).pending.Some? && Run(c, steps + [last]).pending.None?
    ensures last.Pass? && last.now >= t + 150_000_000_000
    ensures Attempts(c, steps) == MAX_RETRIES - 1
    ensures Run(c, steps + [last]).status ==
            Some(var best := Best([Pending] + Updates(c, steps));
                 if best in {Sent, Delivered, Read} then best else Failed)
  {
    var all := steps + [last];
    assert all[..|all| - 1] == steps;
    assert forall k :: 0 <= k < |steps| ==> steps[k] == all[k];
    StaysOnItsWay(c, t, steps);
    AllWaits();
    UpdatesAreKnown(c, steps);
    StatusIsBest(Pending, Updates(c, steps));
    assert last == all[|all| - 1];
  }

  // ---------------------------------------------------------------- getting through

  /** A pass takes up what is due; the one at startup also what will be due within a day. */
  predicate GetsThrough(c: Cell, step: Step)
  {
    match step
    case Pass(now, _, ok) => ok && c.pending.Some? && c.pending.value.nextRetry <= now
    case Startup(now, ok) => ok && c.pending.Some? && c.pending.value.nextRetry - now <= 24 * 3600 * SECOND
    case Update(_) => false
  }

  predicate Confirmed(c: Cell)
  {
    c.status.Some? && c.status.value in {Sent, Delivered, Read}
  }

  /** Once sending a message has succeeded, whatever happens afterwards, it is not queued, no pass takes it
      up, and it counts as sent, delivered or read. */
  lemma {:induction false} SuccessIsFinal(c: Cell, before: seq<Step>, send: Step, after: seq<Step>)
    requires GetsThrough(Run(c, before), send)
    ensures var all := before + [send] + after;
            && Run(c, all).pending == None
            && Attempts(c, all) == Attempts(c, before) + (if send.Pass? then 1 else 0)
            && (Run(c, before).status.Some? ==> Confirmed(Run(c, all)))
    decreases after
  {
    var all := before + [send] + after;
    if after == [] {
      assert all[..|all| - 1] == before && all[|all| - 1] == send;
    } else {
      assert all[..|all| - 1] == before + [send] + after[..|after| - 1];
      SuccessIsFinal(c, before, send, after[..|after| - 1]);
    }
  }

  ghost predicate GotThrough(c: Cell, steps: seq<Step>)
  {
    exists k :: 0 <= k < |steps| && GetsThrough(Run(c, steps[..k]), steps[k])
  }

  lemma GotThroughExtends(c: Cell, steps: seq<Step>)
    requires steps != []
    ensures var before, last := steps[..|steps| - 1], steps[|steps| - 1];
            GotThrough(c, steps) <==> GotThrough(c, before) || GetsThrough(Run(c, before), last)
  {
    var before := steps[..|steps| - 1];
    assert forall k :: 0 <= k <= |before| ==> before[..k] == steps[..k];
    if GotThrough(c, before) {
      var k :| 0 <= k < |before| && GetsThrough(Run(c, before[..k]), before[k]);
      assert GetsThrough(Run(c, steps[..k]), steps[k]);
    }
  }

  /** Over every run a message queued for its first retry is in the queue exactly as long as no send has
      succeeded and fewer than eight passes have taken it up; while it is, the count tells how many. */
  lemma {:induction false} QueuedIff(c: Cell, steps: seq<Step>)
    requires c.pending.Some? && c.pending.value.count == 1
    ensures var r := Run(c, steps);
            && (r.pending.Some? <==> !GotThrough(c, steps) && Attempts(c, steps) < 8)
            && (r.pending.Some? ==> r.pending.value.count == Attempts(c, steps) + 1)
  {
    if steps != [] {
      QueuedIff(c, steps[..|steps| - 1]);
      GotThroughExtends(c, steps);
    }
  }

  // ---------------------------------------------------------------- the store

  function CellOf(messages: map<string, Status>, pending: map<string, Entry>, id: string): Cell
  {
    Cell(if id in messages then Some(messages[id]) else None, if id in pending then Some(pending[id]) else None)
  }

  class MessageStore {
    var messages: map<string, Status>
    var pending: map<string, Entry>

    function At(id: string): Cell
      reads this
    {
      CellOf(messages, pending, id)
    }

    method UpdateMessageStatus(id: string, status: Status) returns (found: bool)
      modifies this`messages
      ensures At(id) == Updated(old(At(id)), status) && found == (id in old(messages))
      ensures forall other :: other != id ==> At(other) == old(At(other))
    {
      found := id in messages;
      if found {
        messages := messages[id := Merge(messages[id], status)];
      }
    }

    method AddOrUpdatePending(id: string, count: int, now: int)
      modifies this`pending
      ensures At(id) == Queued(old(At(id)), count, now)
      ensures forall other :: other != id ==> At(other) == old(At(other))
    {
      var backoff := ComputeBackoff(count);
      pending := pending[id := Entry(count, now + backoff)];
    }

    method RemovePending(id: string)
      modifies this`pending
      ensures At(id) == old(At(id)).(pending := None)
      ensures forall other :: other != id ==> At(other) == old(At(other))
    {
      pending := pending - {id};
    }

    method MarkAsSent(id: string)
      modifies this
      ensures At(id) == Succeeded(old(At(id)))
      ensures forall other :: other != id ==> At(other) == old(At(other))
    {
      var _ := UpdateMessageStatus(id, Sent);
      RemovePending(id);
    }

    method HandleRetryError(id: string, entry: Entry, now: int)
      modifies this
      ensures At(id) == Failing(old(At(id)), entry, now)
      ensures forall other :: other != id ==> At(other) == old(At(other))
    {
      if entry.count + 1 > MAX_RETRIES {
        var _ := UpdateMessageStatus(id, Failed);
        RemovePending(id);
        return;
      }
      AddOrUpdatePending(id, entry.count + 1, now);
    }

    method DuePending(now: int) returns (due: set<string>)
      ensures forall id :: id in due <==> Due(At(id), now)
    {
      due := set id | id in pending && pending[id].nextRetry <= now;
    }

    /** One retry pass: `ok` says which sends succeed, `at` when each message is taken up. Every
        message, due or not, goes through its own step. */
    method RetryPass(now: int, ok: string -> bool, at: string -> int)
      modifies this
      ensures forall id :: At(id) == Next(old(At(id)), Pass(now, at(id), ok(id)))
    {
      var due := DuePending(now);
      var rest := due;
      while rest != {}
        invariant rest <= due
        invariant forall id :: id in rest ==> At(id) == old(At(id))
        invariant forall id :: id !in rest ==> At(id) == Next(old(At(id)), Pass(now, at(id), ok(id)))
        decreases |rest|
      {
        var id :| id in rest;
        if ok(id) {
          MarkAsSent(id);
        } else {
          HandleRetryError(id, pending[id], at(id));
        }
        rest := rest - {id};
      }
    }

    /** The pass at startup. */
    method RecoverOnStartup(now: int, ok: string -> bool)
      modifies this
      ensures forall id :: At(id) == Next(old(At(id)), Startup(now, ok(id)))
    {
      var due := DuePending(now + STARTUP_LOOKAHEAD);
      var rest := due;
      while rest != {}
        invariant rest <= due
        invariant forall id :: id in rest ==> At(id) == old(At(id))
        invariant forall id :: id !in rest ==> At(id) == Next(old(At(id)), Startup(now, ok(id)))
        decreases |rest|
      {
        var id :| id in rest;
        if ok(id) {
          MarkAsSent(id);
        }
        rest := rest - {id};
      }
    }
  }
}
