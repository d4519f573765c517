/** Whole runs of the attachment store: any sequence of its operations, with quotas and percentages
    changed at any time. */
module AttachmentRuns {
  import opened Text
  import opened AttachmentIndex
  import opened AttachmentQuota

  datatype State = State(items: Items, limits: Limits, cap: HardCap)

  /** `m` is the entry with everything filled in, so its size is positive. */
  datatype Step =
    | SetLimits(limits: Limits)
    | SetCap(high: int, full: int, aggressive: int)
    | Store(id: string, m: Meta, deleteOk: bool, saveOk: bool)
    | Pin(id: string, pinned: bool, now: Time)
    | Collect(now: Time, imageTTL: int, fileTTL: int, deleteOk: bool)

  function PolicyAt(s: State, step: Step): Policy
    requires step.Collect?
  {
    Policy(s.limits, s.cap, step.now, step.imageTTL, step.fileTTL)
  }

  ghost function Next(s: State, step: Step): State
  {
    match step
    case SetLimits(limits) => s.(limits := limits)
    case SetCap(high, full, aggressive) => s.(cap := CapFor(high, full, aggressive))
    case Store(id, m, deleteOk, saveOk) => s.(items := StoreItem(s.items, s.limits, s.cap, id, m, deleteOk, saveOk).1)
    case Pin(id, pinned, now) =>
      if id !in s.items || s.items[id].pinned == pinned then s
      else s.(items := s.items[id := s.items[id].(pinned := pinned, lastAccessAt := now)])
    case Collect(_, _, _, deleteOk) =>
      if deleteOk then s.(items := s.items - Doomed(s.items, PolicyAt(s, step)).Keys) else s
  }

  lemma CollectIs(s: State, step: Step, p: Policy, doomed: map<string, Cause>)
    requires step.Collect? && step.deleteOk && p == PolicyAt(s, step) && doomed == Doomed(s.items, p)
    ensures Next(s, step) == s.(items := s.items - doomed.Keys)
  {
  }

  ghost function Run(s: State, steps: seq<Step>): State
  {
    if steps == [] then s else Next(Run(s, steps[..|steps| - 1]), steps[|steps| - 1])
  }

  ghost predicate Good(s: State)
  {
    s.cap.Valid() && PositiveSizes(s.items) && KnownKinds(s.items)
  }

  /** Entries carry data, and say that they are images or files. */
  ghost predicate Admissible(steps: seq<Step>)
  {
    forall k :: 0 <= k < |steps| && steps[k].Store? ==> steps[k].m.size > 0 && !steps[k].m.kind.Other?
  }

  lemma StepKeepsGood(s: State, step: Step)
    requires Good(s) && (step.Store? ==> step.m.size > 0 && !step.m.kind.Other?)
    ensures Good(Next(s, step))
  {
    if step.Store? {
      StoringKeepsOthers(s.items, s.limits, s.cap, step.id, step.m, step.deleteOk, step.saveOk);
    }
  }

  lemma {:induction false} EveryRun(s: State, steps: seq<Step>)
    requires Good(s) && Admissible(steps)
    ensures Good(Run(s, steps))
  {
    if steps != [] {
      EveryRun(s, steps[..|steps| - 1]);
      StepKeepsGood(Run(s, steps[..|steps| - 1]), steps[|steps| - 1]);
    }
  }

  /** After every run the sum that insertion checks and the sum that collection uses agree. */
  lemma EveryRunSumsAgree(s: State, steps: seq<Step>, class': Kind)
    requires Good(s) && Admissible(steps) && (class' == Image || class' == File)
    ensures Usage(Run(s, steps).items, class') == UsageExcluding(Run(s, steps).items, class', {})
  {
    EveryRun(s, steps);
    KnownKindsAgree(Run(s, steps).items);
  }

  /** After every run a new item that is stored leaves its class within the quota of the moment, however
      the quotas were changed before, if and only if its size and the usage add up within 64 bits. */
  lemma StoringKeepsQuota(s: State, steps: seq<Step>, store: Step)
    requires Good(s) && Admissible(steps)
    requires store.Store? && store.m.size > 0 && store.id !in Run(s, steps).items
    ensures var t := Run(s, steps);
            var (error, after) := StoreItem(t.items, t.limits, t.cap, store.id, store.m, store.deleteOk, store.saveOk);
            error.None? && Quota(t.limits, store.m.kind) > 0 ==>
              (Usage(after, store.m.kind) <= Quota(t.limits, store.m.kind)
               <==> Usage(t.items, store.m.kind) + store.m.size < I64_LIMIT)
  {
    EveryRun(s, steps);
    var t := Run(s, steps);
    var (error, _) := StoreItem(t.items, t.limits, t.cap, store.id, store.m, store.deleteOk, store.saveOk);
    if error.None? && Quota(t.limits, store.m.kind) > 0 {
      StoredWithinQuotaIff(t.items, t.limits, t.cap, store.id, store.m, store.deleteOk, store.saveOk);
    }
  }

  /** The exception is within reach: in a store without a limit on single items, an item that claims
      the largest size there is follows a small one, and both are kept whatever the quota. */
  lemma OversizedItemIsKept(limits: Limits, cap: HardCap, a: string, small: Meta, b: string, large: Meta)
    requires cap.Valid() && a != b && small.kind == File == large.kind && limits.fileMaxItem <= 0
    requires 0 < small.size < FullCap(cap, limits.fileQuota) && small.size <= limits.fileQuota
    requires large.size == I64_LIMIT - 1
    ensures var t := Run(State(map[], limits, cap), [Store(a, small, true, true), Store(b, large, true, true)]);
            t.items == map[a := small, b := large] && Usage(t.items, File) > limits.fileQuota
  {
    var s0 := State(map[], limits, cap);
    var s1 := s0.(items := map[a := small]);
    StoresFirst(s0, a, small);
    StoresLarge(s1, a, small, b, large);
    var steps := [Store(a, small, true, true), Store(b, large, true, true)];
    assert steps[..1] == [steps[0]] && [steps[0]][..0] == [];
    assert Run(s0, [steps[0]]) == Next(s0, steps[0]);
  }

  lemma UsageOfOne(a: string, m: Meta)
    requires m.kind == File
    ensures Usage(map[a := m], File) == m.size && Usage(map[], File) == 0
  {
    assert OfKind(map[], File) == {};
    assert OfKind(map[a := m], File) == {a};
    TotalWithout(map[a := m], {a}, a);
    assert {a} - {a} == {};
  }

  lemma StoresFirst(s: State, a: string, small: Meta)
    requires s.items == map[] && small.kind == File && s.limits.fileMaxItem <= 0
    requires 0 < small.size < FullCap(s.cap, s.limits.fileQuota) && small.size <= s.limits.fileQuota
    ensures Next(s, Store(a, small, true, true)) == s.(items := map[a := small])
  {
    UsageOfOne(a, small);
  }

  lemma StoresLarge(s: State, a: string, small: Meta, b: string, large: Meta)
    requires s.items == map[a := small] && small.kind == File == large.kind && a != b && s.limits.fileMaxItem <= 0
    requires 0 < small.size < FullCap(s.cap, s.limits.fileQuota) && small.size <= s.limits.fileQuota
    requires large.size == I64_LIMIT - 1
    ensures var t := Next(s, Store(b, large, true, true));
            t == s.(items := map[a := small, b := large]) && Usage(t.items, File) > s.limits.fileQuota
  {
    UsageOfOne(a, small);
    assert Wrap64(small.size + large.size) < 0;
    assert Next(s, Store(b, large, true, true)).items == s.items[b := large];
    UsageAfterStoring(s.items, b, large);
    assert s.items[b := large] == map[a := small, b := large];
  }

  /** A pinned item stays as it is through every run that neither unpins it nor stores over it,
      whatever is evicted or collected around it. */
  lemma {:induction false} PinnedItemStays(s: State, steps: seq<Step>, id: string)
    requires id in s.items && s.items[id].pinned
    requires forall k :: 0 <= k < |steps| ==> !(steps[k].Store? && steps[k].id == id)
    requires forall k :: 0 <= k < |steps| ==> !(steps[k].Pin? && steps[k].id == id && !steps[k].pinned)
    ensures id in Run(s, steps).items && Run(s, steps).items[id] == s.items[id]
  {
    if steps != [] {
      var before, last := steps[..|steps| - 1], steps[|steps| - 1];
      PinnedItemStays(s, before, id);
      PinnedThroughStep(Run(s, before), last, id);
    }
  }

  lemma PinnedThroughStep(s: State, step: Step, id: string)
    requires id in s.items && s.items[id].pinned
    requires !(step.Store? && step.id == id) && !(step.Pin? && step.id == id && !step.pinned)
    ensures id in Next(s, step).items && Next(s, step).items[id] == s.items[id]
  {
    if step.Store? {
      StoringKeepsOthers(s.items, s.limits, s.cap, step.id, step.m, step.deleteOk, step.saveOk);
    }
    if step.Collect? {
      DoomedAreUnpinned(s.items, PolicyAt(s, step));
    }
  }

  // ---------------------------------------------------------------- settings and age

  /** The limits and percentages in force are those set last. */
  lemma {:induction false} LatestSettings(s: State, steps: seq<Step>, k: nat)
    requires k < |steps|
    ensures steps[k].SetLimits? && (forall j :: k < j < |steps| ==> !steps[j].SetLimits?) ==>
              Run(s, steps).limits == steps[k].limits
    ensures steps[k].SetCap? && (forall j :: k < j < |steps| ==> !steps[j].SetCap?) ==>
              Run(s, steps).cap == CapFor(steps[k].high, steps[k].full, steps[k].aggressive)
  {
    var before, last := steps[..|steps| - 1], steps[|steps| - 1];
    if k < |before| {
      LatestSettings(s, before, k);
      assert forall j :: 0 <= j < |before| ==> before[j] == steps[j];
    }
  }

  /** Items that have outlived the time set for their class. */
  ghost predicate TooOld(m: Meta, now: Time, imageTTL: int, fileTTL: int)
  {
    var ttl := if m.kind == Image then imageTTL else fileTTL;
    ttl > 0 && now - m.createdAt >= ttl * 1_000_000_000
  }

  /** After every run, a collection that can delete leaves no unpinned item that is too old. */
  lemma NothingTooOldIsLeft(s: State, steps: seq<Step>, collect: Step, id: string)
    requires collect.Collect? && collect.deleteOk && id in Next(Run(s, steps), collect).items
    ensures var m := Next(Run(s, steps), collect).items[id];
            m.pinned || !TooOld(m, collect.now, collect.imageTTL, collect.fileTTL)
  {
    var t := Run(s, steps);
    ExpiredIff(t.items, PolicyAt(t, collect), id);
  }
}
