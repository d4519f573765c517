/** What the quotas of the attachment store make it delete: garbage collection by age and by last use,
    eviction to make room for a new item, and the report on a collection. */
module AttachmentQuota {
  import opened Text
  import opened AttachmentIndex

  // ---------------------------------------------------------------- victims

  ghost function Sizes(items: Items, order: seq<string>): int
    requires forall id :: id in order ==> id in items
  {
    if order == [] then 0 else items[order[0]].size + Sizes(items, order[1..])
  }

  /** How many candidates are evicted to bring `usage` down to `target`. */
  ghost function VictimCount(items: Items, order: seq<string>, usage: int, target: int): nat
    requires forall id :: id in order ==> id in items
  {
    if usage <= target || order == [] then 0
    else 1 + VictimCount(items, order[1..], usage - items[order[0]].size, target)
  }

  /** The victims are the shortest prefix that is enough, or all candidates if none is. */
  lemma {:induction false} VictimsAreShortestPrefix(items: Items, order: seq<string>, usage: int, target: int)
    requires forall id :: id in order ==> id in items
    ensures var k := VictimCount(items, order, usage, target);
            && k <= |order|
            && (usage - Sizes(items, order[..k]) <= target || k == |order|)
            && forall j :: 0 <= j < k ==> usage - Sizes(items, order[..j]) > target
  {
    if usage > target && order != [] {
      var x, rest := order[0], order[1..];
      var k := VictimCount(items, rest, usage - items[x].size, target);
      VictimsAreShortestPrefix(items, rest, usage - items[x].size, target);
      assert order[..k + 1][1..] == rest[..k];
      forall j | 0 < j < k + 1
        ensures usage - Sizes(items, order[..j]) > target
      {
        assert order[..j][1..] == rest[..j - 1];
      }
    }
  }

  lemma {:induction false} SizesExtend(items: Items, order: seq<string>, k: nat)
    requires k < |order| && forall id :: id in order ==> id in items
    ensures Sizes(items, order[..k + 1]) == Sizes(items, order[..k]) + items[order[k]].size
  {
    if k > 0 {
      SizesExtend(items, order[1..], k - 1);
      assert order[..k + 1][1..] == order[1..][..k] && order[..k][1..] == order[1..][..k - 1];
    } else {
      assert order[..1][1..] == [] && order[..0] == [];
    }
  }

  lemma {:induction false} SizesGrow(items: Items, order: seq<string>, j: nat, k: nat)
    requires PositiveSizes(items) && j <= k <= |order| && forall id :: id in order ==> id in items
    ensures 0 <= Sizes(items, order[..j]) <= Sizes(items, order[..k])
    decreases k
  {
    if k > 0 {
      SizesGrow(items, order, if j < k then j else k - 1, k - 1);
      SizesExtend(items, order, k - 1);
    } else {
      assert order[..0] == [];
    }
  }

  /** Taking victims from a 64-bit sum never wraps: it stops within one item of the target. */
  lemma VictimsStayInRange(items: Items, order: seq<string>, usage: I64, target: int)
    requires PositiveSizes(items) && target >= 0 && forall id :: id in order ==> id in items
    ensures var k := VictimCount(items, order, usage, target);
            k <= |order| && -I64_LIMIT <= usage - Sizes(items, order[..k]) <= usage
  {
    VictimsAreShortestPrefix(items, order, usage, target);
    var k := VictimCount(items, order, usage, target);
    SizesGrow(items, order, 0, k);
    assert order[..0] == [];
    if k > 0 {
      SizesExtend(items, order, k - 1);
      assert usage - Sizes(items, order[..k - 1]) > target;
      assert order[k - 1] in order;
    }
  }

  lemma {:induction false} SizesIsTotal(items: Items, order: seq<string>)
    requires InOrder(items, order)
    ensures Elements(order) <= items.Keys && Sizes(items, order) == Total(items, Elements(order))
  {
    if order != [] {
      var x, rest := order[0], order[1..];
      SizesIsTotal(items, rest);
      assert x !in rest;
      assert Elements(order) == {x} + Elements(rest);
      TotalWithout(items, Elements(order), x);
      assert Elements(order) - {x} == Elements(rest);
    }
  }

  // ---------------------------------------------------------------- policies

  datatype Limits = Limits(imageQuota: I64, imageMaxItem: I64, fileQuota: I64, fileMaxItem: I64)

  /** Percentages of the quota. */
  datatype HardCap = HardCap(high: int, full: int, aggressive: int)
  {
    predicate Valid() {
      1 <= aggressive <= high <= full <= 100
    }
  }

  function Quota(limits: Limits, kind: Kind): I64
  {
    if kind == Image then limits.imageQuota else limits.fileQuota
  }

  function MaxItem(limits: Limits, kind: Kind): I64
  {
    if kind == Image then limits.imageMaxItem else limits.fileMaxItem
  }

  /** The usage a collection aims for, given the byte counts of high watermark and aggressive target. */
  function TargetFor(quota: int, high: int, aggressive: int, usage: int): int
  {
    if usage >= (if high <= 0 then quota else high) && 0 < aggressive < quota then aggressive else quota
  }

  /** A percentage of the quota; what wraps around below zero is not used. */
  function Share(quota: int, percent: int): int
  {
    Wrap64(quota * percent) / 100
  }

  /** The quota, or less once the high watermark is reached. */
  function Target(cap: HardCap, quota: int, usage: int): int
  {
    TargetFor(quota, Share(quota, cap.high), Share(quota, cap.aggressive), usage)
  }

  lemma ShareAtMost(quota: int, percent: int)
    requires quota > 0 && 0 < percent <= 100
    ensures Share(quota, percent) <= quota
  {
    assert 0 < quota * percent <= quota * 100;
  }

  lemma TargetForStays(quota: int, high: int, aggressive: int, before: int, after: int)
    requires quota > 0 && high <= quota
    requires TargetFor(quota, high, aggressive, before) < before
    requires after <= TargetFor(quota, high, aggressive, before)
    ensures after <= TargetFor(quota, high, aggressive, after)
  {
  }

  lemma TargetStays(cap: HardCap, quota: int, before: int, after: int)
    requires quota > 0 && cap.Valid()
    requires before > Target(cap, quota, before) && after <= Target(cap, quota, before)
    ensures after <= Target(cap, quota, after)
  {
    ShareAtMost(quota, cap.high);
    TargetForStays(quota, Share(quota, cap.high), Share(quota, cap.aggressive), before, after);
  }

  function MbToBytes(mb: int): I64
  {
    if mb <= 0 then 0 else Wrap64(mb * 1024 * 1024)
  }

  function Clamp(lo: int, x: int, hi: int): int
  {
    if x < lo then lo else if x > hi then hi else x
  }

  /** The percentages in force after a client asked for the given ones. */
  function CapFor(high: int, full: int, aggressive: int): HardCap
  {
    var h := Clamp(1, high, 100);
    HardCap(h, Clamp(h, full, 100), Clamp(1, aggressive, h))
  }

  // ---------------------------------------------------------------- what a collection deletes

  datatype Cause = Expired | Lru

  datatype Policy = Policy(limits: Limits, cap: HardCap, now: Time, imageTTL: int, fileTTL: int)

  predicate HasExpired(p: Policy, m: Meta)
  {
    var ttl := if GcClass(m.kind) == Image then p.imageTTL else p.fileTTL;
    !m.pinned && ttl > 0 && m.createdAt <= p.now - ttl * SECOND
  }

  function Candidates(items: Items, class': Kind, excluded: set<string>): set<string>
  {
    set id | id in items && id !in excluded && !items[id].pinned && GcClass(items[id].kind) == class'
  }

  /** The candidates evicted to bring `usage` down to `target`. */
  ghost function Victims(items: Items, candidates: set<string>, usage: int, target: int): seq<string>
    requires candidates <= items.Keys
  {
    LruOrderIsOrder(items, candidates);
    var order := LruOrder(items, candidates);
    VictimsAreShortestPrefix(items, order, usage, target);
    order[..VictimCount(items, order, usage, target)]
  }

  ghost function LruVictims(items: Items, p: Policy, class': Kind, excluded: set<string>): set<string>
  {
    var quota := Quota(p.limits, class');
    if quota <= 0 then {}
    else
      var usage := Wrap64(UsageExcluding(items, class', excluded));
      Elements(Victims(items, Candidates(items, class', excluded), usage, Target(p.cap, quota, usage)))
  }

  function Marked(ids: set<string>, cause: Cause): map<string, Cause>
  {
    map id | id in ids :: cause
  }

  function ExpiredItems(items: Items, p: Policy): set<string>
  {
    set id | id in items && HasExpired(p, items[id])
  }

  ghost function WithVictims(items: Items, p: Policy, class': Kind, marked: map<string, Cause>): map<string, Cause>
  {
    marked + Marked(LruVictims(items, p, class', marked.Keys), Lru)
  }

  /** Everything a collection marks for deletion, with the cause: expired items first, then images
      and files that are over target. */
  ghost function Doomed(items: Items, p: Policy): map<string, Cause>
  {
    WithVictims(items, p, File, WithVictims(items, p, Image, Marked(ExpiredItems(items, p), Expired)))
  }

  lemma VictimsAreCandidates(items: Items, p: Policy, class': Kind, excluded: set<string>)
    ensures LruVictims(items, p, class', excluded) <= Candidates(items, class', excluded)
  {
    var candidates := Candidates(items, class', excluded);
    LruOrderIsOrder(items, candidates);
    var order := LruOrder(items, candidates);
    assert forall id :: id in order ==> id in Elements(order);
  }

  /** Only stored, unpinned items are marked. */
  lemma DoomedAreUnpinned(items: Items, p: Policy)
    ensures forall id :: id in Doomed(items, p) ==> id in items && !items[id].pinned
  {
    var marked := Marked(ExpiredItems(items, p), Expired);
    VictimsAreCandidates(items, p, Image, marked.Keys);
    VictimsAreCandidates(items, p, File, WithVictims(items, p, Image, marked).Keys);
  }

  lemma UsageWithout(items: Items, class': Kind, excluded: set<string>, victims: seq<string>)
    requires InOrder(items, victims) && Elements(victims) <= OfClass(items, class') - excluded
    ensures UsageExcluding(items, class', excluded + Elements(victims))
         == UsageExcluding(items, class', excluded) - Sizes(items, victims)
  {
    var all, gone := OfClass(items, class'), Elements(victims);
    SizesIsTotal(items, victims);
    TotalSplit(items, all - (excluded + gone), gone);
    assert all - (excluded + gone) + gone == all - excluded;
  }

  /** The target a phase chooses, from the sum it computes. */
  ghost function Chosen(items: Items, p: Policy, class': Kind, excluded: set<string>): int
  {
    Target(p.cap, Quota(p.limits, class'), Wrap64(UsageExcluding(items, class', excluded)))
  }

  /** Even without its last candidate the sum computed for a class would be over the target. */
  ghost predicate TakesAll(items: Items, p: Policy, class': Kind, excluded: set<string>)
  {
    LruOrderIsOrder(items, Candidates(items, class', excluded));
    var order := LruOrder(items, Candidates(items, class', excluded));
    || order == []
    || Wrap64(UsageExcluding(items, class', excluded)) - Sizes(items, order[..|order| - 1])
       > Chosen(items, p, class', excluded)
  }

  /** The victims as a prefix of the candidates in order. */
  lemma PhaseVictims(items: Items, p: Policy, class': Kind, excluded: set<string>) returns (order: seq<string>, k: nat)
    requires PositiveSizes(items) && Quota(p.limits, class') > 0
    ensures order == LruOrder(items, Candidates(items, class', excluded)) && InOrder(items, order)
    ensures Elements(order) == Candidates(items, class', excluded)
    ensures k <= |order| && LruVictims(items, p, class', excluded) == Elements(order[..k])
    ensures var w, target := Wrap64(UsageExcluding(items, class', excluded)), Chosen(items, p, class', excluded);
            && k == VictimCount(items, order, w, target)
            && -I64_LIMIT <= w - Sizes(items, order[..k]) <= w
  {
    var candidates := Candidates(items, class', excluded);
    LruOrderIsOrder(items, candidates);
    order := LruOrder(items, candidates);
    var w, target := Wrap64(UsageExcluding(items, class', excluded)), Chosen(items, p, class', excluded);
    VictimsStayInRange(items, order, w, target);
    k := VictimCount(items, order, w, target);
  }

  /** Without a prefix of the candidates the true sum and the computed one drop by the same amount. */
  lemma PrefixDrops(items: Items, class': Kind, excluded: set<string>, order: seq<string>, k: nat)
    requires InOrder(items, order) && Elements(order) == Candidates(items, class', excluded) && k <= |order|
    requires var w := Wrap64(UsageExcluding(items, class', excluded));
             -I64_LIMIT <= w - Sizes(items, order[..k]) <= w
    ensures var usage := UsageExcluding(items, class', excluded);
            var left := UsageExcluding(items, class', excluded + Elements(order[..k]));
            left == usage - Sizes(items, order[..k]) && Wrap64(left) == Wrap64(usage) - Sizes(items, order[..k])
  {
    assert forall id :: id in order[..k] ==> id in Elements(order);
    UsageWithout(items, class', excluded, order[..k]);
    WrapMinus(UsageExcluding(items, class', excluded), Sizes(items, order[..k]));
  }

  lemma NoneLeftIff(items: Items, class': Kind, excluded: set<string>, order: seq<string>, k: nat)
    requires InOrder(items, order) && Elements(order) == Candidates(items, class', excluded) && k <= |order|
    ensures Candidates(items, class', excluded + Elements(order[..k])) == {} <==> k == |order|
  {
    if k == |order| {
      assert order[..k] == order;
    } else {
      assert order[k] in Elements(order) && order[k] !in order[..k];
      assert order[k] in Candidates(items, class', excluded + Elements(order[..k]));
    }
  }

  lemma AllTakenIff(items: Items, order: seq<string>, usage: int, target: int)
    requires PositiveSizes(items) && forall id :: id in order ==> id in items
    ensures VictimCount(items, order, usage, target) == |order| <==>
            order == [] || usage - Sizes(items, order[..|order| - 1]) > target
  {
    VictimsAreShortestPrefix(items, order, usage, target);
    var k := VictimCount(items, order, usage, target);
    if k < |order| {
      SizesGrow(items, order, k, |order| - 1);
    }
  }

  /** In 64 bits: nothing wraps around during a phase, so that the true sum drops by as much as the
      computed one. */
  lemma PhaseDrops(items: Items, p: Policy, class': Kind, excluded: set<string>)
    requires PositiveSizes(items) && Quota(p.limits, class') > 0
    ensures var before := UsageExcluding(items, class', excluded);
            var after := UsageExcluding(items, class', excluded + LruVictims(items, p, class', excluded));
            before - after == Wrap64(before) - Wrap64(after)
  {
    var order, k := PhaseVictims(items, p, class', excluded);
    PrefixDrops(items, class', excluded, order, k);
  }

  /** And it goes down to the target, or takes every candidate; the latter exactly when the sum without
      the last one is over the target. */
  lemma PhaseReachesTarget(items: Items, p: Policy, class': Kind, excluded: set<string>)
    requires PositiveSizes(items) && Quota(p.limits, class') > 0
    ensures var gone := LruVictims(items, p, class', excluded);
            && (|| Wrap64(UsageExcluding(items, class', excluded + gone)) <= Chosen(items, p, class', excluded)
                || Candidates(items, class', excluded + gone) == {})
            && (Candidates(items, class', excluded + gone) == {} <==> TakesAll(items, p, class', excluded))
  {
    var order, k := PhaseVictims(items, p, class', excluded);
    var w, target := Wrap64(UsageExcluding(items, class', excluded)), Chosen(items, p, class', excluded);
    VictimsAreShortestPrefix(items, order, w, target);
    PrefixDrops(items, class', excluded, order, k);
    NoneLeftIff(items, class', excluded, order, k);
    AllTakenIff(items, order, w, target);
  }

  // ---------------------------------------------------------------- results about collections

  /** An eviction phase depends on what is excluded within its own class only. */
  lemma PhaseDependsOnClass(items: Items, p: Policy, class': Kind, x: set<string>, y: set<string>)
    requires OfClass(items, class') * x == OfClass(items, class') * y
    ensures LruVictims(items, p, class', x) == LruVictims(items, p, class', y)
    ensures UsageExcluding(items, class', x) == UsageExcluding(items, class', y)
    ensures Candidates(items, class', x) == Candidates(items, class', y)
  {
    var all := OfClass(items, class');
    assert all - x == all - all * x && all - y == all - all * y;
    assert forall id :: id in all ==> (id in x <==> id in all * x) && (id in y <==> id in all * y);
    assert Candidates(items, class', x) == Candidates(items, class', y);
  }

  /** What is marked: the expired items, and of each class the victims among the others. */
  lemma DoomedKeys(items: Items, p: Policy)
    ensures var expired := ExpiredItems(items, p);
            Doomed(items, p).Keys
            == expired + LruVictims(items, p, Image, expired) + LruVictims(items, p, File, expired)
  {
    var expired := ExpiredItems(items, p);
    var images := LruVictims(items, p, Image, expired);
    var marked := Marked(expired, Expired);
    assert marked.Keys == expired;
    VictimsAreCandidates(items, p, Image, expired);
    assert WithVictims(items, p, Image, marked).Keys == expired + images;
    assert OfClass(items, File) * expired == OfClass(items, File) * (expired + images);
    PhaseDependsOnClass(items, p, File, expired, expired + images);
  }

  /** Expired items are marked as such, all others as evicted. */
  lemma DoomedCauses(items: Items, p: Policy)
    ensures forall id :: id in Doomed(items, p) ==>
              (Doomed(items, p)[id] == Expired <==> id in ExpiredItems(items, p))
  {
    var marked := Marked(ExpiredItems(items, p), Expired);
    VictimsAreCandidates(items, p, Image, marked.Keys);
    VictimsAreCandidates(items, p, File, WithVictims(items, p, Image, marked).Keys);
  }

  /** An item is marked as expired if and only if it is stored, not pinned, and has the age set for images if
      it is one, for files if it is not; 0 or less sets none. */
  lemma ExpiredIff(items: Items, p: Policy, id: string)
    ensures id in Doomed(items, p) && Doomed(items, p)[id] == Expired <==>
            && id in items && !items[id].pinned
            && var age := p.now - items[id].createdAt;
               || (items[id].kind == Image && p.imageTTL > 0 && age >= p.imageTTL * 1_000_000_000)
               || (items[id].kind != Image && p.fileTTL > 0 && age >= p.fileTTL * 1_000_000_000)
  {
    DoomedKeys(items, p);
    DoomedCauses(items, p);
  }

  /** Without quotas nothing else goes. */
  lemma WithoutQuotasOnlyExpired(items: Items, p: Policy)
    requires Quota(p.limits, Image) <= 0 && Quota(p.limits, File) <= 0
    ensures forall id :: id in Doomed(items, p) ==> Doomed(items, p)[id] == Expired
  {
    DoomedKeys(items, p);
    DoomedCauses(items, p);
  }

  lemma UsageAfterDeletion(items: Items, class': Kind, gone: set<string>)
    ensures UsageExcluding(items - gone, class', {}) == UsageExcluding(items, class', gone)
    ensures Candidates(items - gone, class', {}) == Candidates(items, class', gone)
  {
    assert OfClass(items - gone, class') - {} == OfClass(items, class') - gone;
    TotalSame(items, items - gone, OfClass(items, class') - gone);
  }

  /** Within its class a collection deletes the expired items and that class's victims. */
  lemma DeletionWithinClass(items: Items, p: Policy, class': Kind)
    requires class' == Image || class' == File
    ensures var expired := ExpiredItems(items, p);
            OfClass(items, class') * Doomed(items, p).Keys
            == OfClass(items, class') * (expired + LruVictims(items, p, class', expired))
  {
    DoomedKeys(items, p);
    var expired := ExpiredItems(items, p);
    VictimsAreCandidates(items, p, Image, expired);
    VictimsAreCandidates(items, p, File, expired);
  }

  /** The class is at or below the target chosen for it, or has no unpinned item left. */
  ghost predicate Settled(items: Items, p: Policy, class': Kind)
  {
    var after := items - Doomed(items, p).Keys;
    || UsageExcluding(after, class', {}) <= Chosen(items, p, class', ExpiredItems(items, p))
    || Candidates(after, class', {}) == {}
  }

  /** What a collection leaves of a class. */
  lemma AfterCollection(items: Items, p: Policy, class': Kind)
    requires class' == Image || class' == File
    ensures var expired := ExpiredItems(items, p);
            var gone := expired + LruVictims(items, p, class', expired);
            var after := items - Doomed(items, p).Keys;
            && UsageExcluding(after, class', {}) == UsageExcluding(items, class', gone)
            && Candidates(after, class', {}) == Candidates(items, class', gone)
  {
    var expired, doomed := ExpiredItems(items, p), Doomed(items, p).Keys;
    DeletionWithinClass(items, p, class');
    PhaseDependsOnClass(items, p, class', doomed, expired + LruVictims(items, p, class', expired));
    UsageAfterDeletion(items, class', doomed);
  }

  /** After a collection a class with a quota is settled if and only if the sizes of what has not expired
      add up within 64 bits, or the collection takes all it may take. */
  lemma CollectionReachesTargetIff(items: Items, p: Policy, class': Kind)
    requires PositiveSizes(items) && (class' == Image || class' == File) && Quota(p.limits, class') > 0
    ensures Settled(items, p, class') <==>
            || UsageExcluding(items, class', ExpiredItems(items, p)) < I64_LIMIT
            || TakesAll(items, p, class', ExpiredItems(items, p))
  {
    var expired := ExpiredItems(items, p);
    AfterCollection(items, p, class');
    PhaseReachesTarget(items, p, class', expired);
    PhaseDrops(items, p, class', expired);
    var usage := UsageExcluding(items, class', expired);
    var left := UsageExcluding(items, class', expired + LruVictims(items, p, class', expired));
    TotalOfPart(items, OfClass(items, class') - expired, items.Keys);
    WrapAndTurns(usage);
    if usage >= I64_LIMIT {
      assert left == Wrap64(left) + Turns(usage) * U64_MOD >= I64_LIMIT;
    }
  }

  lemma NoVictimsBelowTarget(items: Items, p: Policy, class': Kind, excluded: set<string>)
    requires var usage := Wrap64(UsageExcluding(items, class', excluded));
             || Quota(p.limits, class') <= 0
             || usage <= Target(p.cap, Quota(p.limits, class'), usage)
             || Candidates(items, class', excluded) == {}
    ensures LruVictims(items, p, class', excluded) == {}
  {
  }

  lemma PhaseSettles(items: Items, p: Policy, class': Kind)
    requires PositiveSizes(items) && (class' == Image || class' == File) && p.cap.Valid()
    ensures LruVictims(items - Doomed(items, p).Keys, p, class', {}) == {}
  {
    var after, quota := items - Doomed(items, p).Keys, Quota(p.limits, class');
    if quota > 0 {
      var expired := ExpiredItems(items, p);
      AfterCollection(items, p, class');
      PhaseReachesTarget(items, p, class', expired);
      var w := Wrap64(UsageExcluding(items, class', expired));
      if w <= Chosen(items, p, class', expired) {
        NoVictimsBelowTarget(items, p, class', expired);
        assert expired + {} == expired;
      } else if Candidates(after, class', {}) != {} {
        TargetStays(p.cap, quota, w, Wrap64(UsageExcluding(after, class', {})));
      }
      NoVictimsBelowTarget(after, p, class', {});
    }
  }

  lemma NothingExpiredLeft(items: Items, p: Policy)
    ensures ExpiredItems(items - Doomed(items, p).Keys, p) == {}
  {
    DoomedKeys(items, p);
  }

  /** A second collection at the same time under the same policy deletes nothing. */
  lemma SecondCollectionDeletesNothing(items: Items, p: Policy)
    requires PositiveSizes(items) && p.cap.Valid()
    ensures Doomed(items - Doomed(items, p).Keys, p).Keys == {}
  {
    NothingExpiredLeft(items, p);
    PhaseSettles(items, p, Image);
    PhaseSettles(items, p, File);
    DoomedKeys(items - Doomed(items, p).Keys, p);
  }

  // ---------------------------------------------------------------- admission of a new item

  datatype Error =
    | MissingID | EmptyData | ItemTooLarge | HardCapReached | QuotaExceeded | DeleteFailed | SaveFailed | NotFound
    | InvalidPinState

  function FullCap(cap: HardCap, quota: int): int
  {
    var bytes := Share(quota, cap.full);
    if bytes <= 0 then quota else bytes
  }

  ghost function EvictedFor(items: Items, kind: Kind, size: int, quota: int): set<string>
  {
    var target := if quota - size < 0 then 0 else quota - size;
    Elements(Victims(items, Candidates(items, kind, {}), Wrap64(Usage(items, kind)), target))
  }

  lemma EvictedAreCandidates(items: Items, kind: Kind, size: int, quota: int)
    ensures EvictedFor(items, kind, size, quota) <= Candidates(items, kind, {})
  {
    var candidates := Candidates(items, kind, {});
    LruOrderIsOrder(items, candidates);
    var order := LruOrder(items, candidates);
    assert forall id :: id in order ==> id in Elements(order);
  }

  /** Whether an item may be stored, and what is left of the index after making room. */
  datatype Admission = Admitted(items: Items) | Declined(items: Items, error: Error)

  ghost function Admit(items: Items, limits: Limits, cap: HardCap, kind: Kind, size: int, deleteOk: bool): Admission
  {
    var quota := Quota(limits, kind);
    if MaxItem(limits, kind) > 0 && size > MaxItem(limits, kind) then Declined(items, ItemTooLarge)
    else if quota <= 0 then Admitted(items)
    else if Wrap64(Usage(items, kind)) >= FullCap(cap, quota) then Declined(items, HardCapReached)
    else RoomFor(items, quota, kind, size, deleteOk)
  }

  /** Making room under the quota. */
  ghost function RoomFor(items: Items, quota: int, kind: Kind, size: int, deleteOk: bool): Admission
  {
    if Wrap64(Usage(items, kind) + size) <= quota then Admitted(items)
    else
      var evicted := EvictedFor(items, kind, size, quota);
      if evicted != {} && !deleteOk then Declined(items, DeleteFailed)
      else if Wrap64(Usage(items - evicted, kind) + size) > quota then Declined(items - evicted, QuotaExceeded)
      else Admitted(items - evicted)
  }

  lemma AdmissionEvictsUnpinned(items: Items, limits: Limits, cap: HardCap, kind: Kind, size: int, deleteOk: bool)
    ensures var left := Admit(items, limits, cap, kind, size, deleteOk).items;
            && (forall id :: id in left ==> id in items && left[id] == items[id])
            && (forall id :: id in items && items[id].pinned ==> id in left)
  {
    EvictedAreCandidates(items, kind, size, Quota(limits, kind));
  }

  lemma UsageAfterStoring(items: Items, id: string, m: Meta)
    requires PositiveSizes(items)
    ensures Usage(items[id := m], m.kind) <= Usage(items, m.kind) + m.size
    ensures id !in items ==> Usage(items[id := m], m.kind) == Usage(items, m.kind) + m.size
  {
    var stored := items[id := m];
    var others := OfKind(items, m.kind) - {id};
    assert OfKind(stored, m.kind) - {id} == others;
    TotalWithout(stored, OfKind(stored, m.kind), id);
    TotalSame(items, stored, others);
    if id in OfKind(items, m.kind) {
      TotalWithout(items, OfKind(items, m.kind), id);
    } else {
      assert OfKind(items, m.kind) - {id} == OfKind(items, m.kind);
    }
  }

  /** Trying to store `m` under `id`: the error, if any, and what the index holds afterwards. */
  ghost function StoreItem(items: Items, limits: Limits, cap: HardCap, id: string, m: Meta, deleteOk: bool,
                           saveOk: bool)
    : (Option<Error>, Items)
  {
    match Admit(items, limits, cap, m.kind, m.size, deleteOk)
    case Declined(left, e) => (Some(e), left)
    case Admitted(left) => if saveOk then (None, left[id := m]) else (Some(SaveFailed), left)
  }

  /** Whether an item is stored or not, no pinned item goes and no other entry changes. */
  lemma StoringKeepsOthers(items: Items, limits: Limits, cap: HardCap, id: string, m: Meta, deleteOk: bool,
                           saveOk: bool)
    ensures var (_, after) := StoreItem(items, limits, cap, id, m, deleteOk, saveOk);
            && (forall x :: x in items && items[x].pinned && x != id ==> x in after && after[x] == items[x])
            && (forall x :: x in after && x != id ==> x in items && after[x] == items[x])
            && (id in after ==> after[id] == m || (id in items && after[id] == items[id]))
  {
    AdmissionEvictsUnpinned(items, limits, cap, m.kind, m.size, deleteOk);
  }

  lemma UsageOfPart(items: Items, left: Items, kind: Kind)
    requires PositiveSizes(items) && left.Keys <= items.Keys && forall id :: id in left ==> left[id] == items[id]
    ensures 0 <= Usage(left, kind) <= Usage(items, kind)
  {
    TotalSame(items, left, OfKind(left, kind));
    TotalOfPart(items, OfKind(left, kind), OfKind(items, kind));
  }

  /** Making room leaves more than 64 bits when there were more before: eviction stops within one item
      of its target. */
  lemma OverflowStays(items: Items, kind: Kind, size: int, quota: int)
    requires PositiveSizes(items) && Usage(items, kind) >= I64_LIMIT
    ensures Usage(items - EvictedFor(items, kind, size, quota), kind) >= I64_LIMIT
  {
    var usage, target := Usage(items, kind), if quota - size < 0 then 0 else quota - size;
    var candidates := Candidates(items, kind, {});
    LruOrderIsOrder(items, candidates);
    var order := LruOrder(items, candidates);
    VictimsStayInRange(items, order, Wrap64(usage), target);
    var victims := order[..VictimCount(items, order, Wrap64(usage), target)];
    WrapAndTurns(usage);
    SizesIsTotal(items, victims);
    UsageAtLeast(items, kind, Elements(victims));
  }

  /** Deleting `gone` takes at most its sizes from the usage. */
  lemma UsageAtLeast(items: Items, kind: Kind, gone: set<string>)
    requires PositiveSizes(items) && gone <= items.Keys
    ensures Usage(items - gone, kind) >= Usage(items, kind) - Total(items, gone)
  {
    var all := OfKind(items, kind);
    TotalSame(items, items - gone, all - gone);
    assert OfKind(items - gone, kind) == all - gone;
    TotalSplit(items, all - gone, all * gone);
    assert (all - gone) + all * gone == all;
    TotalOfPart(items, all * gone, gone);
  }

  /** Whether or not anything is evicted on the way, and whether or not it replaces another, an item that
      is stored leaves its class within the quota if usage and size add up within 64 bits. */
  lemma StoredWithinQuota(items: Items, limits: Limits, cap: HardCap, id: string, m: Meta, deleteOk: bool, saveOk: bool)
    requires PositiveSizes(items) && m.size > 0 && Usage(items, m.kind) + m.size < I64_LIMIT
    ensures var (error, after) := StoreItem(items, limits, cap, id, m, deleteOk, saveOk);
            error.None? && Quota(limits, m.kind) > 0 ==> Usage(after, m.kind) <= Quota(limits, m.kind)
  {
    AdmissionEvictsUnpinned(items, limits, cap, m.kind, m.size, deleteOk);
    var left := Admit(items, limits, cap, m.kind, m.size, deleteOk).items;
    UsageOfPart(items, left, m.kind);
    UsageAfterStoring(left, id, m);
  }

  lemma OverflowIsAdmitted(items: Items, limits: Limits, cap: HardCap, kind: Kind, size: I64, deleteOk: bool)
    requires PositiveSizes(items) && size > 0 && Usage(items, kind) + size >= I64_LIMIT
    requires Quota(limits, kind) > 0 && Admit(items, limits, cap, kind, size, deleteOk).Admitted?
    ensures Usage(Admit(items, limits, cap, kind, size, deleteOk).items, kind) + size >= I64_LIMIT
  {
    if Usage(items, kind) >= I64_LIMIT {
      OverflowStays(items, kind, size, Quota(limits, kind));
    } else {
      assert Wrap64(Usage(items, kind) + size) < 0;
    }
  }

  /** A new item does so only then. */
  lemma StoredWithinQuotaIff(items: Items, limits: Limits, cap: HardCap, id: string, m: Meta, deleteOk: bool,
                             saveOk: bool)
    requires PositiveSizes(items) && m.size > 0 && id !in items
    requires StoreItem(items, limits, cap, id, m, deleteOk, saveOk).0.None? && Quota(limits, m.kind) > 0
    ensures Usage(StoreItem(items, limits, cap, id, m, deleteOk, saveOk).1, m.kind) <= Quota(limits, m.kind)
            <==> Usage(items, m.kind) + m.size < I64_LIMIT
  {
    if Usage(items, m.kind) + m.size < I64_LIMIT {
      StoredWithinQuota(items, limits, cap, id, m, deleteOk, saveOk);
    } else {
      OverflowIsAdmitted(items, limits, cap, m.kind, m.size, deleteOk);
      AdmissionEvictsUnpinned(items, limits, cap, m.kind, m.size, deleteOk);
      UsageAfterStoring(Admit(items, limits, cap, m.kind, m.size, deleteOk).items, id, m);
    }
  }

  // ---------------------------------------------------------------- reports

  datatype Report = Report(dryRun: bool, deleted: nat, images: nat, files: nat, expired: nat, lru: nat)

  function ByClass(items: Items, doomed: map<string, Cause>, class': Kind): set<string>
    requires doomed.Keys <= items.Keys
  {
    set id | id in doomed.Keys && GcClass(items[id].kind) == class'
  }

  function ByCause(doomed: map<string, Cause>, cause: Cause): set<string>
  {
    set id | id in doomed.Keys && doomed[id] == cause
  }

  /** The report for a set of marked items. */
  function ReportOn(items: Items, doomed: map<string, Cause>, dryRun: bool): Report
    requires doomed.Keys <= items.Keys
  {
    Report(dryRun, |doomed.Keys|, |ByClass(items, doomed, Image)|, |ByClass(items, doomed, File)|,
           |ByCause(doomed, Expired)|, |ByCause(doomed, Lru)|)
  }

  lemma SizeOfParts(whole: set<string>, a: set<string>, b: set<string>)
    requires whole == a + b && a !! b
    ensures |whole| == |a| + |b|
  {
  }

  lemma DropInItems(items: Items, doomed: map<string, Cause>)
    requires doomed.Keys <= items.Keys
    ensures |(items - doomed.Keys).Keys| == |items.Keys| - |doomed.Keys|
  {
    SizeOfParts(items.Keys, (items - doomed.Keys).Keys, doomed.Keys);
  }

  lemma ClassesAddUp(items: Items, doomed: map<string, Cause>)
    requires doomed.Keys <= items.Keys
    ensures |doomed.Keys| == |ByClass(items, doomed, Image)| + |ByClass(items, doomed, File)|
  {
    SizeOfParts(doomed.Keys, ByClass(items, doomed, Image), ByClass(items, doomed, File));
  }

  lemma CausesAddUp(doomed: map<string, Cause>)
    ensures |doomed.Keys| == |ByCause(doomed, Expired)| + |ByCause(doomed, Lru)|
  {
    SizeOfParts(doomed.Keys, ByCause(doomed, Expired), ByCause(doomed, Lru));
  }

  /** The totals of a report agree with one another and with the drop in the number of items. */
  lemma ReportAddsUp(items: Items, doomed: map<string, Cause>, dryRun: bool)
    requires doomed.Keys <= items.Keys
    ensures var r := ReportOn(items, doomed, dryRun);
            && r.deleted == r.images + r.files == r.expired + r.lru
            && r.deleted == |items.Keys| - |(items - doomed.Keys).Keys|
  {
    DropInItems(items, doomed);
    ClassesAddUp(items, doomed);
    CausesAddUp(doomed);
  }
}
