/** The rules of the attachment store in the terms of its settings: which item is let in, what goes to make
    room and in which order, how far a collection goes, and how entries are read. */
module AttachmentRules {
  import opened Text
  import opened AttachmentIndex
  import opened AttachmentQuota
  import opened AttachmentStore

  // ---------------------------------------------------------------- percentages

  /** `percent` of the quota, rounded down, where the product fits in 64 bits. */
  lemma ShareIs(quota: int, percent: int)
    requires 0 < quota && 0 < percent && quota * percent < I64_LIMIT
    ensures 100 * Share(quota, percent) <= quota * percent < 100 * (Share(quota, percent) + 1)
  {
  }

  /** What a collection aims for: the quota, or the aggressive share of it once usage has come to the high
      watermark; a share that comes to nothing does not count, and neither does an aggressive share that is
      all of the quota. */
  lemma TargetIs(cap: HardCap, quota: int, usage: int)
    requires cap.Valid() && 0 < quota && quota * 100 < I64_LIMIT
    ensures var t, high, aggressive := Target(cap, quota, usage), quota * cap.high, quota * cap.aggressive;
            if (if high < 100 then usage >= quota else 100 * (usage + 1) > high) && 100 <= aggressive < 100 * quota
            then 100 * t <= aggressive < 100 * (t + 1)
            else t == quota
  {
    var high, aggressive := quota * cap.high, quota * cap.aggressive;
    TimesGrows(quota, 1, cap.aggressive);
    TimesGrows(quota, cap.aggressive, cap.high);
    TimesGrows(quota, cap.high, 100);
    ShareIs(quota, cap.high);
    ShareIs(quota, cap.aggressive);
    TargetForIs(quota, high, aggressive, Share(quota, cap.high), Share(quota, cap.aggressive), usage);
  }

  lemma TimesGrows(x: int, a: int, b: int)
    requires 0 < x && a <= b
    ensures x * a <= x * b
  {
  }

  lemma TargetForIs(quota: int, high: int, aggressive: int, h: int, a: int, usage: int)
    requires 0 < aggressive <= high <= quota * 100
    requires 100 * h <= high < 100 * (h + 1) && 100 * a <= aggressive < 100 * (a + 1)
    ensures TargetFor(quota, h, a, usage) ==
            if (if high < 100 then usage >= quota else 100 * (usage + 1) > high) && 100 <= aggressive < 100 * quota
            then a else quota
  {
  }

  /** How near `x` is to what was asked for. */
  function Distance(x: int, asked: int): int
  {
    if x < asked then asked - x else x - asked
  }

  /** `x` is the value between `lo` and `hi` that is nearest to what was asked for. */
  ghost predicate Nearest(lo: int, x: int, hi: int, asked: int)
  {
    lo <= x <= hi && forall y :: lo <= y <= hi ==> Distance(x, asked) <= Distance(y, asked)
  }

  /** Percentages are set as asked for as far as they are in order: the high watermark from 1 to 100, the full
      cap from there to 100, the aggressive target from 1 to the high watermark. */
  lemma CapIsNearest(high: int, full: int, aggressive: int)
    ensures var cap := CapFor(high, full, aggressive);
            && cap.Valid()
            && Nearest(1, cap.high, 100, high) && Nearest(cap.high, cap.full, 100, full)
            && Nearest(1, cap.aggressive, cap.high, aggressive)
  {
  }

  // ---------------------------------------------------------------- who goes first

  function Used(m: Meta): Time
  {
    if m.lastAccessAt != 0 then m.lastAccessAt else m.createdAt
  }

  lemma PrefixIsOldest(items: Items, order: seq<string>, k: nat, x: string, y: string)
    requires InOrder(items, order) && k <= |order|
    requires x in order[..k] && y in order && y !in order[..k]
    ensures x in items && y in items && Used(items[x]) <= Used(items[y])
  {
    var i :| 0 <= i < k && order[i] == x;
    var j :| 0 <= j < |order| && order[j] == y;
    assert forall n :: 0 <= n < k ==> order[n] in order[..k];
    assert Earlier(items, order[i], order[j]);
  }

  /** What a collection evicts was used no later than anything unpinned it keeps of the class. */
  lemma CollectionTakesOldest(items: Items, p: Policy, x: string, y: string)
    requires x in Doomed(items, p) && Doomed(items, p)[x] == Lru
    requires y in items && y !in Doomed(items, p) && !items[y].pinned
    ensures x in items
    ensures (items[x].kind == Image <==> items[y].kind == Image) ==> Used(items[x]) <= Used(items[y])
  {
    var expired := ExpiredItems(items, p);
    DoomedKeys(items, p);
    DoomedCauses(items, p);
    VictimsAreCandidates(items, p, Image, expired);
    VictimsAreCandidates(items, p, File, expired);
    var class' := if items[x].kind == Image then Image else File;
    if items[x].kind == Image <==> items[y].kind == Image {
      VictimsAreOldest(items, p, class', expired, x, y);
    }
  }

  lemma VictimsAreOldest(items: Items, p: Policy, class': Kind, excluded: set<string>, x: string, y: string)
    requires x in LruVictims(items, p, class', excluded)
    requires y in Candidates(items, class', excluded) && y !in LruVictims(items, p, class', excluded)
    ensures x in items && Used(items[x]) <= Used(items[y])
  {
    var candidates := Candidates(items, class', excluded);
    LruOrderIsOrder(items, candidates);
    var order := LruOrder(items, candidates);
    var usage := Wrap64(UsageExcluding(items, class', excluded));
    var k := VictimCount(items, order, usage, Target(p.cap, Quota(p.limits, class'), usage));
    VictimsAreShortestPrefix(items, order, usage, Target(p.cap, Quota(p.limits, class'), usage));
    assert y in order by { assert y in Elements(order); }
    PrefixIsOldest(items, order, k, x, y);
  }

  // ---------------------------------------------------------------- who is let in

  function PinnedOf(items: Items, kind: Kind): set<string>
  {
    set id | id in items && items[id].kind == kind && items[id].pinned
  }

  /** The bytes of the pinned items of a class. */
  ghost function PinnedUsage(items: Items, kind: Kind): int
  {
    Total(items, PinnedOf(items, kind))
  }

  /** Without the candidates for eviction a class is down to its pinned items. */
  lemma WithoutCandidates(items: Items, kind: Kind, order: seq<string>)
    requires KnownKinds(items) && (kind == Image || kind == File)
    requires InOrder(items, order) && Elements(order) == Candidates(items, kind, {})
    ensures PinnedUsage(items, kind) == Usage(items, kind) - Sizes(items, order)
  {
    assert OfKind(items, kind) == PinnedOf(items, kind) + Elements(order);
    SizesIsTotal(items, order);
    TotalSplit(items, PinnedOf(items, kind), Elements(order));
  }

  /** Evicting a prefix of the candidates takes exactly its sizes. */
  lemma WithoutPrefix(items: Items, kind: Kind, order: seq<string>, k: nat)
    requires KnownKinds(items) && (kind == Image || kind == File) && k <= |order|
    requires InOrder(items, order) && Elements(order) == Candidates(items, kind, {})
    ensures Usage(items - Elements(order[..k]), kind) == Usage(items, kind) - Sizes(items, order[..k])
    ensures Candidates(items - Elements(order[..k]), kind, {}) == {} <==> k == |order|
  {
    var gone := Elements(order[..k]);
    assert forall id :: id in order[..k] ==> id in Elements(order);
    assert OfKind(items, kind) == (OfKind(items, kind) - gone) + gone;
    assert InOrder(items, order[..k]);
    SizesIsTotal(items, order[..k]);
    TotalSplit(items, OfKind(items, kind) - gone, gone);
    assert OfKind(items - gone, kind) == OfKind(items, kind) - gone;
    TotalSame(items, items - gone, OfKind(items, kind) - gone);
    NoneLeftIff(items, kind, {}, order, k);
    assert Candidates(items - gone, kind, {}) == Candidates(items, kind, {} + gone);
  }

  lemma ForRoomTaken(items: Items, kind: Kind, size: int, quota: int) returns (order: seq<string>, k: nat)
    requires PositiveSizes(items) && 0 <= Usage(items, kind) < I64_LIMIT
    ensures InOrder(items, order) && Elements(order) == Candidates(items, kind, {}) && k <= |order|
    ensures EvictedFor(items, kind, size, quota) == Elements(order[..k])
    ensures var target := if quota - size < 0 then 0 else quota - size;
            && (Usage(items, kind) - Sizes(items, order[..k]) <= target || k == |order|)
            && (k == 0 ==> Usage(items, kind) <= target || order == [])
  {
    var candidates := Candidates(items, kind, {});
    LruOrderIsOrder(items, candidates);
    order := LruOrder(items, candidates);
    var target := if quota - size < 0 then 0 else quota - size;
    k := VictimCount(items, order, Usage(items, kind), target);
    VictimsAreShortestPrefix(items, order, Usage(items, kind), target);
    if k == 0 {
      assert order[..0] == [];
    }
  }

  lemma RoomWith(items: Items, quota: int, kind: Kind, size: int, deleteOk: bool, evicted: set<string>)
    requires quota < Usage(items, kind) + size < I64_LIMIT && evicted == EvictedFor(items, kind, size, quota)
    requires 0 <= Usage(items - evicted, kind) <= Usage(items, kind) && 0 < size
    ensures RoomFor(items, quota, kind, size, deleteOk) ==
            if evicted != {} && !deleteOk then Declined(items, DeleteFailed)
            else if Usage(items - evicted, kind) + size <= quota then Admitted(items - evicted)
            else Declined(items - evicted, QuotaExceeded)
  {
  }

  /** When a class is over its quota with a new item, room is made if and only if what is pinned leaves room for
      it. If not, everything that is not pinned goes all the same. */
  lemma RoomIff(items: Items, quota: int, kind: Kind, size: int, deleteOk: bool)
    requires PositiveSizes(items) && KnownKinds(items) && (kind == Image || kind == File)
    requires 0 < size && quota < Usage(items, kind) + size < I64_LIMIT
    ensures var room := RoomFor(items, quota, kind, size, deleteOk);
            var nothing := Candidates(items, kind, {}) == {};
            && (room.Admitted? <==> (deleteOk || nothing) && PinnedUsage(items, kind) + size <= quota)
            && (room == Declined(items, DeleteFailed) <==> !deleteOk && !nothing)
            && (room.Declined? && (deleteOk || nothing) ==>
                  room.error == QuotaExceeded && Candidates(room.items, kind, {}) == {})
  {
    TotalOfPart(items, OfKind(items, kind), items.Keys);
    var order, k := ForRoomTaken(items, kind, size, quota);
    WithoutPrefix(items, kind, order, k);
    EvictedNone(items, order, k);
    EvictedNone(items, order, |order|);
    assert order[..|order|] == order;
    UsageOfPart(items, items - Elements(order[..k]), kind);
    TakenEnough(items, kind, order, k, size, quota);
    RoomWith(items, quota, kind, size, deleteOk, Elements(order[..k]));
  }

  /** Taking candidates up to the target is enough if and only if taking them all is. */
  lemma TakenEnough(items: Items, kind: Kind, order: seq<string>, k: nat, size: int, quota: int)
    requires PositiveSizes(items) && KnownKinds(items) && (kind == Image || kind == File) && 0 < size
    requires InOrder(items, order) && Elements(order) == Candidates(items, kind, {}) && k <= |order|
    requires var target := if quota - size < 0 then 0 else quota - size;
             Usage(items, kind) - Sizes(items, order[..k]) <= target || k == |order|
    ensures var left := Usage(items, kind) - Sizes(items, order[..k]);
            && (left + size <= quota <==> PinnedUsage(items, kind) + size <= quota)
            && (left + size > quota ==> k == |order|)
  {
    WithoutCandidates(items, kind, order);
    TotalOfPart(items, PinnedOf(items, kind), items.Keys);
    SizesGrow(items, order, k, |order|);
    assert order[..|order|] == order;
    if k < |order| {
      SizesExtend(items, order, k);
      SizesGrow(items, order, k + 1, |order|);
      assert order[k] in order;
    }
  }

  lemma EvictedNone(items: Items, order: seq<string>, k: nat)
    requires k <= |order|
    ensures Elements(order[..k]) == {} <==> k == 0
  {
    if k > 0 {
      assert order[..k][0] in Elements(order[..k]);
    }
  }

  /** Nothing more is let in when usage has come to this much of the quota. */
  function Full(quota: int, percent: int): int
  {
    if quota * percent < 100 then quota else quota * percent / 100
  }

  /** Why an item is not let in, if it is not. */
  ghost function Refusal(items: Items, limits: Limits, cap: HardCap, m: Meta, deleteOk: bool): Option<Error>
  {
    var (quota, largest) := if m.kind == Image then (limits.imageQuota, limits.imageMaxItem)
                            else (limits.fileQuota, limits.fileMaxItem);
    var usage := Usage(items, m.kind);
    if 0 < largest < m.size then Some(ItemTooLarge)
    else if quota <= 0 then None
    else if usage >= Full(quota, cap.full) then Some(HardCapReached)
    else if usage + m.size <= quota then None
    else if !deleteOk && Candidates(items, m.kind, {}) != {} then Some(DeleteFailed)
    else if PinnedUsage(items, m.kind) + m.size <= quota then None
    else Some(QuotaExceeded)
  }

  /** An item is let in if and only if it is not too large for its class, the class has no quota or is not
      full, and the item fits in beside what is there, or at least beside what is pinned; where sums and
      shares fit in 64 bits. The quota refuses only after everything unpinned has gone. */
  lemma LetInIff(items: Items, limits: Limits, cap: HardCap, id: string, m: Meta, deleteOk: bool, saveOk: bool)
    requires PositiveSizes(items) && KnownKinds(items) && (m.kind == Image || m.kind == File) && cap.Valid()
    requires m.size > 0 && Usage(items, m.kind) + m.size < I64_LIMIT
    requires limits.imageQuota * 100 < I64_LIMIT && limits.fileQuota * 100 < I64_LIMIT
    ensures var (error, after) := StoreItem(items, limits, cap, id, m, deleteOk, saveOk);
            var refusal := Refusal(items, limits, cap, m, deleteOk);
            && error == (if refusal.Some? then refusal else if saveOk then None else Some(SaveFailed))
            && (error == None ==> id in after && after[id] == m)
            && (error == Some(QuotaExceeded) ==> Candidates(after, m.kind, {}) == {})
  {
    var quota := if m.kind == Image then limits.imageQuota else limits.fileQuota;
    TotalOfPart(items, OfKind(items, m.kind), items.Keys);
    if quota > 0 {
      TimesGrows(quota, 1, cap.full);
      TimesGrows(quota, cap.full, 100);
      ShareIs(quota, cap.full);
      FullIs(cap, quota);
      if Usage(items, m.kind) + m.size > quota {
        RoomIff(items, quota, m.kind, m.size, deleteOk);
      }
    }
  }

  lemma FullIs(cap: HardCap, quota: int)
    requires 0 < quota && 0 < cap.full && quota * cap.full < I64_LIMIT
    requires 100 * Share(quota, cap.full) <= quota * cap.full < 100 * (Share(quota, cap.full) + 1)
    ensures FullCap(cap, quota) == Full(quota, cap.full)
  {
  }

  // ---------------------------------------------------------------- entries

  function Lower(text: string): string
  {
    ToLower(TrimSpace(text))
  }

  ghost predicate IsImageMime(mimeType: string)
  {
    exists rest :: Lower(mimeType) == "image/" + rest
  }

  /** How class names and MIME types are read: in any case, with blanks around; the MIME type counts where no
      class is named. */
  lemma KindIs(class': string, mimeType: string)
    ensures KindFor(class', mimeType) == Image <==>
            Lower(class') == "image" || (TrimSpace(class') == "" && IsImageMime(mimeType))
    ensures KindFor(class', mimeType) == File <==>
            Lower(class') == "file" || (TrimSpace(class') == "" && !IsImageMime(mimeType))
    ensures KindFor(class', mimeType).Other? ==> KindFor(class', mimeType).name == Lower(class')
  {
    MimeIs(mimeType);
    assert |Lower(class')| == |TrimSpace(class')|;
    assert "image" != "file";
  }

  lemma MimeIs(mimeType: string)
    ensures ClassifyMime(mimeType) == if IsImageMime(mimeType) then Image else File
  {
    var text := Lower(mimeType);
    if "image/" <= text {
      assert text == "image/" + text[6..];
    }
  }

  /** An entry written out. */
  function Spelled(m: Meta): RawMeta
  {
    RawMeta("", match m.kind { case Image => "image" case File => "file" case Other(name) => name },
            if m.pinned then "pinned" else "unpinned", m.size, m.createdAt, m.lastAccessAt)
  }

  predicate Plain(text: string)
  {
    text != "" && TrimSpace(text) == text && ToLower(text) == text
  }

  lemma PlainNames()
    ensures Plain("image") && Plain("file") && Plain("pinned") && Plain("unpinned")
  {
    PlainIf("image");
    PlainIf("file");
    PlainIf("pinned");
    PlainIf("unpinned");
  }

  lemma PlainIf(text: string)
    requires text != "" && forall k :: 0 <= k < |text| ==> 'a' <= text[k] <= 'z'
    ensures Plain(text)
  {
    assert TrimRight(text) == text && TrimLeft(text) == text;
  }

  /** A complete entry that is written out and read in again is the same. */
  lemma EntryComesBack(m: Meta, dataSize: Length, now: Time)
    requires m.size > 0 && m.createdAt != ZERO_TIME && m.lastAccessAt != ZERO_TIME
    requires m.kind.Other? ==> Plain(m.kind.name) && m.kind.name != "image" && m.kind.name != "file"
    ensures FilledIn(Spelled(m), dataSize, now) == m
  {
    PlainNames();
    assert "image" != "file" && "pinned" != "unpinned";
  }

  /** What an entry leaves open is filled in: the size of the data, the time it came in or was created, not
      pinned, and the class of the MIME type; which makes it the entry of new data. */
  lemma OpenEntryIsNew(mimeType: string, dataSize: Length, now: Time)
    ensures FilledIn(RawMeta(mimeType, "", "", 0, ZERO_TIME, ZERO_TIME), dataSize, now)
         == NewMeta(mimeType, dataSize, now)
         == Meta(if IsImageMime(mimeType) then Image else File, false, dataSize, now, now)
  {
    MimeIs(mimeType);
    if Blank(mimeType) {
      UnnamedMimeIsFile(mimeType);
    }
  }

  /** Whatever time of creation an entry has stands in for a missing time of last use. */
  lemma LastUseDefaultsToCreation(raw: RawMeta, dataSize: Length, now: Time)
    ensures raw.lastAccessAt == ZERO_TIME ==>
              FilledIn(raw, dataSize, now).lastAccessAt == FilledIn(raw, dataSize, now).createdAt
    ensures raw.createdAt != ZERO_TIME ==> FilledIn(raw, dataSize, now).createdAt == raw.createdAt
    ensures raw.size > 0 ==> FilledIn(raw, dataSize, now).size == raw.size
  {
  }

  /** The two pin states a client may ask for, in any case and with blanks around. */
  lemma PinStateIs(text: string)
    ensures PinStateOf(text) == Some(true) <==> Lower(text) == "pinned"
    ensures PinStateOf(text) == Some(false) <==> Lower(text) == "unpinned"
  {
    assert "pinned" != "unpinned";
  }
}
