/** The attachment store: the loops over the index, and the operations that change it. */
module AttachmentStore {
  import opened Text
  import opened AttachmentIndex
  import opened AttachmentQuota
  import Runs = AttachmentRuns

  // ---------------------------------------------------------------- loops over the index

  method ComputeUsage(items: Items, kind: Kind) returns (sum: I64)
    ensures sum == Wrap64(Usage(items, kind))
  {
    sum := 0;
    var todo := items.Keys;
    ghost var all := OfKind(items, kind);
    assert all - todo == {};
    while todo != {}
      invariant todo <= items.Keys && sum == Wrap64(Total(items, all - todo))
      decreases todo
    {
      var id :| id in todo;
      AddToTotal(items, all, todo, id);
      WrapAdd(Total(items, all - todo), items[id].size);
      if items[id].kind == kind {
        sum := Wrap64(sum + items[id].size);
      }
      todo := todo - {id};
    }
    assert all - {} == all;
  }

  lemma AddToTotal(items: Items, all: set<string>, todo: set<string>, x: string)
    requires all <= items.Keys && x in todo
    ensures Total(items, all - (todo - {x})) == Total(items, all - todo) + (if x in all then items[x].size else 0)
  {
    WiderByOne(all, todo, x);
    if x in all {
      TotalWithout(items, all - (todo - {x}), x);
    }
  }

  lemma WiderByOne(all: set<string>, todo: set<string>, x: string)
    requires x in todo
    ensures all - (todo - {x}) - {x} == all - todo
    ensures x !in all ==> all - (todo - {x}) == all - todo
  {
  }

  method ComputeUsageExcluding(items: Items, class': Kind, excluded: set<string>) returns (sum: I64)
    ensures sum == Wrap64(UsageExcluding(items, class', excluded))
  {
    sum := 0;
    var todo := items.Keys;
    ghost var all := OfClass(items, class') - excluded;
    assert all - todo == {};
    while todo != {}
      invariant todo <= items.Keys && sum == Wrap64(Total(items, all - todo))
      decreases todo
    {
      var id :| id in todo;
      AddToTotal(items, all, todo, id);
      WrapAdd(Total(items, all - todo), items[id].size);
      if id !in excluded && GcClass(items[id].kind) == class' {
        sum := Wrap64(sum + items[id].size);
      }
      todo := todo - {id};
    }
    assert all - {} == all;
  }

  method FindFirst(items: Items, ids: set<string>) returns (first: string)
    requires ids <= items.Keys && ids != {}
    ensures first == First(items, ids)
  {
    first :| first in ids;
    var todo := ids - {first};
    while todo != {}
      invariant todo <= ids && first in ids && first !in todo
      invariant forall y :: y in ids && y !in todo && y != first ==> Earlier(items, first, y)
      decreases todo
    {
      var y :| y in todo;
      EarlierTotal(items, first, y);
      if Earlier(items, y, first) {
        forall z | z in ids && z !in todo && z != first
          ensures Earlier(items, y, z)
        {
          EarlierTransitive(items, y, first, z);
        }
        first := y;
      }
      todo := todo - {y};
    }
    FirstIsUnique(items, ids, first, First(items, ids));
  }

  method SortByUse(items: Items, ids: set<string>) returns (order: seq<string>)
    requires ids <= items.Keys
    ensures order == LruOrder(items, ids)
  {
    order := [];
    var todo := ids;
    while todo != {}
      invariant todo <= ids && order + LruOrder(items, todo) == LruOrder(items, ids)
      decreases todo
    {
      var first := FindFirst(items, todo);
      assert order + ([first] + LruOrder(items, todo - {first})) == order + [first] + LruOrder(items, todo - {first});
      order := order + [first];
      todo := todo - {first};
    }
  }

  /** How many of the ordered candidates to take until the usage is down to the target. */
  method TakeUntil(items: Items, order: seq<string>, usage: I64, target: int) returns (k: nat)
    requires PositiveSizes(items) && target >= 0 && forall id :: id in order ==> id in items
    ensures k == VictimCount(items, order, usage, target)
  {
    k := 0;
    var left: I64 := usage;
    while k < |order| && left > target
      invariant k <= |order|
      invariant k + VictimCount(items, order[k..], left, target) == VictimCount(items, order, usage, target)
    {
      assert order[k..][0] == order[k] && order[k..][1..] == order[k + 1..];
      left := Wrap64(left - items[order[k]].size);
      k := k + 1;
    }
  }

  method ChooseVictims(items: Items, candidates: set<string>, usage: I64, target: int) returns (victims: seq<string>)
    requires PositiveSizes(items) && target >= 0 && candidates <= items.Keys
    ensures victims == Victims(items, candidates, usage, target)
  {
    LruOrderIsOrder(items, candidates);
    var order := SortByUse(items, candidates);
    VictimsAreShortestPrefix(items, order, usage, target);
    var k := TakeUntil(items, order, usage, target);
    victims := order[..k];
  }

  method MarkVictims(items: Items, p: Policy, class': Kind, marked: map<string, Cause>)
    returns (more: map<string, Cause>)
    requires PositiveSizes(items)
    ensures more == WithVictims(items, p, class', marked)
  {
    var quota := Quota(p.limits, class');
    if quota <= 0 {
      assert Marked({}, Lru) == map[];
      return marked;
    }
    var usage := ComputeUsageExcluding(items, class', marked.Keys);
    var victims := ChooseVictims(items, Candidates(items, class', marked.Keys), usage, Target(p.cap, quota, usage));
    more := marked + (map id | id in victims :: Lru);
    assert (map id | id in victims :: Lru) == Marked(Elements(victims), Lru);
  }

  /** `part - todo`, in the form that the counting loop reasons with. */
  ghost function Visited(part: set<string>, todo: set<string>): set<string>
  {
    set id | id in part && id !in todo
  }

  lemma VisitOne(part: set<string>, todo: set<string>, id: string)
    requires id in todo
    ensures |Visited(part, todo - {id})| == |Visited(part, todo)| + (if id in part then 1 else 0)
  {
    assert Visited(part, todo) == part - todo && Visited(part, todo - {id}) == part - (todo - {id});
    CountOneMore(part, todo, id);
  }

  lemma VisitAll(part: set<string>, todo: set<string>)
    requires part <= todo
    ensures Visited(part, todo) == {} && Visited(part, {}) == part
  {
  }

  /** The report on what has been visited of the marked items. */
  ghost function PartialReport(items: Items, doomed: map<string, Cause>, dryRun: bool, todo: set<string>): Report
    requires doomed.Keys <= items.Keys
  {
    Report(dryRun, |Visited(doomed.Keys, todo)|,
           |Visited(ByClass(items, doomed, Image), todo)|, |Visited(ByClass(items, doomed, File), todo)|,
           |Visited(ByCause(doomed, Expired), todo)|, |Visited(ByCause(doomed, Lru), todo)|)
  }

  lemma PartialReportStep(items: Items, doomed: map<string, Cause>, dryRun: bool, todo: set<string>, id: string)
    requires doomed.Keys <= items.Keys && id in todo && id in doomed
    ensures var r, r' := PartialReport(items, doomed, dryRun, todo), PartialReport(items, doomed, dryRun, todo - {id});
            && r'.deleted == r.deleted + 1
            && r'.images == r.images + (if GcClass(items[id].kind) == Image then 1 else 0)
            && r'.files == r.files + (if GcClass(items[id].kind) == File then 1 else 0)
            && r'.expired == r.expired + (if doomed[id] == Expired then 1 else 0)
            && r'.lru == r.lru + (if doomed[id] == Lru then 1 else 0)
  {
    VisitOne(doomed.Keys, todo, id);
    VisitOne(ByClass(items, doomed, Image), todo, id);
    VisitOne(ByClass(items, doomed, File), todo, id);
    VisitOne(ByCause(doomed, Expired), todo, id);
    VisitOne(ByCause(doomed, Lru), todo, id);
  }

  lemma PartialReportEnds(items: Items, doomed: map<string, Cause>, dryRun: bool)
    requires doomed.Keys <= items.Keys
    ensures PartialReport(items, doomed, dryRun, {}) == ReportOn(items, doomed, dryRun)
    ensures PartialReport(items, doomed, dryRun, doomed.Keys) == Report(dryRun, 0, 0, 0, 0, 0)
  {
    VisitAll(doomed.Keys, doomed.Keys);
    VisitAll(ByClass(items, doomed, Image), doomed.Keys);
    VisitAll(ByClass(items, doomed, File), doomed.Keys);
    VisitAll(ByCause(doomed, Expired), doomed.Keys);
    VisitAll(ByCause(doomed, Lru), doomed.Keys);
  }

  method Count(items: Items, doomed: map<string, Cause>, dryRun: bool) returns (r: Report)
    requires doomed.Keys <= items.Keys
    ensures r == ReportOn(items, doomed, dryRun)
  {
    var deleted, images, files, expired, lru := 0, 0, 0, 0, 0;
    var todo := doomed.Keys;
    PartialReportEnds(items, doomed, dryRun);
    while todo != {}
      invariant todo <= doomed.Keys
      invariant Report(dryRun, deleted, images, files, expired, lru) == PartialReport(items, doomed, dryRun, todo)
      decreases todo
    {
      var id :| id in todo;
      PartialReportStep(items, doomed, dryRun, todo, id);
      todo := todo - {id};
      if GcClass(items[id].kind) == Image {
        images := images + 1;
      } else {
        files := files + 1;
      }
      if doomed[id] == Expired {
        expired := expired + 1;
      } else {
        lru := lru + 1;
      }
      deleted := deleted + 1;
    }
    r := Report(dryRun, deleted, images, files, expired, lru);
  }

  lemma NothingDoomed(items: Items, doomed: map<string, Cause>)
    requires doomed.Keys <= items.Keys
    ensures |doomed.Keys| == 0 <==> doomed == map[]
    ensures doomed == map[] ==> items - doomed.Keys == items
  {
  }

  /** Marks everything a collection deletes. */
  method MarkForDeletion(items: Items, p: Policy) returns (doomed: map<string, Cause>)
    requires PositiveSizes(items)
    ensures doomed == Doomed(items, p) && doomed.Keys <= items.Keys
  {
    DoomedAreUnpinned(items, p);
    var expired := map id | id in items && HasExpired(p, items[id]) :: Expired;
    assert expired == Marked(ExpiredItems(items, p), Expired);
    var marked := MarkVictims(items, p, Image, expired);
    doomed := MarkVictims(items, p, File, marked);
  }

  method OverQuota(items: Items, kind: Kind, size: I64, quota: I64) returns (over: bool)
    ensures over == (Wrap64(Usage(items, kind) + size) > quota)
  {
    var usage := ComputeUsage(items, kind);
    WrapAdd(Usage(items, kind), size);
    over := Wrap64(usage + size) > quota;
  }

  method ChooseEvicted(items: Items, kind: Kind, size: int, quota: int) returns (evicted: set<string>)
    requires PositiveSizes(items)
    ensures evicted == EvictedFor(items, kind, size, quota)
  {
    var target := if quota - size < 0 then 0 else quota - size;
    var usage := ComputeUsage(items, kind);
    var victims := ChooseVictims(items, Candidates(items, kind, {}), usage, target);
    evicted := set id | id in victims;
  }

  /** The byte limit `bytes` is what a client that asked for `mb` megabytes meant. */
  predicate Means(mb: int, bytes: int)
  {
    (mb <= 0 ==> bytes == 0) && (0 < mb * 0x10_0000 < I64_LIMIT ==> bytes == mb * 0x10_0000)
  }

  /** Lengths of data. */
  type Length = n: nat | n < I64_LIMIT

  /** The entry for new data. */
  function NewMeta(mimeType: string, dataSize: Length, now: Time): Meta
  {
    Meta(ClassifyMime(if mimeType == "" then "application/octet-stream" else mimeType), false, dataSize, now, now)
  }

  /** An entry as it comes from elsewhere: names in any spelling, and 0 or nothing for what is left open. */
  datatype RawMeta = RawMeta(mimeType: string, class': string, pinState: string, size: I64, createdAt: Time,
                             lastAccessAt: Time)

  /** The entry that is stored: what was left open is filled in. */
  function FilledIn(raw: RawMeta, dataSize: Length, now: Time): Meta
  {
    var createdAt := if raw.createdAt == ZERO_TIME then now else raw.createdAt;
    Meta(KindFor(raw.class', raw.mimeType), TrimSpace(raw.pinState) == "pinned",
         if raw.size <= 0 then dataSize else raw.size, createdAt,
         if raw.lastAccessAt == ZERO_TIME then createdAt else raw.lastAccessAt)
  }

  lemma UnnamedMimeIsFile(mimeType: string)
    requires Blank(mimeType)
    ensures ClassifyMime(mimeType) == File == ClassifyMime("application/octet-stream")
  {
    var text := "application/octet-stream";
    assert TrimRight(text) == text && TrimLeft(text) == text;
    assert ToLower(text)[0] == 'a' && "image/"[0] == 'i';
  }

  method FillIn(raw: RawMeta, dataSize: Length, now: Time) returns (m: Meta)
    ensures m == FilledIn(raw, dataSize, now)
  {
    var mimeType := raw.mimeType;
    if Blank(mimeType) {
      UnnamedMimeIsFile(mimeType);
      mimeType := "application/octet-stream";
    }
    var createdAt, pinState := raw.createdAt, raw.pinState;
    if createdAt == ZERO_TIME {
      createdAt := now;
    }
    if Blank(pinState) {
      pinState := "unpinned";
      assert TrimSpace(pinState) == pinState;
    }
    m := Meta(KindFor(raw.class', mimeType), TrimSpace(pinState) == "pinned", raw.size, createdAt, raw.lastAccessAt);
    if m.size <= 0 {
      m := m.(size := dataSize);
    }
    if m.lastAccessAt == ZERO_TIME {
      m := m.(lastAccessAt := createdAt);
    }
  }

  /** The pin state a client may ask for. */
  function PinStateOf(text: string): Option<bool>
  {
    var state := ToLower(TrimSpace(text));
    if state == "pinned" then Some(true) else if state == "unpinned" then Some(false) else None
  }

  /** The attachment index. Item sizes are positive and the percentages are ordered, whatever
      operations are called in whatever order. */
  class Store {
    var items: Items
    var limits: Limits
    var cap: HardCap
    var imageHits: nat
    var fileHits: nat

    ghost predicate Valid()
      reads this
    {
      cap.Valid() && PositiveSizes(items)
    }

    /** The state that runs are about. */
    function Current(): Runs.State
      reads this
    {
      Runs.State(items, limits, cap)
    }

    /** Without limits at first; collection aims for three quarters of a quota from nine tenths on. */
    constructor ()
      ensures Valid() && Current() == Runs.State(map[], Limits(0, 0, 0, 0), HardCap(90, 100, 75))
    {
      items, limits, cap := map[], Limits(0, 0, 0, 0), HardCap(90, 100, 75);
      imageHits, fileHits := 0, 0;
    }

    /** Quotas and item limits come in megabytes. A value that is not positive means no limit; one
        that makes sense in 64 bits is that many megabytes. */
    method SetClassPolicies(imageQuotaMB: int, imageMaxItemMB: int, fileQuotaMB: int, fileMaxItemMB: int)
      requires Valid()
      modifies this`limits
      ensures Valid()
      ensures Means(imageQuotaMB, limits.imageQuota) && Means(imageMaxItemMB, limits.imageMaxItem)
      ensures Means(fileQuotaMB, limits.fileQuota) && Means(fileMaxItemMB, limits.fileMaxItem)
      ensures Current() == Runs.Next(old(Current()), Runs.SetLimits(limits))
    {
      limits := Limits(MbToBytes(imageQuotaMB), MbToBytes(imageMaxItemMB),
                       MbToBytes(fileQuotaMB), MbToBytes(fileMaxItemMB));
    }

    method SetHardCapPolicy(high: int, full: int, aggressive: int)
      requires Valid()
      modifies this`cap
      ensures Valid() && Current() == Runs.Next(old(Current()), Runs.SetCap(high, full, aggressive))
    {
      var h, f, a := high, full, aggressive;
      if h < 1 {
        h := 1;
      }
      if h > 100 {
        h := 100;
      }
      if f < h {
        f := h;
      }
      if f > 100 {
        f := 100;
      }
      if a < 1 {
        a := 1;
      }
      if a > h {
        a := h;
      }
      cap := HardCap(h, f, a);
    }

    method DeleteIDs(ids: set<string>, ok: bool) returns (done: bool)
      requires Valid()
      modifies this`items
      ensures Valid() && done == (ids == {} || ok)
      ensures items == if done then old(items) - ids else old(items)
    {
      if ids == {} {
        assert items - {} == items;
        return true;
      }
      if ok {
        items := items - ids;
      }
      return ok;
    }

    /** Makes room for an item of the given class and size, or says why there is none. */
    method EnforceClassLimits(kind: Kind, size: I64, deleteOk: bool) returns (error: Option<Error>)
      requires Valid()
      modifies this`items, this`imageHits, this`fileHits
      ensures Valid()
      ensures items == Admit(old(items), limits, cap, kind, size, deleteOk).items
      ensures match Admit(old(items), limits, cap, kind, size, deleteOk)
              case Admitted(_) => error == None
              case Declined(_, e) => error == Some(e)
      ensures imageHits == old(imageHits) + (if error == Some(HardCapReached) && kind == Image then 1 else 0)
      ensures fileHits == old(fileHits) + (if error == Some(HardCapReached) && kind != Image then 1 else 0)
    {
      var maxItem, quota := MaxItem(limits, kind), Quota(limits, kind);
      if maxItem > 0 && size > maxItem {
        return Some(ItemTooLarge);
      }
      if quota <= 0 {
        return None;
      }
      var usage := ComputeUsage(items, kind);
      if usage >= FullCap(cap, quota) {
        if kind == Image {
          imageHits := imageHits + 1;
        } else {
          fileHits := fileHits + 1;
        }
        return Some(HardCapReached);
      }
      error := MakeRoom(kind, size, quota, deleteOk);
    }

    /** Evicts what has to go for an item below the hard cap, and checks again. */
    method MakeRoom(kind: Kind, size: I64, quota: I64, deleteOk: bool) returns (error: Option<Error>)
      requires Valid() && quota > 0
      modifies this`items
      ensures Valid()
      ensures var room := RoomFor(old(items), quota, kind, size, deleteOk);
              items == room.items && error == if room.Admitted? then None else Some(room.error)
    {
      var over := OverQuota(items, kind, size, quota);
      if !over {
        return None;
      }
      var evicted := ChooseEvicted(items, kind, size, quota);
      var done := DeleteIDs(evicted, deleteOk);
      if !done {
        return Some(DeleteFailed);
      }
      over := OverQuota(items, kind, size, quota);
      return if over then Some(QuotaExceeded) else None;
    }

    /** Stores an item under `id`, replacing one that is there. */
    method PutMeta(id: string, m: Meta, deleteOk: bool, saveOk: bool) returns (error: Option<Error>)
      requires Valid() && m.size > 0
      modifies this`items, this`imageHits, this`fileHits
      ensures Valid() && (error, items) == StoreItem(old(items), limits, cap, id, m, deleteOk, saveOk)
      ensures Current() == Runs.Next(old(Current()), Runs.Store(id, m, deleteOk, saveOk))
    {
      error := EnforceClassLimits(m.kind, m.size, deleteOk);
      if error.Some? {
        return;
      }
      if !saveOk {
        return Some(SaveFailed);
      }
      items := items[id := m];
    }

    /** Stores new data under a fresh id; its class follows from its MIME type. */
    method Put(id: string, mimeType: string, dataSize: Length, now: Time, deleteOk: bool, saveOk: bool)
      returns (error: Option<Error>)
      requires Valid()
      modifies this`items, this`imageHits, this`fileHits
      ensures Valid()
      ensures if dataSize == 0 then error == Some(EmptyData) && items == old(items)
              else (error, items)
                   == StoreItem(old(items), limits, cap, id, NewMeta(mimeType, dataSize, now), deleteOk, saveOk)
    {
      if dataSize == 0 {
        return Some(EmptyData);
      }
      error := PutMeta(id, NewMeta(mimeType, dataSize, now), deleteOk, saveOk);
    }

    /** Stores data that comes with an entry, filling in what the entry leaves open. */
    method PutExisting(id: string, raw: RawMeta, dataSize: Length, now: Time, deleteOk: bool, saveOk: bool)
      returns (error: Option<Error>)
      requires Valid()
      modifies this`items, this`imageHits, this`fileHits
      ensures Valid()
      ensures Blank(id) ==> error == Some(MissingID) && items == old(items)
      ensures !Blank(id) && dataSize == 0 ==> error == Some(EmptyData) && items == old(items)
      ensures !Blank(id) && dataSize > 0 ==>
                (error, items) == StoreItem(old(items), limits, cap, id, FilledIn(raw, dataSize, now), deleteOk, saveOk)
    {
      if Blank(id) {
        return Some(MissingID);
      }
      if dataSize == 0 {
        return Some(EmptyData);
      }
      var filled := FillIn(raw, dataSize, now);
      error := PutMeta(id, filled, deleteOk, saveOk);
    }

    method SetPinState(rawID: string, pinState: string, now: Time, saveOk: bool) returns (error: Option<Error>)
      requires Valid()
      modifies this`items
      ensures Valid()
      ensures var (id, pinned) := (TrimSpace(rawID), PinStateOf(pinState));
              if id == "" then error == Some(MissingID) && items == old(items)
              else if pinned.None? then error == Some(InvalidPinState) && items == old(items)
              else if id !in old(items) then error == Some(NotFound) && items == old(items)
              else if old(items)[id].pinned == pinned.value then error == None && items == old(items)
              else if !saveOk then error == Some(SaveFailed) && items == old(items)
              else error == None
                   && items == old(items)[id := old(items)[id].(pinned := pinned.value, lastAccessAt := now)]
      ensures error == None ==>
                var pinned := PinStateOf(pinState) == Some(true);
                Current() == Runs.Next(old(Current()), Runs.Pin(TrimSpace(rawID), pinned, now))
    {
      var id, pinned := TrimSpace(rawID), PinStateOf(pinState);
      if id == "" {
        return Some(MissingID);
      }
      if pinned.None? {
        return Some(InvalidPinState);
      }
      if id !in items {
        return Some(NotFound);
      }
      if items[id].pinned == pinned.value {
        return None;
      }
      if !saveOk {
        return Some(SaveFailed);
      }
      items := items[id := items[id].(pinned := pinned.value, lastAccessAt := now)];
      return None;
    }

    /** Collects garbage: expired items first, then the least recently used of each class over its
        target. A dry run only reports. */
    method RunGC(now: Time, imageTTL: int, fileTTL: int, dryRun: bool, deleteOk: bool) returns (r: Option<Report>)
      requires Valid()
      modifies this`items
      ensures Valid()
      ensures var doomed := Doomed(old(items), Policy(limits, cap, now, imageTTL, fileTTL));
              && doomed.Keys <= old(items).Keys
              && (r.None? <==> doomed != map[] && !dryRun && !deleteOk)
              && (r.Some? ==> r.value == ReportOn(old(items), doomed, dryRun))
              && items == if dryRun || r.None? then old(items) else old(items) - doomed.Keys
      ensures !dryRun && deleteOk ==>
                Current() == Runs.Next(old(Current()), Runs.Collect(now, imageTTL, fileTTL, true))
    {
      var p := Policy(limits, cap, now, imageTTL, fileTTL);
      var doomed := MarkForDeletion(items, p);
      var report := Count(items, doomed, dryRun);
      NothingDoomed(items, doomed);
      Runs.CollectIs(Current(), Runs.Collect(now, imageTTL, fileTTL, true), p, doomed);
      if report.deleted == 0 {
        return Some(report);
      }
      if dryRun {
        return Some(report);
      }
      var done := DeleteIDs(doomed.Keys, deleteOk);
      return if done then Some(report) else None;
    }
  }
}
