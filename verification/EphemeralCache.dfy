/** The in-memory cache of public blobs: a byte budget with least-recently-used eviction, and an expiry
    time that every hit renews.

    Among entries used at the same time the program evicts any one, so calls are specified as
    relations between the cache before and after.
 */
module EphemeralCache {
  import opened Text

  const MINUTE: int := 60 * 1_000_000_000

  datatype Entry = Entry(meta: string, data: Bytes, size: int, expiresAt: int, lastAccess: int)

  type Items = map<string, Entry>

  datatype Cache = Cache(ttl: int, maxBytes: int, items: Items)
  {
    predicate Enabled() {
      maxBytes > 0 && ttl > 0
    }
  }

  // ---------------------------------------------------------------- sums of sizes

  ghost function Total(items: Items): int
  {
    if items == map[] then 0 else var x :| x in items; items[x].size + Total(items - {x})
  }

  lemma {:induction false} TotalWithout(items: Items, x: string)
    requires x in items
    ensures Total(items) == items[x].size + Total(items - {x})
    decreases |items|
  {
    var y :| y in items && Total(items) == items[y].size + Total(items - {y});
    if y != x {
      TotalWithout(items - {y}, x);
      TotalWithout(items - {x}, y);
      assert items - {y} - {x} == items - {x} - {y};
    }
  }

  lemma TotalWith(items: Items, x: string, e: Entry)
    requires x !in items
    ensures Total(items[x := e]) == e.size + Total(items)
  {
    TotalWithout(items[x := e], x);
    assert items[x := e] - {x} == items;
  }

  /** Parts of a map with positive sizes. */
  predicate Part(a: Items, b: Items)
  {
    forall id :: id in a ==> id in b && a[id] == b[id]
  }

  predicate Positive(items: Items)
  {
    forall id :: id in items ==> items[id].size > 0
  }

  lemma {:induction false} TotalOfPart(a: Items, b: Items)
    requires Part(a, b) && Positive(b)
    ensures 0 <= Total(a) <= Total(b)
    decreases |b|
  {
    if b == map[] {
      assert a == map[];
    } else {
      var x :| x in b;
      TotalWithout(b, x);
      if x in a {
        TotalWithout(a, x);
        TotalOfPart(a - {x}, b - {x});
      } else {
        TotalOfPart(a, b - {x});
      }
    }
  }

  lemma NonNegative(before: Items, items: Items)
    requires Part(items, before) && Positive(before)
    ensures Total(items) >= 0 && (items == map[] ==> Total(items) == 0)
  {
    TotalOfPart(items, before);
  }

  // ---------------------------------------------------------------- eviction

  function Live(items: Items, now: int): Items
  {
    map id | id in items && items[id].expiresAt > now :: items[id]
  }

  /** The entries used no earlier than `t`. */
  function UsedSince(items: Items, t: int): Items
  {
    map id | id in items && items[id].lastAccess >= t :: items[id]
  }

  /** `after` is left of `before` by taking away oldest entries, each of which was over the budget
      together with what was used as recently. */
  ghost predicate OldestTaken(before: Items, after: Items, budget: int)
  {
    && Part(after, before)
    && (forall v, s :: v in before && v !in after && s in after ==> before[v].lastAccess <= before[s].lastAccess)
    && (forall v :: v in before && v !in after ==> TooMuchSince(before, v, budget))
  }

  /** The entry `v` and everything used as recently do not fit the budget. */
  ghost predicate TooMuchSince(before: Items, v: string, budget: int)
    requires v in before
  {
    Total(UsedSince(before, before[v].lastAccess)) > budget
  }

  /** `after` is what a least-recently-used eviction may leave of `before`. */
  ghost predicate Evicted(before: Items, after: Items, budget: int)
  {
    OldestTaken(before, after, budget) && Total(after) <= budget
  }

  /** An entry stays as long as it and everything used as recently fit the budget; and one that stays
      fits the budget together with everything used more recently. */
  lemma EvictedIsOld(before: Items, after: Items, budget: int, id: string)
    requires Evicted(before, after, budget) && Positive(before) && id in before
    ensures Total(UsedSince(before, before[id].lastAccess)) <= budget ==> id in after
    ensures id in after ==> before[id].size + Total(UsedSince(before, before[id].lastAccess + 1)) <= budget
  {
    if id in after {
      var newer := UsedSince(before, before[id].lastAccess + 1);
      TotalWith(newer, id, before[id]);
      assert Part(newer[id := before[id]], after);
      TotalOfPart(newer[id := before[id]], after);
    }
  }

  /** What was used strictly last is not evicted, if it fits at all. */
  lemma NewestStays(before: Items, after: Items, budget: int, id: string)
    requires Evicted(before, after, budget) && id in before && before[id].size <= budget
    requires forall other :: other in before && other != id ==> before[other].lastAccess < before[id].lastAccess
    ensures id in after
  {
    var alone := UsedSince(before, before[id].lastAccess);
    assert alone == map[id := before[id]];
    TotalWith(map[], id, before[id]);
  }

  // ---------------------------------------------------------------- calls

  datatype Call =
    | Configure(maxMB: int, ttlMinutes: int, now: int)
    | Put(id: string, meta: string, data: Bytes, now: int)
    | Get(id: string, now: int)
    | Purge(now: int)

  function Touched(items: Items, id: string, now: int, ttl: int): Items
  {
    if id in items then items[id := items[id].(lastAccess := now, expiresAt := now + ttl)] else items
  }

  /** A put is accepted. */
  predicate Accepts(c: Cache, id: string, data: Bytes)
  {
    id != "" && data != "" && c.Enabled() && |data| <= c.maxBytes
  }

  function NewEntry(c: Cache, meta: string, data: Bytes, now: int): Entry
  {
    Entry(meta, data, |data|, now + c.ttl, now)
  }

  ghost predicate Next(c: Cache, call: Call, d: Cache)
  {
    match call
    case Configure(maxMB, ttlMinutes, now) =>
      && d.maxBytes == (if maxMB <= 0 then 0 else Wrap64(maxMB * 1024 * 1024))
      && d.ttl == (if ttlMinutes <= 0 then 0 else Wrap64(ttlMinutes * MINUTE))
      && if d.Enabled() then Evicted(Live(c.items, now), d.items, d.maxBytes) else d.items == map[]
    case Put(id, meta, data, now) =>
      && d.(items := map[]) == c.(items := map[])
      && if id == "" || data == "" || !c.Enabled() then d.items == c.items
         else if |data| > c.maxBytes then d.items == Live(c.items, now)
         else Evicted(Live(c.items, now)[id := NewEntry(c, meta, data, now)], d.items, c.maxBytes)
    case Get(id, now) =>
      d == if id == "" then c else c.(items := Touched(Live(c.items, now), id, now, c.ttl))
    case Purge(now) => d == c.(items := Live(c.items, now))
  }

  lemma PutDone(c: Cache, id: string, meta: string, data: Bytes, now: int, before: Items, d: Cache)
    requires Accepts(c, id, data) && d.(items := map[]) == c.(items := map[])
    requires before == Live(c.items, now)[id := NewEntry(c, meta, data, now)] && Evicted(before, d.items, c.maxBytes)
    ensures Next(c, Put(id, meta, data, now), d)
  {
  }

  function Hit(c: Cache, id: string, now: int): Option<Bytes>
  {
    if id != "" && id in Live(c.items, now) then Some(c.items[id].data) else None
  }

  // ---------------------------------------------------------------- every run

  ghost predicate Good(c: Cache)
  {
    && (c.Enabled() ==> Total(c.items) <= c.maxBytes)
    && "" !in c.items
    && (forall id :: id in c.items ==> c.items[id].size == |c.items[id].data| > 0)
    && (!c.Enabled() ==> c.items == map[])
  }

  ghost predicate Trace(states: seq<Cache>, calls: seq<Call>)
  {
    |states| == |calls| + 1 && forall k :: 0 <= k < |calls| ==> Next(states[k], calls[k], states[k + 1])
  }

  lemma TouchedTotal(items: Items, id: string, now: int, ttl: int)
    ensures Total(Touched(items, id, now, ttl)) == Total(items)
  {
    if id in items {
      var touched := Touched(items, id, now, ttl);
      TotalWithout(items, id);
      TotalWithout(touched, id);
      assert touched - {id} == items - {id};
    }
  }

  lemma LiveIsGood(c: Cache, now: int)
    requires Good(c)
    ensures Good(c.(items := Live(c.items, now)))
  {
    TotalOfPart(Live(c.items, now), c.items);
  }

  lemma StepKeepsGood(c: Cache, call: Call, d: Cache)
    requires Good(c) && Next(c, call, d)
    ensures Good(d)
  {
    assert Total(map[]) == 0;
    LiveIsGood(c, call.now);
    if call.Get? {
      TouchedTotal(Live(c.items, call.now), call.id, call.now, c.ttl);
    }
  }

  /** The data of the last accepted put under `id`. */
  ghost function LastPut(states: seq<Cache>, calls: seq<Call>, id: string): Option<Bytes>
    requires |states| == |calls| + 1
  {
    if calls == [] then None
    else
      var n := |calls| - 1;
      if calls[n].Put? && calls[n].id == id && Accepts(states[n], id, calls[n].data) then Some(calls[n].data)
      else LastPut(states[..n + 1], calls[..n], id)
  }

  lemma StepKeepsData(c: Cache, call: Call, d: Cache, id: string)
    requires Next(c, call, d) && id in d.items
    ensures if call.Put? && call.id == id && Accepts(c, id, call.data) then d.items[id].data == call.data
            else id in c.items && d.items[id].data == c.items[id].data
  {
  }

  /** In every run of the cache from empty: the bytes held never exceed the budget, a disabled cache
      is empty, and a blob in the cache is the one last put under its id, so that a hit returns those
      very bytes. */
  lemma {:induction false} EveryRun(states: seq<Cache>, calls: seq<Call>)
    requires Trace(states, calls) && states[0] == Cache(0, 0, map[])
    ensures var c := states[|calls|];
            Good(c) && forall id :: id in c.items ==> LastPut(states, calls, id) == Some(c.items[id].data)
  {
    if calls == [] {
      assert Total(map[]) == 0;
    } else {
      var n := |calls| - 1;
      EveryRun(states[..n + 1], calls[..n]);
      StepKeepsGood(states[n], calls[n], states[n + 1]);
      forall id | id in states[n + 1].items
        ensures LastPut(states, calls, id) == Some(states[n + 1].items[id].data)
      {
        StepKeepsData(states[n], calls[n], states[n + 1], id);
      }
    }
  }

  /** A blob put later than every other use is there afterwards: any look-up before it expires is a hit
      with the same bytes. */
  lemma PutThenGet(c: Cache, put: Call, d: Cache, now: int)
    requires Good(c) && put.Put? && Next(c, put, d) && Accepts(c, put.id, put.data)
    requires forall id :: id in c.items && id != put.id ==> c.items[id].lastAccess < put.now
    requires now < put.now + c.ttl
    ensures Hit(d, put.id, now) == Some(put.data)
  {
    var before := Live(c.items, put.now)[put.id := NewEntry(c, put.meta, put.data, put.now)];
    NewestStays(before, d.items, c.maxBytes, put.id);
  }

  // ---------------------------------------------------------------- settings

  /** What a cache that was asked for so many megabytes and minutes holds to, where they make sense in 64 bits:
      2^20 bytes a megabyte and 60 seconds a minute; nothing at all if either is not positive. */
  lemma ConfiguredIs(c: Cache, call: Call, d: Cache)
    requires call.Configure? && Next(c, call, d)
    ensures 0 < call.maxMB < 0x800_0000_0000 ==> d.maxBytes == call.maxMB * 0x10_0000
    ensures 0 < call.ttlMinutes < 150_000_000 ==> d.ttl == call.ttlMinutes * 60_000_000_000
    ensures call.maxMB <= 0 || call.ttlMinutes <= 0 ==> !d.Enabled() && d.items == map[]
  {
  }

  /** Nothing but a new configuration changes the settings. */
  lemma SettingsStay(c: Cache, call: Call, d: Cache)
    requires !call.Configure? && Next(c, call, d)
    ensures d.maxBytes == c.maxBytes && d.ttl == c.ttl
  {
  }

  /** A hit keeps the blob for another lifetime: any look-up before that is over is a hit with the same bytes. */
  lemma HitRenews(c: Cache, get: Call, d: Cache, now: int)
    requires get.Get? && Next(c, get, d) && Hit(c, get.id, get.now).Some?
    requires now < get.now + c.ttl
    ensures Hit(d, get.id, now) == Hit(c, get.id, get.now)
  {
  }

  lemma TwoRecent(before: Items, a: string, b: string, t: int)
    requires a != b && a in before && b in before && before[a].lastAccess >= t && before[b].lastAccess >= t
    requires forall id :: id in before && id != a && id != b ==> before[id].lastAccess < t
    ensures Total(UsedSince(before, t)) == before[a].size + before[b].size
  {
    var recent := UsedSince(before, t);
    assert recent - {b} == map[a := before[a]];
    TotalWithout(recent, b);
    assert map[a := before[a]] - {a} == map[];
    TotalWithout(map[a := before[a]], a);
    assert Total(map[]) == 0;
  }

  /** What the put finds: the blob just looked up, in place and used last. */
  lemma AfterHit(c: Cache, get: Call, d: Cache, now: int)
    requires Good(c) && get.Get? && Next(c, get, d) && Hit(c, get.id, get.now).Some?
    requires forall id :: id in c.items ==> c.items[id].lastAccess < get.now
    requires now < get.now + c.ttl
    ensures get.id in Live(d.items, now) && d.items[get.id].lastAccess == get.now
    ensures d.items[get.id].size == c.items[get.id].size
    ensures forall id :: id in d.items && id != get.id ==> d.items[id].lastAccess < get.now
    ensures d.maxBytes == c.maxBytes && d.ttl == c.ttl && Positive(d.items)
  {
  }

  lemma LatestTwoStay(c: Cache, put: Call, e: Cache, id: string, t: int)
    requires put.Put? && Next(c, put, e) && Accepts(c, put.id, put.data) && Positive(c.items)
    requires id in Live(c.items, put.now) && id != put.id && c.items[id].lastAccess == t < put.now
    requires forall other :: other in c.items && other != id ==> c.items[other].lastAccess < t
    requires c.items[id].size + |put.data| <= c.maxBytes
    ensures id in e.items
  {
    var before := Live(c.items, put.now)[put.id := NewEntry(c, put.meta, put.data, put.now)];
    TwoRecent(before, id, put.id, t);
    EvictedIsOld(before, e.items, c.maxBytes, id);
  }

  /** A hit counts as a use: what was looked up last stays when the next put makes room, if both fit. */
  lemma HitProtects(c: Cache, get: Call, d: Cache, put: Call, e: Cache)
    requires Good(c) && get.Get? && put.Put? && Next(c, get, d) && Next(d, put, e)
    requires Hit(c, get.id, get.now).Some? && Accepts(d, put.id, put.data)
    requires forall id :: id in c.items ==> c.items[id].lastAccess < get.now
    requires get.now < put.now < get.now + c.ttl && put.id != get.id
    requires c.items[get.id].size + |put.data| <= c.maxBytes
    ensures get.id in e.items
  {
    AfterHit(c, get, d, put.now);
    LatestTwoStay(d, put, e, get.id, get.now);
  }

  /** Every call that is not refused for its arguments leaves nothing behind that has expired by then. */
  lemma NothingExpiredIsLeft(c: Cache, call: Call, d: Cache, id: string)
    requires Good(c) && Next(c, call, d) && id in d.items
    requires call.Put? ==> call.id != "" && call.data != "" && c.Enabled()
    requires call.Get? ==> call.id != ""
    ensures d.items[id].expiresAt > call.now
  {
  }

  // ---------------------------------------------------------------- the cache object

  /** An entry used longest ago. */
  method FindOldest(items: Items) returns (oldest: string)
    requires "" !in items
    ensures items != map[] ==>
              oldest in items && forall id :: id in items ==> items[oldest].lastAccess <= items[id].lastAccess
    ensures items == map[] ==> oldest == ""
  {
    oldest := "";
    var oldestAt := 0;
    var rest := items.Keys;
    while rest != {}
      invariant rest <= items.Keys
      invariant oldest == "" ==> rest == items.Keys
      invariant oldest != "" ==> oldest in items && oldestAt == items[oldest].lastAccess
      invariant oldest != "" ==> forall id :: id in items && id !in rest ==> oldestAt <= items[id].lastAccess
      decreases |rest|
    {
      var id :| id in rest;
      if oldest == "" || items[id].lastAccess < oldestAt {
        oldest := id;
        oldestAt := items[id].lastAccess;
      }
      rest := rest - {id};
    }
  }

  /** Evicting one oldest entry of `items`, itself the rest of `before`, while over budget. */
  lemma EvictOne(before: Items, items: Items, budget: int, v: string)
    requires OldestTaken(before, items, budget) && Positive(before) && v in items && Total(items) > budget
    requires forall id :: id in items ==> items[v].lastAccess <= items[id].lastAccess
    ensures OldestTaken(before, items - {v}, budget)
  {
    TooMuch(before, items, budget, v);
  }

  lemma TooMuch(before: Items, items: Items, budget: int, v: string)
    requires Part(items, before) && Positive(before) && v in items && Total(items) > budget
    requires forall id :: id in items ==> items[v].lastAccess <= items[id].lastAccess
    ensures TooMuchSince(before, v, budget)
  {
    TotalOfPart(items, UsedSince(before, before[v].lastAccess));
  }

  class BlobCache {
    var ttl: int
    var maxBytes: int
    var used: int
    var items: Items

    function Value(): Cache
      reads this
    {
      Cache(ttl, maxBytes, items)
    }

    ghost predicate Valid()
      reads this
    {
      used == Total(items) && Good(Value())
    }

    constructor (maxMB: int, ttlMinutes: int, now: int)
      ensures Valid() && Next(Cache(0, 0, map[]), Configure(maxMB, ttlMinutes, now), Value())
    {
      ttl, maxBytes, used, items := 0, 0, 0, map[];
      new;
      Reconfigure(maxMB, ttlMinutes, now);
    }

    method PruneExpired(now: int)
      requires used == Total(items) && Positive(items)
      modifies this`used, this`items
      ensures items == Live(old(items), now) && used == Total(items)
    {
      var rest := items.Keys;
      while rest != {}
        invariant rest <= old(items).Keys && used == Total(items) && Part(items, old(items))
        invariant forall id :: id in old(items) ==> (id in items <==> id in rest || old(items)[id].expiresAt > now)
        decreases |rest|
      {
        var id :| id in rest;
        if items[id].expiresAt <= now {
          TotalWithout(items, id);
          used := used - items[id].size;
          items := items - {id};
        }
        rest := rest - {id};
      }
      assert items == Live(old(items), now);
      TotalOfPart(items, old(items));
      used := if used < 0 then 0 else used;
    }

    /** Evicts an entry used longest ago; `found` is false if there is none. */
    method EvictOldest(ghost before: Items) returns (found: bool)
      requires OldestTaken(before, items, maxBytes) && Positive(before) && "" !in items
      requires used == Total(items) && used > maxBytes
      modifies this`used, this`items
      ensures OldestTaken(before, items, maxBytes) && used == Total(items)
      ensures items.Keys <= old(items).Keys
      ensures if found then |items| < |old(items)| else items == map[]
    {
      var oldest := FindOldest(items);
      if oldest == "" {
        return false;
      }
      EvictOne(before, items, maxBytes, oldest);
      TotalWithout(items, oldest);
      used := used - items[oldest].size;
      items := items - {oldest};
      return true;
    }

    method EnforceBudget()
      requires used == Total(items) && Positive(items) && "" !in items && maxBytes > 0
      modifies this`used, this`items
      ensures Evicted(old(items), items, maxBytes) && used == Total(items)
    {
      ghost var before := items;
      while maxBytes > 0 && used > maxBytes && |items| > 0
        invariant OldestTaken(before, items, maxBytes) && used == Total(items) && "" !in items
        decreases |items|
      {
        var found := EvictOldest(before);
        if !found {
          break;
        }
      }
      NonNegative(before, items);
      used := if used < 0 then 0 else used;
    }

    method Reconfigure(maxMB: int, ttlMinutes: int, now: int)
      requires Valid()
      modifies this
      ensures Valid() && Next(old(Value()), Configure(maxMB, ttlMinutes, now), Value())
    {
      maxBytes := Wrap64(maxMB * 1024 * 1024);
      if maxMB <= 0 {
        maxBytes := 0;
      }
      ttl := Wrap64(ttlMinutes * MINUTE);
      if ttlMinutes <= 0 {
        ttl := 0;
      }
      if maxBytes <= 0 || ttl <= 0 {
        items := map[];
        used := 0;
        return;
      }
      PruneExpired(now);
      EnforceBudget();
    }

    method PutBlob(rawID: string, meta: string, data: Bytes, now: int) returns (ok: bool)
      requires Valid()
      modifies this`used, this`items
      ensures Valid() && Next(old(Value()), Put(TrimSpace(rawID), meta, data, now), Value())
      ensures ok == Accepts(old(Value()), TrimSpace(rawID), data)
    {
      var id := TrimSpace(rawID);
      if id == "" || |data| == 0 {
        return false;
      }
      if maxBytes <= 0 || ttl <= 0 {
        return false;
      }
      ok := Admit(id, meta, data, now);
    }

    /** The part of a put behind the checks of its arguments. */
    method Admit(id: string, meta: string, data: Bytes, now: int) returns (ok: bool)
      requires Valid() && id != "" && data != "" && Value().Enabled()
      modifies this`used, this`items
      ensures Valid() && Next(old(Value()), Put(id, meta, data, now), Value())
      ensures ok == (|data| <= maxBytes)
    {
      LiveIsGood(Value(), now);
      PruneExpired(now);
      if |data| > maxBytes {
        return false;
      }
      ghost var before := items[id := NewEntry(Value(), meta, data, now)];
      Store(id, NewEntry(Value(), meta, data, now), before);
      PutDone(old(Value()), id, meta, data, now, before, Value());
      return true;
    }

    /** Adds an entry that fits the budget and makes room for it. */
    method Store(id: string, e: Entry, ghost before: Items)
      requires before == items[id := e]
      requires used == Total(items) && "" !in items && id != "" && Value().Enabled()
      requires forall x :: x in items ==> items[x].size == |items[x].data| > 0
      requires e.size == |e.data| > 0
      modifies this`used, this`items
      ensures Valid() && Evicted(before, items, maxBytes)
    {
      AddEntry(id, e);
      EnforceBudget();
    }

    /** Replaces the entry under `id`, keeping the count of bytes. */
    method AddEntry(id: string, e: Entry)
      requires used == Total(items)
      modifies this`used, this`items
      ensures items == old(items)[id := e] && used == Total(items)
    {
      if id in items {
        TotalWithout(items, id);
        used := used - items[id].size;
        items := items - {id};
      }
      TotalWith(items, id, e);
      items := items[id := e];
      used := used + e.size;
      assert items == old(items)[id := e];
    }

    method GetBlob(rawID: string, now: int) returns (data: Option<Bytes>)
      requires Valid()
      modifies this`used, this`items
      ensures Valid() && Next(old(Value()), Get(TrimSpace(rawID), now), Value())
      ensures data == Hit(old(Value()), TrimSpace(rawID), now)
    {
      var id := TrimSpace(rawID);
      if id == "" {
        return None;
      }
      PruneExpired(now);
      TouchedTotal(items, id, now, ttl);
      if id !in items {
        StepKeepsGood(old(Value()), Get(id, now), Value());
        return None;
      }
      var entry := items[id].(lastAccess := now, expiresAt := now + ttl);
      items := items[id := entry];
      StepKeepsGood(old(Value()), Get(id, now), Value());
      return Some(entry.data);
    }

    method PurgeExpired(now: int)
      requires Valid()
      modifies this`used, this`items
      ensures Valid() && Next(old(Value()), Purge(now), Value())
    {
      PruneExpired(now);
      StepKeepsGood(old(Value()), Purge(now), Value());
    }
  }
}
