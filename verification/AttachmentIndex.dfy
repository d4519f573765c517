/** The entries of the attachment index: classes, sums of sizes, and the order of last use.

    Times are nanoseconds. Sizes are 64-bit integers, and so is every sum the program forms of them;
    `Total` is the true sum, `Wrap64` of it what the program gets. A meta entry carries its class and pin
    state as the store normalises them.
 */
module AttachmentIndex {
  import opened Text

  type Time = int
  const ZERO_TIME: Time := 0
  const SECOND: int := 1_000_000_000

  /** A normalised class name; anything but image and file is `Other`. */
  datatype Kind = Image | File | Other(name: string)

  datatype Meta = Meta(kind: Kind, pinned: bool, size: I64, createdAt: Time, lastAccessAt: Time)

  type Items = map<string, Meta>

  /** The class garbage collection files an item under: everything that is not an image is a file. */
  function GcClass(kind: Kind): Kind
  {
    if kind == Image then Image else File
  }

  /** The class that follows from a MIME type. */
  function ClassifyMime(mimeType: string): Kind
  {
    if "image/" <= ToLower(TrimSpace(mimeType)) then Image else File
  }

  /** The class named by `class'`, or that of the MIME type if it names none. */
  function KindFor(class': string, mimeType: string): Kind
  {
    var name := ToLower(TrimSpace(class'));
    if name == "" then ClassifyMime(mimeType) else if name == "image" then Image
    else if name == "file" then File else Other(name)
  }

  // ---------------------------------------------------------------- sums of sizes

  ghost function Total(items: Items, ids: set<string>): int
    requires ids <= items.Keys
  {
    if ids == {} then 0 else var x :| x in ids; items[x].size + Total(items, ids - {x})
  }

  lemma {:induction false} TotalWithout(items: Items, ids: set<string>, x: string)
    requires ids <= items.Keys && x in ids
    ensures Total(items, ids) == items[x].size + Total(items, ids - {x})
    decreases |ids|
  {
    var y :| y in ids && Total(items, ids) == items[y].size + Total(items, ids - {y});
    if y != x {
      TotalWithout(items, ids - {y}, x);
      TotalWithout(items, ids - {x}, y);
      assert ids - {y} - {x} == ids - {x} - {y};
    }
  }

  lemma {:induction false} TotalSplit(items: Items, a: set<string>, b: set<string>)
    requires a <= items.Keys && b <= items.Keys && a !! b
    ensures Total(items, a + b) == Total(items, a) + Total(items, b)
    decreases |a|
  {
    if a == {} {
      assert a + b == b;
    } else {
      var x :| x in a;
      TotalWithout(items, a, x);
      TotalWithout(items, a + b, x);
      assert a + b - {x} == (a - {x}) + b;
      TotalSplit(items, a - {x}, b);
    }
  }

  lemma {:induction false} TotalSame(items: Items, items': Items, ids: set<string>)
    requires ids <= items.Keys && ids <= items'.Keys
    requires forall id :: id in ids ==> items'[id].size == items[id].size
    ensures Total(items', ids) == Total(items, ids)
    decreases |ids|
  {
    if ids != {} {
      var x :| x in ids;
      TotalWithout(items, ids, x);
      TotalWithout(items', ids, x);
      TotalSame(items, items', ids - {x});
    }
  }

  lemma {:induction false} TotalPositive(items: Items, ids: set<string>)
    requires ids <= items.Keys && PositiveSizes(items)
    ensures Total(items, ids) >= 0 && (Total(items, ids) == 0 ==> ids == {})
    decreases |ids|
  {
    if ids != {} {
      var x :| x in ids;
      TotalWithout(items, ids, x);
      TotalPositive(items, ids - {x});
    }
  }

  lemma TotalOfPart(items: Items, a: set<string>, b: set<string>)
    requires a <= b <= items.Keys && PositiveSizes(items)
    ensures 0 <= Total(items, a) <= Total(items, b)
  {
    TotalSplit(items, a, b - a);
    TotalPositive(items, a);
    TotalPositive(items, b - a);
    assert a + (b - a) == b;
  }

  predicate PositiveSizes(items: Items)
  {
    forall id :: id in items ==> items[id].size > 0
  }

  /** No sum of sizes exceeds 64 bits. */
  ghost predicate Fits(items: Items)
  {
    PositiveSizes(items) && Total(items, items.Keys) < I64_LIMIT
  }

  // ---------------------------------------------------------------- the two usage sums

  function OfKind(items: Items, kind: Kind): set<string>
  {
    set id | id in items && items[id].kind == kind
  }

  function OfClass(items: Items, class': Kind): set<string>
  {
    set id | id in items && GcClass(items[id].kind) == class'
  }

  /** The sum checked on insertion: items whose class is exactly `kind`. */
  ghost function Usage(items: Items, kind: Kind): int
  {
    Total(items, OfKind(items, kind))
  }

  /** The sum used by garbage collection: items filed under `class'`, some excluded. */
  ghost function UsageExcluding(items: Items, class': Kind, excluded: set<string>): int
  {
    Total(items, OfClass(items, class') - excluded)
  }

  predicate KnownKinds(items: Items)
  {
    forall id :: id in items ==> !items[id].kind.Other?
  }

  /** Items of neither class, which garbage collection files under files all the same. */
  function Strays(items: Items): set<string>
  {
    OfClass(items, File) - OfKind(items, File)
  }

  lemma StraysMakeTheDifference(items: Items)
    ensures UsageExcluding(items, Image, {}) == Usage(items, Image)
    ensures UsageExcluding(items, File, {}) == Usage(items, File) + Total(items, Strays(items))
  {
    assert OfClass(items, Image) - {} == OfKind(items, Image);
    assert OfClass(items, File) - {} == OfKind(items, File) + Strays(items);
    TotalSplit(items, OfKind(items, File), Strays(items));
  }

  /** The two sums the program computes agree on both classes. */
  ghost predicate SumsAgree(items: Items)
  {
    && Wrap64(Usage(items, Image)) == Wrap64(UsageExcluding(items, Image, {}))
    && Wrap64(Usage(items, File)) == Wrap64(UsageExcluding(items, File, {}))
  }

  /** They agree if and only if the sizes of the strays add up to a multiple of 2^64; as long as all
      sizes add up within 64 bits, that is if and only if there are no strays. */
  lemma UsageSumsAgreeIff(items: Items)
    ensures SumsAgree(items) <==> Total(items, Strays(items)) % U64_MOD == 0
    ensures Fits(items) ==> (SumsAgree(items) <==> KnownKinds(items))
  {
    StraysMakeTheDifference(items);
    WrapSameIff(Usage(items, File), Total(items, Strays(items)));
    if Fits(items) {
      TotalOfPart(items, Strays(items), items.Keys);
      TotalPositive(items, Strays(items));
      assert forall id :: id in items && items[id].kind.Other? ==> id in Strays(items);
    }
  }

  /** Without strays the true sums agree as well, whatever the sizes. */
  lemma KnownKindsAgree(items: Items)
    requires KnownKinds(items)
    ensures UsageExcluding(items, Image, {}) == Usage(items, Image)
    ensures UsageExcluding(items, File, {}) == Usage(items, File)
  {
    StraysMakeTheDifference(items);
    assert Strays(items) == {};
  }

  /** Strays need not show: three of them whose sizes make one full turn. */
  lemma StraysMayCancel(a: string, b: string, c: string, m: Meta, name: string)
    requires a != b && b != c && a != c
    ensures var big, small := m.(kind := Other(name), size := I64_LIMIT - 1), m.(kind := Other(name), size := 2);
            var items := map[a := big, b := big, c := small];
            PositiveSizes(items) && !KnownKinds(items) && SumsAgree(items)
  {
    var big, small := m.(kind := Other(name), size := I64_LIMIT - 1), m.(kind := Other(name), size := 2);
    var items := map[a := big, b := big, c := small];
    assert Strays(items) == {a, b, c};
    TotalWithout(items, {a, b, c}, a);
    assert {a, b, c} - {a} == {b, c};
    TotalWithout(items, {b, c}, b);
    assert {b, c} - {b} == {c};
    TotalWithout(items, {c}, c);
    assert {c} - {c} == {};
    UsageSumsAgreeIff(items);
    assert items[a].kind.Other?;
  }

  // ---------------------------------------------------------------- least recently used order

  function LastUsed(m: Meta): Time
  {
    if m.lastAccessAt == ZERO_TIME then m.createdAt else m.lastAccessAt
  }

  /** `a` comes before `b`: used longer ago, ties broken by id. */
  predicate Earlier(items: Items, a: string, b: string)
    requires a in items && b in items
  {
    var x, y := LastUsed(items[a]), LastUsed(items[b]);
    x < y || (x == y && LexLess(a, b))
  }

  lemma EarlierTotal(items: Items, a: string, b: string)
    requires a in items && b in items && a != b
    ensures Earlier(items, a, b) <==> !Earlier(items, b, a)
  {
    LexTotal(a, b);
  }

  lemma EarlierTransitive(items: Items, a: string, b: string, c: string)
    requires a in items && b in items && c in items
    requires Earlier(items, a, b) && Earlier(items, b, c)
    ensures Earlier(items, a, c)
  {
    if LexAtMost(a, b) && LexAtMost(b, c) {
      LexTransitive(a, b, c);
      LexTotal(a, b);
    }
  }

  predicate IsFirst(items: Items, ids: set<string>, x: string)
    requires ids <= items.Keys
  {
    x in ids && forall y :: y in ids && y != x ==> Earlier(items, x, y)
  }

  lemma {:induction false} FirstExists(items: Items, ids: set<string>) returns (x: string)
    requires ids <= items.Keys && ids != {}
    ensures IsFirst(items, ids, x)
    decreases |ids|
  {
    x :| x in ids;
    var rest := ids - {x};
    assert forall y :: y in ids ==> y == x || y in rest;
    if rest != {} {
      var z := FirstExists(items, rest);
      EarlierTotal(items, x, z);
      if Earlier(items, x, z) {
        forall y | y in rest && y != z
          ensures Earlier(items, x, y)
        {
          EarlierTransitive(items, x, z, y);
        }
      } else {
        x := z;
      }
    }
  }

  lemma FirstIsUnique(items: Items, ids: set<string>, x: string, y: string)
    requires ids <= items.Keys && IsFirst(items, ids, x) && IsFirst(items, ids, y)
    ensures x == y
  {
    if x != y {
      EarlierTotal(items, x, y);
    }
  }

  ghost function First(items: Items, ids: set<string>): (x: string)
    requires ids <= items.Keys && ids != {}
    ensures IsFirst(items, ids, x)
  {
    assert exists x :: IsFirst(items, ids, x) by {
      var x := FirstExists(items, ids);
    }
    var x :| IsFirst(items, ids, x);
    x
  }

  ghost function LruOrder(items: Items, ids: set<string>): seq<string>
    requires ids <= items.Keys
    decreases |ids|
  {
    if ids == {} then [] else [First(items, ids)] + LruOrder(items, ids - {First(items, ids)})
  }

  ghost function Elements(order: seq<string>): set<string>
  {
    set id | id in order
  }

  /** Strictly increasing in the least-recently-used order. */
  ghost predicate InOrder(items: Items, order: seq<string>)
  {
    && (forall id :: id in order ==> id in items)
    && (forall i, j :: 0 <= i < j < |order| ==> Earlier(items, order[i], order[j]))
  }

  lemma {:induction false} LruOrderIsOrder(items: Items, ids: set<string>)
    requires ids <= items.Keys
    ensures Elements(LruOrder(items, ids)) == ids && InOrder(items, LruOrder(items, ids))
    decreases |ids|
  {
    if ids != {} {
      var x := First(items, ids);
      LruOrderIsOrder(items, ids - {x});
      var rest := LruOrder(items, ids - {x});
      FirstBeforeRest(items, ids, x, rest);
    }
  }

  lemma FirstBeforeRest(items: Items, ids: set<string>, x: string, rest: seq<string>)
    requires ids <= items.Keys && IsFirst(items, ids, x)
    requires Elements(rest) == ids - {x} && InOrder(items, rest)
    ensures Elements([x] + rest) == ids && InOrder(items, [x] + rest)
  {
    assert forall y :: y in rest <==> y in Elements(rest);
    forall i, j | 0 <= i < j < |rest| + 1
      ensures Earlier(items, ([x] + rest)[i], ([x] + rest)[j])
    {
      assert rest[j - 1] in rest;
    }
  }

  /** There is only one such order, so it does not matter how candidates are sorted. */
  lemma {:induction false} LruOrderIsUnique(items: Items, order: seq<string>)
    requires InOrder(items, order)
    ensures Elements(order) <= items.Keys && LruOrder(items, Elements(order)) == order
  {
    if order != [] {
      var x, rest := order[0], order[1..];
      assert x !in rest;
      LruOrderIsUnique(items, rest);
      assert Elements(order) == {x} + Elements(rest);
      assert Elements(order) - {x} == Elements(rest);
      assert IsFirst(items, Elements(order), x);
      FirstIsUnique(items, Elements(order), x, First(items, Elements(order)));
    }
  }
}
