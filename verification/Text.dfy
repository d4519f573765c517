/** Byte strings and the few text routines the modelled code relies on.

    Go strings and byte slices are both modelled by Dafny strings: one character stands for one
    byte, so Go's bytewise comparison is the lexicographic order on characters.
 */
module Text {

  type Bytes = string

  datatype Option<+T> = None | Some(value: T)

  // ---------------------------------------------------------------- unsigned 64-bit numbers

  const U64_MOD: nat := 0x1_0000_0000_0000_0000
  const U32_MOD: nat := 0x1_0000_0000

  type U64 = n: nat | n < U64_MOD

  /** The `width` low-order bytes of `n`, most significant first. */
  function BigEndian(n: nat, width: nat): (bytes: Bytes)
    ensures |bytes| == width
  {
    if width == 0 then "" else BigEndian(n / 256, width - 1) + [(n % 256) as char]
  }

  function FromBigEndian(bytes: Bytes): nat
  {
    if bytes == "" then 0
    else FromBigEndian(bytes[..|bytes| - 1]) * 256 + bytes[|bytes| - 1] as int
  }

  function Pow256(k: nat): (p: nat)
    ensures p > 0
  {
    if k == 0 then 1 else 256 * Pow256(k - 1)
  }

  lemma {:induction false} BigEndianRoundTrip(n: nat, width: nat)
    requires n < Pow256(width)
    ensures FromBigEndian(BigEndian(n, width)) == n
  {
    if width > 0 {
      BigEndianRoundTrip(n / 256, width - 1);
      var bytes := BigEndian(n, width);
      assert bytes[..|bytes| - 1] == BigEndian(n / 256, width - 1);
    }
  }

  lemma BigEndian64Injective(m: U64, n: U64)
    requires BigEndian(m, 8) == BigEndian(n, 8)
    ensures m == n
  {
    assert Pow256(8) == U64_MOD by {
      assert Pow256(4) == U32_MOD;
      assert Pow256(5) == 256 * U32_MOD;
      assert Pow256(6) == 256 * 256 * U32_MOD;
      assert Pow256(7) == 256 * 256 * 256 * U32_MOD;
    }
    BigEndianRoundTrip(m, 8);
    BigEndianRoundTrip(n, 8);
  }

  // ---------------------------------------------------------------- decimal rendering

  function Decimal(n: nat): (digits: string)
    ensures digits != "" && forall c <- digits :: '0' <= c <= '9'
  {
    if n < 10 then [('0' as int + n) as char]
    else Decimal(n / 10) + [('0' as int + n % 10) as char]
  }

  function SignedDecimal(n: int): (digits: string)
  {
    if n < 0 then "-" + Decimal(-n) else Decimal(n)
  }

  function FromDecimal(digits: string): int
  {
    if digits == "" then 0
    else FromDecimal(digits[..|digits| - 1]) * 10 + (digits[|digits| - 1] as int - '0' as int)
  }

  lemma {:induction false} DecimalRoundTrip(n: nat)
    ensures FromDecimal(Decimal(n)) == n
  {
    var digits := Decimal(n);
    if n < 10 {
      assert digits[..|digits| - 1] == "";
    } else {
      DecimalRoundTrip(n / 10);
      assert digits[..|digits| - 1] == Decimal(n / 10);
    }
  }

  /** A separator that does not occur in the tails fixes where the tails start. */
  lemma TailAfterSeparator(a: string, b: string, sep: char, x: string, y: string)
    requires a + [sep] + x == b + [sep] + y
    requires sep !in x && sep !in y
    ensures a == b && x == y
  {
    var whole := a + [sep] + x;
    assert whole[|a|] == sep && forall i :: |a| < i < |whole| ==> whole[i] != sep;
    assert whole[|b|] == sep && forall i :: |b| < i < |whole| ==> whole[i] != sep;
    assert a == whole[..|a|] && b == whole[..|b|];
    assert x == whole[|a| + 1..] && y == whole[|b| + 1..];
  }

  // ---------------------------------------------------------------- signed 64-bit integers

  const I64_LIMIT: int := 0x8000_0000_0000_0000

  type I64 = x: int | -I64_LIMIT <= x < I64_LIMIT

  /** The value `x` has in 64-bit arithmetic, which wraps around. */
  function Wrap64(x: int): I64
  {
    if -I64_LIMIT <= x < I64_LIMIT then x else (x + I64_LIMIT) % U64_MOD - I64_LIMIT
  }

  lemma WrapAdd(a: int, b: int)
    ensures Wrap64(Wrap64(a) + b) == Wrap64(a + b)
  {
    WrapIsMod(a);
    WrapIsMod(a + b);
    WrapIsMod(Wrap64(a) + b);
    var k := (a + I64_LIMIT) / U64_MOD;
    assert Wrap64(a) == a - k * U64_MOD;
    assert (a + b + I64_LIMIT - k * U64_MOD) % U64_MOD == (a + b + I64_LIMIT) % U64_MOD;
  }

  /** Subtracting does not wrap when the difference stays in range. */
  lemma WrapMinus(a: int, b: int)
    requires -I64_LIMIT <= Wrap64(a) - b < I64_LIMIT
    ensures Wrap64(a - b) == Wrap64(a) - b
  {
    WrapAdd(a, -b);
  }

  /** How often `x` has wrapped around. */
  function Turns(x: int): int
  {
    (x + I64_LIMIT) / U64_MOD
  }

  lemma WrapAndTurns(x: int)
    ensures x == Wrap64(x) + Turns(x) * U64_MOD
    ensures x >= I64_LIMIT ==> Turns(x) >= 1
  {
    WrapIsMod(x);
  }

  /** Sums that differ by `d` are the same in 64 bits exactly when `d` is a whole number of turns. */
  lemma WrapSameIff(x: int, d: int)
    ensures Wrap64(x + d) == Wrap64(x) <==> d % U64_MOD == 0
  {
    WrapAndTurns(x);
    WrapAndTurns(x + d);
    if d % U64_MOD == 0 {
      assert x + d == Wrap64(x) + (Turns(x) + d / U64_MOD) * U64_MOD;
      SameTurns(x + d, Wrap64(x), Turns(x) + d / U64_MOD);
    } else {
      assert d == Wrap64(x + d) - Wrap64(x) + (Turns(x + d) - Turns(x)) * U64_MOD;
    }
  }

  lemma SameTurns(x: int, w: I64, n: int)
    requires x == w + n * U64_MOD
    ensures Wrap64(x) == w
  {
    WrapAndTurns(x);
  }

  lemma WrapIsMod(x: int)
    ensures Wrap64(x) == (x + I64_LIMIT) % U64_MOD - I64_LIMIT
  {
  }

  // ---------------------------------------------------------------- hexadecimal text

  function HexDigit(n: nat): char
    requires n < 16
  {
    if n < 10 then '0' + n as char else 'a' + (n - 10) as char
  }

  /** `hex.EncodeToString`. */
  function Hex(b: Bytes): string
  {
    if b == "" then "" else [HexDigit(b[0] as int / 16 % 16), HexDigit(b[0] as int % 16)] + Hex(b[1..])
  }

  lemma {:induction false} HexIsPrintable(b: Bytes)
    ensures forall c :: c in Hex(b) ==> '0' <= c <= 'f'
  {
    if b != "" {
      HexIsPrintable(b[1..]);
    }
  }

  // ---------------------------------------------------------------- bytewise order

  /** `strings.Compare(a, b) <= 0`. */
  predicate LexAtMost(a: string, b: string)
  {
    a == "" || (b != "" && (a[0] < b[0] || (a[0] == b[0] && LexAtMost(a[1..], b[1..]))))
  }

  predicate LexLess(a: string, b: string)
  {
    LexAtMost(a, b) && a != b
  }

  lemma {:induction false} LexTotal(a: string, b: string)
    ensures LexAtMost(a, b) || LexAtMost(b, a)
    ensures LexAtMost(a, b) && LexAtMost(b, a) ==> a == b
    ensures LexAtMost(a, a)
  {
    if a != "" {
      LexTotal(a[1..], if b != "" then b[1..] else "");
      assert a == [a[0]] + a[1..];
      if b != "" {
        assert b == [b[0]] + b[1..];
      }
    }
  }

  lemma {:induction false} LexTransitive(a: string, b: string, c: string)
    requires LexAtMost(a, b) && LexAtMost(b, c)
    ensures LexAtMost(a, c)
  {
    if a != "" && a[0] == b[0] && b[0] == c[0] {
      LexTransitive(a[1..], b[1..], c[1..]);
    }
  }

  // ---------------------------------------------------------------- trimming and case

  predicate IsSpace(c: char)
  {
    c == ' ' || '\t' <= c <= '\r' || c == '\U{85}' || c == '\U{A0}'
  }

  function TrimLeft(s: string): string
  {
    if s != "" && IsSpace(s[0]) then TrimLeft(s[1..]) else s
  }

  function TrimRight(s: string): string
  {
    if s != "" && IsSpace(s[|s| - 1]) then TrimRight(s[..|s| - 1]) else s
  }

  /** `strings.TrimSpace`. */
  function TrimSpace(s: string): string
  {
    TrimLeft(TrimRight(s))
  }

  predicate Blank(s: string)
  {
    TrimSpace(s) == ""
  }

  predicate Trimmed(s: string)
  {
    TrimSpace(s) == s
  }

  lemma {:induction false} TrimRightEnd(s: string)
    ensures var t := TrimRight(s); t == "" || !IsSpace(t[|t| - 1])
  {
    if s != "" && IsSpace(s[|s| - 1]) {
      TrimRightEnd(s[..|s| - 1]);
    }
  }

  lemma {:induction false} TrimLeftEnds(s: string)
    ensures var t := TrimLeft(s);
            && (t == "" || !IsSpace(t[0]))
            && (s != "" && !IsSpace(s[|s| - 1]) ==> t != "" && !IsSpace(t[|t| - 1]))
  {
    if s != "" && IsSpace(s[0]) {
      TrimLeftEnds(s[1..]);
    }
  }

  lemma TrimSpaceTrims(s: string)
    ensures Trimmed(TrimSpace(s))
  {
    TrimRightEnd(s);
    TrimLeftEnds(TrimRight(s));
  }

  const BLANKS: set<char> := {' ', '\t', '\n', '\U{0B}', '\U{0C}', '\r', '\U{85}', '\U{A0}'}

  lemma {:induction false} TrimLeftIs(s: string) returns (before: string)
    ensures s == before + TrimLeft(s) && forall c :: c in before ==> c in BLANKS
  {
    before := "";
    if s != "" && IsSpace(s[0]) {
      var rest := TrimLeftIs(s[1..]);
      before := [s[0]] + rest;
    }
  }

  lemma {:induction false} TrimRightIs(s: string) returns (behind: string)
    ensures s == TrimRight(s) + behind && forall c :: c in behind ==> c in BLANKS
  {
    behind := "";
    if s != "" && IsSpace(s[|s| - 1]) {
      var rest := TrimRightIs(s[..|s| - 1]);
      behind := rest + [s[|s| - 1]];
    }
  }

  /** Trimming takes away nothing but blanks at the ends, and all of them. */
  lemma TrimSpaceIs(s: string) returns (before: string, behind: string)
    ensures s == before + TrimSpace(s) + behind && forall c :: c in before + behind ==> c in BLANKS
    ensures var t := TrimSpace(s); t == "" || (t[0] !in BLANKS && t[|t| - 1] !in BLANKS)
  {
    behind := TrimRightIs(s);
    before := TrimLeftIs(TrimRight(s));
    TrimRightEnd(s);
    TrimLeftEnds(TrimRight(s));
  }

  function LowerChar(c: char): char
  {
    if 'A' <= c <= 'Z' then (c as int + 32) as char else c
  }

  function ToLower(s: string): string
  {
    seq(|s|, i requires 0 <= i < |s| => LowerChar(s[i]))
  }

  // ---------------------------------------------------------------- finite sets

  lemma {:induction false} BoundedSetSize(s: set<nat>, lo: nat, hi: nat)
    requires lo <= hi && forall x <- s :: lo <= x < hi
    ensures |s| <= hi - lo
    decreases hi
  {
    if lo < hi {
      BoundedSetSize(s - {hi - 1}, lo, hi - 1);
    }
  }

  lemma {:induction false} SubsetSize<T>(a: set<T>, b: set<T>)
    requires a <= b
    ensures |a| <= |b|
  {
    if a != {} {
      var x :| x in a;
      SubsetSize(a - {x}, b - {x});
    }
  }

  lemma CountOneMore<T>(a: set<T>, todo: set<T>, x: T)
    requires x in todo
    ensures |a - (todo - {x})| == |a - todo| + (if x in a then 1 else 0)
  {
    if x in a {
      assert a - (todo - {x}) == a - todo + {x};
    } else {
      assert a - (todo - {x}) == a - todo;
    }
  }

  lemma UpdateThenSum<K, V>(a: map<K, V>, k: K, v: V, b: map<K, V>)
    ensures a + (map[k := v] + b) == a[k := v] + b
  {
  }

  /** The last `n` elements, or all of them. */
  function LastN<T>(list: seq<T>, n: nat): seq<T>
  {
    if |list| <= n then list else list[|list| - n..]
  }
}
