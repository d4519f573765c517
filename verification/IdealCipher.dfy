/** The cryptographic assumptions of the ratchet can be met: a cipher that simply writes out all its
    arguments is ideal in the sense of `Ratchet.Cipher.Ideal`. */
module IdealCipher {
  import opened Text
  import opened Ratchet
  import opened RatchetKeys

  /** `x` with every character marked, and an end mark. */
  function Quote(x: Bytes): Bytes
  {
    if x == "" then "." else "+" + [x[0]] + Quote(x[1..])
  }

  lemma {:induction false} QuoteEnds(x: Bytes, y: Bytes, r: Bytes, s: Bytes)
    requires Quote(x) + r == Quote(y) + s
    ensures x == y && r == s
  {
    var left, right := Quote(x) + r, Quote(y) + s;
    assert left[0] == right[0];
    if x == "" || y == "" {
      assert left[1..] == r && right[1..] == s;
    } else {
      assert left[1] == right[1];
      assert left[2..] == Quote(x[1..]) + r && right[2..] == Quote(y[1..]) + s;
      QuoteEnds(x[1..], y[1..], r, s);
      assert x == [x[0]] + x[1..] && y == [y[0]] + y[1..];
    }
  }

  function Pack(k: Bytes, n: Bytes, p: Bytes, a: Bytes): Bytes
  {
    Quote(k) + (Quote(n) + (Quote(p) + a))
  }

  lemma PackInjective(k: Bytes, n: Bytes, p: Bytes, a: Bytes, k': Bytes, n': Bytes, p': Bytes, a': Bytes)
    requires Pack(k, n, p, a) == Pack(k', n', p', a')
    ensures k == k' && n == n' && p == p' && a == a'
  {
    QuoteEnds(k, k', Quote(n) + (Quote(p) + a), Quote(n') + (Quote(p') + a'));
    QuoteEnds(n, n', Quote(p) + a, Quote(p') + a');
    QuoteEnds(p, p', a, a');
  }

  ghost function Unpack(k: Bytes, n: Bytes, c: Bytes, a: Bytes): Option<Bytes>
  {
    if exists p :: c == Pack(k, n, p, a) then
      var p :| c == Pack(k, n, p, a);
      Some(p)
    else None
  }

  lemma UnpackPacked(k: Bytes, n: Bytes, p: Bytes, a: Bytes)
    ensures Pack(k, n, p, a) != "" && Unpack(k, n, Pack(k, n, p, a), a) == Some(p)
  {
    var q :| Unpack(k, n, Pack(k, n, p, a), a) == Some(q) && Pack(k, n, p, a) == Pack(k, n, q, a);
    PackInjective(k, n, p, a, k, n, q, a);
  }

  lemma IdealCipherExists() returns (cipher: Cipher)
    ensures cipher.Ideal()
  {
    cipher := Cipher(Pack, Unpack);
    forall k, n, p, a
      ensures cipher.seal(k, n, p, a) != "" && cipher.open(k, n, cipher.seal(k, n, p, a), a) == Some(p)
    {
      UnpackPacked(k, n, p, a);
    }
    forall k, n, p, a, k', n', p', a' | cipher.seal(k, n, p, a) == cipher.seal(k', n', p', a')
      ensures k == k' && n == n' && a == a'
    {
      PackInjective(k, n, p, a, k', n', p', a');
    }
  }

  /** Keys whose bytes tell the length of the purpose they were derived for. */
  function TellingKDF(input: Bytes, purpose: Bytes): Bytes
  {
    seq(KEY_SIZE, i => if |purpose| == 26 then 'm' else if |purpose| == 21 then 'r' else 'c')
  }

  lemma TellingKeepsApart()
    ensures KeepsApart(TellingKDF)
  {
    forall x, y, p, q | |p| != |q| && (|p| == 26 || |p| == 21)
      ensures TellingKDF(x, p) != TellingKDF(y, q)
    {
      assert TellingKDF(x, p)[0] != TellingKDF(y, q)[0];
    }
  }

  /** Primitives of the shape the code uses, sound and separate as the whole-run results need them. */
  lemma SoundPrimitivesExist() returns (prims: Primitives)
    ensures prims.Sound() && Separate(prims)
  {
    var cipher := IdealCipherExists();
    var hash: Bytes -> Bytes := input => input;
    prims := Standard(TellingKDF, hash, cipher);
    StandardIsSound(TellingKDF, hash, cipher);
    TellingKeepsApart();
    StandardSeparates(TellingKDF, hash, cipher);
  }
}
