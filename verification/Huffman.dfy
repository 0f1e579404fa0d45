/** Huffman strings of HPACK as RFC 7541 defines them: concatenated codes, padded with the most
    significant bits of the end-of-string symbol; and a decoder that knows only the code words. */
module Huffman {
  import opened Bytes
  import opened Options
  import opened BitStrings
  import opened HuffmanTable

  /** The code word of one symbol. */
  function Word(b: byte): (w: seq<bool>)
    ensures |w| == HuffmanCodeLen(b)
  {
    hide HuffmanCode, HuffmanCodeLen, Bits;
    Bits(HuffmanCode(b), HuffmanCodeLen(b))
  }

  /** The concatenated code words of a string. */
  function Words(s: seq<byte>): seq<bool> {
    if |s| == 0 then [] else Words(s[..|s| - 1]) + Word(s[|s| - 1])
  }

  // ---------------------------------------------------------------- prefix freedom

  lemma {:induction false} LimitsScale(n: nat, m: nat)
    requires 4 <= n <= m <= 30
    ensures Limit(n) * Pow2(m - n) <= Limit(m)
    decreases m - n
  {
    hide Limit, Pow2;
    if n == m {
      Pow2Zero();
    } else {
      LimitsScale(n, m - 1);
      LimitsDouble(m);
      Pow2Step(m - n - 1);
      assert Limit(n) * Pow2(m - n) == 2 * (Limit(n) * Pow2(m - 1 - n));
    }
  }

  lemma Pow2Zero()
    ensures Pow2(0) == 1
  {
  }

  lemma Pow2Step(n: nat)
    ensures Pow2(n + 1) == 2 * Pow2(n)
  {
  }

  /** Every code fits its length with room to spare: no code word is all ones. */
  lemma CodeFits(b: byte)
    ensures 5 <= HuffmanCodeLen(b) <= 30
    ensures HuffmanCode(b) + 1 < Pow2(HuffmanCodeLen(b))
  {
    hide HuffmanCode, HuffmanCodeLen, Limit, Pow2, SymbolAt, Offset;
    TableIsRanked(b);
    var n, limit := HuffmanCodeLen(b), Limit(HuffmanCodeLen(b));
    LimitsScale(n, 30);
    LimitsDouble(30);
    Pow2Values();
    Pow2Add(n, 30 - n);
    BelowPower(limit, Pow2(n), Pow2(30 - n));
  }

  lemma BelowPower(x: nat, p: nat, q: nat)
    requires x * q < p * q && q > 0
    ensures x < p
  {
  }

  /** No code word is a proper prefix of another. */
  lemma PrefixFree(a: byte, b: byte)
    requires Word(a) <= Word(b)
    ensures a == b
  {
    hide HuffmanCode, HuffmanCodeLen, Limit, Pow2, Bits, SymbolAt, Offset;
    var n, m := HuffmanCodeLen(a), HuffmanCodeLen(b);
    CodeFits(a);
    CodeFits(b);
    TableIsRanked(a);
    TableIsRanked(b);
    BitsSplit(HuffmanCode(b), n, m - n);
    var head := Shr(HuffmanCode(b), m - n);
    assert Bits(head, n) == Word(b)[..n] == Word(a);
    HeadFits(HuffmanCode(b), n, m - n);
    BitsInjective(HuffmanCode(a), head, n);
    if n < m {
      LimitsScale(n, m - 1);
      Pow2Step(m - n - 1);
      HeadTooLarge(HuffmanCode(b), Pow2(m - n), Limit(n));
    } else {
      Pow2Zero();
      CodesDistinct(a, b);
    }
  }

  lemma HeadFits(v: nat, n: nat, k: nat)
    requires v < Pow2(n + k)
    ensures Shr(v, k) < Pow2(n)
  {
    hide Pow2;
    Pow2Add(n, k);
    var d, q := Pow2(k), Shr(v, k);
    assert v == d * q + v % d;
    BelowPower(q, Pow2(n), d);
  }

  lemma HeadTooLarge(v: nat, d: nat, limit: nat)
    requires d > 0 && limit * d <= v
    ensures v / d >= limit
  {
    var q, r := v / d, v % d;
    assert v == d * q + r && r < d;
    DivNonNegative(v, d);
    assert limit * d < (q + 1) * d;
    BelowPower(limit, q + 1, d);
  }

  /** At most one code word starts a bit string. */
  lemma UniqueWord(a: byte, b: byte, bits: seq<bool>)
    requires Word(a) <= bits && Word(b) <= bits
    ensures a == b
  {
    hide Word;
    if |Word(a)| <= |Word(b)| {
      assert Word(a) == bits[..|Word(a)|] && Word(b) == bits[..|Word(b)|];
      PrefixFree(a, b);
    } else {
      assert Word(a) == bits[..|Word(a)|] && Word(b) == bits[..|Word(b)|];
      PrefixFree(b, a);
    }
  }

  /** Padding starts no code word. */
  lemma PaddingIsNoWord(b: byte, n: nat)
    ensures !(Word(b) <= Ones(n))
  {
    hide HuffmanCode, HuffmanCodeLen, Bits, Pow2;
    if Word(b) <= Ones(n) {
      CodeFits(b);
      var k := HuffmanCodeLen(b);
      assert Word(b) == Ones(k);
      OnesAreOnes(k);
      BitsInjective(HuffmanCode(b), Pow2(k) - 1, k);
      assert false;
    }
  }

  // ---------------------------------------------------------------- decoding

  /** Section 5.2 of RFC 7541: strip code words while one fits; what is left must be padding,
      shorter than a byte and all ones. */
  ghost function Decode(bits: seq<bool>): Option<seq<byte>>
    decreases |bits|
  {
    if w: byte :| Word(w) <= bits then
      CodeFits(w);
      match Decode(bits[|Word(w)|..])
      case None => None
      case Some(rest) => Some([w] + rest)
    else if |bits| < 8 && bits == Ones(|bits|) then Some([])
    else None
  }

  lemma {:induction false} WordsFront(s: seq<byte>)
    requires |s| > 0
    ensures Words(s) == Word(s[0]) + Words(s[1..])
  {
    hide Word;
    if s[1..] == [] {
    } else {
      WordsFront(s[..|s| - 1]);
      assert s[..|s| - 1][1..] == s[1..][..|s| - 2];
    }
  }

  /** A leading code word is the symbol decoded next. */
  lemma DecodeWord(b: byte, tail: seq<bool>)
    ensures Decode(Word(b) + tail) ==
            match Decode(tail)
            case None => None
            case Some(rest) => Some([b] + rest)
  {
    hide Word;
    var bits := Word(b) + tail;
    assert Word(b) <= bits;
    forall w: byte | Word(w) <= bits
      ensures w == b
    {
      UniqueWord(w, b, bits);
    }
    assert bits[|Word(b)|..] == tail;
  }

  lemma DecodePadding(n: nat)
    requires n < 8
    ensures Decode(Ones(n)) == Some([])
  {
    hide Word;
    forall w: byte
      ensures !(Word(w) <= Ones(n))
    {
      PaddingIsNoWord(w, n);
    }
  }

  /** Decoding a padded encoding gives the string back, for every string. */
  lemma {:induction false} DecodeWords(s: seq<byte>, pad: nat)
    requires pad < 8
    ensures Decode(Words(s) + Ones(pad)) == Some(s)
  {
    hide Word, Words, Decode, Ones;
    if |s| == 0 {
      NoWords();
      DecodePadding(pad);
      assert Words(s) + Ones(pad) == Ones(pad);
    } else {
      WordsFront(s);
      var tail := Words(s[1..]) + Ones(pad);
      assert Words(s) + Ones(pad) == Word(s[0]) + tail;
      DecodeWord(s[0], tail);
      DecodeWords(s[1..], pad);
      assert s == [s[0]] + s[1..];
    }
  }

  lemma NoWords()
    ensures Words([]) == []
  {
  }

  lemma WordsAppend(s: seq<byte>, b: byte)
    ensures Words(s + [b]) == Words(s) + Word(b)
  {
    hide Word;
    assert (s + [b])[..|s|] == s;
  }
}
