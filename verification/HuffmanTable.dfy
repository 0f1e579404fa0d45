/** The static Huffman code of HPACK (RFC 7541, Appendix B): the two 256-entry tables the encoder
    carries, eight symbols to a row, and the canonical order that makes the code decodable. */
module HuffmanTable {

  /** `huffman_codes` */
  function CodeRow(r: int): (s: seq<nat>)
    ensures |s| == 8
  {
    match r
    case 0 => [0x1ff8, 0x7fffd8, 0xfffffe2, 0xfffffe3, 0xfffffe4, 0xfffffe5, 0xfffffe6, 0xfffffe7]
    case 1 => [0xfffffe8, 0xffffea, 0x3ffffffc, 0xfffffe9, 0xfffffea, 0x3ffffffd, 0xfffffeb, 0xfffffec]
    case 2 => [0xfffffed, 0xfffffee, 0xfffffef, 0xffffff0, 0xffffff1, 0xffffff2, 0x3ffffffe, 0xffffff3]
    case 3 => [0xffffff4, 0xffffff5, 0xffffff6, 0xffffff7, 0xffffff8, 0xffffff9, 0xffffffa, 0xffffffb]
    case 4 => [0x14, 0x3f8, 0x3f9, 0xffa, 0x1ff9, 0x15, 0xf8, 0x7fa]
    case 5 => [0x3fa, 0x3fb, 0xf9, 0x7fb, 0xfa, 0x16, 0x17, 0x18]
    case 6 => [0x0, 0x1, 0x2, 0x19, 0x1a, 0x1b, 0x1c, 0x1d]
    case 7 => [0x1e, 0x1f, 0x5c, 0xfb, 0x7ffc, 0x20, 0xffb, 0x3fc]
    case 8 => [0x1ffa, 0x21, 0x5d, 0x5e, 0x5f, 0x60, 0x61, 0x62]
    case 9 => [0x63, 0x64, 0x65, 0x66, 0x67, 0x68, 0x69, 0x6a]
    case 10 => [0x6b, 0x6c, 0x6d, 0x6e, 0x6f, 0x70, 0x71, 0x72]
    case 11 => [0xfc, 0x73, 0xfd, 0x1ffb, 0x7fff0, 0x1ffc, 0x3ffc, 0x22]
    case 12 => [0x7ffd, 0x3, 0x23, 0x4, 0x24, 0x5, 0x25, 0x26]
    case 13 => [0x27, 0x6, 0x74, 0x75, 0x28, 0x29, 0x2a, 0x7]
    case 14 => [0x2b, 0x76, 0x2c, 0x8, 0x9, 0x2d, 0x77, 0x78]
    case 15 => [0x79, 0x7a, 0x7b, 0x7ffe, 0x7fc, 0x3ffd, 0x1ffd, 0xffffffc]
    case 16 => [0xfffe6, 0x3fffd2, 0xfffe7, 0xfffe8, 0x3fffd3, 0x3fffd4, 0x3fffd5, 0x7fffd9]
    case 17 => [0x3fffd6, 0x7fffda, 0x7fffdb, 0x7fffdc, 0x7fffdd, 0x7fffde, 0xffffeb, 0x7fffdf]
    case 18 => [0xffffec, 0xffffed, 0x3fffd7, 0x7fffe0, 0xffffee, 0x7fffe1, 0x7fffe2, 0x7fffe3]
    case 19 => [0x7fffe4, 0x1fffdc, 0x3fffd8, 0x7fffe5, 0x3fffd9, 0x7fffe6, 0x7fffe7, 0xffffef]
    case 20 => [0x3fffda, 0x1fffdd, 0xfffe9, 0x3fffdb, 0x3fffdc, 0x7fffe8, 0x7fffe9, 0x1fffde]
    case 21 => [0x7fffea, 0x3fffdd, 0x3fffde, 0xfffff0, 0x1fffdf, 0x3fffdf, 0x7fffeb, 0x7fffec]
    case 22 => [0x1fffe0, 0x1fffe1, 0x3fffe0, 0x1fffe2, 0x7fffed, 0x3fffe1, 0x7fffee, 0x7fffef]
    case 23 => [0xfffea, 0x3fffe2, 0x3fffe3, 0x3fffe4, 0x7ffff0, 0x3fffe5, 0x3fffe6, 0x7ffff1]
    case 24 => [0x3ffffe0, 0x3ffffe1, 0xfffeb, 0x7fff1, 0x3fffe7, 0x7ffff2, 0x3fffe8, 0x1ffffec]
    case 25 => [0x3ffffe2, 0x3ffffe3, 0x3ffffe4, 0x7ffffde, 0x7ffffdf, 0x3ffffe5, 0xfffff1, 0x1ffffed]
    case 26 => [0x7fff2, 0x1fffe3, 0x3ffffe6, 0x7ffffe0, 0x7ffffe1, 0x3ffffe7, 0x7ffffe2, 0xfffff2]
    case 27 => [0x1fffe4, 0x1fffe5, 0x3ffffe8, 0x3ffffe9, 0xffffffd, 0x7ffffe3, 0x7ffffe4, 0x7ffffe5]
    case 28 => [0xfffec, 0xfffff3, 0xfffed, 0x1fffe6, 0x3fffe9, 0x1fffe7, 0x1fffe8, 0x7ffff3]
    case 29 => [0x3fffea, 0x3fffeb, 0x1ffffee, 0x1ffffef, 0xfffff4, 0xfffff5, 0x3ffffea, 0x7ffff4]
    case 30 => [0x3ffffeb, 0x7ffffe6, 0x3ffffec, 0x3ffffed, 0x7ffffe7, 0x7ffffe8, 0x7ffffe9, 0x7ffffea]
    case _ => [0x7ffffeb, 0xffffffe, 0x7ffffec, 0x7ffffed, 0x7ffffee, 0x7ffffef, 0x7fffff0, 0x3ffffee]
  }

  /** `huffman_code_len` */
  function LenRow(r: int): (s: seq<nat>)
    ensures |s| == 8
  {
    match r
    case 0 => [13, 23, 28, 28, 28, 28, 28, 28]
    case 1 => [28, 24, 30, 28, 28, 30, 28, 28]
    case 2 => [28, 28, 28, 28, 28, 28, 30, 28]
    case 3 => [28, 28, 28, 28, 28, 28, 28, 28]
    case 4 => [6, 10, 10, 12, 13, 6, 8, 11]
    case 5 => [10, 10, 8, 11, 8, 6, 6, 6]
    case 6 => [5, 5, 5, 6, 6, 6, 6, 6]
    case 7 => [6, 6, 7, 8, 15, 6, 12, 10]
    case 8 => [13, 6, 7, 7, 7, 7, 7, 7]
    case 9 => [7, 7, 7, 7, 7, 7, 7, 7]
    case 10 => [7, 7, 7, 7, 7, 7, 7, 7]
    case 11 => [8, 7, 8, 13, 19, 13, 14, 6]
    case 12 => [15, 5, 6, 5, 6, 5, 6, 6]
    case 13 => [6, 5, 7, 7, 6, 6, 6, 5]
    case 14 => [6, 7, 6, 5, 5, 6, 7, 7]
    case 15 => [7, 7, 7, 15, 11, 14, 13, 28]
    case 16 => [20, 22, 20, 20, 22, 22, 22, 23]
    case 17 => [22, 23, 23, 23, 23, 23, 24, 23]
    case 18 => [24, 24, 22, 23, 24, 23, 23, 23]
    case 19 => [23, 21, 22, 23, 22, 23, 23, 24]
    case 20 => [22, 21, 20, 22, 22, 23, 23, 21]
    case 21 => [23, 22, 22, 24, 21, 22, 23, 23]
    case 22 => [21, 21, 22, 21, 23, 22, 23, 23]
    case 23 => [20, 22, 22, 22, 23, 22, 22, 23]
    case 24 => [26, 26, 20, 19, 22, 23, 22, 25]
    case 25 => [26, 26, 26, 27, 27, 26, 24, 25]
    case 26 => [19, 21, 26, 27, 27, 26, 27, 24]
    case 27 => [21, 21, 26, 26, 28, 27, 27, 27]
    case 28 => [20, 24, 20, 21, 22, 21, 21, 23]
    case 29 => [22, 22, 25, 25, 24, 24, 26, 23]
    case 30 => [26, 27, 26, 26, 27, 27, 27, 27]
    case _ => [27, 28, 27, 27, 27, 27, 27, 26]
  }

  /** The symbols by code length, then by value. */
  function OrderRow(r: int): (s: seq<nat>)
    ensures |s| == 8
  {
    match r
    case 0 => [48, 49, 50, 97, 99, 101, 105, 111]
    case 1 => [115, 116, 32, 37, 45, 46, 47, 51]
    case 2 => [52, 53, 54, 55, 56, 57, 61, 65]
    case 3 => [95, 98, 100, 102, 103, 104, 108, 109]
    case 4 => [110, 112, 114, 117, 58, 66, 67, 68]
    case 5 => [69, 70, 71, 72, 73, 74, 75, 76]
    case 6 => [77, 78, 79, 80, 81, 82, 83, 84]
    case 7 => [85, 86, 87, 89, 106, 107, 113, 118]
    case 8 => [119, 120, 121, 122, 38, 42, 44, 59]
    case 9 => [88, 90, 33, 34, 40, 41, 63, 39]
    case 10 => [43, 124, 35, 62, 0, 36, 64, 91]
    case 11 => [93, 126, 94, 125, 60, 96, 123, 92]
    case 12 => [195, 208, 128, 130, 131, 162, 184, 194]
    case 13 => [224, 226, 153, 161, 167, 172, 176, 177]
    case 14 => [179, 209, 216, 217, 227, 229, 230, 129]
    case 15 => [132, 133, 134, 136, 146, 154, 156, 160]
    case 16 => [163, 164, 169, 170, 173, 178, 181, 185]
    case 17 => [186, 187, 189, 190, 196, 198, 228, 232]
    case 18 => [233, 1, 135, 137, 138, 139, 140, 141]
    case 19 => [143, 147, 149, 150, 151, 152, 155, 157]
    case 20 => [158, 165, 166, 168, 174, 175, 180, 182]
    case 21 => [183, 188, 191, 197, 231, 239, 9, 142]
    case 22 => [144, 145, 148, 159, 171, 206, 215, 225]
    case 23 => [236, 237, 199, 207, 234, 235, 192, 193]
    case 24 => [200, 201, 202, 205, 210, 213, 218, 219]
    case 25 => [238, 240, 242, 243, 255, 203, 204, 211]
    case 26 => [212, 214, 221, 222, 223, 241, 244, 245]
    case 27 => [246, 247, 248, 250, 251, 252, 253, 254]
    case 28 => [2, 3, 4, 5, 6, 7, 8, 11]
    case 29 => [12, 14, 15, 16, 17, 18, 19, 20]
    case 30 => [21, 23, 24, 25, 26, 27, 28, 29]
    case _ => [30, 31, 127, 220, 249, 10, 13, 22]
  }

  function HuffmanCode(b: int): nat
    requires 0 <= b < 256
  {
    CodeRow(b / 8)[b % 8]
  }

  function HuffmanCodeLen(b: int): nat
    requires 0 <= b < 256
  {
    LenRow(b / 8)[b % 8]
  }

  function SymbolAt(rank: int): nat
    requires 0 <= rank < 256
  {
    OrderRow(rank / 8)[rank % 8]
  }

  /** One past the last code of each length. */
  function Limit(n: nat): nat {
    match n
    case 5 => 0xa
    case 6 => 0x2e
    case 7 => 0x7c
    case 8 => 0xfe
    case 9 => 0x1fc
    case 10 => 0x3fd
    case 11 => 0x7fd
    case 12 => 0xffc
    case 13 => 0x1ffe
    case 14 => 0x3ffe
    case 15 => 0x7fff
    case 16 => 0xfffe
    case 17 => 0x1fffc
    case 18 => 0x3fff8
    case 19 => 0x7fff3
    case 20 => 0xfffee
    case 21 => 0x1fffe9
    case 22 => 0x3fffec
    case 23 => 0x7ffff5
    case 24 => 0xfffff6
    case 25 => 0x1fffff0
    case 26 => 0x3ffffef
    case 27 => 0x7fffff1
    case 28 => 0xfffffff
    case 29 => 0x1ffffffe
    case 30 => 0x3fffffff
    case _ => 0
  }

  /** Rank minus code, the same for all codes of one length. */
  function Offset(n: nat): int {
    match n
    case 5 => 0
    case 6 => -10
    case 7 => -56
    case 8 => -180
    case 9 => -434
    case 10 => -942
    case 11 => -1963
    case 12 => -4008
    case 13 => -8100
    case 14 => -16290
    case 15 => -32672
    case 16 => -65439
    case 17 => -130973
    case 18 => -262041
    case 19 => -524177
    case 20 => -1048452
    case 21 => -2097010
    case 22 => -4194139
    case 23 => -8388423
    case 24 => -16777020
    case 25 => -33554226
    case 26 => -67108642
    case 27 => -134217489
    case 28 => -268435202
    case 29 => -536870657
    case 30 => -1073741567
    case _ => 0
  }

  /** The code of `b` lies in the block of its length, and its rank in the order leads back to `b`. */
  predicate Ranked(b: int) {
    && 0 <= b < 256
    && var n, c := HuffmanCodeLen(b), HuffmanCode(b);
       && 5 <= n <= 30
       && 2 * Limit(n - 1) <= c < Limit(n)
       && 0 <= Offset(n) + c < 256
       && SymbolAt(Offset(n) + c) == b
  }

  lemma Row0(b: int) requires 0 <= b < 8 ensures Ranked(b) {}
  lemma Row1(b: int) requires 8 <= b < 16 ensures Ranked(b) {}
  lemma Row2(b: int) requires 16 <= b < 24 ensures Ranked(b) {}
  lemma Row3(b: int) requires 24 <= b < 32 ensures Ranked(b) {}
  lemma Row4(b: int) requires 32 <= b < 40 ensures Ranked(b) {}
  lemma Row5(b: int) requires 40 <= b < 48 ensures Ranked(b) {}
  lemma Row6(b: int) requires 48 <= b < 56 ensures Ranked(b) {}
  lemma Row7(b: int) requires 56 <= b < 64 ensures Ranked(b) {}
  lemma Row8(b: int) requires 64 <= b < 72 ensures Ranked(b) {}
  lemma Row9(b: int) requires 72 <= b < 80 ensures Ranked(b) {}
  lemma Row10(b: int) requires 80 <= b < 88 ensures Ranked(b) {}
  lemma Row11(b: int) requires 88 <= b < 96 ensures Ranked(b) {}
  lemma Row12(b: int) requires 96 <= b < 104 ensures Ranked(b) {}
  lemma Row13(b: int) requires 104 <= b < 112 ensures Ranked(b) {}
  lemma Row14(b: int) requires 112 <= b < 120 ensures Ranked(b) {}
  lemma Row15(b: int) requires 120 <= b < 128 ensures Ranked(b) {}
  lemma Row16(b: int) requires 128 <= b < 136 ensures Ranked(b) {}
  lemma Row17(b: int) requires 136 <= b < 144 ensures Ranked(b) {}
  lemma Row18(b: int) requires 144 <= b < 152 ensures Ranked(b) {}
  lemma Row19(b: int) requires 152 <= b < 160 ensures Ranked(b) {}
  lemma Row20(b: int) requires 160 <= b < 168 ensures Ranked(b) {}
  lemma Row21(b: int) requires 168 <= b < 176 ensures Ranked(b) {}
  lemma Row22(b: int) requires 176 <= b < 184 ensures Ranked(b) {}
  lemma Row23(b: int) requires 184 <= b < 192 ensures Ranked(b) {}
  lemma Row24(b: int) requires 192 <= b < 200 ensures Ranked(b) {}
  lemma Row25(b: int) requires 200 <= b < 208 ensures Ranked(b) {}
  lemma Row26(b: int) requires 208 <= b < 216 ensures Ranked(b) {}
  lemma Row27(b: int) requires 216 <= b < 224 ensures Ranked(b) {}
  lemma Row28(b: int) requires 224 <= b < 232 ensures Ranked(b) {}
  lemma Row29(b: int) requires 232 <= b < 240 ensures Ranked(b) {}
  lemma Row30(b: int) requires 240 <= b < 248 ensures Ranked(b) {}
  lemma Row31(b: int) requires 248 <= b < 256 ensures Ranked(b) {}

  /** Every symbol has its place in the order, which its length and code give. */
  lemma TableIsRanked(b: int)
    requires 0 <= b < 256
    ensures Ranked(b)
  {
    hide Ranked;
    match b / 8
    case 0 => Row0(b);
    case 1 => Row1(b);
    case 2 => Row2(b);
    case 3 => Row3(b);
    case 4 => Row4(b);
    case 5 => Row5(b);
    case 6 => Row6(b);
    case 7 => Row7(b);
    case 8 => Row8(b);
    case 9 => Row9(b);
    case 10 => Row10(b);
    case 11 => Row11(b);
    case 12 => Row12(b);
    case 13 => Row13(b);
    case 14 => Row14(b);
    case 15 => Row15(b);
    case 16 => Row16(b);
    case 17 => Row17(b);
    case 18 => Row18(b);
    case 19 => Row19(b);
    case 20 => Row20(b);
    case 21 => Row21(b);
    case 22 => Row22(b);
    case 23 => Row23(b);
    case 24 => Row24(b);
    case 25 => Row25(b);
    case 26 => Row26(b);
    case 27 => Row27(b);
    case 28 => Row28(b);
    case 29 => Row29(b);
    case 30 => Row30(b);
    case _ => Row31(b);
  }

  /** `c` followed by `n` zero bits; no two lengths in use are more than four apart. */
  function Widened(c: nat, n: int): nat {
    match n
    case 0 => c
    case 1 => 2 * c
    case 2 => 4 * c
    case 3 => 8 * c
    case _ => 16 * c
  }

  /** The length of the symbol at each rank. */
  function LenAt(r: int): nat {
    if r < 10 then 5
    else if r < 36 then 6
    else if r < 68 then 7
    else if r < 74 then 8
    else if r < 79 then 10
    else if r < 82 then 11
    else if r < 84 then 12
    else if r < 90 then 13
    else if r < 92 then 14
    else if r < 95 then 15
    else if r < 98 then 19
    else if r < 106 then 20
    else if r < 119 then 21
    else if r < 145 then 22
    else if r < 174 then 23
    else if r < 186 then 24
    else if r < 190 then 25
    else if r < 205 then 26
    else if r < 224 then 27
    else if r < 253 then 28
    else 30
  }

  /** The symbol at a rank has that length and the code the rank gives. */
  predicate Placed(r: int) {
    && 0 <= r < 256
    && var a := SymbolAt(r);
       && a < 256 && HuffmanCodeLen(a) == LenAt(r) && HuffmanCode(a) == r - Offset(LenAt(r))
  }

  /** The ranks of the codes of length `n`. */
  lemma BlockOf(n: nat, r: int)
    requires 5 <= n <= 30 && Offset(n) + 2 * Limit(n - 1) <= r < Offset(n) + Limit(n)
    ensures LenAt(r) == n
  {
  }

  ghost function Range(n: nat): (s: set<int>)
    ensures |s| == n && forall k :: k in s <==> 0 <= k < n
  {
    if n == 0 then {} else Range(n - 1) + {n - 1}
  }

  ghost function Symbols(ranks: set<int>): set<int> {
    set r | r in ranks && 0 <= r < 256 :: SymbolAt(r)
  }

  lemma {:induction false} SymbolsSize(ranks: set<int>)
    ensures |Symbols(ranks)| <= |ranks|
    decreases |ranks|
  {
    hide SymbolAt;
    if r :| r in ranks {
      SymbolsSize(ranks - {r});
      assert Symbols(ranks) <= Symbols(ranks - {r}) + if 0 <= r < 256 then {SymbolAt(r)} else {};
      SubsetSize(Symbols(ranks), Symbols(ranks - {r}) + if 0 <= r < 256 then {SymbolAt(r)} else {});
    } else {
      assert Symbols(ranks) == {};
    }
  }

  lemma {:induction false} SubsetSize<T>(x: set<T>, y: set<T>)
    requires x <= y
    ensures |x| <= |y|
    decreases |x|
  {
    if x == {} {
    } else {
      var e :| e in x;
      SubsetSize(x - {e}, y - {e});
    }
  }

  /** All 256 symbols have a rank, so no two ranks have one symbol. */
  lemma RanksDiffer(r: int, t: int)
    requires 0 <= r < 256 && 0 <= t < 256 && r != t
    ensures SymbolAt(r) != SymbolAt(t)
  {
    hide SymbolAt, HuffmanCode, HuffmanCodeLen, Offset, Limit, Range;
    if SymbolAt(r) == SymbolAt(t) {
      var rest := Range(256) - {t};
      forall b | b in Range(256)
        ensures b in Symbols(rest)
      {
        TableIsRanked(b);
        var k := Offset(HuffmanCodeLen(b)) + HuffmanCode(b);
        assert (if k == t then r else k) in rest;
      }
      SubsetSize(Range(256), Symbols(rest));
      SymbolsSize(rest);
      assert false;
    }
  }

  /** Among the symbols of one length, the larger comes later. */
  predicate Rises(r: int) {
    && 0 <= r < 256 && SymbolAt(r) < 256
    && (r < 255 && LenAt(r + 1) == LenAt(r) ==> SymbolAt(r) < SymbolAt(r + 1))
  }

  lemma Rise0(r: int) requires 0 <= r < 16 ensures Rises(r) {}
  lemma Rise1(r: int) requires 16 <= r < 32 ensures Rises(r) {}
  lemma Rise2(r: int) requires 32 <= r < 48 ensures Rises(r) {}
  lemma Rise3(r: int) requires 48 <= r < 64 ensures Rises(r) {}
  lemma Rise4(r: int) requires 64 <= r < 80 ensures Rises(r) {}
  lemma Rise5(r: int) requires 80 <= r < 96 ensures Rises(r) {}
  lemma Rise6(r: int) requires 96 <= r < 112 ensures Rises(r) {}
  lemma Rise7(r: int) requires 112 <= r < 128 ensures Rises(r) {}
  lemma Rise8(r: int) requires 128 <= r < 144 ensures Rises(r) {}
  lemma Rise9(r: int) requires 144 <= r < 160 ensures Rises(r) {}
  lemma Rise10(r: int) requires 160 <= r < 176 ensures Rises(r) {}
  lemma Rise11(r: int) requires 176 <= r < 192 ensures Rises(r) {}
  lemma Rise12(r: int) requires 192 <= r < 208 ensures Rises(r) {}
  lemma Rise13(r: int) requires 208 <= r < 224 ensures Rises(r) {}
  lemma Rise14(r: int) requires 224 <= r < 240 ensures Rises(r) {}
  lemma Rise15(r: int) requires 240 <= r < 256 ensures Rises(r) {}

  lemma SymbolsRise(r: int)
    requires 0 <= r < 256
    ensures Rises(r)
  {
    hide Rises;
    match r / 16
    case 0 => Rise0(r);
    case 1 => Rise1(r);
    case 2 => Rise2(r);
    case 3 => Rise3(r);
    case 4 => Rise4(r);
    case 5 => Rise5(r);
    case 6 => Rise6(r);
    case 7 => Rise7(r);
    case 8 => Rise8(r);
    case 9 => Rise9(r);
    case 10 => Rise10(r);
    case 11 => Rise11(r);
    case 12 => Rise12(r);
    case 13 => Rise13(r);
    case 14 => Rise14(r);
    case _ => Rise15(r);
  }

  lemma RanksArePlaced(r: int)
    requires 0 <= r < 256
    ensures Placed(r)
  {
    hide SymbolAt, HuffmanCode, HuffmanCodeLen, Offset, Limit, LenAt;
    SymbolsRise(r);
    var a := SymbolAt(r);
    TableIsRanked(a);
    var n := HuffmanCodeLen(a);
    var k := Offset(n) + HuffmanCode(a);
    if k != r {
      RanksDiffer(k, r);
    }
    BlockOf(n, r);
  }

  /** The next symbol is longer, or as long and larger; its code is one more, widened to its length. */
  ghost predicate InSequence(r: int) {
    && 0 <= r < 255
    && var a, b := SymbolAt(r), SymbolAt(r + 1);
       && a < 256 && b < 256
       && var m, n := HuffmanCodeLen(a), HuffmanCodeLen(b);
          && (m < n <= m + 4 || (m == n && a < b))
          && HuffmanCode(b) == Widened(HuffmanCode(a) + 1, n - m)
  }

  /** The table is the canonical code of its lengths: in the order of length, then value, the codes
      start at zero and each follows from the one before, ending one short of thirty ones. */
  lemma TableIsCanonical(r: int)
    requires 0 <= r < 255
    ensures InSequence(r)
    ensures Placed(0) && HuffmanCode(SymbolAt(0)) == 0
    ensures Placed(255) && HuffmanCode(SymbolAt(255)) == 0x3fff_fffe
  {
    hide SymbolAt, HuffmanCode, HuffmanCodeLen;
    RanksArePlaced(0);
    RanksArePlaced(255);
    RanksArePlaced(r);
    RanksArePlaced(r + 1);
    SymbolsRise(r);
  }

  /** Each length's block starts where the previous one, extended by a bit, ends. */
  lemma LimitsDouble(n: nat)
    requires 5 <= n <= 30
    ensures 2 * Limit(n - 1) <= Limit(n)
    ensures Limit(30) == 0x3fff_ffff
  {
  }

  /** Length and code identify the symbol. */
  lemma CodesDistinct(a: int, b: int)
    requires 0 <= a < 256 && 0 <= b < 256
    requires HuffmanCodeLen(a) == HuffmanCodeLen(b) && HuffmanCode(a) == HuffmanCode(b)
    ensures a == b
  {
    hide HuffmanCode, HuffmanCodeLen, SymbolAt, Limit, Offset;
    TableIsRanked(a);
    TableIsRanked(b);
  }
}
