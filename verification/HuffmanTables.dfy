/**
 * The Huffman tables of appendix B of RFC 7541 as the source carries them, and the proof that they
 * form a complete canonical code.
 */
module HuffmanTables {
  import opened Bits
  import opened HuffmanCode

  /** The j-th of sixteen array elements. The longer arrays are laid out in rows of that many. */
  function Nth(j: nat, a0: nat, a1: nat, a2: nat, a3: nat, a4: nat, a5: nat, a6: nat, a7: nat,
               a8: nat, a9: nat, a10: nat, a11: nat, a12: nat, a13: nat, a14: nat, a15: nat): nat
  {
    match j
    case 0 => a0 case 1 => a1 case 2 => a2 case 3 => a3
    case 4 => a4 case 5 => a5 case 6 => a6 case 7 => a7
    case 8 => a8 case 9 => a9 case 10 => a10 case 11 => a11
    case 12 => a12 case 13 => a13 case 14 => a14 case _ => a15
  }

  function Code(i: nat): nat {
    match i / 16
    case 0 => Nth(i % 16, 0x1ff8, 0x7fffd8, 0xfffffe2, 0xfffffe3, 0xfffffe4, 0xfffffe5, 0xfffffe6, 0xfffffe7,
                  0xfffffe8, 0xffffea, 0x3ffffffc, 0xfffffe9, 0xfffffea, 0x3ffffffd, 0xfffffeb, 0xfffffec)
    case 1 => Nth(i % 16, 0xfffffed, 0xfffffee, 0xfffffef, 0xffffff0, 0xffffff1, 0xffffff2, 0x3ffffffe, 0xffffff3,
                  0xffffff4, 0xffffff5, 0xffffff6, 0xffffff7, 0xffffff8, 0xffffff9, 0xffffffa, 0xffffffb)
    case 2 => Nth(i % 16, 0x14, 0x3f8, 0x3f9, 0xffa, 0x1ff9, 0x15, 0xf8, 0x7fa,
                  0x3fa, 0x3fb, 0xf9, 0x7fb, 0xfa, 0x16, 0x17, 0x18)
    case 3 => Nth(i % 16, 0x0, 0x1, 0x2, 0x19, 0x1a, 0x1b, 0x1c, 0x1d,
                  0x1e, 0x1f, 0x5c, 0xfb, 0x7ffc, 0x20, 0xffb, 0x3fc)
    case 4 => Nth(i % 16, 0x1ffa, 0x21, 0x5d, 0x5e, 0x5f, 0x60, 0x61, 0x62,
                  0x63, 0x64, 0x65, 0x66, 0x67, 0x68, 0x69, 0x6a)
    case 5 => Nth(i % 16, 0x6b, 0x6c, 0x6d, 0x6e, 0x6f, 0x70, 0x71, 0x72,
                  0xfc, 0x73, 0xfd, 0x1ffb, 0x7fff0, 0x1ffc, 0x3ffc, 0x22)
    case 6 => Nth(i % 16, 0x7ffd, 0x3, 0x23, 0x4, 0x24, 0x5, 0x25, 0x26,
                  0x27, 0x6, 0x74, 0x75, 0x28, 0x29, 0x2a, 0x7)
    case 7 => Nth(i % 16, 0x2b, 0x76, 0x2c, 0x8, 0x9, 0x2d, 0x77, 0x78,
                  0x79, 0x7a, 0x7b, 0x7ffe, 0x7fc, 0x3ffd, 0x1ffd, 0xffffffc)
    case 8 => Nth(i % 16, 0xfffe6, 0x3fffd2, 0xfffe7, 0xfffe8, 0x3fffd3, 0x3fffd4, 0x3fffd5, 0x7fffd9,
                  0x3fffd6, 0x7fffda, 0x7fffdb, 0x7fffdc, 0x7fffdd, 0x7fffde, 0xffffeb, 0x7fffdf)
    case 9 => Nth(i % 16, 0xffffec, 0xffffed, 0x3fffd7, 0x7fffe0, 0xffffee, 0x7fffe1, 0x7fffe2, 0x7fffe3,
                  0x7fffe4, 0x1fffdc, 0x3fffd8, 0x7fffe5, 0x3fffd9, 0x7fffe6, 0x7fffe7, 0xffffef)
    case 10 => Nth(i % 16, 0x3fffda, 0x1fffdd, 0xfffe9, 0x3fffdb, 0x3fffdc, 0x7fffe8, 0x7fffe9, 0x1fffde,
                  0x7fffea, 0x3fffdd, 0x3fffde, 0xfffff0, 0x1fffdf, 0x3fffdf, 0x7fffeb, 0x7fffec)
    case 11 => Nth(i % 16, 0x1fffe0, 0x1fffe1, 0x3fffe0, 0x1fffe2, 0x7fffed, 0x3fffe1, 0x7fffee, 0x7fffef,
                  0xfffea, 0x3fffe2, 0x3fffe3, 0x3fffe4, 0x7ffff0, 0x3fffe5, 0x3fffe6, 0x7ffff1)
    case 12 => Nth(i % 16, 0x3ffffe0, 0x3ffffe1, 0xfffeb, 0x7fff1, 0x3fffe7, 0x7ffff2, 0x3fffe8, 0x1ffffec,
                  0x3ffffe2, 0x3ffffe3, 0x3ffffe4, 0x7ffffde, 0x7ffffdf, 0x3ffffe5, 0xfffff1, 0x1ffffed)
    case 13 => Nth(i % 16, 0x7fff2, 0x1fffe3, 0x3ffffe6, 0x7ffffe0, 0x7ffffe1, 0x3ffffe7, 0x7ffffe2, 0xfffff2,
                  0x1fffe4, 0x1fffe5, 0x3ffffe8, 0x3ffffe9, 0xffffffd, 0x7ffffe3, 0x7ffffe4, 0x7ffffe5)
    case 14 => Nth(i % 16, 0xfffec, 0xfffff3, 0xfffed, 0x1fffe6, 0x3fffe9, 0x1fffe7, 0x1fffe8, 0x7ffff3,
                  0x3fffea, 0x3fffeb, 0x1ffffee, 0x1ffffef, 0xfffff4, 0xfffff5, 0x3ffffea, 0x7ffff4)
    case 15 => Nth(i % 16, 0x3ffffeb, 0x7ffffe6, 0x3ffffec, 0x3ffffed, 0x7ffffe7, 0x7ffffe8, 0x7ffffe9, 0x7ffffea,
                  0x7ffffeb, 0xffffffe, 0x7ffffec, 0x7ffffed, 0x7ffffee, 0x7ffffef, 0x7fffff0, 0x3ffffee)
    case _ => 0x3fffffff
  }

  function Length(i: nat): nat {
    match i / 16
    case 0 => Nth(i % 16, 13, 23, 28, 28, 28, 28, 28, 28, 28, 24, 30, 28, 28, 30, 28, 28)
    case 1 => Nth(i % 16, 28, 28, 28, 28, 28, 28, 30, 28, 28, 28, 28, 28, 28, 28, 28, 28)
    case 2 => Nth(i % 16, 6, 10, 10, 12, 13, 6, 8, 11, 10, 10, 8, 11, 8, 6, 6, 6)
    case 3 => Nth(i % 16, 5, 5, 5, 6, 6, 6, 6, 6, 6, 6, 7, 8, 15, 6, 12, 10)
    case 4 => Nth(i % 16, 13, 6, 7, 7, 7, 7, 7, 7, 7, 7, 7, 7, 7, 7, 7, 7)
    case 5 => Nth(i % 16, 7, 7, 7, 7, 7, 7, 7, 7, 8, 7, 8, 13, 19, 13, 14, 6)
    case 6 => Nth(i % 16, 15, 5, 6, 5, 6, 5, 6, 6, 6, 5, 7, 7, 6, 6, 6, 5)
    case 7 => Nth(i % 16, 6, 7, 6, 5, 5, 6, 7, 7, 7, 7, 7, 15, 11, 14, 13, 28)
    case 8 => Nth(i % 16, 20, 22, 20, 20, 22, 22, 22, 23, 22, 23, 23, 23, 23, 23, 24, 23)
    case 9 => Nth(i % 16, 24, 24, 22, 23, 24, 23, 23, 23, 23, 21, 22, 23, 22, 23, 23, 24)
    case 10 => Nth(i % 16, 22, 21, 20, 22, 22, 23, 23, 21, 23, 22, 22, 24, 21, 22, 23, 23)
    case 11 => Nth(i % 16, 21, 21, 22, 21, 23, 22, 23, 23, 20, 22, 22, 22, 23, 22, 22, 23)
    case 12 => Nth(i % 16, 26, 26, 20, 19, 22, 23, 22, 25, 26, 26, 26, 27, 27, 26, 24, 25)
    case 13 => Nth(i % 16, 19, 21, 26, 27, 27, 26, 27, 24, 21, 21, 26, 26, 28, 27, 27, 27)
    case 14 => Nth(i % 16, 20, 24, 20, 21, 22, 21, 21, 23, 22, 22, 25, 25, 24, 24, 26, 23)
    case 15 => Nth(i % 16, 26, 27, 26, 26, 27, 27, 27, 27, 27, 28, 27, 27, 27, 27, 27, 26)
    case _ => 30
  }

  function Symbol(i: nat): nat {
    match i / 16
    case 0 => Nth(i % 16, 48, 49, 50, 97, 99, 101, 105, 111, 115, 116, 32, 37, 45, 46, 47, 51)
    case 1 => Nth(i % 16, 52, 53, 54, 55, 56, 57, 61, 65, 95, 98, 100, 102, 103, 104, 108, 109)
    case 2 => Nth(i % 16, 110, 112, 114, 117, 58, 66, 67, 68, 69, 70, 71, 72, 73, 74, 75, 76)
    case 3 => Nth(i % 16, 77, 78, 79, 80, 81, 82, 83, 84, 85, 86, 87, 89, 106, 107, 113, 118)
    case 4 => Nth(i % 16, 119, 120, 121, 122, 38, 42, 44, 59, 88, 90, 33, 34, 40, 41, 63, 39)
    case 5 => Nth(i % 16, 43, 124, 35, 62, 0, 36, 64, 91, 93, 126, 94, 125, 60, 96, 123, 92)
    case 6 => Nth(i % 16, 195, 208, 128, 130, 131, 162, 184, 194, 224, 226, 153, 161, 167, 172, 176, 177)
    case 7 => Nth(i % 16, 179, 209, 216, 217, 227, 229, 230, 129, 132, 133, 134, 136, 146, 154, 156, 160)
    case 8 => Nth(i % 16, 163, 164, 169, 170, 173, 178, 181, 185, 186, 187, 189, 190, 196, 198, 228, 232)
    case 9 => Nth(i % 16, 233, 1, 135, 137, 138, 139, 140, 141, 143, 147, 149, 150, 151, 152, 155, 157)
    case 10 => Nth(i % 16, 158, 165, 166, 168, 174, 175, 180, 182, 183, 188, 191, 197, 231, 239, 9, 142)
    case 11 => Nth(i % 16, 144, 145, 148, 159, 171, 206, 215, 225, 236, 237, 199, 207, 234, 235, 192, 193)
    case 12 => Nth(i % 16, 200, 201, 202, 205, 210, 213, 218, 219, 238, 240, 242, 243, 255, 203, 204, 211)
    case 13 => Nth(i % 16, 212, 214, 221, 222, 223, 241, 244, 245, 246, 247, 248, 250, 251, 252, 253, 254)
    case 14 => Nth(i % 16, 2, 3, 4, 5, 6, 7, 8, 11, 12, 14, 15, 16, 17, 18, 19, 20)
    case 15 => Nth(i % 16, 21, 23, 24, 25, 26, 27, 28, 29, 30, 31, 127, 220, 249, 10, 13, 22)
    case _ => 256
  }

  function Count(i: nat): nat {
    match i / 16
    case 0 => Nth(i % 16, 0, 0, 0, 0, 0, 10, 26, 32, 6, 0, 5, 3, 2, 6, 2, 3)
    case _ => Nth(i % 16, 0, 0, 0, 3, 8, 13, 26, 29, 12, 4, 15, 19, 29, 0, 4, 0)
  }

  function FirstCode(i: nat): nat {
    match i / 16
    case 0 => Nth(i % 16, 0x0, 0x0, 0x0, 0x0, 0x0, 0x0, 0x14, 0x5c,
                  0xf8, 0x0, 0x3f8, 0x7fa, 0xffa, 0x1ff8, 0x3ffc, 0x7ffc)
    case _ => Nth(i % 16, 0x0, 0x0, 0x0, 0x7fff0, 0xfffe6, 0x1fffdc, 0x3fffd2, 0x7fffd8,
                  0xffffea, 0x1ffffec, 0x3ffffe0, 0x7ffffde, 0xfffffe2, 0x0, 0x3ffffffc, 0)
  }

  function FirstIndex(i: nat): nat {
    match i / 16
    case 0 => Nth(i % 16, 0, 0, 0, 0, 0, 0, 10, 36, 68, 74, 74, 79, 82, 84, 90, 92)
    case _ => Nth(i % 16, 95, 95, 95, 95, 98, 106, 119, 145, 174, 186, 190, 205, 224, 253, 253, 0)
  }

  function Tabulate(n: nat, f: nat -> nat): (r: seq<nat>)
    ensures |r| == n && forall i :: 0 <= i < n ==> r[i] == f(i)
  {
    seq(n, i requires 0 <= i => f(i))
  }

  const RFC7541 := Tables(
    Tabulate(SYMBOL_COUNT, Length),
    Tabulate(SYMBOL_COUNT, Code),
    Tabulate(SYMBOL_COUNT, Symbol),
    Tabulate(MAX_BITS + 1, Count),
    Tabulate(MAX_BITS + 1, FirstCode),
    Tabulate(MAX_BITS + 1, FirstIndex))

  /** The symbol s is the i-th in canonical order and has length l and a code d above its position. */
  ghost predicate At(t: Tables, l: nat, d: nat, i: nat, s: nat)
    requires Shaped(t)
  {
    && i < SYMBOL_COUNT && s < SYMBOL_COUNT
    && t.symbols[i] == s && t.lengths[s] == l && t.codes[s] == d + i
  }

  /** Four symbols in a row. */
  ghost predicate Four(t: Tables, l: nat, d: nat, i: nat, a: nat, b: nat, c: nat, e: nat)
    requires Shaped(t)
  {
    At(t, l, d, i, a) && At(t, l, d, i + 1, b) && At(t, l, d, i + 2, c) && At(t, l, d, i + 3, e)
  }

  /** What is asked of the position i among the symbols of length l. */
  ghost predicate Placed(t: Tables, l: nat, d: nat, i: nat)
    requires Shaped(t)
  {
    && i < SYMBOL_COUNT && t.symbols[i] < SYMBOL_COUNT
    && t.lengths[t.symbols[i]] == l && t.codes[t.symbols[i]] == d + i
  }

  /** The same for all the positions from lo on and below hi. */
  ghost predicate Run(t: Tables, l: nat, d: nat, lo: nat, hi: nat)
    requires Shaped(t)
  {
    forall i :: lo <= i < hi ==> Placed(t, l, d, i)
  }

  lemma OneRun(t: Tables, l: nat, d: nat, i: nat, s: nat)
    requires Shaped(t) && At(t, l, d, i, s)
    ensures Run(t, l, d, i, i + 1)
  {
  }

  lemma RunJoin(t: Tables, l: nat, d: nat, lo: nat, mid: nat, hi: nat)
    requires Shaped(t) && Run(t, l, d, lo, mid) && Run(t, l, d, mid, hi)
    ensures Run(t, l, d, lo, hi)
  {
  }

  lemma FourRun(t: Tables, l: nat, d: nat, i: nat, a: nat, b: nat, c: nat, e: nat)
    requires Shaped(t) && Four(t, l, d, i, a, b, c, e)
    ensures Run(t, l, d, i, i + 4)
  {
    OneRun(t, l, d, i, a);
    OneRun(t, l, d, i + 1, b);
    OneRun(t, l, d, i + 2, c);
    OneRun(t, l, d, i + 3, e);
  }

  // ---- The canonical order, spelt out so that each array is read at a known place ------------

  ghost predicate Part1(t: Tables)
    requires Shaped(t)
  {
    && Four(t, 5, 0x0, 0, 48, 49, 50, 97) && Four(t, 5, 0x0, 4, 99, 101, 105, 111)
    && At(t, 5, 0x0, 8, 115) && At(t, 5, 0x0, 9, 116)
  }

  lemma RfcPart1()
    ensures Part1(RFC7541)
  {
  }

  lemma RunPart1(t: Tables)
    requires Shaped(t) && Part1(t)
    ensures Run(t, 5, 0x0, 0, 10)
  {
    hide Four;
    hide At;
    hide Run;
    FourRun(t, 5, 0x0, 0, 48, 49, 50, 97); FourRun(t, 5, 0x0, 4, 99, 101, 105, 111);
    RunJoin(t, 5, 0x0, 0, 4, 8); OneRun(t, 5, 0x0, 8, 115);
    RunJoin(t, 5, 0x0, 0, 8, 9); OneRun(t, 5, 0x0, 9, 116);
    RunJoin(t, 5, 0x0, 0, 9, 10);
  }

  ghost predicate Part2(t: Tables)
    requires Shaped(t)
  {
    && Four(t, 6, 0xa, 10, 32, 37, 45, 46) && Four(t, 6, 0xa, 14, 47, 51, 52, 53)
    && Four(t, 6, 0xa, 18, 54, 55, 56, 57) && At(t, 6, 0xa, 22, 61)
  }

  lemma RfcPart2()
    ensures Part2(RFC7541)
  {
  }

  lemma RunPart2(t: Tables)
    requires Shaped(t) && Part2(t)
    ensures Run(t, 6, 0xa, 10, 23)
  {
    hide Four;
    hide At;
    hide Run;
    FourRun(t, 6, 0xa, 10, 32, 37, 45, 46); FourRun(t, 6, 0xa, 14, 47, 51, 52, 53);
    RunJoin(t, 6, 0xa, 10, 14, 18); FourRun(t, 6, 0xa, 18, 54, 55, 56, 57);
    RunJoin(t, 6, 0xa, 10, 18, 22); OneRun(t, 6, 0xa, 22, 61);
    RunJoin(t, 6, 0xa, 10, 22, 23);
  }

  ghost predicate Part3(t: Tables)
    requires Shaped(t)
  {
    && Four(t, 6, 0xa, 23, 65, 95, 98, 100) && Four(t, 6, 0xa, 27, 102, 103, 104, 108)
    && Four(t, 6, 0xa, 31, 109, 110, 112, 114) && At(t, 6, 0xa, 35, 117)
  }

  lemma RfcPart3()
    ensures Part3(RFC7541)
  {
  }

  lemma RunPart3(t: Tables)
    requires Shaped(t) && Part3(t)
    ensures Run(t, 6, 0xa, 23, 36)
  {
    hide Four;
    hide At;
    hide Run;
    FourRun(t, 6, 0xa, 23, 65, 95, 98, 100); FourRun(t, 6, 0xa, 27, 102, 103, 104, 108);
    RunJoin(t, 6, 0xa, 23, 27, 31); FourRun(t, 6, 0xa, 31, 109, 110, 112, 114);
    RunJoin(t, 6, 0xa, 23, 31, 35); OneRun(t, 6, 0xa, 35, 117);
    RunJoin(t, 6, 0xa, 23, 35, 36);
  }

  ghost predicate Part4(t: Tables)
    requires Shaped(t)
  {
    && Four(t, 7, 0x38, 36, 58, 66, 67, 68) && Four(t, 7, 0x38, 40, 69, 70, 71, 72)
    && Four(t, 7, 0x38, 44, 73, 74, 75, 76) && Four(t, 7, 0x38, 48, 77, 78, 79, 80)
  }

  lemma RfcPart4()
    ensures Part4(RFC7541)
  {
  }

  lemma RunPart4(t: Tables)
    requires Shaped(t) && Part4(t)
    ensures Run(t, 7, 0x38, 36, 52)
  {
    hide Four;
    hide At;
    hide Run;
    FourRun(t, 7, 0x38, 36, 58, 66, 67, 68); FourRun(t, 7, 0x38, 40, 69, 70, 71, 72);
    RunJoin(t, 7, 0x38, 36, 40, 44); FourRun(t, 7, 0x38, 44, 73, 74, 75, 76);
    RunJoin(t, 7, 0x38, 36, 44, 48); FourRun(t, 7, 0x38, 48, 77, 78, 79, 80);
    RunJoin(t, 7, 0x38, 36, 48, 52);
  }

  ghost predicate Part5(t: Tables)
    requires Shaped(t)
  {
    && Four(t, 7, 0x38, 52, 81, 82, 83, 84) && Four(t, 7, 0x38, 56, 85, 86, 87, 89)
    && Four(t, 7, 0x38, 60, 106, 107, 113, 118) && Four(t, 7, 0x38, 64, 119, 120, 121, 122)
  }

  lemma RfcPart5()
    ensures Part5(RFC7541)
  {
  }

  lemma RunPart5(t: Tables)
    requires Shaped(t) && Part5(t)
    ensures Run(t, 7, 0x38, 52, 68)
  {
    hide Four;
    hide At;
    hide Run;
    FourRun(t, 7, 0x38, 52, 81, 82, 83, 84); FourRun(t, 7, 0x38, 56, 85, 86, 87, 89);
    RunJoin(t, 7, 0x38, 52, 56, 60); FourRun(t, 7, 0x38, 60, 106, 107, 113, 118);
    RunJoin(t, 7, 0x38, 52, 60, 64); FourRun(t, 7, 0x38, 64, 119, 120, 121, 122);
    RunJoin(t, 7, 0x38, 52, 64, 68);
  }

  ghost predicate Part6(t: Tables)
    requires Shaped(t)
  {
    && Four(t, 8, 0xb4, 68, 38, 42, 44, 59) && At(t, 8, 0xb4, 72, 88)
    && At(t, 8, 0xb4, 73, 90) && Four(t, 10, 0x3ae, 74, 33, 34, 40, 41)
    && At(t, 10, 0x3ae, 78, 63) && At(t, 11, 0x7ab, 79, 39)
    && At(t, 11, 0x7ab, 80, 43) && At(t, 11, 0x7ab, 81, 124)
    && At(t, 12, 0xfa8, 82, 35) && At(t, 12, 0xfa8, 83, 62)
  }

  lemma RfcPart6()
    ensures Part6(RFC7541)
  {
  }

  lemma RunPart6(t: Tables)
    requires Shaped(t) && Part6(t)
    ensures Run(t, 8, 0xb4, 68, 74)
    ensures Run(t, 10, 0x3ae, 74, 79)
    ensures Run(t, 11, 0x7ab, 79, 82)
    ensures Run(t, 12, 0xfa8, 82, 84)
  {
    hide Four;
    hide At;
    hide Run;
    FourRun(t, 8, 0xb4, 68, 38, 42, 44, 59); OneRun(t, 8, 0xb4, 72, 88);
    RunJoin(t, 8, 0xb4, 68, 72, 73); OneRun(t, 8, 0xb4, 73, 90);
    RunJoin(t, 8, 0xb4, 68, 73, 74); FourRun(t, 10, 0x3ae, 74, 33, 34, 40, 41);
    OneRun(t, 10, 0x3ae, 78, 63); RunJoin(t, 10, 0x3ae, 74, 78, 79);
    OneRun(t, 11, 0x7ab, 79, 39); OneRun(t, 11, 0x7ab, 80, 43);
    RunJoin(t, 11, 0x7ab, 79, 80, 81); OneRun(t, 11, 0x7ab, 81, 124);
    RunJoin(t, 11, 0x7ab, 79, 81, 82); OneRun(t, 12, 0xfa8, 82, 35);
    OneRun(t, 12, 0xfa8, 83, 62); RunJoin(t, 12, 0xfa8, 82, 83, 84);
  }

  ghost predicate Part7(t: Tables)
    requires Shaped(t)
  {
    && Four(t, 13, 0x1fa4, 84, 0, 36, 64, 91) && At(t, 13, 0x1fa4, 88, 93)
    && At(t, 13, 0x1fa4, 89, 126) && At(t, 14, 0x3fa2, 90, 94)
    && At(t, 14, 0x3fa2, 91, 125) && At(t, 15, 0x7fa0, 92, 60)
    && At(t, 15, 0x7fa0, 93, 96) && At(t, 15, 0x7fa0, 94, 123)
    && At(t, 19, 0x7ff91, 95, 92) && At(t, 19, 0x7ff91, 96, 195)
    && At(t, 19, 0x7ff91, 97, 208)
  }

  lemma RfcPart7()
    ensures Part7(RFC7541)
  {
  }

  lemma RunPart7(t: Tables)
    requires Shaped(t) && Part7(t)
    ensures Run(t, 13, 0x1fa4, 84, 90)
    ensures Run(t, 14, 0x3fa2, 90, 92)
    ensures Run(t, 15, 0x7fa0, 92, 95)
    ensures Run(t, 19, 0x7ff91, 95, 98)
  {
    hide Four;
    hide At;
    hide Run;
    FourRun(t, 13, 0x1fa4, 84, 0, 36, 64, 91); OneRun(t, 13, 0x1fa4, 88, 93);
    RunJoin(t, 13, 0x1fa4, 84, 88, 89); OneRun(t, 13, 0x1fa4, 89, 126);
    RunJoin(t, 13, 0x1fa4, 84, 89, 90); OneRun(t, 14, 0x3fa2, 90, 94);
    OneRun(t, 14, 0x3fa2, 91, 125); RunJoin(t, 14, 0x3fa2, 90, 91, 92);
    OneRun(t, 15, 0x7fa0, 92, 60); OneRun(t, 15, 0x7fa0, 93, 96);
    RunJoin(t, 15, 0x7fa0, 92, 93, 94); OneRun(t, 15, 0x7fa0, 94, 123);
    RunJoin(t, 15, 0x7fa0, 92, 94, 95); OneRun(t, 19, 0x7ff91, 95, 92);
    OneRun(t, 19, 0x7ff91, 96, 195); RunJoin(t, 19, 0x7ff91, 95, 96, 97);
    OneRun(t, 19, 0x7ff91, 97, 208); RunJoin(t, 19, 0x7ff91, 95, 97, 98);
  }

  ghost predicate Part8(t: Tables)
    requires Shaped(t)
  {
    && Four(t, 20, 0xfff84, 98, 128, 130, 131, 162) && Four(t, 20, 0xfff84, 102, 184, 194, 224, 226)
  }

  lemma RfcPart8()
    ensures Part8(RFC7541)
  {
  }

  lemma RunPart8(t: Tables)
    requires Shaped(t) && Part8(t)
    ensures Run(t, 20, 0xfff84, 98, 106)
  {
    hide Four;
    hide At;
    hide Run;
    FourRun(t, 20, 0xfff84, 98, 128, 130, 131, 162); FourRun(t, 20, 0xfff84, 102, 184, 194, 224, 226);
    RunJoin(t, 20, 0xfff84, 98, 102, 106);
  }

  ghost predicate Part9(t: Tables)
    requires Shaped(t)
  {
    && Four(t, 21, 0x1fff72, 106, 153, 161, 167, 172) && Four(t, 21, 0x1fff72, 110, 176, 177, 179, 209)
    && Four(t, 21, 0x1fff72, 114, 216, 217, 227, 229) && At(t, 21, 0x1fff72, 118, 230)
  }

  lemma RfcPart9()
    ensures Part9(RFC7541)
  {
  }

  lemma RunPart9(t: Tables)
    requires Shaped(t) && Part9(t)
    ensures Run(t, 21, 0x1fff72, 106, 119)
  {
    hide Four;
    hide At;
    hide Run;
    FourRun(t, 21, 0x1fff72, 106, 153, 161, 167, 172); FourRun(t, 21, 0x1fff72, 110, 176, 177, 179, 209);
    RunJoin(t, 21, 0x1fff72, 106, 110, 114); FourRun(t, 21, 0x1fff72, 114, 216, 217, 227, 229);
    RunJoin(t, 21, 0x1fff72, 106, 114, 118); OneRun(t, 21, 0x1fff72, 118, 230);
    RunJoin(t, 21, 0x1fff72, 106, 118, 119);
  }

  ghost predicate Part10(t: Tables)
    requires Shaped(t)
  {
    && Four(t, 22, 0x3fff5b, 119, 129, 132, 133, 134) && Four(t, 22, 0x3fff5b, 123, 136, 146, 154, 156)
    && Four(t, 22, 0x3fff5b, 127, 160, 163, 164, 169) && At(t, 22, 0x3fff5b, 131, 170)
  }

  lemma RfcPart10()
    ensures Part10(RFC7541)
  {
  }

  lemma RunPart10(t: Tables)
    requires Shaped(t) && Part10(t)
    ensures Run(t, 22, 0x3fff5b, 119, 132)
  {
    hide Four;
    hide At;
    hide Run;
    FourRun(t, 22, 0x3fff5b, 119, 129, 132, 133, 134); FourRun(t, 22, 0x3fff5b, 123, 136, 146, 154, 156);
    RunJoin(t, 22, 0x3fff5b, 119, 123, 127); FourRun(t, 22, 0x3fff5b, 127, 160, 163, 164, 169);
    RunJoin(t, 22, 0x3fff5b, 119, 127, 131); OneRun(t, 22, 0x3fff5b, 131, 170);
    RunJoin(t, 22, 0x3fff5b, 119, 131, 132);
  }

  ghost predicate Part11(t: Tables)
    requires Shaped(t)
  {
    && Four(t, 22, 0x3fff5b, 132, 173, 178, 181, 185) && Four(t, 22, 0x3fff5b, 136, 186, 187, 189, 190)
    && Four(t, 22, 0x3fff5b, 140, 196, 198, 228, 232) && At(t, 22, 0x3fff5b, 144, 233)
  }

  lemma RfcPart11()
    ensures Part11(RFC7541)
  {
  }

  lemma RunPart11(t: Tables)
    requires Shaped(t) && Part11(t)
    ensures Run(t, 22, 0x3fff5b, 132, 145)
  {
    hide Four;
    hide At;
    hide Run;
    FourRun(t, 22, 0x3fff5b, 132, 173, 178, 181, 185); FourRun(t, 22, 0x3fff5b, 136, 186, 187, 189, 190);
    RunJoin(t, 22, 0x3fff5b, 132, 136, 140); FourRun(t, 22, 0x3fff5b, 140, 196, 198, 228, 232);
    RunJoin(t, 22, 0x3fff5b, 132, 140, 144); OneRun(t, 22, 0x3fff5b, 144, 233);
    RunJoin(t, 22, 0x3fff5b, 132, 144, 145);
  }

  ghost predicate Part12(t: Tables)
    requires Shaped(t)
  {
    && Four(t, 23, 0x7fff47, 145, 1, 135, 137, 138) && Four(t, 23, 0x7fff47, 149, 139, 140, 141, 143)
    && Four(t, 23, 0x7fff47, 153, 147, 149, 150, 151) && At(t, 23, 0x7fff47, 157, 152)
    && At(t, 23, 0x7fff47, 158, 155)
  }

  lemma RfcPart12()
    ensures Part12(RFC7541)
  {
  }

  lemma RunPart12(t: Tables)
    requires Shaped(t) && Part12(t)
    ensures Run(t, 23, 0x7fff47, 145, 159)
  {
    hide Four;
    hide At;
    hide Run;
    FourRun(t, 23, 0x7fff47, 145, 1, 135, 137, 138); FourRun(t, 23, 0x7fff47, 149, 139, 140, 141, 143);
    RunJoin(t, 23, 0x7fff47, 145, 149, 153); FourRun(t, 23, 0x7fff47, 153, 147, 149, 150, 151);
    RunJoin(t, 23, 0x7fff47, 145, 153, 157); OneRun(t, 23, 0x7fff47, 157, 152);
    RunJoin(t, 23, 0x7fff47, 145, 157, 158); OneRun(t, 23, 0x7fff47, 158, 155);
    RunJoin(t, 23, 0x7fff47, 145, 158, 159);
  }

  ghost predicate Part13(t: Tables)
    requires Shaped(t)
  {
    && Four(t, 23, 0x7fff47, 159, 157, 158, 165, 166) && Four(t, 23, 0x7fff47, 163, 168, 174, 175, 180)
    && Four(t, 23, 0x7fff47, 167, 182, 183, 188, 191) && At(t, 23, 0x7fff47, 171, 197)
    && At(t, 23, 0x7fff47, 172, 231) && At(t, 23, 0x7fff47, 173, 239)
  }

  lemma RfcPart13()
    ensures Part13(RFC7541)
  {
  }

  lemma RunPart13(t: Tables)
    requires Shaped(t) && Part13(t)
    ensures Run(t, 23, 0x7fff47, 159, 174)
  {
    hide Four;
    hide At;
    hide Run;
    FourRun(t, 23, 0x7fff47, 159, 157, 158, 165, 166); FourRun(t, 23, 0x7fff47, 163, 168, 174, 175, 180);
    RunJoin(t, 23, 0x7fff47, 159, 163, 167); FourRun(t, 23, 0x7fff47, 167, 182, 183, 188, 191);
    RunJoin(t, 23, 0x7fff47, 159, 167, 171); OneRun(t, 23, 0x7fff47, 171, 197);
    RunJoin(t, 23, 0x7fff47, 159, 171, 172); OneRun(t, 23, 0x7fff47, 172, 231);
    RunJoin(t, 23, 0x7fff47, 159, 172, 173); OneRun(t, 23, 0x7fff47, 173, 239);
    RunJoin(t, 23, 0x7fff47, 159, 173, 174);
  }

  ghost predicate Part14(t: Tables)
    requires Shaped(t)
  {
    && Four(t, 24, 0xffff3c, 174, 9, 142, 144, 145) && Four(t, 24, 0xffff3c, 178, 148, 159, 171, 206)
    && Four(t, 24, 0xffff3c, 182, 215, 225, 236, 237) && Four(t, 25, 0x1ffff32, 186, 199, 207, 234, 235)
  }

  lemma RfcPart14()
    ensures Part14(RFC7541)
  {
  }

  lemma RunPart14(t: Tables)
    requires Shaped(t) && Part14(t)
    ensures Run(t, 24, 0xffff3c, 174, 186)
    ensures Run(t, 25, 0x1ffff32, 186, 190)
  {
    hide Four;
    hide At;
    hide Run;
    FourRun(t, 24, 0xffff3c, 174, 9, 142, 144, 145); FourRun(t, 24, 0xffff3c, 178, 148, 159, 171, 206);
    RunJoin(t, 24, 0xffff3c, 174, 178, 182); FourRun(t, 24, 0xffff3c, 182, 215, 225, 236, 237);
    RunJoin(t, 24, 0xffff3c, 174, 182, 186); FourRun(t, 25, 0x1ffff32, 186, 199, 207, 234, 235);
  }

  ghost predicate Part15(t: Tables)
    requires Shaped(t)
  {
    && Four(t, 26, 0x3ffff22, 190, 192, 193, 200, 201) && Four(t, 26, 0x3ffff22, 194, 202, 205, 210, 213)
    && Four(t, 26, 0x3ffff22, 198, 218, 219, 238, 240) && At(t, 26, 0x3ffff22, 202, 242)
    && At(t, 26, 0x3ffff22, 203, 243) && At(t, 26, 0x3ffff22, 204, 255)
  }

  lemma RfcPart15()
    ensures Part15(RFC7541)
  {
  }

  lemma RunPart15(t: Tables)
    requires Shaped(t) && Part15(t)
    ensures Run(t, 26, 0x3ffff22, 190, 205)
  {
    hide Four;
    hide At;
    hide Run;
    FourRun(t, 26, 0x3ffff22, 190, 192, 193, 200, 201); FourRun(t, 26, 0x3ffff22, 194, 202, 205, 210, 213);
    RunJoin(t, 26, 0x3ffff22, 190, 194, 198); FourRun(t, 26, 0x3ffff22, 198, 218, 219, 238, 240);
    RunJoin(t, 26, 0x3ffff22, 190, 198, 202); OneRun(t, 26, 0x3ffff22, 202, 242);
    RunJoin(t, 26, 0x3ffff22, 190, 202, 203); OneRun(t, 26, 0x3ffff22, 203, 243);
    RunJoin(t, 26, 0x3ffff22, 190, 203, 204); OneRun(t, 26, 0x3ffff22, 204, 255);
    RunJoin(t, 26, 0x3ffff22, 190, 204, 205);
  }

  ghost predicate Part16(t: Tables)
    requires Shaped(t)
  {
    && Four(t, 27, 0x7ffff11, 205, 203, 204, 211, 212) && Four(t, 27, 0x7ffff11, 209, 214, 221, 222, 223)
    && At(t, 27, 0x7ffff11, 213, 241)
  }

  lemma RfcPart16()
    ensures Part16(RFC7541)
  {
  }

  lemma RunPart16(t: Tables)
    requires Shaped(t) && Part16(t)
    ensures Run(t, 27, 0x7ffff11, 205, 214)
  {
    hide Four;
    hide At;
    hide Run;
    FourRun(t, 27, 0x7ffff11, 205, 203, 204, 211, 212); FourRun(t, 27, 0x7ffff11, 209, 214, 221, 222, 223);
    RunJoin(t, 27, 0x7ffff11, 205, 209, 213); OneRun(t, 27, 0x7ffff11, 213, 241);
    RunJoin(t, 27, 0x7ffff11, 205, 213, 214);
  }

  ghost predicate Part17(t: Tables)
    requires Shaped(t)
  {
    && Four(t, 27, 0x7ffff11, 214, 244, 245, 246, 247) && Four(t, 27, 0x7ffff11, 218, 248, 250, 251, 252)
    && At(t, 27, 0x7ffff11, 222, 253) && At(t, 27, 0x7ffff11, 223, 254)
  }

  lemma RfcPart17()
    ensures Part17(RFC7541)
  {
  }

  lemma RunPart17(t: Tables)
    requires Shaped(t) && Part17(t)
    ensures Run(t, 27, 0x7ffff11, 214, 224)
  {
    hide Four;
    hide At;
    hide Run;
    FourRun(t, 27, 0x7ffff11, 214, 244, 245, 246, 247); FourRun(t, 27, 0x7ffff11, 218, 248, 250, 251, 252);
    RunJoin(t, 27, 0x7ffff11, 214, 218, 222); OneRun(t, 27, 0x7ffff11, 222, 253);
    RunJoin(t, 27, 0x7ffff11, 214, 222, 223); OneRun(t, 27, 0x7ffff11, 223, 254);
    RunJoin(t, 27, 0x7ffff11, 214, 223, 224);
  }

  ghost predicate Part18(t: Tables)
    requires Shaped(t)
  {
    && Four(t, 28, 0xfffff02, 224, 2, 3, 4, 5) && Four(t, 28, 0xfffff02, 228, 6, 7, 8, 11)
    && Four(t, 28, 0xfffff02, 232, 12, 14, 15, 16) && At(t, 28, 0xfffff02, 236, 17)
    && At(t, 28, 0xfffff02, 237, 18)
  }

  lemma RfcPart18()
    ensures Part18(RFC7541)
  {
  }

  lemma RunPart18(t: Tables)
    requires Shaped(t) && Part18(t)
    ensures Run(t, 28, 0xfffff02, 224, 238)
  {
    hide Four;
    hide At;
    hide Run;
    FourRun(t, 28, 0xfffff02, 224, 2, 3, 4, 5); FourRun(t, 28, 0xfffff02, 228, 6, 7, 8, 11);
    RunJoin(t, 28, 0xfffff02, 224, 228, 232); FourRun(t, 28, 0xfffff02, 232, 12, 14, 15, 16);
    RunJoin(t, 28, 0xfffff02, 224, 232, 236); OneRun(t, 28, 0xfffff02, 236, 17);
    RunJoin(t, 28, 0xfffff02, 224, 236, 237); OneRun(t, 28, 0xfffff02, 237, 18);
    RunJoin(t, 28, 0xfffff02, 224, 237, 238);
  }

  ghost predicate Part19(t: Tables)
    requires Shaped(t)
  {
    && Four(t, 28, 0xfffff02, 238, 19, 20, 21, 23) && Four(t, 28, 0xfffff02, 242, 24, 25, 26, 27)
    && Four(t, 28, 0xfffff02, 246, 28, 29, 30, 31) && At(t, 28, 0xfffff02, 250, 127)
    && At(t, 28, 0xfffff02, 251, 220) && At(t, 28, 0xfffff02, 252, 249)
  }

  lemma RfcPart19()
    ensures Part19(RFC7541)
  {
  }

  lemma RunPart19(t: Tables)
    requires Shaped(t) && Part19(t)
    ensures Run(t, 28, 0xfffff02, 238, 253)
  {
    hide Four;
    hide At;
    hide Run;
    FourRun(t, 28, 0xfffff02, 238, 19, 20, 21, 23); FourRun(t, 28, 0xfffff02, 242, 24, 25, 26, 27);
    RunJoin(t, 28, 0xfffff02, 238, 242, 246); FourRun(t, 28, 0xfffff02, 246, 28, 29, 30, 31);
    RunJoin(t, 28, 0xfffff02, 238, 246, 250); OneRun(t, 28, 0xfffff02, 250, 127);
    RunJoin(t, 28, 0xfffff02, 238, 250, 251); OneRun(t, 28, 0xfffff02, 251, 220);
    RunJoin(t, 28, 0xfffff02, 238, 251, 252); OneRun(t, 28, 0xfffff02, 252, 249);
    RunJoin(t, 28, 0xfffff02, 238, 252, 253);
  }

  ghost predicate Part20(t: Tables)
    requires Shaped(t)
  {
    && Four(t, 30, 0x3ffffeff, 253, 10, 13, 22, 256)
  }

  lemma RfcPart20()
    ensures Part20(RFC7541)
  {
  }

  lemma RunPart20(t: Tables)
    requires Shaped(t) && Part20(t)
    ensures Run(t, 30, 0x3ffffeff, 253, 257)
  {
    hide Four;
    hide At;
    hide Run;
    FourRun(t, 30, 0x3ffffeff, 253, 10, 13, 22, 256);
  }

  // ---- Putting the parts together --------------------------------------------------------------

  ghost predicate Spelt(t: Tables)
    requires Shaped(t)
  {
    && Part1(t) && Part2(t) && Part3(t) && Part4(t) && Part5(t) && Part6(t)
    && Part7(t) && Part8(t) && Part9(t) && Part10(t) && Part11(t) && Part12(t)
    && Part13(t) && Part14(t) && Part15(t) && Part16(t) && Part17(t) && Part18(t)
    && Part19(t) && Part20(t)
  }

  ghost predicate Counted(t: Tables) {
    Shaped(t) && forall l :: 0 <= l <= MAX_BITS ==>
      t.counts[l] == Count(l) && t.firstCode[l] == FirstCode(l) && t.firstIndex[l] == FirstIndex(l)
  }

  /** The run of length l as the decoding tables delimit it. */
  ghost predicate Tabled(t: Tables, l: nat)
    requires Shaped(t)
  {
    && FirstIndex(l) <= FirstCode(l)
    && Run(t, l, FirstCode(l) - FirstIndex(l), FirstIndex(l), FirstIndex(l) + Count(l))
  }

  lemma TabledShort(t: Tables)
    requires Shaped(t) && Spelt(t)
    ensures Tabled(t, 5)
    ensures Tabled(t, 6)
    ensures Tabled(t, 7)
  {
    RunPart1(t); RunPart2(t); RunPart3(t); RunPart4(t); RunPart5(t);
  }

  lemma TabledMiddle(t: Tables)
    requires Shaped(t) && Spelt(t)
    ensures Tabled(t, 8)
    ensures Tabled(t, 10)
    ensures Tabled(t, 11)
    ensures Tabled(t, 12)
    ensures Tabled(t, 13)
    ensures Tabled(t, 14)
    ensures Tabled(t, 15)
    ensures Tabled(t, 19)
    ensures Tabled(t, 20)
    ensures Tabled(t, 21)
  {
    RunPart6(t); RunPart7(t); RunPart8(t); RunPart9(t);
  }

  lemma TabledLong(t: Tables)
    requires Shaped(t) && Spelt(t)
    ensures Tabled(t, 22)
    ensures Tabled(t, 23)
    ensures Tabled(t, 24)
    ensures Tabled(t, 25)
    ensures Tabled(t, 26)
  {
    RunPart10(t); RunPart11(t); RunPart12(t); RunPart13(t); RunPart14(t); RunPart15(t);
  }

  lemma TabledLongest(t: Tables)
    requires Shaped(t) && Spelt(t)
    ensures Tabled(t, 27)
    ensures Tabled(t, 28)
    ensures Tabled(t, 30)
  {
    RunPart16(t); RunPart17(t); RunPart18(t); RunPart19(t); RunPart20(t);
  }

  /** The recurrence of the canonical code, length by length. */
  lemma FirstCodes(t: Tables)
    requires Counted(t)
    ensures First(t, 0) == 0x0 && First(t, 1) == 0x0 && First(t, 2) == 0x0 && First(t, 3) == 0x0
    ensures First(t, 4) == 0x0 && First(t, 5) == 0x0 && First(t, 6) == 0x14 && First(t, 7) == 0x5c
    ensures First(t, 8) == 0xf8 && First(t, 9) == 0x1fc && First(t, 10) == 0x3f8 && First(t, 11) == 0x7fa
    ensures First(t, 12) == 0xffa && First(t, 13) == 0x1ff8 && First(t, 14) == 0x3ffc && First(t, 15) == 0x7ffc
    ensures First(t, 16) == 0xfffe && First(t, 17) == 0x1fffc && First(t, 18) == 0x3fff8 && First(t, 19) == 0x7fff0
    ensures First(t, 20) == 0xfffe6 && First(t, 21) == 0x1fffdc && First(t, 22) == 0x3fffd2 && First(t, 23) == 0x7fffd8
    ensures First(t, 24) == 0xffffea && First(t, 25) == 0x1ffffec && First(t, 26) == 0x3ffffe0 && First(t, 27) == 0x7ffffde
    ensures First(t, 28) == 0xfffffe2 && First(t, 29) == 0x1ffffffe && First(t, 30) == 0x3ffffffc
  {
  }

  /** How many symbols have shorter codes. */
  ghost function Shorter(t: Tables, l: nat): nat
    requires Shaped(t) && l <= MAX_BITS
  {
    if l == 0 then 0 else Shorter(t, l - 1) + t.counts[l - 1]
  }

  lemma FirstIndexes(t: Tables)
    requires Counted(t)
    ensures Shorter(t, 0) == 0 && Shorter(t, 1) == 0 && Shorter(t, 2) == 0 && Shorter(t, 3) == 0
    ensures Shorter(t, 4) == 0 && Shorter(t, 5) == 0 && Shorter(t, 6) == 10 && Shorter(t, 7) == 36
    ensures Shorter(t, 8) == 68 && Shorter(t, 9) == 74 && Shorter(t, 10) == 74 && Shorter(t, 11) == 79
    ensures Shorter(t, 12) == 82 && Shorter(t, 13) == 84 && Shorter(t, 14) == 90 && Shorter(t, 15) == 92
    ensures Shorter(t, 16) == 95 && Shorter(t, 17) == 95 && Shorter(t, 18) == 95 && Shorter(t, 19) == 95
    ensures Shorter(t, 20) == 98 && Shorter(t, 21) == 106 && Shorter(t, 22) == 119 && Shorter(t, 23) == 145
    ensures Shorter(t, 24) == 174 && Shorter(t, 25) == 186 && Shorter(t, 26) == 190 && Shorter(t, 27) == 205
    ensures Shorter(t, 28) == 224 && Shorter(t, 29) == 253 && Shorter(t, 30) == 253
  {
  }
}
