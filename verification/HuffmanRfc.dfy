/** The tables of the source form a complete canonical code, so everything proved of one holds of them. */
module HuffmanRfc {
  import opened Common
  import opened Bits
  import opened HuffmanCode
  import opened HuffmanTables

  /** The code has no symbol of the lengths left out. */
  lemma LengthsUsed(l: nat)
    requires l <= MAX_BITS && Count(l) > 0
    ensures 5 <= l <= 8 || 10 <= l <= 15 || 19 <= l <= 28 || l == 30
  {
  }

  lemma LengthInUse(t: Tables, l: nat)
    requires Shaped(t) && Spelt(t) && l <= MAX_BITS && Count(l) > 0
    ensures Tabled(t, l)
  {
    hide *;
    LengthsUsed(l);
    if l <= 7 {
      ShortInUse(t, l);
    } else if l <= 21 {
      MiddleInUse(t, l);
    } else {
      LongInUse(t, l);
    }
  }

  lemma ShortInUse(t: Tables, l: nat)
    requires Shaped(t) && Spelt(t) && 5 <= l <= 7
    ensures Tabled(t, l)
  {
    hide *;
    TabledShort(t);
  }

  lemma MiddleInUse(t: Tables, l: nat)
    requires Shaped(t) && Spelt(t) && (l == 8 || 10 <= l <= 15 || 19 <= l <= 21)
    ensures Tabled(t, l)
  {
    hide *;
    TabledMiddle(t);
  }

  lemma LongInUse(t: Tables, l: nat)
    requires Shaped(t) && Spelt(t) && (22 <= l <= 28 || l == 30)
    ensures Tabled(t, l)
  {
    hide *;
    TabledLong(t);
    TabledLongest(t);
  }

  /** The positions are taken, length by length, by symbols with consecutive codes. */
  ghost predicate Ordered(t: Tables) {
    && Counted(t) && t.symbols[SYMBOL_COUNT - 1] == EOS
    && forall l :: 0 <= l <= MAX_BITS && Count(l) > 0 ==> Tabled(t, l)
  }

  lemma FirstAgrees(t: Tables, l: nat)
    requires Counted(t) && l <= MAX_BITS && Count(l) > 0
    ensures First(t, l) == FirstCode(l) && FirstIndex(l) + Count(l) <= SYMBOL_COUNT
  {
    FirstCodes(t);
  }

  lemma IndexAgrees(t: Tables, l: nat)
    requires Counted(t) && l <= MAX_BITS && Count(l) > 0
    ensures FirstIndex(l) == Shorter(t, l)
  {
    FirstIndexes(t);
  }

  /**
   * For every length in use the decoding tables say what the counts call for: the first code, and how many
   * symbols have shorter ones.
   */
  lemma LengthAgrees(t: Tables, l: nat)
    requires Counted(t) && l <= MAX_BITS && Count(l) > 0
    ensures First(t, l) == FirstCode(l) && FirstIndex(l) == Shorter(t, l) && FirstIndex(l) + Count(l) <= SYMBOL_COUNT
  {
    hide *;
    FirstAgrees(t, l);
    IndexAgrees(t, l);
  }

  /** The length whose run holds a position. */
  function LengthOf(i: nat): (l: nat)
    requires i < SYMBOL_COUNT
    ensures l <= MAX_BITS && FirstIndex(l) <= i < FirstIndex(l) + Count(l)
  {
    if i < 10 then 5 else if i < 36 then 6 else if i < 68 then 7 else if i < 74 then 8
    else if i < 79 then 10 else if i < 82 then 11 else if i < 84 then 12 else if i < 90 then 13
    else if i < 92 then 14 else if i < 95 then 15 else if i < 98 then 19 else LongLengthOf(i)
  }

  function LongLengthOf(i: nat): (l: nat)
    requires 98 <= i < SYMBOL_COUNT
    ensures l <= MAX_BITS && FirstIndex(l) <= i < FirstIndex(l) + Count(l)
  {
    if i < 106 then 20 else if i < 119 then 21 else if i < 145 then 22 else if i < 174 then 23
    else if i < 186 then 24 else if i < 190 then 25 else if i < 205 then 26 else if i < 224 then 27
    else if i < 253 then 28 else 30
  }

  lemma PositionPlaced(t: Tables, l: nat, i: nat)
    requires Ordered(t) && l <= MAX_BITS
    requires FirstIndex(l) <= i < FirstIndex(l) + Count(l)
    ensures FirstIndex(l) <= FirstCode(l) && Placed(t, l, FirstCode(l) - FirstIndex(l), i)
  {
  }

  lemma SymbolInRange(t: Tables, i: nat)
    requires Ordered(t) && i < SYMBOL_COUNT
    ensures t.symbols[i] < SYMBOL_COUNT
  {
    PositionPlaced(t, LengthOf(i), i);
  }

  lemma SymbolsDistinct(t: Tables, i: nat, j: nat)
    requires Ordered(t) && i < SYMBOL_COUNT && j < SYMBOL_COUNT
    requires t.symbols[i] == t.symbols[j]
    ensures i == j
  {
    PositionPlaced(t, LengthOf(i), i);
    PositionPlaced(t, LengthOf(j), j);
  }

  // ---- Every symbol has a position ------------------------------------------------------------

  ghost function Below(n: nat): (r: set<nat>)
    ensures |r| == n && forall v: nat :: v in r <==> v < n
  {
    if n == 0 then {} else Below(n - 1) + {n - 1}
  }

  ghost function Elements(xs: seq<nat>): (r: set<nat>)
    ensures forall v: nat :: v in r <==> v in xs
  {
    if xs == [] then {} else Elements(xs[1..]) + {xs[0]}
  }

  ghost predicate Distinct(xs: seq<nat>) {
    forall i, j :: 0 <= i < j < |xs| ==> xs[i] != xs[j]
  }

  lemma {:induction false} DistinctSize(xs: seq<nat>)
    requires Distinct(xs)
    ensures |Elements(xs)| == |xs|
  {
    if xs != [] {
      var tail := xs[1..];
      DistinctSize(tail);
      assert xs[0] !in tail;
    }
  }

  lemma {:induction false} SubsetSize(a: set<nat>, b: set<nat>)
    requires a <= b
    ensures |a| <= |b|
  {
    if a != {} {
      var x :| x in a;
      SubsetSize(a - {x}, b - {x});
    }
  }

  /** Distinct numbers below their own count are all of them. */
  lemma Onto(xs: seq<nat>, v: nat)
    requires Distinct(xs) && forall i :: 0 <= i < |xs| ==> xs[i] < |xs|
    requires v < |xs|
    ensures v in xs
  {
    DistinctSize(xs);
    if v !in xs {
      SubsetSize(Elements(xs), Below(|xs|) - {v});
    }
  }

  lemma SymbolsOnto(t: Tables, s: nat)
    requires Ordered(t) && s < SYMBOL_COUNT
    ensures s in t.symbols
  {
    forall i | 0 <= i < |t.symbols| ensures t.symbols[i] < |t.symbols| {
      SymbolInRange(t, i);
    }
    forall i, j | 0 <= i < j < |t.symbols| ensures t.symbols[i] != t.symbols[j] {
      if t.symbols[i] == t.symbols[j] { SymbolsDistinct(t, i, j); }
    }
    Onto(t.symbols, s);
  }

  lemma SymbolFound(t: Tables, s: nat)
    requires Ordered(t) && s < SYMBOL_COUNT
    ensures SymbolOk(t, s)
  {
    SymbolsOnto(t, s);
    var i: nat :| i < SYMBOL_COUNT && t.symbols[i] == s;
    PositionOk(t, LengthOf(i), i);
  }

  lemma PositionOk(t: Tables, l: nat, i: nat)
    requires Ordered(t) && l <= MAX_BITS
    requires FirstIndex(l) <= i < FirstIndex(l) + Count(l)
    ensures t.counts[l] > 0 && LengthOk(t, l) && i < SYMBOL_COUNT
    ensures CodeOk(t, l, i - FirstIndex(l)) && SymbolOk(t, t.symbols[i])
  {
    PositionPlaced(t, l, i);
    LengthAgrees(t, l);
  }

  /** The end-of-string code is all ones and nothing comes after it. */
  lemma LastCode(t: Tables)
    requires Ordered(t)
    ensures t.lengths[EOS] == MAX_BITS && t.codes[EOS] == Shl(1, MAX_BITS) - 1
    ensures Next(t, MAX_BITS) == Shl(1, MAX_BITS)
  {
    FirstCodes(t);
    assert Tabled(t, 30);
    assert Placed(t, 30, 0x3ffffeff, 256);
    assert Shl(1, 10) == 0x400 && Shl(1, 20) == 0x100000 && Shl(1, 30) == 0x40000000;
  }

  lemma Assemble(t: Tables)
    requires Ordered(t)
    ensures ValidCode(t)
  {
    forall l | 0 <= l <= MAX_BITS ensures LengthOk(t, l) {
      if t.counts[l] > 0 { LengthAgrees(t, l); }
    }
    forall s | 0 <= s < SYMBOL_COUNT ensures SymbolOk(t, s) {
      SymbolFound(t, s);
    }
    forall l, k | 0 <= l <= MAX_BITS && 0 <= k < t.counts[l] && LengthOk(t, l) ensures CodeOk(t, l, k) {
      PositionOk(t, l, FirstIndex(l) + k);
    }
    LastCode(t);
  }

  lemma SpeltOrdered(t: Tables)
    requires Counted(t) && Spelt(t)
    ensures Ordered(t)
  {
    forall l | 0 <= l <= MAX_BITS && Count(l) > 0 ensures Tabled(t, l) {
      LengthInUse(t, l);
    }
  }

  lemma RfcSpelt()
    ensures Spelt(RFC7541)
  {
    RfcPart1(); RfcPart2(); RfcPart3(); RfcPart4(); RfcPart5(); RfcPart6(); RfcPart7();
    RfcPart8(); RfcPart9(); RfcPart10(); RfcPart11(); RfcPart12(); RfcPart13(); RfcPart14();
    RfcPart15(); RfcPart16(); RfcPart17(); RfcPart18(); RfcPart19(); RfcPart20();
  }

  lemma RfcCounted()
    ensures Counted(RFC7541)
  {
  }

  /** The arrays of the source are a complete canonical code. */
  lemma Rfc7541Valid()
    ensures ValidCode(RFC7541)
  {
    RfcSpelt();
    RfcCounted();
    SpeltOrdered(RFC7541);
    Assemble(RFC7541);
  }
}
