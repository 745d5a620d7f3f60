/**
 * `generate_pattern_list(prefixes, start, end, prefix_all)`: every prefix
 * crossed with every number of the inclusive range start..end, prefix-major,
 * each element written `prefix_all + prefix + str(number)`. A single string
 * prefix is taken as a one-element list.
 */
module PatternList {

  /** The `prefixes` argument: one string, or a list of them. */
  datatype Prefixes = One(prefix: string) | Many(prefixes: seq<string>)

  function DigitChar(d: nat): char
    requires d < 10
  {
    "0123456789"[d]
  }

  /** Python's `str(n)` for a natural number: its decimal digits, no leading zeros. */
  function NatToString(n: nat): (s: string)
    ensures |s| > 0
    ensures forall i :: 0 <= i < |s| ==> '0' <= s[i] <= '9'
  {
    if n < 10 then [DigitChar(n)] else NatToString(n / 10) + [DigitChar(n % 10)]
  }

  /** Python's `str(i)` for an integer: a minus sign before the digits of a negative number. */
  function IntToString(i: int): (s: string)
    ensures |s| > 0
  {
    if i < 0 then "-" + NatToString(-i) else NatToString(i)
  }

  /** The number a string of decimal digits denotes. */
  function DigitsValue(s: string): nat
    requires forall i :: 0 <= i < |s| ==> '0' <= s[i] <= '9'
  {
    if s == [] then 0 else DigitsValue(s[..|s| - 1]) * 10 + (s[|s| - 1] - '0') as nat
  }

  /** The integer a string written by `IntToString` denotes. */
  function ParseInt(s: string): int
    requires |s| > 0
    requires s[0] == '-' || '0' <= s[0] <= '9'
    requires forall i :: 1 <= i < |s| ==> '0' <= s[i] <= '9'
  {
    if s[0] == '-' then -(DigitsValue(s[1..]) as int) else DigitsValue(s)
  }

  lemma {:induction false} DigitCharValue(d: nat)
    requires d < 10
    ensures (DigitChar(d) - '0') as nat == d
  {
  }

  lemma {:induction false} NatToStringRoundTrip(n: nat)
    ensures DigitsValue(NatToString(n)) == n
  {
    var s := NatToString(n);
    if n < 10 {
      DigitCharValue(n);
      assert s[..0] == [];
    } else {
      var q, d := n / 10, n % 10;
      NatToStringRoundTrip(q);
      DigitCharValue(d);
      assert s == NatToString(q) + [DigitChar(d)];
      assert s[..|s| - 1] == NatToString(q);
      assert DigitsValue(s) == q * 10 + d;
    }
  }

  /** `str` loses nothing: the number can be read back from its text. */
  lemma {:induction false} IntToStringRoundTrip(i: int)
    ensures ParseInt(IntToString(i)) == i
  {
    if i < 0 {
      NegativeRoundTrip(-i);
    } else {
      NatToStringRoundTrip(i);
    }
  }

  lemma {:induction false} NegativeRoundTrip(n: nat)
    requires n > 0
    ensures ParseInt(IntToString(-(n as int))) == -(n as int)
  {
    var digits := NatToString(n);
    var s := IntToString(-(n as int));
    assert s == "-" + digits;
    assert s[1..] == digits;
    NatToStringRoundTrip(n);
  }

  /** Different numbers are written differently. */
  lemma {:induction false} IntToStringInjective(i: int, j: int)
    requires IntToString(i) == IntToString(j)
    ensures i == j
  {
    IntToStringRoundTrip(i);
    IntToStringRoundTrip(j);
  }

  /** The length of `range(start, end + 1)`. */
  function RangeLength(start: int, end: int): nat
  {
    if end < start then 0 else end - start + 1
  }

  /** The inner comprehension: one prefix with every number of start..end, ascending. */
  function PrefixBlock(prefixAll: string, prefix: string, start: int, end: int): (r: seq<string>)
  {
    seq(RangeLength(start, end), k requires 0 <= k => prefixAll + prefix + IntToString(start + k))
  }

  /** The outer comprehension over a list of prefixes. */
  function Expand(prefixes: seq<string>, start: int, end: int, prefixAll: string): seq<string>
  {
    if prefixes == [] then []
    else PrefixBlock(prefixAll, prefixes[0], start, end) + Expand(prefixes[1..], start, end, prefixAll)
  }

  /** `generate_pattern_list(prefixes, start, end, prefix_all)`. */
  function GeneratePatternList(prefixes: Prefixes, start: int, end: int, prefixAll: string): seq<string>
  {
    match prefixes
    case One(p) => Expand([p], start, end, prefixAll)
    case Many(ps) => Expand(ps, start, end, prefixAll)
  }

  /** A bare string prefix behaves like the one-element list holding it. */
  lemma {:induction false} SinglePrefixAsList(prefix: string, start: int, end: int, prefixAll: string)
    ensures GeneratePatternList(One(prefix), start, end, prefixAll)
         == GeneratePatternList(Many([prefix]), start, end, prefixAll)
         == PrefixBlock(prefixAll, prefix, start, end)
  {
    assert [prefix][1..] == [];
    var block := PrefixBlock(prefixAll, prefix, start, end);
    assert Expand([prefix], start, end, prefixAll) == block + [];
    assert block + [] == block;
  }

  /** One element per prefix and number: |prefixes| * max(0, end - start + 1). */
  lemma {:induction false} ExpandLength(prefixes: seq<string>, start: int, end: int, prefixAll: string)
    ensures |Expand(prefixes, start, end, prefixAll)| == |prefixes| * RangeLength(start, end)
  {
    if prefixes != [] {
      ExpandLength(prefixes[1..], start, end, prefixAll);
      assert |prefixes| * RangeLength(start, end)
          == RangeLength(start, end) + (|prefixes| - 1) * RangeLength(start, end);
    }
  }

  /**
   * Element p * n + i of the expansion, for offset i < n = RangeLength(start, end),
   * is prefixAll + prefixes[p] + str(start + i): prefix-major, numbers
   * ascending within each prefix.
   */
  lemma {:induction false} ExpandAt(prefixes: seq<string>, start: int, end: int, prefixAll: string,
                                    k: nat, p: nat, i: nat)
    requires k < |Expand(prefixes, start, end, prefixAll)|
    requires i < RangeLength(start, end) && k == p * RangeLength(start, end) + i
    ensures p < |prefixes|
    ensures Expand(prefixes, start, end, prefixAll)[k] == PrefixBlock(prefixAll, prefixes[p], start, end)[i]
  {
    var n := RangeLength(start, end);
    ExpandSplit(prefixes, start, end, prefixAll, k);
    if p > 0 {
      BlockStep(k, p, n, i);
      ExpandAt(prefixes[1..], start, end, prefixAll, k - n, p - 1, i);
    }
  }

  /** Skipping one block of n elements steps back one prefix. */
  lemma {:induction false} BlockStep(k: nat, p: nat, n: nat, i: nat)
    requires p > 0 && i < n && k == p * n + i
    ensures k >= n && k - n == (p - 1) * n + i
  {
  }

  /** The first block of the expansion is the first prefix's; the rest follows it. */
  lemma {:induction false} ExpandSplit(prefixes: seq<string>, start: int, end: int, prefixAll: string, k: nat)
    requires k < |Expand(prefixes, start, end, prefixAll)|
    ensures prefixes != []
    ensures k < RangeLength(start, end) ==>
      Expand(prefixes, start, end, prefixAll)[k] == PrefixBlock(prefixAll, prefixes[0], start, end)[k]
    ensures k >= RangeLength(start, end) ==>
      k - RangeLength(start, end) < |Expand(prefixes[1..], start, end, prefixAll)|
      && Expand(prefixes, start, end, prefixAll)[k]
         == Expand(prefixes[1..], start, end, prefixAll)[k - RangeLength(start, end)]
  {
    var block := PrefixBlock(prefixAll, prefixes[0], start, end);
    var rest := Expand(prefixes[1..], start, end, prefixAll);
    assert Expand(prefixes, start, end, prefixAll) == block + rest;
  }

  /**
   * The result has |prefixes| * max(0, end - start + 1) elements, and element
   * k is prefixAll + prefixes[k / n] + str(start + k % n), n = end - start + 1.
   */
  lemma {:induction false} PatternListShape(prefixes: Prefixes, start: int, end: int, prefixAll: string)
    ensures var ps := if prefixes.One? then [prefixes.prefix] else prefixes.prefixes;
      var n := RangeLength(start, end);
      var r := GeneratePatternList(prefixes, start, end, prefixAll);
      && |r| == |ps| * n
      && forall k :: 0 <= k < |r| ==> k / n < |ps| && r[k] == prefixAll + ps[k / n] + IntToString(start + k % n)
  {
    var ps := if prefixes.One? then [prefixes.prefix] else prefixes.prefixes;
    var r := GeneratePatternList(prefixes, start, end, prefixAll);
    assert r == Expand(ps, start, end, prefixAll);
    ExpandLength(ps, start, end, prefixAll);
    forall k | 0 <= k < |r|
      ensures k / RangeLength(start, end) < |ps|
      ensures r[k] == prefixAll + ps[k / RangeLength(start, end)] + IntToString(start + k % RangeLength(start, end))
    {
      ExpandAtDivMod(ps, start, end, prefixAll, k);
    }
  }

  /** ExpandAt with the prefix index and the offset read off k by division. */
  lemma {:induction false} ExpandAtDivMod(prefixes: seq<string>, start: int, end: int, prefixAll: string, k: nat)
    requires k < |Expand(prefixes, start, end, prefixAll)|
    ensures RangeLength(start, end) > 0
    ensures k / RangeLength(start, end) < |prefixes|
    ensures Expand(prefixes, start, end, prefixAll)[k]
         == prefixAll + prefixes[k / RangeLength(start, end)] + IntToString(start + k % RangeLength(start, end))
  {
    var n := RangeLength(start, end);
    ExpandLength(prefixes, start, end, prefixAll);
    assert n > 0;
    var p, i := k / n, k % n;
    QuotientRemainder(k, n);
    ExpandAt(prefixes, start, end, prefixAll, k, p, i);
    BlockAt(prefixAll, prefixes[p], start, end, i);
  }

  lemma {:induction false} QuotientRemainder(k: nat, n: nat)
    requires n > 0
    ensures k == (k / n) * n + k % n && k % n < n
  {
  }

  lemma {:induction false} BlockAt(prefixAll: string, prefix: string, start: int, end: int, i: nat)
    requires i < RangeLength(start, end)
    ensures PrefixBlock(prefixAll, prefix, start, end)[i] == prefixAll + prefix + IntToString(start + i)
  {
  }

  /** The documented example: prefixes A, B, C, numbers 1..4, common prefix "SPEC_". */
  lemma {:induction false} DocumentedExample()
    ensures GeneratePatternList(Many(["A", "B", "C"]), 1, 4, "SPEC_")
         == ["SPEC_A1", "SPEC_A2", "SPEC_A3", "SPEC_A4",
             "SPEC_B1", "SPEC_B2", "SPEC_B3", "SPEC_B4",
             "SPEC_C1", "SPEC_C2", "SPEC_C3", "SPEC_C4"]
  {
    var blockA := ["SPEC_A1", "SPEC_A2", "SPEC_A3", "SPEC_A4"];
    var blockB := ["SPEC_B1", "SPEC_B2", "SPEC_B3", "SPEC_B4"];
    var blockC := ["SPEC_C1", "SPEC_C2", "SPEC_C3", "SPEC_C4"];
    ExampleBlock("A");
    assert "SPEC_" + "A" + "1" == "SPEC_A1";
    assert "SPEC_" + "A" + "2" == "SPEC_A2";
    assert "SPEC_" + "A" + "3" == "SPEC_A3";
    assert "SPEC_" + "A" + "4" == "SPEC_A4";
    assert PrefixBlock("SPEC_", "A", 1, 4) == blockA;
    ExampleBlock("B");
    assert "SPEC_" + "B" + "1" == "SPEC_B1";
    assert "SPEC_" + "B" + "2" == "SPEC_B2";
    assert "SPEC_" + "B" + "3" == "SPEC_B3";
    assert "SPEC_" + "B" + "4" == "SPEC_B4";
    assert PrefixBlock("SPEC_", "B", 1, 4) == blockB;
    ExampleBlock("C");
    assert "SPEC_" + "C" + "1" == "SPEC_C1";
    assert "SPEC_" + "C" + "2" == "SPEC_C2";
    assert "SPEC_" + "C" + "3" == "SPEC_C3";
    assert "SPEC_" + "C" + "4" == "SPEC_C4";
    assert PrefixBlock("SPEC_", "C", 1, 4) == blockC;
    assert ["A", "B", "C"][1..] == ["B", "C"];
    assert ["B", "C"][1..] == ["C"];
    assert ["C"][1..] == [];
    assert Expand(["C"], 1, 4, "SPEC_") == blockC + [];
    assert Expand(["B", "C"], 1, 4, "SPEC_") == blockB + blockC;
    assert Expand(["A", "B", "C"], 1, 4, "SPEC_") == blockA + (blockB + blockC);
  }

  /** One block of the documented example. */
  lemma {:induction false} ExampleBlock(prefix: string)
    ensures PrefixBlock("SPEC_", prefix, 1, 4)
         == ["SPEC_" + prefix + "1", "SPEC_" + prefix + "2", "SPEC_" + prefix + "3", "SPEC_" + prefix + "4"]
  {
    assert IntToString(1) == "1" && IntToString(2) == "2" && IntToString(3) == "3" && IntToString(4) == "4";
    var b := PrefixBlock("SPEC_", prefix, 1, 4);
    assert |b| == 4;
    assert b[0] == "SPEC_" + prefix + "1";
    assert b[1] == "SPEC_" + prefix + "2";
    assert b[2] == "SPEC_" + prefix + "3";
    assert b[3] == "SPEC_" + prefix + "4";
  }
}
