/**
 Brazilian rendering of whole amounts: the decimal numeral of the integer
 with "." between groups of three digits counted from the right and a
 leading "-" for negative numbers ("{:,.0f}" with "," replaced by ".").
 The numeral is built from DecimalDigits; the separators from Groups and
 Join. SplitDots, StripDots and ParseBr read a rendering back, so that the
 grouping and the round trip can be stated.
 */
module BrFormat {
  import opened Options

  predicate IsDigit(c: char) {
    '0' <= c <= '9'
  }

  predicate AllDigits(s: string) {
    forall i :: 0 <= i < |s| ==> IsDigit(s[i])
  }

  function DigitValue(c: char): nat
    requires IsDigit(c)
  {
    c as int - '0' as int
  }

  function DigitChar(d: nat): (c: char)
    requires d < 10
    ensures IsDigit(c) && DigitValue(c) == d
  {
    ('0' as int + d) as char
  }

  /** The decimal numeral of n, most significant digit first. It starts with
      '0' exactly when n is 0 (no leading zeros). */
  function DecimalDigits(n: nat): (s: string)
    ensures 1 <= |s| && AllDigits(s)
    ensures s[0] == '0' <==> n == 0
  {
    if n < 10 then [DigitChar(n)] else DecimalDigits(n / 10) + [DigitChar(n % 10)]
  }

  /** The number a digit string denotes in base ten; "" denotes 0. */
  function DigitsValue(s: string): nat
    requires AllDigits(s)
  {
    if |s| == 0 then 0 else DigitsValue(s[..|s| - 1]) * 10 + DigitValue(s[|s| - 1])
  }

  /** A numeral as DecimalDigits writes it: digits only, and no leading zero
      unless the numeral is "0". */
  predicate Canonical(s: string) {
    1 <= |s| && AllDigits(s) && (s[0] == '0' ==> |s| == 1)
  }

  /** DecimalDigits writes a numeral that denotes n. */
  lemma {:induction false} DigitsValueOfDecimalDigits(n: nat)
    ensures DigitsValue(DecimalDigits(n)) == n
  {
    if n >= 10 {
      var s := DecimalDigits(n);
      assert s[..|s| - 1] == DecimalDigits(n / 10);
      DigitsValueOfDecimalDigits(n / 10);
    }
  }

  /** A numeral that does not start with '0' denotes a positive number. */
  lemma {:induction false} LeadingNonZeroIsPositive(s: string)
    requires 1 <= |s| && AllDigits(s) && s[0] != '0'
    ensures DigitsValue(s) >= 1
  {
    if |s| > 1 {
      var p := s[..|s| - 1];
      assert p[0] == s[0];
      LeadingNonZeroIsPositive(p);
    }
  }

  /** Every canonical numeral is the one DecimalDigits writes for its value:
      with DigitsValueOfDecimalDigits, DecimalDigits is a bijection between
      the naturals and the canonical numerals. */
  lemma {:induction false} DecimalDigitsOfValue(s: string)
    requires Canonical(s)
    ensures DecimalDigits(DigitsValue(s)) == s
  {
    if |s| == 1 {
      assert s == [s[0]];
      assert DigitChar(DigitValue(s[0])) == s[0];
    } else {
      var p := s[..|s| - 1];
      assert p[0] == s[0];
      LeadingNonZeroIsPositive(p);
      var n := DigitsValue(s);
      assert n == DigitsValue(p) * 10 + DigitValue(s[|s| - 1]);
      assert n / 10 == DigitsValue(p) && n % 10 == DigitValue(s[|s| - 1]);
      DecimalDigitsOfValue(p);
      assert DigitChar(DigitValue(s[|s| - 1])) == s[|s| - 1];
      assert s == p + [s[|s| - 1]];
    }
  }

  /** Numbers below 1000 have at most three digits. */
  lemma ShortNumeral(n: nat)
    requires n < 1000
    ensures |DecimalDigits(n)| <= 3
  {
    if n >= 10 {
      assert DecimalDigits(n) == DecimalDigits(n / 10) + [DigitChar(n % 10)];
      if n >= 100 {
        assert DecimalDigits(n / 10) == DecimalDigits(n / 10 / 10) + [DigitChar(n / 10 % 10)];
      }
    }
  }

  /** The zero-padded three-digit numeral of n < 1000. */
  function Pad3(n: nat): (s: string)
    requires n < 1000
    ensures |s| == 3 && AllDigits(s)
    ensures DigitsValue(s) == n
  {
    var s := [DigitChar(n / 100), DigitChar(n / 10 % 10), DigitChar(n % 10)];
    assert DigitsValue(s[..1]) == n / 100 by {
      assert s[..1][..0] == [];
    }
    assert DigitsValue(s[..2]) == n / 100 * 10 + n / 10 % 10 by {
      assert s[..2][..1] == s[..1];
    }
    s
  }

  /** Digit groups of a numeral: the first holds one to three digits, every
      later one exactly three. */
  predicate WellGrouped(gs: seq<string>) {
    && 1 <= |gs|
    && 1 <= |gs[0]| <= 3
    && (forall i :: 1 <= i < |gs| ==> |gs[i]| == 3)
    && (forall i :: 0 <= i < |gs| ==> AllDigits(gs[i]))
  }

  /** The digit groups of n, most significant first. The first group
      starts with '0' only for the number 0. */
  function Groups(n: nat): (gs: seq<string>)
    ensures WellGrouped(gs)
    ensures gs[0][0] == '0' <==> n == 0
  {
    if n < 1000 then
      ShortNumeral(n);
      [DecimalDigits(n)]
    else
      Groups(n / 1000) + [Pad3(n % 1000)]
  }

  /** The strings of gs with "." between neighbours. */
  function Join(gs: seq<string>): (s: string)
    requires 1 <= |gs|
    ensures |gs[0]| <= |s| && s[..|gs[0]|] == gs[0]
  {
    if |gs| == 1 then gs[0] else Join(gs[..|gs| - 1]) + "." + gs[|gs| - 1]
  }

  /** The strings of gs run together. */
  function Concat(gs: seq<string>): string {
    if |gs| == 0 then "" else Concat(gs[..|gs| - 1]) + gs[|gs| - 1]
  }

  /** s with every "." removed. */
  function StripDots(s: string): (r: string)
    ensures '.' !in r
  {
    if |s| == 0 then ""
    else StripDots(s[..|s| - 1]) + (if s[|s| - 1] == '.' then "" else [s[|s| - 1]])
  }

  /** Position of the last "." in s. */
  function LastDot(s: string): (i: nat)
    requires '.' in s
    ensures i < |s| && s[i] == '.' && '.' !in s[i + 1..]
  {
    if s[|s| - 1] == '.' then |s| - 1
    else
      assert '.' in s[..|s| - 1] by {
        var j :| 0 <= j < |s| && s[j] == '.';
        assert s[..|s| - 1][j] == '.';
      }
      LastDot(s[..|s| - 1])
  }

  /** The pieces of s between dots, in order (the inverse of Join). */
  function SplitDots(s: string): (gs: seq<string>)
    decreases |s|
    ensures 1 <= |gs|
  {
    if '.' !in s then [s]
    else
      var i := LastDot(s);
      SplitDots(s[..i]) + [s[i + 1..]]
  }

  predicate DotFree(gs: seq<string>) {
    forall i :: 0 <= i < |gs| ==> '.' !in gs[i]
  }

  /** A "." with no "." after it is the last one. */
  lemma LastDotIsUnique(s: string, k: nat)
    requires k < |s| && s[k] == '.' && '.' !in s[k + 1..]
    ensures '.' in s && LastDot(s) == k
  {
  }

  /** Splitting at the dots recovers groups that contain no dot. */
  lemma {:induction false} SplitJoin(gs: seq<string>)
    requires 1 <= |gs| && DotFree(gs)
    ensures SplitDots(Join(gs)) == gs
  {
    if |gs| > 1 {
      var init, last := gs[..|gs| - 1], gs[|gs| - 1];
      assert gs == init + [last];
      assert DotFree(init) && '.' !in last;
      var front := Join(init);
      var s := Join(gs);
      assert s == front + "." + last;
      assert s[|front|] == '.';
      assert s[|front| + 1..] == last;
      LastDotIsUnique(s, |front|);
      assert s[..|front|] == front;
      assert SplitDots(s) == SplitDots(front) + [last];
      SplitJoin(init);
    } else {
      assert '.' !in gs[0];
    }
  }

  lemma {:induction false} StripDotsAppend(a: string, b: string)
    ensures StripDots(a + b) == StripDots(a) + StripDots(b)
    decreases |b|
  {
    if |b| > 0 {
      var b' := b[..|b| - 1];
      assert (a + b)[..|a + b| - 1] == a + b';
      StripDotsAppend(a, b');
    } else {
      assert a + b == a;
    }
  }

  lemma {:induction false} StripDotsOfDotFree(s: string)
    requires '.' !in s
    ensures StripDots(s) == s
  {
    if |s| > 0 {
      assert '.' !in s[..|s| - 1];
      StripDotsOfDotFree(s[..|s| - 1]);
      assert s == s[..|s| - 1] + [s[|s| - 1]];
    }
  }

  /** Removing the dots of joined dot-free groups runs the groups together. */
  lemma {:induction false} StripJoin(gs: seq<string>)
    requires 1 <= |gs| && DotFree(gs)
    ensures StripDots(Join(gs)) == Concat(gs)
  {
    if |gs| == 1 {
      StripDotsOfDotFree(gs[0]);
      assert Concat(gs) == Concat([]) + gs[0];
    } else {
      var init, last := gs[..|gs| - 1], gs[|gs| - 1];
      assert gs == init + [last];
      assert DotFree(init) && '.' !in last;
      assert StripDots(".") == "" by {
        assert "."[..0] == "";
      }
      calc {
        StripDots(Join(gs));
        { assert Join(gs) == (Join(init) + ".") + last; }
        StripDots((Join(init) + ".") + last);
        { StripDotsAppend(Join(init) + ".", last); StripDotsOfDotFree(last); }
        StripDots(Join(init) + ".") + last;
        { StripDotsAppend(Join(init), "."); }
        StripDots(Join(init)) + last;
        { StripJoin(init); }
        Concat(init) + last;
      }
    }
  }

  /** The numeral of n >= 1000 is the numeral of n / 1000 followed by the
      three padded digits of n % 1000. */
  lemma NumeralSplitsAtThousands(n: nat)
    requires n >= 1000
    ensures DecimalDigits(n) == DecimalDigits(n / 1000) + Pad3(n % 1000)
  {
    var c, m1 := n % 10, n / 10;
    var b, m2 := m1 % 10, m1 / 10;
    var a, q := m2 % 10, m2 / 10;
    var low := 100 * a + 10 * b + c;
    assert n == 1000 * q + low;
    DivModThousand(q, low);
    DivModPad(a, b, c);
    assert DecimalDigits(n) == DecimalDigits(m1) + [DigitChar(c)];
    assert DecimalDigits(m1) == DecimalDigits(m2) + [DigitChar(b)];
    assert DecimalDigits(m2) == DecimalDigits(q) + [DigitChar(a)];
  }

  lemma DivModThousand(q: nat, r: nat)
    requires r < 1000
    ensures (1000 * q + r) / 1000 == q && (1000 * q + r) % 1000 == r
  {
  }

  lemma DivModPad(a: nat, b: nat, c: nat)
    requires a < 10 && b < 10 && c < 10
    ensures var r := 100 * a + 10 * b + c; r / 100 == a && r / 10 % 10 == b && r % 10 == c
  {
  }

  /** Running the groups of n together gives the numeral of n. */
  lemma {:induction false} ConcatGroups(n: nat)
    ensures Concat(Groups(n)) == DecimalDigits(n)
  {
    if n < 1000 {
      assert Concat(Groups(n)) == Concat([]) + DecimalDigits(n);
    } else {
      var gs := Groups(n);
      assert gs[..|gs| - 1] == Groups(n / 1000);
      ConcatGroups(n / 1000);
      NumeralSplitsAtThousands(n);
    }
  }

  lemma GroupsAreDotFree(n: nat)
    ensures DotFree(Groups(n))
  {
  }

  function Abs(n: int): nat {
    if n < 0 then -n else n
  }

  /** `formatar_numero_br`: the numeral of |n| with "." between groups of
      three digits, after a "-" exactly when n is negative. */
  function FormatBr(n: int): (s: string)
    ensures 1 <= |s|
    ensures s[0] == '-' <==> n < 0
  {
    var gs := Groups(Abs(n));
    assert IsDigit(Join(gs)[0]) by {
      assert Join(gs)[0] == Join(gs)[..|gs[0]|][0];
    }
    if n < 0 then "-" + Join(gs) else Join(gs)
  }

  /** The part of a rendering after an optional leading "-". */
  function Magnitude(s: string): string {
    if 1 <= |s| && s[0] == '-' then s[1..] else s
  }

  /** Reads a rendering back: an optional "-", then digits and dots with at
      least one digit. Anything else is None. */
  function ParseBr(s: string): (r: Option<int>)
    ensures r.Some? && 1 <= |s| && s[0] == '-' ==> r.value <= 0
  {
    var digits := StripDots(Magnitude(s));
    if |digits| == 0 || !AllDigits(digits) then None
    else
      var magnitude: int := DigitsValue(digits);
      if 1 <= |s| && s[0] == '-' then Some(-magnitude) else Some(magnitude)
  }

  /** The grouping `formatar_numero_br` promises: after the sign, the dots
      split the text into one group of one to three digits followed by
      groups of exactly three, and removing the dots leaves the numeral of
      |n|. */
  lemma FormatBrGrouping(n: int)
    ensures SplitDots(Magnitude(FormatBr(n))) == Groups(Abs(n))
    ensures WellGrouped(SplitDots(Magnitude(FormatBr(n))))
    ensures StripDots(Magnitude(FormatBr(n))) == DecimalDigits(Abs(n))
  {
    var gs := Groups(Abs(n));
    assert Magnitude(FormatBr(n)) == Join(gs) by {
      if n < 0 {
        assert FormatBr(n) == "-" + Join(gs);
        assert ("-" + Join(gs))[1..] == Join(gs);
      }
    }
    GroupsAreDotFree(Abs(n));
    SplitJoin(gs);
    StripJoin(gs);
    ConcatGroups(Abs(n));
  }

  /** Reading a rendering back gives the number rendered. */
  lemma FormatBrRoundTrip(n: int)
    ensures ParseBr(FormatBr(n)) == Some(n)
  {
    FormatBrGrouping(n);
    DigitsValueOfDecimalDigits(Abs(n));
  }

  /** Past three digits, the last three digits form the last group. */
  lemma GroupsStep(n: nat, q: nat, r: nat)
    requires n == q * 1000 + r && 1 <= q && r < 1000
    ensures Groups(n) == Groups(q) + [Pad3(r)]
  {
    assert n / 1000 == q && n % 1000 == r;
  }

  /** Three groups joined. */
  lemma JoinThree(x: string, y: string, z: string)
    ensures Join([x, y, z]) == x + "." + y + "." + z
  {
    assert [x, y, z][..2] == [x, y] && [x, y][..1] == [x];
    assert Join([x, y]) == x + "." + y;
  }

  /** The numeral of a two-digit number. */
  lemma TwoDigits(t: nat, u: nat)
    requires 1 <= t < 10 && u < 10
    ensures DecimalDigits(t * 10 + u) == [DigitChar(t), DigitChar(u)]
  {
    assert (t * 10 + u) / 10 == t && (t * 10 + u) % 10 == u;
  }

  /** The padded numeral of a three-digit group. */
  lemma Pad3Digits(h: nat, t: nat, u: nat)
    requires h < 10 && t < 10 && u < 10
    ensures Pad3(h * 100 + t * 10 + u) == [DigitChar(h), DigitChar(t), DigitChar(u)]
  {
    var n := h * 100 + t * 10 + u;
    assert n / 100 == h && n / 10 % 10 == t && n % 10 == u;
  }

  // Renderings of particular amounts: zero, the amounts of the worked
  // example in the Page module, and a negative amount, each from its
  // digit groups.

  lemma FormatsZero()
    ensures FormatBr(0) == "0"
  {
  }

  lemma GroupsOfFiftyOneMillion()
    ensures Groups(51000000) == ["51", "000", "000"]
  {
    GroupsStep(51000000, 51000, 0);
    GroupsStep(51000, 51, 0);
    TwoDigits(5, 1);
    Pad3Digits(0, 0, 0);
    assert DigitChar(0) == '0' && DigitChar(1) == '1' && DigitChar(5) == '5';
  }

  lemma FormatsFiftyOneMillion()
    ensures FormatBr(51000000) == "51.000.000"
  {
    GroupsOfFiftyOneMillion();
    JoinThree("51", "000", "000");
  }

  lemma GroupsOfWorkedPurchase()
    ensures Groups(37808117) == ["37", "808", "117"]
  {
    GroupsStep(37808117, 37808, 117);
    GroupsStep(37808, 37, 808);
    TwoDigits(3, 7);
    Pad3Digits(8, 0, 8);
    Pad3Digits(1, 1, 7);
    assert DigitChar(0) == '0' && DigitChar(1) == '1' && DigitChar(3) == '3';
    assert DigitChar(7) == '7' && DigitChar(8) == '8';
  }

  lemma FormatsWorkedPurchase()
    ensures FormatBr(37808117) == "37.808.117"
  {
    GroupsOfWorkedPurchase();
    JoinThree("37", "808", "117");
  }

  lemma GroupsOfWorkedBalance()
    ensures Groups(13191882) == ["13", "191", "882"]
  {
    GroupsStep(13191882, 13191, 882);
    GroupsStep(13191, 13, 191);
    TwoDigits(1, 3);
    Pad3Digits(1, 9, 1);
    Pad3Digits(8, 8, 2);
    assert DigitChar(1) == '1' && DigitChar(2) == '2' && DigitChar(3) == '3';
    assert DigitChar(8) == '8' && DigitChar(9) == '9';
  }

  lemma FormatsWorkedBalance()
    ensures FormatBr(13191882) == "13.191.882"
  {
    GroupsOfWorkedBalance();
    JoinThree("13", "191", "882");
  }

  lemma GroupsOfNegativeExample()
    ensures Groups(1234567) == ["1", "234", "567"]
  {
    GroupsStep(1234567, 1234, 567);
    GroupsStep(1234, 1, 234);
    Pad3Digits(2, 3, 4);
    Pad3Digits(5, 6, 7);
    assert DigitChar(1) == '1' && DigitChar(2) == '2' && DigitChar(3) == '3' && DigitChar(4) == '4';
    assert DigitChar(5) == '5' && DigitChar(6) == '6' && DigitChar(7) == '7';
  }

  lemma FormatsNegative()
    ensures FormatBr(-1234567) == "-1.234.567"
  {
    GroupsOfNegativeExample();
    JoinThree("1", "234", "567");
  }
}
