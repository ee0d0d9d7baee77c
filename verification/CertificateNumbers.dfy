// Certificate numbers WQC-YYYY-NNN-NNNN: a database sequence value split into a
// block and a serial, both zero-padded.
module CertificateNumbers {
  import opened Basics
  import opened Strings

  const DIGITS := "0123456789"

  // String(n).
  function Decimal(n: nat): (s: string)
    ensures s != ""
  {
    (if n < 10 then "" else Decimal(n / 10)) + [DIGITS[n % 10]]
  }

  function Number(n: int): string {
    if n < 0 then "-" + Decimal(-n) else Decimal(n)
  }

  // s.padStart(width, '0').
  function PadStart(s: string, width: nat): string {
    if |s| < width then "0" + PadStart(s, width - 1) else s
  }

  function Group(n: nat, width: nat): string { PadStart(Decimal(n), width) }

  function Grouped(head: string, block: string, serial: string): string {
    head + ['-'] + block + ['-'] + serial
  }

  function Head(year: int): string { "WQC-" + Number(year) }

  function Format(year: int, value: nat): string {
    Grouped(Head(year), Group(value / 10000, 3), Group(value % 10000, 4))
  }

  // ── Recovering the value ─────────────────────────────────────────────────

  function DigitValue(c: char): nat {
    if '0' <= c <= '9' then (c as int) - ('0' as int) else 0
  }

  function ParseDecimal(s: string): nat {
    if s == "" then 0 else 10 * ParseDecimal(s[..|s| - 1]) + DigitValue(s[|s| - 1])
  }

  // The sequence value is in the last two groups.
  function ValueOf(number: string): Option<nat> {
    var parts := Split(number, '-');
    if |parts| < 2 then None else Some(10000 * ParseDecimal(parts[|parts| - 2]) + ParseDecimal(parts[|parts| - 1]))
  }

  lemma DigitsAreDigits(d: int)
    requires 0 <= d < 10
    ensures '0' <= DIGITS[d] <= '9' && DigitValue(DIGITS[d]) == d
  {
  }

  lemma DecimalUnfolds(n: nat)
    ensures var s := Decimal(n);
      s[..|s| - 1] == (if n < 10 then "" else Decimal(n / 10)) && s[|s| - 1] == DIGITS[n % 10]
  {
  }

  lemma {:induction false} DecimalIsParsed(n: nat)
    ensures ParseDecimal(Decimal(n)) == n
  {
    DigitsAreDigits(n % 10);
    DecimalUnfolds(n);
    if n >= 10 {
      DecimalIsParsed(n / 10);
    }
  }

  lemma {:induction false} DecimalHasNoDash(n: nat)
    ensures '-' !in Decimal(n)
  {
    DigitsAreDigits(n % 10);
    if n >= 10 {
      DecimalHasNoDash(n / 10);
    }
  }

  lemma {:induction false} LeadingZero(s: string)
    ensures ParseDecimal("0" + s) == ParseDecimal(s)
  {
    if s == "" {
      assert ("0" + s)[..0] == "";
    } else {
      LeadingZero(s[..|s| - 1]);
      assert ("0" + s)[..|s|] == "0" + s[..|s| - 1];
    }
  }

  lemma {:induction false} PaddingIsInvisible(s: string, width: nat)
    ensures ParseDecimal(PadStart(s, width)) == ParseDecimal(s)
    ensures '-' !in s ==> '-' !in PadStart(s, width)
    ensures |PadStart(s, width)| == if |s| < width then width else |s|
    decreases width
  {
    if |s| < width {
      PaddingIsInvisible(s, width - 1);
      LeadingZero(PadStart(s, width - 1));
    }
  }

  lemma GroupIsParsed(n: nat, width: nat)
    ensures ParseDecimal(Group(n, width)) == n && Split(Group(n, width), '-') == [Group(n, width)]
  {
    DecimalIsParsed(n);
    DecimalHasNoDash(n);
    PaddingIsInvisible(Decimal(n), width);
    SplitOfFree(Group(n, width), '-');
  }

  lemma GroupsAreSplit(head: string, block: string, serial: string)
    requires Split(block, '-') == [block] && Split(serial, '-') == [serial]
    ensures Split(Grouped(head, block, serial), '-') == Split(head, '-') + [block, serial]
  {
    SplitAtSeparator(head, block, '-');
    SplitAtSeparator(head + ['-'] + block, serial, '-');
  }

  lemma ValueOfGroups(head: string, block: string, serial: string)
    requires Split(block, '-') == [block] && Split(serial, '-') == [serial]
    ensures ValueOf(Grouped(head, block, serial)) == Some(10000 * ParseDecimal(block) + ParseDecimal(serial))
  {
    GroupsAreSplit(head, block, serial);
    LastTwo(Split(head, '-'), block, serial);
  }

  lemma LastTwo(parts: seq<string>, block: string, serial: string)
    ensures var all := parts + [block, serial];
      |all| >= 2 && all[|all| - 2] == block && all[|all| - 1] == serial
  {
  }

  lemma GroupsAreParsed(head: string, block: nat, serial: nat)
    ensures ValueOf(Grouped(head, Group(block, 3), Group(serial, 4))) == Some(10000 * block + serial)
  {
    GroupIsParsed(block, 3);
    GroupIsParsed(serial, 4);
    ValueOfGroups(head, Group(block, 3), Group(serial, 4));
  }

  // The sequence value can be read back from every certificate number, also
  // when its block has outgrown three digits.
  lemma ValueIsRecoverable(year: int, value: nat)
    ensures ValueOf(Format(year, value)) == Some(value)
  {
    GroupsAreParsed(Head(year), value / 10000, value % 10000);
  }

  lemma {:induction false} PaddedLength(n: nat, width: nat)
    ensures width <= |Group(n, width)|
    ensures |Decimal(n)| <= width ==> |Group(n, width)| == width
  {
    PaddingIsInvisible(Decimal(n), width);
  }

  lemma FormatIsSplit(year: int, block: nat, serial: nat)
    ensures Split(Grouped(Head(year), Group(block, 3), Group(serial, 4)), '-') ==
      Split(Head(year), '-') + [Group(block, 3), Group(serial, 4)]
  {
    GroupIsParsed(block, 3);
    GroupIsParsed(serial, 4);
    GroupsAreSplit(Head(year), Group(block, 3), Group(serial, 4));
  }

  lemma GroupIs(n: nat, width: nat)
    requires width == 3 || width == 4
    ensures ParseDecimal(Group(n, width)) == n && |Group(n, width)| >= width
    ensures width == 4 && n < 10000 ==> |Group(n, width)| == 4
  {
    GroupIsParsed(n, width);
    PaddedLength(n, width);
    if n < 10000 {
      FewDigits(n, 4, 10000);
    }
  }

  // The groups of a number: prefix, year (after an empty one for its minus
  // sign), block and serial; the block has three digits or more and the serial
  // four.
  lemma GroupsAre(year: int, value: nat) returns (y: string, block: string, serial: string)
    ensures Split(Format(year, value), '-') == ["WQC"] + (if year < 0 then [""] else []) + [y, block, serial]
    ensures ParseDecimal(y) == (if year < 0 then -year else year)
    ensures ParseDecimal(block) == value / 10000 && ParseDecimal(serial) == value % 10000
    ensures |block| >= 3 && |serial| == 4
  {
    y, block, serial := YearGroup(year), Group(value / 10000, 3), Group(value % 10000, 4);
    YearIsParsed(year);
    GroupIs(value / 10000, 3);
    GroupIs(value % 10000, 4);
    FormatIsSplit(year, value / 10000, value % 10000);
  }

  function YearGroup(year: int): string { Decimal(if year < 0 then -year else year) }

  lemma YearIsParsed(year: int)
    ensures ParseDecimal(YearGroup(year)) == if year < 0 then -year else year
    ensures Split(Head(year), '-') == ["WQC"] + (if year < 0 then [""] else []) + [YearGroup(year)]
  {
    DecimalIsParsed(if year < 0 then -year else year);
    HeadIsSplit(year);
    NumberIsSplit(year);
  }

  lemma {:induction false} FewDigits(n: nat, width: nat, bound: nat)
    requires n < bound && width >= 1
    requires (width == 1 && bound == 10) || (width == 2 && bound == 100) || (width == 3 && bound == 1000) ||
      (width == 4 && bound == 10000)
    ensures |Decimal(n)| <= width
    decreases width
  {
    if n >= 10 {
      FewDigits(n / 10, width - 1, bound / 10);
    }
  }

  lemma NumberIsSplit(year: int)
    ensures var n: nat := if year < 0 then -year else year;
      Split(Number(year), '-') == (if year < 0 then [""] else []) + [Decimal(n)]
  {
    var n: nat := if year < 0 then -year else year;
    DecimalHasNoDash(n);
    SplitOfFree(Decimal(n), '-');
    if year < 0 {
      SplitOfFree("", '-');
      SplitAtSeparator("", Decimal(n), '-');
      assert Number(year) == "" + ['-'] + Decimal(n);
    }
  }

  lemma HeadIsSplit(year: int)
    ensures Split(Head(year), '-') == ["WQC"] + Split(Number(year), '-')
  {
    var number := Number(year);
    SplitOfFree("WQC", '-');
    SplitAtSeparator("WQC", number, '-');
    assert "WQC-" == "WQC" + ['-'];
  }

  lemma NumberIsInjective(a: int, b: int)
    requires Number(a) == Number(b)
    ensures a == b
  {
    var m, n: nat := if a < 0 then -a else a, if b < 0 then -b else b;
    DecimalIsParsed(m);
    DecimalIsParsed(n);
    DecimalHasNoDash(m);
    DecimalHasNoDash(n);
    if a < 0 {
      assert Number(a)[0] == '-';
      assert '-' in Number(b);
      assert Number(a)[1..] == Decimal(m) && Number(b)[1..] == Decimal(n);
    } else {
      assert '-' !in Number(b);
    }
  }

  lemma HeadsAreEqual(a: string, b: string, block: string, serial: string)
    requires Grouped(a, block, serial) == Grouped(b, block, serial)
    ensures a == b
  {
    assert |a| == |b|;
    assert a == Grouped(a, block, serial)[..|a|] && b == Grouped(b, block, serial)[..|b|];
  }

  // Different years or sequence values give different numbers.
  lemma FormatIsInjective(y1: int, v1: nat, y2: int, v2: nat)
    ensures Format(y1, v1) == Format(y2, v2) <==> y1 == y2 && v1 == v2
  {
    if Format(y1, v1) == Format(y2, v2) {
      ValueIsRecoverable(y1, v1);
      ValueIsRecoverable(y2, v2);
      HeadsAreEqual(Head(y1), Head(y2), Group(v1 / 10000, 3), Group(v1 % 10000, 4));
      assert Head(y1)[4..] == Number(y1) && Head(y2)[4..] == Number(y2);
      NumberIsInjective(y1, y2);
    }
  }

  // ── Order ────────────────────────────────────────────────────────────────

  // Lexicographic order of strings.
  ghost predicate Less(a: string, b: string) {
    exists k :: DiffersAt(a, b, k)
  }

  ghost predicate DiffersAt(a: string, b: string, k: nat) {
    && k <= |a| && k < |b| && a[..k] == b[..k]
    && (k == |a| || a[k] < b[k])
  }

  // The last `width` digits of n.
  function Digits(n: nat, width: nat): (s: string)
    ensures |s| == width
  {
    if width == 0 then "" else Digits(n / 10, width - 1) + [DIGITS[n % 10]]
  }

  lemma {:induction false} PadBefore(s: string, c: char, width: nat)
    requires 1 <= width
    ensures PadStart(s + [c], width) == PadStart(s, width - 1) + [c]
    decreases width
  {
    if |s| + 1 < width {
      PadBefore(s, c, width - 1);
    }
  }

  lemma {:induction false} ZerosAreDigits(width: nat)
    ensures PadStart("", width) == Digits(0, width)
    ensures width > 0 ==> PadStart("0", width) == PadStart("", width)
  {
    if width == 1 {
      assert PadStart("", 1) == "0";
    } else if width > 1 {
      ZerosAreDigits(width - 1);
      PadBefore("", '0', width);
      assert "" + ['0'] == "0";
    }
  }

  function Power(width: nat): nat { if width == 0 then 1 else 10 * Power(width - 1) }

  lemma {:induction false} GroupIsDigits(n: nat, width: nat)
    requires 1 <= width && n < Power(width)
    ensures Group(n, width) == Digits(n, width)
  {
    if n < 10 {
      ZerosAreDigits(width - 1);
      PadBefore("", DIGITS[n], width);
      assert Decimal(n) == "" + [DIGITS[n]];
    } else {
      GroupIsDigits(n / 10, width - 1);
      PadBefore(Decimal(n / 10), DIGITS[n % 10], width);
    }
  }

  lemma {:induction false} DigitsAreOrdered(a: nat, b: nat, width: nat) returns (k: nat)
    requires a < b < Power(width)
    ensures k < width && DiffersAt(Digits(a, width), Digits(b, width), k)
  {
    if a / 10 == b / 10 {
      k := width - 1;
      DigitsAreDigits(a % 10);
      DigitsAreDigits(b % 10);
    } else {
      k := DigitsAreOrdered(a / 10, b / 10, width - 1);
      Extends(Digits(a / 10, width - 1), Digits(b / 10, width - 1), [DIGITS[a % 10]], [DIGITS[b % 10]], k);
    }
  }

  lemma Extends(a: string, b: string, x: string, y: string, k: nat)
    requires k < |a| && DiffersAt(a, b, k)
    ensures DiffersAt(a + x, b + y, k)
  {
    assert (a + x)[..k] == a[..k] && (b + y)[..k] == b[..k];
  }

  lemma Prepends(head: string, a: string, b: string, k: nat)
    requires DiffersAt(a, b, k)
    ensures DiffersAt(head + a, head + b, |head| + k)
  {
    assert (head + a)[..|head| + k] == head + a[..k] && (head + b)[..|head| + k] == head + b[..k];
  }

  lemma GroupsAreOrdered(head: string, v1: nat, v2: nat)
    requires v1 < v2 < 10000000
    ensures Less(Grouped(head, Digits(v1 / 10000, 3), Digits(v1 % 10000, 4)),
      Grouped(head, Digits(v2 / 10000, 3), Digits(v2 % 10000, 4)))
  {
    var b1, b2, s1, s2 := Digits(v1 / 10000, 3), Digits(v2 / 10000, 3), Digits(v1 % 10000, 4), Digits(v2 % 10000, 4);
    if v1 / 10000 == v2 / 10000 {
      var k := DigitsAreOrdered(v1 % 10000, v2 % 10000, 4);
      Prepends(head + ['-'] + b1 + ['-'], s1, s2, k);
    } else {
      var k := DigitsAreOrdered(v1 / 10000, v2 / 10000, 3);
      Prepends(head + ['-'], b1, b2, k);
      Extends(head + ['-'] + b1, head + ['-'] + b2, ['-'] + s1, ['-'] + s2, |head| + 1 + k);
      assert head + ['-'] + b1 + (['-'] + s1) == Grouped(head, b1, s1);
      assert head + ['-'] + b2 + (['-'] + s2) == Grouped(head, b2, s2);
    }
  }

  ghost predicate Ascending(year: int, last: nat) {
    forall v1: nat, v2: nat :: v1 < v2 <= last ==> Less(Format(year, v1), Format(year, v2))
  }

  lemma NotLessAt(a: string, b: string, n: nat)
    requires n < |a| && n < |b| && a[..n] == b[..n] && b[n] < a[n]
    ensures !Less(a, b)
  {
    forall k: nat ensures !DiffersAt(a, b, k) {
      if k < n {
        assert a[..n][k] == b[..n][k];
      } else if n < k <= |a| && k <= |b| {
        assert a[..k][n] == a[n] && b[..k][n] == b[n];
      }
    }
  }

  lemma FirstDigits()
    ensures Group(999, 3)[0] == '9' && Group(1000, 3)[0] == '1'
  {
    assert Decimal(99) == Decimal(9) + "9" && Decimal(999) == Decimal(99) + "9";
    assert Decimal(10) == Decimal(1) + "0" && Decimal(100) == Decimal(10) + "0" && Decimal(1000) == Decimal(100) + "0";
  }

  lemma BlocksDecide(head: string, b1: string, s1: string, b2: string, s2: string)
    requires b1 != "" && b2 != "" && b2[0] < b1[0]
    ensures !Less(Grouped(head, b1, s1), Grouped(head, b2, s2))
  {
    var x, y := Grouped(head, b1, s1), Grouped(head, b2, s2);
    assert x[..|head| + 1] == head + ['-'] && y[..|head| + 1] == head + ['-'];
    NotLessAt(x, y, |head| + 1);
  }

  // Block 1000 sorts before block 999.
  lemma OverflowIsOutOfOrder(year: int, v1: nat, v2: nat)
    requires v1 / 10000 == 999 && v2 / 10000 == 1000
    ensures !Less(Format(year, v1), Format(year, v2))
  {
    FirstDigits();
    BlocksDecide(Head(year), Group(v1 / 10000, 3), Group(v1 % 10000, 4), Group(v2 / 10000, 3), Group(v2 % 10000, 4));
  }

  // Within a year the strings ascend with the sequence exactly up to the last
  // three-digit block.
  lemma AscendingIffThreeDigitBlocks(year: int, last: nat)
    ensures Ascending(year, last) <==> last < 10000000
  {
    if last < 10000000 {
      forall v1: nat, v2: nat | v1 < v2 <= last ensures Less(Format(year, v1), Format(year, v2)) {
        GroupsAreOrdered(Head(year), v1, v2);
        FormatIsFixedWidth(year, v1);
        FormatIsFixedWidth(year, v2);
      }
    } else {
      OverflowIsOutOfOrder(year, 9999999, 10000000);
    }
  }

  lemma FormatIsFixedWidth(year: int, v: nat)
    requires v < 10000000
    ensures Format(year, v) == Grouped(Head(year), Digits(v / 10000, 3), Digits(v % 10000, 4))
  {
    assert Power(3) == 1000 && Power(4) == 10000;
    GroupIsDigits(v / 10000, 3);
    GroupIsDigits(v % 10000, 4);
  }

  // ── The service ──────────────────────────────────────────────────────────

  class CertificateService {
    var sequence: nat                 // last value nextval returned
    ghost var issued: seq<string>

    ghost predicate Valid()
      reads this
    {
      && |issued| == sequence
      && forall i :: 0 <= i < |issued| ==> ValueOf(issued[i]) == Some(i + 1)
    }

    constructor ()
      ensures Valid() && issued == []
    {
      sequence, issued := 0, [];
    }

    method NextVal() returns (val: nat)
      modifies `sequence
      ensures val == sequence == old(sequence) + 1
    {
      sequence := sequence + 1;
      val := sequence;
    }

    // Every number issued is new, whatever years were passed.
    method GenerateCertificateNumber(retiredYear: int) returns (number: string)
      requires Valid()
      modifies this
      ensures Valid() && issued == old(issued) + [number]
      ensures number == Format(retiredYear, old(sequence) + 1) && number !in old(issued)
    {
      var value := NextVal();
      var block, serial := value / 10000, value % 10000;
      number := Grouped(Head(retiredYear), Group(block, 3), Group(serial, 4));
      ValueIsRecoverable(retiredYear, value);
      issued := issued + [number];
    }
  }
}
