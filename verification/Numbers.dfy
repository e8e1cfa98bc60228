/** Thousand-separated number inputs (static/base/crm_utils.js). */
module Numbers {
  import opened Text

  // ---- Cleaning and grouping ----

  predicate IsSpace(c: char) {
    || '\t' <= c <= '\r' || c == ' ' || c == '\U{a0}' || c == '\U{1680}' || '\U{2000}' <= c <= '\U{200a}'
    || c == '\U{2028}' || c == '\U{2029}' || c == '\U{202f}' || c == '\U{205f}' || c == '\U{3000}' || c == '\U{feff}'
  }

  function TrimLeft(s: string): string {
    if s != "" && IsSpace(s[0]) then TrimLeft(s[1..]) else s
  }

  function TrimRight(s: string): string {
    if s != "" && IsSpace(s[|s| - 1]) then TrimRight(s[..|s| - 1]) else s
  }

  predicate IsNegative(raw: string) {
    var s := TrimLeft(raw);
    s != "" && s[0] == '-'
  }

  /** The characters that satisfy `p`, in order. */
  function Keep(s: string, p: char -> bool): string {
    if s == "" then "" else Keep(s[..|s| - 1], p) + KeepOne(s[|s| - 1], p)
  }

  function KeepOne(c: char, p: char -> bool): string {
    if p(c) then [c] else ""
  }

  lemma Regroup(a: string, b: string, c: string)
    ensures a + b + c == a + (b + c)
  {}

  lemma KeepLast(s: string, c: char, p: char -> bool)
    ensures Keep(s + [c], p) == Keep(s, p) + KeepOne(c, p)
  {
    assert (s + [c])[..|s|] == s;
  }

  lemma {:induction false} KeepConcat(a: string, b: string, p: char -> bool)
    ensures Keep(a + b, p) == Keep(a, p) + Keep(b, p)
  {
    if b == "" {
      assert a + b == a;
    } else {
      var front, last := b[..|b| - 1], b[|b| - 1];
      KeepConcat(a, front, p);
      assert a + b == a + front + [last];
      KeepLast(a + front, last, p);
      Regroup(Keep(a, p), Keep(front, p), KeepOne(last, p));
    }
  }

  lemma {:induction false} KeepAll(s: string, p: char -> bool)
    requires forall i :: 0 <= i < |s| ==> p(s[i])
    ensures Keep(s, p) == s
  {
    if s != "" {
      KeepAll(s[..|s| - 1], p);
      assert s == s[..|s| - 1] + [s[|s| - 1]];
    }
  }

  lemma KeepOnly(c: char, p: char -> bool)
    ensures Keep([c], p) == KeepOne(c, p)
  {
    assert [c][..0] == "";
  }

  lemma KeepFirst(c: char, s: string, p: char -> bool)
    ensures Keep([c] + s, p) == KeepOne(c, p) + Keep(s, p)
  {
    KeepConcat([c], s, p);
    KeepOnly(c, p);
  }

  /** An inserted character that is not kept leaves no trace. */
  lemma KeepInsert(a: string, c: char, b: string, p: char -> bool)
    requires !p(c)
    ensures Keep(a + [c] + b, p) == Keep(a, p) + Keep(b, p)
  {
    KeepConcat(a + [c], b, p);
    KeepConcat(a, [c], p);
    KeepOnly(c, p);
    assert Keep(a, p) + "" == Keep(a, p);
  }

  predicate IsNumeric(c: char) {
    IsDigit(c) || c == '.'
  }

  /** The digits and points of the input. */
  function Clean(s: string): string {
    Keep(s, IsNumeric)
  }

  function BeforePoint(s: string): (p: string)
    ensures p <= s
  {
    if s == "" || s[0] == '.' then "" else [s[0]] + BeforePoint(s[1..])
  }

  predicate HasPoint(s: string) {
    BeforePoint(s) != s
  }

  function AfterPoint(s: string): string {
    if |BeforePoint(s)| < |s| then BeforePoint(s[|BeforePoint(s)| + 1..]) else ""
  }

  /** Drops zeros that are followed by another digit. */
  function StripZeros(s: string): string {
    if |s| > 1 && s[0] == '0' then StripZeros(s[1..]) else s
  }

  /** en-US grouping of an integer numeral. */
  function Group(s: string): string {
    if |s| <= 3 then s else Group(s[..|s| - 3]) + "," + s[|s| - 3..]
  }

  lemma {:induction false} KeepExact(s: string, p: char -> bool)
    ensures forall i :: 0 <= i < |Keep(s, p)| ==> p(Keep(s, p)[i])
  {
    if s != "" {
      KeepExact(s[..|s| - 1], p);
    }
  }

  lemma {:induction false} BeforePointNoPoint(s: string)
    ensures forall i :: 0 <= i < |BeforePoint(s)| ==> BeforePoint(s)[i] == s[i] != '.'
  {
    if s != "" && s[0] != '.' {
      BeforePointNoPoint(s[1..]);
    }
  }

  predicate AllNumeric(s: string) {
    forall i :: 0 <= i < |s| ==> IsNumeric(s[i])
  }

  lemma BeforePointDigits(s: string)
    requires AllNumeric(s)
    ensures AllDigits(BeforePoint(s))
  {
    BeforePointNoPoint(s);
  }

  lemma AfterPointDigits(s: string)
    requires AllNumeric(s)
    ensures AllDigits(AfterPoint(s))
  {
    var k := |BeforePoint(s)|;
    if k < |s| {
      BeforePointDigits(s[k + 1..]);
    }
  }

  lemma {:induction false} StripZerosCanonical(s: string)
    requires s != "" && AllDigits(s)
    ensures Canonical(StripZeros(s)) && NumeralValue(StripZeros(s)) == NumeralValue(s)
  {
    if |s| > 1 && s[0] == '0' {
      StripZerosCanonical(s[1..]);
      LeadingZero(s);
    }
  }

  lemma {:induction false} LeadingZero(s: string)
    requires |s| > 1 && AllDigits(s) && s[0] == '0'
    ensures NumeralValue(s[1..]) == NumeralValue(s)
  {
    var front := s[..|s| - 1];
    assert s[1..][..|s[1..]| - 1] == front[1..];
    if |front| > 1 {
      LeadingZero(front);
    } else {
      assert front == "0" && front[..0] == "" && front[1..] == "";
    }
  }

  /** The integer part as `parts[0]` holds it before conversion. */
  function IntegerPart(raw: string): string {
    StripZeros(BeforePoint(Clean(raw)))
  }

  const EXACT := 0x20_0000_0000_0000

  /** The integer part converts to a double without rounding. */
  predicate Exact(raw: string) {
    var p := IntegerPart(raw);
    AllDigits(p) && NumeralValue(p) < EXACT
  }

  function Point(s: string): string {
    ['.'] + s
  }

  function Fraction(raw: string): string {
    if HasPoint(Clean(raw)) then Point(AfterPoint(Clean(raw))) else ""
  }

  function Minus(s: string): string {
    ['-'] + s
  }

  function GroupDigits(raw: string): string
    requires Exact(raw)
  {
    var whole := IntegerPart(raw);
    var out := (if whole != "" then Group(Decimal(NumeralValue(whole))) else "") + Fraction(raw);
    if IsNegative(raw) && out != "" then Minus(out) else out
  }

  // ---- Idempotence ----

  lemma CleanDigits(s: string)
    requires AllDigits(s)
    ensures Clean(s) == s
  {
    KeepAll(s, IsNumeric);
  }

  lemma {:induction false} KeepGroup(s: string, p: char -> bool)
    requires !p(',') && forall i :: 0 <= i < |s| ==> p(s[i])
    ensures Keep(Group(s), p) == s
  {
    if |s| <= 3 {
      KeepAll(s, p);
    } else {
      var front, last := s[..|s| - 3], s[|s| - 3..];
      KeepGroup(front, p);
      KeepAll(last, p);
      KeepInsert(Group(front), ',', last, p);
      assert s == front + last;
    }
  }

  lemma {:induction false} GroupLength(s: string)
    ensures |Group(s)| == |s| + (if s == "" then 0 else (|s| - 1) / 3)
  {
    if |s| > 3 {
      GroupLength(s[..|s| - 3]);
    }
  }

  /** Commas stand at every fourth place from the right and nowhere else, and
      never in front. */
  lemma {:induction false} CommaPlaces(s: string)
    requires AllDigits(s)
    ensures var g := Group(s);
      && (forall k :: 0 <= k < |g| ==> (g[|g| - 1 - k] == ',' <==> k % 4 == 3))
      && (g != "" ==> g[0] != ',')
  {
    if |s| > 3 {
      var front, last := s[..|s| - 3], s[|s| - 3..];
      CommaPlaces(front);
      var g, f := Group(s), Group(front);
      forall k | 0 <= k < |g|
        ensures g[|g| - 1 - k] == ',' <==> k % 4 == 3
      {
        if k >= 4 {
          var j := k - 4;
          assert f[|f| - 1 - j] == ',' <==> j % 4 == 3;
        } else if k < 3 {
          assert g[|g| - 1 - k] == last[2 - k];
        }
      }
    }
  }

  lemma {:induction false} PointSplit(p: string, rest: string)
    requires AllDigits(p) && (rest == "" || rest[0] == '.')
    ensures BeforePoint(p + rest) == p
  {
    if p == "" {
      assert p + rest == rest;
    } else {
      PointSplit(p[1..], rest);
      assert (p + rest)[1..] == p[1..] + rest;
    }
  }

  /** The shape of a formatted number: digits grouped, and a fraction. */
  lemma Shape(raw: string)
    requires Exact(raw)
    ensures var p := IntegerPart(raw);
      && (p == "" || Canonical(p))
      && GroupDigits(raw) ==
           var out := Group(p) + Fraction(raw); if IsNegative(raw) && out != "" then Minus(out) else out
  {
    var p := IntegerPart(raw);
    KeepExact(raw, IsNumeric);
    BeforePointDigits(Clean(raw));
    var b := BeforePoint(Clean(raw));
    if b != "" {
      StripZerosCanonical(b);
      DecimalOfValue(p);
    }
  }

  lemma CleanFraction(raw: string)
    ensures Clean(Fraction(raw)) == Fraction(raw)
    ensures AllDigits(AfterPoint(Clean(raw)))
  {
    KeepExact(raw, IsNumeric);
    AfterPointDigits(Clean(raw));
    KeepAll(Fraction(raw), IsNumeric);
  }

  lemma CleanMinus(s: string)
    ensures Clean(Minus(s)) == Clean(s)
  {
    KeepFirst('-', s, IsNumeric);
    assert KeepOne('-', IsNumeric) == "";
  }

  lemma CleanGrouped(p: string, f: string)
    requires AllDigits(p) && Clean(f) == f
    ensures Clean(Group(p) + f) == p + f
  {
    KeepGroup(p, IsNumeric);
    KeepConcat(Group(p), f, IsNumeric);
  }

  /** Cleaning a formatted number gives back its digits and point. */
  lemma CleanFormatted(raw: string)
    requires Exact(raw)
    ensures Clean(GroupDigits(raw)) == IntegerPart(raw) + Fraction(raw)
  {
    Shape(raw);
    CleanFraction(raw);
    CleanGrouped(IntegerPart(raw), Fraction(raw));
    CleanMinus(Group(IntegerPart(raw)) + Fraction(raw));
  }

  lemma {:induction false} GroupStart(s: string)
    requires s != ""
    ensures Group(s) != "" && Group(s)[0] == s[0]
  {
    if |s| > 3 {
      GroupStart(s[..|s| - 3]);
    }
  }

  /** A formatted number starts with its sign, a digit or a point. */
  lemma SignOfFormatted(raw: string)
    requires Exact(raw)
    ensures GroupDigits(raw) != "" ==> (IsNegative(GroupDigits(raw)) <==> IsNegative(raw))
  {
    Shape(raw);
    var p, f := IntegerPart(raw), Fraction(raw);
    var out := Group(p) + f;
    if p != "" {
      GroupStart(p);
      assert out[0] == p[0];
    } else {
      assert out == f;
    }
    var r := GroupDigits(raw);
    if r != "" {
      assert !IsSpace(r[0]);
      assert TrimLeft(r) == r;
    }
  }

  lemma NoPointParts(p: string)
    requires AllDigits(p)
    ensures BeforePoint(p) == p
  {
    PointSplit(p, "");
    assert p + "" == p;
  }

  /** A cleaned text made of an integer part and a fraction splits into them. */
  lemma SplitParts(p: string, q: string)
    requires AllDigits(p) && AllDigits(q)
    ensures var s := p + Point(q); BeforePoint(s) == p && HasPoint(s) && AfterPoint(s) == q
  {
    PointSplit(p, Point(q));
    NoPointParts(q);
    var s := p + Point(q);
    assert s[|p| + 1..] == q;
  }

  lemma PartsOfFormatted(raw: string)
    requires Exact(raw)
    ensures var r := GroupDigits(raw);
      IntegerPart(r) == IntegerPart(raw) && Fraction(r) == Fraction(raw)
  {
    Shape(raw);
    CleanFormatted(raw);
    CleanFraction(raw);
    var p := IntegerPart(raw);
    SplitParts(p, AfterPoint(Clean(raw)));
    NoPointParts(p);
    assert p + "" == p;
  }

  /** Formatting a formatted number changes nothing. */
  lemma GroupDigitsIdempotent(raw: string)
    requires Exact(raw)
    ensures Exact(GroupDigits(raw)) && GroupDigits(GroupDigits(raw)) == GroupDigits(raw)
  {
    PartsOfFormatted(raw);
    SignOfFormatted(raw);
    Shape(raw);
    Shape(GroupDigits(raw));
  }

  // ---- What is typed ----

  predicate NoPoint(s: string) {
    forall i :: 0 <= i < |s| ==> s[i] != '.'
  }

  lemma {:induction false} KeepDigits(s: string)
    requires NoPoint(s)
    ensures Clean(s) == Keep(s, IsDigit) && AllDigits(Keep(s, IsDigit))
  {
    if s != "" {
      KeepDigits(s[..|s| - 1]);
    }
  }

  lemma CleanAfterPoint(fraction: string, more: string)
    requires NoPoint(fraction) && (more == "" || more[0] == '.')
    ensures var c := Clean(Point(fraction + more));
      c == Point(Keep(fraction, IsDigit) + Clean(more)) && (Clean(more) == "" || Clean(more)[0] == '.')
  {
    KeepFirst('.', fraction + more, IsNumeric);
    KeepConcat(fraction, more, IsNumeric);
    KeepDigits(fraction);
    if more != "" {
      KeepFirst('.', more[1..], IsNumeric);
      assert more == ['.'] + more[1..];
    }
  }

  /** A number typed without a point: its digits, less leading zeros, grouped. */
  lemma TypedWhole(raw: string)
    requires NoPoint(raw)
    ensures IntegerPart(raw) == StripZeros(Keep(raw, IsDigit)) && Fraction(raw) == ""
  {
    KeepDigits(raw);
    NoPointParts(Clean(raw));
  }

  lemma PartsAroundPoint(p: string, q: string, r: string)
    requires AllDigits(p) && AllDigits(q) && (r == "" || r[0] == '.')
    ensures var s := p + Point(q + r);
      BeforePoint(s) == p && HasPoint(s) && AfterPoint(s) == q
  {
    var s := p + Point(q + r);
    PointSplit(p, Point(q + r));
    assert s[|p| + 1..] == q + r;
    PointSplit(q, r);
  }

  lemma TypedClean(whole: string, fraction: string, more: string)
    requires NoPoint(whole) && NoPoint(fraction) && (more == "" || more[0] == '.')
    ensures Clean(whole + Point(fraction + more))
      == Keep(whole, IsDigit) + Point(Keep(fraction, IsDigit) + Clean(more))
  {
    KeepConcat(whole, Point(fraction + more), IsNumeric);
    KeepDigits(whole);
    CleanAfterPoint(fraction, more);
  }

  /** A number typed with a point: the digits before it make the integer part,
      those up to a second point the fraction, and what follows is dropped. */
  lemma TypedFraction(whole: string, fraction: string, more: string)
    requires NoPoint(whole) && NoPoint(fraction) && (more == "" || more[0] == '.')
    ensures var raw := whole + Point(fraction + more);
      && IntegerPart(raw) == StripZeros(Keep(whole, IsDigit))
      && Fraction(raw) == Point(Keep(fraction, IsDigit))
  {
    TypedClean(whole, fraction, more);
    KeepDigits(whole);
    KeepDigits(fraction);
    CleanAfterPoint(fraction, more);
    PartsAroundPoint(Keep(whole, IsDigit), Keep(fraction, IsDigit), Clean(more));
  }

  /** A number is negative exactly if its first character that is no blank is a
      minus. */
  lemma {:induction false} NegativeIff(raw: string)
    ensures IsNegative(raw) <==>
      exists i :: 0 <= i < |raw| && raw[i] == '-' && forall j :: 0 <= j < i ==> IsSpace(raw[j])
  {
    if raw != "" && IsSpace(raw[0]) {
      NegativeIff(raw[1..]);
      if i :| 0 <= i < |raw[1..]| && raw[1..][i] == '-' && forall j :: 0 <= j < i ==> IsSpace(raw[1..][j]) {
        assert raw[i + 1] == '-';
        assert forall j :: 0 < j < i + 1 ==> raw[j] == raw[1..][j - 1];
      }
      if i :| 0 <= i < |raw| && raw[i] == '-' && forall j :: 0 <= j < i ==> IsSpace(raw[j]) {
        assert raw[1..][i - 1] == '-';
      }
    }
  }

  // ---- Parsing ----

  datatype Parsed = Null | Integer(n: int) | NotInteger

  predicate NotComma(c: char) {
    c != ','
  }

  function WithoutCommas(s: string): string {
    Keep(s, NotComma)
  }

  function Signed(negative: bool, n: nat): int {
    if negative then 0 - n else n
  }

  /** Conversion of the texts that denote an integer. */
  function NumberOf(v: string): Parsed {
    if v != "" && AllDigits(v) then Integer(NumeralValue(v))
    else if |v| > 1 && v[0] == '-' && AllDigits(v[1..]) then Integer(Signed(true, NumeralValue(v[1..])))
    else NotInteger
  }

  function ParseNumber(s: string): Parsed {
    var v := TrimRight(TrimLeft(WithoutCommas(s)));
    if v == "" then Null else NumberOf(v)
  }

  lemma TrimFixes(v: string)
    requires v != "" && !IsSpace(v[0]) && !IsSpace(v[|v| - 1])
    ensures TrimRight(TrimLeft(v)) == v
  {}

  lemma ParseOfTrimmed(v: string, s: string)
    requires WithoutCommas(s) == v && v != "" && !IsSpace(v[0]) && !IsSpace(v[|v| - 1])
    ensures ParseNumber(s) == NumberOf(v)
  {
    TrimFixes(v);
  }

  lemma {:induction false} TrimLeftBlank(s: string)
    ensures TrimLeft(s) == "" <==> forall i :: 0 <= i < |s| ==> IsSpace(s[i])
    ensures TrimLeft(s) != "" ==> !IsSpace(TrimLeft(s)[0])
  {
    if s != "" && IsSpace(s[0]) {
      TrimLeftBlank(s[1..]);
      assert forall i :: 0 < i < |s| ==> s[i] == s[1..][i - 1];
    }
  }

  lemma {:induction false} TrimRightKeeps(s: string)
    requires s != "" ==> !IsSpace(s[0])
    ensures TrimRight(s) == "" <==> s == ""
  {
    if s != "" && IsSpace(s[|s| - 1]) {
      TrimRightKeeps(s[..|s| - 1]);
    }
  }

  /** Nothing but blanks and commas is no number; anything else is one or not. */
  lemma ParseNullIff(s: string)
    ensures ParseNumber(s) == Null <==>
      forall i :: 0 <= i < |WithoutCommas(s)| ==> IsSpace(WithoutCommas(s)[i])
  {
    TrimLeftBlank(WithoutCommas(s));
    TrimRightKeeps(TrimLeft(WithoutCommas(s)));
  }

  lemma NumberOfMinus(p: string)
    requires p != "" && AllDigits(p)
    ensures NumberOf(Minus(p)) == Integer(Signed(true, NumeralValue(p)))
  {
    var v := Minus(p);
    assert v[0] == '-' && v[1..] == p && !IsDigit(v[0]);
  }

  lemma UngroupMinus(p: string)
    requires AllDigits(p)
    ensures WithoutCommas(Minus(Group(p))) == Minus(p)
  {
    KeepGroup(p, NotComma);
    KeepFirst('-', Group(p), NotComma);
  }

  lemma ParseOfMinus(p: string, text: string)
    requires p != "" && AllDigits(p) && WithoutCommas(text) == Minus(p)
    ensures ParseNumber(text) == Integer(Signed(true, NumeralValue(p)))
  {
    var v := Minus(p);
    assert v[|v| - 1] == p[|p| - 1] && v[0] == '-';
    ParseOfTrimmed(v, text);
    NumberOfMinus(p);
  }

  /** Parsing a grouped numeral, with or without a minus. */
  lemma ParseOfGrouped(p: string, negative: bool)
    requires p != "" && AllDigits(p)
    ensures ParseNumber(if negative then Minus(Group(p)) else Group(p)) == Integer(Signed(negative, NumeralValue(p)))
  {
    if negative {
      UngroupMinus(p);
      ParseOfMinus(p, Minus(Group(p)));
    } else {
      KeepGroup(p, NotComma);
      ParseOfTrimmed(p, Group(p));
    }
  }

  /** Parsing what formatting made of a whole number typed in any way gives the
      number its digits denote, negated if it was typed with a leading minus. */
  lemma ParseOfFormatted(raw: string)
    requires Exact(raw) && Clean(raw) != "" && AllDigits(Clean(raw))
    ensures ParseNumber(GroupDigits(raw)) == Integer(Signed(IsNegative(raw), NumeralValue(Clean(raw))))
  {
    Shape(raw);
    var p := IntegerPart(raw);
    NoPointParts(Clean(raw));
    StripZerosCanonical(Clean(raw));
    assert Group(p) + "" == Group(p);
    GroupStart(p);
    ParseOfGrouped(p, IsNegative(raw));
  }

  function DecimalOf(n: int): string {
    if n < 0 then Minus(Decimal(-n)) else Decimal(n)
  }

  lemma MinusShape(digits: string)
    requires AllDigits(digits)
    ensures Clean(Minus(digits)) == digits && IsNegative(Minus(digits))
  {
    CleanDigits(digits);
    CleanMinus(digits);
    assert Minus(digits)[0] == '-';
  }

  lemma PlainShape(digits: string)
    requires AllDigits(digits) && digits != ""
    ensures Clean(digits) == digits && !IsNegative(digits)
  {
    CleanDigits(digits);
    assert IsDigit(digits[0]);
  }

  /** Printing an integer below 2^53 in size, formatting and parsing is the
      identity. */
  lemma FormatParseRoundTrip(n: int)
    requires -9007199254740992 < n < 9007199254740992
    ensures Exact(DecimalOf(n)) && ParseNumber(GroupDigits(DecimalOf(n))) == Integer(n)
  {
    var size := if n < 0 then -n else n;
    var digits := Decimal(size);
    if n < 0 {
      MinusShape(digits);
    } else {
      PlainShape(digits);
    }
    ValueOfDecimal(size);
    NoPointParts(digits);
    StripZerosCanonical(digits);
    ParseOfFormatted(DecimalOf(n));
  }

  // ---- The caret ----

  function CountDigits(s: string): nat {
    if s == "" then 0 else CountDigits(s[..|s| - 1]) + (if IsDigit(s[|s| - 1]) then 1 else 0)
  }

  lemma {:induction false} CountDigitsPrefix(s: string, i: nat)
    requires i <= |s|
    ensures CountDigits(s[..i]) <= CountDigits(s)
    decreases |s|
  {
    if i < |s| {
      CountDigitsPrefix(s[..|s| - 1], i);
      assert s[..|s| - 1][..i] == s[..i];
    } else {
      assert s[..i] == s;
    }
  }

  /** Restores the caret after `digitsLeft` digits. With none to its left it
      lands after the first character; with too many, at the end. */
  method RestoreCaret(formatted: string, digitsLeft: nat) returns (pos: nat)
    ensures pos <= |formatted|
    ensures 1 <= digitsLeft <= CountDigits(formatted) ==>
      pos > 0 && CountDigits(formatted[..pos]) == digitsLeft && IsDigit(formatted[pos - 1])
    ensures digitsLeft > CountDigits(formatted) ==> pos == |formatted|
    ensures digitsLeft == 0 ==> pos == if formatted == "" then 0 else 1
  {
    var seen := 0;
    pos := |formatted|;
    var i := 0;
    while i < |formatted|
      invariant i <= |formatted| && pos == |formatted|
      invariant seen == CountDigits(formatted[..i])
      invariant i > 0 ==> seen < digitsLeft
    {
      assert formatted[..i + 1][..i] == formatted[..i];
      if IsDigit(formatted[i]) {
        seen := seen + 1;
      }
      CountDigitsPrefix(formatted, i + 1);
      if seen >= digitsLeft {
        pos := i + 1;
        return;
      }
      i := i + 1;
    }
    assert formatted[..i] == formatted;
  }

  /** The input handler: the new value and caret. */
  method OnInput(value: string, caret: nat) returns (formatted: string, newCaret: nat)
    requires Exact(value) && caret <= |value|
    ensures formatted == GroupDigits(value)
    ensures formatted == value ==> newCaret == caret
    ensures newCaret <= |formatted|
    ensures var digitsLeft := CountDigits(value[..caret]);
      formatted != value && 1 <= digitsLeft <= CountDigits(formatted) ==>
        CountDigits(formatted[..newCaret]) == digitsLeft
  {
    var digitsLeft := 0;
    var i := 0;
    while i < caret
      invariant i <= caret && digitsLeft == CountDigits(value[..i])
    {
      assert value[..i + 1][..i] == value[..i];
      if IsDigit(value[i]) {
        digitsLeft := digitsLeft + 1;
      }
      i := i + 1;
    }
    formatted := GroupDigits(value);
    if formatted == value {
      return formatted, caret;
    }
    newCaret := RestoreCaret(formatted, digitsLeft);
  }
}
