/** The parts of Go's strings and strconv packages that decimal literals go through. */
module Text {
  import opened Wrappers
  import opened Int64

  /** The Unicode White_Space code points that strings.TrimSpace removes. */
  predicate IsSpace(c: char) {
    || '\t' <= c <= '\r'
    || c in {' ', '\U{0085}', '\U{00A0}', '\U{1680}', '\U{2028}', '\U{2029}', '\U{202F}', '\U{205F}', '\U{3000}'}
    || '\U{2000}' <= c <= '\U{200A}'
  }

  function TrimLeft(s: string): string {
    if s != "" && IsSpace(s[0]) then TrimLeft(s[1..]) else s
  }

  function TrimRight(s: string): string {
    if s != "" && IsSpace(s[|s| - 1]) then TrimRight(s[..|s| - 1]) else s
  }

  function TrimSpace(s: string): string {
    TrimRight(TrimLeft(s))
  }

  predicate IsDigit(c: char) {
    '0' <= c <= '9'
  }

  predicate AllDigits(s: string) {
    forall i :: 0 <= i < |s| ==> IsDigit(s[i])
  }

  function DigitChar(d: int): char
    requires 0 <= d < 10
  {
    '0' + d as char
  }

  /** The number a string of digits denotes. */
  function NumberOf(s: string): (n: nat)
    requires AllDigits(s)
  {
    if s == "" then 0 else 10 * NumberOf(s[..|s| - 1]) + (s[|s| - 1] - '0') as nat
  }

  /** The decimal digits of a number, without leading zeros. */
  function DigitsOf(n: nat): string {
    if n < 10 then [DigitChar(n)] else DigitsOf(n / 10) + [DigitChar(n % 10)]
  }

  /** strconv.FormatInt in base 10. */
  function FormatInt(v: int64): string {
    if v < 0 then "-" + DigitsOf(0 - v) else DigitsOf(v)
  }

  /** strconv.ParseInt in base 10 for 64 bits: one optional sign, then at least one digit, in range. */
  function ParseInt(s: string): Option<int64> {
    var neg := s != "" && s[0] == '-';
    var body := if s != "" && (s[0] == '-' || s[0] == '+') then s[1..] else s;
    if body == "" || !AllDigits(body) then None
    else Checked(if neg then 0 - NumberOf(body) else NumberOf(body))
  }

  /** Position of the first '.', or the length when there is none. */
  function DotIndex(s: string): (i: nat)
    ensures i <= |s|
    ensures i < |s| ==> s[i] == '.'
    ensures forall j :: 0 <= j < i ==> s[j] != '.'
  {
    if s == "" || s[0] == '.' then 0 else 1 + DotIndex(s[1..])
  }

  function Zeros(n: nat): (s: string)
    ensures |s| == n && forall i :: 0 <= i < n ==> s[i] == '0'
  {
    seq(n, _ => '0')
  }

  lemma ZerosGrow(k: nat, s: string)
    ensures "0" + (Zeros(k) + s) == Zeros(k + 1) + s
    ensures (s + Zeros(k)) + "0" == s + Zeros(k + 1)
  {}

  function Pow10(n: nat): (p: nat)
    ensures p > 0
  {
    if n == 0 then 1 else 10 * Pow10(n - 1)
  }

  lemma {:induction false} DigitsDenote(n: nat)
    ensures DigitsOf(n) != "" && AllDigits(DigitsOf(n)) && NumberOf(DigitsOf(n)) == n
  {
    if n >= 10 {
      DigitsDenote(n / 10);
      var s := DigitsOf(n);
      assert s[..|s| - 1] == DigitsOf(n / 10);
    }
  }

  lemma {:induction false} NoLeadingZero(n: nat)
    ensures |DigitsOf(n)| > 0 && (n > 0 ==> DigitsOf(n)[0] != '0') && (n == 0 ==> |DigitsOf(n)| == 1)
  {
    if n >= 10 { NoLeadingZero(n / 10); }
  }

  lemma {:induction false} DigitsLength(n: nat, k: nat)
    requires k > 0 && n < Pow10(k)
    ensures |DigitsOf(n)| <= k
  {
    if n >= 10 {
      DigitsLength(n / 10, k - 1);
    }
  }

  lemma {:induction false} NumberBelow(s: string)
    requires AllDigits(s)
    ensures NumberOf(s) < Pow10(|s|)
  {
    if s != "" { NumberBelow(s[..|s| - 1]); }
  }

  lemma TenTimes(n: int, p: int)
    ensures n * (10 * p) == 10 * (n * p)
  {}

  /** Zeros on the right scale the number. */
  lemma {:induction false} ZerosRight(s: string, k: nat)
    requires AllDigits(s)
    ensures AllDigits(s + Zeros(k)) && NumberOf(s + Zeros(k)) == NumberOf(s) * Pow10(k)
  {
    if k == 0 {
      assert s + Zeros(0) == s;
    } else {
      ZerosRight(s, k - 1);
      var t := s + Zeros(k);
      assert t[..|t| - 1] == s + Zeros(k - 1);
      TenTimes(NumberOf(s), Pow10(k - 1));
    }
  }

  /** Zeros on the left change nothing. */
  lemma {:induction false} ZerosLeft(k: nat, s: string)
    requires AllDigits(s)
    ensures AllDigits(Zeros(k) + s) && NumberOf(Zeros(k) + s) == NumberOf(s)
  {
    if s == "" {
      ZerosRight("", k);
      assert Zeros(k) + s == "" + Zeros(k);
    } else {
      ZerosLeft(k, s[..|s| - 1]);
      var t := Zeros(k) + s;
      assert t[..|t| - 1] == Zeros(k) + s[..|s| - 1];
    }
  }

  predicate AllSpaces(s: string) {
    forall i :: 0 <= i < |s| ==> IsSpace(s[i])
  }

  /** What trimming takes off each end. */
  lemma Trimmed(s: string) returns (before: string, after: string)
    ensures AllSpaces(before) && AllSpaces(after) && s == before + TrimSpace(s) + after
  {
    hide IsSpace;
    before := TrimmedLeft(s);
    after := TrimmedRight(TrimLeft(s));
  }

  lemma {:induction false} TrimmedLeft(s: string) returns (before: string)
    ensures AllSpaces(before) && s == before + TrimLeft(s)
  {
    hide IsSpace;
    before := "";
    if s != "" && IsSpace(s[0]) {
      var rest := TrimmedLeft(s[1..]);
      before := [s[0]] + rest;
    }
  }

  lemma {:induction false} TrimmedRight(s: string) returns (after: string)
    ensures AllSpaces(after) && s == TrimRight(s) + after
  {
    hide IsSpace;
    after := "";
    if s != "" && IsSpace(s[|s| - 1]) {
      var rest := TrimmedRight(s[..|s| - 1]);
      after := rest + [s[|s| - 1]];
    }
  }

  lemma {:induction false} TrimLeftOf(before: string, s: string)
    requires AllSpaces(before) && s != "" && !IsSpace(s[0])
    ensures TrimLeft(before + s) == s
  {
    hide IsSpace;
    if before == "" {
      assert before + s == s;
    } else {
      TrimLeftOf(before[1..], s);
      assert (before + s)[1..] == before[1..] + s;
    }
  }

  lemma {:induction false} TrimRightOf(s: string, after: string)
    requires AllSpaces(after) && s != "" && !IsSpace(s[|s| - 1])
    ensures TrimRight(s + after) == s
  {
    hide IsSpace;
    if after == "" {
      assert s + after == s;
    } else {
      TrimRightOf(s, after[..|after| - 1]);
      assert (s + after)[..|s + after| - 1] == s + after[..|after| - 1];
    }
  }

  lemma TrimAround(before: string, core: string, after: string)
    requires AllSpaces(before) && AllSpaces(after)
    requires core != "" && !IsSpace(core[0]) && !IsSpace(core[|core| - 1])
    ensures TrimSpace(before + core + after) == core
  {
    hide IsSpace;
    assert before + core + after == before + (core + after);
    TrimLeftOf(before, core + after);
    TrimRightOf(core, after);
  }

  lemma TrimNothing(s: string)
    requires s != "" && !IsSpace(s[0]) && !IsSpace(s[|s| - 1])
    ensures TrimSpace(s) == s
  {}

  lemma DotAfter(w: string, rest: string)
    requires forall i :: 0 <= i < |w| ==> w[i] != '.'
    requires rest == "" || rest[0] == '.'
    ensures DotIndex(w + rest) == |w|
  {
    var i := DotIndex(w + rest);
    assert forall j :: 0 <= j < |w| ==> (w + rest)[j] == w[j];
    assert rest != "" ==> (w + rest)[|w|] == '.';
    assert i >= |w|;
  }
}

/** The decimal parser and printer of internal/domain/money.go. */
module Decimal {
  import opened Wrappers
  import opened Int64
  import opened FixedPoint
  import opened Text

  /** The two scales the program uses: three decimals for quantities, four for money. */
  predicate UsedScale(scale: int64) {
    scale == QUANTITY_SCALE || scale == MONEY_SCALE
  }

  /** Divisions by ten needed to bring a scale down to 1 or less. */
  function DigitCount(t: int): (d: nat)
    ensures t < 2 * Pow10(d)
    ensures d > 0 ==> 2 * Pow10(d - 1) <= t
    decreases if t < 0 then 0 else t
  {
    if t <= 1 then 0
    else
      var d := DigitCount(t / 10);
      if d > 0 then assert Pow10(d) == 10 * Pow10(d - 1); 1 + d else 1
  }

  /** The count is the only d with 2 * 10^(d-1) <= scale < 2 * 10^d. */
  method ScaleDigits(scale: int64) returns (digits: nat)
    ensures digits == DigitCount(scale)
    ensures scale < 2 * Pow10(digits) && (digits > 0 ==> 2 * Pow10(digits - 1) <= scale)
  {
    digits := 0;
    var t: int := scale;
    while t > 1
      invariant digits + DigitCount(t) == DigitCount(scale)
    {
      digits := digits + 1;
      t := t / 10;
    }
  }

  lemma UsedScaleDigits()
    ensures DigitCount(1000) == 3 && Pow10(3) == 1000
    ensures DigitCount(10000) == 4 && Pow10(4) == 10000
  {
    assert DigitCount(1) == 0;
    assert DigitCount(10) == 1;
    assert DigitCount(100) == 2;
    assert Pow10(2) == 100;
  }

  /** Value of a literal after trimming and taking its leading sign off. */
  function UnsignedValue(u: string, scale: int64): Option<int64> {
    var i := DotIndex(u);
    var intPart := u[..i];
    var fracPart := if i < |u| then u[i + 1..] else "";
    var digits := DigitCount(scale);
    if intPart == "" && fracPart == "" then None
    else if |fracPart| > digits then None
    else PartsValue(intPart, fracPart + Zeros(digits - |fracPart|), scale)
  }

  /** Whole part times scale plus fraction, both steps checked. */
  function Combine(whole: int64, frac: int64, scale: int64): Option<int64> {
    var prod := MulI64(whole, scale);
    if prod == None then None else AddI64(prod.value, frac)
  }

  /** Integer part and padded fraction put together with checked arithmetic. */
  function PartsValue(intPart: string, fracPart: string, scale: int64): Option<int64> {
    var whole := if intPart == "" then Some(0) else ParseInt(intPart);
    var frac := if fracPart == "" then Some(0) else ParseInt(fracPart);
    if whole == None || frac == None then None
    else Combine(whole.value, frac.value, scale)
  }

  /** Minor units denoted by a literal, None when it is refused. */
  function FixedValue(s: string, scale: int64): Option<int64> {
    var t := TrimSpace(s);
    if t == "" then None
    else
      var u := if t[0] == '-' || t[0] == '+' then t[1..] else t;
      var v := UnsignedValue(u, scale);
      if v.Some? && t[0] == '-' then Some(Neg(v.value)) else v
  }

  method ParseFixed(s: string, scale: int64) returns (r: Option<int64>)
    ensures r == FixedValue(s, scale)
  {
    hide UnsignedValue, Neg, TrimSpace;
    var t := TrimSpace(s);
    if t == "" {
      return None;
    }
    var neg := false;
    if t[0] == '-' {
      neg := true;
      t := t[1..];
    } else if t[0] == '+' {
      t := t[1..];
    }
    var sum := ParseUnsigned(t, scale);
    if sum == None {
      return None;
    }
    r := if neg then Some(Neg(sum.value)) else sum;
  }

  /** The literal without its sign: split at the dot, pad the fraction, put the parts together. */
  method ParseUnsigned(t: string, scale: int64) returns (r: Option<int64>)
    ensures r == UnsignedValue(t, scale)
  {
    hide PartsValue, DigitCount, DotIndex, Zeros;
    var intPart, fracPart := t, "";
    var i := DotIndex(t);
    if i < |t| {
      intPart, fracPart := t[..i], t[i + 1..];
    }
    assert intPart == t[..i];
    if intPart == "" && fracPart == "" {
      return None;
    }
    var digits := ScaleDigits(scale);
    if |fracPart| > digits {
      return None;
    }
    fracPart := PadFraction(fracPart, digits);
    r := ParseParts(intPart, fracPart, scale);
  }

  method PadFraction(written: string, digits: nat) returns (fracPart: string)
    requires |written| <= digits
    ensures fracPart == written + Zeros(digits - |written|)
  {
    fracPart := written;
    while |fracPart| < digits
      invariant |written| <= |fracPart| <= digits
      invariant fracPart == written + Zeros(|fracPart| - |written|)
    {
      ZerosGrow(|fracPart| - |written|, written);
      fracPart := fracPart + "0";
    }
  }

  method ParseParts(intPart: string, fracPart: string, scale: int64) returns (r: Option<int64>)
    ensures r == PartsValue(intPart, fracPart, scale)
  {
    hide MulI64, AddI64, ParseInt;
    var whole: int64 := 0;
    if intPart != "" {
      var w := ParseInt(intPart);
      if w == None {
        return None;
      }
      whole := w.value;
    }
    var frac: int64 := 0;
    if fracPart != "" {
      var f := ParseInt(fracPart);
      if f == None {
        return None;
      }
      frac := f.value;
    }
    var prod := MulI64(whole, scale);
    if prod == None {
      return None;
    }
    r := AddI64(prod.value, frac);
  }

  function PadLeft(s: string, n: nat): string {
    if |s| < n then Zeros(n - |s|) + s else s
  }

  /** Decimal rendering of v minor units. */
  function FixedText(v: int64, scale: int64): string
    requires scale > 0
  {
    var a := if v < 0 then Neg(v) else v;
    var digits := DigitCount(scale);
    var whole, frac := Wrap(Quo(a, scale)), Wrap(Rem(a, scale));
    var out := FormatInt(whole) + if digits > 0 then "." + PadLeft(FormatInt(frac), digits) else "";
    if v < 0 then "-" + out else out
  }

  method FormatFixed(v: int64, scale: int64) returns (out: string)
    requires scale > 0
    ensures out == FixedText(v, scale)
  {
    hide Quo, Rem, Wrap, Neg, FormatInt, DigitCount, Zeros;
    var neg := v < 0;
    var a := v;
    if neg {
      a := Neg(a);
    }
    var whole, frac := Wrap(Quo(a, scale)), Wrap(Rem(a, scale));
    out := FormatInt(whole);
    var digits := ScaleDigits(scale);
    if digits > 0 {
      var fs := FormatInt(frac);
      ghost var written := fs;
      while |fs| < digits
        invariant |written| <= |fs| && (|fs| <= digits || fs == written)
        invariant fs == Zeros(|fs| - |written|) + written
      {
        fs := "0" + fs;
      }
      assert fs == PadLeft(written, digits);
      out := out + ("." + fs);
    }
    if neg {
      out := "-" + out;
    }
  }

  // ---------------------------------------------------------------- what a literal means

  datatype Sign = Unsigned | Plus | Minus

  function SignText(g: Sign): string {
    match g
    case Unsigned => ""
    case Plus => "+"
    case Minus => "-"
  }

  function Times(g: Sign, n: int): int {
    if g == Minus then 0 - n else n
  }

  /** Digits behind an optional sign of their own: what strconv.ParseInt takes. */
  datatype Field = Field(sign: Sign, digits: string)

  function FieldText(f: Field): string {
    SignText(f.sign) + f.digits
  }

  /** All the freedom there is in spelling an amount: space around it, its sign, and a sign inside either part. */
  datatype Spelling = Spelling(before: string, sign: Sign, whole: Field, dot: bool, frac: Field, after: string)

  function Body(x: Spelling): string {
    FieldText(x.whole) + if x.dot then "." + FieldText(x.frac) else ""
  }

  function Spelled(x: Spelling): string {
    x.before + (SignText(x.sign) + Body(x)) + x.after
  }

  predicate WellFormed(x: Spelling, scale: int64) {
    && AllSpaces(x.before) && AllSpaces(x.after)
    && AllDigits(x.whole.digits) && AllDigits(x.frac.digits)
    && (x.whole.digits == "" ==> x.whole.sign == Unsigned)
    && (x.sign == Unsigned ==> x.whole.sign == Unsigned)
    && (!x.dot ==> FieldText(x.frac) == "")
    && FieldText(x.whole) + FieldText(x.frac) != ""
    && |FieldText(x.frac)| <= DigitCount(scale)
  }

  /** The whole part, in minor units. */
  function WholeUnits(x: Spelling, scale: int64): int
    requires AllDigits(x.whole.digits)
  {
    Times(x.whole.sign, NumberOf(x.whole.digits)) * scale
  }

  /** The fraction; a sign inside it takes the place of its last digit. */
  function FracUnits(x: Spelling, scale: int64): int
    requires AllDigits(x.frac.digits) && |FieldText(x.frac)| <= DigitCount(scale)
  {
    Times(x.frac.sign, NumberOf(x.frac.digits) * Pow10(DigitCount(scale) - |FieldText(x.frac)|))
  }

  /** Both checked steps succeed: the whole part on its own, then the sum. */
  predicate Representable(x: Spelling, scale: int64)
    requires WellFormed(x, scale)
  {
    Fits(WholeUnits(x, scale)) && Fits(WholeUnits(x, scale) + FracUnits(x, scale))
  }

  lemma ParseField(f: Field)
    requires AllDigits(f.digits) && f.digits != ""
    ensures ParseInt(FieldText(f)) == Checked(Times(f.sign, NumberOf(f.digits)))
  {
    hide NumberOf;
    assert IsDigit(f.digits[0]);
    if f.sign != Unsigned { assert FieldText(f)[1..] == f.digits; } else { assert FieldText(f) == f.digits; }
  }

  /** Whatever ParseInt accepts is a field. */
  lemma FieldOf(s: string) returns (f: Field)
    requires ParseInt(s).Some?
    ensures AllDigits(f.digits) && f.digits != "" && FieldText(f) == s
  {
    hide NumberOf;
    f := if s[0] == '-' then Field(Minus, s[1..]) else if s[0] == '+' then Field(Plus, s[1..]) else Field(Unsigned, s);
  }

  /** The checks of both steps are exact for every whole part and every fraction a field of that scale can hold. */
  lemma CombineExact(whole: int64, frac: int64, scale: int64)
    requires UsedScale(scale) && 0 - scale / 10 < frac < scale
    ensures Combine(whole, frac, scale) == if Fits(whole * scale) then Checked(whole * scale + frac) else None
    ensures Fits(whole * scale) ==> whole * scale + frac != MIN_INT64
  {
    hide MulI64, AddI64;
    MulI64Exact(whole, scale);
    if Fits(whole * scale) { AddI64Exact(whole * scale, frac); }
  }

  /** Padding a fraction field fills up its digits. */
  lemma PaddedField(f: Field, scale: int64)
    requires UsedScale(scale) && AllDigits(f.digits) && |FieldText(f)| <= DigitCount(scale)
    ensures var units := NumberOf(f.digits) * Pow10(DigitCount(scale) - |FieldText(f)|);
      && ParseInt(FieldText(f) + Zeros(DigitCount(scale) - |FieldText(f)|)) == Some(Times(f.sign, units))
      && 0 - scale / 10 < Times(f.sign, units) < scale
  {
    hide NumberOf, DigitCount, Pow10, ParseInt, Zeros;
    UsedScaleDigits();
    SmallPowers();
    var k := DigitCount(scale) - |FieldText(f)|;
    var padded := Field(f.sign, f.digits + Zeros(k));
    ZerosRight(f.digits, k);
    assert FieldText(f) + Zeros(k) == FieldText(padded);
    ParseField(padded);
    NumberBelow(padded.digits);
  }

  lemma PartsMeaning(x: Spelling, scale: int64)
    requires UsedScale(scale) && WellFormed(x, scale)
    ensures PartsValue(FieldText(x.whole), FieldText(x.frac) + Zeros(DigitCount(scale) - |FieldText(x.frac)|), scale)
         == if Representable(x, scale) then Some(WholeUnits(x, scale) + FracUnits(x, scale)) else None
    ensures Representable(x, scale) ==> WholeUnits(x, scale) + FracUnits(x, scale) != MIN_INT64
  {
    hide Combine, NumberOf, DigitCount, Pow10, ParseInt, Zeros, AllSpaces;
    UsedScaleDigits();
    PaddedField(x.frac, scale);
    var n := Times(x.whole.sign, NumberOf(x.whole.digits));
    if x.whole.digits == "" {
      NoDigits();
    } else {
      ParseField(x.whole);
    }
    ScaledFits(n, scale);
    if Fits(n) { CombineExact(n, FracUnits(x, scale), scale); }
  }

  lemma NoDigits()
    ensures AllDigits("") && NumberOf("") == 0 && FieldText(Field(Unsigned, "")) == ""
  {}

  lemma ScaledFits(n: int, scale: int64)
    requires UsedScale(scale)
    ensures Fits(n * scale) ==> Fits(n)
  {}

  /** The first dot of a body is the one between its parts. */
  lemma BodyMeaning(x: Spelling, scale: int64)
    requires UsedScale(scale) && WellFormed(x, scale)
    ensures UnsignedValue(Body(x), scale)
         == PartsValue(FieldText(x.whole), FieldText(x.frac) + Zeros(DigitCount(scale) - |FieldText(x.frac)|), scale)
  {
    hide PartsValue, DigitCount, DotIndex, Zeros, AllSpaces;
    var w, u := FieldText(x.whole), Body(x);
    var rest := if x.dot then "." + FieldText(x.frac) else "";
    DotAfter(w, rest);
    assert u[..|w|] == w;
    if x.dot { assert u[|w| + 1..] == FieldText(x.frac); }
  }

  predicate AmountChar(c: char) {
    IsDigit(c) || c in {'.', '+', '-'}
  }

  lemma BodyChars(x: Spelling, scale: int64)
    requires WellFormed(x, scale)
    ensures Body(x) != "" && forall i :: 0 <= i < |Body(x)| ==> AmountChar(Body(x)[i])
    ensures x.sign == Unsigned ==> Body(x)[0] != '-' && Body(x)[0] != '+'
  {
    hide DigitCount, AllSpaces;
  }

  /**
   What every spelling means, inner signs included: the value of its parts, negated behind an outer minus, and
   refused exactly when the whole part or the sum leaves 64 bits.
   */
  lemma SpellingMeaning(x: Spelling, scale: int64)
    requires UsedScale(scale) && WellFormed(x, scale)
    ensures FixedValue(Spelled(x), scale) ==
      if Representable(x, scale) then Some(Times(x.sign, WholeUnits(x, scale) + FracUnits(x, scale))) else None
  {
    hide UnsignedValue, PartsValue, TrimSpace, Representable, WholeUnits, FracUnits, DigitCount, AllSpaces, Body,
      AmountChar, SignText, FieldText;
    BodyChars(x, scale);
    var core := SignText(x.sign) + Body(x);
    CoreEnds(x);
    TrimAround(x.before, core, x.after);
    PartsMeaning(x, scale);
    BodyMeaning(x, scale);
    CoreWithoutSign(x);
  }

  lemma CoreWithoutSign(x: Spelling)
    requires Body(x) != "" && (x.sign == Unsigned ==> Body(x)[0] != '-' && Body(x)[0] != '+')
    ensures var core := SignText(x.sign) + Body(x);
      && (if core[0] == '-' || core[0] == '+' then core[1..] else core) == Body(x)
      && (core[0] == '-' <==> x.sign == Minus)
  {
    hide Body;
  }

  lemma CoreEnds(x: Spelling)
    requires Body(x) != "" && forall i :: 0 <= i < |Body(x)| ==> AmountChar(Body(x)[i])
    ensures var core := SignText(x.sign) + Body(x);
      core != "" && !IsSpace(core[0]) && !IsSpace(core[|core| - 1])
  {
    hide Body;
    var core := SignText(x.sign) + Body(x);
    assert core[|core| - 1] == Body(x)[|Body(x)| - 1];
  }

  /** Every accepted text is one of these spellings. */
  lemma AcceptedIsSpelled(s: string, scale: int64) returns (x: Spelling)
    requires UsedScale(scale) && FixedValue(s, scale).Some?
    ensures WellFormed(x, scale) && Spelled(x) == s
  {
    hide UnsignedValue, TrimSpace, DigitCount, AllSpaces;
    var before, after := Trimmed(s);
    var t := TrimSpace(s);
    var sign := if t[0] == '-' then Minus else if t[0] == '+' then Plus else Unsigned;
    var u := if sign == Unsigned then t else t[1..];
    assert t == SignText(sign) + u;
    var whole, dot, frac := BodySpelled(u, scale);
    x := Spelling(before, sign, whole, dot, frac, after);
    assert Body(x) == u;
  }

  lemma BodySpelled(u: string, scale: int64) returns (whole: Field, dot: bool, frac: Field)
    requires UsedScale(scale) && UnsignedValue(u, scale).Some?
    ensures AllDigits(whole.digits) && AllDigits(frac.digits) && (whole.digits == "" ==> whole.sign == Unsigned)
    ensures u == FieldText(whole) + if dot then "." + FieldText(frac) else ""
    ensures !dot ==> FieldText(frac) == ""
    ensures FieldText(whole) + FieldText(frac) != "" && |FieldText(frac)| <= DigitCount(scale)
  {
    hide PartsValue, DigitCount, DotIndex, FieldText;
    var i := DotIndex(u);
    dot := i < |u|;
    var w, f := u[..i], if dot then u[i + 1..] else "";
    assert u == w + if dot then "." + f else "";
    whole, frac := FieldsOf(w, f, scale);
  }

  lemma FieldsOf(w: string, f: string, scale: int64) returns (whole: Field, frac: Field)
    requires UsedScale(scale) && |f| <= DigitCount(scale)
    requires PartsValue(w, f + Zeros(DigitCount(scale) - |f|), scale).Some?
    ensures FieldText(whole) == w && FieldText(frac) == f
    ensures AllDigits(whole.digits) && AllDigits(frac.digits) && (whole.digits == "" ==> whole.sign == Unsigned)
  {
    hide Combine, ParseInt, DigitCount, AllDigits;
    UsedScaleDigits();
    whole := Field(Unsigned, "");
    if w == "" { NoDigits(); } else { whole := FieldOf(w); }
    frac := Unpadded(f, DigitCount(scale) - |f|);
  }

  /** A field that padding completed was a field, perhaps one without digits. */
  lemma Unpadded(f: string, k: nat) returns (frac: Field)
    requires ParseInt(f + Zeros(k)).Some?
    ensures FieldText(frac) == f && AllDigits(frac.digits)
  {
    hide ParseInt, FieldText;
    if f == "" {
      frac := Field(Unsigned, "");
      NoDigits();
    } else {
      var g := FieldOf(f + Zeros(k));
      frac := FieldPrefix(g, f, f + Zeros(k));
    }
  }

  lemma FieldPrefix(g: Field, f: string, text: string) returns (frac: Field)
    requires FieldText(g) == text && AllDigits(g.digits) && f <= text && f != ""
    ensures FieldText(frac) == f && AllDigits(frac.digits)
  {
    var k := |SignText(g.sign)|;
    frac := Field(g.sign, f[k..]);
    forall i | 0 <= i < |f| - k ensures f[k..][i] == g.digits[i] { assert f[k + i] == text[k + i]; }
    assert f[..k] == text[..k] == SignText(g.sign);
  }

  /** Exactly which texts are accepted. */
  lemma AcceptsExactly(s: string, scale: int64)
    requires UsedScale(scale)
    ensures FixedValue(s, scale).Some? <==>
      exists x: Spelling :: WellFormed(x, scale) && Spelled(x) == s && Representable(x, scale)
  {
    hide FixedValue, WellFormed, Spelled, Representable;
    if FixedValue(s, scale).Some? {
      var x := AcceptedIsSpelled(s, scale);
      SpellingMeaning(x, scale);
    }
    forall x: Spelling | WellFormed(x, scale) && Spelled(x) == s && Representable(x, scale)
      ensures FixedValue(s, scale).Some?
    {
      SpellingMeaning(x, scale);
    }
  }

  /** Two texts no decimal grammar allows: a doubled minus undoes itself, and a minus in the fraction subtracts it. */
  lemma InnerSigns()
    ensures FixedValue("--5", 1000) == Some(5000) && FixedValue("1.-5", 1000) == Some(950)
  {
    hide FixedValue, DigitCount;
    UsedScaleDigits();
    var five, one, none := Field(Minus, "5"), Field(Unsigned, "1"), Field(Unsigned, "");
    var x := Spelling("", Minus, five, false, none, "");
    var y := Spelling("", Unsigned, one, true, five, "");
    assert Spelled(x) == "--5" && Spelled(y) == "1.-5";
    assert NumberOf("") == 0 && "5"[..0] == "" && "1"[..0] == "";
    assert NumberOf("5") == 5 && NumberOf("1") == 1 && Pow10(1) == 10 && Pow10(0) == 1;
    SpellingMeaning(x, 1000);
    SpellingMeaning(y, 1000);
  }

  /** A representable amount that is refused, because its whole part alone is not representable. */
  lemma WholePartRefused()
    ensures FixedValue("--9223372036854776.999", 1000) == None && Fits(-9223372036854776 * 1000 + 999)
  {
    hide FixedValue, DigitCount, NumberOf, Pow10, Spelled, WellFormed, FracUnits;
    var x := LongSpelling();
    SpellingMeaning(x, 1000);
    assert WholeUnits(x, 1000) == -9223372036854776 * 1000;
  }

  lemma LongSpelling() returns (x: Spelling)
    ensures WellFormed(x, 1000) && Spelled(x) == "--9223372036854776.999"
    ensures x.whole.sign == Minus && AllDigits(x.whole.digits) && NumberOf(x.whole.digits) == 9223372036854776
  {
    hide Spelled, WellFormed, NumberOf;
    var w := "9223372036854776";
    LongNumber(w);
    x := DoubleMinus(w, "999");
    LongText();
  }

  lemma LongText()
    ensures "-" + (("-" + "9223372036854776") + ("." + "999")) == "--9223372036854776.999"
  {
    assert "-" + "9223372036854776" == "-9223372036854776" && "." + "999" == ".999";
  }

  /** An amount whose sign is doubled. */
  lemma DoubleMinus(w: string, f: string) returns (x: Spelling)
    requires AllDigits(w) && w != "" && AllDigits(f) && |f| == 3
    ensures WellFormed(x, 1000) && Spelled(x) == "-" + (("-" + w) + ("." + f)) && x.whole == Field(Minus, w)
  {
    hide DigitCount, Spelled, AllDigits;
    UsedScaleDigits();
    x := Spelling("", Minus, Field(Minus, w), true, Field(Unsigned, f), "");
    Unspaced(x);
    PlainField(f);
  }

  lemma PlainField(f: string)
    ensures FieldText(Field(Unsigned, f)) == f
  {}

  lemma Unspaced(x: Spelling)
    requires x.before == "" && x.after == ""
    ensures Spelled(x) == SignText(x.sign) + Body(x)
  {
    hide SignText, Body;
  }

  lemma LongNumber(w: string)
    requires w == "9223372036854776"
    ensures AllDigits(w) && NumberOf(w) == 9223372036854776
  {
    hide NumberOf;
    FourDigits("", "9223");
    FourDigits("9223", "3720");
    FourDigits("92233720", "3685");
    FourDigits("922337203685", "4776");
    assert "" + "9223" == "9223" && "9223" + "3720" == "92233720" && "92233720" + "3685" == "922337203685";
    assert "922337203685" + "4776" == w;
    NoDigits();
  }

  lemma OneDigit(s: string, c: char)
    requires AllDigits(s) && IsDigit(c)
    ensures AllDigits(s + [c]) && NumberOf(s + [c]) == 10 * NumberOf(s) + (c - '0') as nat
  {
    assert (s + [c])[..|s|] == s;
  }

  lemma FourDigits(s: string, t: string)
    requires AllDigits(s) && AllDigits(t) && |t| == 4
    ensures AllDigits(s + t)
    ensures NumberOf(s + t) == 10000 * NumberOf(s) + 1000 * (t[0] - '0') as nat + 100 * (t[1] - '0') as nat
                               + 10 * (t[2] - '0') as nat + (t[3] - '0') as nat
  {
    hide NumberOf;
    OneDigit(s, t[0]);
    OneDigit(s + [t[0]], t[1]);
    OneDigit(s + [t[0]] + [t[1]], t[2]);
    OneDigit(s + [t[0]] + [t[1]] + [t[2]], t[3]);
    assert s + t == s + [t[0]] + [t[1]] + [t[2]] + [t[3]];
  }

  /** An ordinary literal: an integer part and, after a dot, a fraction. Either may be missing, not both. */
  predicate Literal(w: string, dot: bool, f: string, scale: int64) {
    && AllDigits(w) && AllDigits(f)
    && |w| + |f| > 0
    && (dot || f == "")
    && |f| <= DigitCount(scale)
  }

  function Written(neg: bool, w: string, dot: bool, f: string): string {
    (if neg then "-" else "") + (w + (if dot then "." + f else ""))
  }

  /** The exact number of minor units that the digits stand for. */
  function MinorUnits(w: string, f: string, scale: int64): int
    requires AllDigits(w) && AllDigits(f) && |f| <= DigitCount(scale)
  {
    NumberOf(w) * scale + NumberOf(f) * Pow10(DigitCount(scale) - |f|)
  }

  /** An ordinary literal parses to exactly what its digits say, and is refused exactly when that overflows. */
  lemma ParseMeaning(neg: bool, w: string, dot: bool, f: string, scale: int64)
    requires UsedScale(scale) && Literal(w, dot, f, scale)
    ensures var n := MinorUnits(w, f, scale);
      FixedValue(Written(neg, w, dot, f), scale) ==
        if n > MAX_INT64 then None else Some(if neg then 0 - n else n)
  {
    hide FixedValue, NumberOf, DigitCount, Pow10, Spelled, AllDigits;
    MulAtLeast(NumberOf(w), scale);
    MulAtLeast(NumberOf(f), Pow10(DigitCount(scale) - |f|));
    var x := Spelling("", if neg then Minus else Unsigned, Field(Unsigned, w), dot, Field(Unsigned, f), "");
    PlainField(w);
    PlainField(f);
    PlainField("");
    Unspaced(x);
    SpellingMeaning(x, scale);
  }

  // ---------------------------------------------------------------- parser and printer

  /**
   What is printed of every value but the smallest: a minus exactly when it is negative, the whole part without
   leading zeros, a dot, and as many fraction digits as the scale has.
   */
  lemma PrintedShape(v: int64, scale: int64) returns (w: string, f: string)
    requires UsedScale(scale) && v != MIN_INT64
    ensures Literal(w, true, f, scale)
    ensures FixedText(v, scale) == Written(v < 0, w, true, f)
    ensures MinorUnits(w, f, scale) == Abs(v)
    ensures |f| == (if scale == 1000 then 3 else 4) && (|w| > 1 ==> w[0] != '0')
  {
    hide NumberOf, DigitCount, Quo, Rem, DigitsOf, Zeros, Wrap;
    UsedScaleDigits();
    var a, digits := Abs(v), DigitCount(scale);
    var whole, frac := Quo(a, scale), Rem(a, scale);
    SplitParts(a, scale);
    w := DigitsOf(whole);
    f := PadLeft(DigitsOf(frac), digits);
    DigitsDenote(whole);
    NoLeadingZero(whole);
    PaddedFraction(frac, digits);
    assert Pow10(0) == 1;
  }

  lemma SplitParts(a: int64, scale: int64)
    requires UsedScale(scale) && a >= 0
    ensures var whole, frac := Quo(a, scale), Rem(a, scale);
      whole * scale + frac == a && 0 <= whole <= a && 0 <= frac < scale
  {
    hide FloorDiv;
    TruncatedParts(a, scale);
    MulAtLeast(Abs(Quo(a, scale)), scale);
  }

  lemma PaddedFraction(frac: nat, digits: nat)
    requires digits > 0 && frac < Pow10(digits)
    ensures var f := PadLeft(DigitsOf(frac), digits);
      AllDigits(f) && |f| == digits && NumberOf(f) == frac
  {
    hide NumberOf, DigitsOf, Zeros, Pow10;
    var f := DigitsOf(frac);
    DigitsDenote(frac);
    DigitsLength(frac, digits);
    ZerosLeft(digits - |f|, f);
    if |f| == digits { assert Zeros(0) + f == f; }
  }

  /** The smallest value cannot be negated, so its parts stay negative. */
  lemma SmallestParts(scale: int64)
    requires UsedScale(scale)
    ensures var whole, frac := Quo(MIN_INT64, scale), Rem(MIN_INT64, scale);
      && Fits(whole) && Fits(frac) && whole < 0
      && frac == if scale == 1000 then -808 else -5808
  {
    if scale == 1000 {
      DivUnique(-MIN_INT64, scale, 9223372036854775);
    } else {
      DivUnique(-MIN_INT64, scale, 922337203685477);
    }
  }

  lemma SmallestText(scale: int64) returns (w: string, f: string)
    requires UsedScale(scale)
    ensures AllDigits(w) && AllDigits(f) && w != "" && f != "" && |f| >= DigitCount(scale)
    ensures FixedText(MIN_INT64, scale) == "-" + ("-" + w + ("." + ("-" + f)))
  {
    hide NumberOf, DigitCount, DigitsOf, Quo, Rem, Pow10;
    UsedScaleDigits();
    SmallestParts(scale);
    var whole, frac := Quo(MIN_INT64, scale), Rem(MIN_INT64, scale);
    w, f := DigitsOf(0 - whole), DigitsOf(0 - frac);
    DigitsDenote(0 - whole);
    DigitsDenote(0 - frac);
    NumberBelow(f);
    if |f| < DigitCount(scale) {
      Pow10Monotone(|f|, DigitCount(scale) - 1);
      SmallPowers();
    }
  }

  lemma SmallPowers()
    ensures Pow10(2) == 100 && Pow10(3) == 1000
  {
    assert Pow10(1) == 10;
  }

  /** Its printed form carries inner signs and has one character too many after the dot. */
  lemma SmallestPrintsBadly(scale: int64)
    requires UsedScale(scale)
    ensures FixedValue(FixedText(MIN_INT64, scale), scale) == None
  {
    hide FixedText, DigitCount, TrimSpace, PartsValue;
    var w, f := SmallestText(scale);
    var rest := "." + ("-" + f);
    var u := "-" + w + rest;
    var s := "-" + u;
    assert s[|s| - 1] == f[|f| - 1];
    TrimNothing(s);
    assert s[1..] == u;
    DotAfter(w, rest);
    assert u[1..] == w + rest;
    assert DotIndex(u) == 1 + |w|;
    assert u[|w| + 2..] == "-" + f;
  }

  lemma {:induction false} Pow10Monotone(a: nat, b: nat)
    requires a <= b
    ensures Pow10(a) <= Pow10(b)
  {
    if a < b { Pow10Monotone(a, b - 1); }
  }

  /** Printing then parsing returns the value, for every value but the smallest. */
  lemma PrintThenParse(v: int64, scale: int64)
    requires UsedScale(scale)
    ensures FixedValue(FixedText(v, scale), scale) == Some(v) <==> v != MIN_INT64
  {
    hide FixedText, FixedValue, Literal, MinorUnits;
    if v == MIN_INT64 {
      SmallestPrintsBadly(scale);
    } else {
      var w, f := PrintedShape(v, scale);
      ParseMeaning(v < 0, w, true, f, scale);
    }
  }

  /** No text parses to the smallest value, so the parser's own negation never wraps. */
  lemma NeverSmallest(s: string, scale: int64)
    requires UsedScale(scale)
    ensures FixedValue(s, scale) != Some(MIN_INT64)
  {
    hide FixedValue, WholeUnits, FracUnits, DigitCount, Spelled;
    if FixedValue(s, scale).Some? {
      var x := AcceptedIsSpelled(s, scale);
      SpellingMeaning(x, scale);
      PartsMeaning(x, scale);
    }
  }

  /** Whatever spelling was accepted, its printed form denotes the same value. */
  lemma ParsePrintParse(s: string, scale: int64)
    requires UsedScale(scale) && FixedValue(s, scale).Some?
    ensures FixedValue(FixedText(FixedValue(s, scale).value, scale), scale) == FixedValue(s, scale)
  {
    hide FixedText, FixedValue;
    NeverSmallest(s, scale);
    PrintThenParse(FixedValue(s, scale).value, scale);
  }
}
