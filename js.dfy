/**
 * The small part of JavaScript's value semantics that the charts' data
 * preparation depends on: numbers after unary `+`, truthiness and `||`,
 * `Date` objects read through getFullYear/getMonth/getDate, rows of a
 * parsed CSV file, and the string methods trim, slice, split(" ") and
 * toLowerCase.
 */
module Js {

  datatype Option<T> = None | Some(value: T)

  /** A JavaScript number: NaN or a finite value (infinities are not modelled). */
  datatype Num = NaN | Real(r: real)

  /** JavaScript truthiness of a number: neither NaN nor zero. */
  predicate Truthy(n: Num) {
    n.Real? && n.r != 0.0
  }

  /** `a || b` when both operands are numbers. */
  function Or(a: Num, b: Num): Num {
    if Truthy(a) then a else b
  }

  /**
   * A host `Date` object as the charts read it: an invalid date (every
   * getter gives NaN) or the calendar fields getFullYear(), getMonth() + 1
   * and getDate().
   */
  datatype JsDate = InvalidDate | Date(year: int, month: int, day: int)

  /** The length of a month as a Date can report it (February up to the 29th). */
  function DaysInMonth(m: int): int {
    if m == 2 then 29 else if m == 4 || m == 6 || m == 9 || m == 11 then 30 else 31
  }

  /** A month and day that a valid Date reports. */
  predicate CalendarDay(m: int, d: int) {
    1 <= m <= 12 && 1 <= d <= DaysInMonth(m)
  }

  /** A Date object as the host builds it: invalid, or with calendar fields. */
  predicate ValidDate(d: JsDate) {
    d.Date? ==> CalendarDay(d.month, d.day)
  }

  /** A row produced by d3.csv: column name to the text of the cell. */
  type CsvRow = map<string, string>

  /** `d[name]`: the cell text, or None for undefined. */
  function Field(row: CsvRow, name: string): Option<string> {
    if name in row then Some(row[name]) else None
  }

  /** Unary plus applied to `d[name]`: undefined gives NaN. */
  function Plus(cell: Option<string>): Num {
    match cell
    case None => NaN
    case Some(s) => ToNumber(s)
  }

  /** JavaScript truthiness of an optional string: defined and non-empty. */
  predicate TruthyText(cell: Option<string>) {
    cell.Some? && cell.value != ""
  }

  // ---------------------------------------------------------------------
  // Strings

  /** The characters String.prototype.trim removes (WhiteSpace and LineTerminator). */
  predicate IsSpace(c: char) {
    || c == ' ' || c == '\t' || c == '\n' || c == '\r'
    || c == '\U{000B}' || c == '\U{000C}' || c == '\U{00A0}' || c == '\U{1680}'
    || ('\U{2000}' <= c <= '\U{200A}')
    || c == '\U{2028}' || c == '\U{2029}' || c == '\U{202F}' || c == '\U{205F}'
    || c == '\U{3000}' || c == '\U{FEFF}'
  }

  function TrimStart(s: string): (r: string)
    ensures |r| <= |s|
    ensures r == s[|s| - |r|..]
    ensures r == [] || !IsSpace(r[0])
  {
    if s != [] && IsSpace(s[0]) then TrimStart(s[1..]) else s
  }

  function TrimEnd(s: string): (r: string)
    ensures |r| <= |s|
    ensures r == s[..|r|]
    ensures r == [] || !IsSpace(r[|r| - 1])
  {
    if s != [] && IsSpace(s[|s| - 1]) then TrimEnd(s[..|s| - 1]) else s
  }

  /** String.prototype.trim. */
  function Trim(s: string): string {
    TrimEnd(TrimStart(s))
  }

  /** String.prototype.slice(start, end) for non-negative arguments. */
  function Slice(s: string, start: nat, end: nat): (r: string)
    ensures |r| <= end - start || end < start
    ensures start <= end <= |s| ==> r == s[start..end]
  {
    var e := if end <= |s| then end else |s|;
    if start < e then s[start..e] else ""
  }

  /** The index of the first space of `s`. */
  function FirstSpace(s: string): (i: nat)
    requires ' ' in s
    ensures i < |s| && s[i] == ' ' && ' ' !in s[..i]
  {
    if s[0] == ' ' then 0
    else
      assert s == [s[0]] + s[1..];
      1 + FirstSpace(s[1..])
  }

  /** String.prototype.split(" "): the pieces between single spaces. */
  function Split(s: string): (r: seq<string>)
    ensures |r| >= 1
    ensures forall i :: 0 <= i < |r| ==> ' ' !in r[i]
    decreases |s|
  {
    if ' ' !in s then [s]
    else
      var i := FirstSpace(s);
      [s[..i]] + Split(s[i + 1..])
  }

  /** Array.prototype.join(" "). */
  function Join(ts: seq<string>): string
    requires |ts| >= 1
  {
    if |ts| == 1 then ts[0] else ts[0] + " " + Join(ts[1..])
  }

  /** Splitting and joining again gives back the string. */
  lemma {:induction false} JoinSplit(s: string)
    ensures Join(Split(s)) == s
    decreases |s|
  {
    if ' ' in s {
      var i := FirstSpace(s);
      var tail := s[i + 1..];
      assert Split(s) == [s[..i]] + Split(tail);
      JoinSplit(tail);
      JoinCons(s[..i], Split(tail));
      AroundSpace(s, i);
    }
  }

  lemma AroundSpace(s: string, i: nat)
    requires i < |s| && s[i] == ' '
    ensures s == s[..i] + " " + s[i + 1..]
  {
  }

  lemma JoinCons(a: string, t: seq<string>)
    requires |t| >= 1
    ensures Join([a] + t) == a + " " + Join(t)
  {
    var r := [a] + t;
    assert r[0] == a && r[1..] == t;
  }

  /** The first space of `a + " " + b`, when `a` has none, is the one after `a`. */
  lemma FirstSpaceAfter(a: string, b: string)
    requires ' ' !in a
    ensures ' ' in a + " " + b && FirstSpace(a + " " + b) == |a|
  {
    var s := a + " " + b;
    assert s[|a|] == ' ';
  }

  /** Joining space-free pieces and splitting again gives back the pieces. */
  lemma {:induction false} SplitJoin(ts: seq<string>)
    requires |ts| >= 1
    requires forall i :: 0 <= i < |ts| ==> ' ' !in ts[i]
    ensures Split(Join(ts)) == ts
  {
    if |ts| > 1 {
      var a := ts[0];
      var rest := Join(ts[1..]);
      var s := a + " " + rest;
      assert Join(ts) == s;
      FirstSpaceAfter(a, rest);
      assert s[..|a|] == a;
      assert s[|a| + 1..] == rest;
      assert Split(s) == [a] + Split(rest);
      SplitJoin(ts[1..]);
      assert ts == [a] + ts[1..];
    } else {
      assert Join(ts) == ts[0];
      assert ' ' !in ts[0];
    }
  }

  /** `s.trim().split(" ")[0]`. */
  function FirstToken(s: string): string {
    Split(Trim(s))[0]
  }

  /** `s.trim().split(" ")[1]`, None when there is no second piece. */
  function SecondToken(s: string): Option<string> {
    var ts := Split(Trim(s));
    if |ts| > 1 then Some(ts[1]) else None
  }

  /** toLowerCase on the ASCII letters (other letters are kept as they are). */
  function LowerAscii(s: string): (r: string)
    ensures |r| == |s|
    ensures forall i :: 0 <= i < |s| ==> r[i] == LowerChar(s[i])
  {
    seq(|s|, i requires 0 <= i < |s| => LowerChar(s[i]))
  }

  function LowerChar(c: char): char {
    if 'A' <= c <= 'Z' then (c as int + 32) as char else c
  }

  // ---------------------------------------------------------------------
  // Numbers written in text

  predicate IsDigit(c: char) {
    '0' <= c <= '9'
  }

  predicate AllDigits(s: string) {
    forall i :: 0 <= i < |s| ==> IsDigit(s[i])
  }

  function DigitsValue(s: string): nat
    requires AllDigits(s)
  {
    if s == [] then 0
    else DigitsValue(s[..|s| - 1]) * 10 + (s[|s| - 1] as int - '0' as int)
  }

  function Pow10(k: nat): (p: nat)
    ensures p >= 1
  {
    if k == 0 then 1 else 10 * Pow10(k - 1)
  }

  /** The index of the first '.' of `s`, or |s|. */
  function DotIndex(s: string): (i: nat)
    ensures i <= |s| && '.' !in s[..i]
    ensures i < |s| ==> s[i] == '.'
  {
    if s == [] then 0
    else if s[0] == '.' then 0
    else
      assert s[..1 + DotIndex(s[1..])] == [s[0]] + s[1..][..DotIndex(s[1..])];
      1 + DotIndex(s[1..])
  }

  /** An unsigned decimal literal `digits`, `digits.digits`, `digits.` or `.digits`. */
  function UnsignedDecimal(u: string): Num {
    var i := DotIndex(u);
    var whole := u[..i];
    var frac := if i < |u| then u[i + 1..] else "";
    if AllDigits(whole) && AllDigits(frac) && |whole| + |frac| > 0 then
      Real(DigitsValue(whole) as real + DigitsValue(frac) as real / Pow10(|frac|) as real)
    else
      NaN
  }

  /**
   * ToNumber applied to a string: blank text is 0, an optionally signed
   * decimal literal is its value, anything else is NaN.
   */
  function ToNumber(s: string): Num {
    var t := Trim(s);
    if t == "" then Real(0.0)
    else if t[0] == '-' then
      match UnsignedDecimal(t[1..])
      case NaN => NaN
      case Real(v) => Real(-v)
    else if t[0] == '+' then UnsignedDecimal(t[1..])
    else UnsignedDecimal(t)
  }

  /** `+d[name]?.slice(a, b)`: NaN when the column is missing. */
  function DatePart(cell: Option<string>, a: nat, b: nat): Num {
    match cell
    case None => NaN
    case Some(s) => ToNumber(Slice(s, a, b))
  }

  /** Text with no white space at either end is left alone by trim. */
  lemma TrimKeeps(s: string)
    requires s != [] && !IsSpace(s[0]) && !IsSpace(s[|s| - 1])
    ensures Trim(s) == s
  {
  }

  /** A run of digits reads as its decimal value. */
  lemma ToNumberDigits(d: string)
    requires d != [] && AllDigits(d)
    ensures ToNumber(d) == Real(DigitsValue(d) as real)
  {
    assert IsDigit(d[0]) && IsDigit(d[|d| - 1]);
    assert !IsSpace(d[0]) && !IsSpace(d[|d| - 1]);
    TrimKeeps(d);
    assert ToNumber(d) == UnsignedDecimal(d);
    UnsignedDigits(d);
  }

  /** A run of digits after a '-' reads as the negated decimal value. */
  lemma ToNumberNegated(d: string)
    requires d != [] && AllDigits(d)
    ensures ToNumber("-" + d) == Real(-(DigitsValue(d) as real))
  {
    var m := "-" + d;
    assert m[0] == '-' && m[1..] == d && m[|m| - 1] == d[|d| - 1];
    assert IsDigit(d[|d| - 1]) && !IsSpace(d[|d| - 1]);
    TrimKeeps(m);
    UnsignedDigits(d);
    assert UnsignedDecimal(Trim(m)[1..]) == Real(DigitsValue(d) as real);
  }

  /** Digits without a point are a whole decimal literal. */
  lemma UnsignedDigits(d: string)
    requires d != [] && AllDigits(d)
    ensures UnsignedDecimal(d) == Real(DigitsValue(d) as real)
  {
    assert DotIndex(d) == |d|;
    assert d[..|d|] == d;
  }

  /**
   * Text whose first character after trimming is not a digit, a sign or a
   * decimal point is NaN.
   */
  lemma ToNumberNaN(s: string)
    requires Trim(s) != [] && !IsDigit(Trim(s)[0]) && Trim(s)[0] != '+' && Trim(s)[0] != '-' && Trim(s)[0] != '.'
    ensures ToNumber(s) == NaN
  {
    var t := Trim(s);
    assert 0 < DotIndex(t);
    assert t[..DotIndex(t)][0] == t[0];
  }

  /** The digits `slice(a, b)` cuts out of a cell read as their decimal value. */
  lemma DatePartDigits(s: string, a: nat, b: nat)
    requires a < b <= |s| && AllDigits(s[a..b])
    ensures DatePart(Some(s), a, b) == Real(DigitsValue(s[a..b]) as real)
  {
    ToNumberDigits(s[a..b]);
  }

  /** Decimal digits of a natural number, as `${n}` writes them. */
  function Decimal(n: nat): (s: string)
    ensures |s| >= 1 && AllDigits(s)
  {
    if n < 10 then ['0' + n as char]
    else Decimal(n / 10) + ['0' + (n % 10) as char]
  }

  /** Reading the digits written by Decimal gives the number back. */
  lemma {:induction false} DecimalValue(n: nat)
    ensures DigitsValue(Decimal(n)) == n
  {
    if n >= 10 {
      DecimalValue(n / 10);
      var s := Decimal(n);
      assert s[..|s| - 1] == Decimal(n / 10);
    }
  }

  /** `k` zero characters. */
  function Zeros(k: nat): (z: string)
    ensures |z| == k && AllDigits(z)
  {
    if k == 0 then [] else Zeros(k - 1) + ['0']
  }

  /** Left-padding with zeros to width `w`, as d3-time-format's `pad` does. */
  function PadStart(s: string, w: nat): (r: string)
    ensures |s| <= w ==> |r| == w
    ensures |s| >= w ==> r == s
  {
    if |s| < w then Zeros(w - |s|) + s else s
  }

  /** Leading zeros do not change the value of a digit string. */
  lemma {:induction false} ZerosValue(k: nat, s: string)
    requires AllDigits(s)
    ensures AllDigits(Zeros(k) + s) && DigitsValue(Zeros(k) + s) == DigitsValue(s)
  {
    var t := Zeros(k) + s;
    assert AllDigits(t) by {
      forall i | 0 <= i < |t| ensures IsDigit(t[i]) {
        if i < k { assert t[i] == Zeros(k)[i]; } else { assert t[i] == s[i - k]; }
      }
    }
    if s == [] {
      assert t == Zeros(k);
      ZerosOnly(k);
    } else {
      var init := s[..|s| - 1];
      assert t[..|t| - 1] == Zeros(k) + init;
      assert t[|t| - 1] == s[|s| - 1];
      ZerosValue(k, init);
    }
  }

  lemma {:induction false} ZerosOnly(k: nat)
    ensures DigitsValue(Zeros(k)) == 0
  {
    if k > 0 {
      assert Zeros(k)[..k - 1] == Zeros(k - 1);
      ZerosOnly(k - 1);
    }
  }

  /** A number below 10^k has at most k digits. */
  lemma {:induction false} DecimalLength(n: nat, k: nat)
    requires k >= 1 && n < Pow10(k)
    ensures |Decimal(n)| <= k
  {
    if n >= 10 {
      assert Pow10(1) == 10;
      assert n / 10 < Pow10(k - 1);
      DecimalLength(n / 10, k - 1);
    }
  }

  /** `pad(n, "0", w)` on a number that fits in `w` digits reads back as `n`. */
  lemma PaddedValue(n: nat, w: nat)
    requires w >= 1 && n < Pow10(w)
    ensures |PadStart(Decimal(n), w)| == w
    ensures AllDigits(PadStart(Decimal(n), w)) && DigitsValue(PadStart(Decimal(n), w)) == n
  {
    DecimalLength(n, w);
    DecimalValue(n);
    ZerosValue(w - |Decimal(n)|, Decimal(n));
  }
}
