/** The JavaScript number behaviour the request pipeline relies on: `parseInt`
    on the digit groups of the `slice` option, number-to-string conversion in
    the line anchor and the `linenums:` directive, and the index arithmetic of
    `Array.prototype.slice`. Numbers are integers or NaN; floating point is
    not modelled. */
module JsNumbers {
  import opened Wrappers

  /** A JavaScript number as the request pipeline uses it: an integer or
      NaN. NaN is the "unset" value of `sliceEnd` and what `parseInt("-")`
      yields. */
  datatype Num = NaN | Int(value: int)

  predicate IsDigit(c: char) { '0' <= c <= '9' }

  predicate AllDigits(s: string) {
    forall i :: 0 <= i < |s| ==> IsDigit(s[i])
  }

  /** The strings the regular expression `-?\d*` matches. */
  predicate SignedDigits(s: string) {
    AllDigits(s) || (|s| > 0 && s[0] == '-' && AllDigits(s[1..]))
  }

  /** Decimal value of a digit string; leading zeros are allowed. */
  function DigitsValue(s: string): nat
    requires AllDigits(s)
  {
    if s == [] then 0 else DigitsValue(s[..|s| - 1]) * 10 + (s[|s| - 1] as int - '0' as int)
  }

  /** `parseInt` on a string matched by `-?\d*`: NaN when no digit follows
      the optional sign (`""` and `"-"`), otherwise the signed decimal value. */
  function ParseInt(s: string): (r: Num)
    requires SignedDigits(s)
    ensures r.NaN? <==> s == "" || s == "-"
    ensures r.Int? && r.value < 0 ==> s[0] == '-'
  {
    if |s| > 0 && s[0] == '-' then
      (if |s| == 1 then NaN else Int(-(DigitsValue(s[1..]) as int)))
    else if s == [] then NaN
    else Int(DigitsValue(s))
  }

  function DigitChar(d: nat): (c: char)
    requires d < 10
    ensures IsDigit(c) && c as int - '0' as int == d
  {
    ('0' as int + d) as char
  }

  /** Decimal text of a natural number, as `String(n)` writes it. */
  function NatStr(n: nat): (r: string)
    ensures |r| > 0 && AllDigits(r)
    ensures DigitsValue(r) == n
  {
    if n < 10 then [DigitChar(n)]
    else
      var r := NatStr(n / 10) + [DigitChar(n % 10)];
      assert r[..|r| - 1] == NatStr(n / 10);
      r
  }

  /** Decimal text of an integer, with a leading `-` when it is negative;
      `parseInt` reads it back. */
  function IntStr(i: int): (r: string)
    ensures |r| > 0 && SignedDigits(r)
    ensures ParseInt(r) == Int(i)
  {
    if i < 0 then
      var r := "-" + NatStr(-i);
      assert r[1..] == NatStr(-i);
      r
    else NatStr(i)
  }

  /** The characters number-to-string conversion can produce here. */
  predicate NumChar(c: char) {
    IsDigit(c) || c == '-' || c == 'N' || c == 'a'
  }

  /** `String(v)`: `"NaN"` or the decimal text of the integer. */
  function NumStr(v: Num): (r: string)
    ensures |r| > 0
    ensures forall i :: 0 <= i < |r| ==> NumChar(r[i])
    ensures IsDigit(r[|r| - 1]) || r[|r| - 1] == 'N'
  {
    match v
    case NaN => "NaN"
    case Int(i) => IntStr(i)
  }

  /** Reads back the text `NumStr` writes: `"NaN"` or a signed decimal. */
  function ParseNumText(t: string): Option<Num> {
    if t == "NaN" then Some(NaN)
    else if SignedDigits(t) && ParseInt(t).Int? then Some(ParseInt(t))
    else None
  }

  lemma NumStrRoundTrip(v: Num)
    ensures ParseNumText(NumStr(v)) == Some(v)
  {
    if v.Int? {
      assert NumStr(v)[|NumStr(v)| - 1] != 'N';
    }
  }

  /** `v - 1` in JavaScript: NaN stays NaN. */
  function Pred(v: Num): (r: Num)
    ensures r.NaN? <==> v.NaN?
    ensures v.Int? ==> r.value + 1 == v.value
  {
    match v
    case NaN => NaN
    case Int(i) => Int(i - 1)
  }

  /** How `Array.prototype.slice` turns an argument into an index of an array
      of length `len`: NaN counts as 0, a negative value counts back from the
      end, and the result is clamped to `[0, len]`. */
  function SliceIndex(v: Num, len: nat): (k: nat)
    ensures k <= len
    ensures v.NaN? ==> k == 0
    ensures v.Int? && 0 <= v.value <= len ==> k == v.value
    ensures v.Int? && v.value < 0 && len + v.value >= 0 ==> k == len + v.value
    ensures v.Int? && v.value > len ==> k == len
    ensures v.Int? && len + v.value < 0 ==> k == 0
  {
    match v
    case NaN => 0
    case Int(n) =>
      if n < 0 then (if len + n < 0 then 0 else len + n)
      else if n > len then len
      else n
  }

  /** `r` is a contiguous run of `a`. */
  ghost predicate IsRunOf<T>(r: seq<T>, a: seq<T>) {
    exists i, j :: 0 <= i <= j <= |a| && r == a[i..j]
  }

  /** `a.slice(start, end)`; the one-argument form is `end == Int(|a|)`. */
  function JsSlice<T>(a: seq<T>, start: Num, end: Num): (r: seq<T>)
    ensures IsRunOf(r, a)
    ensures |r| <= |a|
  {
    var i, j := SliceIndex(start, |a|), SliceIndex(end, |a|);
    if i < j then a[i..j] else a[i..i]
  }

  /** Within bounds, `slice` is the half-open range `[start, end)`, and empty
      when `start >= end`. */
  lemma JsSliceInRange<T>(a: seq<T>, i: int, j: int)
    requires 0 <= i <= |a| && 0 <= j <= |a|
    ensures JsSlice(a, Int(i), Int(j)) == if i < j then a[i..j] else []
  {
  }

  /** A negative argument counts back from the end of the array. */
  lemma JsSliceNegative<T>(a: seq<T>, i: int, j: int)
    requires -|a| <= i < 0 && -|a| <= j < 0
    ensures JsSlice(a, Int(i), Int(j)) == JsSlice(a, Int(|a| + i), Int(|a| + j))
  {
  }
}
