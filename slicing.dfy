/** Slice resolution of `fetchCodes`: negative bounds count from the end of
    the split lines, the view URL gains a line anchor, and the lines are cut
    with `Array.prototype.slice`. */
module Slicing {
  import opened Wrappers
  import opened Strings
  import opened JsNumbers

  /** `v >= 0 ? v : length + v`. NaN is not `>= 0`, and `length + NaN` is NaN. */
  function Resolve(v: Num, len: nat): (r: Num)
    ensures r.NaN? <==> v.NaN?
    ensures v.Int? && v.value >= 0 ==> r == v
    ensures v.Int? && v.value < 0 ==> r == Int(len + v.value)
  {
    match v
    case NaN => NaN
    case Int(i) => if i >= 0 then Int(i) else Int(len + i)
  }

  /** The lines `fetchCodes` returns. With the end unset and the raw start not
      1 it is `slice(start - 1)`; with the end set, `slice(start - 1, end)`;
      otherwise every line. Whatever the bounds, the result is a contiguous
      run of the lines. */
  function SelectLines<T>(lines: seq<T>, start: Num, end: Num): (r: seq<T>)
    ensures IsRunOf(r, lines)
  {
    var s, e := Resolve(start, |lines|), Resolve(end, |lines|);
    if end.NaN? && start != Int(1) then JsSlice(lines, Pred(s), Int(|lines|))
    else if end.Int? then JsSlice(lines, Pred(s), e)
    else
      assert lines == lines[0..|lines|];
      lines
  }

  /** The fragment `fetchCodes` appends to `blobUrl`: nothing when the
      resolved start is 1 and the end is unset, `#L{s}` when the resolved
      bounds are equal or the end is unset, else `#L{s}-L{e}`. */
  function Anchor(start: Num, end: Num, len: nat): (r: string)
    ensures r == "" || StartsWith(r, "#L")
  {
    var s, e := Resolve(start, len), Resolve(end, len);
    if s != Int(1) || end.Int? then
      if (s.Int? && s == e) || e.NaN? then
        ConcatParts("#L", NumStr(s));
        "#L" + NumStr(s)
      else
        ConcatParts("#L", NumStr(s) + "-L" + NumStr(e));
        assert "#L" + NumStr(s) + "-L" + NumStr(e) == "#L" + (NumStr(s) + "-L" + NumStr(e));
        "#L" + NumStr(s) + "-L" + NumStr(e)
    else ""
  }

  /** Reads a line anchor `#L{a}` or `#L{a}-L{b}` back into its two bounds
      (a single line stands for the range from that line to itself). */
  function ParseAnchor(a: string): Option<(Num, Num)> {
    if !StartsWith(a, "#L") then None
    else
      var body := a[2..];
      var k := IndexOf(body, 'L');
      if k == |body| then
        var v :- ParseNumText(body);
        Some((v, v))
      else if k == 0 || body[k - 1] != '-' then None
      else
        var x :- ParseNumText(body[..k - 1]);
        var y :- ParseNumText(body[k + 1..]);
        Some((x, y))
  }

  /** `blobUrl` changes exactly when the resolved start is not 1 or the end
      is set. */
  lemma AnchorPresence(start: Num, end: Num, len: nat)
    ensures Anchor(start, end, len) == "" <==> Resolve(start, len) == Int(1) && end.NaN?
  {
  }

  /** Which of the two forms a non-empty anchor takes: `#L{s}` exactly when
      the resolved bounds are equal or the end is unset, and otherwise the
      range `#L{s}-L{e}`. */
  lemma AnchorForm(start: Num, end: Num, len: nat)
    requires Anchor(start, end, len) != ""
    ensures var s, e := Resolve(start, len), Resolve(end, len);
      Anchor(start, end, len) == "#L" + NumStr(s) <==> (s.Int? && s == e) || e.NaN?
    ensures var s, e := Resolve(start, len), Resolve(end, len);
      !((s.Int? && s == e) || e.NaN?) ==> StartsWith(Anchor(start, end, len), "#L" + NumStr(s) + "-L")
  {
    var s, e := Resolve(start, len), Resolve(end, len);
    if !((s.Int? && s == e) || e.NaN?) {
      RangeForm("#L" + NumStr(s), NumStr(e));
    }
  }

  /** The range form is longer than the single form it starts with. */
  lemma RangeForm(single: string, y: string)
    ensures single + "-L" + y != single
    ensures StartsWith(single + "-L" + y, single + "-L")
  {
    assert |single + "-L" + y| > |single|;
    ConcatParts(single + "-L", y);
  }

  lemma NumStrHasNoL(v: Num)
    ensures forall i :: 0 <= i < |NumStr(v)| ==> NumStr(v)[i] != 'L'
  {
    forall i | 0 <= i < |NumStr(v)| ensures NumStr(v)[i] != 'L' {
      assert NumChar(NumStr(v)[i]);
    }
  }

  lemma SingleAnchorReads(v: Num)
    ensures ParseAnchor("#L" + NumStr(v)) == Some((v, v))
  {
    var a := "#L" + NumStr(v);
    assert a[..2] == "#L" && a[2..] == NumStr(v);
    NumStrHasNoL(v);
    NumStrRoundTrip(v);
  }

  lemma RangeAnchorReads(v: Num, w: Num)
    ensures ParseAnchor("#L" + NumStr(v) + "-L" + NumStr(w)) == Some((v, w))
  {
    NumStrHasNoL(v);
    NumStrRoundTrip(v);
    NumStrRoundTrip(w);
    RangeTextReads(NumStr(v), NumStr(w));
  }

  /** `#L{x}-L{y}` splits at its second `L` when `x` holds none. */
  lemma RangeTextReads(x: string, y: string)
    requires forall i :: 0 <= i < |x| ==> x[i] != 'L'
    requires ParseNumText(x).Some? && ParseNumText(y).Some?
    ensures ParseAnchor("#L" + x + "-L" + y) == Some((ParseNumText(x).value, ParseNumText(y).value))
  {
    var a := "#L" + x + "-L" + y;
    var body := a[2..];
    assert a[..2] == "#L";
    assert body == (x + "-") + ['L'] + y;
    forall i | 0 <= i < |x + "-"| ensures (x + "-")[i] != 'L' {
      if i < |x| { assert (x + "-")[i] == x[i]; }
    }
    IndexOfAfter(x + "-", 'L', y);
    assert body[..|x|] == x;
    assert body[|x| + 2..] == y;
  }

  /** The anchor names the resolved bounds and nothing else: it reads back to
      them (to the start twice when it names a single line). */
  lemma AnchorRoundTrip(start: Num, end: Num, len: nat)
    requires Anchor(start, end, len) != ""
    ensures ParseAnchor(Anchor(start, end, len)) ==
      Some((Resolve(start, len), if end.NaN? then Resolve(start, len) else Resolve(end, len)))
  {
    var s, e := Resolve(start, len), Resolve(end, len);
    if (s.Int? && s == e) || e.NaN? {
      SingleAnchorReads(s);
    } else {
      RangeAnchorReads(s, e);
    }
  }

  /** With both bounds set and resolving to `1 <= s <= e <= N`, the embed
      shows lines s to e inclusive (1-based) and the anchor highlights the
      same lines. */
  lemma SelectInclusive<T>(lines: seq<T>, start: Num, end: Num)
    requires start.Int? && end.Int?
    requires 1 <= Resolve(start, |lines|).value <= Resolve(end, |lines|).value <= |lines|
    ensures SelectLines(lines, start, end) ==
      lines[Resolve(start, |lines|).value - 1..Resolve(end, |lines|).value]
    ensures ParseAnchor(Anchor(start, end, |lines|)) ==
      Some((Resolve(start, |lines|), Resolve(end, |lines|)))
  {
    var s := Resolve(start, |lines|).value;
    assert Anchor(start, end, |lines|) != "";
    AnchorRoundTrip(start, end, |lines|);
  }

  /** With the end unset and the start resolving into `1..N+1`, the embed
      shows every line from the start to the end of the file. */
  lemma SelectToEnd<T>(lines: seq<T>, start: Num)
    requires start.Int? && 1 <= Resolve(start, |lines|).value <= |lines| + 1
    ensures SelectLines(lines, start, NaN) == lines[Resolve(start, |lines|).value - 1..]
  {
  }

  /** A range whose resolved end is before its resolved start is empty. */
  lemma SelectReversed<T>(lines: seq<T>, start: Num, end: Num)
    requires start.Int? && end.Int?
    requires 1 <= Resolve(start, |lines|).value && 0 <= Resolve(end, |lines|).value < Resolve(start, |lines|).value
    ensures SelectLines(lines, start, end) == []
  {
  }

  /** A start that resolves to 0 with the end unset is `slice(-1)`: only the
      last line, not the whole file. */
  lemma SelectFromZero<T>(lines: seq<T>, start: Num)
    requires |lines| >= 1 && Resolve(start, |lines|) == Int(0)
    ensures SelectLines(lines, start, NaN) == [lines[|lines| - 1]]
  {
  }

  /** `slice=-` (start and end NaN) shows every line; `slice=-:M` shows the
      first M lines, since `NaN - 1` is index 0 for `slice`. */
  lemma SelectNaNStart<T>(lines: seq<T>, m: int)
    requires 0 <= m <= |lines|
    ensures SelectLines(lines, NaN, NaN) == lines
    ensures SelectLines(lines, NaN, Int(m)) == lines[..m]
  {
  }

  /** A start that resolves below 0 with the end unset counts back from the
      end once more: `slice(s - 1)` shows the last `1 - s` lines, or the
      whole file when that is at least every line. */
  lemma SelectBelowZero<T>(lines: seq<T>, start: Num)
    requires start.Int? && Resolve(start, |lines|).value < 0
    ensures |lines| + Resolve(start, |lines|).value - 1 <= 0 ==> SelectLines(lines, start, NaN) == lines
    ensures |lines| + Resolve(start, |lines|).value - 1 > 0 ==>
      SelectLines(lines, start, NaN) == lines[|lines| + Resolve(start, |lines|).value - 1..]
  {
  }

  /** An end that resolves to 0 shows nothing, whatever the start: `slice`
      stops before index 0. */
  lemma SelectEndsAtZero<T>(lines: seq<T>, start: Num, end: Num)
    requires end.Int? && Resolve(end, |lines|) == Int(0)
    ensures SelectLines(lines, start, end) == []
  {
  }
}
