/** Line handling of `fetchCodes` and `fetchCodesEscaped`: the fetched text
    is split with `/\r\n|\n|\r/`, and the chosen lines are joined back with
    `"\n"`. */
module Lines {
  import opened Strings

  predicate IsBreak(c: char) { c == '\n' || c == '\r' }

  predicate NoBreak(s: string) {
    forall i :: 0 <= i < |s| ==> !IsBreak(s[i])
  }

  /** `text.split(/\r\n|\n|\r/)`: at each position the alternation tries
      `\r\n` first, so a CR LF pair is one separator while LF CR is two.
      There is always at least one line, and no line holds a CR or an LF. */
  function SplitLines(s: string): (r: seq<string>)
    ensures |r| >= 1
    ensures forall k :: 0 <= k < |r| ==> NoBreak(r[k])
  {
    if s == [] then [""]
    else if |s| >= 2 && s[0] == '\r' && s[1] == '\n' then [""] + SplitLines(s[2..])
    else if IsBreak(s[0]) then [""] + SplitLines(s[1..])
    else
      var rest := SplitLines(s[1..]);
      [[s[0]] + rest[0]] + rest[1..]
  }

  /** `lines.join("\n")`. */
  function JoinLines(ls: seq<string>): (r: string)
    ensures |r| >= |ls| - 1
    ensures |ls| >= 1 ==> StartsWith(r, ls[0])
  {
    if ls == [] then ""
    else if |ls| == 1 then ls[0]
    else ls[0] + "\n" + JoinLines(ls[1..])
  }

  /** The text with every CR LF pair and every lone CR turned into an LF. */
  function Normalize(s: string): string {
    if s == [] then []
    else if |s| >= 2 && s[0] == '\r' && s[1] == '\n' then "\n" + Normalize(s[2..])
    else if IsBreak(s[0]) then "\n" + Normalize(s[1..])
    else [s[0]] + Normalize(s[1..])
  }

  lemma JoinCons(x: string, ls: seq<string>)
    requires |ls| >= 1
    ensures JoinLines([x] + ls) == x + "\n" + JoinLines(ls)
  {
    assert ([x] + ls)[1..] == ls;
  }

  /** Splitting then joining with LF normalises the line endings and keeps
      every other character, in order. */
  lemma {:induction false} JoinSplit(s: string)
    ensures JoinLines(SplitLines(s)) == Normalize(s)
  {
    if s == [] {
    } else if |s| >= 2 && s[0] == '\r' && s[1] == '\n' {
      JoinSplit(s[2..]);
      JoinCons("", SplitLines(s[2..]));
    } else if IsBreak(s[0]) {
      JoinSplit(s[1..]);
      JoinCons("", SplitLines(s[1..]));
    } else {
      var rest := SplitLines(s[1..]);
      JoinSplit(s[1..]);
      if |rest| == 1 {
        assert SplitLines(s) == [[s[0]] + rest[0]];
      } else {
        JoinCons([s[0]] + rest[0], rest[1..]);
        JoinCons(rest[0], rest[1..]);
        assert rest == [rest[0]] + rest[1..];
      }
    }
  }

  /** The number of lines is one more than the number of separators. */
  lemma LineCount(s: string)
    ensures |SplitLines(s)| == Count(Normalize(s), '\n') + 1
  {
    JoinSplit(s);
    JoinCount(SplitLines(s));
  }

  lemma {:induction false} JoinCount(ls: seq<string>)
    requires |ls| >= 1
    requires forall k :: 0 <= k < |ls| ==> NoBreak(ls[k])
    ensures Count(JoinLines(ls), '\n') == |ls| - 1
  {
    CountAbsent(ls[0], '\n');
    if |ls| > 1 {
      JoinCount(ls[1..]);
      CountConcat(ls[0], "\n", '\n');
      CountConcat(ls[0] + "\n", JoinLines(ls[1..]), '\n');
    }
  }

  /** Splitting text whose first part has no break: that part opens the
      first line. */
  lemma {:induction false} SplitPrefix(w: string, t: string)
    requires NoBreak(w)
    ensures SplitLines(w + t) == [w + SplitLines(t)[0]] + SplitLines(t)[1..]
  {
    if w == [] {
      assert w + t == t;
      assert w + SplitLines(t)[0] == SplitLines(t)[0];
      assert SplitLines(t) == [SplitLines(t)[0]] + SplitLines(t)[1..];
    } else {
      assert (w + t)[0] == w[0] && (w + t)[1..] == w[1..] + t;
      SplitPrefix(w[1..], t);
      assert [w[0]] + (w[1..] + SplitLines(t)[0]) == w + SplitLines(t)[0];
    }
  }

  /** Lines without breaks survive joining and splitting again. */
  lemma {:induction false} SplitJoin(ls: seq<string>)
    requires |ls| >= 1
    requires forall k :: 0 <= k < |ls| ==> NoBreak(ls[k])
    ensures SplitLines(JoinLines(ls)) == ls
  {
    if |ls| == 1 {
      SplitPrefix(ls[0], "");
      assert ls[0] + "" == ls[0];
    } else {
      var u := JoinLines(ls[1..]);
      SplitJoin(ls[1..]);
      assert ls[0] + "\n" + u == ls[0] + ("\n" + u);
      SplitPrefix(ls[0], "\n" + u);
      assert ("\n" + u)[1..] == u;
      assert SplitLines("\n" + u) == [""] + SplitLines(u);
      assert ls[0] + "" == ls[0];
      assert ls == [ls[0]] + ls[1..];
    }
  }
}
