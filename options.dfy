/** Option parsing of the `GitHubCode` constructor: `slice`, `footer`,
    `highlight`, `lang`, `skin` and `fetchfrom` from the query string. */
module Options {
  import opened Wrappers
  import opened Strings
  import opened JsNumbers

  /** `url.searchParams`: the first value given for each name. Percent
      decoding happens before this map is built. */
  type Query = map<string, string>

  /** `url.searchParams.get(name)`; `None` is `null`. */
  function Param(q: Query, name: string): (r: Option<string>)
    ensures r.Some? <==> name in q
    ensures r.Some? ==> r.value == q[name]
  {
    if name in q then Some(q[name]) else None
  }

  /** JavaScript truthiness of an option value: present and non-empty. */
  predicate IsSet(o: Option<string>)
    ensures o.None? ==> !IsSet(o)
    ensures o == Some("") ==> !IsSet(o)
    ensures IsSet(o) ==> o.Some?
  {
    o.Some? && o.value != ""
  }

  // ---- slice ----

  /** The greedy match of `\d*` at the start of `s`. */
  function DigitsPrefix(s: string): (r: string)
    ensures AllDigits(r) && StartsWith(s, r)
    ensures |r| < |s| ==> !IsDigit(s[|r|])
  {
    if s != [] && IsDigit(s[0]) then [s[0]] + DigitsPrefix(s[1..]) else []
  }

  /** The greedy match of `-?\d*` at the start of `s`. */
  function SignedPrefix(s: string): (r: string)
    ensures SignedDigits(r) && StartsWith(s, r)
    ensures |r| < |s| ==> !IsDigit(s[|r|])
    ensures r == [] ==> s == [] || (s[0] != '-' && !IsDigit(s[0]))
  {
    if s != [] && s[0] == '-' then
      var d := DigitsPrefix(s[1..]);
      assert ("-" + d)[1..] == d;
      "-" + d
    else DigitsPrefix(s)
  }

  /** The groups of `optSlice.match(/(-?\d*)(?:(:)(-?\d*))?/)`: group 1,
      whether group 2 (the colon) took part, and group 3 (`""` when it did
      not). The expression is unanchored and matches the empty string, so it
      always matches, at index 0. */
  datatype SliceMatch = SliceMatch(first: string, colon: bool, second: string)

  function MatchSlice(s: string): (m: SliceMatch)
    ensures SignedDigits(m.first) && SignedDigits(m.second)
    ensures StartsWith(s, m.first)
    ensures m.colon <==> |m.first| < |s| && s[|m.first|] == ':'
    ensures m.colon ==> StartsWith(s[|m.first| + 1..], m.second)
    ensures !m.colon ==> m.second == ""
    ensures m.first == SignedPrefix(s)
    ensures m.colon ==> m.second == SignedPrefix(s[|m.first| + 1..])
  {
    var first := SignedPrefix(s);
    var colon := |first| < |s| && s[|first|] == ':';
    var second := SecondGroup(s, |first|, colon);
    SliceMatch(first, colon, second)
  }

  /** Group 3: the greedy `-?\d*` after the colon at index `k`, or `""`
      when the colon did not take part. */
  function SecondGroup(s: string, k: nat, colon: bool): (r: string)
    requires colon ==> k < |s|
    ensures SignedDigits(r)
    ensures colon ==> r == SignedPrefix(s[k + 1..]) && StartsWith(s[k + 1..], r)
    ensures !colon ==> r == ""
  {
    if colon then SignedPrefix(s[k + 1..])
    else
      assert AllDigits("");
      ""
  }

  /** `sliceStart` and `sliceEnd` as the constructor leaves them. */
  datatype Slice = Slice(start: Num, end: Num)

  const DefaultSlice := Slice(Int(1), NaN)

  /** A set `slice` option: a non-empty group 1 sets the start; without a
      colon the end is `parseInt` of group 1 as well (NaN when it is empty);
      with a colon a non-empty group 3 sets the end. */
  function ParseSlice(o: Option<string>): (r: Slice)
    ensures !IsSet(o) ==> r == DefaultSlice
    ensures IsSet(o) && !MatchSlice(o.value).colon && MatchSlice(o.value).first != "" ==> r.start == r.end
    ensures IsSet(o) && MatchSlice(o.value).first == "" ==> r.start == Int(1)
  {
    if !IsSet(o) then DefaultSlice
    else
      var m := MatchSlice(o.value);
      var start := if m.first != "" then ParseInt(m.first) else Int(1);
      var end :=
        if !m.colon then ParseInt(m.first)
        else if m.second != "" then ParseInt(m.second)
        else NaN;
      Slice(start, end)
  }

  lemma {:induction false} DigitsPrefixOf(d: string, rest: string)
    requires AllDigits(d)
    requires rest == [] || !IsDigit(rest[0])
    ensures DigitsPrefix(d + rest) == d
  {
    if d == [] {
      assert d + rest == rest;
    } else {
      assert (d + rest)[0] == d[0] && (d + rest)[1..] == d[1..] + rest;
      DigitsPrefixOf(d[1..], rest);
      assert d == [d[0]] + d[1..];
    }
  }

  /** The decimal text of an integer is matched whole by `-?\d*`. */
  lemma SignedPrefixOf(n: int, rest: string)
    requires rest == [] || !IsDigit(rest[0])
    ensures SignedPrefix(IntStr(n) + rest) == IntStr(n)
  {
    var t := IntStr(n);
    if n < 0 {
      var d := NatStr(-n);
      assert t == "-" + d;
      assert (t + rest)[1..] == d + rest;
      DigitsPrefixOf(d, rest);
    } else {
      DigitsPrefixOf(t, rest);
    }
  }

  /** `slice=N` (no colon) selects line N alone: start and end are both N. */
  lemma SliceSingle(n: int, rest: string)
    requires rest == [] || !(IsDigit(rest[0]) || rest[0] == ':')
    ensures ParseSlice(Some(IntStr(n) + rest)) == Slice(Int(n), Int(n))
  {
    SignedPrefixOf(n, rest);
  }

  /** Group 1 followed by a colon: group 3 is matched on what follows. */
  lemma MatchAfterColon(a: string, t: string)
    requires SignedPrefix(a + (":" + t)) == a
    ensures MatchSlice(a + (":" + t)) == SliceMatch(a, true, SignedPrefix(t))
  {
    var s := a + (":" + t);
    assert s[|a|] == ':';
    assert s[|a| + 1..] == t;
  }

  /** `slice=N:` sets the start and leaves the end unset. */
  lemma SliceOnward(n: int, rest: string)
    requires rest == [] || !(IsDigit(rest[0]) || rest[0] == '-')
    ensures ParseSlice(Some(IntStr(n) + ":" + rest)) == Slice(Int(n), NaN)
  {
    assert IntStr(n) + ":" + rest == IntStr(n) + (":" + rest);
    SignedPrefixOf(n, ":" + rest);
    MatchAfterColon(IntStr(n), rest);
  }

  lemma SliceOfGroups(a: string, b: string, rest: string)
    requires a != "" && b != ""
    requires SignedPrefix(a + (":" + (b + rest))) == a
    requires SignedPrefix(b + rest) == b
    ensures ParseSlice(Some(a + ":" + b + rest)) == Slice(ParseInt(a), ParseInt(b))
  {
    var s := a + ":" + b + rest;
    assert s == a + (":" + (b + rest));
    MatchAfterColon(a, b + rest);
    assert MatchSlice(s) == SliceMatch(a, true, b);
  }

  /** `slice=N:M` sets both bounds. */
  lemma SliceBetween(n: int, m: int, rest: string)
    requires rest == [] || !IsDigit(rest[0])
    ensures ParseSlice(Some(IntStr(n) + ":" + IntStr(m) + rest)) == Slice(Int(n), Int(m))
  {
    var a, b := IntStr(n), IntStr(m);
    SignedPrefixOf(n, ":" + (b + rest));
    SignedPrefixOf(m, rest);
    SliceOfGroups(a, b, rest);
  }

  /** `slice=:M` keeps the start at 1 and sets the end. */
  lemma SliceUpTo(m: int, rest: string)
    requires rest == [] || !IsDigit(rest[0])
    ensures ParseSlice(Some(":" + IntStr(m) + rest)) == Slice(Int(1), Int(m))
  {
    SignedPrefixOf(m, rest);
    SliceOfSecond(IntStr(m), rest);
  }

  lemma SliceOfSecond(b: string, rest: string)
    requires b != "" && SignedPrefix(b + rest) == b
    ensures ParseSlice(Some(":" + b + rest)) == Slice(Int(1), ParseInt(b))
  {
    var s := ":" + b + rest;
    assert s == "" + (":" + (b + rest));
    assert SignedPrefix(s) == "" by {
      assert s[0] == ':';
    }
    MatchAfterColon("", b + rest);
    assert MatchSlice(s) == SliceMatch("", true, b);
  }

  /** An absent or empty option, or one that starts with neither a digit,
      `-` nor `:`, leaves the defaults: start 1, end unset. */
  lemma SliceDefaults(o: Option<string>)
    requires o.Some? && o.value != [] ==> !(IsDigit(o.value[0]) || o.value[0] == '-' || o.value[0] == ':')
    ensures ParseSlice(o) == Slice(Int(1), NaN)
  {
  }

  /** `slice=-` gives NaN for both bounds: `parseInt("-")` is NaN. */
  lemma SliceLoneDash()
    ensures ParseSlice(Some("-")) == Slice(NaN, NaN)
  {
    assert DigitsPrefix("") == "";
    assert SignedPrefix("-") == "-";
  }

  // ---- footer and highlight ----

  /** `footer: true | "minimal" | false`. */
  datatype Footer = Full | Minimal | Hidden

  /** `/^(false|0|none|no)$/i`: one of the four words, ignoring ASCII case. */
  predicate IsOffWord(v: string)
    ensures IsOffWord(v) ==> 1 <= |v| <= 5
  {
    var w := LowerAscii(v);
    w == "false" || w == "0" || w == "none" || w == "no"
  }

  function ParseFooter(o: Option<string>): (r: Footer)
    ensures r == Minimal <==> o == Some("minimal")
    ensures r == Hidden ==> o.Some? && IsOffWord(o.value)
  {
    if !IsSet(o) then Full
    else if o.value == "minimal" then Minimal
    else if IsOffWord(o.value) then Hidden
    else Full
  }

  /** Exactly `minimal` (case-sensitive) selects the minimal footer; an off
      word in any case hides it; anything else, or no value, keeps it full. */
  lemma FooterModes(o: Option<string>)
    ensures ParseFooter(o) == Minimal <==> o == Some("minimal")
    ensures ParseFooter(o) == Hidden <==> o.Some? && IsOffWord(o.value)
    ensures ParseFooter(o) == Full <==> !(o == Some("minimal") || (o.Some? && IsOffWord(o.value)))
  {
    assert !IsOffWord("");
    assert LowerAscii("minimal") == "minimal" by { LowerAsciiFixed("minimal"); }
  }

  function ParseHighlight(o: Option<string>): (r: bool)
    ensures !r ==> o.Some? && IsOffWord(o.value)
  {
    if !IsSet(o) then true else !IsOffWord(o.value)
  }

  /** Highlighting is off exactly for an off word, in any case. */
  lemma HighlightOff(o: Option<string>)
    ensures !ParseHighlight(o) <==> o.Some? && IsOffWord(o.value)
  {
    assert !IsOffWord("");
  }

  /** The off words match in every ASCII case. */
  lemma OffWordIgnoresCase(v: string, w: string)
    requires LowerAscii(v) == LowerAscii(w)
    ensures IsOffWord(v) <==> IsOffWord(w)
  {
  }

  // ---- lang ----

  /** `lang` is passed through when set. */
  function ParseLang(o: Option<string>): (r: Option<string>)
    ensures r.Some? <==> IsSet(o)
    ensures r.Some? ==> r == o && r.value != ""
  {
    if IsSet(o) then o else None
  }

  // ---- skin ----

  datatype Skin = Default | Desert | Sunburst | SonsOfObsidian | Doxy {
    function Name(): string {
      match this
      case Default => "default"
      case Desert => "desert"
      case Sunburst => "sunburst"
      case SonsOfObsidian => "sons-of-obsidian"
      case Doxy => "doxy"
    }
  }

  const DefaultSkin := SonsOfObsidian

  /** The `switch` over the lower-cased value. */
  function SkinNamed(name: string): (r: Option<Skin>)
    ensures r.Some? ==> r.value.Name() == name
  {
    if name == "default" then Some(Default)
    else if name == "desert" then Some(Desert)
    else if name == "sunburst" then Some(Sunburst)
    else if name == "sons-of-obsidian" then Some(SonsOfObsidian)
    else if name == "doxy" then Some(Doxy)
    else None
  }

  function ParseSkin(o: Option<string>): (r: Skin)
    ensures r != DefaultSkin ==> o.Some? && LowerAscii(o.value) == r.Name()
  {
    if !IsSet(o) then DefaultSkin
    else match SkinNamed(LowerAscii(o.value))
      case Some(k) => k
      case None => DefaultSkin
  }

  lemma SkinNameLower(k: Skin)
    ensures LowerAscii(k.Name()) == k.Name()
  {
    LowerAsciiFixed(k.Name());
  }

  /** A value selects skin `k` exactly when it is `k`'s name in some ASCII
      case; any value that names no skin keeps `sons-of-obsidian`. */
  lemma SkinChoice(v: string, k: Skin)
    ensures ParseSkin(Some(v)) == k <==>
      LowerAscii(v) == k.Name() ||
      (k == DefaultSkin && forall j: Skin :: LowerAscii(v) != j.Name())
  {
    if LowerAscii(v) == k.Name() {
      SkinNameLower(k);
      assert SkinNamed(k.Name()) == Some(k) by {
        match k
        case Default =>
        case Desert =>
        case Sunburst =>
        case SonsOfObsidian =>
        case Doxy =>
      }
    }
    if forall j: Skin :: LowerAscii(v) != j.Name() {
      assert SkinNamed(LowerAscii(v)) == None;
    }
  }

  // ---- fetchfrom ----

  /** `fetchfrom: "github" | "jsdelivr"`. */
  datatype Backend = GitHub | JsDelivr {
    function Name(): string {
      match this
      case GitHub => "github"
      case JsDelivr => "jsdelivr"
    }
  }

  const DefaultBackend := JsDelivr

  function ParseFetchFrom(o: Option<string>): (r: Backend)
    ensures r != DefaultBackend ==> o.Some? && LowerAscii(o.value) == r.Name()
  {
    if !IsSet(o) then DefaultBackend
    else if LowerAscii(o.value) == "github" then GitHub
    else if LowerAscii(o.value) == "jsdelivr" then JsDelivr
    else DefaultBackend
  }

  /** The raw GitHub backend is chosen exactly by `github` in some ASCII case;
      everything else, absence included, keeps jsDelivr. */
  lemma FetchFromChoice(o: Option<string>)
    ensures ParseFetchFrom(o) == GitHub <==> o.Some? && LowerAscii(o.value) == "github"
  {
  }
}
