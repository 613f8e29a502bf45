/** `GitHubCode.encodeHtml`: the escaping applied to the fetched code and to
    the file name before they are written into the embed's markup. */
module Html {
  import opened Strings

  predicate IsSpecial(c: char) { c == '&' || c == '<' || c == '>' }

  /** The replacement the callback of `encodeHtml` returns for one match of
      `/&|<|>/g`; any other character is left as it is. */
  function EscapeChar(c: char): (r: string)
    ensures forall i :: 0 <= i < |r| ==> r[i] != '<' && r[i] != '>'
    ensures IsSpecial(c) <==> |r| > 1
    ensures IsSpecial(c) ==> r[0] == '&'
    ensures !IsSpecial(c) ==> r == [c]
  {
    if c == '&' then "&amp;"
    else if c == '<' then "&lt;"
    else if c == '>' then "&gt;"
    else [c]
  }

  /** Replaces every `&`, `<` and `>` by its named entity, left to right. The
      result holds no `<` and no `>`, so escaped text cannot open or close an
      element, and it is never shorter than the input. */
  function EncodeHtml(s: string): (r: string)
    ensures forall i :: 0 <= i < |r| ==> r[i] != '<' && r[i] != '>'
    ensures |r| >= |s|
  {
    if s == [] then [] else EscapeChar(s[0]) + EncodeHtml(s[1..])
  }

  /** The inverse mapping: the three entities back to their characters. */
  function DecodeHtml(s: string): string {
    if s == [] then []
    else if StartsWith(s, "&amp;") then "&" + DecodeHtml(s[5..])
    else if StartsWith(s, "&lt;") then "<" + DecodeHtml(s[4..])
    else if StartsWith(s, "&gt;") then ">" + DecodeHtml(s[4..])
    else [s[0]] + DecodeHtml(s[1..])
  }

  /** Escaping loses nothing: decoding the entities gives the input back. */
  lemma {:induction false} DecodeEncode(s: string)
    ensures DecodeHtml(EncodeHtml(s)) == s
  {
    if s != [] {
      var rest := EncodeHtml(s[1..]);
      assert EncodeHtml(s) == EscapeChar(s[0]) + rest;
      DecodeStep(s[0], rest);
      DecodeEncode(s[1..]);
      assert s == [s[0]] + s[1..];
    }
  }

  /** Decoding undoes the escape of the first character. */
  lemma DecodeStep(c: char, rest: string)
    ensures DecodeHtml(EscapeChar(c) + rest) == [c] + DecodeHtml(rest)
  {
    if c == '&' {
      DecodeAmp(rest);
    } else if c == '<' {
      DecodeLt(rest);
    } else if c == '>' {
      DecodeGt(rest);
    } else {
      DecodePlain(c, rest);
    }
  }

  /** One decoding step for each entity, and for any other character. */
  lemma DecodeAmp(rest: string)
    ensures DecodeHtml("&amp;" + rest) == "&" + DecodeHtml(rest)
  {
    var e := "&amp;" + rest;
    assert e[..5] == "&amp;" && e[5..] == rest;
  }

  lemma DecodeLt(rest: string)
    ensures DecodeHtml("&lt;" + rest) == "<" + DecodeHtml(rest)
  {
    var e := "&lt;" + rest;
    assert e[1] == 'l';
    assert !StartsWith(e, "&amp;");
    assert e[..4] == "&lt;" && e[4..] == rest;
  }

  lemma DecodeGt(rest: string)
    ensures DecodeHtml("&gt;" + rest) == ">" + DecodeHtml(rest)
  {
    var e := "&gt;" + rest;
    assert e[1] == 'g';
    assert !StartsWith(e, "&amp;") && !StartsWith(e, "&lt;");
    assert e[..4] == "&gt;" && e[4..] == rest;
  }

  lemma DecodePlain(c: char, rest: string)
    requires !IsSpecial(c)
    ensures DecodeHtml([c] + rest) == [c] + DecodeHtml(rest)
  {
    var e := [c] + rest;
    assert e[0] == c && e[1..] == rest;
  }

  /** Escaping distributes over concatenation. */
  lemma {:induction false} EncodeConcat(a: string, b: string)
    ensures EncodeHtml(a + b) == EncodeHtml(a) + EncodeHtml(b)
  {
    if a == [] {
      assert a + b == b;
    } else {
      assert (a + b)[0] == a[0] && (a + b)[1..] == a[1..] + b;
      EncodeConcat(a[1..], b);
    }
  }

  /** Text without `&`, `<` and `>` is left unchanged. */
  lemma {:induction false} EncodePlain(s: string)
    requires forall i :: 0 <= i < |s| ==> !IsSpecial(s[i])
    ensures EncodeHtml(s) == s
  {
    if s != [] {
      EncodePlain(s[1..]);
    }
  }

  /** When the input has one of `&`, `<`, `>`, the output has an `&` and is
      strictly longer. */
  lemma {:induction false} EncodeSpecial(s: string)
    requires exists i :: 0 <= i < |s| && IsSpecial(s[i])
    ensures |EncodeHtml(s)| > |s|
    ensures exists i :: 0 <= i < |EncodeHtml(s)| && EncodeHtml(s)[i] == '&'
  {
    var rest := EncodeHtml(s[1..]);
    assert EncodeHtml(s) == EscapeChar(s[0]) + rest;
    if IsSpecial(s[0]) {
      assert EncodeHtml(s)[0] == '&';
    } else {
      var i :| 0 <= i < |s| && IsSpecial(s[i]);
      assert IsSpecial(s[1..][i - 1]);
      EncodeSpecial(s[1..]);
      var j :| 0 <= j < |rest| && rest[j] == '&';
      assert EncodeHtml(s)[j + 1] == '&';
    }
  }

  /** Escaping is idempotent exactly on text that has nothing to escape: any
      `&`, `<` or `>` makes a second pass escape the `&` of the entities. */
  lemma EncodeIdempotentIff(s: string)
    ensures EncodeHtml(EncodeHtml(s)) == EncodeHtml(s) <==> forall i :: 0 <= i < |s| ==> !IsSpecial(s[i])
  {
    if forall i :: 0 <= i < |s| ==> !IsSpecial(s[i]) {
      EncodePlain(s);
    } else {
      EncodeSpecial(s);
      EncodeSpecial(EncodeHtml(s));
    }
  }
}
