/** What the handler promises, stated over `Handle` and the request
    specification. */
module GistizerProperties {
  import opened Wrappers
  import opened Strings
  import opened JsNumbers
  import opened Html
  import opened Lines
  import opened RequestPath
  import opened Options
  import opened Slicing
  import opened Host
  import opened Template
  import opened Gistizer

  /** `/favicon.ico` is answered 404 with no body, whatever the query. */
  lemma FaviconNotFound(q: Query, rt: Runtime)
    ensures Handle(FaviconPath, q, rt) == Response(404, None, None)
  {
  }

  /** Every other path is answered 200 with a JavaScript body: failures
      are reported inside the script, never by the status. */
  lemma AlwaysScript(pathname: string, q: Query, rt: Runtime)
    requires pathname != FaviconPath
    ensures Handle(pathname, q, rt).status == 200
    ensures Handle(pathname, q, rt).contentType == Some(JsContentType)
    ensures Handle(pathname, q, rt).body.Some?
  {
  }

  /** A path the service does not serve: the error script names the path. */
  lemma UnsupportedPath(pathname: string, q: Query, rt: Runtime)
    requires pathname != FaviconPath && ParsePath(pathname).None?
    ensures Handle(pathname, q, rt) ==
      Response(200, Some(Template.ErrorScript(rt.jsonStringify("Error: not supported path: " + pathname))), Some(JsContentType))
  {
    assert ParseRequest(pathname, q) == Failure("not supported path: " + pathname);
    NotSupportedText(pathname);
  }

  /** The text of the error thrown for an unsupported path. */
  lemma NotSupportedText(pathname: string)
    ensures ErrorText("not supported path: " + pathname) == "Error: not supported path: " + pathname
  {
    var msg := "not supported path: " + pathname;
    assert msg != "" by { assert msg[0] == 'n'; }
    ConcatAssoc("Error: ", "not supported path: ", pathname);
    assert "Error: " + "not supported path: " == "Error: not supported path: ";
  }

  /** Nothing is fetched for such a path: the answer does not depend on the
      network. */
  lemma UnsupportedPathOffline(pathname: string, q: Query, rt: Runtime, other: string -> Upstream)
    requires ParsePath(pathname).None?
    ensures Handle(pathname, q, rt) == Handle(pathname, q, rt.(fetch := other))
  {
    assert ParseRequest(pathname, q).Failure?;
  }

  /** An upstream answer other than 200 is shown as the error, its body as
      the message. */
  lemma UpstreamFailure(pathname: string, q: Query, rt: Runtime)
    requires pathname != FaviconPath && ParseRequest(pathname, q).Success?
    requires rt.fetch(FetchUrl(ParseRequest(pathname, q).value)).status != 200
    ensures Handle(pathname, q, rt) == ErrorResponse(rt.fetch(FetchUrl(ParseRequest(pathname, q).value)).body, rt)
  {
  }

  /** Only the upstream answer for the one URL requested matters. */
  lemma OnlyFetchedUrlMatters(pathname: string, q: Query, rt: Runtime, other: string -> Upstream)
    requires ParseRequest(pathname, q).Success? ==>
      other(FetchUrl(ParseRequest(pathname, q).value)) == rt.fetch(FetchUrl(ParseRequest(pathname, q).value))
    ensures Handle(pathname, q, rt) == Handle(pathname, q, rt.(fetch := other))
  {
    if pathname != FaviconPath && ParseRequest(pathname, q).Success? {
      BodyReadsOneUrl(ParseRequest(pathname, q).value, rt, other);
    }
  }

  lemma BodyReadsOneUrl(req: Request, rt: Runtime, other: string -> Upstream)
    requires other(FetchUrl(req)) == rt.fetch(FetchUrl(req))
    ensures Body(req, rt) == Body(req, rt.(fetch := other))
  {
    var rt2 := rt.(fetch := other);
    assert rt2.encodeUri == rt.encodeUri && rt2.jsonStringify == rt.jsonStringify;
    var up := rt.fetch(FetchUrl(req));
    assert rt2.fetch(FetchUrl(req)) == up;
    if up.status == 200 {
      var code := EncodeHtml(JoinLines(Codes(req, up).value));
      assert Page(req, rt, code, FinalViewUrl(req, up)) == Page(req, rt2, code, FinalViewUrl(req, up));
    }
  }

  /** The file comes from jsDelivr unless `fetchfrom` is `github` in some
      ASCII case, and then from GitHub's raw link. */
  lemma BackendChoice(pathname: string, q: Query)
    requires ParseRequest(pathname, q).Success?
    ensures var req := ParseRequest(pathname, q).value;
      var o := Param(q, "fetchfrom");
      FetchUrl(req) ==
        if o.Some? && LowerAscii(o.value) == "github" then GitHubRawUrl(req.parts) else JsDelivrUrl(req.parts)
  {
    FetchFromChoice(Param(q, "fetchfrom"));
  }

  /** A contiguous run of lines without breaks has no breaks either. */
  lemma RunHasNoBreak(r: seq<string>, a: seq<string>)
    requires IsRunOf(r, a)
    requires forall k :: 0 <= k < |a| ==> NoBreak(a[k])
    ensures forall k :: 0 <= k < |r| ==> NoBreak(r[k])
  {
    var i, j :| 0 <= i <= j <= |a| && r == a[i..j];
    forall k | 0 <= k < |r|
      ensures NoBreak(r[k])
    {
      assert r[k] == a[i + k];
    }
  }

  /** The code block holds the chosen lines: unescaped, it is their LF
      join, and when any line is chosen, splitting it again gives exactly
      those lines back. */
  lemma ShownCodeReadsBack(text: string, start: Num, end: Num)
    ensures var chosen := SelectLines(SplitLines(text), start, end);
      DecodeHtml(EncodeHtml(JoinLines(chosen))) == JoinLines(chosen) &&
      (|chosen| >= 1 ==> SplitLines(DecodeHtml(EncodeHtml(JoinLines(chosen)))) == chosen)
  {
    var lines := SplitLines(text);
    var chosen := SelectLines(lines, start, end);
    DecodeEncode(JoinLines(chosen));
    if |chosen| >= 1 {
      RunHasNoBreak(chosen, lines);
      SplitJoin(chosen);
    }
  }

  /** Without a `slice` option the code block is the whole file with its
      line breaks turned into LF. */
  lemma WholeFileByDefault(text: string)
    ensures var chosen := SelectLines(SplitLines(text), DefaultSlice.start, DefaultSlice.end);
      DecodeHtml(EncodeHtml(JoinLines(chosen))) == Normalize(text)
  {
    DecodeEncode(JoinLines(SplitLines(text)));
    JoinSplit(text);
  }

  /** After a successful fetch the file link carries a line anchor exactly
      when the resolved start is not 1 or an end is given. */
  lemma ViewAnchored(req: Request, up: Upstream)
    requires up.status == 200
    ensures FinalViewUrl(req, up) == ViewUrl(req.parts, req.leaf) <==>
      Resolve(req.slice.start, |SplitLines(up.body)|) == Int(1) && req.slice.end.NaN?
  {
    var view := ViewUrl(req.parts, req.leaf);
    AnchorPresence(req.slice.start, req.slice.end, |SplitLines(up.body)|);
    AppendEmpty(view);
    assert |FinalViewUrl(req, up)| == |view| + |FetchAnchor(req, up)|;
  }

  /** A failed fetch leaves the file link as the constructor built it. */
  lemma ViewAfterFailure(req: Request, up: Upstream)
    requires up.status != 200
    ensures FinalViewUrl(req, up) == ViewUrl(req.parts, req.leaf)
  {
    AppendEmpty(ViewUrl(req.parts, req.leaf));
  }

  /** `slice=0`, and `slice=-N` on an N-line file, have no colon, so the end
      is the same number as the start: both resolve to 0, the embed shows no
      line at all, and the link points at `#L0`. */
  lemma SingleSliceAtZero(n: int, lines: seq<string>)
    requires n == 0 || n == -|lines|
    ensures ParseSlice(Some(IntStr(n))) == Slice(Int(n), Int(n))
    ensures SelectLines(lines, Int(n), Int(n)) == []
    ensures Anchor(Int(n), Int(n), |lines|) == "#L0"
  {
    SliceSingle(n, "");
    AppendEmpty(IntStr(n));
    SelectEndsAtZero(lines, Int(n), Int(n));
    assert Resolve(Int(n), |lines|) == Int(0);
    assert NumStr(Int(0)) == "0" by { assert DigitChar(0) == '0'; }
  }

  /** After a 200 answer, `getBody` returns the embed script writing the
      fragment that holds the escaped chosen lines under the request's `pre`
      class, followed by the footer linking the anchored view URL. */
  lemma SuccessPage(req: Request, rt: Runtime)
    requires rt.fetch(FetchUrl(req)).status == 200
    ensures var up := rt.fetch(FetchUrl(req));
      var code := EncodeHtml(JoinLines(SelectLines(SplitLines(up.body), req.slice.start, req.slice.end)));
      var view := FinalViewUrl(req, up);
      var m := PageMarkup(req, rt, code, view);
      && Body(req, rt) == Success(Script(req.highlight, rt.jsonStringify(PrettifyUrl(req.skin)), rt.jsonStringify(m)))
      && StartsWith(m, MarkupHead + PreClass(req.lang, req.slice.start))
      && EndsWith(m, code + "</pre></div>" + Meta(req.footer, rt.encodeUri(view), rt.encodeUri(RepoUrl), EncodeHtml(req.leaf)) + MarkupClose)
  {
    var up := rt.fetch(FetchUrl(req));
    var code := EncodeHtml(JoinLines(SelectLines(SplitLines(up.body), req.slice.start, req.slice.end)));
    assert Codes(req, up) == Success(SelectLines(SplitLines(up.body), req.slice.start, req.slice.end));
    assert Body(req, rt) == Success(Page(req, rt, code, FinalViewUrl(req, up)));
  }
}
