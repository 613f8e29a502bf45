/** The request handler and the `GitHubCode` class: a request path names a
    file in a public GitHub repository, the query string chooses lines and
    presentation, and the response is a script that writes the highlighted
    lines into the embedding page. */
module Gistizer {
  import opened Wrappers
  import opened Strings
  import opened JsNumbers
  import opened Html
  import opened Lines
  import opened RequestPath
  import opened Options
  import opened Slicing
  import opened Host
  import opened Template

  // ---- the specification of one request ----

  /** Everything the constructor takes from a request. */
  datatype Request = Request(
    parts: PathParts,
    leaf: string,
    slice: Slice,
    footer: Footer,
    highlight: bool,
    lang: Option<string>,
    skin: Skin,
    fetchFrom: Backend)

  /** The constructor as a function: the path must match, or the request
      fails with `not supported path: ...`; each option falls back to its
      default. */
  function ParseRequest(pathname: string, q: Query): (r: Result<Request, string>)
    ensures r.Failure? <==> ParsePath(pathname).None?
    ensures r.Failure? ==> r.error == "not supported path: " + pathname
    ensures r.Success? ==> ValidParts(r.value.parts) && pathname == PathOf(r.value.parts)
    ensures r.Success? ==> r.value.leaf == LastSegment(r.value.parts.file)
  {
    match ParsePath(pathname)
    case None => Failure("not supported path: " + pathname)
    case Some(parts) =>
      LeafOfFile(parts);
      Success(Request(
        parts,
        LastSegment(pathname),
        ParseSlice(Param(q, "slice")),
        ParseFooter(Param(q, "footer")),
        ParseHighlight(Param(q, "highlight")),
        ParseLang(Param(q, "lang")),
        ParseSkin(Param(q, "skin")),
        ParseFetchFrom(Param(q, "fetchfrom"))))
  }

  /** The URL `fetchCodes` requests. */
  function FetchUrl(req: Request): (r: string)
    ensures req.fetchFrom == JsDelivr ==> StartsWith(r, JsDelivrHost)
    ensures req.fetchFrom == GitHub ==> StartsWith(r, GitHubHost + "/")
  {
    match req.fetchFrom
    case JsDelivr => JsDelivrUrl(req.parts)
    case GitHub => GitHubRawUrl(req.parts)
  }

  /** What `fetchCodes` yields for an upstream answer: its body as the error
      message when the status is not 200, else the chosen lines. */
  function Codes(req: Request, up: Upstream): (r: Result<seq<string>, string>)
    ensures r.Failure? <==> up.status != 200
    ensures r.Failure? ==> r.error == up.body
    ensures r.Success? ==> IsRunOf(r.value, SplitLines(up.body))
  {
    if up.status != 200 then Failure(up.body)
    else Success(SelectLines(SplitLines(up.body), req.slice.start, req.slice.end))
  }

  /** What `fetchCodes` appends to `blobUrl`: the line anchor, and only
      after a successful fetch. */
  function FetchAnchor(req: Request, up: Upstream): (r: string)
    ensures up.status != 200 ==> r == ""
    ensures r == "" || StartsWith(r, "#L")
  {
    if up.status == 200 then Anchor(req.slice.start, req.slice.end, |SplitLines(up.body)|) else ""
  }

  /** `blobUrl` once the lines are fetched. */
  function FinalViewUrl(req: Request, up: Upstream): (r: string)
    ensures StartsWith(r, ViewUrl(req.parts, req.leaf))
    ensures up.status != 200 ==> r == ViewUrl(req.parts, req.leaf)
  {
    ConcatParts(ViewUrl(req.parts, req.leaf), FetchAnchor(req, up));
    AppendEmpty(ViewUrl(req.parts, req.leaf));
    ViewUrl(req.parts, req.leaf) + FetchAnchor(req, up)
  }

  /** `getBody` as a function of the request and the runtime. */
  function Body(req: Request, rt: Runtime): (r: Result<string, string>)
    ensures r.Failure? <==> rt.fetch(FetchUrl(req)).status != 200
    ensures r.Failure? ==> r.error == rt.fetch(FetchUrl(req)).body
  {
    var up := rt.fetch(FetchUrl(req));
    var lines :- Codes(req, up);
    Success(Page(req, rt, EncodeHtml(JoinLines(lines)), FinalViewUrl(req, up)))
  }

  /** The embed script around the escaped code, with `view` as the link to
      the file. */
  function Page(req: Request, rt: Runtime, code: string, view: string): (r: string)
    ensures StartsWith(r, ScriptHead)
    ensures req.highlight ==> StartsWith(r, ScriptHead + Loader(rt.jsonStringify(PrettifyUrl(req.skin))))
    ensures EndsWith(r, rt.jsonStringify(PageMarkup(req, rt, code, view)) + WriteClose)
  {
    var markup := PageMarkup(req, rt, code, view);
    ScriptParts(req.highlight, rt.jsonStringify(PrettifyUrl(req.skin)), rt.jsonStringify(markup));
    Script(req.highlight, rt.jsonStringify(PrettifyUrl(req.skin)), rt.jsonStringify(markup))
  }

  /** The fragment the page writes: the code under the `pre` class of the
      request, then the footer, whose links point at `view`. */
  function PageMarkup(req: Request, rt: Runtime, code: string, view: string): (m: string)
    ensures StartsWith(m, MarkupHead + PreClass(req.lang, req.slice.start))
    ensures EndsWith(m, code + "</pre></div>" + Meta(req.footer, rt.encodeUri(view), rt.encodeUri(RepoUrl), EncodeHtml(req.leaf)) + MarkupClose)
  {
    var meta := Meta(req.footer, rt.encodeUri(view), rt.encodeUri(RepoUrl), EncodeHtml(req.leaf));
    Markup(PreClass(req.lang, req.slice.start), code, meta)
  }

  // ---- responses ----

  /** A response: its status, its body (`None` is `null`) and its
      `Content-Type` header. */
  datatype Response = Response(status: int, body: Option<string>, contentType: Option<string>)

  const JsContentType := "text/javascript; charset=UTF-8"

  const FaviconPath := "/favicon.ico"

  /** `${e}` for an `Error` with message `msg`. */
  function ErrorText(msg: string): (r: string)
    ensures StartsWith(r, "Error")
    ensures r == "Error" <==> msg == ""
    ensures msg != "" ==> EndsWith(r, msg)
  {
    if msg == "" then "Error"
    else
      ConcatParts("Error: ", msg);
      assert ("Error: " + msg)[..5] == "Error";
      "Error: " + msg
  }

  /** The answer to a thrown error: still a 200 script, one that shows the
      error text in the page. */
  function ErrorResponse(msg: string, rt: Runtime): (r: Response)
    ensures r.status == 200 && r.contentType == Some(JsContentType) && r.body.Some?
    ensures StartsWith(r.body.value, ErrorHead)
    ensures EndsWith(r.body.value, rt.jsonStringify(ErrorText(msg)) + ErrorClose)
  {
    Response(200, Some(ErrorScript(rt.jsonStringify(ErrorText(msg)))), Some(JsContentType))
  }

  /** The handler as a function of the path, the query and the runtime. */
  function Handle(pathname: string, q: Query, rt: Runtime): (r: Response)
    ensures r.status == 404 <==> pathname == FaviconPath
  {
    if pathname == FaviconPath then Response(404, None, None)
    else match ParseRequest(pathname, q)
      case Failure(msg) => ErrorResponse(msg, rt)
      case Success(req) =>
        match Body(req, rt)
        case Failure(msg) => ErrorResponse(msg, rt)
        case Success(body) => Response(200, Some(body), Some(JsContentType))
  }

  // ---- the class ----

  class GitHubCode {
    var pathUser: string
    var pathRepo: string
    var pathBlobOrRaw: string
    var pathBranchOrTagOrCommit: string
    var pathFile: string
    var fetchJdUrl: string
    var fetchGhUrl: string
    var blobUrl: string
    var leafFileName: string
    var sliceStart: Num
    var sliceEnd: Num
    var footer: Footer
    var highlight: bool
    var lang: Option<string>
    var skin: Skin
    var fetchfrom: Backend

    /** The request the fields describe. */
    function Spec(): Request
      reads this
    {
      Request(
        PathParts(pathUser, pathRepo, pathBlobOrRaw, pathBranchOrTagOrCommit, pathFile),
        leafFileName,
        Slice(sliceStart, sliceEnd),
        footer, highlight, lang, skin, fetchfrom)
    }

    /** The two fetch URLs agree with the path parts. */
    predicate UrlsAgree()
      reads this
    {
      fetchJdUrl == JsDelivrUrl(Spec().parts) && fetchGhUrl == GitHubRawUrl(Spec().parts)
    }

    /** The object as the constructor leaves it: `blobUrl` has no anchor yet. */
    predicate Fresh()
      reads this
    {
      UrlsAgree() && blobUrl == ViewUrl(Spec().parts, leafFileName)
    }

    /** `new GitHubCode(url)`: the path must match, or it throws. */
    static method Create(pathname: string, q: Query) returns (r: Result<GitHubCode, string>)
      ensures r.Failure? ==> ParseRequest(pathname, q) == Failure(r.error)
      ensures r.Success? ==> fresh(r.value) && r.value.Fresh()
      ensures r.Success? ==> ParseRequest(pathname, q) == Success(r.value.Spec())
    {
      if ParsePath(pathname).None? {
        return Failure("not supported path: " + pathname);
      }
      var parts := ParsePath(pathname).value;
      ParsePathExact(pathname, parts);
      var code := new GitHubCode(pathname, parts, q);
      return Success(code);
    }

    /** The constructor once the path has matched: the path groups, the
        URLs built from them, the leaf name, then each option over its
        default. */
    constructor (pathname: string, parts: PathParts, q: Query)
      ensures Fresh()
      ensures Spec() == Request(parts, LastSegment(pathname),
        ParseSlice(Param(q, "slice")), ParseFooter(Param(q, "footer")),
        ParseHighlight(Param(q, "highlight")), ParseLang(Param(q, "lang")),
        ParseSkin(Param(q, "skin")), ParseFetchFrom(Param(q, "fetchfrom")))
    {
      pathUser := parts.user;
      pathRepo := parts.repo;
      pathBlobOrRaw := parts.blobOrRaw;
      pathBranchOrTagOrCommit := parts.ref;
      pathFile := parts.file;
      fetchJdUrl := JsDelivrUrl(parts);
      fetchGhUrl := GitHubRawUrl(parts);
      var leaf := LastSegment(pathname);
      leafFileName := leaf;
      var view := PlainView(BlobBaseUrl(parts), leaf);
      AppendEmpty(BlobBaseUrl(parts));
      assert view == ViewUrl(parts, leaf);
      blobUrl := view;
      var start, end := SliceOption(Param(q, "slice"));
      sliceStart, sliceEnd := start, end;
      var optFooter := FooterOption(Param(q, "footer"));
      footer := optFooter;
      var optHighlight := HighlightOption(Param(q, "highlight"));
      highlight := optHighlight;
      var optLang := LangOption(Param(q, "lang"));
      lang := optLang;
      var optSkin := SkinOption(Param(q, "skin"));
      skin := optSkin;
      var optFetchfrom := FetchFromOption(Param(q, "fetchfrom"));
      fetchfrom := optFetchfrom;
      new;
      assert parts == PathParts(pathUser, pathRepo, pathBlobOrRaw, pathBranchOrTagOrCommit, pathFile);
    }

    /** `blobUrl` for a leaf name: a Markdown file asks GitHub for the
        plain-text view. */
    static method PlainView(url: string, leaf: string) returns (r: string)
      ensures r == url || r == url + "?plain=1"
      ensures r != url <==> EndsWith(leaf, ".md")
    {
      r := url;
      if EndsWith(leaf, ".md") {
        r := r + "?plain=1";
      }
    }

    /** The `slice` option over start 1 and no end: a non-empty group 1
        sets the start; the end is group 1 again without a colon, or a
        non-empty group 3 after one. */
    static method SliceOption(optSlice: Option<string>) returns (start: Num, end: Num)
      ensures Slice(start, end) == ParseSlice(optSlice)
    {
      start, end := Int(1), NaN;
      if IsSet(optSlice) {
        var m := MatchSlice(optSlice.value);
        if m.first != "" {
          start := ParseInt(m.first);
        }
        if !m.colon {
          end := ParseInt(m.first);
        } else if m.second != "" {
          end := ParseInt(m.second);
        }
      }
    }

    /** The `footer` option over the full footer. */
    static method FooterOption(optFooter: Option<string>) returns (footer: Footer)
      ensures footer == ParseFooter(optFooter)
    {
      footer := Full;
      if IsSet(optFooter) {
        if optFooter.value == "minimal" {
          footer := Minimal;
        } else {
          footer := if IsOffWord(optFooter.value) then Hidden else Full;
        }
      }
    }

    /** The `highlight` option over highlighting on. */
    static method HighlightOption(optHighlight: Option<string>) returns (highlight: bool)
      ensures highlight == ParseHighlight(optHighlight)
    {
      highlight := true;
      if IsSet(optHighlight) {
        highlight := !IsOffWord(optHighlight.value);
      }
    }

    /** The `lang` option over no language. */
    static method LangOption(optLang: Option<string>) returns (lang: Option<string>)
      ensures lang == ParseLang(optLang)
    {
      lang := None;
      if IsSet(optLang) {
        lang := optLang;
      }
    }

    /** The `skin` option over `sons-of-obsidian`: a skin name in any ASCII
        case selects that skin, anything else is ignored. */
    static method SkinOption(optSkin: Option<string>) returns (skin: Skin)
      ensures skin == ParseSkin(optSkin)
    {
      skin := DefaultSkin;
      if IsSet(optSkin) {
        match LowerAscii(optSkin.value) {
          case "default" => skin := Default;
          case "desert" => skin := Desert;
          case "sunburst" => skin := Sunburst;
          case "sons-of-obsidian" => skin := SonsOfObsidian;
          case "doxy" => skin := Doxy;
          case _ =>
        }
      }
    }

    /** The `fetchfrom` option over jsDelivr. */
    static method FetchFromOption(optFetchfrom: Option<string>) returns (fetchfrom: Backend)
      ensures fetchfrom == ParseFetchFrom(optFetchfrom)
    {
      fetchfrom := DefaultBackend;
      if IsSet(optFetchfrom) {
        match LowerAscii(optFetchfrom.value) {
          case "github" => fetchfrom := GitHub;
          case "jsdelivr" => fetchfrom := JsDelivr;
          case _ =>
        }
      }
    }

    /** `fetchCodes`: fetch from the chosen backend, split into lines, add
        the line anchor to `blobUrl`, and cut out the chosen lines. */
    method FetchCodes(rt: Runtime) returns (r: Result<seq<string>, string>)
      requires UrlsAgree()
      modifies this`blobUrl
      ensures r == Codes(Spec(), rt.fetch(FetchUrl(Spec())))
      ensures blobUrl == old(blobUrl) + FetchAnchor(Spec(), rt.fetch(FetchUrl(Spec())))
    {
      var url;
      match fetchfrom {
        case JsDelivr => url := fetchJdUrl;
        case GitHub => url := fetchGhUrl;
      }
      var res := rt.fetch(url);
      if res.status != 200 {
        return Failure(res.body);
      }
      var codeArray := SplitLines(res.body);
      var s := Resolve(sliceStart, |codeArray|);
      var e := Resolve(sliceEnd, |codeArray|);
      if s != Int(1) || !sliceEnd.NaN? {
        if (s.Int? && s == e) || e.NaN? {
          blobUrl := blobUrl + ("#L" + NumStr(s));
        } else {
          blobUrl := blobUrl + ("#L" + NumStr(s) + "-L" + NumStr(e));
        }
      }
      if sliceEnd.NaN? && sliceStart != Int(1) {
        r := Success(JsSlice(codeArray, Pred(s), Int(|codeArray|)));
      } else if !sliceEnd.NaN? {
        r := Success(JsSlice(codeArray, Pred(s), e));
      } else {
        r := Success(codeArray);
      }
    }

    /** `fetchCodesEscaped`: the chosen lines joined with LF and escaped. */
    method FetchCodesEscaped(rt: Runtime) returns (r: Result<string, string>)
      requires UrlsAgree()
      modifies this`blobUrl
      ensures r.Failure? <==> Codes(Spec(), rt.fetch(FetchUrl(Spec()))).Failure?
      ensures r.Failure? ==> r.error == Codes(Spec(), rt.fetch(FetchUrl(Spec()))).error
      ensures r.Success? ==> r.value == EncodeHtml(JoinLines(Codes(Spec(), rt.fetch(FetchUrl(Spec()))).value))
      ensures blobUrl == old(blobUrl) + FetchAnchor(Spec(), rt.fetch(FetchUrl(Spec())))
    {
      var codes := FetchCodes(rt);
      if codes.Failure? {
        return Failure(codes.error);
      }
      return Success(EncodeHtml(JoinLines(codes.value)));
    }

    /** `getBody`: the class attribute and the loader URL come from the
        options; the footer is built after the fetch, so its links carry
        the line anchor. */
    method GetBody(rt: Runtime) returns (r: Result<string, string>)
      requires Fresh()
      modifies this`blobUrl
      ensures Spec() == old(Spec())
      ensures r == Body(Spec(), rt)
      ensures blobUrl == FinalViewUrl(Spec(), rt.fetch(FetchUrl(Spec())))
    {
      ghost var up := rt.fetch(FetchUrl(Spec()));
      var codes :- FetchCodesEscaped(rt);
      assert codes == EncodeHtml(JoinLines(Codes(Spec(), up).value));
      r := Success(Page(Spec(), rt, codes, blobUrl));
    }
  }

  /** The request handler: `favicon.ico` is not found; every other path
      answers a script, the error script when construction or the fetch
      throws. */
  method Fetch(pathname: string, q: Query, rt: Runtime) returns (resp: Response)
    ensures resp == Handle(pathname, q, rt)
  {
    if pathname == FaviconPath {
      return Response(404, None, None);
    }
    var created := GitHubCode.Create(pathname, q);
    if created.Failure? {
      return ErrorResponse(created.error, rt);
    }
    ghost var req := created.value.Spec();
    var body := created.value.GetBody(rt);
    assert body == Body(req, rt);
    if body.Failure? {
      return ErrorResponse(body.error, rt);
    }
    return Response(200, Some(body.value), Some(JsContentType));
  }
}
