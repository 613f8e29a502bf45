/** Path handling of the `GitHubCode` constructor: the pathname must match
    `^/github/{user}/{repo}/{blob|raw}/{ref}/{file}$`, and the fetch and view
    URLs and the leaf file name are derived from the matched parts. */
module RequestPath {
  import opened Wrappers
  import opened Strings

  /** The named groups of the path expression. */
  datatype PathParts = PathParts(user: string, repo: string, blobOrRaw: string, ref: string, file: string)

  /** `[^\/]+`: a non-empty run without `/`. */
  predicate IsSegment(s: string) {
    |s| > 0 && forall i :: 0 <= i < |s| ==> s[i] != '/'
  }

  /** The characters JavaScript's `.` does not match (without the `s` flag). */
  predicate IsLineTerminator(c: char) {
    c == '\n' || c == '\r' || c == '\U{2028}' || c == '\U{2029}'
  }

  /** `.+`: a non-empty run without line terminators; `/` is allowed. */
  predicate IsFilePath(s: string) {
    |s| > 0 && forall i :: 0 <= i < |s| ==> !IsLineTerminator(s[i])
  }

  predicate ValidParts(p: PathParts) {
    && IsSegment(p.user)
    && IsSegment(p.repo)
    && (p.blobOrRaw == "blob" || p.blobOrRaw == "raw")
    && IsSegment(p.ref)
    && IsFilePath(p.file)
  }

  /** `a/b`. */
  function Slash(a: string, b: string): string {
    a + "/" + b
  }

  /** The pathname the parts were matched from. */
  function PathOf(p: PathParts): string {
    "/github/" + Slash(p.user, Slash(p.repo, Slash(p.blobOrRaw, Slash(p.ref, p.file))))
  }

  /** Splits `seg/rest` into `seg` and `rest`, where `seg` is a segment. */
  function SplitSegment(s: string): (r: Option<(string, string)>)
    ensures r.Some? ==> IsSegment(r.value.0) && s == Slash(r.value.0, r.value.1)
  {
    var k := IndexOf(s, '/');
    if k == 0 || k == |s| then None
    else
      assert s == s[..k] + "/" + s[k + 1..];
      Some((s[..k], s[k + 1..]))
  }

  lemma SplitSegmentOf(x: string, rest: string)
    requires IsSegment(x)
    ensures SplitSegment(Slash(x, rest)) == Some((x, rest))
  {
    IndexOfAfter(x, '/', rest);
    var s := Slash(x, rest);
    assert s[..|x|] == x && s[|x| + 1..] == rest;
  }

  /** Splits `blob/rest` or `raw/rest`. */
  function SplitKind(s: string): (r: Option<(string, string)>)
    ensures r.Some? ==> (r.value.0 == "blob" || r.value.0 == "raw") && s == Slash(r.value.0, r.value.1)
  {
    if StartsWith(s, "blob/") then
      assert s == s[..5] + s[5..];
      Some(("blob", s[5..]))
    else if StartsWith(s, "raw/") then
      assert s == s[..4] + s[4..];
      Some(("raw", s[4..]))
    else None
  }

  lemma SplitKindOf(kind: string, rest: string)
    requires kind == "blob" || kind == "raw"
    ensures SplitKind(Slash(kind, rest)) == Some((kind, rest))
  {
    var s := Slash(kind, rest);
    if kind == "blob" {
      assert s == "blob/" + rest;
      assert s[..5] == "blob/";
    } else {
      assert s == "raw/" + rest;
      assert s[..4] == "raw/";
      assert !StartsWith(s, "blob/") by {
        if |s| >= 5 { assert s[1] == 'a'; }
      }
    }
  }

  predicate NoLineTerminator(s: string) {
    forall i :: 0 <= i < |s| ==> !IsLineTerminator(s[i])
  }

  /** The match of the path expression; `None` is the constructor's
      `not supported path` error. Each accepted field is the corresponding
      delimited part of the pathname. */
  function ParsePath(p: string): (r: Option<PathParts>)
    ensures r.Some? ==> ValidParts(r.value) && p == PathOf(r.value)
  {
    if !StartsWith(p, "/github/") then None
    else
      var s1 :- SplitSegment(p[8..]);
      var s2 :- SplitSegment(s1.1);
      var s3 :- SplitKind(s2.1);
      var s4 :- SplitSegment(s3.1);
      var file := s4.1;
      if file == [] || !NoLineTerminator(file) then None
      else
        var parts := PathParts(s1.0, s2.0, s3.0, s4.0, file);
        assert p == p[..8] + p[8..];
        Some(parts)
  }

  /** Every pathname of the accepted form parses back into its parts. */
  lemma ParsePathComplete(parts: PathParts)
    requires ValidParts(parts)
    ensures ParsePath(PathOf(parts)) == Some(parts)
  {
    var p := PathOf(parts);
    var r3 := Slash(parts.ref, parts.file);
    var r2 := Slash(parts.blobOrRaw, r3);
    var r1 := Slash(parts.repo, r2);
    assert StartsWith(p, "/github/") && p[8..] == Slash(parts.user, r1);
    SplitSegmentOf(parts.user, r1);
    SplitSegmentOf(parts.repo, r2);
    SplitKindOf(parts.blobOrRaw, r3);
    SplitSegmentOf(parts.ref, parts.file);
    assert parts.file != [] && NoLineTerminator(parts.file);
  }

  /** A pathname is accepted exactly when it has the form
      `/github/{user}/{repo}/{blob|raw}/{ref}/{file}`, and then the match is
      these very parts. */
  lemma ParsePathExact(p: string, parts: PathParts)
    ensures ParsePath(p) == Some(parts) <==> ValidParts(parts) && p == PathOf(parts)
  {
    if ValidParts(parts) && p == PathOf(parts) {
      ParsePathComplete(parts);
    }
  }

  /** `pathname.split('/').pop()`: the text after the last `/`. */
  function LastSegment(s: string): (r: string)
    ensures |r| <= |s|
    ensures forall i :: 0 <= i < |r| ==> r[i] != '/'
  {
    if s == [] then []
    else if s[|s| - 1] == '/' then []
    else LastSegment(s[..|s| - 1]) + [s[|s| - 1]]
  }

  /** The leaf is the longest tail of `s` without a `/`: it holds no `/`,
      it ends `s`, and a `/` comes right before it unless it is all of `s`. */
  lemma LastSegmentIsLeaf(s: string)
    ensures var r := LastSegment(s);
      EndsWith(s, r) &&
      (forall i :: 0 <= i < |r| ==> r[i] != '/') &&
      (|r| < |s| ==> s[|s| - |r| - 1] == '/')
  {
    LastSegmentEnds(s);
    LastSegmentNoSlash(s);
    LastSegmentAfterLastSlash(s);
  }

  lemma {:induction false} LastSegmentEnds(s: string)
    ensures EndsWith(s, LastSegment(s))
  {
    if s != [] && s[|s| - 1] != '/' {
      var p := s[..|s| - 1];
      LastSegmentEnds(p);
      assert s == p + [s[|s| - 1]];
      EndsWithSnoc(p, LastSegment(p), s[|s| - 1]);
    }
  }

  lemma {:induction false} LastSegmentNoSlash(s: string)
    ensures forall i :: 0 <= i < |LastSegment(s)| ==> LastSegment(s)[i] != '/'
  {
    if s != [] && s[|s| - 1] != '/' {
      LastSegmentNoSlash(s[..|s| - 1]);
    }
  }

  lemma {:induction false} LastSegmentAfterLastSlash(s: string)
    ensures |LastSegment(s)| <= |s|
    ensures |LastSegment(s)| < |s| ==> s[|s| - |LastSegment(s)| - 1] == '/'
  {
    if s != [] && s[|s| - 1] != '/' {
      var p := s[..|s| - 1];
      LastSegmentAfterLastSlash(p);
      assert |LastSegment(s)| == |LastSegment(p)| + 1;
    }
  }

  /** The leaf does not look past the last `/` before it. */
  lemma {:induction false} LastSegmentAfterSlash(a: string, f: string)
    ensures LastSegment(a + "/" + f) == LastSegment(f)
  {
    var s := a + "/" + f;
    if f == [] {
      assert s[|s| - 1] == '/';
    } else {
      assert s[..|s| - 1] == a + "/" + f[..|f| - 1];
      assert s[|s| - 1] == f[|f| - 1];
      LastSegmentAfterSlash(a, f[..|f| - 1]);
    }
  }

  /** For an accepted path the leaf name is the last segment of the file path. */
  lemma LeafOfFile(parts: PathParts)
    ensures LastSegment(PathOf(parts)) == LastSegment(parts.file)
  {
    var a := "/github/" + Slash(parts.user, Slash(parts.repo, Slash(parts.blobOrRaw, parts.ref)));
    assert PathOf(parts) == a + "/" + parts.file;
    LastSegmentAfterSlash(a, parts.file);
  }

  const GitHubHost := "https://github.com"

  const JsDelivrHost := "https://cdn.jsdelivr.net/gh/"

  /** `fetchJdUrl`. */
  function JsDelivrUrl(p: PathParts): (r: string)
    ensures StartsWith(r, JsDelivrHost)
    ensures EndsWith(r, "/" + p.file)
  {
    var head := p.user + "/" + p.repo + "@" + p.ref;
    Framed(JsDelivrHost, head, "/" + p.file);
    JsDelivrHost + (head + ("/" + p.file))
  }

  /** `fetchGhUrl`. */
  function GitHubRawUrl(p: PathParts): (r: string)
    ensures StartsWith(r, GitHubHost + "/")
  {
    ConcatParts(GitHubHost + "/", Slash(p.user, Slash(p.repo, Slash("raw", Slash(p.ref, p.file)))));
    GitHubHost + "/" + Slash(p.user, Slash(p.repo, Slash("raw", Slash(p.ref, p.file))))
  }

  /** `blobUrl` before the `?plain=1` flag and any line anchor. */
  function BlobBaseUrl(p: PathParts): (r: string)
    ensures StartsWith(r, GitHubHost + "/")
    ensures |r| == |GitHubRawUrl(p)| + 1
  {
    ConcatParts(GitHubHost + "/", Slash(p.user, Slash(p.repo, Slash("blob", Slash(p.ref, p.file)))));
    GitHubHost + "/" + Slash(p.user, Slash(p.repo, Slash("blob", Slash(p.ref, p.file))))
  }

  /** `blobUrl` as the constructor leaves it: a Markdown leaf asks GitHub for
      the plain-text view. */
  function ViewUrl(p: PathParts, leaf: string): (r: string)
    ensures StartsWith(r, BlobBaseUrl(p))
    ensures r == BlobBaseUrl(p) || r == BlobBaseUrl(p) + "?plain=1"
    ensures r != BlobBaseUrl(p) <==> EndsWith(leaf, ".md")
  {
    BlobBaseUrl(p) + (if EndsWith(leaf, ".md") then "?plain=1" else "")
  }

  /** Reads `{user}/{repo}@{ref}/{file}` back from a jsDelivr URL: the user
      up to the first `/`, then the rest as `ReadRepoRef` reads it. */
  function ReadJsDelivrUrl(url: string): Option<(string, string, string, string)> {
    if !StartsWith(url, JsDelivrHost) then None
    else match SplitSegment(url[|JsDelivrHost|..])
      case None => None
      case Some((user, rest)) =>
        match ReadRepoRef(rest)
        case None => None
        case Some((repo, ref, file)) => Some((user, repo, ref, file))
  }

  /** Reads `{repo}@{ref}/{file}`: the repository up to the first `@`, the
      ref up to the next `/`, and the file path after that. */
  function ReadRepoRef(rest: string): Option<(string, string, string)> {
    var k := IndexOf(rest, '@');
    if k == |rest| then None
    else match SplitSegment(rest[k + 1..])
      case None => None
      case Some((ref, file)) => Some((rest[..k], ref, file))
  }

  /** The jsDelivr URL carries the user, the file path and `{repo}@{ref}`
      back whole; when the repository name holds no `@` it carries all four
      parts. A repository name with an `@` is read as ending at it. */
  lemma JsDelivrUrlCarriesParts(p: PathParts)
    requires ValidParts(p)
    ensures var r := ReadJsDelivrUrl(JsDelivrUrl(p));
      r.Some? && r.value.0 == p.user && r.value.3 == p.file &&
      r.value.1 + "@" + r.value.2 == p.repo + "@" + p.ref
    ensures (forall i :: 0 <= i < |p.repo| ==> p.repo[i] != '@') ==>
      ReadJsDelivrUrl(JsDelivrUrl(p)) == Some((p.user, p.repo, p.ref, p.file))
  {
    var rest := p.repo + "@" + p.ref + "/" + p.file;
    var url := JsDelivrUrl(p);
    assert url == JsDelivrHost + Slash(p.user, rest);
    ConcatParts(JsDelivrHost, Slash(p.user, rest));
    SplitSegmentOf(p.user, rest);
    assert SplitSegment(url[|JsDelivrHost|..]) == Some((p.user, rest));
    RepoRefReads(p.repo, p.ref, p.file);
    var rd := ReadRepoRef(rest).value;
    assert ReadJsDelivrUrl(url) == Some((p.user, rd.0, rd.1, rd.2));
  }

  /** `{repo}@{ref}/{file}` reads back to the file path and to `{repo}@{ref}`
      split at its first `@`. */
  lemma RepoRefReads(repo: string, ref: string, file: string)
    requires IsSegment(repo) && IsSegment(ref)
    ensures var r := ReadRepoRef(repo + "@" + ref + "/" + file);
      r.Some? && r.value.2 == file && r.value.0 + "@" + r.value.1 == repo + "@" + ref
    ensures (forall i :: 0 <= i < |repo| ==> repo[i] != '@') ==>
      ReadRepoRef(repo + "@" + ref + "/" + file) == Some((repo, ref, file))
  {
    var rr := repo + "@" + ref;
    var rest := rr + "/" + file;
    assert rest == repo + "@" + ref + "/" + file;
    var k := IndexOf(rest, '@');
    assert rest[|repo|] == '@';
    var a, seg := rr[..k], rr[k + 1..];
    assert rest[..k] == a;
    assert rest[k + 1..] == Slash(seg, file);
    SegmentAfterAt(repo, ref, k);
    SplitSegmentOf(seg, file);
    assert rr == a + "@" + seg;
    if forall i :: 0 <= i < |repo| ==> repo[i] != '@' {
      assert k == |repo|;
      assert a == repo && seg == ref;
    }
  }

  /** What follows an `@` of `{repo}@{ref}` is a segment. */
  lemma SegmentAfterAt(repo: string, ref: string, k: nat)
    requires IsSegment(repo) && IsSegment(ref) && k <= |repo|
    ensures IsSegment((repo + "@" + ref)[k + 1..])
  {
    var rr := repo + "@" + ref;
    var seg := rr[k + 1..];
    forall i | 0 <= i < |seg| ensures seg[i] != '/' {
      assert seg[i] == rr[k + 1 + i];
      if k + 1 + i < |repo| {
        assert rr[k + 1 + i] == repo[k + 1 + i];
      } else if k + 1 + i > |repo| {
        assert rr[k + 1 + i] == ref[k + 1 + i - |repo| - 1];
      }
    }
  }

  /** The text after the host, read as a path of this service. */
  function AsServicePath(url: string): string
    requires StartsWith(url, GitHubHost)
  {
    "/github" + url[|GitHubHost|..]
  }

  lemma AsServicePathOf(tail: string)
    ensures StartsWith(GitHubHost + "/" + tail, GitHubHost)
    ensures AsServicePath(GitHubHost + "/" + tail) == "/github/" + tail
  {
    var url := GitHubHost + "/" + tail;
    assert url[..|GitHubHost|] == GitHubHost;
    assert url[|GitHubHost|..] == "/" + tail;
  }

  /** The GitHub raw link carries exactly the four parts: read as a path of
      this service, it parses back to them. */
  lemma RawUrlCarriesParts(parts: PathParts)
    requires ValidParts(parts)
    ensures StartsWith(GitHubRawUrl(parts), GitHubHost)
    ensures ParsePath(AsServicePath(GitHubRawUrl(parts))) == Some(parts.(blobOrRaw := "raw"))
  {
    var raw := parts.(blobOrRaw := "raw");
    AsServicePathOf(Slash(parts.user, Slash(parts.repo, Slash("raw", Slash(parts.ref, parts.file)))));
    ParsePathComplete(raw);
  }

  /** The same for the blob link the footer points at. */
  lemma BlobUrlCarriesParts(parts: PathParts)
    requires ValidParts(parts)
    ensures StartsWith(BlobBaseUrl(parts), GitHubHost)
    ensures ParsePath(AsServicePath(BlobBaseUrl(parts))) == Some(parts.(blobOrRaw := "blob"))
  {
    var blob := parts.(blobOrRaw := "blob");
    AsServicePathOf(Slash(parts.user, Slash(parts.repo, Slash("blob", Slash(parts.ref, parts.file)))));
    ParsePathComplete(blob);
  }
}
