/** The text `getBody` assembles and the fallback script of the request
    handler. `JSON.stringify` and `encodeURI` are applied by the caller; the
    pieces here take their results. */
module Template {
  import opened Wrappers
  import opened Strings
  import opened JsNumbers
  import opened Html
  import opened Options

  const RepoUrl := "https://github.com/advanceboy/gistizer"

  const PrettifyBase :=
    "https://cdn.jsdelivr.net/gh/google/code-prettify/loader/run_prettify.js?callback=prettyPrintCallbackForGistizer"

  /** The highlighter loader URL; the default skin is not named. */
  function PrettifyUrl(skin: Skin): (r: string)
    ensures StartsWith(r, PrettifyBase)
    ensures skin != Default ==> EndsWith(r, "&skin=" + skin.Name())
  {
    var tail := if skin != Default then "&skin=" + skin.Name() else "";
    ConcatParts(PrettifyBase, tail);
    PrettifyBase + tail
  }

  lemma SkinNameInjective(a: Skin, b: Skin)
    requires a.Name() == b.Name()
    ensures a == b
  {
  }

  /** The loader URL names the skin: it is the bare URL exactly for the
      default skin, and different skins give different URLs. */
  lemma PrettifyUrlNamesSkin(a: Skin, b: Skin)
    ensures PrettifyUrl(a) == PrettifyBase <==> a == Default
    ensures PrettifyUrl(a) == PrettifyUrl(b) ==> a == b
  {
    if PrettifyUrl(a) == PrettifyUrl(b) {
      var n := |PrettifyBase|;
      assert PrettifyUrl(a)[n..] == PrettifyUrl(b)[n..];
      if a != Default && b != Default {
        assert PrettifyUrl(a)[n..] == "&skin=" + a.Name();
        assert PrettifyUrl(b)[n..] == "&skin=" + b.Name();
        assert ("&skin=" + a.Name())[6..] == a.Name();
        assert ("&skin=" + b.Name())[6..] == b.Name();
        SkinNameInjective(a, b);
      }
    }
  }

  /** The class attribute of the `pre` element. `lang` counts when it is a
      non-empty string; the `linenums:` start is the raw `sliceStart`. */
  function PreClass(lang: Option<string>, start: Num): (r: string)
    ensures StartsWith(r, "prettyprint")
  {
    var tail := (if IsSet(lang) then " lang-" + lang.value else "")
      + " linenums"
      + (if start != Int(1) then ":" + NumStr(start) else "");
    ConcatParts("prettyprint", tail);
    "prettyprint" + tail
  }

  /** The class carries ` lang-X` exactly when a language is set, right after
      `prettyprint` and before ` linenums`. */
  lemma PreClassLang(lang: Option<string>, start: Num)
    ensures IsSet(lang) <==> StartsWith(PreClass(lang, start), "prettyprint lang-")
    ensures IsSet(lang) ==> StartsWith(PreClass(lang, start), "prettyprint lang-" + lang.value + " linenums")
  {
    if IsSet(lang) {
      PreClassWithLang(lang, start);
    } else {
      PreClassWithoutLang(lang, start);
    }
  }

  lemma PreClassWithLang(lang: Option<string>, start: Num)
    requires IsSet(lang)
    ensures StartsWith(PreClass(lang, start), "prettyprint lang-")
    ensures StartsWith(PreClass(lang, start), "prettyprint lang-" + lang.value + " linenums")
  {
    var n := if start != Int(1) then ":" + NumStr(start) else "";
    assert PreClass(lang, start) == "prettyprint" + " lang-" + lang.value + " linenums" + n;
    LangPrefix(lang.value, n);
  }

  /** The class with a language, whatever follows ` linenums`. */
  lemma LangPrefix(v: string, n: string)
    ensures StartsWith("prettyprint" + " lang-" + v + " linenums" + n, "prettyprint lang-" + v + " linenums")
    ensures StartsWith("prettyprint" + " lang-" + v + " linenums" + n, "prettyprint lang-")
  {
    var p := "prettyprint lang-" + v + " linenums";
    assert "prettyprint" + " lang-" == "prettyprint lang-";
    assert "prettyprint" + " lang-" + v + " linenums" + n == p + n;
    ConcatParts(p, n);
    assert (p + n)[..17] == p[..17];
  }

  lemma PreClassWithoutLang(lang: Option<string>, start: Num)
    requires !IsSet(lang)
    ensures !StartsWith(PreClass(lang, start), "prettyprint lang-")
  {
    assert PreClass(lang, start)[13] == 'i';
  }

  /** The class gives a starting line exactly when the raw start is not 1,
      and then it ends with `linenums:` followed by that start's text, which
      reads back to the start. */
  lemma PreClassLinenums(lang: Option<string>, start: Num)
    ensures start == Int(1) <==> EndsWith(PreClass(lang, start), " linenums")
    ensures start != Int(1) ==> EndsWith(PreClass(lang, start), " linenums:" + NumStr(start))
    ensures ParseNumText(NumStr(start)) == Some(start)
  {
    NumStrRoundTrip(start);
    if start != Int(1) {
      PreClassWithStart(lang, start);
    } else {
      PreClassWithoutStart(lang);
    }
  }

  lemma PreClassWithStart(lang: Option<string>, start: Num)
    requires start != Int(1)
    ensures !EndsWith(PreClass(lang, start), " linenums")
    ensures EndsWith(PreClass(lang, start), " linenums:" + NumStr(start))
  {
    var lp := if IsSet(lang) then " lang-" + lang.value else "";
    var x := NumStr(start);
    assert PreClass(lang, start) == "prettyprint" + ((lp + " linenums") + (":" + x));
    LinenumsTail(lp, x);
  }

  /** A class whose start text does not end in `s` ends with `linenums:`
      and that text, and so not with ` linenums`. */
  lemma LinenumsTail(lp: string, x: string)
    requires |x| > 0 && x[|x| - 1] != 's'
    ensures EndsWith("prettyprint" + ((lp + " linenums") + (":" + x)), " linenums:" + x)
    ensures !EndsWith("prettyprint" + ((lp + " linenums") + (":" + x)), " linenums")
  {
    var t := " linenums:" + x;
    var c := "prettyprint" + ((lp + " linenums") + (":" + x));
    assert c == ("prettyprint" + lp) + t;
    ConcatParts("prettyprint" + lp, t);
    assert c[|c| - 1] == x[|x| - 1];
  }

  lemma PreClassWithoutStart(lang: Option<string>)
    ensures EndsWith(PreClass(lang, Int(1)), " linenums")
  {
    var c := PreClass(lang, Int(1));
    var head := "prettyprint" + (if IsSet(lang) then " lang-" + lang.value else "");
    assert c == head + " linenums";
    assert c[|c| - 9..] == " linenums";
  }

  const MetaOpen :=
    "<div class=\"gistizer-meta\" style=\"color: rgb(102, 102, 102); padding: 2px; border: 1px solid black;\">"

  /** The start of a footer link, up to its `href` value. */
  const LinkOpen := "<a style=\"color: rgb(102, 102, 102);\" href=\""

  const AttributionOpen := "<span>" + LinkOpen

  const AttributionMid := "\">This Gist</a> brought to you by " + LinkOpen

  const AttributionClose := "\">gistizer</a>.</span>"

  /** The attribution sentence of the full footer: a link to the file view,
      then a link to the project. */
  function Attribution(viewHref: string, repoHref: string): (r: string)
    ensures StartsWith(r, AttributionOpen + viewHref)
    ensures EndsWith(r, repoHref + AttributionClose)
  {
    var h := AttributionOpen + viewHref;
    var t := repoHref + AttributionClose;
    Framed(h, AttributionMid, t);
    h + AttributionMid + t
  }

  const FileLinkOpen := "<span style=\"float: right; margin-right: 8px;\">" + LinkOpen

  /** The right-aligned link showing the file name: it points at the file
      view and its text is the escaped leaf name. */
  function FileLink(viewHref: string, leafHtml: string): (r: string)
    ensures StartsWith(r, FileLinkOpen + viewHref)
    ensures EndsWith(r, leafHtml + "</a></span>")
  {
    var h := FileLinkOpen + viewHref;
    var t := leafHtml + "</a></span>";
    Framed(h, "\">", t);
    h + "\">" + t
  }

  /** The meta block: absent for a hidden footer; a non-breaking space stands
      in for the attribution in the minimal footer. */
  function Meta(footer: Footer, viewHref: string, repoHref: string, leafHtml: string): (r: string)
    ensures r == "" <==> footer == Hidden
  {
    if footer == Hidden then ""
    else (MetaOpen + (if footer != Minimal then Attribution(viewHref, repoHref) else "&nbsp;")
      + FileLink(viewHref, leafHtml) + "</div>")
  }

  /** The three footer modes are told apart by the text: no meta block when
      hidden, `&nbsp;` right after its opening tag when minimal, the
      attribution link there when full; both shown footers end with the
      file-name link. */
  lemma MetaModes(footer: Footer, viewHref: string, repoHref: string, leafHtml: string)
    ensures Meta(footer, viewHref, repoHref, leafHtml) == "" <==> footer == Hidden
    ensures footer == Minimal <==> StartsWith(Meta(footer, viewHref, repoHref, leafHtml), MetaOpen + "&nbsp;")
    ensures footer == Full <==> StartsWith(Meta(footer, viewHref, repoHref, leafHtml), MetaOpen + Attribution(viewHref, repoHref))
    ensures footer != Hidden ==> EndsWith(Meta(footer, viewHref, repoHref, leafHtml), FileLink(viewHref, leafHtml) + "</div>")
  {
    var a := Attribution(viewHref, repoHref);
    assert a[0] == (AttributionOpen + viewHref)[0] == '<';
    MetaShape(footer, MetaOpen, a, FileLink(viewHref, leafHtml) + "</div>", Meta(footer, viewHref, repoHref, leafHtml));
  }

  /** The footer modes of a meta block built from an opening tag, an
      attribution that does not begin with `&`, and a closing tail. */
  lemma MetaShape(footer: Footer, open: string, attr: string, tail: string, m: string)
    requires |attr| > 0 && attr[0] != '&'
    requires m == if footer == Hidden then "" else open + (if footer != Minimal then attr else "&nbsp;") + tail
    ensures m == "" <==> footer == Hidden
    ensures footer == Minimal <==> StartsWith(m, open + "&nbsp;")
    ensures footer == Full <==> StartsWith(m, open + attr)
    ensures footer != Hidden ==> EndsWith(m, tail)
  {
    if footer != Hidden {
      var mid := if footer != Minimal then attr else "&nbsp;";
      MetaBlock(open, mid, tail);
      ConcatParts(mid, tail);
      assert "&nbsp;"[0] == '&';
    }
  }

  /** Where the text of a shown meta block begins and ends. */
  lemma MetaBlock(open: string, mid: string, tail: string)
    requires |mid| > 0
    ensures |open + mid + tail| > 0
    ensures EndsWith(open + mid + tail, tail)
    ensures forall p :: StartsWith(open + mid + tail, open + p) <==> StartsWith(mid + tail, p)
  {
    var m := open + mid + tail;
    assert m == open + (mid + tail);
    ConcatParts(open, mid + tail);
    ConcatParts(open + mid, tail);
    forall p ensures StartsWith(m, open + p) <==> StartsWith(mid + tail, p) {
      if StartsWith(m, open + p) {
        assert m[..|open| + |p|][|open|..] == p;
        assert m[..|open| + |p|][|open|..] == (mid + tail)[..|p|];
      }
      if StartsWith(mid + tail, p) {
        assert m[..|open| + |p|] == open + (mid + tail)[..|p|];
      }
    }
  }

  const MarkupHead :=
    "\n\t\t\t\t<div class=\"gistizer-gist\"><div class=\"gistizer-file\"><div class=\"gistizer-data\"><pre class=\""

  /** The HTML fragment the embed inserts: the code block, then the meta
      block. */
  function Markup(preClass: string, code: string, meta: string): (r: string)
    ensures |r| > |preClass| + |code| + |meta|
    ensures StartsWith(r, MarkupHead + preClass)
    ensures EndsWith(r, code + "</pre></div>" + meta + MarkupClose)
  {
    var h := MarkupHead + preClass;
    var t := code + "</pre></div>" + meta + MarkupClose;
    Framed(h, PreOpenEnd, t);
    h + PreOpenEnd + t
  }

  /** The rest of the `pre` start tag after its class. */
  const PreOpenEnd := "\" style=\"margin-bottom: 0;\">\n"

  /** The closing tags of the file and gist elements, and the indentation
      of the template. */
  const MarkupClose := "</div></div>\n\t\t\t\t"

  /** The code adds its own characters to the fragment and nothing else. */
  lemma MarkupCount(preClass: string, code: string, meta: string, c: char)
    ensures Count(Markup(preClass, code, meta), c) == Count(Markup(preClass, "", meta), c) + Count(code, c)
  {
    var a := MarkupHead + preClass + PreOpenEnd;
    var b := "</pre></div>" + meta + MarkupClose;
    Regroup(MarkupHead + preClass, PreOpenEnd, code, "</pre></div>", meta, MarkupClose);
    Regroup(MarkupHead + preClass, PreOpenEnd, "", "</pre></div>", meta, MarkupClose);
    assert a + "" + b == a + b;
    CountConcat(a, code, c);
    CountConcat(a + code, b, c);
    CountConcat(a, b, c);
  }

  /** The fragment regrouped around the code. */
  lemma Regroup(h: string, p: string, c: string, x: string, m: string, y: string)
    ensures h + p + (c + x + m + y) == (h + p) + c + (x + m + y)
  {
  }

  /** Escaped file content cannot open or close an element: the fragment has
      as many `<` and `>` as it would have with no content at all. */
  lemma EscapedCodeAddsNoTags(preClass: string, text: string, meta: string)
    ensures Count(Markup(preClass, EncodeHtml(text), meta), '<') == Count(Markup(preClass, "", meta), '<')
    ensures Count(Markup(preClass, EncodeHtml(text), meta), '>') == Count(Markup(preClass, "", meta), '>')
  {
    MarkupCount(preClass, EncodeHtml(text), meta, '<');
    MarkupCount(preClass, EncodeHtml(text), meta, '>');
    CountAbsent(EncodeHtml(text), '<');
    CountAbsent(EncodeHtml(text), '>');
  }

  const ScriptHead :=
    "(function () {\n\t\t\tconst write = function (markup) { document.currentScript.insertAdjacentHTML(\"afterend\", markup); };\n\t\t\t"

  const LoaderOpen := "if (!('PR' in window)) {"

  /** The block that loads the highlighter once per page and registers the
      callback it calls when loaded. */
  function Loader(prettifyJson: string): (r: string)
    ensures StartsWith(r, LoaderOpen)
    ensures EndsWith(r, prettifyJson + LoaderPost)
  {
    Framed(LoaderOpen, LoaderPre, prettifyJson + LoaderPost);
    LoaderOpen + LoaderBody(prettifyJson)
  }

  /** The loader block after its opening brace: it prepares the callback
      table, registers the callback and inserts a script element whose source
      is the loader URL. */
  function LoaderBody(prettifyJson: string): string {
    LoaderPre + (prettifyJson + LoaderPost)
  }

  const LoaderPre :=
    "\n\t\t\t    window.exports = window.exports ?? [];\n\t\t\t\twindow.exports[\"prettyPrintCallbackForGistizer\"] = function () { window.PR.prettyPrint(); };\n\t\t\t\tconst elmCurrentScript = document.currentScript;\n\t\t\t\tconst elmNewScript = document.createElement('script');\n\t\t\t\telmNewScript.src = "

  const LoaderPost :=
    ";\n\t\t\t\telmCurrentScript.parentNode.insertBefore(elmNewScript, elmCurrentScript.nextSibling);\n\t\t\t};\n\t\t\t"

  /** Writes the fragment after the script element, then highlights if the
      highlighter is already there. */
  function WriteCall(markupJson: string): (r: string)
    ensures StartsWith(r, WriteOpen + markupJson)
    ensures EndsWith(r, markupJson + WriteClose)
  {
    Framed(WriteOpen, markupJson, WriteClose);
    WriteOpen + markupJson + WriteClose
  }

  const WriteOpen := "\n\t\t\twrite("

  const WriteClose := ");\n\t\t\tif ('PR' in window) { window.PR.prettyPrint(); }\n})();"

  /** The embed script. */
  function Script(highlight: bool, prettifyJson: string, markupJson: string): (r: string)
    ensures |r| > |markupJson|
    ensures highlight ==> |r| > |prettifyJson| + |markupJson|
    ensures highlight ==> StartsWith(r, ScriptHead + Loader(prettifyJson))
    ensures EndsWith(r, markupJson + WriteClose)
  {
    var mid := if highlight then Loader(prettifyJson) else "";
    var w := WriteCall(markupJson);
    FramedSuffix(ScriptHead, mid, w, markupJson + WriteClose);
    ScriptHead + mid + w
  }

  /** The loader block follows the fixed head exactly when highlighting is
      on, and the fragment is written in both cases. */
  lemma ScriptLoader(highlight: bool, prettifyJson: string, markupJson: string)
    ensures StartsWith(Script(highlight, prettifyJson, markupJson), ScriptHead)
    ensures highlight <==> StartsWith(Script(highlight, prettifyJson, markupJson)[|ScriptHead|..], LoaderOpen)
    ensures EndsWith(Script(highlight, prettifyJson, markupJson), WriteCall(markupJson))
  {
    ScriptParts(highlight, prettifyJson, markupJson);
    ScriptLoaderIff(highlight, prettifyJson, markupJson);
  }

  /** The head and the write call frame the script. */
  lemma ScriptParts(highlight: bool, prettifyJson: string, markupJson: string)
    ensures StartsWith(Script(highlight, prettifyJson, markupJson), ScriptHead)
    ensures EndsWith(Script(highlight, prettifyJson, markupJson), WriteCall(markupJson))
  {
    var mid := if highlight then Loader(prettifyJson) else "";
    ConcatAssoc(ScriptHead, mid, WriteCall(markupJson));
    ConcatParts(ScriptHead, mid + WriteCall(markupJson));
    ConcatParts(ScriptHead + mid, WriteCall(markupJson));
  }

  lemma ScriptLoaderIff(highlight: bool, prettifyJson: string, markupJson: string)
    ensures highlight <==> StartsWith(Script(highlight, prettifyJson, markupJson)[|ScriptHead|..], LoaderOpen)
  {
    LoaderStart(prettifyJson);
    WriteCallStart(markupJson);
    var w := WriteCall(markupJson);
    var s := Script(highlight, prettifyJson, markupJson);
    if highlight {
      assert s == ScriptHead + Loader(prettifyJson) + w;
    } else {
      assert s == ScriptHead + "" + w;
    }
    OptionalBlock(ScriptHead, highlight, LoaderOpen, Loader(prettifyJson), w, s);
  }

  lemma LoaderStart(prettifyJson: string)
    ensures |LoaderOpen| > 0 && LoaderOpen[0] == 'i'
    ensures StartsWith(Loader(prettifyJson), LoaderOpen)
  {
    ConcatParts(LoaderOpen, LoaderBody(prettifyJson));
  }

  lemma WriteCallStart(markupJson: string)
    ensures |WriteCall(markupJson)| > 0 && WriteCall(markupJson)[0] == '\n'
  {
  }

  /** `head + (present ? block : "") + w`, where the block begins with
      `open` and `w` does not: after the head, `open` is there exactly when
      `present`. */
  lemma OptionalBlock(head: string, present: bool, open: string, block: string, w: string, s: string)
    requires |open| > 0 && |w| > 0 && w[0] != open[0] && StartsWith(block, open)
    requires s == head + (if present then block else "") + w
    ensures present <==> StartsWith(s[|head|..], open)
  {
    var mid := if present then block else "";
    ConcatAssoc(head, mid, w);
    ConcatParts(head, mid + w);
    if present {
      assert (block + w)[..|open|] == block[..|open|];
    } else {
      assert mid + w == w;
    }
  }

  /** The fallback script: it inserts the error text as HTML after itself. */
  function ErrorScript(messageJson: string): (r: string)
    ensures |r| > |messageJson|
    ensures StartsWith(r, ErrorHead)
    ensures EndsWith(r, messageJson + ErrorClose)
  {
    Framed(ErrorHead, messageJson, ErrorClose);
    ErrorHead + messageJson + ErrorClose
  }

  const ErrorHead := "(function() { document.currentScript.insertAdjacentHTML(\"afterend\", "

  const ErrorClose := ") })();"
}
