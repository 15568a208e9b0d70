/** Image blocking on documents as they are written: which addresses are remote,
    and what a tag with a given `src` and `alt` becomes. */
module ImageTags {
  import opened Base
  import opened Text
  import opened ImageScan
  import opened ImageRewrite
  import XmlText

  // ── remote addresses ─────────────────────────────────────────────────

  /** White space, then one of the two schemes, then anything. */
  ghost predicate Remote(url: string) {
    exists sp, rest :: Spaces(sp) && (url == sp + ("http://" + rest) || url == sp + ("https://" + rest))
  }

  lemma {:induction false} TrimStartSplits(s: string) returns (sp: string)
    ensures Spaces(sp) && s == sp + TrimStart(s)
  {
    if s != "" && IsSpace(s[0]) {
      var more := TrimStartSplits(s[1..]);
      sp := [s[0]] + more;
    } else {
      sp := "";
    }
  }

  lemma {:induction false} TrimEndKeeps(p: string, rest: string)
    requires p != "" && !IsSpace(p[|p| - 1])
    ensures p <= TrimEnd(p + rest)
    decreases |rest|
  {
    var x := p + rest;
    if rest == "" {
      assert x == p;
    } else if IsSpace(x[|x| - 1]) {
      assert x[..|x| - 1] == p + rest[..|rest| - 1];
      TrimEndKeeps(p, rest[..|rest| - 1]);
    }
  }

  lemma SchemeStaysInFront(sp: string, scheme: string, rest: string)
    requires Spaces(sp) && scheme != "" && !IsSpace(scheme[0]) && !IsSpace(scheme[|scheme| - 1])
    ensures scheme <= Trim(sp + (scheme + rest))
  {
    assert (scheme + rest)[0] == scheme[0];
    TrimStartSpaces(sp, scheme + rest);
    TrimEndKeeps(scheme, rest);
  }

  lemma TrimmedFront(url: string, scheme: string) returns (sp: string, rest: string)
    requires scheme <= Trim(url)
    ensures Spaces(sp) && url == sp + (scheme + rest)
  {
    sp := TrimStartSplits(url);
    rest := TrimStart(url)[|scheme|..];
  }

  lemma Schemes()
    ensures !IsSpace("http://"[0]) && !IsSpace("http://"[|"http://"| - 1])
    ensures !IsSpace("https://"[0]) && !IsSpace("https://"[|"https://"| - 1])
  {
  }

  /** The addresses taken for remote are exactly those. */
  lemma IsRemoteIff(url: string)
    ensures IsRemote(url) <==> Remote(url)
  {
    if IsRemote(url) {
      var http := "http://" <= Trim(url);
      var sp, rest := TrimmedFront(url, if http then "http://" else "https://");
      assert Spaces(sp) && (url == sp + ("http://" + rest) || url == sp + ("https://" + rest));
    }
    if Remote(url) {
      Schemes();
      var sp, rest :| Spaces(sp) && (url == sp + ("http://" + rest) || url == sp + ("https://" + rest));
      if url == sp + ("http://" + rest) {
        SchemeStaysInFront(sp, "http://", rest);
      } else {
        SchemeStaysInFront(sp, "https://", rest);
      }
    }
  }

  lemma WhereTextBegins(sp: string, x: string, sp': string, x': string)
    requires Spaces(sp) && Spaces(sp') && x != "" && x' != "" && !IsSpace(x[0]) && !IsSpace(x'[0])
    requires sp + x == sp' + x'
    ensures x == x'
  {
    TrimStartSpaces(sp, x);
    TrimStartSpaces(sp', x');
  }

  /** An address that starts otherwise, such as `cid:` or a relative one, is kept. */
  lemma OthersAreLocal(sp: string, x: string)
    requires Spaces(sp) && (x == "" || (!IsSpace(x[0]) && !("http://" <= x) && !("https://" <= x)))
    ensures !Remote(sp + x)
  {
    if Remote(sp + x) {
      Schemes();
      var sp', rest :| Spaces(sp') && (sp + x == sp' + ("http://" + rest) || sp + x == sp' + ("https://" + rest));
      var http := sp + x == sp' + ("http://" + rest);
      var tail := if http then "http://" + rest else "https://" + rest;
      assert !IsSpace(tail[0]) && (sp + x)[|sp'|] == tail[0];
      if x != "" {
        WhereTextBegins(sp, x, sp', tail);
      }
      assert false;
    }
  }

  // ── attributes and tags as written ───────────────────────────────────

  /** A name in any mix of cases; the long s passes for an s. */
  predicate Spells(written: string, name: string) {
    && |written| == |name|
    && forall i | 0 <= i < |name| ::
         || written[i] == name[i]
         || ('a' <= name[i] <= 'z' && written[i] as int == name[i] as int - 32)
         || (name[i] == 's' && written[i] == '\U{17F}')
  }

  /** `pre name = "value" post`, the spacing and the quotes as given. */
  datatype Attr = Attr(
    pre: string, name: string, sp1: string, sp2: string,
    q1: char, value: string, q2: char, post: string)

  function TextOf(a: Attr): string { a.pre + (a.name + Assigned(a.sp1, a.sp2, a.q1, a.value, a.q2, a.post)) }

  /** It starts a word and is the first of its name. */
  ghost predicate First(a: Attr, name: string, word: Word)
    requires |name| == 3
  {
    && Spells(a.name, name) && (a.pre == "" || !word(a.pre[|a.pre| - 1]))
    && Spaces(a.sp1) && Spaces(a.sp2) && Quote(a.q1) && Quote(a.q2) && '\'' !in a.value && '"' !in a.value
    && NoneBefore(TextOf(a), |a.pre|, name, word)
  }

  lemma AnyCaseReads(written: string, name: string, rest: string)
    requires |name| == 3 && Spells(written, name)
    ensures ValueAhead(written + rest, name) == ValueAhead(name + rest, name)
  {
    assert (written + rest)[3..] == rest && (name + rest)[3..] == rest;
    assert forall i | 0 <= i < 3 :: Letter((written + rest)[i], name[i]) && Letter((name + rest)[i], name[i]);
  }

  /** The first attribute of a name is read, in any case, quotes and spacing. */
  lemma WrittenAttrReads(a: Attr, name: string, word: Word)
    requires |name| == 3 && First(a, name, word)
    ensures AttrValue(TextOf(a), name, word, true) == Some(a.value)
  {
    var tail := Assigned(a.sp1, a.sp2, a.q1, a.value, a.q2, a.post);
    var s, rest := TextOf(a), a.name + tail;
    assert s[0..] == s && s[|a.pre|..] == rest;
    AttrSkips(s, 0, |a.pre|, name, word);
    AnyCaseReads(a.name, name, tail);
    ValueReads(name, a.sp1, a.sp2, a.q1, a.value, a.q2, a.post);
    ReadHere(rest, name, word);
  }

  lemma MissingAttrReads(attrs: string, name: string, word: Word)
    requires |name| == 3 && NoneBefore(attrs, |attrs|, name, word)
    ensures AttrValue(attrs, name, word, true) == None
  {
    assert attrs[0..] == attrs && attrs[|attrs|..] == "";
    AttrSkips(attrs, 0, |attrs|, name, word);
  }

  /** `<img`, in any case, the attributes, and `>`. */
  function ImgTag(img: string, attrs: string): string { "<" + (img + (attrs + ">")) }

  lemma ImgTagIsTag(img: string, attrs: string, word: Word)
    requires Spells(img, "img") && '>' !in attrs && !word((attrs + ">")[0])
    ensures IsTag(ImgTag(img, attrs), word) && AttrsOf(ImgTag(img, attrs)) == attrs
  {
    var t := ImgTag(img, attrs);
    assert t[1] == img[0] && t[2] == img[1] && t[3] == img[2] && t[4] == (attrs + ">")[0];
    assert "img"[0] == 'i' && "img"[1] == 'm' && "img"[2] == 'g';
    assert t == ("<" + img + attrs) + ">";
    IndexOfSkips("<" + img + attrs, ">", '>');
    assert t[4..|t| - 1] == attrs;
  }

  /** A tag starts just where these three letters end a word. */
  lemma ImgAheadIff(img: string, rest: string, word: Word)
    requires |img| == 3
    ensures ImgAhead("<" + (img + rest), word) <==> Spells(img, "img") && (rest == "" || !word(rest[0]))
  {
    var x := "<" + (img + rest);
    assert x[1] == img[0] && x[2] == img[1] && x[3] == img[2] && (rest != "" ==> x[4] == rest[0]);
    assert "img"[0] == 'i' && "img"[1] == 'm' && "img"[2] == 'g';
  }

  /** A value without quotes is not read. */
  lemma UnquotedReadsAsNone(name: string, sp1: string, sp2: string, c: char, rest: string)
    requires |name| == 3 && Spaces(sp1) && Spaces(sp2) && !Quote(c) && !IsSpace(c)
    ensures ValueAhead(name + (sp1 + (['='] + (sp2 + ([c] + rest)))), name) == None
  {
    var value := [c] + rest;
    var eq := ['='] + (sp2 + value);
    var s := name + (sp1 + eq);
    assert s[3..] == sp1 + eq;
    TrimStartSpaces(sp1, eq);
    assert eq[1..] == sp2 + value;
    TrimStartSpaces(sp2, value);
  }

  // ── captions ─────────────────────────────────────────────────────────

  const IN_ATTRIBUTE: set<char> := {'&', '"', '<'}

  lemma EscapeAttrIsCoded(s: string)
    ensures EscapeAttr(s) == XmlText.Coded(s, IN_ATTRIBUTE)
  {
    XmlText.CodedWithNone(s);
    XmlText.EscapeOneMore(s, {}, '&');
    XmlText.EscapeOneMore(s, {'&'}, '"');
    XmlText.EscapeOneMore(s, {'&', '"'}, '<');
    assert {} + {'&'} == {'&'} && {'&'} + {'"'} == {'&', '"'} && {'&', '"'} + {'<'} == IN_ATTRIBUTE;
  }

  lemma DecodeAngles(s: string)
    ensures XmlText.Replace(XmlText.Replace(XmlText.Coded(s, IN_ATTRIBUTE), "&lt;", "<"), "&gt;", ">") ==
            XmlText.Coded(s, {'&', '"'})
  {
    XmlText.EntitiesAreEntities();
    XmlText.DecodesAngles();
    assert XmlText.Entity('<') == "&lt;" && XmlText.Entity('>') == "&gt;";
    XmlText.DecodeStep(s, IN_ATTRIBUTE, '<', "&lt;", {'&', '"'});
    XmlText.DecodeStep(s, {'&', '"'}, '>', "&gt;", {'&', '"'});
  }

  lemma DecodeQuotes(s: string)
    ensures XmlText.Replace(XmlText.Coded(s, {'&', '"'}), "&quot;", "\"") == XmlText.Coded(s, {'&'})
  {
    XmlText.EntitiesAreEntities();
    XmlText.DecodesOthers();
    assert XmlText.Entity('"') == "&quot;";
    XmlText.DecodeStep(s, {'&', '"'}, '"', "&quot;", {'&'});
  }

  /** The escaped caption says what the caption says. */
  lemma CaptionDecodes(s: string)
    ensures XmlText.Unescape(EscapeAttr(s)) == s
  {
    EscapeAttrIsCoded(s);
    DecodeAngles(s);
    DecodeQuotes(s);
    XmlText.DecodeRest(s);
  }

  lemma ImageEscapes()
    ensures EscapeAttr("Image") == "Image"
  {
    EscapeAttrIsCoded("Image");
    assert forall c | c in "Image" :: c !in IN_ATTRIBUTE;
    XmlText.CodedOfPlain("Image", IN_ATTRIBUTE);
  }

  /** The caption is the trimmed `alt` text, escaped… */
  lemma CaptionIsAlt(alt: Attr, word: Word)
    requires First(alt, "alt", word)
    ensures TitleOf(TextOf(alt), word) == if Trim(alt.value) != "" then EscapeAttr(Trim(alt.value)) else "Image"
  {
    WrittenAttrReads(alt, "alt", word);
    ImageEscapes();
  }

  /** …or "Image" where there is none. */
  lemma CaptionWithoutAlt(attrs: string, word: Word)
    requires NoneBefore(attrs, |attrs|, "alt", word)
    ensures TitleOf(attrs, word) == "Image"
  {
    MissingAttrReads(attrs, "alt", word);
    ImageEscapes();
  }

  // ── a document with a tag in it ──────────────────────────────────────

  function Span(caption: string): string {
    "<span data-lyra-blocked-img=" + ("\"1\" class=\"lyra-blocked-img\" title=\"" +
    (caption + ("\" aria-label=\"" + (caption + "\">[Image]</span>"))))
  }

  lemma PlaceholderPieces()
    ensures "<" + NAME == "<span data-lyra-blocked-img=" && CLASS + TITLE == "\"1\" class=\"lyra-blocked-img\" title=\""
    ensures MIDDLE == "\" aria-label=\"" && CLOSING + ("<" + END) == "\">[Image]</span>"
  {
  }

  lemma Regroup(a: string, b: string, c: string, d: string, t: string, m: string, e: string, f: string)
    ensures a + ((b + (c + (d + (t + (m + (t + e)))))) + f) == (a + b) + ((c + d) + (t + (m + (t + (e + f)))))
  {
  }

  lemma PlaceholderIsSpan(caption: string)
    ensures Placeholder(caption) == Span(caption)
  {
    PlaceholderPieces();
    Regroup("<", NAME, CLASS, TITLE, caption, MIDDLE, CLOSING, "<" + END);
  }

  /** Every `<` is followed by something other than an i. */
  predicate NoImage(text: string) {
    forall k | 0 <= k < |text| && text[k] == '<' :: k + 1 < |text| && text[k + 1] != 'i' && text[k + 1] != 'I'
  }

  /** No image tag starts in such a text, whatever follows. */
  lemma {:induction false} NoImageIsSilent(text: string, x: string, at: At, word: Word)
    requires IsAt(at, word) && NoImage(text)
    ensures Silent(text, x, at)
  {
    if text != "" {
      assert (text + x)[0] == text[0] && (|text| > 1 ==> (text + x)[1] == text[1]);
      NoTagHere(text + x, at, word);
      assert forall k | 0 <= k < |text[1..]| :: text[1..][k] == text[k + 1];
      NoImageIsSilent(text[1..], x, at, word);
    }
  }

  lemma {:induction false} SilentFindsNone(text: string, at: At)
    requires Silent(text, "", at)
    ensures FirstImg(text, at) == None
  {
    if text != "" {
      assert text + "" == text;
      SilentFindsNone(text[1..], at);
    }
  }

  /** A document without image tags is left alone. */
  lemma TextIsKept(text: string, word: Word)
    requires NoImage(text)
    ensures BlockImages(text, word) == Rewritten(text, false)
  {
    FinderFinds(word);
    NoImageIsSilent(text, "", AtFor(word), word);
    SilentFindsNone(text, AtFor(word));
    RewriteStep(text, ImgFinder(AtFor(word)), BlockRemote(word));
  }

  lemma TagIsFirst(text: string, tag: string, rest: string, at: At, word: Word)
    requires IsAt(at, word) && Silent(text, tag + rest, at) && IsTag(tag, word)
    ensures FirstImg(text + (tag + rest), at) == Some(Hit(|text|, |text| + |tag|))
  {
    SilentSkips(text, tag + rest, at);
    TagMatches(tag, rest, at, word);
  }

  lemma TagIsFound(text: string, tag: string, rest: string, find: Finder, word: Word)
    requires find == ImgFinder(AtFor(word)) && Silent(text, tag + rest, AtFor(word)) && IsTag(tag, word)
    ensures find(text + (tag + rest)) == Some(Hit(|text|, |text| + |tag|))
  {
    FinderFinds(word);
    TagIsFirst(text, tag, rest, AtFor(word), word);
  }

  lemma RewriteAt(x: string, find: Finder, policy: Policy, text: string, tag: Tag, rest: string)
    requires x == text + (tag + rest) && find(x) == Some(Hit(|text|, |text| + |tag|))
    ensures var r := Rewrite(rest, find, policy);
            Rewrite(x, find, policy) ==
            Rewritten(text + (Replacement(tag, policy) + r.html), policy(AttrsOf(tag)).Some? || r.blocked)
  {
    RewriteStep(x, find, policy);
    assert x[..|text|] == text && x[|text|..|text| + |tag|] == tag && x[|text| + |tag|..] == rest;
  }

  lemma PolicyOnWritten(src: Attr, word: Word)
    requires First(src, "src", word)
    ensures BlockRemote(word)(TextOf(src)) == if Remote(src.value) then Some(Span(TitleOf(TextOf(src), word))) else None
  {
    WrittenAttrReads(src, "src", word);
    IsRemoteIff(src.value);
    PlaceholderIsSpan(TitleOf(TextOf(src), word));
  }

  lemma JudgedAt(text: string, tag: Tag, rest: string, word: Word, instead: Option<string>)
    requires Silent(text, tag + rest, AtFor(word)) && IsTag(tag, word) && BlockRemote(word)(AttrsOf(tag)) == instead
    ensures var r := BlockImages(rest, word);
            BlockImages(text + (tag + rest), word) ==
            Rewritten(text + ((if instead.Some? then instead.value else tag) + r.html), instead.Some? || r.blocked)
  {
    TagIsFound(text, tag, rest, ImgFinder(AtFor(word)), word);
    RewriteAt(text + (tag + rest), ImgFinder(AtFor(word)), BlockRemote(word), text, tag, rest);
  }

  /** A document up to an image tag: the tag is replaced by its caption just when its
      `src` is remote, and kept as it is otherwise; then the rest. */
  lemma WrittenImageIsJudged(text: string, img: string, src: Attr, rest: string, word: Word)
    requires Spells(img, "img") && First(src, "src", word)
    requires '>' !in TextOf(src) && !word((TextOf(src) + ">")[0])
    requires Silent(text, ImgTag(img, TextOf(src)) + rest, AtFor(word))
    ensures var attrs, r := TextOf(src), BlockImages(rest, word);
            BlockImages(text + (ImgTag(img, attrs) + rest), word) ==
            if Remote(src.value) then Rewritten(text + (Span(TitleOf(attrs, word)) + r.html), true)
            else Rewritten(text + (ImgTag(img, attrs) + r.html), r.blocked)
  {
    var attrs := TextOf(src);
    ImgTagIsTag(img, attrs, word);
    PolicyOnWritten(src, word);
    JudgedAt(text, ImgTag(img, attrs), rest, word, BlockRemote(word)(attrs));
  }

  /** A tag without a `src` is kept. */
  lemma ImageWithoutSrcIsKept(text: string, img: string, attrs: string, rest: string, word: Word)
    requires Spells(img, "img") && NoneBefore(attrs, |attrs|, "src", word)
    requires '>' !in attrs && !word((attrs + ">")[0])
    requires Silent(text, ImgTag(img, attrs) + rest, AtFor(word))
    ensures var r := BlockImages(rest, word);
            BlockImages(text + (ImgTag(img, attrs) + rest), word) ==
            Rewritten(text + (ImgTag(img, attrs) + r.html), r.blocked)
  {
    ImgTagIsTag(img, attrs, word);
    MissingAttrReads(attrs, "src", word);
    JudgedAt(text, ImgTag(img, attrs), rest, word, None);
  }
}
