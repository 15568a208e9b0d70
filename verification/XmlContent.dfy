/** The text of an element: what stripping leaves of a rendered tree, and what
    `tag_text` returns for it. */
module XmlContent {
  import opened Base
  import opened Text
  import opened XmlTags
  import opened XmlNesting
  import opened XmlShape
  import opened XmlForest
  import opened XmlText
  import opened XmlCdata

  // ── stripping a tree ─────────────────────────────────────────────────

  const SECTION: string := "![CDATA["

  /** The inside of a CDATA section, angle brackets and all. */
  predicate IsSection(inside: string) {
    && |inside| >= 10 && inside[..8] == SECTION && inside[|inside| - 2..] == "]]"
    && !Contains(inside[8..|inside| - 2], CDATA_END)
  }

  /** The inside of any other tag. */
  predicate IsMarkup(inside: string) { '>' !in inside && !(SECTION <= inside) }

  /** Trees whose every tag ends at its first `>` and every section at its `]]>`. */
  predicate Strippable(f: Forest) {
    match f
    case Nil => true
    case Chars(t, rest) => '<' !in t && Strippable(rest)
    case Mark(inside, rest) => (IsSection(inside) || IsMarkup(inside)) && Strippable(rest)
    case Elem(name, attrs, kids, rest) => IsMarkup(name + attrs) && '>' !in name && Strippable(kids) && Strippable(rest)
  }

  function MarkText(inside: string): string { if IsSection(inside) then inside[8..|inside| - 2] else "" }

  /** Text and section content in document order, without the tags. */
  function TextContent(f: Forest): string {
    match f
    case Nil => ""
    case Chars(t, rest) => t + TextContent(rest)
    case Mark(inside, rest) => MarkText(inside) + TextContent(rest)
    case Elem(_, _, kids, rest) => TextContent(kids) + TextContent(rest)
  }

  /** `strip_tags` as a value. */
  type Strip = string -> string

  ghost predicate IsStrip(strip: Strip) { forall s {:trigger StripTags(s)} :: strip(s) == StripTags(s) }

  /** A run of text up to the next `<` goes through. */
  lemma RunStrips(strip: Strip, s: string)
    requires IsStrip(strip) && s != "" && s[0] != '<'
    ensures IndexOf(s, '<').None? ==> strip(s) == s
    ensures IndexOf(s, '<').Some? ==> strip(s) == s[..IndexOf(s, '<').value] + strip(s[IndexOf(s, '<').value..])
  {
    var n := IndexOf(s, '<');
    assert strip(s) == StripTags(s);
    if n.Some? {
      assert FrontPiece(s) == Piece(s[..n.value], n.value);
      assert strip(s[n.value..]) == StripTags(s[n.value..]);
    } else {
      TextHasNothingToStrip(s);
    }
  }

  lemma StripNothing(strip: Strip)
    requires IsStrip(strip)
    ensures strip("") == ""
  {
    assert strip("") == StripTags("");
  }

  lemma CharsStrip(strip: Strip, t: string, x: string)
    requires IsStrip(strip) && '<' !in t
    ensures strip(t + x) == t + strip(x)
  {
    if t == "" {
      assert t + x == x;
    } else if x == "" {
      assert t + x == t;
      RunStrips(strip, t);
      StripNothing(strip);
    } else {
      RunBeforeText(strip, t, x);
    }
  }

  lemma RunBeforeText(strip: Strip, t: string, x: string)
    requires IsStrip(strip) && '<' !in t && t != "" && x != ""
    ensures strip(t + x) == t + strip(x)
  {
    var s, n := t + x, IndexOf(x, '<');
    assert s[0] == t[0];
    IndexOfSkips(t, x, '<');
    RunStrips(strip, s);
    if n.Some? {
      assert s[..|t| + n.value] == t + x[..n.value] && s[|t| + n.value..] == x[n.value..];
      if x[0] == '<' {
        assert x[..n.value] == "" && x[n.value..] == x;
      } else {
        RunStrips(strip, x);
      }
    } else {
      RunStrips(strip, x);
    }
  }

  lemma SectionIsOpener()
    ensures CDATA_OPEN == "<" + SECTION && |SECTION| == 8 && |CDATA_OPEN| == 9 && '>' !in CDATA_OPEN
  {
  }

  lemma NoSectionHere(inside: string, x: string)
    requires IsMarkup(inside)
    ensures !(CDATA_OPEN <= "<" + inside + ">" + x)
  {
    var s := "<" + inside + ">" + x;
    SectionIsOpener();
    if |inside| >= 8 {
      assert s[..9] == "<" + inside[..8];
      assert ("<" + inside[..8])[1..] == inside[..8] && ("<" + SECTION)[1..] == SECTION;
      assert inside[..8] != SECTION;
    } else {
      assert s[1 + |inside|] == '>';
      assert CDATA_OPEN[1 + |inside|] in CDATA_OPEN;
    }
  }

  lemma MarkupStrips(strip: Strip, inside: string, x: string)
    requires IsStrip(strip) && IsMarkup(inside)
    ensures strip("<" + inside + ">" + x) == strip(x)
  {
    var s := "<" + inside + ">" + x;
    NoSectionHere(inside, x);
    TagEnds(inside, x);
    assert s[0] == '<';
    assert FrontPiece(s) == Piece("", |inside| + 2);
    assert s[|inside| + 2..] == x;
    assert strip(s) == StripTags(s) && strip(x) == StripTags(x);
  }

  lemma SectionParts(inside: string, x: string)
    requires IsSection(inside)
    ensures "<" + inside + ">" + x == CDATA_OPEN + (inside[8..|inside| - 2] + (CDATA_END + x))
  {
    var c := inside[8..|inside| - 2];
    assert inside == SECTION + c + "]]";
    assert CDATA_OPEN == "<" + SECTION && CDATA_END == "]]" + ">";
  }

  lemma MarkStrips(strip: Strip, inside: string, x: string)
    requires IsStrip(strip) && IsSection(inside)
    ensures strip("<" + inside + ">" + x) == inside[8..|inside| - 2] + strip(x)
  {
    SectionParts(inside, x);
    CdataStrips(strip, inside[8..|inside| - 2], x);
  }

  lemma AnyMarkStrips(strip: Strip, inside: string, x: string)
    requires IsStrip(strip) && (IsSection(inside) || IsMarkup(inside))
    ensures strip("<" + inside + ">" + x) == MarkText(inside) + strip(x)
  {
    if IsSection(inside) {
      MarkStrips(strip, inside, x);
    } else {
      MarkupStrips(strip, inside, x);
      assert "" + strip(x) == strip(x);
    }
  }

  lemma CdataStrips(strip: Strip, c: string, x: string)
    requires IsStrip(strip) && !Contains(c, CDATA_END)
    ensures strip(CDATA_OPEN + (c + (CDATA_END + x))) == c + strip(x)
  {
    SectionStrips(c, x);
  }

  lemma CloserIsMarkup(name: string)
    requires '>' !in name
    ensures IsMarkup("/" + name) && CloseTag(name) == "<" + ("/" + name) + ">"
  {
    assert ("/" + name)[0] == '/' && SECTION[0] == '!';
  }

  lemma ElemStrips(strip: Strip, name: string, attrs: string, k: string, r: string, text: string)
    requires IsStrip(strip) && IsMarkup(name + attrs) && '>' !in name
    requires strip(k + (CloseTag(name) + r)) == text + strip(CloseTag(name) + r)
    ensures strip(OpenTag(name, attrs) + (k + (CloseTag(name) + r))) == text + strip(r)
  {
    MarkupStrips(strip, name + attrs, k + (CloseTag(name) + r));
    CloserIsMarkup(name);
    MarkupStrips(strip, "/" + name, r);
  }

  /** Stripping a rendered tree leaves exactly its text, sections included. */
  lemma {:induction false} TreeStrips(strip: Strip, f: Forest, x: string)
    requires IsStrip(strip) && Strippable(f)
    ensures strip(Render(f) + x) == TextContent(f) + strip(x)
    decreases f
  {
    match f {
      case Nil => assert "" + x == x;
      case Chars(t, rest) =>
        TreeStrips(strip, rest, x);
        SkipFlat(t, Render(rest), x);
        CharsStrip(strip, t, Render(rest) + x);
        SkipFlat(t, TextContent(rest), strip(x));
      case Mark(inside, rest) =>
        TreeStrips(strip, rest, x);
        SkipFlat("<" + inside + ">", Render(rest), x);
        AnyMarkStrips(strip, inside, Render(rest) + x);
        SkipFlat(MarkText(inside), TextContent(rest), strip(x));
      case Elem(name, attrs, kids, rest) =>
        var r := Render(rest) + x;
        TreeStrips(strip, kids, CloseTag(name) + r);
        TreeStrips(strip, rest, x);
        NodeFlat(OpenTag(name, attrs), Render(kids), CloseTag(name), Render(rest), x);
        ElemStrips(strip, name, attrs, Render(kids), r, TextContent(kids));
        SkipFlat(TextContent(kids), TextContent(rest), strip(x));
    }
  }

  lemma StripsToText(f: Forest)
    requires Strippable(f)
    ensures StripTags(Render(f)) == TextContent(f)
  {
    var strip: Strip := (s: string) => StripTags(s);
    TreeStrips(strip, f, "");
    StripNothing(strip);
    assert Render(f) + "" == Render(f) && TextContent(f) + "" == TextContent(f);
  }

  // ── the element a search lands on ────────────────────────────────────

  /** Local names as a value, so that proofs about trees do not unfold the text
      search behind them. */
  type Local = string -> string

  ghost predicate IsLocal(local: Local) { forall n {:trigger AfterColon(n)} :: local(n) == AfterColon(n) }

  /** The first element node with this local name. */
  function FindNode(f: Forest, local: Local, tag: string): (r: Option<Forest>)
    ensures r.Some? ==> r.value.Elem?
  {
    match f
    case Nil => None
    case Chars(_, rest) => FindNode(rest, local, tag)
    case Mark(_, rest) => FindNode(rest, local, tag)
    case Elem(name, _, kids, rest) =>
      if local(name) == tag then Some(f)
      else if FindNode(kids, local, tag).Some? then FindNode(kids, local, tag)
      else FindNode(rest, local, tag)
  }

  function WholeOf(f: Forest): string
    requires f.Elem?
  {
    Whole(f.name, f.attrs, f.kids)
  }

  /** Its rendering is the slice `element` cuts out. */
  lemma {:induction false} NodeIsFirstWhole(f: Forest, local: Local, tag: string)
    requires IsLocal(local)
    ensures FirstWhole(ShapeOf(f, tag)) ==
            match FindNode(f, local, tag) { case None => None case Some(n) => Some(WholeOf(n)) }
  {
    match f {
      case Nil =>
      case Chars(_, rest) => NodeIsFirstWhole(rest, local, tag);
      case Mark(_, rest) => NodeIsFirstWhole(rest, local, tag);
      case Elem(name, attrs, kids, rest) =>
        assert local(name) == AfterColon(name);
        NodeIsFirstWhole(kids, local, tag);
        NodeIsFirstWhole(rest, local, tag);
        ShapeKeepsText(kids, tag);
    }
  }

  lemma {:induction false} NodeIsScannable(f: Forest, local: Local, tag: string)
    requires Scannable(f, tag) && FindNode(f, local, tag).Some?
    ensures var n := FindNode(f, local, tag).value;
            NameOk(n.name) && AttrsOk(n.attrs) && Scannable(n.kids, tag) && local(n.name) == tag
  {
    match f {
      case Chars(_, rest) => NodeIsScannable(rest, local, tag);
      case Mark(_, rest) => NodeIsScannable(rest, local, tag);
      case Elem(name, _, kids, rest) =>
        if local(name) != tag {
          if FindNode(kids, local, tag).Some? {
            NodeIsScannable(kids, local, tag);
          } else {
            NodeIsScannable(rest, local, tag);
          }
        }
    }
  }

  // ── its content ──────────────────────────────────────────────────────

  /** What precedes the first closing tag of this name, in document order: its
      text and sections, whether there is such a tag, and the text behind it. */
  datatype Prefix = Prefix(text: string, closed: bool, behind: string)

  function UpTo(f: Forest, local: Local, tag: string): Prefix {
    match f
    case Nil => Prefix("", false, "")
    case Chars(t, rest) => Before(t, UpTo(rest, local, tag))
    case Mark(inside, rest) => Before(MarkText(inside), UpTo(rest, local, tag))
    case Elem(name, _, kids, rest) =>
      var k := UpTo(kids, local, tag);
      if k.closed then Prefix(k.text, true, k.behind + TextContent(rest))
      else if local(name) == tag then Prefix(k.text, true, TextContent(rest))
      else Before(k.text, UpTo(rest, local, tag))
  }

  function Before(t: string, p: Prefix): Prefix { p.(text := t + p.text) }

  /** The rendering up to that closing tag. */
  function RenderTo(f: Forest, local: Local, tag: string): string {
    match f
    case Nil => ""
    case Chars(t, rest) => t + RenderTo(rest, local, tag)
    case Mark(inside, rest) => "<" + inside + ">" + RenderTo(rest, local, tag)
    case Elem(name, attrs, kids, rest) =>
      if UpTo(kids, local, tag).closed then OpenTag(name, attrs) + RenderTo(kids, local, tag)
      else if local(name) == tag then OpenTag(name, attrs) + Render(kids)
      else OpenTag(name, attrs) + (Render(kids) + (CloseTag(name) + RenderTo(rest, local, tag)))
  }

  /** The two parts are the whole text. */
  lemma {:induction false} UpToSplitsText(f: Forest, local: Local, tag: string)
    ensures var u := UpTo(f, local, tag); TextContent(f) == u.text + u.behind && (!u.closed ==> u.behind == "")
  {
    match f {
      case Nil =>
      case Chars(t, rest) =>
        UpToSplitsText(rest, local, tag);
        SplitBehind(t, UpTo(rest, local, tag), TextContent(rest));
      case Mark(inside, rest) =>
        UpToSplitsText(rest, local, tag);
        SplitBehind(MarkText(inside), UpTo(rest, local, tag), TextContent(rest));
      case Elem(name, _, kids, rest) =>
        var k := UpTo(kids, local, tag);
        UpToSplitsText(kids, local, tag);
        UpToSplitsText(rest, local, tag);
        assert !k.closed ==> k.text + "" == k.text;
        SkipFlat(k.text, k.behind, TextContent(rest));
        SplitBehind(k.text, UpTo(rest, local, tag), TextContent(rest));
    }
  }

  lemma SplitBehind(t: string, p: Prefix, text: string)
    requires text == p.text + p.behind
    ensures t + text == Before(t, p).text + p.behind
  {
    SkipFlat(t, p.text, p.behind);
  }

  /** There is such a closing tag just when there is such an element. */
  lemma {:induction false} ClosedIffNested(f: Forest, local: Local, tag: string)
    ensures UpTo(f, local, tag).closed <==> FindNode(f, local, tag).Some?
  {
    match f {
      case Nil =>
      case Chars(_, rest) => ClosedIffNested(rest, local, tag);
      case Mark(_, rest) => ClosedIffNested(rest, local, tag);
      case Elem(_, _, kids, rest) =>
        ClosedIffNested(kids, local, tag);
        ClosedIffNested(rest, local, tag);
    }
  }

  lemma {:induction false} RenderToIsPrefix(f: Forest, local: Local, tag: string)
    ensures RenderTo(f, local, tag) <= Render(f)
    ensures !UpTo(f, local, tag).closed ==> RenderTo(f, local, tag) == Render(f)
  {
    match f {
      case Nil =>
      case Chars(t, rest) => RenderToIsPrefix(rest, local, tag);
      case Mark(_, rest) => RenderToIsPrefix(rest, local, tag);
      case Elem(name, attrs, kids, rest) =>
        RenderToIsPrefix(kids, local, tag);
        RenderToIsPrefix(rest, local, tag);
        ElemPrefix(OpenTag(name, attrs), RenderTo(kids, local, tag), Render(kids), CloseTag(name) + Render(rest));
        ElemPrefix(OpenTag(name, attrs), Render(kids), Render(kids), CloseTag(name) + Render(rest));
        RestPrefix(OpenTag(name, attrs), Render(kids), CloseTag(name), RenderTo(rest, local, tag), Render(rest));
    }
  }

  lemma ElemPrefix(o: string, p: string, k: string, r: string)
    requires p <= k
    ensures o + p <= o + (k + r)
  {
  }

  lemma RestPrefix(o: string, k: string, c: string, p: string, r: string)
    requires p <= r
    ensures o + (k + (c + p)) <= o + (k + (c + r))
  {
  }

  // ── where the close finder lands ─────────────────────────────────────

  /** Where the next closing tag starts. */
  function StartOf(r: Option<Span>): Option<nat> { if r.Some? then Some(r.value.start) else None }

  lemma StartOfShift(r: Option<Span>, n: nat)
    ensures StartOf(Shift(r, n)) == ShiftEnd(StartOf(r), n)
  {
  }

  /** The start of the next closing tag, as a value. */
  type Closer = string -> Option<nat>

  ghost predicate IsCloser(cl: Closer, sc: Scanner) {
    forall x {:trigger sc.close(x)} :: cl(x) == StartOf(sc.close(x))
  }

  lemma CloserSkips(cl: Closer, sc: Scanner, p: string, x: string)
    requires IsCloser(cl, sc) && sc.close(p + x) == Shift(sc.close(x), |p|)
    ensures cl(p + x) == ShiftEnd(cl(x), |p|)
  {
    StartOfShift(sc.close(x), |p|);
  }

  lemma CloserSkipsOpenTag(cl: Closer, sc: Scanner, tag: string, name: string, attrs: string, x: string)
    requires IsCloser(cl, sc) && Finds(sc, tag) && NameOk(name) && AttrsOk(attrs)
    ensures cl(OpenTag(name, attrs) + x) == ShiftEnd(cl(x), |OpenTag(name, attrs)|)
  {
    OpenTagSeen(sc, tag, name, attrs, x);
    CloserSkips(cl, sc, OpenTag(name, attrs), x);
  }

  lemma CloserAtCloseTag(cl: Closer, sc: Scanner, tag: string, name: string, x: string)
    requires IsCloser(cl, sc) && Finds(sc, tag) && NameOk(name)
    ensures AfterColon(name) == tag ==> cl(CloseTag(name) + x) == Some(0)
    ensures AfterColon(name) != tag ==> cl(CloseTag(name) + x) == ShiftEnd(cl(x), |CloseTag(name)|)
  {
    CloseTagSeen(sc, tag, name, x);
    assert cl(CloseTag(name) + x) == StartOf(sc.close(CloseTag(name) + x));
    if AfterColon(name) != tag {
      CloserSkips(cl, sc, CloseTag(name), x);
    }
  }

  /** Where the finder lands in a tree: at its closing tag or behind all of it. */
  function Lands(closed: bool, to: nat, all: nat, behind: Option<nat>): Option<nat> {
    if closed then Some(to) else ShiftEnd(behind, all)
  }

  lemma LandsBehind(cl: Closer, t: string, r: string, x: string, closed: bool, to: string)
    requires cl(t + (r + x)) == ShiftEnd(cl(r + x), |t|) && cl(r + x) == Lands(closed, |to|, |r|, cl(x))
    ensures cl((t + r) + x) == Lands(closed, |t + to|, |t + r|, cl(x))
  {
    SkipFlat(t, r, x);
  }

  lemma LandsInElem(cl: Closer, o: string, k: string, c: string, r: string, x: string, hit: bool,
                    kc: bool, kt: string, rc: bool, rt: string)
    requires cl(o + (k + (c + (r + x)))) == ShiftEnd(cl(k + (c + (r + x))), |o|)
    requires cl(k + (c + (r + x))) == Lands(kc, |kt|, |k|, cl(c + (r + x)))
    requires if hit then cl(c + (r + x)) == Some(0) else cl(c + (r + x)) == ShiftEnd(cl(r + x), |c|)
    requires cl(r + x) == Lands(rc, |rt|, |r|, cl(x))
    ensures cl((o + (k + (c + r))) + x) ==
            if kc then Some(|o + kt|)
            else if hit then Some(|o + k|)
            else Lands(rc, |o + (k + (c + rt))|, |o + (k + (c + r))|, cl(x))
  {
    NodeFlat(o, k, c, r, x);
  }

  lemma CloserSkipsChars(cl: Closer, sc: Scanner, tag: string, t: string, x: string)
    requires IsCloser(cl, sc) && Finds(sc, tag) && '<' !in t
    ensures cl(t + x) == ShiftEnd(cl(x), |t|)
  {
    CharsSkip(sc, tag, t, x);
    CloserSkips(cl, sc, t, x);
  }

  lemma CloserSkipsMark(cl: Closer, sc: Scanner, tag: string, inside: string, x: string)
    requires IsCloser(cl, sc) && Finds(sc, tag) && NoAngles(inside) && (inside == "" || inside[0] != '/')
    requires OpenLocal(inside) != tag
    ensures cl("<" + inside + ">" + x) == ShiftEnd(cl(x), |inside| + 2)
  {
    MarkSkips(sc, tag, inside, x);
    CloserSkips(cl, sc, "<" + inside + ">", x);
  }

  /** What the finder does at the two tags of an element. */
  lemma CloserAtTags(cl: Closer, sc: Scanner, tag: string, local: Local, name: string, attrs: string, k: string,
                     y: string)
    requires IsCloser(cl, sc) && Finds(sc, tag) && IsLocal(local) && NameOk(name) && AttrsOk(attrs)
    ensures var o, c := OpenTag(name, attrs), CloseTag(name);
            && cl(o + (k + (c + y))) == ShiftEnd(cl(k + (c + y)), |o|)
            && (if local(name) == tag then cl(c + y) == Some(0) else cl(c + y) == ShiftEnd(cl(y), |c|))
  {
    assert local(name) == AfterColon(name);
    CloserSkipsOpenTag(cl, sc, tag, name, attrs, k + (CloseTag(name) + y));
    CloserAtCloseTag(cl, sc, tag, name, y);
  }

  /** The finder's place in a tree, as `UpTo` and `RenderTo` say. */
  ghost predicate LandsRight(cl: Closer, f: Forest, local: Local, tag: string, x: string) {
    cl(Render(f) + x) == Lands(UpTo(f, local, tag).closed, |RenderTo(f, local, tag)|, |Render(f)|, cl(x))
  }

  lemma LandsInChars(cl: Closer, sc: Scanner, f: Forest, local: Local, tag: string, x: string)
    requires IsCloser(cl, sc) && Finds(sc, tag) && f.Chars? && '<' !in f.t && LandsRight(cl, f.rest, local, tag, x)
    ensures LandsRight(cl, f, local, tag, x)
  {
    var r, to := Render(f.rest), RenderTo(f.rest, local, tag);
    CloserSkipsChars(cl, sc, tag, f.t, r + x);
    LandsBehind(cl, f.t, r, x, UpTo(f.rest, local, tag).closed, to);
  }

  lemma LandsInMark(cl: Closer, sc: Scanner, f: Forest, local: Local, tag: string, x: string)
    requires IsCloser(cl, sc) && Finds(sc, tag) && f.Mark? && LandsRight(cl, f.rest, local, tag, x)
    requires NoAngles(f.inside) && (f.inside == "" || f.inside[0] != '/') && OpenLocal(f.inside) != tag
    ensures LandsRight(cl, f, local, tag, x)
  {
    var r, to := Render(f.rest), RenderTo(f.rest, local, tag);
    CloserSkipsMark(cl, sc, tag, f.inside, r + x);
    LandsBehind(cl, "<" + f.inside + ">", r, x, UpTo(f.rest, local, tag).closed, to);
  }

  lemma LandsInNode(cl: Closer, sc: Scanner, f: Forest, local: Local, tag: string, x: string)
    requires IsCloser(cl, sc) && Finds(sc, tag) && IsLocal(local) && f.Elem? && NameOk(f.name) && AttrsOk(f.attrs)
    requires LandsRight(cl, f.kids, local, tag, CloseTag(f.name) + (Render(f.rest) + x))
    requires LandsRight(cl, f.rest, local, tag, x)
    ensures LandsRight(cl, f, local, tag, x)
  {
    var o, k, c, r := OpenTag(f.name, f.attrs), Render(f.kids), CloseTag(f.name), Render(f.rest);
    CloserAtTags(cl, sc, tag, local, f.name, f.attrs, k, r + x);
    LandsInElem(cl, o, k, c, r, x, local(f.name) == tag, UpTo(f.kids, local, tag).closed, RenderTo(f.kids, local, tag),
                UpTo(f.rest, local, tag).closed, RenderTo(f.rest, local, tag));
  }

  /** The close finder stops where `RenderTo` does, or goes on behind the tree. */
  lemma {:induction false} CloserLands(cl: Closer, sc: Scanner, f: Forest, local: Local, tag: string, x: string)
    requires IsCloser(cl, sc) && Finds(sc, tag) && IsLocal(local) && Scannable(f, tag)
    ensures LandsRight(cl, f, local, tag, x)
    decreases f
  {
    match f {
      case Nil => assert "" + x == x;
      case Chars(_, rest) =>
        CloserLands(cl, sc, rest, local, tag, x);
        LandsInChars(cl, sc, f, local, tag, x);
      case Mark(_, rest) =>
        CloserLands(cl, sc, rest, local, tag, x);
        LandsInMark(cl, sc, f, local, tag, x);
      case Elem(name, _, kids, rest) =>
        CloserLands(cl, sc, kids, local, tag, CloseTag(name) + (Render(rest) + x));
        CloserLands(cl, sc, rest, local, tag, x);
        LandsInNode(cl, sc, f, local, tag, x);
    }
  }

  // ── stripping up to there ────────────────────────────────────────────

  lemma ElemStripsTo(strip: Strip, name: string, attrs: string, kids: Forest, rest: string)
    requires IsStrip(strip) && IsMarkup(name + attrs) && '>' !in name && Strippable(kids)
    ensures strip(OpenTag(name, attrs) + rest) == strip(rest)
    ensures strip(OpenTag(name, attrs) + Render(kids)) == TextContent(kids)
    ensures strip(OpenTag(name, attrs) + (Render(kids) + (CloseTag(name) + rest))) == TextContent(kids) + strip(rest)
  {
    MarkupStrips(strip, name + attrs, rest);
    MarkupStrips(strip, name + attrs, Render(kids));
    TreeStrips(strip, kids, "");
    StripNothing(strip);
    assert Render(kids) + "" == Render(kids) && TextContent(kids) + "" == TextContent(kids);
    TreeStrips(strip, kids, CloseTag(name) + rest);
    ElemStrips(strip, name, attrs, Render(kids), rest, TextContent(kids));
  }

  lemma {:induction false} StripsUpTo(strip: Strip, f: Forest, local: Local, tag: string)
    requires IsStrip(strip) && Strippable(f)
    ensures strip(RenderTo(f, local, tag)) == UpTo(f, local, tag).text
    decreases f
  {
    match f {
      case Nil => StripNothing(strip);
      case Chars(t, rest) =>
        StripsUpTo(strip, rest, local, tag);
        CharsStrip(strip, t, RenderTo(rest, local, tag));
      case Mark(inside, rest) =>
        StripsUpTo(strip, rest, local, tag);
        AnyMarkStrips(strip, inside, RenderTo(rest, local, tag));
      case Elem(name, attrs, kids, rest) =>
        StripsUpTo(strip, kids, local, tag);
        StripsUpTo(strip, rest, local, tag);
        UpToSplitsText(kids, local, tag);
        var k := UpTo(kids, local, tag);
        assert !k.closed ==> k.text + "" == k.text;
        ElemStripsTo(strip, name, attrs, kids,
                     if k.closed then RenderTo(kids, local, tag) else RenderTo(rest, local, tag));
    }
  }

  // ── what `tag_text` returns ──────────────────────────────────────────

  lemma ContentUpTo(sc: Scanner, cl: Closer, o: string, t: string, c: string, to: string)
    requires IsCloser(cl, sc) && sc.open(o + (t + c)) == Some(Span(0, |o|)) && to <= t
    requires cl(o + (t + c)) == Some(|o| + |to|)
    ensures Content(o + (t + c), sc) == Found(to)
  {
    assert cl(o + (t + c)) == StartOf(sc.close(o + (t + c)));
    assert (o + (t + c))[|o|..|o| + |to|] == to;
  }

  lemma OwnOpener(sc: Scanner, tag: string, name: string, attrs: string, x: string)
    requires Finds(sc, tag) && NameOk(name) && AttrsOk(attrs) && AfterColon(name) == tag
    ensures sc.open(OpenTag(name, attrs) + x) == Some(Span(0, |OpenTag(name, attrs)|))
  {
    OpenTagSeen(sc, tag, name, attrs, x);
  }

  lemma OwnCloser(cl: Closer, sc: Scanner, tag: string, name: string)
    requires IsCloser(cl, sc) && Finds(sc, tag) && NameOk(name) && AfterColon(name) == tag
    ensures cl(CloseTag(name)) == Some(0)
  {
    CloserAtCloseTag(cl, sc, tag, name, "");
    assert CloseTag(name) + "" == CloseTag(name);
  }

  lemma LandsInside(cl: Closer, o: string, t: string, c: string, closed: bool, to: nat)
    requires cl(c) == Some(0) && cl(t + c) == Lands(closed, to, |t|, cl(c)) && (!closed ==> to == |t|)
    requires cl(o + (t + c)) == ShiftEnd(cl(t + c), |o|)
    ensures cl(o + (t + c)) == Some(|o| + to)
  {
  }

  /** An element whose inside `t` the finder leaves at `to`. */
  lemma ContentOfTags(sc: Scanner, cl: Closer, tag: string, name: string, attrs: string, t: string,
                      closed: bool, to: string)
    requires IsCloser(cl, sc) && Finds(sc, tag) && NameOk(name) && AttrsOk(attrs) && AfterColon(name) == tag
    requires cl(t + CloseTag(name)) == Lands(closed, |to|, |t|, cl(CloseTag(name))) && to <= t && (!closed ==> to == t)
    ensures Content(OpenTag(name, attrs) + (t + CloseTag(name)), sc) == Found(to)
  {
    var o, c := OpenTag(name, attrs), CloseTag(name);
    OwnCloser(cl, sc, tag, name);
    CloserSkipsOpenTag(cl, sc, tag, name, attrs, t + c);
    LandsInside(cl, o, t, c, closed, |to|);
    OwnOpener(sc, tag, name, attrs, t + c);
    ContentUpTo(sc, cl, o, t, c, to);
  }

  /** The content of an element goes up to the first closing tag of its name. */
  lemma ContentOfElement(sc: Scanner, cl: Closer, n: Forest, local: Local, tag: string)
    requires IsCloser(cl, sc) && Finds(sc, tag) && IsLocal(local) && n.Elem? && NameOk(n.name) && AttrsOk(n.attrs)
    requires AfterColon(n.name) == tag && Scannable(n.kids, tag)
    ensures Content(WholeOf(n), sc) == Found(RenderTo(n.kids, local, tag))
  {
    CloserLands(cl, sc, n.kids, local, tag, CloseTag(n.name));
    RenderToIsPrefix(n.kids, local, tag);
    ContentOfTags(sc, cl, tag, n.name, n.attrs, Render(n.kids), UpTo(n.kids, local, tag).closed,
                  RenderTo(n.kids, local, tag));
  }

  function CloserFor(sc: Scanner): Closer { (x: string) => StartOf(sc.close(x)) }

  lemma TextUpTo(f: Forest, local: Local, tag: string)
    requires Strippable(f)
    ensures TextOf(RenderTo(f, local, tag)) == Kept(Unescape(UpTo(f, local, tag).text))
  {
    StripsUpTo((s: string) => StripTags(s), f, local, tag);
  }

  lemma TagTextAt(x: string, tag: string, w: string)
    ensures Slices(x, Element(x, ScannerFor(tag)), Some(w)) ==>
            TagText(x, tag) == ReadContent(Content(w, ScannerFor(tag)))
    ensures Slices(x, Element(x, ScannerFor(tag)), None) ==> TagText(x, tag) == Absent
  {
  }

  lemma ReadsText(content: Scan, f: Forest, local: Local, tag: string)
    requires content == Found(RenderTo(f, local, tag)) && Strippable(f)
    ensures ReadContent(content) == Kept(Unescape(UpTo(f, local, tag).text))
  {
    TextUpTo(f, local, tag);
  }

  /** `tag_text` of any tree: the unescaped, trimmed text of the first element of
      that name, up to the first closing tag of that name. */
  lemma NestedText(f: Forest, local: Local, tag: string)
    requires IsLocal(local) && Scannable(f, tag)
    requires FindNode(f, local, tag).Some? && Strippable(FindNode(f, local, tag).value.kids)
    ensures TagText(Render(f), tag) == Kept(Unescape(UpTo(FindNode(f, local, tag).value.kids, local, tag).text))
  {
    var n := FindNode(f, local, tag).value;
    ElementCutsFirst(f, tag);
    NodeIsFirstWhole(f, local, tag);
    NodeIsScannable(f, local, tag);
    TagTextAt(Render(f), tag, WholeOf(n));
    ReaderForReads(tag);
    assert local(n.name) == AfterColon(n.name);
    ContentOfElement(ScannerFor(tag), CloserFor(ScannerFor(tag)), n, local, tag);
    ReadsText(Content(WholeOf(n), ScannerFor(tag)), n.kids, local, tag);
  }

  /** What is read is the element's whole text just when no text follows a closing
      tag nested in it; without a nested element none can. */
  lemma WholeTextIff(f: Forest, local: Local, tag: string)
    ensures var u := UpTo(f, local, tag);
            && (u.text == TextContent(f) <==> u.behind == "")
            && (FindNode(f, local, tag).None? ==> u.behind == "")
  {
    UpToSplitsText(f, local, tag);
    ClosedIffNested(f, local, tag);
  }

  /** The whole text, as long as no element of that name is nested. */
  lemma TreeText(f: Forest, local: Local, tag: string)
    requires IsLocal(local) && Scannable(f, tag) && FindNode(f, local, tag).Some?
    requires var n := FindNode(f, local, tag).value; Strippable(n.kids) && FindNode(n.kids, local, tag).None?
    ensures TagText(Render(f), tag) == Kept(Unescape(TextContent(FindNode(f, local, tag).value.kids)))
  {
    NestedText(f, local, tag);
    WholeTextIff(FindNode(f, local, tag).value.kids, local, tag);
  }

  lemma NoText(f: Forest, local: Local, tag: string)
    requires IsLocal(local) && Scannable(f, tag) && FindNode(f, local, tag).None?
    ensures TagText(Render(f), tag) == Absent
  {
    ElementCutsFirst(f, tag);
    NodeIsFirstWhole(f, local, tag);
    TagTextAt(Render(f), tag, "");
  }

  // ── an element that loses text ───────────────────────────────────────

  /** `<a>x<a>y</a>z</a>`. */
  function Nested(): Forest {
    Elem("a", "", Chars("x", Elem("a", "", Chars("y", Nil), Chars("z", Nil))), Nil)
  }

  lemma NoEntityWithoutAmpersand(s: string)
    requires '&' !in s
    ensures !HoldsEntity(s)
  {
    assert "&lt;"[0] == '&' && "&gt;"[0] == '&' && "&quot;"[0] == '&';
    assert "&#39;"[0] == '&' && "&apos;"[0] == '&' && "&amp;"[0] == '&';
    LacksCharLacksPattern(s, "&lt;", '&');
    LacksCharLacksPattern(s, "&gt;", '&');
    LacksCharLacksPattern(s, "&quot;", '&');
    LacksCharLacksPattern(s, "&#39;", '&');
    LacksCharLacksPattern(s, "&apos;", '&');
    LacksCharLacksPattern(s, "&amp;", '&');
  }

  lemma PlainIsKept(s: string)
    requires s != "" && Trimmed(s) && '&' !in s
    ensures Kept(Unescape(s)) == Found(s)
  {
    NoEntityWithoutAmpersand(s);
    UnescapeFixesIff(s);
    TrimmedIsFixed(s);
  }

  lemma NestedPieces(local: Local)
    requires local("a") == "a"
    ensures FindNode(Nested(), local, "a") == Some(Nested()) && UpTo(Nested().kids, local, "a").text == "xy"
    ensures TextContent(Nested()) == "xyz"
  {
    var inner := Elem("a", "", Chars("y", Nil), Chars("z", Nil));
    assert UpTo(Chars("y", Nil), local, "a") == Before("y", UpTo(Nil, local, "a"));
    assert UpTo(inner, local, "a").text == "y";
    assert TextContent(Chars("y", Nil)) == "y" && TextContent(Chars("z", Nil)) == "z";
    assert TextContent(inner) == "yz";
  }

  lemma NestedIsFine()
    ensures Scannable(Nested(), "a") && Strippable(Nested()) && AfterColon("a") == "a"
  {
    var inner := Elem("a", "", Chars("y", Nil), Chars("z", Nil));
    assert IsMarkup("a" + "") by { assert "a" + "" == "a" && SECTION[0] == '!' && "a"[0] == 'a'; }
    assert Scannable(Chars("y", Nil), "a") && Scannable(Chars("z", Nil), "a") && Scannable(inner, "a");
    assert Strippable(Chars("y", Nil)) && Strippable(Chars("z", Nil)) && Strippable(inner);
    assert IndexOf("a", ':') == None;
  }

  lemma ReadsPlain(f: Forest, local: Local, tag: string, t: string)
    requires IsLocal(local) && Scannable(f, tag) && FindNode(f, local, tag) == Some(f) && Strippable(f.kids)
    requires UpTo(f.kids, local, tag).text == t && t != "" && Trimmed(t) && '&' !in t
    ensures TagText(Render(f), tag) == Found(t)
  {
    NestedText(f, local, tag);
    PlainIsKept(t);
  }

  /** The text behind the inner element is lost: `xy` is read of `xyz`. */
  lemma NestedLosesText()
    ensures TagText(Render(Nested()), "a") == Found("xy") && TextContent(Nested()) == "xyz"
  {
    var local: Local := n => AfterColon(n);
    NestedIsFine();
    NestedPieces(local);
    ReadsPlain(Nested(), local, "a", "xy");
  }
}
