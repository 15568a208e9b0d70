/** XML trees, their rendering, and the proof that the scanner inverts it. */
module XmlForest {
  import opened Base
  import opened XmlTags
  import opened XmlNesting
  import opened XmlShape

  /** A run of sibling nodes. `Mark` is any other markup `<…>`: a self-closing
      element, a declaration, a comment or CDATA section without angle brackets. */
  datatype Forest =
    | Nil
    | Chars(t: string, rest: Forest)
    | Mark(inside: string, rest: Forest)
    | Elem(name: string, attrs: string, kids: Forest, rest: Forest)

  function Render(f: Forest): string {
    match f
    case Nil => ""
    case Chars(t, rest) => t + Render(rest)
    case Mark(inside, rest) => "<" + inside + ">" + Render(rest)
    case Elem(name, attrs, kids, rest) => OpenTag(name, attrs) + (Render(kids) + (CloseTag(name) + Render(rest)))
  }

  /** What the scanner handles: no angle bracket in attributes, and no
      self-closing element of the searched name. */
  predicate Scannable(f: Forest, tag: string) {
    match f
    case Nil => true
    case Chars(t, rest) => '<' !in t && Scannable(rest, tag)
    case Mark(inside, rest) =>
      NoAngles(inside) && (inside == "" || inside[0] != '/') && OpenLocal(inside) != tag && Scannable(rest, tag)
    case Elem(name, attrs, kids, rest) => NameOk(name) && AttrsOk(attrs) && Scannable(kids, tag) && Scannable(rest, tag)
  }

  function ReaderFor(tag: string): Reader {
    var sc := ScannerFor(tag);
    Reader((x: string, d: nat) => if d == 0 then None else Closing(x, sc, d),
           (x: string) => Element(x, sc), (x: string) => Blocks(x, sc))
  }

  function ShapeOf(f: Forest, tag: string): Shape {
    match f
    case Nil => Empty
    case Chars(t, rest) => Skip(t, ShapeOf(rest, tag))
    case Mark(inside, rest) => Skip("<" + inside + ">", ShapeOf(rest, tag))
    case Elem(name, attrs, kids, rest) =>
      Node(OpenTag(name, attrs), CloseTag(name), AfterColon(name) == tag, ShapeOf(kids, tag), ShapeOf(rest, tag))
  }

  lemma {:induction false} ShapeKeepsText(f: Forest, tag: string)
    ensures Flat(ShapeOf(f, tag)) == Render(f)
  {
    match f {
      case Nil =>
      case Chars(_, rest) => ShapeKeepsText(rest, tag);
      case Mark(_, rest) => ShapeKeepsText(rest, tag);
      case Elem(_, _, kids, rest) => ShapeKeepsText(kids, tag); ShapeKeepsText(rest, tag);
    }
  }

  /** `rd` returns what the nesting search over `sc` returns. */
  ghost predicate Searches(rd: Reader, sc: Scanner) {
    IsClosing(rd.closing, sc) && IsElement(rd.element, sc) && IsBlocks(rd.blocks, sc)
  }

  /** The finders of `sc` are the tag finders for `tag`. */
  ghost predicate Finds(sc: Scanner, tag: string) {
    && (forall x {:trigger FindOpen(x, tag)} :: sc.open(x) == FindOpen(x, tag))
    && (forall x {:trigger FindClose(x, tag)} :: sc.close(x) == FindClose(x, tag))
  }

  lemma SkipsPasses(rd: Reader, sc: Scanner, p: string, x: string)
    requires Searches(rd, sc) && Skips(sc, p, x)
    ensures Passes(rd, p, x)
  {
    forall d: nat | 1 <= d
      ensures rd.closing(p + x, d) == ShiftEnd(rd.closing(x, d), |p|)
    {
      ClosingSkips(rd.closing, p, x, sc, d);
    }
    ElementSkips(rd.element, rd.closing, p, x, sc);
    BlocksShift(rd.blocks, rd.element, p, x, sc);
  }

  lemma FrontOpens(rd: Reader, sc: Scanner, o: string, x: string)
    requires Searches(rd, sc) && o != "" && sc.open(o + x) == Some(Span(0, |o|)) && Skips(sc, o[1..], x)
    requires sc.close(o + x) == Shift(sc.close(x), |o|)
    ensures Opens(rd, o, x)
  {
    forall d: nat | 1 <= d
      ensures rd.closing(o + x, d) == ShiftEnd(rd.closing(x, d + 1), |o|)
    {
      ClosingAtOpen(rd.closing, o, x, sc, d);
    }
    ElementAtOpen(rd.element, rd.closing, o, x, sc);
  }

  lemma FrontCloses(rd: Reader, sc: Scanner, c: string, x: string)
    requires Searches(rd, sc) && sc.close(c + x) == Some(Span(0, |c|))
    requires sc.open(c + x).Some? ==> sc.open(c + x).value.start > 0
    ensures Closes(rd, c, x)
  {
    forall d: nat | 1 <= d
      ensures rd.closing(c + x, d) == if d == 1 then Some(|c|) else ShiftEnd(rd.closing(x, d - 1), |c|)
    {
      ClosingAtClose(rd.closing, c, x, sc, d);
    }
  }

  lemma FrontCuts(rd: Reader, sc: Scanner, b: string, x: string)
    requires Searches(rd, sc) && b != ""
    ensures Cuts(rd, b, x)
  {
    BlocksAtElement(rd.blocks, rd.element, b, x, sc);
  }

  lemma QuietSkips(sc: Scanner, tag: string, p: string, x: string)
    requires Finds(sc, tag) && Quiet(p, x, tag)
    ensures Skips(sc, p, x)
  {
    QuietShiftsOpen(p, x, tag);
    QuietShiftsClose(p, x, tag);
  }

  lemma CharsSkip(sc: Scanner, tag: string, t: string, x: string)
    requires Finds(sc, tag) && '<' !in t
    ensures Skips(sc, t, x)
  {
    CharsAreQuiet(t, x, tag);
    QuietSkips(sc, tag, t, x);
  }

  lemma MarkSkips(sc: Scanner, tag: string, inside: string, x: string)
    requires Finds(sc, tag) && NoAngles(inside) && (inside == "" || inside[0] != '/') && OpenLocal(inside) != tag
    ensures Skips(sc, "<" + inside + ">", x)
  {
    OpenTagScanned(inside, x, tag);
    QuietSkips(sc, tag, "<" + inside + ">", x);
  }

  /** The finders stop at a matching tag and otherwise go on one character later. */
  lemma FinderStep(sc: Scanner, tag: string, y: string)
    requires Finds(sc, tag) && y != ""
    ensures OpenAt(y, tag).Some? ==> sc.open(y) == Some(Span(0, OpenAt(y, tag).value))
    ensures CloseAt(y, tag).None? ==> sc.close(y) == Shift(sc.close(y[1..]), 1)
  {
    assert sc.open(y) == FindOpen(y, tag) && sc.close(y) == FindClose(y, tag);
    assert sc.close(y[1..]) == FindClose(y[1..], tag);
  }

  lemma OpenTagFound(sc: Scanner, tag: string, inside: string, x: string)
    requires var y := "<" + inside + ">" + x;
             Finds(sc, tag) && OpenAt(y, tag) == Some(|inside| + 2) && CloseAt(y, tag).None?
    ensures var o := "<" + inside + ">";
            && sc.open(o + x) == Some(Span(0, |o|))
            && sc.close(o + x) == Shift(sc.close((inside + ">") + x), 1)
  {
    var y := "<" + inside + ">" + x;
    FinderStep(sc, tag, y);
    TailOfTag(inside, x);
  }

  lemma TailOfTag(inside: string, x: string)
    ensures ("<" + inside + ">" + x)[1..] == (inside + ">") + x && ("<" + inside + ">")[1..] == inside + ">"
  {
  }

  lemma OwnTagSeen(sc: Scanner, tag: string, inside: string, x: string)
    requires Finds(sc, tag) && NoAngles(inside) && inside != "" && inside[0] != '/' && OpenLocal(inside) == tag
    ensures var o := "<" + inside + ">";
            && sc.open(o + x) == Some(Span(0, |o|)) && Skips(sc, o[1..], x)
            && sc.close(o + x) == Shift(sc.close(x), |o|)
  {
    OpenTagScanned(inside, x, tag);
    OpenTagFound(sc, tag, inside, x);
    CharsSkip(sc, tag, inside + ">", x);
    TailOfTag(inside, x);
    CloseBehindTag(sc, "<" + inside + ">", inside + ">", x);
  }

  lemma CloseBehindTag(sc: Scanner, o: string, tail: string, x: string)
    requires sc.close(o + x) == Shift(sc.close(tail + x), 1) && Skips(sc, tail, x) && |o| == |tail| + 1
    ensures sc.close(o + x) == Shift(sc.close(x), |o|)
  {
  }

  /** What both finders see at the two tags of an element. */
  lemma OpenTagSeen(sc: Scanner, tag: string, name: string, attrs: string, x: string)
    requires Finds(sc, tag) && NameOk(name) && AttrsOk(attrs)
    ensures var o := OpenTag(name, attrs);
            if AfterColon(name) == tag then
              && sc.open(o + x) == Some(Span(0, |o|)) && Skips(sc, o[1..], x)
              && sc.close(o + x) == Shift(sc.close(x), |o|)
            else Skips(sc, o, x)
  {
    var inside := name + attrs;
    OpenLocalOfTag(name, attrs);
    if AfterColon(name) == tag {
      OwnTagSeen(sc, tag, inside, x);
    } else {
      MarkSkips(sc, tag, inside, x);
    }
  }

  lemma CloseTagSeen(sc: Scanner, tag: string, name: string, x: string)
    requires Finds(sc, tag) && NameOk(name)
    ensures var c := CloseTag(name);
            if AfterColon(name) == tag then
              && sc.close(c + x) == Some(Span(0, |c|))
              && (sc.open(c + x).Some? ==> sc.open(c + x).value.start > 0)
            else Skips(sc, c, x)
  {
    var c := CloseTag(name);
    CloseTagScanned(name, x, tag);
    if AfterColon(name) == tag {
      assert FindClose(c + x, tag) == Some(Span(0, |c|));
      assert FindOpen(c + x, tag) == Shift(FindOpen((c + x)[1..], tag), 1);
    } else {
      QuietSkips(sc, tag, c, x);
    }
  }

  lemma {:induction false} ForestBehaves(rd: Reader, sc: Scanner, f: Forest, tag: string)
    requires Searches(rd, sc) && Finds(sc, tag) && Scannable(f, tag)
    ensures Behaves(rd, ShapeOf(f, tag))
    decreases f
  {
    match f {
      case Nil =>
      case Chars(t, rest) =>
        forall x
          ensures Passes(rd, t, x)
        {
          CharsSkip(sc, tag, t, x);
          SkipsPasses(rd, sc, t, x);
        }
        ForestBehaves(rd, sc, rest, tag);
      case Mark(inside, rest) =>
        var p := "<" + inside + ">";
        forall x
          ensures Passes(rd, p, x)
        {
          MarkSkips(sc, tag, inside, x);
          SkipsPasses(rd, sc, p, x);
        }
        ForestBehaves(rd, sc, rest, tag);
      case Elem(name, attrs, kids, rest) =>
        ForestBehaves(rd, sc, kids, tag);
        ForestBehaves(rd, sc, rest, tag);
        ElemBehaves(rd, sc, name, attrs, Flat(ShapeOf(kids, tag)), tag);
    }
  }

  lemma ElemBehaves(rd: Reader, sc: Scanner, name: string, attrs: string, inner: string, tag: string)
    requires Searches(rd, sc) && Finds(sc, tag) && NameOk(name) && AttrsOk(attrs)
    ensures var o, c := OpenTag(name, attrs), CloseTag(name);
            if AfterColon(name) == tag then
              && (forall x {:trigger Opens(rd, o, x)} :: Opens(rd, o, x))
              && (forall x {:trigger Closes(rd, c, x)} :: Closes(rd, c, x))
              && (forall x {:trigger Cuts(rd, o + (inner + c), x)} :: Cuts(rd, o + (inner + c), x))
            else
              && (forall x {:trigger Passes(rd, o, x)} :: Passes(rd, o, x))
              && (forall x {:trigger Passes(rd, c, x)} :: Passes(rd, c, x))
  {
    var o, c, hit := OpenTag(name, attrs), CloseTag(name), AfterColon(name) == tag;
    forall x
      ensures if hit then Opens(rd, o, x) else Passes(rd, o, x)
    {
      OpenTagSeen(sc, tag, name, attrs, x);
      if hit { FrontOpens(rd, sc, o, x); } else { SkipsPasses(rd, sc, o, x); }
    }
    forall x
      ensures if hit then Closes(rd, c, x) else Passes(rd, c, x)
    {
      CloseTagSeen(sc, tag, name, x);
      if hit { FrontCloses(rd, sc, c, x); } else { SkipsPasses(rd, sc, c, x); }
    }
    forall x
      ensures Cuts(rd, o + (inner + c), x)
    {
      FrontCuts(rd, sc, o + (inner + c), x);
    }
  }

  /** The span found is the slice of the element found. */
  lemma ElementCutsFirst(f: Forest, tag: string)
    requires Scannable(f, tag)
    ensures Slices(Render(f), Element(Render(f), ScannerFor(tag)), FirstWhole(ShapeOf(f, tag)))
  {
    ScannerInvertsRendering(f, tag);
    FirstWholeIsSlice(ShapeOf(f, tag));
    ShapeKeepsText(f, tag);
    ShapeKeepsHits(f, tag);
  }

  lemma ReaderForReads(tag: string)
    ensures Searches(ReaderFor(tag), ScannerFor(tag)) && Finds(ScannerFor(tag), tag)
  {
  }

  /** First element with this local name in document order. */
  function FirstElem(f: Forest, tag: string): Option<Span> {
    match f
    case Nil => None
    case Chars(t, rest) => Shift(FirstElem(rest, tag), |t|)
    case Mark(inside, rest) => Shift(FirstElem(rest, tag), |inside| + 2)
    case Elem(name, attrs, kids, rest) =>
      var o, c := |OpenTag(name, attrs)|, |CloseTag(name)|;
      if AfterColon(name) == tag then Some(Span(0, o + |Render(kids)| + c))
      else if FirstElem(kids, tag).Some? then Shift(FirstElem(kids, tag), o)
      else Shift(FirstElem(rest, tag), o + |Render(kids)| + c)
  }

  function Whole(name: string, attrs: string, kids: Forest): string {
    OpenTag(name, attrs) + (Render(kids) + CloseTag(name))
  }

  /** The outermost elements with this local name, in order, as rendered. */
  function Outermost(f: Forest, tag: string): seq<string> {
    match f
    case Nil => []
    case Chars(_, rest) => Outermost(rest, tag)
    case Mark(_, rest) => Outermost(rest, tag)
    case Elem(name, attrs, kids, rest) =>
      if AfterColon(name) == tag then [Whole(name, attrs, kids)] + Outermost(rest, tag)
      else Outermost(kids, tag) + Outermost(rest, tag)
  }

  lemma {:induction false} ShapeKeepsHits(f: Forest, tag: string)
    ensures FirstHit(ShapeOf(f, tag)) == FirstElem(f, tag) && Hits(ShapeOf(f, tag)) == Outermost(f, tag)
  {
    match f {
      case Nil =>
      case Chars(_, rest) => ShapeKeepsHits(rest, tag);
      case Mark(_, rest) => ShapeKeepsHits(rest, tag);
      case Elem(_, _, kids, rest) =>
        ShapeKeepsText(kids, tag);
        ShapeKeepsHits(kids, tag);
        ShapeKeepsHits(rest, tag);
    }
  }

  /** `element` returns exactly the first element in document order, and
      `response_blocks` exactly the outermost elements, whatever the prefixes
      and however deep the same name nests. */
  lemma ScannerInvertsRendering(f: Forest, tag: string)
    requires Scannable(f, tag)
    ensures Element(Render(f), ScannerFor(tag)) == FirstElem(f, tag)
    ensures Blocks(Render(f), ScannerFor(tag)) == Outermost(f, tag)
  {
    ReaderForReads(tag);
    ReaderInvertsRendering(ReaderFor(tag), ScannerFor(tag), f, tag);
  }

  lemma ReaderInvertsRendering(rd: Reader, sc: Scanner, f: Forest, tag: string)
    requires Searches(rd, sc) && Finds(sc, tag) && Scannable(f, tag)
    ensures rd.element(Render(f)) == FirstElem(f, tag) && rd.blocks(Render(f)) == Outermost(f, tag)
  {
    var h := ShapeOf(f, tag);
    ForestBehaves(rd, sc, f, tag);
    ElementIsFirstHit(rd, h, "");
    BlocksAreHits(rd, h, "");
    ShapeKeepsText(f, tag);
    ShapeKeepsHits(f, tag);
    assert Render(f) + "" == Render(f);
    NothingIn(rd, sc, tag);
  }

  lemma NothingIn(rd: Reader, sc: Scanner, tag: string)
    requires Searches(rd, sc) && Finds(sc, tag)
    ensures rd.element("") == None && rd.blocks("") == []
  {
    assert sc.open("") == FindOpen("", tag) == None;
    ElementStep(rd.element, rd.closing, "", sc);
    BlocksStep(rd.blocks, rd.element, "", sc);
  }
}
