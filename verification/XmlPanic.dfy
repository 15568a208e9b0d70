/** When `tag_text` panics: a closing tag hidden inside the opening tag makes the
    two bounds of the content cross. */
module XmlPanic {
  import opened Base
  import opened Text
  import opened XmlTags
  import opened XmlNesting
  import opened XmlShape
  import opened XmlForest
  import opened XmlText

  /** A closing tag of this local name starts at `j` inside a tag and ends with it. */
  predicate CloserAt(inside: string, j: nat, tag: string) {
    j + 2 <= |inside| && inside[j] == '<' && inside[j + 1] == '/' && AfterColon(inside[j + 2..]) == tag
  }

  predicate HidesCloser(inside: string, tag: string) { exists j | 0 <= j < |inside| :: CloserAt(inside, j, tag) }

  /** Inside of the first opening tag of this name: between its `<` and its `>`. */
  function FirstInside(x: string, tag: string): string
    requires FindOpen(x, tag).Some?
  {
    var o := FindOpen(x, tag).value; x[o.start + 1..o.end - 1]
  }

  // ── what the finders find ────────────────────────────────────────────

  lemma {:induction false} OpenIsThere(x: string, tag: string)
    requires FindOpen(x, tag).Some?
    ensures var o := FindOpen(x, tag).value; OpenAt(x[o.start..], tag) == Some(o.end - o.start)
  {
    if OpenAt(x, tag).Some? {
      assert x[0..] == x;
    } else {
      OpenIsThere(x[1..], tag);
      DropOne(x, FindOpen(x[1..], tag).value.start);
    }
  }

  lemma DropOne(x: string, i: nat)
    requires i < |x|
    ensures x[1..][i..] == x[i + 1..]
  {
  }

  lemma {:induction false} CloseIsThere(x: string, tag: string)
    requires FindClose(x, tag).Some?
    ensures CloseAt(x[FindClose(x, tag).value.start..], tag).Some?
  {
    if CloseAt(x, tag).Some? {
      assert x[0..] == x;
    } else {
      CloseIsThere(x[1..], tag);
      DropOne(x, FindClose(x[1..], tag).value.start);
    }
  }

  lemma {:induction false} CloseIsFirst(x: string, tag: string, i: nat)
    requires i <= |x| && CloseAt(x[i..], tag).Some?
    ensures FindClose(x, tag).Some? && FindClose(x, tag).value.start <= i
  {
    if CloseAt(x, tag).None? {
      assert i != 0 by { assert x[0..] == x; }
      DropOne(x, i - 1);
      CloseIsFirst(x[1..], tag, i - 1);
    }
  }

  // ── one tag at the front ─────────────────────────────────────────────

  lemma IndexOfInPrefix(y: string, n: nat, c: char)
    requires n <= |y| && IndexOf(y, c).Some? && IndexOf(y, c).value < n
    ensures IndexOf(y[..n], c) == IndexOf(y, c)
  {
    var i := IndexOf(y, c).value;
    assert y[..n] == y[..i] + ([c] + y[i + 1..n]);
    IndexOfSkips(y[..i], [c] + y[i + 1..n], c);
  }

  lemma IndexOfInSuffix(y: string, i: nat, c: char)
    requires IndexOf(y, c).Some? && i <= IndexOf(y, c).value
    ensures IndexOf(y[i..], c) == Some(IndexOf(y, c).value - i)
  {
    var n := IndexOf(y, c).value;
    assert y[i..] == y[i..n] + ([c] + y[n + 1..]);
    assert forall k | 0 <= k < n - i :: y[i..n][k] == y[..n][i + k];
    IndexOfSkips(y[i..n], [c] + y[n + 1..], c);
  }

  /** A tag is still there when the text behind it is cut off. */
  lemma OpenSurvivesCut(y: string, n: nat, tag: string)
    requires n <= |y| && OpenAt(y, tag).Some? && OpenAt(y, tag).value <= n
    ensures OpenAt(y[..n], tag) == OpenAt(y, tag)
  {
    IndexOfInPrefix(y, n, '>');
    var gt := IndexOf(y, '>').value;
    assert y[..n][1..gt] == y[1..gt];
  }

  lemma InsideFrom(p: string, i: nat, gt: nat)
    requires 0 < i && i + 1 < gt < |p|
    ensures p[i..][0] == p[1..gt][i - 1] && p[i..][1] == p[1..gt][i] && p[i..][2..gt - i] == p[1..gt][i + 1..]
  {
    SliceOfSlice(p, i, |p|, 2, gt - i);
    SliceOfSlice(p, 1, gt, i + 1, gt - 1);
    assert p[i..|p|] == p[i..] && p[1..gt][i + 1..gt - 1] == p[1..gt][i + 1..];
  }

  lemma NoCloserAtEnd(p: string, i: nat, gt: nat)
    requires i <= gt < |p| && gt <= i + 1 && p[gt] == '>'
    ensures |p[i..]| < 2 || p[i..][0] != '<' || p[i..][1] != '/'
  {
    assert p[i..][gt - i] == '>';
  }

  lemma NoCloserAtFront(p: string, tag: string)
    requires OpenAt(p, tag).Some?
    ensures CloseAt(p, tag).None?
  {
  }

  /** Closing tags that start inside the opening tag end with it. */
  lemma CloserIsHidden(p: string, tag: string, i: nat)
    requires OpenAt(p, tag).Some? && i < OpenAt(p, tag).value
    ensures CloseAt(p[i..], tag).Some? <==> 0 < i && CloserAt(p[1..OpenAt(p, tag).value - 1], i - 1, tag)
  {
    var gt := OpenAt(p, tag).value - 1;
    IndexOfInSuffix(p, i, '>');
    if i == 0 {
      assert p[0..] == p;
      NoCloserAtFront(p, tag);
    } else if i + 1 < gt {
      InsideFrom(p, i, gt);
    } else {
      NoCloserAtEnd(p, i, gt);
    }
  }

  // ── the exact condition ──────────────────────────────────────────────

  lemma TextNeverPanics(content: Scan)
    ensures ReadContent(content).Panics? <==> content.Panics?
  {
  }

  /** The block's first closing tag starts inside its opening tag. */
  ghost predicate Crosses(p: string, tag: string, e: nat) {
    FindClose(p, tag).Some? && FindClose(p, tag).value.start < e
  }

  lemma CrossingIsHidden(p: string, tag: string, e: nat)
    requires OpenAt(p, tag) == Some(e) && Crosses(p, tag, e)
    ensures HidesCloser(p[1..e - 1], tag)
  {
    CloseIsThere(p, tag);
    CloserMeansHidden(p, tag, e, FindClose(p, tag).value.start);
  }

  lemma CloserMeansHidden(p: string, tag: string, e: nat, i: nat)
    requires OpenAt(p, tag) == Some(e) && i < e && CloseAt(p[i..], tag).Some?
    ensures HidesCloser(p[1..e - 1], tag)
  {
    CloserIsHidden(p, tag, i);
    assert CloserAt(p[1..e - 1], i - 1, tag);
  }

  lemma HiddenCrosses(p: string, tag: string, e: nat)
    requires OpenAt(p, tag) == Some(e) && HidesCloser(p[1..e - 1], tag)
    ensures Crosses(p, tag, e)
  {
    var inside := p[1..e - 1];
    var j :| 0 <= j < |inside| && CloserAt(inside, j, tag);
    HiddenIsCloser(p, tag, e, j);
    CloseIsFirst(p, tag, j + 1);
  }

  lemma HiddenIsCloser(p: string, tag: string, e: nat, j: nat)
    requires OpenAt(p, tag) == Some(e) && CloserAt(p[1..e - 1], j, tag)
    ensures j + 1 < e && CloseAt(p[j + 1..], tag).Some?
  {
    CloserIsHidden(p, tag, j + 1);
  }

  lemma CrossingMeansHidden(p: string, tag: string, e: nat)
    requires OpenAt(p, tag) == Some(e)
    ensures Crosses(p, tag, e) <==> HidesCloser(p[1..e - 1], tag)
  {
    if Crosses(p, tag, e) {
      CrossingIsHidden(p, tag, e);
    }
    if HidesCloser(p[1..e - 1], tag) {
      HiddenCrosses(p, tag, e);
    }
  }

  /** The text starts with an opening tag of this name and this inside. */
  ghost predicate StartsWith(p: string, tag: string, inside: string) {
    OpenAt(p, tag) == Some(|inside| + 2) && p[1..|inside| + 1] == inside
  }

  /** On a block that starts with its opening tag, the content panics just when that tag hides a closer. */
  lemma BlockPanicsIff(sc: Scanner, p: string, tag: string, inside: string)
    requires Finds(sc, tag) && StartsWith(p, tag, inside)
    ensures Content(p, sc).Panics? <==> HidesCloser(inside, tag)
  {
    CrossingMeansHidden(p, tag, |inside| + 2);
    FinderStep(sc, tag, p);
    assert sc.close(p) == FindClose(p, tag);
  }

  lemma ElementStart(x: string, sc: Scanner)
    requires Element(x, sc).Some?
    ensures sc.open(x).Some? && Element(x, sc).value.start == sc.open(x).value.start
    ensures sc.open(x).value.end <= Element(x, sc).value.end
  {
  }

  lemma BlockOpens(x: string, tag: string, sp: Span)
    requires FindOpen(x, tag).Some? && FindOpen(x, tag).value.start == sp.start
    requires FindOpen(x, tag).value.end <= sp.end <= |x|
    ensures StartsWith(x[sp.start..sp.end], tag, FirstInside(x, tag))
  {
    OpenIsThere(x, tag);
    CutStarts(x, tag, FindOpen(x, tag).value, sp.end);
  }

  lemma CutStarts(x: string, tag: string, o: Span, end: nat)
    requires o.start + 1 < o.end <= end <= |x| && OpenAt(x[o.start..], tag) == Some(o.end - o.start)
    ensures StartsWith(x[o.start..end], tag, x[o.start + 1..o.end - 1])
  {
    CutTail(x, o.start, end);
    OpenSurvivesCut(x[o.start..], end - o.start, tag);
    SliceOfSlice(x, o.start, end, 1, o.end - o.start - 1);
  }

  lemma CutTail(x: string, i: nat, j: nat)
    requires i <= j <= |x|
    ensures x[i..][..j - i] == x[i..j]
  {
  }

  lemma SliceOfSlice(x: string, i: nat, j: nat, a: nat, b: nat)
    requires i <= j <= |x| && a <= b <= j - i
    ensures x[i..j][a..b] == x[i + a..i + b]
  {
    var y := x[i..j];
    forall k | 0 <= k < b - a
      ensures y[a..b][k] == x[i + a..i + b][k]
    {
      assert y[a + k] == x[i + a + k];
    }
  }

  lemma FoundPanicsIff(sc: Scanner, x: string, tag: string, sp: Span)
    requires Finds(sc, tag) && FindOpen(x, tag).Some?
    requires FindOpen(x, tag).value.start == sp.start && FindOpen(x, tag).value.end <= sp.end <= |x|
    ensures Content(x[sp.start..sp.end], sc).Panics? <==> HidesCloser(FirstInside(x, tag), tag)
  {
    BlockOpens(x, tag, sp);
    BlockPanicsIff(sc, x[sp.start..sp.end], tag, FirstInside(x, tag));
  }

  lemma TagTextIs(x: string, tag: string)
    ensures Element(x, ScannerFor(tag)).None? ==> TagText(x, tag) == Absent
    ensures Element(x, ScannerFor(tag)).Some? ==>
      var sp := Element(x, ScannerFor(tag)).value;
      TagText(x, tag) == ReadContent(Content(x[sp.start..sp.end], ScannerFor(tag)))
  {
  }

  lemma ElementOpens(x: string, tag: string, sc: Scanner)
    requires Finds(sc, tag) && Element(x, sc).Some?
    ensures var o := FindOpen(x, tag);
            o.Some? && Element(x, sc).value.start == o.value.start && o.value.end <= Element(x, sc).value.end
  {
    ElementStart(x, sc);
    assert sc.open(x) == FindOpen(x, tag);
  }

  /** `tag_text` panics exactly when an element is found and its opening tag
      hides a closing tag of that name. */
  lemma TagTextPanicsIff(x: string, tag: string)
    ensures TagText(x, tag).Panics? <==>
            Element(x, ScannerFor(tag)).Some? && FindOpen(x, tag).Some? && HidesCloser(FirstInside(x, tag), tag)
  {
    var sc := ScannerFor(tag);
    ReaderForReads(tag);
    TagTextIs(x, tag);
    if Element(x, sc).Some? {
      var sp := Element(x, sc).value;
      ElementOpens(x, tag, sc);
      FoundPanicsIff(sc, x, tag, sp);
      TextNeverPanics(Content(x[sp.start..sp.end], sc));
    }
  }

  // ── documents that never panic ───────────────────────────────────────

  /** No `<` between a `<` and its `>`. */
  ghost predicate TagsApart(x: string) {
    forall i, j | 0 <= i < j < |x| && x[i] == '<' && x[j] == '<' :: '>' in x[i..j]
  }

  lemma SlicesStayApart(x: string, i: nat, j: nat)
    requires TagsApart(x) && i <= j <= |x|
    ensures TagsApart(x[i..j])
  {
    var y := x[i..j];
    forall a, b | 0 <= a < b < |y| && y[a] == '<' && y[b] == '<'
      ensures '>' in y[a..b]
    {
      assert x[i + a] == '<' && x[i + b] == '<';
      SliceOfSlice(x, i, j, a, b);
    }
  }

  lemma FirstInsideOf(x: string, tag: string)
    requires FindOpen(x, tag).Some?
    ensures var o := FindOpen(x, tag).value; x[o.start] == '<' && '>' !in FirstInside(x, tag)
  {
    var o := FindOpen(x, tag).value;
    OpenIsThere(x, tag);
    var y := x[o.start..];
    assert FirstInside(x, tag) == y[1..o.end - o.start - 1];
    assert '>' !in y[..o.end - o.start - 1];
  }

  lemma ApartHidesNothing(x: string, tag: string)
    requires TagsApart(x) && FindOpen(x, tag).Some?
    ensures !HidesCloser(FirstInside(x, tag), tag)
  {
    FirstInsideOf(x, tag);
    InsideHoldsNoTag(x, FindOpen(x, tag).value.start, FirstInside(x, tag));
  }

  lemma InsideHoldsNoTag(x: string, i: nat, inside: string)
    requires TagsApart(x) && i + 1 + |inside| <= |x| && x[i] == '<' && inside == x[i + 1..i + 1 + |inside|]
    requires '>' !in inside
    ensures '<' !in inside
  {
    forall j | 0 <= j < |inside|
      ensures inside[j] != '<'
    {
      assert x[i + 1 + j] == inside[j];
      assert x[i..i + 1 + j] == ['<'] + inside[..j];
    }
  }

  /** Such a document degrades to no text, for every name. */
  lemma ApartNeverPanics(x: string, tag: string)
    requires TagsApart(x)
    ensures !TagText(x, tag).Panics?
  {
    TagTextPanicsIff(x, tag);
    if FindOpen(x, tag).Some? {
      ApartHidesNothing(x, tag);
    }
  }

  // ── a family that does ───────────────────────────────────────────────

  /** `name </name`. */
  function Hiding(name: string): string { name + (" </" + name) }

  /** `<name </name></name>`. */
  function Malformed(name: string): string { "<" + Hiding(name) + ">" + CloseTag(name) }

  lemma HidingHides(name: string)
    ensures HidesCloser(Hiding(name), AfterColon(name))
  {
    var inside, j := Hiding(name), |name| + 1;
    assert inside[j] == '<' && inside[j + 1] == '/';
    assert inside[j + 2..] == name;
    assert CloserAt(inside, j, AfterColon(name));
  }

  lemma HidingIsInside(name: string)
    requires NameOk(name)
    ensures '>' !in Hiding(name) && |Hiding(name)| == 2 * |name| + 3 && Hiding(name)[0] == name[0]
  {
  }

  lemma OpenAtFront(inside: string, x: string, tag: string)
    requires '>' !in inside && inside != "" && inside[0] != '/' && OpenLocal(inside) == tag
    ensures OpenAt("<" + inside + ">" + x, tag) == Some(|inside| + 2)
  {
    TagEnds(inside, x);
    assert ("<" + inside + ">" + x)[1] == inside[0];
  }

  lemma LocalOfWord(name: string, rest: string)
    requires NameOk(name) && rest != "" && IsSpace(rest[0])
    ensures OpenLocal(name + rest) == AfterColon(name)
  {
    WordStopsAtSpace(name, rest);
    assert (name + rest)[0] == name[0];
  }

  lemma HidingLocal(name: string)
    requires NameOk(name)
    ensures OpenLocal(Hiding(name)) == AfterColon(name)
  {
    var rest := " </" + name;
    assert rest[0] == ' ';
    LocalOfWord(name, rest);
  }

  lemma MalformedOpens(name: string)
    requires NameOk(name)
    ensures OpenAt(Malformed(name), AfterColon(name)) == Some(|Hiding(name)| + 2)
  {
    HidingIsInside(name);
    HidingLocal(name);
    OpenAtFront(Hiding(name), CloseTag(name), AfterColon(name));
  }

  lemma MalformedInside(name: string)
    ensures Malformed(name)[1..|Hiding(name)| + 1] == Hiding(name)
  {
  }

  lemma CloseTagAlone(sc: Scanner, name: string, tag: string)
    requires Finds(sc, tag) && NameOk(name) && AfterColon(name) == tag
    ensures sc.close(CloseTag(name)) == Some(Span(0, |CloseTag(name)|)) && sc.open(CloseTag(name)).None?
  {
    var c := CloseTag(name);
    CloseTagSeen(sc, tag, name, "");
    assert c + "" == c;
    NothingOpensIn(sc, tag, c);
  }

  lemma NothingOpensIn(sc: Scanner, tag: string, c: string)
    requires Finds(sc, tag) && |c| > 1 && c[1] == '/' && '<' !in c[1..]
    ensures sc.open(c).None?
  {
    CharsSkip(sc, tag, c[1..], "");
    assert c[1..] + "" == c[1..];
    assert sc.open("") == FindOpen("", tag) == None;
    assert sc.open(c) == FindOpen(c, tag);
    assert sc.open(c[1..]) == FindOpen(c[1..], tag);
  }

  /** An opening tag and then at once its closing tag is an element. */
  lemma TwoTagsAreElement(rd: Reader, sc: Scanner, o: string, c: string)
    requires Searches(rd, sc) && sc.open(o + c) == Some(Span(0, |o|)) && sc.open(c).None?
    requires sc.close(c) == Some(Span(0, |c|))
    ensures rd.element(o + c) == Some(Span(0, |o + c|))
  {
    ElementAtOpen(rd.element, rd.closing, o, c, sc);
    ClosingAfterClose(rd.closing, c, sc, 1);
  }

  lemma MalformedTags(sc: Scanner, name: string, tag: string)
    requires Finds(sc, tag) && NameOk(name) && AfterColon(name) == tag
    ensures var o, c := "<" + Hiding(name) + ">", CloseTag(name);
            sc.open(o + c) == Some(Span(0, |o|)) && sc.open(c).None? && sc.close(c) == Some(Span(0, |c|))
  {
    MalformedIsFound(sc, name, tag);
    CloseTagAlone(sc, name, tag);
  }

  lemma MalformedIsFound(sc: Scanner, name: string, tag: string)
    requires Finds(sc, tag) && NameOk(name) && AfterColon(name) == tag
    ensures sc.open(Malformed(name)) == Some(Span(0, |Hiding(name)| + 2))
  {
    HidingIsInside(name);
    HidingLocal(name);
    TagOpens(sc, tag, Hiding(name), CloseTag(name));
  }

  lemma TagOpens(sc: Scanner, tag: string, inside: string, x: string)
    requires Finds(sc, tag) && '>' !in inside && inside != "" && inside[0] != '/' && OpenLocal(inside) == tag
    ensures sc.open("<" + inside + ">" + x) == Some(Span(0, |inside| + 2))
  {
    OpenAtFront(inside, x, tag);
    OpensAtFront(sc, tag, "<" + inside + ">" + x, |inside| + 2);
  }

  lemma OpensAtFront(sc: Scanner, tag: string, y: string, e: nat)
    requires Finds(sc, tag) && OpenAt(y, tag) == Some(e)
    ensures sc.open(y) == Some(Span(0, e))
  {
    FinderStep(sc, tag, y);
  }

  lemma MalformedIsElement(name: string, tag: string)
    requires NameOk(name) && AfterColon(name) == tag
    ensures Element(Malformed(name), ScannerFor(tag)) == Some(Span(0, |Malformed(name)|))
  {
    ReaderForReads(tag);
    MalformedTags(ScannerFor(tag), name, tag);
    TwoTagsAreElement(ReaderFor(tag), ScannerFor(tag), "<" + Hiding(name) + ">", CloseTag(name));
  }

  lemma FrontInside(x: string, tag: string, e: nat)
    requires OpenAt(x, tag) == Some(e)
    ensures FindOpen(x, tag) == Some(Span(0, e)) && FirstInside(x, tag) == x[1..e - 1]
  {
  }

  /** The first opening tag of the text hides a closer. */
  ghost predicate FrontHides(x: string, tag: string, inside: string) {
    StartsWith(x, tag, inside) && HidesCloser(inside, tag)
  }

  ghost predicate Crossed(x: string, tag: string) {
    Element(x, ScannerFor(tag)).Some? && exists inside :: FrontHides(x, tag, inside)
  }

  lemma CrossedPanics(x: string, tag: string)
    requires Crossed(x, tag)
    ensures TagText(x, tag).Panics?
  {
    var inside :| FrontHides(x, tag, inside);
    HiddenIsFirst(x, tag, inside);
    TagTextPanicsIff(x, tag);
  }

  lemma HiddenIsFirst(x: string, tag: string, inside: string)
    requires FrontHides(x, tag, inside)
    ensures FindOpen(x, tag).Some? && HidesCloser(FirstInside(x, tag), tag)
  {
    FrontInside(x, tag, |inside| + 2);
  }

  lemma MalformedIsCrossed(name: string, tag: string)
    requires NameOk(name) && AfterColon(name) == tag
    ensures Crossed(Malformed(name), tag)
  {
    MalformedIsElement(name, tag);
    MalformedOpens(name);
    MalformedInside(name);
    HidingHides(name);
    assert FrontHides(Malformed(name), tag, Hiding(name));
  }

  /** Every such document panics. */
  lemma MalformedPanics(name: string, tag: string)
    requires NameOk(name) && AfterColon(name) == tag
    ensures TagText(Malformed(name), tag).Panics?
  {
    MalformedIsCrossed(name, tag);
    CrossedPanics(Malformed(name), tag);
  }
}
