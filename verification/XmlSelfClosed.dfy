/** Self-closed elements of the searched name: the scanner takes `<a/>` for an
    opening tag, so nothing behind it is found. */
module XmlSelfClosed {
  import opened Base
  import opened Text
  import opened XmlTags
  import opened XmlNesting
  import opened XmlShape
  import opened XmlForest

  function SelfClosed(name: string): string { "<" + (name + "/") + ">" }

  lemma OpenLocalOfSelfClosed(name: string)
    requires NameOk(name)
    ensures OpenLocal(name + "/") == AfterColon(name)
  {
    var inside := name + "/";
    assert !IsSpace('/') && inside[0] == name[0];
    assert forall i | 0 <= i < |inside| :: !IsSpace(inside[i]);
    WordStopsAtSpace(inside, "");
    assert inside + "" == inside && inside[..|inside| - 1] == name;
    assert TrimStart(inside) == inside && Word(inside) == inside;
    assert inside[|inside| - 1] == '/' && TrimSlashes(inside) == TrimSlashes(name) == name;
  }

  lemma SelfClosedSeen(sc: Scanner, tag: string, name: string, x: string)
    requires Finds(sc, tag) && NameOk(name) && AfterColon(name) == tag
    ensures var o := SelfClosed(name);
            && sc.open(o + x) == Some(Span(0, |o|)) && Skips(sc, o[1..], x)
            && sc.close(o + x) == Shift(sc.close(x), |o|)
  {
    OpenLocalOfSelfClosed(name);
    assert (name + "/")[0] == name[0];
    OwnTagSeen(sc, tag, name + "/", x);
  }

  /** Behind it a balanced document never closes the level it opened. */
  lemma SelfClosedFindsNothing(rd: Reader, sc: Scanner, tag: string, name: string, f: Forest)
    requires Searches(rd, sc) && Finds(sc, tag) && NameOk(name) && AfterColon(name) == tag && Scannable(f, tag)
    ensures rd.element(SelfClosed(name) + Render(f)) == None && rd.blocks(SelfClosed(name) + Render(f)) == []
  {
    var o := SelfClosed(name);
    SelfClosedSeen(sc, tag, name, Render(f));
    FrontOpens(rd, sc, o, Render(f));
    ForestBehaves(rd, sc, f, tag);
    ShapeKeepsText(f, tag);
    ClosingSkipsShape(rd, ShapeOf(f, tag), "", 1);
    assert Render(f) + "" == Render(f);
    NothingIn(rd, sc, tag);
    NothingCloses(rd, sc, tag);
    BlocksOfNone(rd, sc, o + Render(f));
  }

  lemma NothingCloses(rd: Reader, sc: Scanner, tag: string)
    requires Searches(rd, sc) && Finds(sc, tag)
    ensures rd.closing("", 1) == None
  {
    assert sc.open("") == FindOpen("", tag) && sc.close("") == FindClose("", tag);
    assert rd.closing("", 1) == Closing("", sc, 1);
  }

  lemma BlocksOfNone(rd: Reader, sc: Scanner, x: string)
    requires Searches(rd, sc) && rd.element(x) == None
    ensures rd.blocks(x) == []
  {
    assert rd.element(x) == Element(x, sc) && rd.blocks(x) == Blocks(x, sc);
  }

  /** Of a document with a self-closed element of the searched name exactly what lies
      before that element is found. */
  lemma SelfClosedHidesTheRest(g: Forest, name: string, f: Forest, tag: string)
    requires NameOk(name) && AfterColon(name) == tag && Scannable(g, tag) && Scannable(f, tag)
    ensures var x := Render(g) + (SelfClosed(name) + Render(f));
            Element(x, ScannerFor(tag)) == FirstElem(g, tag) && Blocks(x, ScannerFor(tag)) == Outermost(g, tag)
  {
    ReaderForReads(tag);
    ReaderHidesTheRest(ReaderFor(tag), ScannerFor(tag), g, name, f, tag);
  }

  lemma ReaderHidesTheRest(rd: Reader, sc: Scanner, g: Forest, name: string, f: Forest, tag: string)
    requires Searches(rd, sc) && Finds(sc, tag) && NameOk(name) && AfterColon(name) == tag
    requires Scannable(g, tag) && Scannable(f, tag)
    ensures var x := Render(g) + (SelfClosed(name) + Render(f));
            rd.element(x) == FirstElem(g, tag) && rd.blocks(x) == Outermost(g, tag)
  {
    var h, s := ShapeOf(g, tag), SelfClosed(name) + Render(f);
    SelfClosedFindsNothing(rd, sc, tag, name, f);
    ForestBehaves(rd, sc, g, tag);
    ElementIsFirstHit(rd, h, s);
    BlocksAreHits(rd, h, s);
    ShapeKeepsText(g, tag);
    ShapeKeepsHits(g, tag);
  }
}
