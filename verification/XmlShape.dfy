/** Element search one level up: a document as a tree of string pieces, some of
    them the tags searched for, and a reader known only by what it does at the
    front of a string. */
module XmlShape {
  import opened Base
  import opened XmlTags

  datatype Shape =
    | Empty
    | Skip(p: string, rest: Shape)
    | Node(o: string, c: string, hit: bool, kids: Shape, rest: Shape)

  function Flat(h: Shape): string {
    match h
    case Empty => ""
    case Skip(p, rest) => p + Flat(rest)
    case Node(o, c, _, kids, rest) => o + (Flat(kids) + (c + Flat(rest)))
  }

  /** The functions of an element reader for one name, as values. */
  datatype Reader = Reader(
    closing: (string, nat) -> Option<nat>,
    element: string -> Option<Span>,
    blocks: string -> seq<string>)

  /** Nothing of `p` matters to any part of the reader. */
  ghost predicate Passes(rd: Reader, p: string, x: string) {
    && (forall d: nat {:trigger rd.closing(x, d)} :: 1 <= d ==> rd.closing(p + x, d) == ShiftEnd(rd.closing(x, d), |p|))
    && rd.element(p + x) == Shift(rd.element(x), |p|)
    && rd.blocks(p + x) == rd.blocks(x)
  }

  /** `o` opens a level, and an element if none is open. */
  ghost predicate Opens(rd: Reader, o: string, x: string) {
    && (forall d: nat {:trigger rd.closing(o + x, d)} :: 1 <= d ==>
          rd.closing(o + x, d) == ShiftEnd(rd.closing(x, d + 1), |o|))
    && rd.element(o + x) == match rd.closing(x, 1) { case None => None case Some(e) => Some(Span(0, |o| + e)) }
  }

  /** `c` closes the innermost level. */
  ghost predicate Closes(rd: Reader, c: string, x: string) {
    && rd.closing(c + x, 1) == Some(|c|)
    && forall d: nat {:trigger rd.closing(c + x, d)} :: 1 < d ==>
         rd.closing(c + x, d) == ShiftEnd(rd.closing(x, d - 1), |c|)
  }

  /** An element at the front is the first block; the rest follows. */
  ghost predicate Cuts(rd: Reader, b: string, x: string) {
    rd.element(b + x) == Some(Span(0, |b|)) ==> rd.blocks(b + x) == [b] + rd.blocks(x)
  }

  /** Every piece of the shape does what it is marked as, whatever follows. */
  ghost predicate Behaves(rd: Reader, h: Shape) {
    match h
    case Empty => true
    case Skip(p, rest) => (forall x {:trigger Passes(rd, p, x)} :: Passes(rd, p, x)) && Behaves(rd, rest)
    case Node(o, c, hit, kids, rest) =>
      && Behaves(rd, kids) && Behaves(rd, rest)
      && (hit ==> forall x {:trigger Opens(rd, o, x)} :: Opens(rd, o, x))
      && (hit ==> forall x {:trigger Closes(rd, c, x)} :: Closes(rd, c, x))
      && (hit ==> forall x {:trigger Cuts(rd, o + (Flat(kids) + c), x)} :: Cuts(rd, o + (Flat(kids) + c), x))
      && (!hit ==> forall x {:trigger Passes(rd, o, x)} :: Passes(rd, o, x))
      && (!hit ==> forall x {:trigger Passes(rd, c, x)} :: Passes(rd, c, x))
  }

  function FirstHit(h: Shape): Option<Span> {
    match h
    case Empty => None
    case Skip(p, rest) => Shift(FirstHit(rest), |p|)
    case Node(o, c, hit, kids, rest) =>
      if hit then Some(Span(0, |o| + |Flat(kids)| + |c|))
      else if FirstHit(kids).Some? then Shift(FirstHit(kids), |o|)
      else Shift(FirstHit(rest), |o| + |Flat(kids)| + |c|)
  }

  /** The text of the first hit: the slice `FirstHit` spans. */
  function FirstWhole(h: Shape): Option<string> {
    match h
    case Empty => None
    case Skip(_, rest) => FirstWhole(rest)
    case Node(o, c, hit, kids, rest) =>
      if hit then Some(o + (Flat(kids) + c))
      else if FirstWhole(kids).Some? then FirstWhole(kids)
      else FirstWhole(rest)
  }

  ghost predicate Slices(x: string, r: Option<Span>, w: Option<string>) {
    && (r.None? <==> w.None?)
    && (r.Some? ==> r.value.start <= r.value.end <= |x| && x[r.value.start..r.value.end] == w.value)
  }

  lemma SlicesShift(p: string, x: string, s: string, r: Option<Span>, w: Option<string>)
    requires Slices(x, r, w)
    ensures Slices(p + (x + s), Shift(r, |p|), w) && Slices(p + x, Shift(r, |p|), w)
  {
  }

  lemma {:induction false} FirstWholeIsSlice(h: Shape)
    ensures Slices(Flat(h), FirstHit(h), FirstWhole(h))
  {
    match h {
      case Empty =>
      case Skip(p, rest) =>
        FirstWholeIsSlice(rest);
        SlicesShift(p, Flat(rest), "", FirstHit(rest), FirstWhole(rest));
      case Node(o, c, hit, kids, rest) =>
        FirstWholeIsSlice(kids);
        FirstWholeIsSlice(rest);
        var k, r := Flat(kids), Flat(rest);
        NodeFlat(o, k, c, r, "");
        SlicesShift(o, k, c + r, FirstHit(kids), FirstWhole(kids));
        SlicesShift(o + (k + c), r, "", FirstHit(rest), FirstWhole(rest));
        FrontSlice(o + (k + c), r);
        assert Flat(h) == (o + (k + c)) + r;
    }
  }

  lemma FrontSlice(b: string, r: string)
    ensures (b + r)[0..|b|] == b
  {
  }

  function Hits(h: Shape): seq<string> {
    match h
    case Empty => []
    case Skip(_, rest) => Hits(rest)
    case Node(o, c, hit, kids, rest) => (if hit then [o + (Flat(kids) + c)] else Hits(kids)) + Hits(rest)
  }

  lemma SkipFlat(p: string, r: string, s: string)
    ensures (p + r) + s == p + (r + s)
  {
  }

  lemma NodeFlat(o: string, k: string, c: string, r: string, s: string)
    ensures (o + (k + (c + r))) + s == o + (k + (c + (r + s)))
    ensures (o + (k + (c + r))) + s == (o + (k + c)) + (r + s)
  {
  }

  lemma ClosingInSkip(rd: Reader, p: string, r: string, s: string, depth: nat)
    requires Passes(rd, p, r + s) && 1 <= depth && rd.closing(r + s, depth) == ShiftEnd(rd.closing(s, depth), |r|)
    ensures rd.closing((p + r) + s, depth) == ShiftEnd(rd.closing(s, depth), |p + r|)
  {
    SkipFlat(p, r, s);
  }

  lemma ClosingInHit(rd: Reader, o: string, k: string, c: string, r: string, s: string, depth: nat)
    requires 1 <= depth && Opens(rd, o, k + (c + (r + s))) && Closes(rd, c, r + s)
    requires rd.closing(k + (c + (r + s)), depth + 1) == ShiftEnd(rd.closing(c + (r + s), depth + 1), |k|)
    requires rd.closing(r + s, depth) == ShiftEnd(rd.closing(s, depth), |r|)
    ensures rd.closing(o + (k + (c + (r + s))), depth) == ShiftEnd(rd.closing(s, depth), |o| + |k| + |c| + |r|)
  {
  }

  lemma ClosingInMiss(rd: Reader, o: string, k: string, c: string, r: string, s: string, depth: nat)
    requires 1 <= depth && Passes(rd, o, k + (c + (r + s))) && Passes(rd, c, r + s)
    requires rd.closing(k + (c + (r + s)), depth) == ShiftEnd(rd.closing(c + (r + s), depth), |k|)
    requires rd.closing(r + s, depth) == ShiftEnd(rd.closing(s, depth), |r|)
    ensures rd.closing(o + (k + (c + (r + s))), depth) == ShiftEnd(rd.closing(s, depth), |o| + |k| + |c| + |r|)
  {
  }

  /** A balanced shape leaves the level where it was. */
  lemma {:induction false} ClosingSkipsShape(rd: Reader, h: Shape, s: string, depth: nat)
    requires Behaves(rd, h) && 1 <= depth
    ensures rd.closing(Flat(h) + s, depth) == ShiftEnd(rd.closing(s, depth), |Flat(h)|)
    decreases h
  {
    match h {
      case Empty => assert Flat(h) + s == s;
      case Skip(p, rest) =>
        ClosingSkipsShape(rd, rest, s, depth);
        assert Passes(rd, p, Flat(rest) + s);
        ClosingInSkip(rd, p, Flat(rest), s, depth);
      case Node(o, c, hit, kids, rest) =>
        var k, r := Flat(kids), Flat(rest);
        NodeFlat(o, k, c, r, s);
        ClosingSkipsShape(rd, kids, c + (r + s), if hit then depth + 1 else depth);
        ClosingSkipsShape(rd, rest, s, depth);
        if hit {
          assert Opens(rd, o, k + (c + (r + s))) && Closes(rd, c, r + s);
          ClosingInHit(rd, o, k, c, r, s, depth);
        } else {
          assert Passes(rd, o, k + (c + (r + s))) && Passes(rd, c, r + s);
          ClosingInMiss(rd, o, k, c, r, s, depth);
        }
    }
  }

  lemma ElementAtHit(rd: Reader, h: Shape, s: string)
    requires Behaves(rd, h) && h.Node? && h.hit
    ensures rd.element(Flat(h) + s) == Some(Span(0, |h.o| + |Flat(h.kids)| + |h.c|))
  {
    var x3 := Flat(h.rest) + s;
    NodeFlat(h.o, Flat(h.kids), h.c, Flat(h.rest), s);
    ClosingSkipsShape(rd, h.kids, h.c + x3, 1);
    assert Opens(rd, h.o, Flat(h.kids) + (h.c + x3)) && Closes(rd, h.c, x3);
  }

  /** What the reader returns when `first` is the first hit of a piece this long. */
  function FirstOr(first: Option<Span>, behind: Option<Span>, n: nat): Option<Span> {
    if first.Some? then first else Shift(behind, n)
  }

  lemma FirstOrNested(kids: Option<Span>, rest: Option<Span>, s: Option<Span>, o: nat, k: nat, c: nat, r: nat)
    ensures Shift(FirstOr(kids, Shift(FirstOr(rest, s, r), c), k), o) ==
            FirstOr(if kids.Some? then Shift(kids, o) else Shift(rest, o + k + c), s, o + k + c + r)
  {
  }

  /** An element of another name: first what is inside it, then what follows it. */
  lemma ElementInMiss(rd: Reader, o: string, k: string, c: string, r: string, s: string, kids: Option<Span>,
                      rest: Option<Span>)
    requires Passes(rd, o, k + (c + (r + s))) && Passes(rd, c, r + s)
    requires rd.element(k + (c + (r + s))) == FirstOr(kids, rd.element(c + (r + s)), |k|)
    requires rd.element(r + s) == FirstOr(rest, rd.element(s), |r|)
    ensures rd.element(o + (k + (c + (r + s)))) ==
            FirstOr(if kids.Some? then Shift(kids, |o|) else Shift(rest, |o| + |k| + |c|), rd.element(s),
                    |o| + |k| + |c| + |r|)
  {
    FirstOrNested(kids, rest, rd.element(s), |o|, |k|, |c|, |r|);
  }

  lemma ElementInNode(rd: Reader, h: Shape, s: string)
    requires Behaves(rd, h) && h.Node? && !h.hit
    requires var x := h.c + (Flat(h.rest) + s);
             rd.element(Flat(h.kids) + x) == FirstOr(FirstHit(h.kids), rd.element(x), |Flat(h.kids)|)
    requires rd.element(Flat(h.rest) + s) == FirstOr(FirstHit(h.rest), rd.element(s), |Flat(h.rest)|)
    ensures rd.element(Flat(h) + s) == FirstOr(FirstHit(h), rd.element(s), |Flat(h)|)
  {
    var k, r := Flat(h.kids), Flat(h.rest);
    NodeFlat(h.o, k, h.c, r, s);
    assert Passes(rd, h.o, k + (h.c + (r + s))) && Passes(rd, h.c, r + s);
    ElementInMiss(rd, h.o, k, h.c, r, s, FirstHit(h.kids), FirstHit(h.rest));
  }

  lemma ElementInSkip(rd: Reader, h: Shape, s: string)
    requires Behaves(rd, h) && h.Skip?
    requires rd.element(Flat(h.rest) + s) == FirstOr(FirstHit(h.rest), rd.element(s), |Flat(h.rest)|)
    ensures rd.element(Flat(h) + s) == FirstOr(FirstHit(h), rd.element(s), |Flat(h)|)
  {
    SkipFlat(h.p, Flat(h.rest), s);
    assert Passes(rd, h.p, Flat(h.rest) + s);
  }

  lemma {:induction false} ElementIsFirstHit(rd: Reader, h: Shape, s: string)
    requires Behaves(rd, h)
    ensures rd.element(Flat(h) + s) == FirstOr(FirstHit(h), rd.element(s), |Flat(h)|)
    decreases h
  {
    match h {
      case Empty => assert Flat(h) + s == s;
      case Skip(p, rest) =>
        ElementIsFirstHit(rd, rest, s);
        ElementInSkip(rd, h, s);
      case Node(o, c, hit, kids, rest) =>
        if hit {
          ElementAtHit(rd, h, s);
        } else {
          ElementIsFirstHit(rd, kids, c + (Flat(rest) + s));
          ElementIsFirstHit(rd, rest, s);
          ElementInNode(rd, h, s);
        }
    }
  }

  lemma {:induction false} BlocksAreHits(rd: Reader, h: Shape, s: string)
    requires Behaves(rd, h)
    ensures rd.blocks(Flat(h) + s) == Hits(h) + rd.blocks(s)
    decreases h
  {
    match h {
      case Empty => assert Flat(h) + s == s;
      case Skip(p, rest) =>
        SkipFlat(p, Flat(rest), s);
        assert Passes(rd, p, Flat(rest) + s);
        BlocksAreHits(rd, rest, s);
      case Node(o, c, hit, kids, rest) =>
        var x3 := Flat(rest) + s;
        NodeFlat(o, Flat(kids), c, Flat(rest), s);
        BlocksAreHits(rd, rest, s);
        if hit {
          ElementIsFirstHit(rd, h, s);
          assert Cuts(rd, o + (Flat(kids) + c), x3);
        } else {
          assert Passes(rd, o, Flat(kids) + (c + x3)) && Passes(rd, c, x3);
          BlocksAreHits(rd, kids, c + x3);
        }
    }
  }
}
