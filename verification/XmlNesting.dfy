/** Nesting-aware element search over any pair of tag finders. */
module XmlNesting {
  import opened Base
  import opened XmlTags

  ghost predicate InBounds(f: string -> Option<Span>) {
    forall x :: f(x).Some? ==> f(x).value.start < f(x).value.end <= |x|
  }

  type Finder = f: string -> Option<Span> | InBounds(f) ghost witness (x: string) => None

  /** `find_open` and `find_close` for one local name. */
  datatype Scanner = Scanner(open: Finder, close: Finder)

  function ScannerFor(tag: string): Scanner {
    Scanner((x: string) => FindOpen(x, tag), (x: string) => FindClose(x, tag))
  }

  /** Where `depth` open elements are all closed again. */
  function Closing(x: string, sc: Scanner, depth: nat): (r: Option<nat>)
    requires 1 <= depth
    ensures r.Some? ==> 0 < r.value <= |x|
    decreases |x|
  {
    var open, close := sc.open(x), sc.close(x);
    if close.Some? && (open.None? || close.value.start < open.value.start) then
      if depth == 1 then Some(close.value.end)
      else ShiftEnd(Closing(x[close.value.end..], sc, depth - 1), close.value.end)
    else if open.Some? then ShiftEnd(Closing(x[open.value.start + 1..], sc, depth + 1), open.value.start + 1)
    else None
  }

  /** The first complete element. */
  function Element(x: string, sc: Scanner): (r: Option<Span>)
    ensures r.Some? ==> r.value.start < r.value.end <= |x|
  {
    match sc.open(x)
    case None => None
    case Some(o) =>
      match Closing(x[o.end..], sc, 1)
      case None => None
      case Some(e) => Some(Span(o.start, o.end + e))
  }

  function Moved(spans: seq<Span>, n: nat): (r: seq<Span>)
    ensures |r| == |spans|
    ensures forall i | 0 <= i < |r| :: r[i] == Span(spans[i].start + n, spans[i].end + n)
  {
    seq(|spans|, i requires 0 <= i < |spans| => Span(spans[i].start + n, spans[i].end + n))
  }

  /** Spans of the complete elements, each search starting after the last hit:
      on every string they are in bounds, non-empty, disjoint and in order. */
  function Elements(x: string, sc: Scanner): (r: seq<Span>)
    ensures forall i | 0 <= i < |r| :: r[i].start < r[i].end <= |x|
    ensures forall i, j | 0 <= i < j < |r| :: r[i].end <= r[j].start
    decreases |x|
  {
    match Element(x, sc)
    case None => []
    case Some(sp) => [sp] + Moved(Elements(x[sp.end..], sc), sp.end)
  }

  function Blocks(x: string, sc: Scanner): seq<string>
    decreases |x|
  {
    match Element(x, sc)
    case None => []
    case Some(sp) => [Slice(x, sp)] + Blocks(x[sp.end..], sc)
  }

  lemma {:induction false} BlocksAreSlices(x: string, sc: Scanner)
    ensures |Blocks(x, sc)| == |Elements(x, sc)|
    ensures SlicedBy(x, Elements(x, sc), Blocks(x, sc))
    decreases |x|
  {
    var e := Element(x, sc);
    if e.Some? {
      var rest := x[e.value.end..];
      BlocksAreSlices(rest, sc);
      SlicedByCons(x, e.value, Elements(rest, sc), Blocks(rest, sc));
    }
  }

  ghost predicate SlicedBy(x: string, spans: seq<Span>, blocks: seq<string>) {
    && |spans| == |blocks|
    && forall i | 0 <= i < |spans| :: spans[i].start <= spans[i].end <= |x| && blocks[i] == Slice(x, spans[i])
  }

  lemma SlicedByCons(x: string, sp: Span, spans: seq<Span>, blocks: seq<string>)
    requires sp.start <= sp.end <= |x| && SlicedBy(x[sp.end..], spans, blocks)
    ensures SlicedBy(x, [sp] + Moved(spans, sp.end), [Slice(x, sp)] + blocks)
  {
    forall i | 0 <= i < |spans|
      ensures blocks[i] == Slice(x, Moved(spans, sp.end)[i])
    {
      SliceOfTail(x, sp.end, spans[i]);
    }
  }

  function Slice(x: string, sp: Span): string
    requires sp.start <= sp.end <= |x|
  {
    x[sp.start..sp.end]
  }

  lemma SliceOfTail(x: string, n: nat, sp: Span)
    requires sp.start <= sp.end && n + sp.end <= |x|
    ensures Slice(x[n..], sp) == Slice(x, Span(sp.start + n, sp.end + n))
  {
  }

  // ── skipping a prefix ────────────────────────────────────────────────

  /** Both finders see nothing in `p` and go on in `x`. */
  ghost predicate Skips(sc: Scanner, p: string, x: string) {
    sc.open(p + x) == Shift(sc.open(x), |p|) && sc.close(p + x) == Shift(sc.close(x), |p|)
  }

  lemma DropPrefix(p: string, x: string, n: nat)
    requires n <= |x|
    ensures (p + x)[|p| + n..] == x[n..]
  {
  }

  // The searches as values, known by single steps: proofs below name the few
  // texts they speak of and unfold nothing else.

  type ClosingSpec = (string, nat) -> Option<nat>

  ghost predicate IsClosing(spec: ClosingSpec, sc: Scanner) {
    forall x, d: nat {:trigger Closing(x, sc, d)} :: 1 <= d ==> spec(x, d) == Closing(x, sc, d)
  }

  /** The next tag that matters is a closing one. */
  predicate ClosesFirst(open: Option<Span>, close: Option<Span>) {
    close.Some? && (open.None? || close.value.start < open.value.start)
  }

  lemma ClosingAfterClose(spec: ClosingSpec, x: string, sc: Scanner, depth: nat)
    requires IsClosing(spec, sc) && 1 <= depth && ClosesFirst(sc.open(x), sc.close(x))
    ensures var e := sc.close(x).value.end;
            spec(x, depth) == if depth == 1 then Some(e) else ShiftEnd(spec(x[e..], depth - 1), e)
  {
    var e := sc.close(x).value.end;
    assert spec(x, depth) == Closing(x, sc, depth);
    if depth > 1 {
      assert spec(x[e..], depth - 1) == Closing(x[e..], sc, depth - 1);
    }
  }

  lemma ClosingAfterOpen(spec: ClosingSpec, x: string, sc: Scanner, depth: nat)
    requires IsClosing(spec, sc) && 1 <= depth && !ClosesFirst(sc.open(x), sc.close(x)) && sc.open(x).Some?
    ensures var n := sc.open(x).value.start + 1; spec(x, depth) == ShiftEnd(spec(x[n..], depth + 1), n)
  {
    var n := sc.open(x).value.start + 1;
    assert spec(x, depth) == Closing(x, sc, depth);
    assert spec(x[n..], depth + 1) == Closing(x[n..], sc, depth + 1);
  }

  lemma ClosingNowhere(spec: ClosingSpec, x: string, sc: Scanner, depth: nat)
    requires IsClosing(spec, sc) && 1 <= depth && sc.open(x).None? && sc.close(x).None?
    ensures spec(x, depth) == None
  {
    assert spec(x, depth) == Closing(x, sc, depth);
  }

  lemma ShiftEndTwice(r: Option<nat>, m: nat, n: nat)
    ensures ShiftEnd(ShiftEnd(r, m), n) == ShiftEnd(r, m + n)
  {
  }

  lemma ClosingSkips(spec: ClosingSpec, p: string, x: string, sc: Scanner, depth: nat)
    requires IsClosing(spec, sc) && Skips(sc, p, x) && 1 <= depth
    ensures spec(p + x, depth) == ShiftEnd(spec(x, depth), |p|)
  {
    var open, close := sc.open(x), sc.close(x);
    if ClosesFirst(open, close) {
      ClosingAfterClose(spec, x, sc, depth);
      ClosingAfterClose(spec, p + x, sc, depth);
      DropPrefix(p, x, close.value.end);
    } else if open.Some? {
      ClosingAfterOpen(spec, x, sc, depth);
      ClosingAfterOpen(spec, p + x, sc, depth);
      DropPrefix(p, x, open.value.start + 1);
    } else {
      ClosingNowhere(spec, x, sc, depth);
      ClosingNowhere(spec, p + x, sc, depth);
    }
  }

  /** A closing tag at the front ends the innermost level. */
  lemma ClosingAtClose(spec: ClosingSpec, c: string, x: string, sc: Scanner, depth: nat)
    requires IsClosing(spec, sc) && sc.close(c + x) == Some(Span(0, |c|)) && 1 <= depth
    requires sc.open(c + x).Some? ==> sc.open(c + x).value.start > 0
    ensures spec(c + x, depth) == if depth == 1 then Some(|c|) else ShiftEnd(spec(x, depth - 1), |c|)
  {
    ClosingAfterClose(spec, c + x, sc, depth);
    DropPrefix(c, x, 0);
    assert x[0..] == x;
  }

  /** An opening tag at the front adds a level; the scan resumes inside it. */
  lemma ClosingAtOpen(spec: ClosingSpec, o: string, x: string, sc: Scanner, depth: nat)
    requires IsClosing(spec, sc) && o != "" && sc.open(o + x) == Some(Span(0, |o|)) && 1 <= depth
    requires sc.close(o + x).Some? ==> sc.close(o + x).value.start > 0
    requires Skips(sc, o[1..], x)
    ensures spec(o + x, depth) == ShiftEnd(spec(x, depth + 1), |o|)
  {
    ClosingAfterOpen(spec, o + x, sc, depth);
    assert (o + x)[1..] == o[1..] + x;
    ClosingSkips(spec, o[1..], x, sc, depth + 1);
    ShiftEndTwice(spec(x, depth + 1), |o| - 1, 1);
  }

  type ElementSpec = string -> Option<Span>

  ghost predicate IsElement(find: ElementSpec, sc: Scanner) {
    forall x {:trigger Element(x, sc)} :: find(x) == Element(x, sc)
  }

  lemma ElementStep(find: ElementSpec, spec: ClosingSpec, x: string, sc: Scanner)
    requires IsElement(find, sc) && IsClosing(spec, sc)
    ensures sc.open(x).None? ==> find(x) == None
    ensures sc.open(x).Some? ==>
      var o := sc.open(x).value;
      find(x) == match spec(x[o.end..], 1) { case None => None case Some(e) => Some(Span(o.start, o.end + e)) }
  {
    assert find(x) == Element(x, sc);
    if sc.open(x).Some? {
      var y := x[sc.open(x).value.end..];
      assert spec(y, 1) == Closing(y, sc, 1);
    }
  }

  lemma ElementSkips(find: ElementSpec, spec: ClosingSpec, p: string, x: string, sc: Scanner)
    requires IsElement(find, sc) && IsClosing(spec, sc) && Skips(sc, p, x)
    ensures find(p + x) == Shift(find(x), |p|)
  {
    ElementStep(find, spec, x, sc);
    ElementStep(find, spec, p + x, sc);
    if sc.open(x).Some? {
      DropPrefix(p, x, sc.open(x).value.end);
    }
  }

  lemma ElementAtOpen(find: ElementSpec, spec: ClosingSpec, o: string, x: string, sc: Scanner)
    requires IsElement(find, sc) && IsClosing(spec, sc) && sc.open(o + x) == Some(Span(0, |o|))
    ensures find(o + x) == match spec(x, 1) { case None => None case Some(e) => Some(Span(0, |o| + e)) }
  {
    ElementStep(find, spec, o + x, sc);
    DropPrefix(o, x, 0);
    assert x[0..] == x;
  }

  type BlocksSpec = string -> seq<string>

  ghost predicate IsBlocks(blocks: BlocksSpec, sc: Scanner) {
    forall x {:trigger Blocks(x, sc)} :: blocks(x) == Blocks(x, sc)
  }

  lemma BlocksStep(blocks: BlocksSpec, find: ElementSpec, x: string, sc: Scanner)
    requires IsBlocks(blocks, sc) && IsElement(find, sc)
    ensures find(x).None? ==> blocks(x) == []
    ensures find(x).Some? ==> find(x).value.start < find(x).value.end <= |x|
    ensures find(x).Some? ==> blocks(x) == [Slice(x, find(x).value)] + blocks(x[find(x).value.end..])
  {
    assert find(x) == Element(x, sc) && blocks(x) == Blocks(x, sc);
    if find(x).Some? {
      assert blocks(x[find(x).value.end..]) == Blocks(x[find(x).value.end..], sc);
    }
  }

  lemma SliceBehind(p: string, x: string, sp: Span)
    requires sp.start <= sp.end <= |x|
    ensures Slice(p + x, Span(sp.start + |p|, sp.end + |p|)) == Slice(x, sp)
  {
  }

  lemma BlocksShift(blocks: BlocksSpec, find: ElementSpec, p: string, x: string, sc: Scanner)
    requires IsBlocks(blocks, sc) && IsElement(find, sc) && find(p + x) == Shift(find(x), |p|)
    ensures blocks(p + x) == blocks(x)
  {
    BlocksStep(blocks, find, x, sc);
    BlocksStep(blocks, find, p + x, sc);
    if find(x).Some? {
      DropPrefix(p, x, find(x).value.end);
      SliceBehind(p, x, find(x).value);
    }
  }

  lemma BlocksAtElement(blocks: BlocksSpec, find: ElementSpec, b: string, x: string, sc: Scanner)
    requires IsBlocks(blocks, sc) && IsElement(find, sc)
    ensures find(b + x) == Some(Span(0, |b|)) ==> blocks(b + x) == [b] + blocks(x)
  {
    BlocksStep(blocks, find, b + x, sc);
    assert (b + x)[0..|b|] == b && (b + x)[|b|..] == x;
  }
}
