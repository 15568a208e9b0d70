/** The scanner's loops, each proved against the function it computes. The
    `spec` parameters are those functions as values: a loop's proof then unfolds
    them only through the step lemmas. */
module XmlLoops {
  import opened Base
  import opened Text
  import opened XmlTags
  import opened XmlNesting

  type FinderSpec = string -> Option<Span>

  ghost predicate IsFindOpen(spec: FinderSpec, tag: string) {
    forall x {:trigger FindOpen(x, tag)} :: spec(x) == FindOpen(x, tag)
  }

  ghost predicate IsFindClose(spec: FinderSpec, tag: string) {
    forall x {:trigger FindClose(x, tag)} :: spec(x) == FindClose(x, tag)
  }

  lemma OpenSkipsChars(spec: FinderSpec, x: string, tag: string, from: nat, to: nat)
    requires IsFindOpen(spec, tag) && from <= to <= |x| && '<' !in x[from..to]
    ensures spec(x[from..]) == Shift(spec(x[to..]), to - from)
  {
    assert x[from..] == x[from..to] + x[to..];
    CharsAreQuiet(x[from..to], x[to..], tag);
    QuietShiftsOpen(x[from..to], x[to..], tag);
  }

  lemma OpenHereOrLater(spec: FinderSpec, x: string, tag: string)
    requires IsFindOpen(spec, tag)
    ensures x == "" ==> spec(x) == None
    ensures x != "" && OpenAt(x, tag).Some? ==> spec(x) == Some(Span(0, OpenAt(x, tag).value))
    ensures x != "" && OpenAt(x, tag).None? ==> spec(x) == Shift(spec(x[1..]), 1)
  {
    if x == "" {
      assert FindOpen(x, tag) == None;
    } else if OpenAt(x, tag).None? {
      assert FindOpen(x, tag) == Shift(FindOpen(x[1..], tag), 1);
    } else {
      assert FindOpen(x, tag) == Some(Span(0, OpenAt(x, tag).value));
    }
  }

  lemma DropTwice(x: string, i: nat, j: nat)
    requires i + j <= |x|
    ensures x[i..][j..] == x[i + j..]
  {
  }

  /** The next `<`, and what it means for the search. */
  method NextOpener(x: string, tag: string, from: nat, ghost spec: FinderSpec) returns (start: Option<nat>)
    requires IsFindOpen(spec, tag) && from <= |x|
    ensures start.None? ==> spec(x[from..]) == None
    ensures start.Some? ==>
              from <= start.value < |x| && spec(x[from..]) == Shift(spec(x[start.value..]), start.value - from)
  {
    var lt := IndexOf(x[from..], '<');
    if lt.None? {
      assert x[from..|x|] == x[from..];
      OpenSkipsChars(spec, x, tag, from, |x|);
      OpenHereOrLater(spec, x[|x|..], tag);
      return None;
    }
    assert x[from..][..lt.value] == x[from..from + lt.value];
    OpenSkipsChars(spec, x, tag, from, from + lt.value);
    start := Some(from + lt.value);
  }

  /** `find_open`: jump to each `<`, test the tag there, resume behind the `<`. */
  method FindOpenLoop(x: string, tag: string, ghost spec: FinderSpec) returns (r: Option<Span>)
    requires IsFindOpen(spec, tag)
    ensures r == spec(x)
  {
    var from := 0;
    assert x[0..] == x;
    while true
      invariant from <= |x|
      invariant spec(x) == Shift(spec(x[from..]), from)
      decreases |x| - from
    {
      var next := NextOpener(x, tag, from, spec);
      if next.None? {
        return None;
      }
      var start := next.value;
      OpenHereOrLater(spec, x[start..], tag);
      var end := OpenAt(x[start..], tag);
      if end.Some? {
        return Some(Span(start, start + end.value));
      }
      DropTwice(x, start, 1);
      from := start + 1;
    }
  }

  method FindOpenTag(x: string, tag: string) returns (r: Option<Span>)
    ensures r == FindOpen(x, tag)
  {
    r := FindOpenLoop(x, tag, y => FindOpen(y, tag));
  }

  lemma CloseHereOrLater(spec: FinderSpec, x: string, tag: string)
    requires IsFindClose(spec, tag)
    ensures x == "" ==> spec(x) == None
    ensures x != "" && CloseAt(x, tag).Some? ==> spec(x) == Some(Span(0, CloseAt(x, tag).value))
    ensures x != "" && CloseAt(x, tag).None? ==> spec(x) == Shift(spec(x[1..]), 1)
  {
    if x == "" {
      assert FindClose(x, tag) == None;
    } else if CloseAt(x, tag).None? {
      assert FindClose(x, tag) == Shift(FindClose(x[1..], tag), 1);
    } else {
      assert FindClose(x, tag) == Some(Span(0, CloseAt(x, tag).value));
    }
  }

  lemma {:induction false} CloseSkipsToCloser(spec: FinderSpec, x: string, tag: string)
    requires IsFindClose(spec, tag)
    ensures IndexOfSub(x, "</").None? ==> spec(x) == None
    ensures IndexOfSub(x, "</").Some? ==>
              var i := IndexOfSub(x, "</").value; "</" <= x[i..] && spec(x) == Shift(spec(x[i..]), i)
    decreases |x|
  {
    if x == "" {
      CloseHereOrLater(spec, x, tag);
    } else if "</" <= x {
      assert x[0..] == x;
    } else {
      NoCloserHere(spec, x, tag);
      CloseSkipsToCloser(spec, x[1..], tag);
      var r := IndexOfSub(x[1..], "</");
      if r.Some? {
        DropTwice(x, 1, r.value);
      }
    }
  }

  lemma NoCloserHere(spec: FinderSpec, x: string, tag: string)
    requires IsFindClose(spec, tag) && x != "" && !("</" <= x)
    ensures spec(x) == Shift(spec(x[1..]), 1)
  {
    CloseHereOrLater(spec, x, tag);
  }

  /** A `</` that does not match is passed together with its slash. */
  lemma CloserResumes(spec: FinderSpec, x: string, tag: string)
    requires IsFindClose(spec, tag) && "</" <= x && CloseAt(x, tag).None?
    ensures spec(x) == Shift(spec(x[2..]), 2)
  {
    CloseHereOrLater(spec, x, tag);
    assert x[1..][0] == '/';
    CloseHereOrLater(spec, x[1..], tag);
    DropTwice(x, 1, 1);
  }

  /** At a `</`: a hit, or on behind it. */
  lemma CloserHere(spec: FinderSpec, y: string, tag: string)
    requires IsFindClose(spec, tag) && "</" <= y
    ensures CloseAt(y, tag).Some? ==> spec(y) == Some(Span(0, CloseAt(y, tag).value))
    ensures CloseAt(y, tag).None? ==> spec(y) == Shift(spec(y[2..]), 2)
  {
    CloseHereOrLater(spec, y, tag);
    if CloseAt(y, tag).None? {
      CloserResumes(spec, y, tag);
    }
  }

  /** The next `</`, and what it means for the search. */
  method NextCloser(x: string, tag: string, from: nat, ghost spec: FinderSpec) returns (start: Option<nat>)
    requires IsFindClose(spec, tag) && from <= |x|
    ensures start.None? ==> spec(x[from..]) == None
    ensures start.Some? ==> from <= start.value && start.value + 2 <= |x| && "</" <= x[start.value..]
    ensures start.Some? ==> spec(x[from..]) == Shift(spec(x[start.value..]), start.value - from)
  {
    var lt := IndexOfSub(x[from..], "</");
    CloseSkipsToCloser(spec, x[from..], tag);
    if lt.None? {
      return None;
    }
    DropTwice(x, from, lt.value);
    start := Some(from + lt.value);
  }

  /** `find_close`: jump to each `</`, test the tag there, resume behind it. */
  method FindCloseLoop(x: string, tag: string, ghost spec: FinderSpec) returns (r: Option<Span>)
    requires IsFindClose(spec, tag)
    ensures r == spec(x)
  {
    var from := 0;
    assert x[0..] == x;
    while true
      invariant from <= |x|
      invariant spec(x) == Shift(spec(x[from..]), from)
      decreases |x| - from
    {
      var next := NextCloser(x, tag, from, spec);
      if next.None? {
        return None;
      }
      var start := next.value;
      CloserHere(spec, x[start..], tag);
      var end := CloseAt(x[start..], tag);
      if end.Some? {
        return Some(Span(start, start + end.value));
      }
      DropTwice(x, start, 2);
      from := start + 2;
    }
  }

  method FindCloseTag(x: string, tag: string) returns (r: Option<Span>)
    ensures r == FindClose(x, tag)
  {
    r := FindCloseLoop(x, tag, y => FindClose(y, tag));
  }

  /** One more hop of the search leaves it where the whole search ends. */
  lemma HopOn(spec: ClosingSpec, x: string, from: nat, pos: nat, depth: nat, n: nat, depth': nat)
    requires from <= pos && pos + n <= |x|
    requires spec(x[from..], 1) == ShiftEnd(spec(x[pos..], depth), pos - from)
    requires spec(x[pos..], depth) == ShiftEnd(spec(x[pos..][n..], depth'), n)
    ensures spec(x[from..], 1) == ShiftEnd(spec(x[pos + n..], depth'), pos + n - from)
  {
    DropTwice(x, pos, n);
    ShiftEndTwice(spec(x[pos + n..], depth'), n, pos - from);
  }

  /** The counting loop of `element`, from just behind the first opening tag. */
  method CountDepth(x: string, sc: Scanner, from: nat, ghost spec: ClosingSpec) returns (r: Option<nat>)
    requires from <= |x| && IsClosing(spec, sc)
    ensures r == ShiftEnd(spec(x[from..], 1), from)
  {
    var pos, depth := from, 1;
    while depth > 0
      invariant from <= pos <= |x| && 1 <= depth
      invariant spec(x[from..], 1) == ShiftEnd(spec(x[pos..], depth), pos - from)
      decreases |x| - pos
    {
      var open, close := sc.open(x[pos..]), sc.close(x[pos..]);
      if ClosesFirst(open, close) {
        ClosingAfterClose(spec, x[pos..], sc, depth);
        depth := depth - 1;
        if depth == 0 {
          return Some(pos + close.value.end);
        }
        HopOn(spec, x, from, pos, depth + 1, close.value.end, depth);
        pos := pos + close.value.end;
      } else if open.Some? {
        ClosingAfterOpen(spec, x[pos..], sc, depth);
        HopOn(spec, x, from, pos, depth, open.value.start + 1, depth + 1);
        depth := depth + 1;
        pos := pos + open.value.start + 1;
      } else {
        ClosingNowhere(spec, x[pos..], sc, depth);
        return None;
      }
    }
    return None;
  }

  /** `element`. */
  method FindElement(x: string, sc: Scanner) returns (r: Option<Span>)
    ensures r == Element(x, sc)
  {
    var first := sc.open(x);
    if first.None? {
      return None;
    }
    var end := CountDepth(x, sc, first.value.end, (y, d) => if d == 0 then None else Closing(y, sc, d));
    r := if end.None? then None else Some(Span(first.value.start, end.value));
  }

  /** `response_blocks`: cut off element after element. */
  method ResponseBlocks(x: string, sc: Scanner) returns (out: seq<string>)
    ensures out == Blocks(x, sc)
  {
    out := [];
    var rest := x;
    while true
      invariant out + Blocks(rest, sc) == Blocks(x, sc)
      decreases |rest|
    {
      var e := FindElement(rest, sc);
      if e.None? {
        return;
      }
      out := out + [rest[e.value.start..e.value.end]];
      rest := rest[e.value.end..];
    }
  }
}
