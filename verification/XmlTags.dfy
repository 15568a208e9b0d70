/** The tolerant WebDAV tag scanner. Offsets count characters; every delimiter
    it looks for is ASCII, so byte offsets would tell the same story. */
module XmlTags {
  import opened Base
  import opened Text

  datatype Span = Span(start: nat, end: nat)

  function Shift(r: Option<Span>, n: nat): Option<Span> {
    match r
    case None => None
    case Some(sp) => Some(Span(sp.start + n, sp.end + n))
  }

  function ShiftEnd(r: Option<nat>, n: nat): Option<nat> {
    match r
    case None => None
    case Some(e) => Some(e + n)
  }

  /** `rsplit(':').next()`: what follows the last colon. */
  function AfterColon(s: string): (r: string)
    ensures |r| <= |s|
  {
    match IndexOf(s, ':')
    case None => s
    case Some(i) => AfterColon(s[i + 1..])
  }

  function Word(s: string): string { if s == "" || IsSpace(s[0]) then "" else [s[0]] + Word(s[1..]) }

  function TrimSlashes(s: string): (r: string)
    ensures r <= s
  {
    if s != "" && s[|s| - 1] == '/' then TrimSlashes(s[..|s| - 1]) else s
  }

  /** Local name of an opening tag's inside: first word, no trailing slashes, no prefix. */
  function OpenLocal(inside: string): string { AfterColon(TrimSlashes(Word(TrimStart(inside)))) }

  /** End of the opening tag that starts right here, if its local name is `tag`. */
  function OpenAt(x: string, tag: string): (r: Option<nat>)
    ensures r.Some? ==> 1 < r.value <= |x|
  {
    if x == "" || x[0] != '<' || (1 < |x| && x[1] == '/') then None
    else match IndexOf(x, '>')
      case None => None
      case Some(gt) => if OpenLocal(x[1..gt]) == tag then Some(gt + 1) else None
  }

  /** End of the closing tag that starts right here, if its local name is `tag`. */
  function CloseAt(x: string, tag: string): (r: Option<nat>)
    ensures r.Some? ==> 2 < r.value <= |x|
  {
    if |x| < 2 || x[0] != '<' || x[1] != '/' then None
    else match IndexOf(x, '>')
      case None => None
      case Some(gt) => if AfterColon(x[2..gt]) == tag then Some(gt + 1) else None
  }

  function FindOpen(x: string, tag: string): (r: Option<Span>)
    ensures r.Some? ==> r.value.start + 1 < r.value.end <= |x|
  {
    if x == "" then None
    else match OpenAt(x, tag)
      case Some(e) => Some(Span(0, e))
      case None => Shift(FindOpen(x[1..], tag), 1)
  }

  function FindClose(x: string, tag: string): (r: Option<Span>)
    ensures r.Some? ==> r.value.start + 2 < r.value.end <= |x|
  {
    if x == "" then None
    else match CloseAt(x, tag)
      case Some(e) => Some(Span(0, e))
      case None => Shift(FindClose(x[1..], tag), 1)
  }

  // ── skipping what is not a matching tag ──────────────────────────────

  predicate NoTagAt(x: string, tag: string) { OpenAt(x, tag).None? && CloseAt(x, tag).None? }

  /** No matching tag starts inside `p` when `x` follows it. */
  predicate Quiet(p: string, x: string, tag: string) { p == "" || (NoTagAt(p + x, tag) && Quiet(p[1..], x, tag)) }

  lemma {:induction false} QuietShiftsOpen(p: string, x: string, tag: string)
    requires Quiet(p, x, tag)
    ensures FindOpen(p + x, tag) == Shift(FindOpen(x, tag), |p|)
  {
    if p == "" {
      assert p + x == x;
    } else {
      assert (p + x)[1..] == p[1..] + x;
      QuietShiftsOpen(p[1..], x, tag);
    }
  }

  lemma {:induction false} QuietShiftsClose(p: string, x: string, tag: string)
    requires Quiet(p, x, tag)
    ensures FindClose(p + x, tag) == Shift(FindClose(x, tag), |p|)
  {
    if p == "" {
      assert p + x == x;
    } else {
      assert (p + x)[1..] == p[1..] + x;
      QuietShiftsClose(p[1..], x, tag);
    }
  }

  function OpenTag(name: string, attrs: string): string { "<" + (name + attrs) + ">" }

  function CloseTag(name: string): string { "</" + name + ">" }

  predicate NoAngles(s: string) { '<' !in s && '>' !in s }

  predicate NameOk(name: string) {
    name != "" && NoAngles(name) && name[0] != '/' && name[|name| - 1] != '/'
    && forall i | 0 <= i < |name| :: !IsSpace(name[i])
  }

  predicate AttrsOk(attrs: string) { NoAngles(attrs) && (attrs == "" || IsSpace(attrs[0])) }

  lemma {:induction false} WordStopsAtSpace(name: string, attrs: string)
    requires forall i | 0 <= i < |name| :: !IsSpace(name[i])
    requires attrs == "" || IsSpace(attrs[0])
    ensures Word(name + attrs) == name
  {
    if name == "" {
      assert name + attrs == attrs;
    } else {
      assert (name + attrs)[1..] == name[1..] + attrs;
      WordStopsAtSpace(name[1..], attrs);
    }
  }

  lemma OpenLocalOfTag(name: string, attrs: string)
    requires NameOk(name) && AttrsOk(attrs)
    ensures OpenLocal(name + attrs) == AfterColon(name)
  {
    WordStopsAtSpace(name, attrs);
  }

  /** First `>` of `<inside>…`. */
  lemma TagEnds(inside: string, x: string)
    requires '>' !in inside
    ensures IndexOf("<" + inside + ">" + x, '>') == Some(1 + |inside|)
    ensures ("<" + inside + ">" + x)[1..1 + |inside|] == inside
  {
    var head := "<" + inside;
    assert "<" + inside + ">" + x == head + (">" + x);
    IndexOfSkips(head, ">" + x, '>');
  }

  lemma {:induction false} CharsAreQuiet(t: string, x: string, tag: string)
    requires '<' !in t
    ensures Quiet(t, x, tag)
  {
    if t != "" {
      assert (t + x)[0] == t[0];
      CharsAreQuiet(t[1..], x, tag);
    }
  }

  /** Only the first character of `<inside>` can start a tag. */
  lemma TagIsQuietIfHeadIs(inside: string, x: string, tag: string)
    requires '<' !in inside && NoTagAt("<" + inside + ">" + x, tag)
    ensures Quiet("<" + inside + ">", x, tag)
  {
    var p := "<" + inside + ">";
    assert p[1..] == inside + ">";
    CharsAreQuiet(inside + ">", x, tag);
  }

  lemma OpenTagScanned(inside: string, x: string, tag: string)
    requires NoAngles(inside) && (inside == "" || inside[0] != '/')
    ensures OpenLocal(inside) == tag ==> OpenAt("<" + inside + ">" + x, tag) == Some(|inside| + 2)
    ensures OpenLocal(inside) != tag ==> Quiet("<" + inside + ">", x, tag)
    ensures CloseAt("<" + inside + ">" + x, tag).None?
  {
    TagEnds(inside, x);
    var y := "<" + inside + ">" + x;
    assert y[1] == if inside == "" then '>' else inside[0];
    if OpenLocal(inside) != tag {
      TagIsQuietIfHeadIs(inside, x, tag);
    }
  }

  lemma CloseTagScanned(name: string, x: string, tag: string)
    requires NoAngles(name)
    ensures AfterColon(name) == tag ==> CloseAt(CloseTag(name) + x, tag) == Some(|name| + 3)
    ensures AfterColon(name) != tag ==> Quiet(CloseTag(name), x, tag)
    ensures OpenAt(CloseTag(name) + x, tag).None?
  {
    var inside := "/" + name;
    TagEnds(inside, x);
    var y := "<" + inside + ">" + x;
    assert CloseTag(name) == "<" + inside + ">";
    assert y[1] == '/';
    assert y[2..1 + |inside|] == name;
    if AfterColon(name) != tag {
      TagIsQuietIfHeadIs(inside, x, tag);
    }
  }
}
