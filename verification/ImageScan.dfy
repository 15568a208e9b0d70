/** The two regular expressions of the image rewriter as explicit scanners.
    `word` is the class of word characters. */
module ImageScan {
  import opened Base
  import opened Text

  type Word = char -> bool

  datatype Hit = Hit(start: nat, end: nat)

  predicate Letter(c: char, lower: char) {
    c == lower || ('a' <= lower <= 'z' && c as int == lower as int - 32) || (lower == 's' && c == '\U{17F}')
  }

  /** `<img\b` at the front, letters in any case. */
  predicate ImgAhead(x: string, word: Word) {
    && |x| >= 4 && x[0] == '<' && Letter(x[1], 'i') && Letter(x[2], 'm') && Letter(x[3], 'g')
    && (|x| == 4 || !word(x[4]))
  }

  /** End of the tag `<img\b[^>]*?>` at the front. */
  function ImgAt(x: string, word: Word): (r: Option<nat>)
    ensures r.Some? ==> 4 < r.value <= |x|
  {
    if !ImgAhead(x, word) || IndexOf(x, '>').None? then None
    else
      NotInName(x, IndexOf(x, '>').value, word);
      Some(IndexOf(x, '>').value + 1)
  }

  lemma NotInName(x: string, n: nat, word: Word)
    requires ImgAhead(x, word) && n < |x| && x[n] == '>'
    ensures n >= 4
  {
    assert !Letter('>', 'i') && !Letter('>', 'm') && !Letter('>', 'g');
  }

  /** `ImgAt` for one class of word characters, as a value. */
  type At = f: string -> Option<nat> | AtInBounds(f) ghost witness (x: string) => None

  ghost predicate AtInBounds(f: string -> Option<nat>) { forall x :: f(x).Some? ==> 4 < f(x).value <= |x| }

  function AtFor(word: Word): At { (x: string) => ImgAt(x, word) }

  function Shift(r: Option<Hit>, n: nat): Option<Hit> {
    match r
    case None => None
    case Some(h) => Some(Hit(h.start + n, h.end + n))
  }

  /** The first image tag. */
  function FirstImg(x: string, at: At): (r: Option<Hit>)
    ensures r.Some? ==> r.value.start + 4 < r.value.end <= |x|
  {
    if x == "" then None
    else match at(x)
      case Some(e) => Some(Hit(0, e))
      case None => Shift(FirstImg(x[1..], at), 1)
  }

  function QuoteAt(s: string): (r: Option<nat>)
    ensures r.Some? ==> r.value < |s|
  {
    match (IndexOf(s, '\''), IndexOf(s, '"'))
    case (None, q) => q
    case (q, None) => q
    case (Some(a), Some(b)) => Some(if a < b then a else b)
  }

  /** `name\s*=\s*['"]([^'"]*)['"]` at the front, for a name of three letters. */
  function ValueAhead(s: string, name: string): Option<string>
    requires |name| == 3
  {
    if |s| < 3 || !Letter(s[0], name[0]) || !Letter(s[1], name[1]) || !Letter(s[2], name[2]) then None
    else
      var eq := TrimStart(s[3..]);
      if eq == "" || eq[0] != '=' then None
      else
        var quoted := TrimStart(eq[1..]);
        if quoted == "" || (quoted[0] != '\'' && quoted[0] != '"') then None
        else match QuoteAt(quoted[1..])
          case None => None
          case Some(n) => Some(quoted[1..][..n])
  }

  /** First such attribute that starts a word. */
  function AttrValue(s: string, name: string, word: Word, boundary: bool): Option<string>
    requires |name| == 3
  {
    if s == "" then None
    else if boundary && ValueAhead(s, name).Some? then ValueAhead(s, name)
    else AttrValue(s[1..], name, word, !word(s[0]))
  }

  predicate IsRemote(url: string) { "http://" <= Trim(url) || "https://" <= Trim(url) }

  // ── an attribute reads back ──────────────────────────────────────────

  ghost predicate Spaces(s: string) { forall c | c in s :: IsSpace(c) }

  predicate Quote(c: char) { c == '\'' || c == '"' }

  lemma {:induction false} TrimStartSpaces(sp: string, x: string)
    requires Spaces(sp) && x != "" && !IsSpace(x[0])
    ensures TrimStart(sp + x) == x
  {
    if sp == "" {
      assert sp + x == x;
    } else {
      assert (sp + x)[0] == sp[0] && (sp + x)[1..] == sp[1..] + x;
      TrimStartSpaces(sp[1..], x);
    }
  }

  lemma QuoteEnds(value: string, q: char, post: string)
    requires Quote(q) && '\'' !in value && '"' !in value
    ensures QuoteAt(value + ([q] + post)) == Some(|value|)
  {
    IndexOfSkips(value, [q] + post, '\'');
    IndexOfSkips(value, [q] + post, '"');
  }

  /** `="value"` with any spacing. */
  function Assigned(sp1: string, sp2: string, q1: char, value: string, q2: char, post: string): string {
    sp1 + (['='] + (sp2 + ([q1] + (value + ([q2] + post)))))
  }

  lemma ValueReads(name: string, sp1: string, sp2: string, q1: char, value: string, q2: char, post: string)
    requires |name| == 3 && Spaces(sp1) && Spaces(sp2) && Quote(q1) && Quote(q2) && '\'' !in value && '"' !in value
    ensures ValueAhead(name + Assigned(sp1, sp2, q1, value, q2, post), name) == Some(value)
  {
    var quoted := [q1] + (value + ([q2] + post));
    var eq := ['='] + (sp2 + quoted);
    var s := name + (sp1 + eq);
    assert s[0] == name[0] && s[1] == name[1] && s[2] == name[2] && s[3..] == sp1 + eq;
    TrimStartSpaces(sp1, eq);
    assert eq[1..] == sp2 + quoted;
    TrimStartSpaces(sp2, quoted);
    assert quoted[1..] == value + ([q2] + post);
    QuoteEnds(value, q2, post);
    assert (value + ([q2] + post))[..|value|] == value;
  }

  /** A word may start at `i`. */
  predicate Boundary(s: string, i: nat, word: Word)
    requires i <= |s|
  {
    i == 0 || !word(s[i - 1])
  }

  /** No attribute of this name starts in the first `n` characters. */
  ghost predicate NoneBefore(s: string, n: nat, name: string, word: Word)
    requires |name| == 3 && n <= |s|
  {
    forall i | 0 <= i < n && Boundary(s, i, word) :: ValueAhead(s[i..], name).None?
  }

  lemma {:induction false} AttrSkips(s: string, i: nat, n: nat, name: string, word: Word)
    requires |name| == 3 && i <= n <= |s| && NoneBefore(s, n, name, word)
    ensures AttrValue(s[i..], name, word, Boundary(s, i, word)) == AttrValue(s[n..], name, word, Boundary(s, n, word))
    decreases n - i
  {
    if i < n {
      assert s[i..][1..] == s[i + 1..] && s[i..][0] == s[i];
      AttrSkips(s, i + 1, n, name, word);
    }
  }

  /** The first attribute of this name that starts a word is read, whatever
      quotes and spacing it is written with. */
  lemma AttrReads(pre: string, name: string, sp1: string, sp2: string, q1: char, value: string, q2: char,
                  post: string, word: Word)
    requires |name| == 3 && (pre == "" || !word(pre[|pre| - 1]))
    requires Spaces(sp1) && Spaces(sp2) && Quote(q1) && Quote(q2) && '\'' !in value && '"' !in value
    requires NoneBefore(pre + (name + Assigned(sp1, sp2, q1, value, q2, post)), |pre|, name, word)
    ensures AttrValue(pre + (name + Assigned(sp1, sp2, q1, value, q2, post)), name, word, true) == Some(value)
  {
    var rest := name + Assigned(sp1, sp2, q1, value, q2, post);
    var s := pre + rest;
    assert s[0..] == s && s[|pre|..] == rest;
    AttrSkips(s, 0, |pre|, name, word);
    ValueReads(name, sp1, sp2, q1, value, q2, post);
    ReadHere(rest, name, word);
  }

  lemma ReadHere(s: string, name: string, word: Word)
    requires |name| == 3 && ValueAhead(s, name).Some?
    ensures AttrValue(s, name, word, true) == ValueAhead(s, name)
  {
  }

  // ── what a match depends on ──────────────────────────────────────────

  ghost predicate IsAt(at: At, word: Word) { forall x {:trigger ImgAt(x, word)} :: at(x) == ImgAt(x, word) }

  /** No image tag starts inside `p` when `x` follows it. */
  ghost predicate Silent(p: string, x: string, at: At) { p == "" || (at(p + x).None? && Silent(p[1..], x, at)) }

  lemma {:induction false} SilentSkips(p: string, x: string, at: At)
    requires Silent(p, x, at)
    ensures FirstImg(p + x, at) == Shift(FirstImg(x, at), |p|)
  {
    if p == "" {
      assert p + x == x;
    } else {
      assert (p + x)[1..] == p[1..] + x;
      SilentSkips(p[1..], x, at);
    }
  }

  lemma ImgAheadIsLocal(q: string, y: string, z: string, word: Word)
    requires q != "" && y != "" && z != "" && y[0] == '<' && z[0] == '<'
    ensures ImgAhead(q + y, word) == ImgAhead(q + z, word)
  {
    assert forall i | 0 <= i < |q| :: (q + y)[i] == (q + z)[i];
    assert (q + y)[|q|] == '<' == (q + z)[|q|];
  }

  /** Whether a tag starts here is decided before the next `<`, if a `>` follows. */
  lemma ImgAtIsLocal(q: string, y: string, z: string, at: At, word: Word)
    requires IsAt(at, word) && q != "" && y != "" && z != "" && y[0] == '<' && z[0] == '<' && '>' in y
    ensures at(q + y).None? ==> at(q + z).None?
  {
    assert at(q + y) == ImgAt(q + y, word) && at(q + z) == ImgAt(q + z, word);
    ImgAheadIsLocal(q, y, z, word);
    assert '>' in q + y;
  }

  lemma {:induction false} SilentIsLocal(p: string, y: string, z: string, at: At, word: Word)
    requires IsAt(at, word) && Silent(p, y, at) && y != "" && z != "" && y[0] == '<' && z[0] == '<' && '>' in y
    ensures Silent(p, z, at)
  {
    if p != "" {
      ImgAtIsLocal(p, y, z, at, word);
      SilentIsLocal(p[1..], y, z, at, word);
    }
  }

  lemma NoTagHere(x: string, at: At, word: Word)
    requires IsAt(at, word) && x != "" && (x[0] != '<' || (|x| > 1 && !Letter(x[1], 'i')))
    ensures at(x).None?
  {
    assert at(x) == ImgAt(x, word);
  }

  lemma {:induction false} NoTagNoMatch(p: string, x: string, at: At, word: Word)
    requires IsAt(at, word) && '<' !in p
    ensures Silent(p, x, at)
  {
    if p != "" {
      assert (p + x)[0] == p[0];
      NoTagHere(p + x, at, word);
      NoTagNoMatch(p[1..], x, at, word);
    }
  }

  lemma {:induction false} SilentAppend(p: string, q: string, x: string, at: At)
    requires Silent(p, q + x, at) && Silent(q, x, at)
    ensures Silent(p + q, x, at)
  {
    if p == "" {
      assert p + q == q;
    } else {
      assert (p + q) + x == p + (q + x) && (p + q)[1..] == p[1..] + q;
      SilentAppend(p[1..], q, x, at);
    }
  }

  /** An image tag: `<img\b`, then up to its own `>`. */
  ghost predicate IsTag(t: string, word: Word) { |t| > 4 && ImgAhead(t, word) && IndexOf(t, '>') == Some(|t| - 1) }

  lemma TagMatches(t: string, x: string, at: At, word: Word)
    requires IsAt(at, word) && IsTag(t, word)
    ensures at(t + x) == Some(|t|)
  {
    assert at(t + x) == ImgAt(t + x, word);
    assert forall i | 0 <= i < |t| :: (t + x)[i] == t[i];
    var n := |t| - 1;
    assert t + x == t[..n] + ([t[n]] + x);
    IndexOfSkips(t[..n], [t[n]] + x, '>');
  }

  lemma TagOfFront(x: string, word: Word)
    requires ImgAt(x, word).Some?
    ensures IsTag(x[..ImgAt(x, word).value], word)
  {
    var n := IndexOf(x, '>').value;
    var t := x[..n + 1];
    assert t == x[..n] + ['>'];
    IndexOfSkips(x[..n], ['>'], '>');
    assert forall i | 0 <= i < |t| :: t[i] == x[i];
  }

  /** Whatever holds of a tag at the front holds of the match found… */
  lemma {:induction false} FirstImgHas(x: string, at: At, has: string -> bool)
    requires forall y {:trigger at(y)} :: at(y).Some? ==> has(y[0..at(y).value])
    requires FirstImg(x, at).Some?
    ensures var h := FirstImg(x, at).value; has(x[h.start..h.end])
  {
    if at(x).None? {
      FirstImgHas(x[1..], at, has);
      var h := FirstImg(x[1..], at).value;
      ShiftedSlices(x, h.start, h.end);
    }
  }

  /** …so it is a tag… */
  lemma FirstImgIsTag(x: string, at: At, word: Word)
    requires IsAt(at, word) && FirstImg(x, at).Some?
    ensures var h := FirstImg(x, at).value; IsTag(x[h.start..h.end], word)
  {
    forall y | at(y).Some?
      ensures IsTag(y[0..at(y).value], word)
    {
      FrontIsTag(y, at, word);
    }
    FirstImgHas(x, at, (t: string) => IsTag(t, word));
  }

  /** …and nothing before it starts one. */
  lemma {:induction false} FirstImgIsFirst(x: string, at: At)
    requires FirstImg(x, at).Some?
    ensures var h := FirstImg(x, at).value; Silent(x[..h.start], x[h.start..], at)
  {
    if at(x).None? {
      FirstImgIsFirst(x[1..], at);
      SilentFromTail(x, FirstImg(x[1..], at).value.start, at);
    }
  }

  lemma FrontIsTag(x: string, at: At, word: Word)
    requires IsAt(at, word) && at(x).Some?
    ensures IsTag(x[0..at(x).value], word)
  {
    assert at(x) == ImgAt(x, word);
    TagOfFront(x, word);
    assert x[0..at(x).value] == x[..at(x).value];
  }

  lemma SilentFromTail(x: string, i: nat, at: At)
    requires i < |x| && at(x).None? && Silent(x[1..][..i], x[1..][i..], at)
    ensures Silent(x[..i + 1], x[i + 1..], at)
  {
    ShiftedSlices(x, i, i);
  }

  lemma ShiftedSlices(x: string, i: nat, j: nat)
    requires i <= j < |x|
    ensures x[1..][i..j] == x[i + 1..j + 1] && x[1..][i..] == x[i + 1..] && x[..i + 1][1..] == x[1..][..i]
    ensures x[..i + 1] + x[i + 1..] == x
  {
  }
}
