/** Blocking remote images, for any search of image tags and any policy, and for
    the ones in use. */
module ImageRewrite {
  import opened Base
  import opened Text
  import opened ImageScan
  import XmlText

  function EscapeAttr(s: string): string {
    XmlText.Replace(XmlText.Replace(XmlText.Replace(s, "&", "&amp;"), "\"", "&quot;"), "<", "&lt;")
  }

  /** The title of the placeholder. */
  function TitleOf(attrs: string, word: Word): string {
    var alt := AttrValue(attrs, "alt", word, true);
    EscapeAttr(if alt.Some? && Trim(alt.value) != "" then Trim(alt.value) else "Image")
  }

  /** For the inside of an image tag: what to put in its place, or none to keep it. */
  type Policy = string -> Option<string>

  function BlockRemote(word: Word): Policy {
    (attrs: string) =>
      var src := AttrValue(attrs, "src", word, true);
      if src.Some? && IsRemote(src.value) then Some(Placeholder(TitleOf(attrs, word))) else None
  }

  const NAME: string := "span data-lyra-blocked-img="
  const CLASS: string := "\"1\" class=\"lyra-blocked-img"
  const TITLE: string := "\" title=\""
  const MIDDLE: string := "\" aria-label=\""
  const CLOSING: string := "\">[Image]"

  const END: string := "/span>"

  function Inside(title: string): string {
    NAME + (CLASS + (TITLE + (title + (MIDDLE + (title + CLOSING)))))
  }

  function Placeholder(title: string): string { "<" + (Inside(title) + ("<" + END)) }

  function AttrsOf(tag: string): string
    requires |tag| > 4
  {
    tag[4..|tag| - 1]
  }

  function Replacement(tag: string, policy: Policy): string
    requires |tag| > 4
  {
    var instead := policy(AttrsOf(tag));
    if instead.Some? then instead.value else tag
  }

  // ── the document as text and image tags ──────────────────────────────

  ghost predicate InBounds(find: string -> Option<Hit>) {
    forall x :: find(x).Some? ==> find(x).value.start + 4 < find(x).value.end <= |x|
  }

  /** The search for the first image tag. */
  type Finder = f: string -> Option<Hit> | InBounds(f) ghost witness (x: string) => None

  function ImgFinder(at: At): Finder { (x: string) => FirstImg(x, at) }

  type Tag = t: string | |t| > 4 witness "<img>"

  datatype Doc = Tail(text: string) | Image(text: string, tag: Tag, rest: Doc)

  /** Text up to each image tag, the tag, and so on. */
  function Cut(x: string, find: Finder): Doc
    decreases |x|
  {
    match find(x)
    case None => Tail(x)
    case Some(h) => Image(x[..h.start], x[h.start..h.end], Cut(x[h.end..], find))
  }

  function Source(d: Doc): string {
    match d
    case Tail(text) => text
    case Image(text, tag, rest) => text + (tag + Source(rest))
  }

  /** The same text with the blocked tags replaced. */
  function Output(d: Doc, policy: Policy): string {
    match d
    case Tail(text) => text
    case Image(text, tag, rest) => text + (Replacement(tag, policy) + Output(rest, policy))
  }

  predicate Blocks(d: Doc, policy: Policy) {
    match d
    case Tail(_) => false
    case Image(_, tag, rest) => policy(AttrsOf(tag)).Some? || Blocks(rest, policy)
  }

  datatype Rewritten = Rewritten(html: string, blocked: bool)

  function Rewrite(html: string, find: Finder, policy: Policy): Rewritten {
    var d := Cut(html, find); Rewritten(Output(d, policy), Blocks(d, policy))
  }

  /** Text up to a hit, the tag or its placeholder, and the rest as rewritten. */
  function Combine(x: string, h: Hit, rest: Rewritten, policy: Policy): Rewritten
    requires h.start + 4 < h.end <= |x|
  {
    var tag := x[h.start..h.end];
    Rewritten(x[..h.start] + (Replacement(tag, policy) + rest.html), policy(AttrsOf(tag)).Some? || rest.blocked)
  }

  lemma RewriteStep(x: string, find: Finder, policy: Policy)
    ensures find(x).None? ==> Rewrite(x, find, policy) == Rewritten(x, false)
    ensures find(x).Some? ==>
      Rewrite(x, find, policy) == Combine(x, find(x).value, Rewrite(x[find(x).value.end..], find, policy), policy)
  {
  }

  lemma AppendThree(out: string, a: string, b: string, c: string)
    ensures out + (a + (b + c)) == ((out + a) + b) + c && out + (a + (b + c)) == (out + a) + (b + c)
  {
  }

  /** `rewrite_blocked`, for any search and policy. */
  method RewriteWith(html: string, find: Finder, policy: Policy) returns (r: Rewritten)
    ensures r == Rewrite(html, find, policy)
  {
    var blocked, out, rest := false, "", html;
    RewriteStep(rest, find, policy);
    while find(rest).Some?
      invariant out + Rewrite(rest, find, policy).html == Rewrite(html, find, policy).html
      invariant (blocked || Rewrite(rest, find, policy).blocked) == Rewrite(html, find, policy).blocked
      decreases |rest|
    {
      RewriteStep(rest, find, policy);
      ghost var before := out;
      var h := find(rest).value;
      var tag := rest[h.start..h.end];
      out := out + rest[..h.start];
      if policy(AttrsOf(tag)).Some? {
        blocked := true;
      }
      out := out + Replacement(tag, policy);
      AppendThree(before, rest[..h.start], Replacement(tag, policy), Rewrite(rest[h.end..], find, policy).html);
      rest := rest[h.end..];
    }
    RewriteStep(rest, find, policy);
    r := Rewritten(out + rest, blocked);
  }

  method RewriteBlocked(html: string, word: Word) returns (r: Rewritten)
    ensures r == BlockImages(html, word)
  {
    r := RewriteWith(html, ImgFinder(AtFor(word)), BlockRemote(word));
  }

  /** The pieces are the document. */
  lemma {:induction false} CutKeepsText(x: string, find: Finder)
    ensures Source(Cut(x, find)) == x
    decreases |x|
  {
    var h := find(x);
    if h.Some? {
      CutKeepsText(x[h.value.end..], find);
    }
  }

  // ── blocking is idempotent ───────────────────────────────────────────

  ghost predicate Finds(find: Finder, at: At) { forall x {:trigger FirstImg(x, at)} :: find(x) == FirstImg(x, at) }

  /** A piece that holds no image tag, whatever follows. */
  ghost predicate Inert(p: string, at: At) {
    |p| > 1 && p[0] == '<' && p[1] == 's' && forall x {:trigger Silent(p, x, at)} :: Silent(p, x, at)
  }

  ghost predicate Harmless(policy: Policy, at: At) {
    forall a {:trigger policy(a)} :: policy(a).Some? ==> Inert(policy(a).value, at)
  }

  ghost predicate Skips(find: Finder, p: string, x: string) { find(p + x) == Shift(find(x), |p|) }

  lemma PrefixedSlices(p: string, x: string, i: nat, j: nat)
    requires i <= j <= |x|
    ensures (p + x)[|p| + j..] == x[j..] && (p + x)[..|p| + i] == p + x[..i] && (p + x)[|p| + i..|p| + j] == x[i..j]
  {
  }

  function Prepend(p: string, d: Doc): Doc { d.(text := p + d.text) }

  lemma CutBehind(p: string, x: string, find: Finder)
    requires Skips(find, p, x)
    ensures Cut(p + x, find) == Prepend(p, Cut(x, find))
  {
    if find(x).Some? {
      PrefixedSlices(p, x, find(x).value.start, find(x).value.end);
    }
  }

  lemma OutputPrepend(p: string, d: Doc, policy: Policy)
    ensures Output(Prepend(p, d), policy) == p + Output(d, policy) && Blocks(Prepend(p, d), policy) == Blocks(d, policy)
  {
    if d.Image? {
      AppendThree(p, d.text, Replacement(d.tag, policy), Output(d.rest, policy));
    }
  }

  lemma RewriteBehind(p: string, x: string, find: Finder, policy: Policy)
    requires Skips(find, p, x)
    ensures var r := Rewrite(x, find, policy); Rewrite(p + x, find, policy) == Rewritten(p + r.html, r.blocked)
  {
    CutBehind(p, x, find);
    OutputPrepend(p, Cut(x, find), policy);
  }

  /** The rewriter as a value, known by its single steps. */
  type Rewriter = string -> Rewritten

  ghost predicate StepAt(rw: Rewriter, find: Finder, policy: Policy, x: string) {
    match find(x)
    case None => rw(x) == Rewritten(x, false)
    case Some(h) => rw(x) == Combine(x, h, rw(x[h.end..]), policy)
  }

  ghost predicate Passes(rw: Rewriter, find: Finder, p: string, x: string) {
    Skips(find, p, x) ==> rw(p + x) == Rewritten(p + rw(x).html, rw(x).blocked)
  }

  ghost predicate Steps(rw: Rewriter, find: Finder, policy: Policy) {
    && (forall x {:trigger StepAt(rw, find, policy, x)} :: StepAt(rw, find, policy, x))
    && (forall p, x {:trigger Passes(rw, find, p, x)} :: Passes(rw, find, p, x))
  }

  lemma KeptTagStays(t: Tag, x: string, rw: Rewriter, find: Finder, policy: Policy)
    requires Steps(rw, find, policy) && find(t + x) == Some(Hit(0, |t|)) && policy(AttrsOf(t)).None?
    ensures rw(t + x) == Rewritten(t + rw(x).html, rw(x).blocked)
  {
    assert StepAt(rw, find, policy, t + x);
    assert (t + x)[0..|t|] == t && (t + x)[|t|..] == x;
    assert (t + x)[..0] == "";
  }

  lemma PartsLackTags()
    ensures '<' !in NAME && '<' !in CLASS && '<' !in TITLE && '<' !in MIDDLE && '<' !in CLOSING && NAME[0] == 's'
    ensures '<' !in END && END[0] == '/'
  {
  }

  lemma InsideLacksTags(title: string)
    requires '<' !in title
    ensures '<' !in Inside(title)
  {
    PartsLackTags();
  }

  lemma InsideStarts(title: string)
    ensures Inside(title) != "" && Inside(title)[0] == 's'
  {
    PartsLackTags();
  }

  lemma EndIsSilent(x: string, at: At, word: Word)
    requires IsAt(at, word)
    ensures Silent("<" + END, x, at)
  {
    PartsLackTags();
    NoTagNoMatch(END, x, at, word);
    AngleIsSilent(END, x, at, word);
  }

  lemma ElementIsSilent(inside: string, end: string, x: string, at: At, word: Word)
    requires IsAt(at, word) && '<' !in inside && inside != "" && inside[0] == 's' && Silent(end, x, at)
    ensures Silent("<" + (inside + end), x, at)
  {
    NoTagNoMatch(inside, end + x, at, word);
    SilentAppend(inside, end, x, at);
    AngleIsSilent(inside + end, x, at, word);
  }

  lemma PlaceholderIsSilent(title: string, x: string, at: At, word: Word)
    requires IsAt(at, word) && '<' !in title
    ensures Silent(Placeholder(title), x, at)
  {
    InsideLacksTags(title);
    InsideStarts(title);
    EndIsSilent(x, at, word);
    ElementIsSilent(Inside(title), "<" + END, x, at, word);
  }

  lemma AngleIsSilent(s: string, x: string, at: At, word: Word)
    requires IsAt(at, word) && s != "" && !Letter(s[0], 'i') && Silent(s, x, at)
    ensures Silent("<" + s, x, at)
  {
    var p := "<" + s;
    assert p[1..] == s && (p + x)[1] == s[0];
    NoTagHere(p + x, at, word);
  }

  lemma SilentIsSkipped(find: Finder, p: string, x: string, at: At)
    requires Finds(find, at) && Silent(p, x, at)
    ensures Skips(find, p, x)
  {
    SilentSkips(p, x, at);
  }

  lemma TagIsFound(find: Finder, t: Tag, x: string, at: At, word: Word)
    requires Finds(find, at) && IsAt(at, word) && IsTag(t, word)
    ensures find(t + x) == Some(Hit(0, |t|))
  {
    TagMatches(t, x, at, word);
    assert find(t + x) == FirstImg(t + x, at);
  }

  lemma ReplacementStays(tag: Tag, out: string, rw: Rewriter, find: Finder, policy: Policy, at: At, word: Word)
    requires Steps(rw, find, policy) && Finds(find, at) && IsAt(at, word) && Harmless(policy, at) && IsTag(tag, word)
    requires rw(out) == Rewritten(out, false)
    ensures var x := Replacement(tag, policy) + out; rw(x) == Rewritten(x, false) && x[0] == '<'
  {
    var instead := policy(AttrsOf(tag));
    if instead.Some? {
      assert Silent(instead.value, out, at);
      SilentIsSkipped(find, instead.value, out, at);
      assert Passes(rw, find, instead.value, out);
    } else {
      TagIsFound(find, tag, out, at, word);
      KeptTagStays(tag, out, rw, find, policy);
    }
  }

  lemma FoundIsTag(x: string, find: Finder, at: At, word: Word)
    requires Finds(find, at) && IsAt(at, word) && find(x).Some?
    ensures var h := find(x).value;
            && IsTag(x[h.start..h.end], word) && Silent(x[..h.start], x[h.start..], at)
            && x[h.start..][0] == '<' && '>' in x[h.start..]
  {
    assert find(x) == FirstImg(x, at);
    FirstImgIsTag(x, at, word);
    FirstImgIsFirst(x, at);
    var h := find(x).value;
    var tag, tail := x[h.start..h.end], x[h.start..];
    assert tag[0] == tail[0] && tag[|tag| - 1] == tail[h.end - h.start - 1];
  }

  /** What is a tag and what is silent, as values. */
  datatype Kinds = Kinds(isTag: string -> bool, silent: (string, string) -> bool)

  ghost predicate Kinded(k: Kinds, at: At, word: Word) {
    && (forall t {:trigger IsTag(t, word)} :: k.isTag(t) == IsTag(t, word))
    && (forall p, x {:trigger Silent(p, x, at)} :: k.silent(p, x) == Silent(p, x, at))
  }

  lemma OneMoreStays(text: string, tag: Tag, tail: string, out: string, k: Kinds, rw: Rewriter, find: Finder,
                     policy: Policy, at: At, word: Word)
    requires Steps(rw, find, policy) && Finds(find, at) && IsAt(at, word) && Harmless(policy, at) && Kinded(k, at, word)
    requires rw(out) == Rewritten(out, false)
    requires k.isTag(tag) && k.silent(text, tail) && tail != "" && tail[0] == '<' && '>' in tail
    ensures var z := text + (Replacement(tag, policy) + out); rw(z) == Rewritten(z, false)
  {
    var y := Replacement(tag, policy) + out;
    assert IsTag(tag, word) && Silent(text, tail, at);
    ReplacementStays(tag, out, rw, find, policy, at, word);
    SilentIsLocal(text, tail, y, at, word);
    SilentIsSkipped(find, text, y, at);
    assert Passes(rw, find, text, y);
  }

  lemma FoundKinds(x: string, k: Kinds, find: Finder, at: At, word: Word)
    requires Finds(find, at) && IsAt(at, word) && Kinded(k, at, word) && find(x).Some?
    ensures var h := find(x).value;
            && k.isTag(x[h.start..h.end]) && k.silent(x[..h.start], x[h.start..])
            && x[h.start..][0] == '<' && '>' in x[h.start..]
  {
    var h := find(x).value;
    FoundIsTag(x, find, at, word);
    assert k.isTag(x[h.start..h.end]) == IsTag(x[h.start..h.end], word);
    assert k.silent(x[..h.start], x[h.start..]) == Silent(x[..h.start], x[h.start..], at);
  }

  lemma CombinedStays(x: string, h: Hit, rest: Rewritten, k: Kinds, rw: Rewriter, find: Finder, policy: Policy,
                      at: At, word: Word)
    requires Steps(rw, find, policy) && Finds(find, at) && IsAt(at, word) && Harmless(policy, at) && Kinded(k, at, word)
    requires find(x) == Some(h) && rw(rest.html) == Rewritten(rest.html, false)
    ensures var z := Combine(x, h, rest, policy).html; rw(z) == Rewritten(z, false)
  {
    FoundKinds(x, k, find, at, word);
    OneMoreStays(x[..h.start], x[h.start..h.end], x[h.start..], rest.html, k, rw, find, policy, at, word);
  }

  /** Rewriting the output again blocks nothing and changes nothing. */
  lemma {:induction false} RewriteIsIdempotent(x: string, k: Kinds, rw: Rewriter, find: Finder, policy: Policy,
                                               at: At, word: Word)
    requires Steps(rw, find, policy) && Finds(find, at) && IsAt(at, word) && Harmless(policy, at) && Kinded(k, at, word)
    ensures rw(rw(x).html) == Rewritten(rw(x).html, false)
    decreases |x|
  {
    assert StepAt(rw, find, policy, x);
    if find(x).Some? {
      var rest := x[find(x).value.end..];
      RewriteIsIdempotent(rest, k, rw, find, policy, at, word);
      CombinedStays(x, find(x).value, rw(rest), k, rw, find, policy, at, word);
    }
  }

  /** Two texts agreeing up to a replaced piece agree there and behind it, or not at all. */
  lemma Compare(text: string, a: string, out: string, b: string, rest: string)
    requires |a| > 1 && |b| > 1 && (a == b || a[1] != b[1])
    ensures text + (a + out) == text + (b + rest) <==> a == b && out == rest
  {
    var x, y := text + (a + out), text + (b + rest);
    assert x[|text|..] == a + out && y[|text|..] == b + rest;
    assert (a + out)[|a|..] == out && (b + rest)[|b|..] == rest;
    assert (a + out)[1] == a[1] && (b + rest)[1] == b[1];
  }

  lemma CombineChanges(x: string, h: Hit, rest: Rewritten, policy: Policy, at: At, word: Word)
    requires Harmless(policy, at)
    requires h.start + 4 < h.end <= |x| && IsTag(x[h.start..h.end], word) && (rest.blocked <==> rest.html != x[h.end..])
    ensures var r := Combine(x, h, rest, policy); r.blocked <==> r.html != x
  {
    var text, tag := x[..h.start], x[h.start..h.end];
    assert x == text + (tag + x[h.end..]);
    assert !Letter('s', 'i');
    Compare(text, Replacement(tag, policy), rest.html, tag, x[h.end..]);
  }

  /** `blocked` is reported exactly when the text changed. */
  lemma {:induction false} BlockedIffChanged(x: string, rw: Rewriter, find: Finder, policy: Policy, at: At, word: Word)
    requires Steps(rw, find, policy) && Finds(find, at) && IsAt(at, word) && Harmless(policy, at)
    ensures rw(x).blocked <==> rw(x).html != x
    decreases |x|
  {
    assert StepAt(rw, find, policy, x);
    if find(x).Some? {
      var h := find(x).value;
      FoundIsTag(x, find, at, word);
      BlockedIffChanged(x[h.end..], rw, find, policy, at, word);
      CombineChanges(x, h, rw(x[h.end..]), policy, at, word);
    }
  }

  // ── for the blocking policy ──────────────────────────────────────────

  lemma {:induction false} ReplaceRemoves(s: string, c: char, with: string, d: char)
    requires d !in with && (d == c || d !in s)
    ensures d !in XmlText.Replace(s, [c], with)
  {
    if s != "" {
      ReplaceRemoves(if [c] <= s then s[|[c]|..] else s[1..], c, with, d);
    }
  }

  /** A title stays inside its attribute and opens no tag. */
  lemma TitlesAreHarmless(s: string)
    ensures '<' !in EscapeAttr(s) && '"' !in EscapeAttr(s)
  {
    var amp := XmlText.Replace(s, "&", "&amp;");
    var quot := XmlText.Replace(amp, "\"", "&quot;");
    ReplaceRemoves(amp, '"', "&quot;", '"');
    ReplaceRemoves(quot, '<', "&lt;", '"');
    ReplaceRemoves(quot, '<', "&lt;", '<');
  }

  lemma PlaceholderIsInert(title: string, at: At, word: Word)
    requires IsAt(at, word) && '<' !in title
    ensures Inert(Placeholder(title), at)
  {
    InsideStarts(title);
    forall x
      ensures Silent(Placeholder(title), x, at)
    {
      PlaceholderIsSilent(title, x, at, word);
    }
  }

  lemma TitleIsHarmless(attrs: string, word: Word)
    ensures '<' !in TitleOf(attrs, word)
  {
    var alt := AttrValue(attrs, "alt", word, true);
    TitlesAreHarmless(if alt.Some? && Trim(alt.value) != "" then Trim(alt.value) else "Image");
  }

  lemma BlockRemoteAt(word: Word, attrs: string)
    ensures BlockRemote(word)(attrs).Some? ==> BlockRemote(word)(attrs).value == Placeholder(TitleOf(attrs, word))
  {
  }

  lemma BlockRemoteIsHarmless(at: At, word: Word)
    requires IsAt(at, word)
    ensures Harmless(BlockRemote(word), at)
  {
    forall attrs
      ensures BlockRemote(word)(attrs).Some? ==> Inert(BlockRemote(word)(attrs).value, at)
    {
      TitleIsHarmless(attrs, word);
      PlaceholderIsInert(TitleOf(attrs, word), at, word);
      BlockRemoteAt(word, attrs);
    }
  }

  ghost function KindsFor(at: At, word: Word): (k: Kinds)
    ensures Kinded(k, at, word)
  {
    Kinds((t: string) => IsTag(t, word), (p: string, x: string) => Silent(p, x, at))
  }

  lemma FinderFinds(word: Word)
    ensures Finds(ImgFinder(AtFor(word)), AtFor(word)) && IsAt(AtFor(word), word)
  {
  }

  function RewriterFor(find: Finder, policy: Policy): Rewriter { (x: string) => Rewrite(x, find, policy) }

  lemma RewriteSteps(find: Finder, policy: Policy)
    ensures Steps(RewriterFor(find, policy), find, policy)
  {
    var rw := RewriterFor(find, policy);
    forall x
      ensures StepAt(rw, find, policy, x)
    {
      RewriteStep(x, find, policy);
    }
    forall p, x
      ensures Passes(rw, find, p, x)
    {
      if Skips(find, p, x) {
        RewriteBehind(p, x, find, policy);
      }
    }
  }

  function BlockImages(html: string, word: Word): Rewritten { Rewrite(html, ImgFinder(AtFor(word)), BlockRemote(word)) }

  /** `rewrite_blocked` is idempotent and reports exactly whether it changed anything. */
  lemma BlockingIsIdempotent(html: string, word: Word)
    ensures var r := BlockImages(html, word);
            && BlockImages(r.html, word) == Rewritten(r.html, false)
            && (r.blocked <==> r.html != html)
  {
    var at := AtFor(word);
    var find, policy := ImgFinder(at), BlockRemote(word);
    var rw := RewriterFor(find, policy);
    FinderFinds(word);
    BlockRemoteIsHarmless(at, word);
    RewriteSteps(find, policy);
    var k := KindsFor(at, word);
    RewriteIsIdempotent(html, k, rw, find, policy, at, word);
    BlockedIffChanged(html, rw, find, policy, at, word);
  }

  // ── which tags are blocked ───────────────────────────────────────────

  /** The text around the image tags, one piece more than there are tags. */
  function Texts(d: Doc): (r: seq<string>)
    ensures r != []
  {
    match d
    case Tail(text) => [text]
    case Image(text, _, rest) => [text] + Texts(rest)
  }

  function Tags(d: Doc): (r: seq<Tag>)
    ensures |r| + 1 == |Texts(d)|
  {
    match d
    case Tail(_) => []
    case Image(_, tag, rest) => [tag] + Tags(rest)
  }

  /** Text, piece, text, piece, …, text. */
  function Weave(texts: seq<string>, pieces: seq<string>): string
    requires |texts| == |pieces| + 1
  {
    if pieces == [] then texts[0] else texts[0] + (pieces[0] + Weave(texts[1..], pieces[1..]))
  }

  function Replaced(tags: seq<Tag>, policy: Policy): (r: seq<string>)
    ensures |r| == |tags| && forall i | 0 <= i < |tags| :: r[i] == Replacement(tags[i], policy)
  {
    seq(|tags|, i requires 0 <= i < |tags| => Replacement(tags[i], policy))
  }

  lemma ReplacedTail(tags: seq<Tag>, policy: Policy)
    requires tags != []
    ensures Replaced(tags, policy)[1..] == Replaced(tags[1..], policy)
  {
  }

  lemma {:induction false} OutputWeaves(d: Doc, policy: Policy)
    ensures Output(d, policy) == Weave(Texts(d), Replaced(Tags(d), policy))
    ensures Blocks(d, policy) <==> exists i :: 0 <= i < |Tags(d)| && policy(AttrsOf(Tags(d)[i])).Some?
  {
    if d.Image? {
      var tags := Tags(d);
      OutputWeaves(d.rest, policy);
      ReplacedTail(tags, policy);
      assert Texts(d)[1..] == Texts(d.rest) && tags[1..] == Tags(d.rest);
      assert forall i | 1 <= i < |tags| :: tags[i] == tags[1..][i - 1];
      assert forall i | 0 <= i < |tags| - 1 :: tags[1..][i] == tags[i + 1];
    }
  }

  lemma {:induction false} SourceWeaves(d: Doc)
    ensures Source(d) == Weave(Texts(d), Tags(d))
  {
    if d.Image? {
      SourceWeaves(d.rest);
      assert Texts(d)[1..] == Texts(d.rest) && Tags(d)[1..] == Tags(d.rest);
    }
  }

  lemma {:induction false} CutFindsTags(x: string, find: Finder, at: At, word: Word)
    requires Finds(find, at) && IsAt(at, word)
    ensures forall i | 0 <= i < |Tags(Cut(x, find))| :: IsTag(Tags(Cut(x, find))[i], word)
    decreases |x|
  {
    if find(x).Some? {
      var h := find(x).value;
      FoundTag(x, find, at, word);
      CutFindsTags(x[h.end..], find, at, word);
      var tag, rest := x[h.start..h.end], Tags(Cut(x[h.end..], find));
      assert Tags(Cut(x, find)) == [tag] + rest;
    }
  }

  lemma FoundTag(x: string, find: Finder, at: At, word: Word)
    requires Finds(find, at) && IsAt(at, word) && find(x).Some?
    ensures IsTag(x[find(x).value.start..find(x).value.end], word)
  {
    FoundIsTag(x, find, at, word);
  }

  /** The src a tag is judged by is remote. */
  predicate IsRemoteTag(tag: Tag, word: Word) {
    var src := AttrValue(AttrsOf(tag), "src", word, true); src.Some? && IsRemote(src.value)
  }

  /** What a tag becomes: its placeholder if it is remote, else itself. */
  function Judged(tag: Tag, word: Word): string {
    if IsRemoteTag(tag, word) then Placeholder(TitleOf(AttrsOf(tag), word)) else tag
  }

  lemma BlockRemoteJudges(tag: Tag, word: Word)
    ensures Replacement(tag, BlockRemote(word)) == Judged(tag, word)
    ensures BlockRemote(word)(AttrsOf(tag)).Some? <==> IsRemoteTag(tag, word)
  {
  }

  ghost predicate SomeBlocked(tags: seq<Tag>, policy: Policy) {
    exists i :: 0 <= i < |tags| && policy(AttrsOf(tags[i])).Some?
  }

  ghost predicate SomeRemote(tags: seq<Tag>, word: Word) { exists i :: 0 <= i < |tags| && IsRemoteTag(tags[i], word) }

  lemma TagsAreJudged(tags: seq<Tag>, word: Word)
    ensures SomeBlocked(tags, BlockRemote(word)) <==> SomeRemote(tags, word)
    ensures forall i | 0 <= i < |tags| :: Replaced(tags, BlockRemote(word))[i] == Judged(tags[i], word)
  {
    forall i | 0 <= i < |tags|
      ensures Replaced(tags, BlockRemote(word))[i] == Judged(tags[i], word)
      ensures BlockRemote(word)(AttrsOf(tags[i])).Some? <==> IsRemoteTag(tags[i], word)
    {
      BlockRemoteJudges(tags[i], word);
    }
  }

  /** The rewriting as one weave, for any policy. */
  lemma RewriteWeaves(html: string, find: Finder, policy: Policy)
    ensures var d, r := Cut(html, find), Rewrite(html, find, policy);
            && html == Weave(Texts(d), Tags(d)) && r.html == Weave(Texts(d), Replaced(Tags(d), policy))
            && (r.blocked <==> SomeBlocked(Tags(d), policy))
  {
    var d := Cut(html, find);
    CutKeepsText(html, find);
    SourceWeaves(d);
    OutputWeaves(d, policy);
  }

  /** Every document is its text with its image tags in between, and the output is
      the same text with exactly the remote ones of those tags replaced. */
  lemma BlocksExactlyRemoteTags(html: string, word: Word) returns (texts: seq<string>, tags: seq<Tag>,
                                outs: seq<string>)
    ensures |texts| == |tags| + 1 && |outs| == |tags|
    ensures var d := Cut(html, ImgFinder(AtFor(word))); texts == Texts(d) && tags == Tags(d)
    ensures html == Weave(texts, tags) && BlockImages(html, word).html == Weave(texts, outs)
    ensures forall i | 0 <= i < |tags| :: IsTag(tags[i], word) && outs[i] == Judged(tags[i], word)
    ensures BlockImages(html, word).blocked <==> SomeRemote(tags, word)
  {
    var find, policy := ImgFinder(AtFor(word)), BlockRemote(word);
    var d := Cut(html, find);
    texts, tags, outs := Texts(d), Tags(d), Replaced(Tags(d), policy);
    RewriteWeaves(html, find, policy);
    FinderFinds(word);
    CutFindsTags(html, find, AtFor(word), word);
    TagsAreJudged(tags, word);
  }
}
