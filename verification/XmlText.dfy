/** Entities, tag stripping, and the text content of an element. */
module XmlText {
  import opened Base
  import opened Text
  import opened XmlNesting

  /** `str::replace`: leftmost, non-overlapping. */
  function Replace(s: string, pat: string, with: string): string
    requires pat != ""
  {
    if s == "" then ""
    else if pat <= s then with + Replace(s[|pat|..], pat, with)
    else [s[0]] + Replace(s[1..], pat, with)
  }

  function Unescape(s: string): string {
    Replace(Replace(Replace(Replace(Replace(Replace(s,
      "&lt;", "<"), "&gt;", ">"), "&quot;", "\""), "&#39;", "'"), "&apos;", "'"), "&amp;", "&")
  }

  function XmlEscape(s: string): string {
    Replace(Replace(Replace(Replace(s, "&", "&amp;"), "<", "&lt;"), ">", "&gt;"), "\"", "&quot;")
  }

  // ── escaping one character at a time ─────────────────────────────────

  function Entity(c: char): string {
    if c == '&' then "&amp;" else if c == '<' then "&lt;" else if c == '>' then "&gt;" else "&quot;"
  }

  const ESCAPED: set<char> := {'&', '<', '>', '"'}

  /** `s` with exactly the characters of `cs` written as entities. */
  function Coded(s: string, cs: set<char>): string {
    if s == "" then "" else (if s[0] in cs then Entity(s[0]) else [s[0]]) + Coded(s[1..], cs)
  }

  lemma {:induction false} CodedWithNone(s: string)
    ensures Coded(s, {}) == s
  {
    if s != "" {
      CodedWithNone(s[1..]);
      assert s == [s[0]] + s[1..];
    }
  }

  lemma {:induction false} ReplaceOverPlain(p: string, t: string, pat: string, with: string)
    requires pat != "" && pat[0] !in p
    ensures Replace(p + t, pat, with) == p + Replace(t, pat, with)
  {
    if p == "" {
      assert p + t == t;
    } else {
      assert (p + t)[0] == p[0] && (p + t)[1..] == p[1..] + t;
      ReplaceOverPlain(p[1..], t, pat, with);
    }
  }

  /** Escaping one more character of the text. */
  lemma {:induction false} EscapeOneMore(s: string, cs: set<char>, c: char)
    requires c in ESCAPED && c !in cs && cs <= ESCAPED && (cs != {} ==> '&' in cs)
    ensures Replace(Coded(s, cs), [c], Entity(c)) == Coded(s, cs + {c})
  {
    if s != "" {
      EscapeOneMore(s[1..], cs, c);
      var head, tail := if s[0] in cs then Entity(s[0]) else [s[0]], Coded(s[1..], cs);
      if s[0] == c {
        assert (head + tail)[1..] == tail && [c] <= head + tail;
      } else {
        assert c !in head;
        ReplaceOverPlain(head, tail, [c], Entity(c));
      }
    }
  }

  lemma EscapeIsCoded(s: string)
    ensures XmlEscape(s) == Coded(s, ESCAPED)
  {
    CodedWithNone(s);
    EscapeOneMore(s, {}, '&');
    EscapeOneMore(s, {'&'}, '<');
    EscapeOneMore(s, {'&', '<'}, '>');
    EscapeOneMore(s, {'&', '<', '>'}, '"');
    assert {} + {'&'} == {'&'} && {'&'} + {'<'} == {'&', '<'} && {'&', '<'} + {'>'} == {'&', '<', '>'};
    assert {'&', '<', '>'} + {'"'} == ESCAPED;
  }

  /** An entity starts with `&`, ends with `;`, and holds neither in between. */
  predicate IsEntity(e: string) {
    |e| >= 2 && e[0] == '&' && e[|e| - 1] == ';' && '&' !in e[1..] && ';' !in e[..|e| - 1]
  }

  lemma EntityEnds(e: string, t: string)
    requires IsEntity(e)
    ensures IndexOf(e + t, ';') == Some(|e| - 1)
  {
    var body, rest := e[..|e| - 1], [';'] + t;
    assert e + t == body + rest;
    IndexOfSkips(body, rest, ';');
  }

  /** Entities are prefix-free. */
  lemma EntityPrefixIsEqual(e: string, pat: string, t: string)
    requires IsEntity(e) && IsEntity(pat) && pat <= e + t
    ensures pat == e
  {
    var x := e + t;
    EntityEnds(e, t);
    assert x == pat + x[|pat|..];
    EntityEnds(pat, x[|pat|..]);
    assert pat == x[..|e|] == e;
  }

  lemma DecodeHead(e: string, tail: string, pat: string, with: string)
    requires IsEntity(e) && IsEntity(pat)
    ensures Replace(e + tail, pat, with) == (if e == pat then with else e) + Replace(tail, pat, with)
  {
    var x := e + tail;
    if pat <= x {
      EntityPrefixIsEqual(e, pat, tail);
      assert x[|pat|..] == tail;
    } else {
      assert e != pat;
      assert x[1..] == e[1..] + tail && x[0] == e[0];
      ReplaceOverPlain(e[1..], tail, pat, with);
      assert e == [e[0]] + e[1..];
    }
  }

  /** `pat` is the entity of `c` among the coded characters and of no other. */
  ghost predicate Decodes(cs: set<char>, c: char, pat: string) {
    forall d | d in cs :: IsEntity(Entity(d)) && (d == c <==> Entity(d) == pat)
  }

  /** Decoding one entity: where the text still codes it, the character comes
      back; an entity the text does not use changes nothing. */
  lemma {:induction false} DecodeOne(s: string, cs: set<char>, c: char, pat: string)
    requires '&' in cs && IsEntity(pat) && Decodes(cs, c, pat)
    ensures Replace(Coded(s, cs), pat, [c]) == Coded(s, cs - {c})
  {
    if s != "" {
      DecodeOne(s[1..], cs, c, pat);
      var tail := Coded(s[1..], cs);
      if s[0] in cs {
        DecodeHead(Entity(s[0]), tail, pat, [c]);
      } else {
        ReplaceOverPlain([s[0]], tail, pat, [c]);
      }
    }
  }

  lemma EntitiesAreEntities()
    ensures forall d | d in ESCAPED :: IsEntity(Entity(d))
    ensures IsEntity("&#39;") && IsEntity("&apos;")
  {
    assert "&amp;"[1..] == "amp;" && "&lt;"[1..] == "lt;" && "&gt;"[1..] == "gt;" && "&quot;"[1..] == "quot;";
    assert "&amp;"[..4] == "&amp" && "&lt;"[..3] == "&lt" && "&gt;"[..3] == "&gt" && "&quot;"[..5] == "&quot";
    assert "&#39;"[1..] == "#39;" && "&apos;"[1..] == "apos;" && "&#39;"[..4] == "&#39" && "&apos;"[..5] == "&apos";
  }

  lemma EntitiesDiffer()
    ensures "&lt;" != "&gt;" && "&lt;" != "&quot;" && "&lt;" != "&amp;" && "&lt;" != "&#39;" && "&lt;" != "&apos;"
    ensures "&gt;" != "&quot;" && "&gt;" != "&amp;" && "&gt;" != "&#39;" && "&gt;" != "&apos;"
    ensures "&quot;" != "&amp;" && "&quot;" != "&#39;" && "&quot;" != "&apos;" && "&amp;" != "&#39;"
    ensures "&amp;" != "&apos;"
  {
    var lt, gt, quot, amp, num, apos := "&lt;", "&gt;", "&quot;", "&amp;", "&#39;", "&apos;";
    assert lt[1] == 'l' && gt[1] == 'g' && quot[1] == 'q' && amp[1] == 'a' && num[1] == '#' && apos[1] == 'a';
    assert |amp| == 5 && |apos| == 6;
  }

  lemma DecodesAngles()
    ensures Decodes(ESCAPED, '<', "&lt;") && Decodes(ESCAPED, '>', "&gt;")
  {
    EntitiesAreEntities();
    EntitiesDiffer();
  }

  lemma DecodesOthers()
    ensures Decodes(ESCAPED, '"', "&quot;") && Decodes(ESCAPED, '&', "&amp;")
  {
    EntitiesAreEntities();
    EntitiesDiffer();
  }

  /** An entity unlike the four codes no escaped character. */
  lemma DecodesNothing(c: char, pat: string)
    requires c !in ESCAPED && forall d | d in ESCAPED :: Entity(d) != pat
    ensures Decodes(ESCAPED, c, pat)
  {
    EntitiesAreEntities();
  }

  lemma DecodesApostrophes()
    ensures Decodes(ESCAPED, '\'', "&#39;") && Decodes(ESCAPED, '\'', "&apos;")
  {
    EntitiesDiffer();
    DecodesNothing('\'', "&#39;");
    DecodesNothing('\'', "&apos;");
  }

  lemma DecodesFewer(cs: set<char>, c: char, pat: string)
    requires cs <= ESCAPED && Decodes(ESCAPED, c, pat)
    ensures Decodes(cs, c, pat)
  {
  }

  /** One replace of the chain takes one character out of the coded ones. */
  lemma DecodeStep(s: string, cs: set<char>, c: char, pat: string, rest: set<char>)
    requires cs <= ESCAPED && '&' in cs && IsEntity(pat) && Decodes(ESCAPED, c, pat) && rest == cs - {c}
    ensures Replace(Coded(s, cs), pat, [c]) == Coded(s, rest)
  {
    DecodesFewer(cs, c, pat);
    DecodeOne(s, cs, c, pat);
  }

  lemma DecodeMarkup(s: string)
    ensures Replace(Replace(Replace(Coded(s, ESCAPED), "&lt;", "<"), "&gt;", ">"), "&quot;", "\"") == Coded(s, {'&'})
  {
    EntitiesAreEntities();
    DecodesAngles();
    DecodesOthers();
    DecodeStep(s, ESCAPED, '<', "&lt;", {'&', '>', '"'});
    DecodeStep(s, {'&', '>', '"'}, '>', "&gt;", {'&', '"'});
    DecodeStep(s, {'&', '"'}, '"', "&quot;", {'&'});
  }

  lemma DecodeRest(s: string)
    ensures Replace(Replace(Replace(Coded(s, {'&'}), "&#39;", "'"), "&apos;", "'"), "&amp;", "&") == s
  {
    EntitiesAreEntities();
    DecodesOthers();
    DecodesApostrophes();
    DecodeStep(s, {'&'}, '\'', "&#39;", {'&'});
    DecodeStep(s, {'&'}, '\'', "&apos;", {'&'});
    DecodeStep(s, {'&'}, '&', "&amp;", {});
    CodedWithNone(s);
  }

  /** Escaped text reads back, whatever it holds. */
  lemma UnescapeInvertsEscape(s: string)
    ensures Unescape(XmlEscape(s)) == s
  {
    EscapeIsCoded(s);
    DecodeMarkup(s);
    DecodeRest(s);
  }

  lemma {:induction false} CodedOfPlain(s: string, cs: set<char>)
    requires forall c | c in s :: c !in cs
    ensures Coded(s, cs) == s
  {
    if s != "" {
      CodedOfPlain(s[1..], cs);
      assert s == [s[0]] + s[1..];
    }
  }

  /** Text without the four characters is its own escape. */
  lemma PlainEscapes(s: string)
    requires forall c | c in s :: c !in ESCAPED
    ensures XmlEscape(s) == s
  {
    EscapeIsCoded(s);
    CodedOfPlain(s, ESCAPED);
  }

  lemma {:induction false} EscapedHasNoAngles(s: string)
    ensures '<' !in XmlEscape(s) && '>' !in XmlEscape(s)
  {
    EscapeIsCoded(s);
    CodedHasNoAngles(s);
  }

  lemma {:induction false} CodedHasNoAngles(s: string)
    ensures '<' !in Coded(s, ESCAPED) && '>' !in Coded(s, ESCAPED)
  {
    if s != "" {
      CodedHasNoAngles(s[1..]);
    }
  }

  // ── text content ─────────────────────────────────────────────────────

  const CDATA_OPEN: string := "<![CDATA["

  datatype Piece = Piece(text: string, used: nat)

  /** What the front of `s` contributes: a run of text, the content of a CDATA
      section, nothing for a tag; an unfinished tag ends the text. */
  function FrontPiece(s: string): (p: Piece)
    requires s != ""
    ensures 0 < p.used <= |s|
  {
    if s[0] != '<' then
      match IndexOf(s, '<')
      case None => Piece(s, |s|)
      case Some(n) => Piece(s[..n], n)
    else if CDATA_OPEN <= s then
      var content := s[|CDATA_OPEN|..];
      match IndexOfSub(content, "]]>")
      case None => Piece(content, |s|)
      case Some(n) => Piece(content[..n], |CDATA_OPEN| + n + 3)
    else match IndexOf(s, '>')
      case None => Piece("", |s|)
      case Some(gt) => Piece("", gt + 1)
  }

  function StripTags(s: string): string
    decreases |s|
  {
    if s == "" then "" else FrontPiece(s).text + StripTags(s[FrontPiece(s).used..])
  }

  /** `strip_tags`: one pass with an output buffer. */
  method StripTagsLoop(s: string) returns (out: string)
    ensures out == StripTags(s)
  {
    out := "";
    var rest := s;
    while rest != ""
      invariant StripTags(s) == out + StripTags(rest)
      decreases |rest|
    {
      var p := FrontPiece(rest);
      out := out + p.text;
      rest := rest[p.used..];
    }
  }

  lemma TextHasNothingToStrip(t: string)
    requires '<' !in t
    ensures StripTags(t) == t
  {
    if t != "" {
      assert FrontPiece(t) == Piece(t, |t|) && t[|t|..] == "";
    }
  }

  /** `tag_text` slices between the end of the first opening tag and the start
      of the first closing tag; the two can cross on malformed markup, and the
      slice then panics. */
  datatype Scan = Panics | Absent | Found(text: string)

  /** What is between the first opening and the first closing tag of a block. */
  function Content(block: string, sc: Scanner): Scan {
    var open, close := sc.open(block), sc.close(block);
    if open.None? || close.None? then Absent
    else if close.value.start < open.value.end then Panics
    else Found(block[open.value.end..close.value.start])
  }

  function TextOf(inner: string): (r: Scan)
    ensures r.Found? ==> r.text != "" && Trimmed(r.text)
  {
    Kept(Unescape(StripTags(inner)))
  }

  lemma EscapedKept(text: string)
    requires text != "" && Trimmed(text)
    ensures Kept(Unescape(XmlEscape(text))) == Found(text)
  {
    UnescapeInvertsEscape(text);
    TrimmedIsFixed(text);
  }

  /** Escaped text reads back as it was, if it is non-empty and trimmed. */
  lemma EscapedTextReads(text: string)
    requires text != "" && Trimmed(text)
    ensures TextOf(XmlEscape(text)) == Found(text)
  {
    EscapedHasNoAngles(text);
    TextHasNothingToStrip(XmlEscape(text));
    EscapedKept(text);
  }

  function Kept(s: string): (r: Scan)
    ensures r.Found? ==> r.text != "" && Trimmed(r.text)
  {
    TrimIsTrimmed(s);
    if Trim(s) == "" then Absent else Found(Trim(s))
  }

  function ReadContent(content: Scan): (r: Scan)
    ensures r.Found? ==> r.text != "" && Trimmed(r.text)
  {
    if content.Found? then TextOf(content.text) else content
  }

  function TagText(x: string, tag: string): (r: Scan)
    ensures r.Found? ==> r.text != "" && Trimmed(r.text)
  {
    match Element(x, ScannerFor(tag))
    case None => Absent
    case Some(sp) => ReadContent(Content(x[sp.start..sp.end], ScannerFor(tag)))
  }
}
