/** CDATA sections: their markers go, but their content is unescaped like any text. */
module XmlCdata {
  import opened Base
  import opened Text
  import opened XmlText

  const CDATA_END: string := "]]>"

  function Cdata(c: string): string { CDATA_OPEN + (c + CDATA_END) }

  // ── cutting a section out ────────────────────────────────────────────

  lemma EndStartsLate(c: string, x: string)
    requires c != "" && !(CDATA_END <= c)
    ensures !(CDATA_END <= c + (CDATA_END + x))
  {
    var s := c + (CDATA_END + x);
    assert |c| >= 3 ==> s[..3] == c[..3];
    assert |c| < 3 ==> s[2] == CDATA_END[2 - |c|];
    assert CDATA_END[0] == ']' && CDATA_END[1] == ']' && CDATA_END[2] == '>';
  }

  lemma {:induction false} EndIsFound(c: string, x: string)
    requires !Contains(c, CDATA_END)
    ensures IndexOfSub(c + (CDATA_END + x), CDATA_END) == Some(|c|)
  {
    if c == "" {
      assert c + (CDATA_END + x) == CDATA_END + x;
    } else {
      EndStartsLate(c, x);
      assert (c + (CDATA_END + x))[1..] == c[1..] + (CDATA_END + x);
      EndIsFound(c[1..], x);
    }
  }

  lemma SectionSlices(c: string, x: string)
    ensures var s := CDATA_OPEN + (c + (CDATA_END + x));
            && CDATA_OPEN <= s && s[|CDATA_OPEN|..] == c + (CDATA_END + x) && s[|CDATA_OPEN| + |c| + 3..] == x
            && (c + (CDATA_END + x))[..|c|] == c && s[0] == '<'
  {
    var s := CDATA_OPEN + (c + (CDATA_END + x));
    assert s[0] == CDATA_OPEN[0];
    assert s[|CDATA_OPEN| + |c| + 3..] == x;
  }

  /** A section contributes exactly its content; stripping goes on behind it. */
  lemma SectionStrips(c: string, x: string)
    requires !Contains(c, CDATA_END)
    ensures StripTags(CDATA_OPEN + (c + (CDATA_END + x))) == c + StripTags(x)
  {
    var s := CDATA_OPEN + (c + (CDATA_END + x));
    EndIsFound(c, x);
    SectionSlices(c, x);
    assert FrontPiece(s) == Piece(c, |CDATA_OPEN| + |c| + 3);
  }

  /** A section that never ends is all content… */
  lemma UnfinishedSectionStrips(c: string)
    requires !Contains(c, CDATA_END)
    ensures StripTags(CDATA_OPEN + c) == c
  {
    var s := CDATA_OPEN + c;
    assert s[0] == CDATA_OPEN[0] && s[|CDATA_OPEN|..] == c && s[|s|..] == "";
    assert FrontPiece(s) == Piece(c, |s|);
  }

  /** …and a tag that never ends is none. */
  lemma UnfinishedTagStrips(t: string)
    requires '>' !in t && !(CDATA_OPEN <= "<" + t)
    ensures StripTags("<" + t) == ""
  {
    var s := "<" + t;
    assert s[|s|..] == "";
    assert FrontPiece(s) == Piece("", |s|);
  }

  /** What `tag_text` makes of a section: its content, unescaped and trimmed. */
  lemma SectionReads(c: string)
    requires !Contains(c, CDATA_END)
    ensures TextOf(Cdata(c)) == Kept(Unescape(c))
  {
    SectionStrips(c, "");
    assert CDATA_END + "" == CDATA_END;
    assert StripTags(Cdata(c)) == c + "" == c;
  }

  // ── when unescaping changes nothing ──────────────────────────────────

  /** A replace by something shorter shortens the text exactly where the pattern occurs. */
  lemma {:induction false} ReplaceShortens(s: string, pat: string, with: string)
    requires |with| < |pat|
    ensures !Contains(s, pat) ==> Replace(s, pat, with) == s
    ensures Contains(s, pat) ==> |Replace(s, pat, with)| < |s|
    decreases |s|
  {
    if s == "" {
      assert !(pat <= s);
    } else if pat <= s {
      ReplaceShortens(s[|pat|..], pat, with);
    } else {
      ReplaceShortens(s[1..], pat, with);
      assert s == [s[0]] + s[1..];
    }
  }

  /** One of the entities `unescape` knows occurs. */
  predicate HoldsEntity(s: string) {
    Contains(s, "&lt;") || Contains(s, "&gt;") || Contains(s, "&quot;")
    || Contains(s, "&#39;") || Contains(s, "&apos;") || Contains(s, "&amp;")
  }

  /** One replace of the chain: unchanged without its entity, else shorter. */
  ghost predicate Step(s: string, t: string, pat: string) {
    if Contains(s, pat) then |t| < |s| else t == s
  }

  lemma ChainShortens(s0: string, s1: string, s2: string, s3: string, s4: string, s5: string, s6: string,
                      e0: string, e1: string, e2: string, e3: string, e4: string, e5: string)
    requires Step(s0, s1, e0) && Step(s1, s2, e1) && Step(s2, s3, e2) && Step(s3, s4, e3) && Step(s4, s5, e4)
    requires Step(s5, s6, e5)
    ensures if || Contains(s0, e0) || Contains(s0, e1) || Contains(s0, e2)
               || Contains(s0, e3) || Contains(s0, e4) || Contains(s0, e5)
            then |s6| < |s0| else s6 == s0
  {
  }

  /** Unescaping leaves a text alone exactly when it holds none of the six entities. */
  lemma UnescapeFixesIff(s: string)
    ensures Unescape(s) == s <==> !HoldsEntity(s)
    ensures HoldsEntity(s) ==> |Unescape(s)| < |s|
  {
    var s1 := Replace(s, "&lt;", "<");
    var s2 := Replace(s1, "&gt;", ">");
    var s3 := Replace(s2, "&quot;", "\"");
    var s4 := Replace(s3, "&#39;", "'");
    var s5 := Replace(s4, "&apos;", "'");
    ReplaceShortens(s, "&lt;", "<");
    ReplaceShortens(s1, "&gt;", ">");
    ReplaceShortens(s2, "&quot;", "\"");
    ReplaceShortens(s3, "&#39;", "'");
    ReplaceShortens(s4, "&apos;", "'");
    ReplaceShortens(s5, "&amp;", "&");
    ChainShortens(s, s1, s2, s3, s4, s5, Unescape(s), "&lt;", "&gt;", "&quot;", "&#39;", "&apos;", "&amp;");
  }

  lemma {:induction false} TrimNeverLengthens(s: string)
    ensures |Trim(s)| <= |s|
  {
  }

  lemma KeptIs(u: string, c: string)
    requires c != "" && Trimmed(c)
    ensures u == c ==> Kept(u) == Found(c)
    ensures |u| < |c| ==> Kept(u) != Found(c)
  {
    TrimmedIsFixed(c);
    TrimNeverLengthens(u);
  }

  /** Section content reads back verbatim exactly when it holds no entity. */
  lemma CdataReadsBackIff(c: string)
    requires c != "" && Trimmed(c) && !Contains(c, CDATA_END)
    ensures TextOf(Cdata(c)) == Found(c) <==> !HoldsEntity(c)
  {
    SectionReads(c);
    UnescapeFixesIff(c);
    KeptIs(Unescape(c), c);
  }

  /** A section that does not: `a&amp;b` comes back shorter. */
  lemma CdataIsUnescaped()
    ensures !Contains("a&amp;b", CDATA_END) && TextOf(Cdata("a&amp;b")) != Found("a&amp;b")
  {
    var c := "a&amp;b";
    LacksCharLacksPattern(c, CDATA_END, ']');
    EntityIn();
    CdataReadsBackIff(c);
  }

  lemma EntityIn()
    ensures HoldsEntity("a&amp;b")
  {
    var c := "a&amp;b";
    assert c[1..6] == "&amp;";
    ContainsAt(c, "&amp;", 1);
  }

  /** In general a section holding escaped text comes back as the text. */
  lemma CdataOfEscaped(t: string)
    requires t != "" && Trimmed(t)
    ensures TextOf(Cdata(XmlEscape(t))) == Found(t)
  {
    EscapedHasNoAngles(t);
    assert CDATA_END[2] == '>';
    LacksCharLacksPattern(XmlEscape(t), CDATA_END, '>');
    SectionReads(XmlEscape(t));
    UnescapeInvertsEscape(t);
    KeptIs(t, t);
  }
}
