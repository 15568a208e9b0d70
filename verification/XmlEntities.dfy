/** Decoding of every text that may be written with entities: any mix of plain
    characters and the six entities the reader knows. */
module XmlEntities {
  import opened XmlText

  /** One character as written: plain, or as an entity. */
  datatype Token = Plain(c: char) | Coded(entity: string)

  const ENTITIES: map<string, char> :=
    map["&lt;" := '<', "&gt;" := '>', "&quot;" := '"', "&#39;" := '\'', "&apos;" := '\'', "&amp;" := '&']

  /** A plain ampersand cannot be told from the start of an entity. */
  predicate Writable(t: Token) { if t.Plain? then t.c != '&' else t.entity in ENTITIES }

  ghost predicate AllWritable(ts: seq<Token>) { forall i | 0 <= i < |ts| :: Writable(ts[i]) }

  function TextOf(t: Token): string { if t.Plain? then [t.c] else t.entity }

  function Written(ts: seq<Token>): string { if ts == [] then "" else TextOf(ts[0]) + Written(ts[1..]) }

  function Meaning(t: Token): char
    requires Writable(t)
  {
    if t.Plain? then t.c else ENTITIES[t.entity]
  }

  function Meant(ts: seq<Token>): (r: string)
    requires AllWritable(ts)
    ensures |r| == |ts| && forall i | 0 <= i < |ts| :: r[i] == Meaning(ts[i])
  {
    seq(|ts|, i requires 0 <= i < |ts| => Meaning(ts[i]))
  }

  // ── one replace ──────────────────────────────────────────────────────

  function Turned(t: Token, pat: string, c: char): Token { if t == Coded(pat) then Plain(c) else t }

  function Turn(ts: seq<Token>, pat: string, c: char): (r: seq<Token>)
    ensures |r| == |ts| && forall i | 0 <= i < |ts| :: r[i] == Turned(ts[i], pat, c)
  {
    seq(|ts|, i requires 0 <= i < |ts| => Turned(ts[i], pat, c))
  }

  /** Tokens the replaces can tell apart. */
  ghost predicate Apart(ts: seq<Token>) {
    forall i | 0 <= i < |ts| :: if ts[i].Plain? then ts[i].c != '&' else IsEntity(ts[i].entity)
  }

  lemma {:induction false} ReplaceTurns(ts: seq<Token>, pat: string, c: char)
    requires Apart(ts) && IsEntity(pat)
    ensures Replace(Written(ts), pat, [c]) == Written(Turn(ts, pat, c))
  {
    if ts != [] {
      ReplaceTurns(ts[1..], pat, c);
      assert Turn(ts, pat, c)[1..] == Turn(ts[1..], pat, c);
      if ts[0].Plain? {
        ReplaceOverPlain([ts[0].c], Written(ts[1..]), pat, [c]);
      } else {
        DecodeHead(ts[0].entity, Written(ts[1..]), pat, [c]);
      }
    }
  }

  // ── the chain ────────────────────────────────────────────────────────

  lemma WritableIsApart(ts: seq<Token>)
    requires AllWritable(ts)
    ensures Apart(ts)
  {
    EntitiesAreEntities();
    assert Entity('&') == "&amp;" && Entity('<') == "&lt;" && Entity('>') == "&gt;" && Entity('"') == "&quot;";
  }

  /** Five replaces leave the ampersands coded. */
  function Fifth(ts: seq<Token>): seq<Token> {
    Turn(Turn(Turn(Turn(Turn(ts, "&lt;", '<'), "&gt;", '>'), "&quot;", '"'), "&#39;", '\''), "&apos;", '\'')
  }

  lemma TwoReplaces(ts: seq<Token>, p: string, c: char, q: string, d: char)
    requires Apart(ts) && IsEntity(p) && IsEntity(q) && c != '&' && d != '&'
    ensures Apart(Turn(Turn(ts, p, c), q, d))
    ensures Replace(Replace(Written(ts), p, [c]), q, [d]) == Written(Turn(Turn(ts, p, c), q, d))
  {
    ReplaceTurns(ts, p, c);
    ReplaceTurns(Turn(ts, p, c), q, d);
  }

  lemma FiveReplaces(ts: seq<Token>)
    requires Apart(ts)
    ensures Apart(Fifth(ts)) && Unescape(Written(ts)) == Replace(Written(Fifth(ts)), "&amp;", "&")
  {
    EntitiesAreEntities();
    assert Entity('<') == "&lt;" && Entity('>') == "&gt;" && Entity('"') == "&quot;";
    TwoReplaces(ts, "&lt;", '<', "&gt;", '>');
    var angles := Turn(Turn(ts, "&lt;", '<'), "&gt;", '>');
    TwoReplaces(angles, "&quot;", '"', "&#39;", '\'');
    ReplaceTurns(Turn(Turn(angles, "&quot;", '"'), "&#39;", '\''), "&apos;", '\'');
  }

  lemma SixthIsPlain(ts: seq<Token>)
    requires AllWritable(ts)
    ensures var r := Turn(Fifth(ts), "&amp;", '&'); forall i | 0 <= i < |ts| :: r[i] == Plain(Meaning(ts[i]))
  {
    EntitiesDiffer();
  }

  lemma {:induction false} PlainIsWritten(ts: seq<Token>, s: string)
    requires |ts| == |s| && forall i | 0 <= i < |ts| :: ts[i] == Plain(s[i])
    ensures Written(ts) == s
  {
    if ts != [] {
      PlainIsWritten(ts[1..], s[1..]);
      assert s == [s[0]] + s[1..];
    }
  }

  /** A text written with any of the six entities decodes to what it means. */
  lemma UnescapeDecodes(ts: seq<Token>)
    requires AllWritable(ts)
    ensures Unescape(Written(ts)) == Meant(ts)
  {
    WritableIsApart(ts);
    FiveReplaces(ts);
    EntitiesAreEntities();
    assert Entity('&') == "&amp;";
    ReplaceTurns(Fifth(ts), "&amp;", '&');
    SixthIsPlain(ts);
    PlainIsWritten(Turn(Fifth(ts), "&amp;", '&'), Meant(ts));
  }
}
