/** The sync-collection report (section 3 of RFC 6578): reading one, and proof
    that reading inverts writing. */
module SyncReport {
  import opened Base
  import opened Text
  import opened XmlTags
  import opened XmlNesting
  import opened XmlShape
  import opened XmlForest
  import opened XmlText
  import opened XmlContent
  import opened XmlPanic

  datatype Item = Item(href: string, etag: string)

  /** `Crashed`: some `tag_text` slice panicked. */
  datatype Report = Crashed | Report(changed: seq<Item>, removed: seq<string>, token: Option<string>, invalid: bool)

  datatype Entry = Broken | Ignored | Gone(href: string) | Live(item: Item)

  function ReadEntry(block: string): Entry {
    Classify(TagText(block, "href"), TagText(block, "getetag"), Contains(block, "404"))
  }

  function Classify(href: Scan, etag: Scan, says404: bool): Entry {
    match href
    case Panics => Broken
    case Absent => Ignored
    case Found(h) =>
      match etag
      case Panics => Broken
      case Absent => if says404 then Gone(h) else Ignored
      case Found(e) => Live(Item(h, e))
  }

  function AddEntry(r: Report, e: Entry): Report {
    if r.Crashed? then r
    else match e
      case Broken => Crashed
      case Ignored => r
      case Gone(href) => r.(removed := r.removed + [href])
      case Live(item) => r.(changed := r.changed + [item])
  }

  function AddAll(r: Report, entries: seq<Entry>): Report
    decreases |entries|
  {
    if entries == [] then r else AddAll(AddEntry(r, entries[0]), entries[1..])
  }

  function ReadAll(blocks: seq<string>): (r: seq<Entry>)
    ensures |r| == |blocks|
  {
    seq(|blocks|, i requires 0 <= i < |blocks| => ReadEntry(blocks[i]))
  }

  /** The inside of an opening tag flags its token as invalid or denied. */
  predicate FlagIn(head: string) { Contains(head, "invalid") || Contains(head, "denied") }

  function Head(s: string): string {
    match IndexOf(s, '>')
    case None => s
    case Some(gt) => s[..gt]
  }

  predicate Flagged(block: string, sc: Scanner) {
    var open := sc.open(block);
    open.Some? && FlagIn(Head(block[open.value.start..]))
  }

  function TokenReport(token: Scan, invalid: bool): Report {
    match token
    case Panics => Crashed
    case Absent => Report([], [], None, invalid)
    case Found(t) => Report([], [], Some(t), invalid)
  }

  function ReadToken(body: string): Report {
    var sc := ScannerFor("sync-token");
    match Element(body, sc)
    case None => Report([], [], None, false)
    case Some(sp) =>
      var block := body[sp.start..sp.end];
      TokenReport(TagText(block, "sync-token"), Flagged(block, sc))
  }

  function ParseSync(body: string): Report { AddAll(ReadToken(body), ReadAll(Blocks(body, ScannerFor("response")))) }

  /** `parse_sync_response`: token first, then one pass over the blocks. */
  method ParseSyncResponse(body: string) returns (r: Report)
    ensures r == ParseSync(body)
  {
    r := ReadToken(body);
    var blocks := Blocks(body, ScannerFor("response"));
    r := Collect(r, blocks);
  }

  method Collect(start: Report, blocks: seq<string>) returns (r: Report)
    ensures r == AddAll(start, ReadAll(blocks))
  {
    r := start;
    ghost var entries := ReadAll(blocks);
    for i := 0 to |blocks|
      invariant AddAll(r, entries[i..]) == AddAll(start, entries)
    {
      var e := ReadEntry(blocks[i]);
      AddAllStep(r, entries, i);
      r := AddEntry(r, e);
    }
  }

  lemma AddAllStep(r: Report, entries: seq<Entry>, i: nat)
    requires i < |entries|
    ensures AddAll(r, entries[i..]) == AddAll(AddEntry(r, entries[i]), entries[i + 1..])
  {
    assert entries[i..][0] == entries[i] && entries[i..][1..] == entries[i + 1..];
  }

  // ── writing a report ─────────────────────────────────────────────────

  /** `Refused` is a response with any other status and no etag. */
  datatype Member =
    | Changed(href: string, etag: string)
    | Removed(href: string)
    | Refused(href: string, status: string)

  /** How elements are written, by local name: namespace prefix, attributes, the
      text in front of the first child and the text behind the element. */
  datatype Style = Style(
    prefix: string -> string,
    attrs: string -> string,
    lead: string -> string,
    gap: string -> string)

  /** A member and the style its response is written in. */
  datatype Styled = Styled(m: Member, st: Style)

  function NameIn(st: Style, l: string): string { st.prefix(l) + l }

  /** An element with children. */
  function Parent(st: Style, l: string, kids: Forest, rest: Forest): Forest {
    Elem(NameIn(st, l), st.attrs(l), Chars(st.lead(l), kids), Chars(st.gap(l), rest))
  }

  /** An element holding text as it stands. */
  function Plain(st: Style, l: string, t: string, rest: Forest): Forest {
    Elem(NameIn(st, l), st.attrs(l), Chars(t, Nil), Chars(st.gap(l), rest))
  }

  /** An element holding one escaped text. */
  function Leaf(st: Style, l: string, text: string, rest: Forest): Forest { Plain(st, l, XmlEscape(text), rest) }

  const OK: string := "HTTP/1.1 200 OK"
  const NOT_FOUND: string := "HTTP/1.1 404 Not Found"

  function Propstat(st: Style, etag: string): Forest {
    Parent(st, "propstat", Parent(st, "prop", Leaf(st, "getetag", etag, Nil), Plain(st, "status", OK, Nil)), Nil)
  }

  /** The children of one `response`. */
  function ResponseKids(st: Style, m: Member): Forest {
    match m
    case Changed(href, etag) => Leaf(st, "href", href, Propstat(st, etag))
    case Removed(href) => Leaf(st, "href", href, Plain(st, "status", NOT_FOUND, Nil))
    case Refused(href, status) => Leaf(st, "href", href, Leaf(st, "status", status, Nil))
  }

  function Responses(es: seq<Styled>, rest: Forest): Forest {
    if es == [] then rest else Parent(es[0].st, "response", ResponseKids(es[0].st, es[0].m), Responses(es[1..], rest))
  }

  /** A multistatus with a prolog, the members and a token. */
  function Multistatus(root: Style, prolog: string, sep: string, es: seq<Styled>, token: string): Forest {
    Mark(prolog, Chars(sep, Parent(root, "multistatus", Responses(es, Leaf(root, "sync-token", token, Nil)), Nil)))
  }

  function ChangedIn(m: Member): seq<Item> { if m.Changed? then [Item(m.href, m.etag)] else [] }

  function RemovedIn(m: Member): seq<string> { if m.Removed? then [m.href] else [] }

  function ChangedOf(ms: seq<Member>): seq<Item> { if ms == [] then [] else ChangedIn(ms[0]) + ChangedOf(ms[1..]) }

  function RemovedOf(ms: seq<Member>): seq<string> { if ms == [] then [] else RemovedIn(ms[0]) + RemovedOf(ms[1..]) }

  /** What the reader takes a member for: a refusal whose block holds "404"
      anywhere passes for a removal. */
  function Judged(e: Styled): Member {
    if e.m.Refused? && Contains(BlockOf(e), "404") then Removed(e.m.href) else e.m
  }

  function Members(es: seq<Styled>): (r: seq<Member>)
    ensures |r| == |es| && forall i | 0 <= i < |es| :: r[i] == Judged(es[i])
  {
    seq(|es|, i requires 0 <= i < |es| => Judged(es[i]))
  }

  predicate GoodText(s: string) { s != "" && Trimmed(s) }

  predicate GoodMember(m: Member) { GoodText(m.href) && (m.Changed? ==> GoodText(m.etag)) }

  /** A prefix such as `D:`, or none. */
  predicate GoodPrefix(q: string) {
    && (q == "" || (q[0] != '/' && q[|q| - 1] == ':'))
    && NoAngles(q) && forall i | 0 <= i < |q| :: !IsSpace(q[i])
  }

  const TAGS: set<string> := {"response", "href", "getetag", "sync-token"}

  const NAMES: set<string> := {"response", "href", "propstat", "prop", "getetag", "status", "multistatus", "sync-token"}

  predicate GoodProlog(p: string) {
    NoAngles(p) && (p == "" || p[0] != '/') && forall t | t in TAGS :: OpenLocal(p) != t
  }

  /** Any prefixes, attributes without angle brackets, and text without `<` in the gaps. */
  ghost predicate GoodStyle(st: Style) {
    forall l {:trigger st.prefix(l)} | l in NAMES ::
      GoodPrefix(st.prefix(l)) && AttrsOk(st.attrs(l)) && '<' !in st.lead(l) && '<' !in st.gap(l)
  }

  // ── local names of the rendered elements ─────────────────────────────

  lemma AfterFirstColon(p: string, x: string)
    requires ':' !in p
    ensures AfterColon(p + ([':'] + x)) == AfterColon(x)
  {
    IndexOfSkips(p, [':'] + x, ':');
    assert (p + ([':'] + x))[|p| + 1..] == x;
  }

  lemma {:induction false} QualifiedLocal(q: string, l: string)
    requires ':' !in l && (q == "" || q[|q| - 1] == ':')
    ensures AfterColon(q + l) == l
    decreases |q|
  {
    var i := IndexOf(q, ':');
    if q == "" {
      assert q + l == l;
    } else {
      var n := i.value;
      assert q + l == q[..n] + ([':'] + (q[n + 1..] + l));
      AfterFirstColon(q[..n], q[n + 1..] + l);
      QualifiedLocal(q[n + 1..], l);
    }
  }

  predicate LowerCase(c: char) { 'a' <= c <= 'z' || c == '-' }

  predicate PlainName(l: string) { l != "" && forall c | c in l :: LowerCase(c) }

  lemma PlainNameOk(l: string)
    requires PlainName(l)
    ensures ':' !in l && NoAngles(l) && l[0] != '/' && l[|l| - 1] != '/' && forall i | 0 <= i < |l| :: !IsSpace(l[i])
  {
    assert !LowerCase(':') && !LowerCase('<') && !LowerCase('>') && !LowerCase('/');
    forall i | 0 <= i < |l|
      ensures !IsSpace(l[i])
    {
      assert LowerCase(l[i]);
    }
  }

  lemma QualifiedNameOk(q: string, l: string)
    requires GoodPrefix(q) && PlainName(l)
    ensures NameOk(q + l) && AfterColon(q + l) == l
  {
    PlainNameOk(l);
    QualifiedLocal(q, l);
    JoinedNameOk(q, l);
  }

  lemma JoinedNameOk(q: string, l: string)
    requires GoodPrefix(q) && l != "" && NoAngles(l) && l[0] != '/' && l[|l| - 1] != '/'
    requires forall i | 0 <= i < |l| :: !IsSpace(l[i])
    ensures NameOk(q + l)
  {
    var n := q + l;
    assert n[|n| - 1] == l[|l| - 1] && n[0] == if q == "" then l[0] else q[0];
  }

  /** The names written are well-formed and read as what they are. */
  ghost predicate Named(st: Style, local: Local) {
    forall l {:trigger NameIn(st, l)} | l in NAMES ::
      && NameOk(NameIn(st, l)) && local(NameIn(st, l)) == l && AttrsOk(st.attrs(l))
      && '<' !in st.lead(l) && '<' !in st.gap(l)
  }

  lemma NamesArePlain()
    ensures forall l | l in NAMES :: PlainName(l)
  {
    ShortNamesArePlain();
    LongNamesArePlain();
  }

  lemma ShortNamesArePlain()
    ensures PlainName("href") && PlainName("prop") && PlainName("status") && PlainName("getetag")
  {
  }

  lemma LongNamesArePlain()
    ensures PlainName("response") && PlainName("propstat") && PlainName("multistatus") && PlainName("sync-token")
  {
  }

  lemma StyleNames(st: Style, local: Local)
    requires GoodStyle(st) && IsLocal(local)
    ensures Named(st, local)
  {
    NamesArePlain();
    forall l | l in NAMES
      ensures NameOk(NameIn(st, l)) && local(NameIn(st, l)) == l && AttrsOk(st.attrs(l)) && '<' !in st.lead(l)
      ensures '<' !in st.gap(l)
    {
      QualifiedNameOk(st.prefix(l), l);
    }
  }

  // ── one response ─────────────────────────────────────────────────────

  lemma TagsDiffer()
    ensures "response" != "href" && "response" != "getetag" && "response" != "sync-token"
    ensures "propstat" != "href" && "propstat" != "getetag" && "propstat" != "sync-token"
    ensures "prop" != "href" && "prop" != "getetag" && "prop" != "sync-token"
    ensures "status" != "href" && "status" != "getetag" && "status" != "sync-token"
    ensures "href" != "getetag" && "href" != "sync-token" && "getetag" != "sync-token"
    ensures "multistatus" != "response" && "multistatus" != "sync-token" && "sync-token" != "response"
  {
    assert "prop"[0] == 'p' && "href"[0] == 'h';
    assert |"response"| == 8 == |"propstat"| && |"prop"| == 4 == |"href"| && |"getetag"| == 7;
    assert |"status"| == 6 && |"multistatus"| == 11 && |"sync-token"| == 10;
  }

  lemma FindMisses(name: string, attrs: string, kids: Forest, rest: Forest, local: Local, tag: string)
    requires local(name) != tag
    ensures FindNode(Elem(name, attrs, kids, rest), local, tag) ==
            if FindNode(kids, local, tag).Some? then FindNode(kids, local, tag) else FindNode(rest, local, tag)
  {
  }

  lemma FindInParent(st: Style, l: string, kids: Forest, rest: Forest, local: Local, tag: string)
    requires local(NameIn(st, l)) != tag
    ensures FindNode(Parent(st, l, kids, rest), local, tag) ==
            if FindNode(kids, local, tag).Some? then FindNode(kids, local, tag) else FindNode(rest, local, tag)
  {
    FindMisses(NameIn(st, l), st.attrs(l), Chars(st.lead(l), kids), Chars(st.gap(l), rest), local, tag);
  }

  lemma FindSkipsPlain(st: Style, l: string, t: string, rest: Forest, local: Local, tag: string)
    requires local(NameIn(st, l)) != tag
    ensures FindNode(Plain(st, l, t, rest), local, tag) == FindNode(rest, local, tag)
  {
    FindMisses(NameIn(st, l), st.attrs(l), Chars(t, Nil), Chars(st.gap(l), rest), local, tag);
    assert FindNode(Chars(t, Nil), local, tag) == FindNode(Nil, local, tag) == None;
  }

  ghost predicate Written(st: Style, l: string) {
    NameOk(NameIn(st, l)) && AttrsOk(st.attrs(l)) && '<' !in st.lead(l) && '<' !in st.gap(l)
  }

  lemma PlainScannable(st: Style, l: string, t: string, rest: Forest, tag: string)
    requires Written(st, l) && '<' !in t && Scannable(rest, tag)
    ensures Scannable(Plain(st, l, t, rest), tag)
  {
    assert Scannable(Nil, tag);
    assert Scannable(Chars(t, Nil), tag) && Scannable(Chars(st.gap(l), rest), tag);
  }

  lemma StatusesHaveNoAngles()
    ensures '<' !in OK && '<' !in NOT_FOUND
  {
  }

  lemma ParentScannable(st: Style, l: string, kids: Forest, rest: Forest, tag: string)
    requires Written(st, l) && Scannable(kids, tag) && Scannable(rest, tag)
    ensures Scannable(Parent(st, l, kids, rest), tag)
  {
    assert Scannable(Chars(st.lead(l), kids), tag) && Scannable(Chars(st.gap(l), rest), tag);
  }

  lemma LeafScannable(st: Style, l: string, text: string, rest: Forest, tag: string)
    requires Written(st, l) && Scannable(rest, tag)
    ensures Scannable(Leaf(st, l, text, rest), tag)
  {
    EscapedHasNoAngles(text);
    PlainScannable(st, l, XmlEscape(text), rest, tag);
  }

  lemma NamedIsWritten(st: Style, local: Local, l: string)
    requires Named(st, local) && l in NAMES
    ensures Written(st, l) && local(NameIn(st, l)) == l
  {
  }

  lemma PropstatScannable(st: Style, local: Local, etag: string, tag: string)
    requires Named(st, local)
    ensures Scannable(Propstat(st, etag), tag)
  {
    StatusesHaveNoAngles();
    NamedIsWritten(st, local, "getetag");
    NamedIsWritten(st, local, "status");
    NamedIsWritten(st, local, "prop");
    NamedIsWritten(st, local, "propstat");
    var etags, status := Leaf(st, "getetag", etag, Nil), Plain(st, "status", OK, Nil);
    LeafScannable(st, "getetag", etag, Nil, tag);
    PlainScannable(st, "status", OK, Nil, tag);
    ParentScannable(st, "prop", etags, status, tag);
    ParentScannable(st, "propstat", Parent(st, "prop", etags, status), Nil, tag);
  }

  lemma KidsScannable(st: Style, local: Local, m: Member, tag: string)
    requires Named(st, local)
    ensures Scannable(ResponseKids(st, m), tag)
  {
    NamedIsWritten(st, local, "href");
    match m {
      case Changed(href, etag) =>
        PropstatScannable(st, local, etag, tag);
        LeafScannable(st, "href", href, Propstat(st, etag), tag);
      case Removed(href) =>
        StatusesHaveNoAngles();
        NamedIsWritten(st, local, "status");
        PlainScannable(st, "status", NOT_FOUND, Nil, tag);
        LeafScannable(st, "href", href, Plain(st, "status", NOT_FOUND, Nil), tag);
      case Refused(href, status) =>
        NamedIsWritten(st, local, "status");
        LeafScannable(st, "status", status, Nil, tag);
        LeafScannable(st, "href", href, Leaf(st, "status", status, Nil), tag);
    }
  }

  lemma EtagNode(st: Style, local: Local, etag: string, tag: string)
    requires Named(st, local) && tag in {"href", "getetag", "sync-token"}
    ensures FindNode(Propstat(st, etag), local, tag) ==
            if tag == "getetag" then Some(Leaf(st, "getetag", etag, Nil)) else None
  {
    TagsDiffer();
    NamedIsWritten(st, local, "getetag");
    NamedIsWritten(st, local, "status");
    NamedIsWritten(st, local, "prop");
    NamedIsWritten(st, local, "propstat");
    var etags, status := Leaf(st, "getetag", etag, Nil), Plain(st, "status", OK, Nil);
    FindInParent(st, "propstat", Parent(st, "prop", etags, status), Nil, local, tag);
    FindInParent(st, "prop", etags, status, local, tag);
    FindSkipsPlain(st, "status", OK, Nil, local, tag);
    if tag != "getetag" {
      FindSkipsPlain(st, "getetag", XmlEscape(etag), Nil, local, tag);
    }
  }

  /** What each search of a member's element lands on. */
  lemma KidNodes(st: Style, local: Local, m: Member, tag: string)
    requires Named(st, local) && tag in {"href", "getetag", "sync-token"}
    ensures var kids := ResponseKids(st, m);
            FindNode(kids, local, tag) ==
            if tag == "href" then Some(kids)
            else if tag == "getetag" && m.Changed? then Some(Leaf(st, "getetag", m.etag, Nil))
            else None
  {
    TagsDiffer();
    NamedIsWritten(st, local, "href");
    NamedIsWritten(st, local, "status");
    if tag != "href" {
      match m {
        case Changed(href, etag) =>
          FindSkipsPlain(st, "href", XmlEscape(href), Propstat(st, etag), local, tag);
          EtagNode(st, local, etag, tag);
        case Removed(href) =>
          FindSkipsPlain(st, "href", XmlEscape(href), Plain(st, "status", NOT_FOUND, Nil), local, tag);
          FindSkipsPlain(st, "status", NOT_FOUND, Nil, local, tag);
        case Refused(href, status) =>
          FindSkipsPlain(st, "href", XmlEscape(href), Leaf(st, "status", status, Nil), local, tag);
          FindSkipsPlain(st, "status", XmlEscape(status), Nil, local, tag);
      }
    }
  }

  lemma ContainsWithin(a: string, s: string, b: string, pat: string)
    requires Contains(s, pat)
    ensures Contains(a + (s + b), pat)
  {
    var i := IndexOfSub(s, pat).value;
    var x := a + (s + b);
    assert x[|a| + i..|a| + i + |pat|] == s[i..i + |pat|];
    ContainsAt(x, pat, |a| + i);
  }

  lemma ContainsAfter(o: string, t: string, c: string, s: string, pat: string)
    requires Contains(s, pat)
    ensures Contains(o + (t + (c + s)), pat)
  {
    ContainsWithin(o + (t + c), s, "", pat);
    assert o + (t + (c + s)) == (o + (t + c)) + (s + "");
  }

  lemma LeafRender(t: string)
    ensures Render(Chars(t, Nil)) == t
  {
  }

  lemma StatusSays404(st: Style, rest: Forest)
    ensures Contains(Render(Plain(st, "status", NOT_FOUND, rest)), "404")
  {
    assert NOT_FOUND[9..12] == "404";
    ContainsAt(NOT_FOUND, "404", 9);
    LeafRender(NOT_FOUND);
    var name := NameIn(st, "status");
    ContainsWithin(OpenTag(name, st.attrs("status")), NOT_FOUND, CloseTag(name) + Render(Chars(st.gap("status"), rest)),
                   "404");
  }

  lemma RemovedSays404(st: Style, href: string)
    ensures Contains(Render(ResponseKids(st, Removed(href))), "404")
  {
    var status, t, name, gap := Plain(st, "status", NOT_FOUND, Nil), XmlEscape(href),
        NameIn(st, "href"), st.gap("href");
    StatusSays404(st, Nil);
    LeafRender(t);
    ContainsWithin(gap, Render(status), "", "404");
    assert gap + (Render(status) + "") == Render(Chars(gap, status));
    ContainsAfter(OpenTag(name, st.attrs("href")), t, CloseTag(name), Render(Chars(gap, status)), "404");
  }

  /** The block of a member. */
  function Response(st: Style, m: Member): Forest {
    Elem(NameIn(st, "response"), st.attrs("response"), Chars(st.lead("response"), ResponseKids(st, m)), Nil)
  }

  function BlockOf(e: Styled): string {
    Whole(NameIn(e.st, "response"), e.st.attrs("response"), Chars(e.st.lead("response"), ResponseKids(e.st, e.m)))
  }

  lemma ResponseIsBlock(e: Styled)
    ensures Render(Response(e.st, e.m)) == BlockOf(e)
  {
    assert CloseTag(NameIn(e.st, "response")) + "" == CloseTag(NameIn(e.st, "response"));
  }

  lemma ResponseNodes(st: Style, local: Local, m: Member, tag: string)
    requires Named(st, local) && tag in {"href", "getetag"}
    ensures Scannable(Response(st, m), tag)
    ensures FindNode(Response(st, m), local, tag) == FindNode(ResponseKids(st, m), local, tag)
  {
    TagsDiffer();
    NamedIsWritten(st, local, "response");
    KidsScannable(st, local, m, tag);
    assert Scannable(Chars(st.lead("response"), ResponseKids(st, m)), tag) && Scannable(Nil, tag);
    FindMisses(NameIn(st, "response"), st.attrs("response"), Chars(st.lead("response"), ResponseKids(st, m)),
               Nil, local, tag);
  }

  function EntryOf(m: Member): Entry {
    match m
    case Changed(href, etag) => Live(Item(href, etag))
    case Removed(href) => Gone(href)
    case Refused(_, _) => Ignored
  }

  lemma EscapedStrips(text: string)
    ensures Strippable(Chars(XmlEscape(text), Nil)) && TextContent(Chars(XmlEscape(text), Nil)) == XmlEscape(text)
  {
    EscapedHasNoAngles(text);
    assert Strippable(Nil) && TextContent(Nil) == "";
  }

  /** `tag_text` of a tree whose first such element is a leaf. */
  lemma LeafText(f: Forest, local: Local, tag: string, text: string)
    requires IsLocal(local) && Scannable(f, tag) && GoodText(text)
    requires FindNode(f, local, tag).Some? && FindNode(f, local, tag).value.kids == Chars(XmlEscape(text), Nil)
    ensures TagText(Render(f), tag) == Found(text)
  {
    EscapedStrips(text);
    EscapedKept(text);
    assert FindNode(Chars(XmlEscape(text), Nil), local, tag) == FindNode(Nil, local, tag) == None;
    TreeText(f, local, tag);
  }

  lemma HrefReads(st: Style, local: Local, m: Member)
    requires IsLocal(local) && Named(st, local) && GoodMember(m)
    ensures TagText(Render(Response(st, m)), "href") == Found(m.href)
  {
    ResponseNodes(st, local, m, "href");
    KidNodes(st, local, m, "href");
    LeafText(Response(st, m), local, "href", m.href);
  }

  lemma EtagReads(st: Style, local: Local, m: Member)
    requires IsLocal(local) && Named(st, local) && GoodMember(m)
    ensures TagText(Render(Response(st, m)), "getetag") == if m.Changed? then Found(m.etag) else Absent
  {
    ResponseNodes(st, local, m, "getetag");
    KidNodes(st, local, m, "getetag");
    TagsDiffer();
    if m.Changed? {
      LeafText(Response(st, m), local, "getetag", m.etag);
    } else {
      NoText(Response(st, m), local, "getetag");
    }
  }

  lemma ResponseSays404(st: Style, m: Member)
    requires m.Removed?
    ensures Contains(Render(Response(st, m)), "404")
  {
    var name, lead := NameIn(st, "response"), st.lead("response");
    RemovedSays404(st, m.href);
    ContainsWithin(lead, Render(ResponseKids(st, m)), "", "404");
    assert lead + (Render(ResponseKids(st, m)) + "") == Render(Chars(lead, ResponseKids(st, m)));
    ContainsWithin(OpenTag(name, st.attrs("response")), Render(Chars(lead, ResponseKids(st, m))),
                   CloseTag(name) + "", "404");
  }

  /** `tag_text` as a value. */
  type Texts = (string, string) -> Scan

  ghost predicate IsTexts(texts: Texts) { forall x, tag {:trigger TagText(x, tag)} :: texts(x, tag) == TagText(x, tag) }

  /** The three things a block is judged by. */
  ghost predicate Says(texts: Texts, block: string, m: Member) {
    && texts(block, "href") == Found(m.href)
    && texts(block, "getetag") == (if m.Changed? then Found(m.etag) else Absent)
    && (m.Removed? ==> Contains(block, "404"))
  }

  /** A member as judged by whether its block holds "404". */
  function JudgedBy(m: Member, says404: bool): Member { if m.Refused? && says404 then Removed(m.href) else m }

  lemma ClassifyMember(m: Member, says404: bool)
    requires m.Removed? ==> says404
    ensures Classify(Found(m.href), if m.Changed? then Found(m.etag) else Absent, says404) ==
            EntryOf(JudgedBy(m, says404))
  {
  }

  lemma ReadEntryIs(texts: Texts, block: string)
    requires IsTexts(texts)
    ensures ReadEntry(block) == Classify(texts(block, "href"), texts(block, "getetag"), Contains(block, "404"))
  {
  }

  lemma ReadsAsMember(texts: Texts, block: string, m: Member)
    requires IsTexts(texts)
    ensures Says(texts, block, m) ==> ReadEntry(block) == EntryOf(JudgedBy(m, Contains(block, "404")))
  {
    ReadEntryIs(texts, block);
    if Says(texts, block, m) {
      ClassifyMember(m, Contains(block, "404"));
    }
  }

  lemma HrefSaid(texts: Texts, st: Style, local: Local, m: Member)
    requires IsTexts(texts) && IsLocal(local) && Named(st, local) && GoodMember(m)
    ensures texts(Render(Response(st, m)), "href") == Found(m.href)
  {
    HrefReads(st, local, m);
  }

  lemma EtagSaid(texts: Texts, st: Style, local: Local, m: Member)
    requires IsTexts(texts) && IsLocal(local) && Named(st, local) && GoodMember(m)
    ensures texts(Render(Response(st, m)), "getetag") == if m.Changed? then Found(m.etag) else Absent
  {
    EtagReads(st, local, m);
  }

  lemma MemberSaid(texts: Texts, st: Style, local: Local, m: Member)
    requires IsTexts(texts) && IsLocal(local) && Named(st, local) && GoodMember(m)
    ensures Says(texts, Render(Response(st, m)), m)
  {
    HrefSaid(texts, st, local, m);
    EtagSaid(texts, st, local, m);
    if m.Removed? {
      ResponseSays404(st, m);
    }
  }

  /** Each member's block reads back as that member. */
  lemma MemberReads(st: Style, local: Local, m: Member)
    requires IsLocal(local) && Named(st, local) && GoodMember(m)
    ensures ReadEntry(Render(Response(st, m))) == EntryOf(JudgedBy(m, Contains(Render(Response(st, m)), "404")))
  {
    var texts: Texts := (x, tag) => TagText(x, tag);
    MemberSaid(texts, st, local, m);
    ReadsAsMember(texts, Render(Response(st, m)), m);
  }

  // ── the whole report ─────────────────────────────────────────────────

  ghost predicate AllNamed(es: seq<Styled>, local: Local) { forall i | 0 <= i < |es| :: Named(es[i].st, local) }

  function BlocksOf(es: seq<Styled>): (r: seq<string>)
    ensures |r| == |es|
    ensures forall i | 0 <= i < |es| :: r[i] == BlockOf(es[i])
  {
    Mapped(es, e => BlockOf(e))
  }

  lemma {:induction false} ResponsesScannable(es: seq<Styled>, local: Local, rest: Forest, tag: string)
    requires AllNamed(es, local) && Scannable(rest, tag)
    ensures Scannable(Responses(es, rest), tag)
    decreases |es|
  {
    if es != [] {
      KidsScannable(es[0].st, local, es[0].m, tag);
      NamedIsWritten(es[0].st, local, "response");
      ResponsesScannable(es[1..], local, rest, tag);
      ParentScannable(es[0].st, "response", ResponseKids(es[0].st, es[0].m), Responses(es[1..], rest), tag);
    }
  }

  lemma OutermostHere(name: string, attrs: string, kids: Forest, gap: string, rest: Forest, local: Local, tag: string)
    requires IsLocal(local) && local(name) == tag
    ensures Outermost(Elem(name, attrs, kids, Chars(gap, rest)), tag) ==
            [Whole(name, attrs, kids)] + Outermost(rest, tag)
  {
    assert local(name) == AfterColon(name);
    assert Outermost(Chars(gap, rest), tag) == Outermost(rest, tag);
  }

  lemma OutermostResponse(st: Style, kids: Forest, rest: Forest, local: Local)
    requires IsLocal(local) && local(NameIn(st, "response")) == "response"
    ensures Outermost(Parent(st, "response", kids, rest), "response") ==
            [Whole(NameIn(st, "response"), st.attrs("response"), Chars(st.lead("response"), kids))]
            + Outermost(rest, "response")
  {
    var name, attrs := NameIn(st, "response"), st.attrs("response");
    OutermostHere(name, attrs, Chars(st.lead("response"), kids), st.gap("response"), rest, local, "response");
  }

  lemma OutermostInside(name: string, attrs: string, kids: Forest, rest: Forest, local: Local, tag: string)
    requires IsLocal(local) && local(name) != tag
    ensures Outermost(Elem(name, attrs, kids, rest), tag) == Outermost(kids, tag) + Outermost(rest, tag)
  {
    assert local(name) == AfterColon(name);
  }

  lemma {:induction false} ResponsesAreOutermost(es: seq<Styled>, local: Local, rest: Forest)
    requires IsLocal(local) && AllNamed(es, local) && Outermost(rest, "response") == []
    ensures Outermost(Responses(es, rest), "response") == BlocksOf(es)
    decreases |es|
  {
    if es != [] {
      ResponsesAreOutermost(es[1..], local, rest);
      NamedIsWritten(es[0].st, local, "response");
      MappedStep(es, e => BlockOf(e));
      OutermostResponse(es[0].st, ResponseKids(es[0].st, es[0].m), Responses(es[1..], rest), local);
    }
  }

  lemma {:induction false} TokenBehindResponses(es: seq<Styled>, local: Local, rest: Forest)
    requires AllNamed(es, local)
    ensures FindNode(Responses(es, rest), local, "sync-token") == FindNode(rest, local, "sync-token")
    decreases |es|
  {
    if es != [] {
      TagsDiffer();
      KidNodes(es[0].st, local, es[0].m, "sync-token");
      NamedIsWritten(es[0].st, local, "response");
      TokenBehindResponses(es[1..], local, rest);
      FindInParent(es[0].st, "response", ResponseKids(es[0].st, es[0].m),
                   Responses(es[1..], rest), local, "sync-token");
    }
  }

  function TokenLeaf(root: Style, token: string): Forest { Leaf(root, "sync-token", token, Nil) }

  lemma ReportScannable(root: Style, local: Local, prolog: string, sep: string, es: seq<Styled>, token: string,
                        tag: string)
    requires Named(root, local) && AllNamed(es, local) && GoodProlog(prolog) && '<' !in sep && tag in TAGS
    ensures Scannable(Multistatus(root, prolog, sep, es, token), tag)
  {
    var kids := Responses(es, TokenLeaf(root, token));
    NamedIsWritten(root, local, "sync-token");
    NamedIsWritten(root, local, "multistatus");
    LeafScannable(root, "sync-token", token, Nil, tag);
    ResponsesScannable(es, local, TokenLeaf(root, token), tag);
    ParentScannable(root, "multistatus", kids, Nil, tag);
    assert Scannable(Chars(sep, Parent(root, "multistatus", kids, Nil)), tag);
  }

  lemma NoResponseInLeaf(root: Style, token: string, local: Local)
    requires IsLocal(local) && local(NameIn(root, "sync-token")) != "response"
    ensures Outermost(TokenLeaf(root, token), "response") == []
  {
    var t, gap := XmlEscape(token), root.gap("sync-token");
    OutermostInside(NameIn(root, "sync-token"), root.attrs("sync-token"), Chars(t, Nil), Chars(gap, Nil),
                    local, "response");
    assert Outermost(Chars(t, Nil), "response") == Outermost(Nil, "response") == [];
    assert Outermost(Chars(gap, Nil), "response") == Outermost(Nil, "response");
  }

  lemma OutermostOfRoot(root: Style, prolog: string, sep: string, kids: Forest, local: Local)
    requires IsLocal(local) && local(NameIn(root, "multistatus")) != "response"
    ensures Outermost(Mark(prolog, Chars(sep, Parent(root, "multistatus", kids, Nil))), "response") ==
            Outermost(kids, "response")
  {
    var lead, gap := root.lead("multistatus"), root.gap("multistatus");
    OutermostInside(NameIn(root, "multistatus"), root.attrs("multistatus"), Chars(lead, kids), Chars(gap, Nil),
                    local, "response");
    assert Outermost(Chars(gap, Nil), "response") == Outermost(Nil, "response") == [];
    assert Outermost(Chars(lead, kids), "response") == Outermost(kids, "response");
  }

  lemma ReportBlocks(root: Style, local: Local, prolog: string, sep: string, es: seq<Styled>, token: string)
    requires IsLocal(local) && Named(root, local) && AllNamed(es, local) && GoodProlog(prolog) && '<' !in sep
    ensures Blocks(Render(Multistatus(root, prolog, sep, es, token)), ScannerFor("response")) == BlocksOf(es)
  {
    TagsDiffer();
    NamedIsWritten(root, local, "sync-token");
    NamedIsWritten(root, local, "multistatus");
    ReportScannable(root, local, prolog, sep, es, token, "response");
    ScannerInvertsRendering(Multistatus(root, prolog, sep, es, token), "response");
    NoResponseInLeaf(root, token, local);
    ResponsesAreOutermost(es, local, TokenLeaf(root, token));
    OutermostOfRoot(root, prolog, sep, Responses(es, TokenLeaf(root, token)), local);
  }

  lemma ReportTokenNode(root: Style, local: Local, prolog: string, sep: string, es: seq<Styled>, token: string)
    requires Named(root, local) && AllNamed(es, local)
    ensures FindNode(Multistatus(root, prolog, sep, es, token), local, "sync-token") == Some(TokenLeaf(root, token))
  {
    var kids := Responses(es, TokenLeaf(root, token));
    TagsDiffer();
    NamedIsWritten(root, local, "sync-token");
    NamedIsWritten(root, local, "multistatus");
    TokenBehindResponses(es, local, TokenLeaf(root, token));
    FindInParent(root, "multistatus", kids, Nil, local, "sync-token");
    var top := Parent(root, "multistatus", kids, Nil);
    assert FindNode(Chars(sep, top), local, "sync-token") == FindNode(top, local, "sync-token");
  }

  function WithMember(r: Report, m: Member): Report
    requires r.Report?
  {
    r.(changed := r.changed + ChangedIn(m), removed := r.removed + RemovedIn(m))
  }

  lemma AddMember(r: Report, m: Member)
    requires r.Report?
    ensures AddEntry(r, EntryOf(m)) == WithMember(r, m)
  {
    assert r.changed + [] == r.changed && r.removed + [] == r.removed;
  }

  lemma CollectMore(r: Report, ms: seq<Member>)
    requires r.Report? && ms != []
    ensures var r' := WithMember(r, ms[0]);
            r'.changed + ChangedOf(ms[1..]) == r.changed + ChangedOf(ms)
            && r'.removed + RemovedOf(ms[1..]) == r.removed + RemovedOf(ms)
  {
    AppendThrice(r.changed, ChangedIn(ms[0]), ChangedOf(ms[1..]));
    AppendThrice(r.removed, RemovedIn(ms[0]), RemovedOf(ms[1..]));
  }

  lemma {:induction false} AddAllCollects(ms: seq<Member>, entries: seq<Entry>, r: Report)
    requires r.Report? && |entries| == |ms| && forall i | 0 <= i < |ms| :: entries[i] == EntryOf(ms[i])
    ensures AddAll(r, entries) == r.(changed := r.changed + ChangedOf(ms), removed := r.removed + RemovedOf(ms))
    decreases |ms|
  {
    if ms == [] {
      assert r.changed + [] == r.changed && r.removed + [] == r.removed;
    } else {
      AddMember(r, ms[0]);
      AddAllCollects(ms[1..], entries[1..], WithMember(r, ms[0]));
      CollectMore(r, ms);
    }
  }

  // ── the token ────────────────────────────────────────────────────────

  /** The opening tag of the token, without its `>`. */
  function TokenHead(root: Style): string { "<" + (NameIn(root, "sync-token") + root.attrs("sync-token")) }

  /** The token element as written. */
  function TokenBlock(root: Style, token: string): string { WholeOf(TokenLeaf(root, token)) }

  lemma HeadOfTag(inside: string, x: string)
    requires '>' !in inside
    ensures Head("<" + inside + ">" + x) == "<" + inside
  {
    TagEnds(inside, x);
    assert ("<" + inside + ">" + x)[..1 + |inside|] == "<" + inside;
  }

  lemma ElementFlag(sc: Scanner, n: Forest, tag: string)
    requires Finds(sc, tag) && n.Elem? && NameOk(n.name) && AttrsOk(n.attrs) && AfterColon(n.name) == tag
    ensures Flagged(WholeOf(n), sc) == FlagIn("<" + (n.name + n.attrs))
  {
    var x := Render(n.kids) + CloseTag(n.name);
    OpenTagSeen(sc, tag, n.name, n.attrs, x);
    HeadOfTag(n.name + n.attrs, x);
    assert WholeOf(n)[0..] == WholeOf(n);
  }

  lemma ElemIsWhole(n: Forest)
    requires n.Elem?
    ensures Render(Elem(n.name, n.attrs, n.kids, Nil)) == WholeOf(n)
  {
    assert CloseTag(n.name) + "" == CloseTag(n.name);
  }

  /** The token's own block reads as the token. */
  lemma TokenBlockReads(root: Style, local: Local, token: string)
    requires IsLocal(local) && Named(root, local) && GoodText(token)
    ensures TagText(TokenBlock(root, token), "sync-token") == Found(token)
  {
    var n := TokenLeaf(root, token);
    var alone := Elem(n.name, n.attrs, n.kids, Nil);
    NamedIsWritten(root, local, "sync-token");
    LeafScannable(root, "sync-token", token, Nil, "sync-token");
    assert Scannable(n.kids, "sync-token") && Scannable(Nil, "sync-token");
    assert Scannable(alone, "sync-token");
    assert FindNode(alone, local, "sync-token") == Some(alone);
    LeafText(alone, local, "sync-token", token);
    ElemIsWhole(n);
  }

  lemma TokenBlockFlag(root: Style, local: Local, token: string)
    requires IsLocal(local) && Named(root, local)
    ensures Flagged(TokenBlock(root, token), ScannerFor("sync-token")) == FlagIn(TokenHead(root))
  {
    var name := NameIn(root, "sync-token");
    NamedIsWritten(root, local, "sync-token");
    assert local(name) == AfterColon(name);
    ReaderForReads("sync-token");
    ElementFlag(ScannerFor("sync-token"), TokenLeaf(root, token), "sync-token");
  }

  lemma ReadTokenAt(body: string, w: string, token: string)
    ensures (&& Slices(body, Element(body, ScannerFor("sync-token")), Some(w))
             && TagText(w, "sync-token") == Found(token)) ==>
            ReadToken(body) == Report([], [], Some(token), Flagged(w, ScannerFor("sync-token")))
  {
  }

  lemma ReportToken(root: Style, local: Local, prolog: string, sep: string, es: seq<Styled>, token: string)
    requires IsLocal(local) && Named(root, local) && AllNamed(es, local) && GoodProlog(prolog) && '<' !in sep
    requires GoodText(token)
    ensures ReadToken(Render(Multistatus(root, prolog, sep, es, token))) ==
            Report([], [], Some(token), FlagIn(TokenHead(root)))
  {
    var f := Multistatus(root, prolog, sep, es, token);
    ReportScannable(root, local, prolog, sep, es, token, "sync-token");
    ReportTokenNode(root, local, prolog, sep, es, token);
    ElementCutsFirst(f, "sync-token");
    NodeIsFirstWhole(f, local, "sync-token");
    TokenBlockReads(root, local, token);
    TokenBlockFlag(root, local, token);
    ReadTokenAt(Render(f), TokenBlock(root, token), token);
  }

  /** Reading a block, as a value. */
  type Reads = string -> Entry

  ghost predicate IsReads(read: Reads) { forall b {:trigger ReadEntry(b)} :: read(b) == ReadEntry(b) }

  lemma ReadAllAt(read: Reads, blocks: seq<string>, i: nat)
    requires IsReads(read) && i < |blocks|
    ensures ReadAll(blocks)[i] == read(blocks[i])
  {
  }

  lemma BlocksRead(read: Reads, es: seq<Styled>, local: Local)
    requires IsReads(read) && IsLocal(local) && AllNamed(es, local) && forall i | 0 <= i < |es| :: GoodMember(es[i].m)
    ensures forall i | 0 <= i < |es| :: ReadAll(BlocksOf(es))[i] == EntryOf(Judged(es[i]))
  {
    forall i | 0 <= i < |es|
      ensures ReadAll(BlocksOf(es))[i] == EntryOf(Judged(es[i]))
    {
      BlockReadAt(read, BlocksOf(es), i, es[i], local);
    }
  }

  lemma BlockReadAt(read: Reads, blocks: seq<string>, i: nat, e: Styled, local: Local)
    requires IsReads(read) && IsLocal(local) && Named(e.st, local) && GoodMember(e.m) && i < |blocks|
    requires blocks[i] == BlockOf(e)
    ensures ReadAll(blocks)[i] == EntryOf(Judged(e))
  {
    ReadAllAt(read, blocks, i);
    BlockIsRead(read, e, local);
  }

  lemma BlockIsRead(read: Reads, e: Styled, local: Local)
    requires IsReads(read) && IsLocal(local) && Named(e.st, local) && GoodMember(e.m)
    ensures read(BlockOf(e)) == EntryOf(Judged(e))
  {
    BlockReads(e, local);
  }

  lemma BlockReads(e: Styled, local: Local)
    requires IsLocal(local) && Named(e.st, local) && GoodMember(e.m)
    ensures ReadEntry(BlockOf(e)) == EntryOf(Judged(e))
  {
    ResponseIsBlock(e);
    MemberReads(e.st, local, e.m);
  }

  lemma CollectFromToken(ms: seq<Member>, entries: seq<Entry>, token: string, flag: bool)
    requires |entries| == |ms| && forall i | 0 <= i < |ms| :: entries[i] == EntryOf(ms[i])
    ensures AddAll(Report([], [], Some(token), flag), entries) ==
            Report(ChangedOf(ms), RemovedOf(ms), Some(token), flag)
  {
    var r := Report([], [], Some(token), flag);
    AddAllCollects(ms, entries, r);
    assert r.changed + ChangedOf(ms) == ChangedOf(ms) && r.removed + RemovedOf(ms) == RemovedOf(ms);
  }

  lemma ParseCollects(body: string, blocks: seq<string>, ms: seq<Member>, token: string, flag: bool)
    requires |blocks| == |ms| && forall i | 0 <= i < |ms| :: ReadAll(blocks)[i] == EntryOf(ms[i])
    ensures Blocks(body, ScannerFor("response")) == blocks && ReadToken(body) == Report([], [], Some(token), flag) ==>
            ParseSync(body) == Report(ChangedOf(ms), RemovedOf(ms), Some(token), flag)
  {
    CollectFromToken(ms, ReadAll(blocks), token, flag);
  }

  lemma ReportReads(root: Style, local: Local, prolog: string, sep: string, es: seq<Styled>, token: string, flag: bool)
    requires IsLocal(local) && Named(root, local) && AllNamed(es, local) && GoodProlog(prolog) && '<' !in sep
    requires GoodText(token)
    requires (forall i | 0 <= i < |es| :: GoodMember(es[i].m))
    requires ReadToken(Render(Multistatus(root, prolog, sep, es, token))) == Report([], [], Some(token), flag)
    ensures ParseSync(Render(Multistatus(root, prolog, sep, es, token))) ==
            Report(ChangedOf(Members(es)), RemovedOf(Members(es)), Some(token), flag)
  {
    ReportBlocks(root, local, prolog, sep, es, token);
    BlocksRead(b => ReadEntry(b), es, local);
    ParseCollects(Render(Multistatus(root, prolog, sep, es, token)), BlocksOf(es), Members(es), token, flag);
  }

  /** Reading a rendered report gives back exactly its changed and removed
      members, in order, and its token, however each response is prefixed,
      attributed and spaced; the token is flagged by what its tag says. */
  lemma ReaderInvertsReport(root: Style, prolog: string, sep: string, es: seq<Styled>, token: string)
    requires GoodStyle(root) && GoodProlog(prolog) && '<' !in sep && GoodText(token)
    requires forall i | 0 <= i < |es| :: GoodStyle(es[i].st) && GoodMember(es[i].m)
    ensures ParseSync(Render(Multistatus(root, prolog, sep, es, token))) ==
            Report(ChangedOf(Members(es)), RemovedOf(Members(es)), Some(token), FlagIn(TokenHead(root)))
  {
    var local: Local := n => AfterColon(n);
    StyleNames(root, local);
    forall i | 0 <= i < |es|
      ensures Named(es[i].st, local)
    {
      StyleNames(es[i].st, local);
    }
    ReportToken(root, local, prolog, sep, es, token);
    ReportReads(root, local, prolog, sep, es, token, FlagIn(TokenHead(root)));
  }

  /** A refused member is left alone just when its block holds no "404". */
  lemma RefusedIsIgnoredIff(e: Styled)
    requires GoodStyle(e.st) && GoodMember(e.m) && e.m.Refused?
    ensures ReadEntry(BlockOf(e)) == Ignored <==> !Contains(BlockOf(e), "404")
    ensures ReadEntry(BlockOf(e)) == Gone(e.m.href) <==> Contains(BlockOf(e), "404")
  {
    var local: Local := n => AfterColon(n);
    StyleNames(e.st, local);
    RefusedReads(b => ReadEntry(b), e, local);
  }

  lemma RefusedReads(read: Reads, e: Styled, local: Local)
    requires IsReads(read) && IsLocal(local) && Named(e.st, local) && GoodMember(e.m) && e.m.Refused?
    ensures read(BlockOf(e)) == if Contains(BlockOf(e), "404") then Gone(e.m.href) else Ignored
  {
    BlockIsRead(read, e, local);
  }

  lemma HrefIsInBlock(e: Styled)
    requires e.m.Refused? && Contains(XmlEscape(e.m.href), "404")
    ensures Contains(BlockOf(e), "404")
  {
    var st, t := e.st, XmlEscape(e.m.href);
    var rest := Chars(st.gap("href"), Leaf(st, "status", e.m.status, Nil));
    var kids, name := ResponseKids(st, e.m), NameIn(st, "response");
    LeafRender(t);
    ContainsWithin(OpenTag(NameIn(st, "href"), st.attrs("href")), t, CloseTag(NameIn(st, "href")) + Render(rest),
                   "404");
    ContainsWithin(st.lead("response"), Render(kids), "", "404");
    assert st.lead("response") + (Render(kids) + "") == Render(Chars(st.lead("response"), kids));
    ContainsWithin(OpenTag(name, st.attrs("response")), Render(Chars(st.lead("response"), kids)),
                   CloseTag(name), "404");
  }

  /** A refusal for a name that holds "404" tombstones it, whatever its status and style. */
  lemma RefusalPassesForRemoval(href: string, status: string, st: Style)
    requires GoodStyle(st) && GoodText(href) && Contains(XmlEscape(href), "404")
    ensures ReadEntry(BlockOf(Styled(Refused(href, status), st))) == Gone(href)
  {
    var e := Styled(Refused(href, status), st);
    HrefIsInBlock(e);
    RefusedIsIgnoredIff(e);
  }

  lemma OddNameIsPlain()
    ensures forall c | c in "/ab/404.vcf" :: c !in ESCAPED
  {
  }

  lemma OddNameHolds404()
    ensures GoodText("/ab/404.vcf") && Contains("/ab/404.vcf", "404")
  {
    assert "/ab/404.vcf"[4..7] == "404";
    ContainsAt("/ab/404.vcf", "404", 4);
  }

  /** One such: a 403 for this contact removes it. */
  lemma ForbiddenPassesForRemoval(href: string, status: string, st: Style)
    requires GoodStyle(st) && href == "/ab/404.vcf" && status == "HTTP/1.1 403 Forbidden"
    ensures ReadEntry(BlockOf(Styled(Refused(href, status), st))) == Gone(href)
  {
    OddNameIsPlain();
    PlainEscapes(href);
    OddNameHolds404();
    RefusalPassesForRemoval(href, status, st);
  }

  /** Without such refusals the lists are the changed and the removed members. */
  lemma WithoutFalse404(es: seq<Styled>)
    requires forall i | 0 <= i < |es| :: es[i].m.Refused? ==> !Contains(BlockOf(es[i]), "404")
    ensures Members(es) == seq(|es|, i requires 0 <= i < |es| => es[i].m)
  {
  }

  /** A token is flagged just when its opening tag says one of the two words. */
  lemma FlagIff(head: string)
    ensures FlagIn(head) <==> exists a, b :: head == a + ("invalid" + b) || head == a + ("denied" + b)
  {
    ContainsIff(head, "invalid");
    ContainsIff(head, "denied");
  }

  /** A prefix and attributes without the letter `i` never read as a flag. */
  lemma PlainHeadIsNoFlag(root: Style)
    requires 'i' !in root.prefix("sync-token") && 'i' !in root.attrs("sync-token")
    ensures !FlagIn(TokenHead(root))
  {
    var head := TokenHead(root);
    assert 'i' !in "sync-token" && "invalid"[0] == 'i' && "denied"[3] == 'i';
    LacksCharLacksPattern(head, "invalid", 'i');
    LacksCharLacksPattern(head, "denied", 'i');
  }

  // ── crashes ──────────────────────────────────────────────────────────

  lemma {:induction false} FoldCrashesIff(r: Report, entries: seq<Entry>)
    ensures AddAll(r, entries).Crashed? <==> r.Crashed? || Broken in entries
    decreases |entries|
  {
    if entries != [] {
      FoldCrashesIff(AddEntry(r, entries[0]), entries[1..]);
      assert entries == [entries[0]] + entries[1..];
    }
  }

  /** An element of this name is found, and its opening tag hides a closing tag. */
  ghost predicate Hides(x: string, tag: string) {
    Element(x, ScannerFor(tag)).Some? && FindOpen(x, tag).Some? && HidesCloser(FirstInside(x, tag), tag)
  }

  /** The token block hides its closer. */
  ghost predicate TokenHides(body: string) {
    var e := Element(body, ScannerFor("sync-token")); e.Some? && Hides(body[e.value.start..e.value.end], "sync-token")
  }

  /** A response block hides a closer where the reader looks. */
  ghost predicate BlockHides(block: string) {
    Hides(block, "href") || (TagText(block, "href").Found? && Hides(block, "getetag"))
  }

  lemma BlockBreaksIff(texts: Texts, block: string)
    requires IsTexts(texts)
    ensures ReadEntry(block).Broken? <==>
            texts(block, "href").Panics? || (texts(block, "href").Found? && texts(block, "getetag").Panics?)
  {
    ReadEntryIs(texts, block);
  }

  lemma BlockHidesIff(texts: Texts, block: string)
    requires IsTexts(texts)
    ensures BlockHides(block) <==>
            texts(block, "href").Panics? || (texts(block, "href").Found? && texts(block, "getetag").Panics?)
  {
    TagTextPanicsIff(block, "href");
    TagTextPanicsIff(block, "getetag");
  }

  lemma TokenHidesIff(body: string)
    ensures TokenHides(body) <==> ReadToken(body).Crashed?
  {
    TokenCrashesIff(body);
    var e := Element(body, ScannerFor("sync-token"));
    if e.Some? {
      TagTextPanicsIff(body[e.value.start..e.value.end], "sync-token");
    }
  }

  ghost predicate SomeBlockHides(blocks: seq<string>) { exists i :: 0 <= i < |blocks| && BlockHides(blocks[i]) }

  lemma SomeBlockBreaks(texts: Texts, blocks: seq<string>)
    requires IsTexts(texts)
    ensures Broken in ReadAll(blocks) <==> SomeBlockHides(blocks)
  {
    forall i | 0 <= i < |blocks|
      ensures ReadAll(blocks)[i] == Broken <==> BlockHides(blocks[i])
    {
      BlockBreaksIff(texts, blocks[i]);
      BlockHidesIff(texts, blocks[i]);
    }
  }

  /** `parse_sync_response` crashes exactly when the token's opening tag hides its
      closing tag, or some response does so where the reader looks: for its href,
      or with a readable href for its etag. */
  lemma CrashesIff(body: string)
    ensures ParseSync(body).Crashed? <==>
            TokenHides(body) || SomeBlockHides(Blocks(body, ScannerFor("response")))
  {
    TokenHidesIff(body);
    BlocksCrashIff(ReadToken(body), Blocks(body, ScannerFor("response")));
  }

  lemma BlocksCrashIff(r: Report, blocks: seq<string>)
    ensures AddAll(r, ReadAll(blocks)).Crashed? <==> r.Crashed? || SomeBlockHides(blocks)
  {
    FoldCrashesIff(r, ReadAll(blocks));
    SomeBlockBreaks((x, tag) => TagText(x, tag), blocks);
  }

  lemma ApartEntry(block: string)
    requires TagsApart(block)
    ensures !ReadEntry(block).Broken?
  {
    ApartNeverPanics(block, "href");
    ApartNeverPanics(block, "getetag");
  }

  lemma TokenCrashesIff(body: string)
    ensures var e := Element(body, ScannerFor("sync-token"));
            ReadToken(body).Crashed? <==> e.Some? && TagText(body[e.value.start..e.value.end], "sync-token").Panics?
  {
  }

  lemma ApartToken(body: string)
    requires TagsApart(body)
    ensures !ReadToken(body).Crashed?
  {
    TokenCrashesIff(body);
    ElementApart(body, "sync-token");
  }

  lemma ElementApart(body: string, tag: string)
    requires TagsApart(body)
    ensures var e := Element(body, ScannerFor(tag)); e.Some? ==> !TagText(body[e.value.start..e.value.end], tag).Panics?
  {
    var e := Element(body, ScannerFor(tag));
    if e.Some? {
      SlicesStayApart(body, e.value.start, e.value.end);
      ApartNeverPanics(body[e.value.start..e.value.end], tag);
    }
  }

  ghost predicate AllApart(blocks: seq<string>) { forall i | 0 <= i < |blocks| :: TagsApart(blocks[i]) }

  lemma BlocksApart(body: string, sc: Scanner)
    requires TagsApart(body)
    ensures AllApart(Blocks(body, sc))
  {
    BlocksAreSlices(body, sc);
    SlicedApart(body, Elements(body, sc), Blocks(body, sc));
  }

  lemma SlicedApart(body: string, spans: seq<Span>, blocks: seq<string>)
    requires TagsApart(body) && SlicedBy(body, spans, blocks)
    ensures AllApart(blocks)
  {
    forall i | 0 <= i < |blocks|
      ensures TagsApart(blocks[i])
    {
      SlicesStayApart(body, spans[i].start, spans[i].end);
    }
  }

  lemma ApartEntries(blocks: seq<string>)
    requires AllApart(blocks)
    ensures Broken !in ReadAll(blocks)
  {
    forall i | 0 <= i < |blocks|
      ensures ReadAll(blocks)[i] != Broken
    {
      ApartEntry(blocks[i]);
    }
  }

  /** A body with no `<` between a `<` and its `>` never crashes the reader. */
  lemma ApartNeverCrashes(body: string)
    requires TagsApart(body)
    ensures !ParseSync(body).Crashed?
  {
    var blocks := Blocks(body, ScannerFor("response"));
    ApartToken(body);
    BlocksApart(body, ScannerFor("response"));
    ApartEntries(blocks);
    FoldCrashesIff(ReadToken(body), ReadAll(blocks));
  }

  /** One that does: a token whose opening tag hides its closing tag. */
  lemma MalformedTokenCrashes(name: string)
    requires NameOk(name) && AfterColon(name) == "sync-token"
    ensures ParseSync(Malformed(name)).Crashed?
  {
    var x := Malformed(name);
    MalformedIsElement(name, "sync-token");
    MalformedPanics(name, "sync-token");
    TokenCrashes(x);
    FoldCrashesIff(ReadToken(x), ReadAll(Blocks(x, ScannerFor("response"))));
  }

  lemma TokenCrashes(x: string)
    ensures Element(x, ScannerFor("sync-token")) == Some(Span(0, |x|)) && TagText(x, "sync-token").Panics? ==>
            ReadToken(x).Crashed?
  {
    assert x[0..|x|] == x;
  }
}
