/** The fields of an event as its lines give them: for each property the last line
    that names it. */
module VeventProperty {
  import opened Base
  import opened Text
  import opened IcalText
  import opened Vevent
  import opened IcalProperty

  function Title(p: Prop): string {
    match p
    case Summary => "SUMMARY"
    case Description => "DESCRIPTION"
    case Dtstart => "DTSTART"
    case Dtend => "DTEND"
    case Location => "LOCATION"
    case Other => ""
  }

  function Get(f: Fields, p: Prop): Option<string> {
    match p
    case Summary => f.summary
    case Description => f.description
    case Dtstart => f.dtstart
    case Dtend => f.dtend
    case Location => f.location
    case Other => None
  }

  lemma TitlesDiffer()
    ensures forall p, q | p != Other && q != Other && p != q :: Title(p) != Title(q)
  {
    assert |"SUMMARY"| == 7 && |"DESCRIPTION"| == 11 && |"DTSTART"| == 7 && |"DTEND"| == 5 && |"LOCATION"| == 8;
    assert "SUMMARY"[0] == 'S' && "DTSTART"[0] == 'D';
  }

  lemma PropOfTitle(upper: string, p: Prop)
    requires p != Other
    ensures PropOf(upper) == p <==> upper == Title(p)
  {
    TitlesDiffer();
    if PropOf(upper) != Other {
      assert upper == Title(PropOf(upper));
    }
  }

  // ── what one line says ───────────────────────────────────────────────

  predicate About(l: Line, p: Prop) { l.Property? && l.name.prop == p }

  /** Inside an event, neither a BEGIN nor an END. */
  ghost predicate Inner(raw: string) { !LineOf(raw).Begin? && !LineOf(raw).End? }

  /** A line that gives a property a value is read so. */
  lemma SpelledLine(raw: string, name: string, params: string, v: string)
    requires Spelled(Trim(raw), name, params, v) && Inner(raw)
    ensures LineOf(raw) == Property(NameOf(name + params), Trim(v))
    ensures BeforeSemicolon(name + params) == name
  {
    SpelledReads(Trim(raw), name, params, v);
  }

  lemma ColonCut(line: string, i: nat) returns (name: string, params: string)
    requires IndexOf(line, ':') == Some(i)
    ensures Spelled(line, name, params, line[i + 1..])
    ensures name + params == line[..i] && BeforeSemicolon(line[..i]) == name
  {
    var part := line[..i];
    assert line == part + (":" + line[i + 1..]);
    CutIsSpelled(line, part, line[i + 1..]);
    name := BeforeSemicolon(part);
    params := part[|name|..];
  }

  lemma LineIsCut(raw: string)
    requires LineOf(raw).Property?
    ensures var i := IndexOf(Trim(raw), ':'); i.Some? && LineOf(raw).name == NameOf(Trim(raw)[..i.value])
  {
  }

  lemma NameOfPart(part: string, name: string)
    requires BeforeSemicolon(part) == name
    ensures NameOf(part).prop == PropOf(ToUpper(name))
  {
  }

  lemma LineNames(raw: string, p: Prop)
    requires p != Other && About(LineOf(raw), p)
    ensures Names(Trim(raw), Title(p))
  {
    LineIsCut(raw);
    var line := Trim(raw);
    var i := IndexOf(line, ':').value;
    var name, params := ColonCut(line, i);
    NameOfPart(line[..i], name);
    PropOfTitle(ToUpper(name), p);
    assert Writes(line, Title(p), line[i + 1..]);
  }

  // ── the last line of a property ──────────────────────────────────────

  lemma {:induction false} RunKeeps(r: Reading, lines: seq<Line>, p: Prop)
    requires p != Other && forall i | 0 <= i < |lines| :: !lines[i].End? && !About(lines[i], p)
    ensures var r' := Run(r, lines);
            && Get(r'.fields, p) == Get(r.fields, p) && r'.done == r.done && (r.inEvent ==> r'.inEvent)
            && (p == Dtstart ==> r'.fields.allDay == r.fields.allDay)
    decreases |lines|
  {
    if lines != [] {
      RunKeeps(Dispatch(r, lines[0]), lines[1..], p);
    }
  }

  lemma {:induction false} RunOpens(r: Reading, lines: seq<Line>)
    requires !r.done && forall i | 0 <= i < |lines| :: !lines[i].End?
    ensures !Run(r, lines).done && (r.inEvent || Begin in lines ==> Run(r, lines).inEvent)
    decreases |lines|
  {
    if lines != [] {
      assert lines == [lines[0]] + lines[1..];
      RunOpens(Dispatch(r, lines[0]), lines[1..]);
    }
  }

  /** Line `k` of an event that ends at line `e` gives the property its value, and no
      later line of the event names it. */
  ghost predicate LastIn(raws: seq<string>, e: nat, k: nat, p: Prop, name: string, params: string, v: string) {
    && k < e < |raws| && LineOf(raws[e]).End?
    && (forall m | 0 <= m < e :: !LineOf(raws[m]).End?) && (exists b :: 0 <= b < k && LineOf(raws[b]).Begin?)
    && Spelled(Trim(raws[k]), name, params, v) && ToUpper(name) == Title(p) && Inner(raws[k])
    && (forall m | k < m < e :: Inner(raws[m]) && !Names(Trim(raws[m]), Title(p)))
  }

  lemma RunPieces(a: seq<Line>, l: Line, b: seq<Line>, c: seq<Line>)
    ensures Run(START, a + ([l] + (b + c))) == Run(Run(Dispatch(Run(START, a), l), b), c)
  {
    RunAppend(START, a, [l] + (b + c));
    RunAppend(Run(START, a), [l], b + c);
    RunOne(Run(START, a), l);
    RunAppend(Dispatch(Run(START, a), l), b, c);
  }

  lemma CutLines(lines: seq<Line>, k: nat, e: nat)
    requires k < e < |lines|
    ensures lines == lines[..k] + ([lines[k]] + (lines[k + 1..e] + lines[e..]))
  {
  }

  lemma RunEnds(r: Reading, lines: seq<Line>)
    requires lines != [] && lines[0].End? && !r.done
    ensures Run(r, lines).fields == r.fields
  {
    DoneStaysDone(r.(done := true), lines[1..]);
  }

  /** The field an event is read with is what its last line of that property says. */
  lemma LastLineWins(lines: seq<Line>, k: nat, e: nat, p: Prop)
    requires p != Other && k < e < |lines| && lines[e].End? && About(lines[k], p)
    requires (forall m | 0 <= m < e :: !lines[m].End?) && Begin in lines[..k]
    requires forall m | k < m < e :: !About(lines[m], p)
    ensures var f, l := Run(START, lines).fields, lines[k];
            && Get(f, p) == Some(l.value)
            && (p == Dtstart ==> f.allDay == (!l.name.dateTime && (l.name.date || ByteLen(l.value) == 8)))
  {
    var r := Run(START, lines[..k]);
    RunOpens(START, lines[..k]);
    CutLines(lines, k, e);
    RunPieces(lines[..k], lines[k], lines[k + 1..e], lines[e..]);
    RunKeeps(Dispatch(r, lines[k]), lines[k + 1..e], p);
    RunEnds(Run(Dispatch(r, lines[k]), lines[k + 1..e]), lines[e..]);
  }

  lemma ReadIsAbout(raws: seq<string>, e: nat, k: nat, p: Prop, name: string, params: string, v: string)
    requires p != Other && LastIn(raws, e, k, p, name, params, v)
    ensures var lines := Read(raws);
            && lines[k] == Property(NameOf(name + params), Trim(v)) && About(lines[k], p)
            && Begin in lines[..k] && forall m | k < m < e :: !About(lines[m], p)
  {
    var lines := Read(raws);
    SpelledLine(raws[k], name, params, v);
    PropOfTitle(ToUpper(name), p);
    var b :| 0 <= b < k && LineOf(raws[b]).Begin?;
    assert lines[..k][b] == Begin;
    forall m | k < m < e
      ensures !About(lines[m], p)
    {
      if About(lines[m], p) {
        LineNames(raws[m], p);
      }
    }
  }

  /** Every field is the trimmed value of the event's last line for it. */
  lemma FieldIsLastLine(raws: seq<string>, e: nat, k: nat, p: Prop, name: string, params: string, v: string)
    requires p != Other && LastIn(raws, e, k, p, name, params, v)
    ensures Get(FieldsIn(raws), p) == Some(Trim(v))
  {
    ReadIsAbout(raws, e, k, p, name, params, v);
    LastLineWins(Read(raws), k, e, p);
  }

  /** An event is all-day unless its start says DATE-TIME, if the start says DATE or
      is eight bytes long. */
  lemma AllDayIff(raws: seq<string>, e: nat, k: nat, name: string, params: string, v: string)
    requires LastIn(raws, e, k, Dtstart, name, params, v)
    ensures var upper := ToUpper(name + params);
            FieldsIn(raws).allDay <==>
            !Contains(upper, "VALUE=DATE-TIME") && (Contains(upper, "VALUE=DATE") || ByteLen(Trim(v)) == 8)
  {
    ReadIsAbout(raws, e, k, Dtstart, name, params, v);
    LastLineWins(Read(raws), k, e, Dtstart);
  }

  lemma HasTimeMark(name: string)
    ensures Contains(name + ";VALUE=DATE-TIME", DATE_TIME)
  {
    var part := name + ";VALUE=DATE-TIME";
    assert part[|name| + 1..|name| + 1 + |DATE_TIME|] == DATE_TIME;
    ContainsAt(part, DATE_TIME, |name| + 1);
  }

  lemma TimeMarkIsUpper()
    ensures Upper(";VALUE=DATE-TIME")
  {
  }

  lemma TimedPart(name: string)
    requires Upper(name)
    ensures Contains(ToUpper(name + ";VALUE=DATE-TIME"), DATE_TIME)
  {
    TimeMarkIsUpper();
    ToUpperOfUpper(name + ";VALUE=DATE-TIME");
    HasTimeMark(name);
  }

  /** `DTSTART;VALUE=DATE-TIME` is a time, however long the value is. */
  lemma DateTimeIsTimed(raws: seq<string>, e: nat, k: nat, name: string, params: string, v: string)
    requires LastIn(raws, e, k, Dtstart, name, params, v) && name == "DTSTART" && params == ";VALUE=DATE-TIME"
    ensures !FieldsIn(raws).allDay
  {
    UpperNames();
    TimedPart(name);
    AllDayIff(raws, e, k, name, params, v);
  }

  /** A plain start is a day just when it is eight bytes long. */
  lemma PlainStartIsDayIff(raws: seq<string>, e: nat, k: nat, v: string)
    requires LastIn(raws, e, k, Dtstart, "DTSTART", "", v)
    ensures FieldsIn(raws).allDay <==> ByteLen(Trim(v)) == 8
  {
    UpperNames();
    ToUpperOfUpper("DTSTART");
    assert "DTSTART" + "" == "DTSTART";
    LacksDateMarks("DTSTART");
    AllDayIff(raws, e, k, "DTSTART", "", v);
  }
}
