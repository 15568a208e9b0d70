/** Building a VEVENT and reading its properties back. Date conversion is a
    parameter: an instant or a day turned into its iCalendar form, if valid. */
module Vevent {
  import opened Base
  import opened Text
  import opened IcalText

  datatype Fields = Fields(
    summary: Option<string>, description: Option<string>, dtstart: Option<string>,
    dtend: Option<string>, location: Option<string>, allDay: bool)

  // ── reading ──────────────────────────────────────────────────────────

  datatype Prop = Summary | Description | Dtstart | Dtend | Location | Other

  /** What matters of the part before the colon. */
  datatype Name = Name(prop: Prop, date: bool, dateTime: bool)

  datatype Line = Begin | End | Blank | Property(name: Name, value: string)

  function PropOf(upper: string): Prop {
    if upper == "SUMMARY" then Summary
    else if upper == "DESCRIPTION" then Description
    else if upper == "DTSTART" then Dtstart
    else if upper == "DTEND" then Dtend
    else if upper == "LOCATION" then Location
    else Other
  }

  function BeforeSemicolon(s: string): string {
    match IndexOf(s, ';')
    case None => s
    case Some(i) => s[..i]
  }

  function NameOf(part: string): Name {
    var upper := ToUpper(part);
    Name(PropOf(ToUpper(BeforeSemicolon(part))), Contains(upper, DATE), Contains(upper, DATE_TIME))
  }

  function LineOf(raw: string): Line {
    var line := Trim(raw);
    if SameIgnoringCase(line, "BEGIN:VEVENT") then Begin
    else if SameIgnoringCase(line, "END:VEVENT") then End
    else match IndexOf(line, ':')
      case None => Blank
      case Some(i) => Property(NameOf(line[..i]), Trim(line[i + 1..]))
  }

  function Assign(f: Fields, name: Name, value: string): Fields {
    match name.prop
    case Summary => f.(summary := Some(value))
    case Description => f.(description := Some(value))
    case Dtstart => f.(dtstart := Some(value), allDay := !name.dateTime && (name.date || ByteLen(value) == 8))
    case Dtend => f.(dtend := Some(value))
    case Location => f.(location := Some(value))
    case Other => f
  }

  datatype Reading = Reading(fields: Fields, inEvent: bool, done: bool)

  const START := Reading(Fields(None, None, None, None, None, false), false, false)

  function Dispatch(r: Reading, line: Line): Reading {
    if r.done then r
    else match line
      case Begin => r.(inEvent := true)
      case End => r.(done := true)
      case Blank => r
      case Property(name, value) => if r.inEvent then r.(fields := Assign(r.fields, name, value)) else r
  }

  function Run(r: Reading, lines: seq<Line>): Reading
    decreases |lines|
  {
    if lines == [] then r else Run(Dispatch(r, lines[0]), lines[1..])
  }

  function Read(raws: seq<string>): (r: seq<Line>)
    ensures |r| == |raws| && forall i | 0 <= i < |raws| :: r[i] == LineOf(raws[i])
  {
    seq(|raws|, i requires 0 <= i < |raws| => LineOf(raws[i]))
  }

  function FieldsIn(raws: seq<string>): Fields { Run(START, Read(raws)).fields }

  function ReadFields(ical: string): Fields { FieldsIn(Lines(ical)) }

  lemma {:induction false} DoneStaysDone(r: Reading, lines: seq<Line>)
    requires r.done
    ensures Run(r, lines) == r
    decreases |lines|
  {
    if lines != [] {
      DoneStaysDone(r, lines[1..]);
    }
  }

  lemma RunStep(r: Reading, lines: seq<Line>, i: nat)
    requires i < |lines|
    ensures Run(r, lines[i..]) == Run(Dispatch(r, lines[i]), lines[i + 1..])
  {
    assert lines[i..][0] == lines[i] && lines[i..][1..] == lines[i + 1..];
  }

  /** `parse_vevent_fields`: one pass, left at the first END. */
  method ParseVeventFields(ical: string) returns (f: Fields)
    ensures f == ReadFields(ical)
  {
    var raws := Lines(ical);
    f := ReadLines(raws, Read(raws));
  }

  method ReadLines(raws: seq<string>, ghost lines: seq<Line>) returns (f: Fields)
    requires |lines| == |raws| && forall i | 0 <= i < |raws| :: lines[i] == LineOf(raws[i])
    ensures f == Run(START, lines).fields
  {
    f := START.fields;
    var inEvent := false;
    var i := 0;
    assert lines[0..] == lines;
    while i < |raws|
      invariant 0 <= i <= |raws|
      invariant Run(Reading(f, inEvent, false), lines[i..]) == Run(START, lines)
    {
      var line := LineOf(raws[i]);
      RunStep(Reading(f, inEvent, false), lines, i);
      i := i + 1;
      match line {
        case Begin => inEvent := true;
        case End =>
          DoneStaysDone(Reading(f, inEvent, true), lines[i..]);
          return;
        case Blank =>
        case Property(name, value) =>
          if inEvent {
            f := Assign(f, name, value);
          }
      }
    }
  }

  // ── writing ──────────────────────────────────────────────────────────

  datatype NewEvent = NewEvent(
    summary: string, dtstart: string, dtend: Option<string>, allDay: bool,
    location: Option<string>, description: Option<string>)

  /** `ical_utc` and `ical_date`. */
  datatype Dates = Dates(utc: string -> Option<string>, date: string -> Option<string>)

  datatype EndDate = Bad | Missing | Ends(value: string)

  function StartOf(e: NewEvent, d: Dates): Option<string> { if e.allDay then d.date(e.dtstart) else d.utc(e.dtstart) }

  function EndOf(e: NewEvent, d: Dates): EndDate {
    if e.dtend.None? || (!e.allDay && Trim(e.dtend.value) == "") then Missing
    else match if e.allDay then d.date(e.dtend.value) else d.utc(e.dtend.value)
      case None => Bad
      case Some(v) => Ends(v)
  }

  /** The text of an optional field, if it has any. */
  function TextOf(field: Option<string>): Option<string> {
    if field.Some? && Trim(field.value) != "" then Some(Escape(Trim(field.value))) else None
  }

  function DateName(name: string, allDay: bool): string { if allDay then name + ";VALUE=DATE" else name }

  function Entry(name: string, value: string): string { name + ":" + value }

  function Opt(name: string, value: Option<string>): seq<string> {
    if value.Some? then [Entry(name, value.value)] else []
  }

  function EndValue(end: EndDate): Option<string> { if end.Ends? then Some(end.value) else None }

  const PREAMBLE: seq<string> := ["BEGIN:VCALENDAR", "VERSION:2.0", "PRODID:-//Lyra//EN"]

  const HEAD: seq<string> := PREAMBLE + ["BEGIN:VEVENT"]

  function TailLines(now: string): seq<string> { [Entry("DTSTAMP", now), "END:VEVENT", "END:VCALENDAR"] }

  function OptionalLines(e: NewEvent, d: Dates): seq<string> {
    Opt(DateName("DTEND", e.allDay), EndValue(EndOf(e, d))) +
    (Opt("LOCATION", TextOf(e.location)) + Opt("DESCRIPTION", TextOf(e.description)))
  }

  function EventLines(uid: string, e: NewEvent, d: Dates, now: string): seq<string>
    requires StartOf(e, d).Some?
  {
    HEAD + (RequiredLines(uid, Escape(Trim(e.summary)), Entry(DateName("DTSTART", e.allDay), StartOf(e, d).value)) +
            (OptionalLines(e, d) + TailLines(now)))
  }

  /** `build_vevent`; `now` is the time stamp. */
  function BuildVevent(uid: string, e: NewEvent, d: Dates, now: string): Option<string> {
    if Trim(e.summary) == "" || StartOf(e, d).None? || EndOf(e, d).Bad? then None
    else Some(JoinCrlf(EventLines(uid, e, d, now)))
  }

  // ── round trip ───────────────────────────────────────────────────────

  ghost predicate Clean(s: string) { s != "" && forall c | c in s :: !IsSpace(c) }

  /** Dates are written without white space; a timed one is not eight bytes long. */
  ghost predicate GoodDates(d: Dates) {
    && (forall s {:trigger d.utc(s)} :: d.utc(s).Some? ==> Clean(d.utc(s).value) && ByteLen(d.utc(s).value) != 8)
    && (forall s {:trigger d.date(s)} :: d.date(s).Some? ==> Clean(d.date(s).value))
  }

  /** What a reader gets to see. */
  function FieldsOf(e: NewEvent, d: Dates): Fields
    requires StartOf(e, d).Some?
  {
    Fields(Some(Escape(Trim(e.summary))), TextOf(e.description), StartOf(e, d), EndValue(EndOf(e, d)),
           TextOf(e.location), e.allDay)
  }

  lemma {:induction false} TrimEndBehind(p: string, v: string)
    requires p != "" && !IsSpace(p[|p| - 1])
    ensures TrimEnd(p + v) == p + TrimEnd(v)
    decreases |v|
  {
    var x := p + v;
    if v == "" {
      assert x == p;
    } else {
      assert x[|x| - 1] == v[|v| - 1];
      assert x[..|x| - 1] == p + v[..|v| - 1];
      TrimEndBehind(p, v[..|v| - 1]);
    }
  }

  lemma ColonFound(part: string, v: string)
    requires ':' !in part
    ensures IndexOf(Entry(part, v), ':') == Some(|part|)
    ensures Entry(part, v)[..|part|] == part && Entry(part, v)[|part| + 1..] == v
  {
    assert Entry(part, v) == part + (":" + v);
    IndexOfSkips(part, ":" + v, ':');
  }

  predicate NameLike(part: string) {
    part != "" && ':' !in part && !IsSpace(part[0]) && UpperAscii(part[0]) != 'B' && UpperAscii(part[0]) != 'E'
  }

  lemma TrimEntry(part: string, v: string)
    requires NameLike(part)
    ensures Trim(Entry(part, v)) == Entry(part, TrimEnd(v))
  {
    assert Entry(part, v)[0] == part[0];
    assert (part + ":")[|part + ":"| - 1] == ':';
    TrimEndBehind(part + ":", v);
  }

  lemma NotAMarker(line: string)
    requires line != "" && UpperAscii(line[0]) != 'B' && UpperAscii(line[0]) != 'E'
    ensures !SameIgnoringCase(line, "BEGIN:VEVENT") && !SameIgnoringCase(line, "END:VEVENT")
  {
    assert UpperAscii("BEGIN:VEVENT"[0]) == 'B' && UpperAscii("END:VEVENT"[0]) == 'E';
  }

  lemma EntryReads(part: string, v: string)
    requires NameLike(part)
    ensures LineOf(Entry(part, v)) == Property(NameOf(part), Trim(TrimEnd(v)))
  {
    TrimEntry(part, v);
    NotAMarker(Entry(part, TrimEnd(v)));
    ColonFound(part, TrimEnd(v));
  }

  lemma TrimmedEntryReads(part: string, v: string)
    requires NameLike(part) && Trimmed(v)
    ensures LineOf(Entry(part, v)) == Property(NameOf(part), v)
  {
    EntryReads(part, v);
    assert TrimEnd(v) == v;
    TrimmedIsFixed(v);
  }

  lemma PropsOfNames()
    ensures PropOf("SUMMARY") == Summary && PropOf("LOCATION") == Location && PropOf("DESCRIPTION") == Description
    ensures PropOf("DTSTART") == Dtstart && PropOf("DTEND") == Dtend && PropOf("UID") == Other
    ensures PropOf("DTSTAMP") == Other
  {
    var summary, description, start, end, location := "SUMMARY", "DESCRIPTION", "DTSTART", "DTEND", "LOCATION";
    var uid, stamp := "UID", "DTSTAMP";
    assert |summary| == |start| == |stamp| == 7 && |description| == 11 && |end| == 5 && |location| == 8 && |uid| == 3;
    assert summary[5] == 'R' && start[5] == 'R' && stamp[5] == 'M' && summary[0] == 'S' && start[0] == 'D';
  }

  lemma PlainName(part: string)
    requires Upper(part) && ';' !in part
    ensures NameOf(part).prop == PropOf(part) && ToUpper(part) == part
  {
    ToUpperOfUpper(part);
  }

  lemma DatedName(part: string, upper: string)
    requires ';' !in part && upper == part + ";VALUE=DATE"
    ensures BeforeSemicolon(upper) == part
  {
    IndexOfSkips(part, ";VALUE=DATE", ';');
  }

  lemma UpperNames()
    ensures Upper("SUMMARY") && Upper("LOCATION") && Upper("DESCRIPTION") && Upper("DTSTART") && Upper("DTEND")
    ensures Upper("UID") && Upper("DTSTAMP") && Upper(";VALUE=DATE")
    ensures ';' !in "SUMMARY" && ';' !in "LOCATION" && ';' !in "DESCRIPTION" && ';' !in "DTSTART" && ';' !in "DTEND"
    ensures ';' !in "UID" && ';' !in "DTSTAMP"
  {
  }

  const DATE: string := "VALUE=DATE"
  const DATE_TIME: string := "VALUE=DATE-TIME"

  lemma LacksDateMarks(part: string)
    ensures '-' !in part ==> !Contains(part, DATE_TIME)
    ensures '=' !in part ==> !Contains(part, DATE)
  {
    assert DATE_TIME[10] == '-' && DATE[5] == '=';
    if '-' !in part {
      LacksCharLacksPattern(part, DATE_TIME, '-');
    }
    if '=' !in part {
      LacksCharLacksPattern(part, DATE, '=');
    }
  }

  lemma HasDateMark(name: string)
    ensures Contains(name + ";VALUE=DATE", DATE)
  {
    var part := name + ";VALUE=DATE";
    assert part[|name| + 1..|name| + 1 + |DATE|] == DATE;
    ContainsAt(part, DATE, |name| + 1);
  }

  lemma UpperNameOf(part: string)
    requires Upper(part)
    ensures NameOf(part) ==
            Name(PropOf(ToUpper(BeforeSemicolon(part))), Contains(part, DATE), Contains(part, DATE_TIME))
  {
    ToUpperOfUpper(part);
  }

  lemma UndatedNameReads(name: string)
    requires Upper(name) && ';' !in name && '=' !in name && '-' !in name
    ensures NameOf(name) == Name(PropOf(name), false, false)
  {
    LacksDateMarks(name);
    UpperNameOf(name);
    PlainName(name);
  }

  lemma DatedNameReads(name: string, part: string)
    requires Upper(name) && ';' !in name && '-' !in name && part == name + ";VALUE=DATE" && Upper(part) && '-' !in part
    ensures NameOf(part) == Name(PropOf(name), true, false)
  {
    LacksDateMarks(part);
    UpperNameOf(part);
    ToUpperOfUpper(name);
    DatedName(name, part);
    HasDateMark(name);
  }

  lemma DatedIsUpper(name: string)
    requires Upper(name) && '-' !in name && Upper(";VALUE=DATE")
    ensures Upper(name + ";VALUE=DATE") && '-' !in name + ";VALUE=DATE"
  {
    assert '-' !in ";VALUE=DATE";
  }

  lemma DateNameReads(name: string, allDay: bool)
    requires Upper(name) && ';' !in name && '=' !in name && '-' !in name && Upper(";VALUE=DATE")
    ensures NameOf(DateName(name, allDay)) == Name(PropOf(name), allDay, false)
  {
    if allDay {
      DatedIsUpper(name);
      DatedNameReads(name, DateName(name, true));
    } else {
      UndatedNameReads(name);
    }
  }

  // ── running over written lines ───────────────────────────────────────

  lemma {:induction false} RunAppend(r: Reading, a: seq<Line>, b: seq<Line>)
    ensures Run(r, a + b) == Run(Run(r, a), b)
    decreases |a|
  {
    if a == [] {
      assert a + b == b;
    } else {
      assert (a + b)[1..] == a[1..] + b;
      RunAppend(Dispatch(r, a[0]), a[1..], b);
    }
  }

  lemma RunOne(r: Reading, l: Line)
    ensures Run(r, [l]) == Dispatch(r, l)
  {
    assert [l][1..] == [];
  }

  lemma ReadAppend(a: seq<string>, b: seq<string>)
    ensures Read(a + b) == Read(a) + Read(b)
  {
  }

  lemma ReadOne(raw: string, line: Line)
    requires LineOf(raw) == line
    ensures Read([raw]) == [line]
  {
  }

  lemma BeginReads()
    ensures LineOf("BEGIN:VEVENT") == Begin
  {
    TrimmedIsFixed("BEGIN:VEVENT");
  }

  lemma EndReads()
    ensures LineOf("END:VEVENT") == End
  {
    TrimmedIsFixed("END:VEVENT");
    assert |"BEGIN:VEVENT"| == 12 && |"END:VEVENT"| == 10;
  }

  /** Only lines of the markers' lengths can be markers. */
  lemma NoMarkerReads(l: string)
    requires Trimmed(l) && |l| != 12 && |l| != 10
    ensures !LineOf(l).Begin? && !LineOf(l).End?
  {
    TrimmedIsFixed(l);
    assert |"BEGIN:VEVENT"| == 12 && |"END:VEVENT"| == 10;
  }

  lemma NoMarkersRead(raws: seq<string>)
    requires forall i | 0 <= i < |raws| :: Trimmed(raws[i]) && |raws[i]| != 12 && |raws[i]| != 10
    ensures forall i | 0 <= i < |raws| :: !Read(raws)[i].Begin? && !Read(raws)[i].End?
  {
    forall i | 0 <= i < |raws|
      ensures !Read(raws)[i].Begin? && !Read(raws)[i].End?
    {
      NoMarkerReads(raws[i]);
    }
  }

  lemma PreambleShape()
    ensures forall i | 0 <= i < |PREAMBLE| :: Trimmed(PREAMBLE[i]) && |PREAMBLE[i]| != 12 && |PREAMBLE[i]| != 10
  {
    var a, b, c := "BEGIN:VCALENDAR", "VERSION:2.0", "PRODID:-//Lyra//EN";
    assert |a| == 15 && |b| == 11 && |c| == 18;
    assert Trimmed(a) && Trimmed(b) && Trimmed(c);
  }

  /** Before the event only markers matter. */
  lemma {:induction false} RunPreamble(lines: seq<Line>)
    requires forall i | 0 <= i < |lines| :: !lines[i].Begin? && !lines[i].End?
    ensures Run(START, lines) == START
    decreases |lines|
  {
    if lines != [] {
      assert Dispatch(START, lines[0]) == START;
      RunPreamble(lines[1..]);
    }
  }

  lemma RunHeadOf(pre: seq<string>, begin: string)
    requires forall i | 0 <= i < |pre| :: !Read(pre)[i].Begin? && !Read(pre)[i].End?
    requires LineOf(begin) == Begin
    ensures Run(START, Read(pre + [begin])) == START.(inEvent := true)
  {
    ReadAppend(pre, [begin]);
    ReadOne(begin, Begin);
    RunAppend(START, Read(pre), [Begin]);
    RunPreamble(Read(pre));
    RunOne(START, Begin);
  }

  lemma RunHead()
    ensures Run(START, Read(HEAD)) == START.(inEvent := true)
  {
    PreambleShape();
    NoMarkersRead(PREAMBLE);
    BeginReads();
    RunHeadOf(PREAMBLE, "BEGIN:VEVENT");
  }

  /** The name reader as a value. */
  type Namer = string -> Name

  ghost predicate IsNamer(nm: Namer) { forall part {:trigger NameOf(part)} :: nm(part) == NameOf(part) }

  ghost predicate Open(r: Reading) { r.inEvent && !r.done }

  /** A property inside the event sets what its name says. */
  lemma RunProperty(r: Reading, name: Name, v: string)
    requires Open(r)
    ensures Run(r, [Property(name, v)]) == r.(fields := Assign(r.fields, name, v))
  {
    RunOne(r, Property(name, v));
  }

  lemma EntryLine(nm: Namer, part: string, v: string, name: Name)
    requires IsNamer(nm) && NameLike(part) && Trimmed(v) && nm(part) == name
    ensures Read([Entry(part, v)]) == [Property(name, v)]
  {
    assert nm(part) == NameOf(part);
    TrimmedEntryReads(part, v);
    ReadOne(Entry(part, v), Property(name, v));
  }

  lemma RunEntry(nm: Namer, r: Reading, part: string, v: string, name: Name)
    requires IsNamer(nm) && Open(r) && NameLike(part) && Trimmed(v) && nm(part) == name
    ensures Run(r, Read([Entry(part, v)])) == r.(fields := Assign(r.fields, name, v))
  {
    EntryLine(nm, part, v, name);
    RunProperty(r, name, v);
  }

  lemma IgnoredLine(nm: Namer, part: string, v: string, name: Name) returns (value: string)
    requires IsNamer(nm) && NameLike(part) && nm(part) == name
    ensures Read([Entry(part, v)]) == [Property(name, value)]
  {
    assert nm(part) == NameOf(part);
    EntryReads(part, v);
    value := LineOf(Entry(part, v)).value;
    ReadOne(Entry(part, v), Property(name, value));
  }

  lemma RunIgnored(nm: Namer, r: Reading, part: string, v: string, name: Name)
    requires IsNamer(nm) && Open(r) && NameLike(part) && nm(part) == name && name.prop == Other
    ensures Run(r, Read([Entry(part, v)])) == r
  {
    var value := IgnoredLine(nm, part, v, name);
    RunProperty(r, name, value);
  }

  lemma RunOpt(nm: Namer, r: Reading, part: string, v: Option<string>, name: Name)
    requires IsNamer(nm) && Open(r) && NameLike(part) && (v.Some? ==> Trimmed(v.value)) && nm(part) == name
    ensures Run(r, Read(Opt(part, v))) == if v.Some? then r.(fields := Assign(r.fields, name, v.value)) else r
  {
    if v.Some? {
      RunEntry(nm, r, part, v.value, name);
    } else {
      assert Read([]) == [];
    }
  }

  lemma NamesAreNameLike()
    ensures NameLike("UID") && NameLike("SUMMARY") && NameLike("LOCATION") && NameLike("DESCRIPTION")
    ensures NameLike("DTSTAMP")
  {
    assert "UID"[0] == 'U' && "SUMMARY"[0] == 'S' && "LOCATION"[0] == 'L';
    assert "DESCRIPTION"[0] == 'D' && "DTSTAMP"[0] == 'D';
  }

  lemma DateNamesAreNameLike(allDay: bool)
    ensures NameLike(DateName("DTSTART", allDay)) && NameLike(DateName("DTEND", allDay))
  {
    assert "DTSTART"[0] == 'D' && "DTEND"[0] == 'D';
  }

  /** What a plain name is read as. */
  lemma NameRead(nm: Namer, part: string, prop: Prop) returns (name: Name)
    requires IsNamer(nm) && Upper(part) && ';' !in part && PropOf(part) == prop
    ensures name == nm(part) && name.prop == prop
  {
    name := NameOf(part);
    PlainName(part);
  }

  lemma RunEnd(r: Reading)
    requires Open(r)
    ensures Run(r, Read(["END:VEVENT", "END:VCALENDAR"])) == r.(done := true)
  {
    var last := Read(["END:VCALENDAR"]);
    assert ["END:VEVENT", "END:VCALENDAR"] == ["END:VEVENT"] + ["END:VCALENDAR"];
    ReadAppend(["END:VEVENT"], ["END:VCALENDAR"]);
    EndReads();
    ReadOne("END:VEVENT", End);
    RunAppend(r, [End], last);
    RunOne(r, End);
    DoneStaysDone(r.(done := true), last);
  }

  lemma RunStamp(nm: Namer, r: Reading, now: string)
    requires IsNamer(nm) && Open(r)
    ensures Run(r, Read([Entry("DTSTAMP", now)])) == r
  {
    NamesAreNameLike();
    UpperNames();
    PropsOfNames();
    var name := NameRead(nm, "DTSTAMP", Other);
    RunIgnored(nm, r, "DTSTAMP", now, name);
  }

  lemma RunTail(nm: Namer, r: Reading, now: string)
    requires IsNamer(nm) && Open(r)
    ensures Run(r, Read(TailLines(now))).fields == r.fields
  {
    var stamp, rest := [Entry("DTSTAMP", now)], ["END:VEVENT", "END:VCALENDAR"];
    assert TailLines(now) == stamp + rest;
    ReadAppend(stamp, rest);
    RunAppend(r, Read(stamp), Read(rest));
    RunStamp(nm, r, now);
    RunEnd(r);
  }

  lemma TextIsTrimmed(field: Option<string>)
    ensures TextOf(field).Some? ==> Trimmed(TextOf(field).value) && '\n' !in TextOf(field).value
  {
    if TextOf(field).Some? {
      TrimIsTrimmed(field.value);
      EscapedIsTrimmed(Trim(field.value));
      EscapedStaysOnLine(Trim(field.value));
    }
  }

  lemma CleanIsTrimmed(s: string)
    requires Clean(s)
    ensures Trimmed(s) && '\n' !in s
  {
    assert IsSpace('\n');
  }

  // Each part of the text, in order.

  lemma RunUid(nm: Namer, r: Reading, uid: string)
    requires IsNamer(nm) && Open(r)
    ensures Run(r, Read([Entry("UID", uid)])) == r
  {
    NamesAreNameLike();
    UpperNames();
    PropsOfNames();
    var name := NameRead(nm, "UID", Other);
    RunIgnored(nm, r, "UID", uid, name);
  }

  lemma RunSummary(nm: Namer, r: Reading, text: string)
    requires IsNamer(nm) && Open(r) && Trimmed(text)
    ensures Run(r, Read([Entry("SUMMARY", text)])) == r.(fields := r.fields.(summary := Some(text)))
  {
    NamesAreNameLike();
    UpperNames();
    PropsOfNames();
    var name := NameRead(nm, "SUMMARY", Summary);
    RunEntry(nm, r, "SUMMARY", text, name);
  }

  lemma NamesLackMarks()
    ensures '=' !in "DTSTART" && '-' !in "DTSTART" && '=' !in "DTEND" && '-' !in "DTEND"
  {
  }

  lemma StartName(nm: Namer, allDay: bool)
    requires IsNamer(nm)
    ensures nm(DateName("DTSTART", allDay)) == Name(Dtstart, allDay, false)
  {
    UpperNames();
    PropsOfNames();
    NamesLackMarks();
    DateNameReads("DTSTART", allDay);
  }

  lemma EndName(nm: Namer, allDay: bool)
    requires IsNamer(nm)
    ensures nm(DateName("DTEND", allDay)) == Name(Dtend, allDay, false)
  {
    UpperNames();
    PropsOfNames();
    NamesLackMarks();
    DateNameReads("DTEND", allDay);
  }

  lemma StartIsClean(e: NewEvent, d: Dates)
    requires GoodDates(d) && StartOf(e, d).Some?
    ensures Clean(StartOf(e, d).value) && (!e.allDay ==> ByteLen(StartOf(e, d).value) != 8)
  {
  }

  lemma RunStart(nm: Namer, r: Reading, e: NewEvent, d: Dates)
    requires IsNamer(nm) && Open(r) && GoodDates(d) && StartOf(e, d).Some?
    ensures Run(r, Read([Entry(DateName("DTSTART", e.allDay), StartOf(e, d).value)])) ==
            r.(fields := r.fields.(dtstart := StartOf(e, d), allDay := e.allDay))
  {
    var v := StartOf(e, d).value;
    StartIsClean(e, d);
    CleanIsTrimmed(v);
    StartName(nm, e.allDay);
    DateNamesAreNameLike(e.allDay);
    RunEntry(nm, r, DateName("DTSTART", e.allDay), v, Name(Dtstart, e.allDay, false));
  }

  lemma EndIsClean(e: NewEvent, d: Dates)
    requires GoodDates(d)
    ensures EndOf(e, d).Ends? ==> Clean(EndOf(e, d).value)
  {
  }

  lemma EndIsTrimmed(e: NewEvent, d: Dates, end: Option<string>)
    requires GoodDates(d) && end == EndValue(EndOf(e, d))
    ensures end.Some? ==> Trimmed(end.value) && '\n' !in end.value
  {
    EndIsClean(e, d);
    if end.Some? {
      CleanIsTrimmed(end.value);
    }
  }

  lemma RunEndLine(nm: Namer, r: Reading, part: string, end: Option<string>, allDay: bool)
    requires IsNamer(nm) && Open(r) && NameLike(part) && nm(part) == Name(Dtend, allDay, false)
    requires end.Some? ==> Trimmed(end.value)
    ensures Run(r, Read(Opt(part, end))) == if end.Some? then r.(fields := r.fields.(dtend := end)) else r
  {
    RunOpt(nm, r, part, end, Name(Dtend, allDay, false));
  }

  lemma RunEndDate(nm: Namer, r: Reading, allDay: bool, end: Option<string>)
    requires IsNamer(nm) && Open(r) && (end.Some? ==> Trimmed(end.value))
    ensures Run(r, Read(Opt(DateName("DTEND", allDay), end))) ==
            if end.Some? then r.(fields := r.fields.(dtend := end)) else r
  {
    EndName(nm, allDay);
    DateNamesAreNameLike(allDay);
    RunEndLine(nm, r, DateName("DTEND", allDay), end, allDay);
  }

  lemma RunLocation(nm: Namer, r: Reading, e: NewEvent)
    requires IsNamer(nm) && Open(r) && r.fields.location.None?
    ensures Run(r, Read(Opt("LOCATION", TextOf(e.location)))) == r.(fields := r.fields.(location := TextOf(e.location)))
  {
    NamesAreNameLike();
    UpperNames();
    PropsOfNames();
    TextIsTrimmed(e.location);
    var name := NameRead(nm, "LOCATION", Location);
    RunOpt(nm, r, "LOCATION", TextOf(e.location), name);
  }

  lemma RunDescription(nm: Namer, r: Reading, e: NewEvent)
    requires IsNamer(nm) && Open(r) && r.fields.description.None?
    ensures Run(r, Read(Opt("DESCRIPTION", TextOf(e.description)))) ==
            r.(fields := r.fields.(description := TextOf(e.description)))
  {
    NamesAreNameLike();
    UpperNames();
    PropsOfNames();
    TextIsTrimmed(e.description);
    var name := NameRead(nm, "DESCRIPTION", Description);
    RunOpt(nm, r, "DESCRIPTION", TextOf(e.description), name);
  }

  lemma RunTexts(nm: Namer, r: Reading, e: NewEvent)
    requires IsNamer(nm) && Open(r) && r.fields.location.None? && r.fields.description.None?
    ensures Run(r, Read(Opt("LOCATION", TextOf(e.location)) + Opt("DESCRIPTION", TextOf(e.description)))) ==
            r.(fields := r.fields.(location := TextOf(e.location), description := TextOf(e.description)))
  {
    var loc, desc := Opt("LOCATION", TextOf(e.location)), Opt("DESCRIPTION", TextOf(e.description));
    ReadAppend(loc, desc);
    RunAppend(r, Read(loc), Read(desc));
    RunLocation(nm, r, e);
    RunDescription(nm, r.(fields := r.fields.(location := TextOf(e.location))), e);
  }

  lemma RunOptional(nm: Namer, r: Reading, e: NewEvent, d: Dates)
    requires IsNamer(nm) && Open(r) && GoodDates(d) && r.fields.location.None? && r.fields.description.None?
    requires r.fields.dtend.None?
    ensures Run(r, Read(OptionalLines(e, d))) ==
            r.(fields := r.fields.(dtend := EndValue(EndOf(e, d)), location := TextOf(e.location),
                                   description := TextOf(e.description)))
  {
    var end := EndValue(EndOf(e, d));
    var dates := Opt(DateName("DTEND", e.allDay), end);
    var texts := Opt("LOCATION", TextOf(e.location)) + Opt("DESCRIPTION", TextOf(e.description));
    ReadAppend(dates, texts);
    RunAppend(r, Read(dates), Read(texts));
    EndIsTrimmed(e, d, end);
    RunEndDate(nm, r, e.allDay, end);
    RunTexts(nm, r.(fields := r.fields.(dtend := end)), e);
  }

  /** The three lines every event has. */
  function RequiredLines(uid: string, summary: string, start: string): seq<string> {
    [Entry("UID", uid)] + ([Entry("SUMMARY", summary)] + [start])
  }

  lemma RunRequired(nm: Namer, uid: string, text: string, e: NewEvent, d: Dates)
    requires IsNamer(nm) && GoodDates(d) && StartOf(e, d).Some? && Trimmed(text)
    ensures Run(START.(inEvent := true),
                Read(RequiredLines(uid, text, Entry(DateName("DTSTART", e.allDay), StartOf(e, d).value)))) ==
            Reading(Fields(Some(text), None, StartOf(e, d), None, None, e.allDay), true, false)
  {
    var r := START.(inEvent := true);
    var a, b := [Entry("UID", uid)], [Entry("SUMMARY", text)];
    var c := [Entry(DateName("DTSTART", e.allDay), StartOf(e, d).value)];
    ReadAppend(a, b + c);
    RunAppend(r, Read(a), Read(b + c));
    RunUid(nm, r, uid);
    ReadAppend(b, c);
    RunAppend(r, Read(b), Read(c));
    RunSummary(nm, r, text);
    RunStart(nm, r.(fields := r.fields.(summary := Some(text))), e, d);
  }

  lemma RunParts(head: seq<string>, req: seq<string>, opt: seq<string>, tail: seq<string>)
    ensures Run(START, Read(head + (req + (opt + tail)))) ==
            Run(Run(Run(Run(START, Read(head)), Read(req)), Read(opt)), Read(tail))
  {
    ReadAppend(head, req + (opt + tail));
    ReadAppend(req, opt + tail);
    ReadAppend(opt, tail);
    RunAppend(START, Read(head), Read(req + (opt + tail)));
    RunAppend(Run(START, Read(head)), Read(req), Read(opt + tail));
    RunAppend(Run(Run(START, Read(head)), Read(req)), Read(opt), Read(tail));
  }

  lemma SummaryIsTrimmed(summary: string)
    requires Trim(summary) != ""
    ensures Trimmed(Escape(Trim(summary))) && '\n' !in Escape(Trim(summary))
  {
    TrimIsTrimmed(summary);
    EscapedIsTrimmed(Trim(summary));
    EscapedStaysOnLine(Trim(summary));
  }

  lemma RunEvent(nm: Namer, uid: string, e: NewEvent, d: Dates, now: string)
    requires IsNamer(nm) && GoodDates(d) && StartOf(e, d).Some? && Trim(e.summary) != ""
    ensures FieldsIn(EventLines(uid, e, d, now)) == FieldsOf(e, d)
  {
    var text := Escape(Trim(e.summary));
    var req := RequiredLines(uid, text, Entry(DateName("DTSTART", e.allDay), StartOf(e, d).value));
    var r := Reading(Fields(Some(text), None, StartOf(e, d), None, None, e.allDay), true, false);
    RunParts(HEAD, req, OptionalLines(e, d), TailLines(now));
    RunHead();
    SummaryIsTrimmed(e.summary);
    RunRequired(nm, uid, text, e, d);
    RunOptional(nm, r, e, d);
    RunTail(nm, r.(fields := FieldsOf(e, d)), now);
  }

  // ── lines ────────────────────────────────────────────────────────────

  ghost predicate OneLine(l: string) { l != "" && '\n' !in l }

  lemma EntryIsOneLine(part: string, v: string)
    requires '\n' !in part && '\n' !in v
    ensures OneLine(Entry(part, v))
  {
  }

  ghost predicate AllOneLine(ls: seq<string>) { forall i | 0 <= i < |ls| :: OneLine(ls[i]) }

  lemma OneLineAppend(a: seq<string>, b: seq<string>)
    requires AllOneLine(a) && AllOneLine(b)
    ensures AllOneLine(a + b)
  {
  }

  lemma TextNamesAreOneLine()
    ensures '\n' !in "UID" && '\n' !in "SUMMARY" && '\n' !in "LOCATION" && '\n' !in "DESCRIPTION" && '\n' !in "DTSTAMP"
  {
  }

  lemma DateNamesAreOneLine(allDay: bool)
    ensures '\n' !in DateName("DTSTART", allDay) && '\n' !in DateName("DTEND", allDay)
  {
    assert '\n' !in "DTSTART" && '\n' !in "DTEND" && '\n' !in ";VALUE=DATE";
  }

  lemma HeadIsOneLine()
    ensures AllOneLine(HEAD)
  {
    assert '\n' !in "BEGIN:VCALENDAR" && '\n' !in "VERSION:2.0";
    assert '\n' !in "PRODID:-//Lyra//EN" && '\n' !in "BEGIN:VEVENT";
  }

  lemma OptIsOneLine(part: string, v: Option<string>)
    requires '\n' !in part && (v.Some? ==> '\n' !in v.value)
    ensures AllOneLine(Opt(part, v))
  {
    if v.Some? {
      EntryIsOneLine(part, v.value);
    }
  }

  lemma OptionalOneLine(e: NewEvent, d: Dates)
    requires GoodDates(d)
    ensures AllOneLine(OptionalLines(e, d))
  {
    var end := EndValue(EndOf(e, d));
    TextNamesAreOneLine();
    DateNamesAreOneLine(e.allDay);
    TextIsTrimmed(e.location);
    TextIsTrimmed(e.description);
    EndIsTrimmed(e, d, end);
    OptIsOneLine(DateName("DTEND", e.allDay), end);
    OptIsOneLine("LOCATION", TextOf(e.location));
    OptIsOneLine("DESCRIPTION", TextOf(e.description));
    OneLineAppend(Opt("LOCATION", TextOf(e.location)), Opt("DESCRIPTION", TextOf(e.description)));
    OneLineAppend(Opt(DateName("DTEND", e.allDay), end),
                  Opt("LOCATION", TextOf(e.location)) + Opt("DESCRIPTION", TextOf(e.description)));
  }

  lemma RequiredOneLine(uid: string, text: string, start: string)
    requires '\n' !in uid && '\n' !in text && OneLine(start)
    ensures AllOneLine(RequiredLines(uid, text, start))
  {
    TextNamesAreOneLine();
    EntryIsOneLine("UID", uid);
    EntryIsOneLine("SUMMARY", text);
  }

  lemma TailOneLine(now: string)
    requires '\n' !in now
    ensures AllOneLine(TailLines(now))
  {
    TextNamesAreOneLine();
    EntryIsOneLine("DTSTAMP", now);
    assert '\n' !in "END:VEVENT" && '\n' !in "END:VCALENDAR";
  }

  lemma StartOneLine(e: NewEvent, d: Dates)
    requires GoodDates(d) && StartOf(e, d).Some?
    ensures OneLine(Entry(DateName("DTSTART", e.allDay), StartOf(e, d).value))
  {
    StartIsClean(e, d);
    CleanIsTrimmed(StartOf(e, d).value);
    DateNamesAreOneLine(e.allDay);
    EntryIsOneLine(DateName("DTSTART", e.allDay), StartOf(e, d).value);
  }

  lemma EventOneLine(uid: string, e: NewEvent, d: Dates, now: string)
    requires GoodDates(d) && '\n' !in uid && '\n' !in now && StartOf(e, d).Some? && Trim(e.summary) != ""
    ensures AllOneLine(EventLines(uid, e, d, now))
  {
    var text, start := Escape(Trim(e.summary)), Entry(DateName("DTSTART", e.allDay), StartOf(e, d).value);
    HeadIsOneLine();
    SummaryIsTrimmed(e.summary);
    StartOneLine(e, d);
    RequiredOneLine(uid, text, start);
    OptionalOneLine(e, d);
    TailOneLine(now);
    OneLineAppend(OptionalLines(e, d), TailLines(now));
    OneLineAppend(RequiredLines(uid, text, start), OptionalLines(e, d) + TailLines(now));
    OneLineAppend(HEAD, RequiredLines(uid, text, start) + (OptionalLines(e, d) + TailLines(now)));
  }

  lemma JoinedReadsBack(lines: seq<string>)
    requires lines != [] && AllOneLine(lines)
    ensures Lines(JoinCrlf(lines)) == lines
  {
    assert forall l | l in lines :: '\n' !in l;
    LinesOfJoined(lines);
    assert OneLine(lines[|lines| - 1]);
  }

  /** Field text never adds a line: the text reads back as the lines written. */
  lemma WrittenLinesReadBack(uid: string, e: NewEvent, d: Dates, now: string)
    requires GoodDates(d) && '\n' !in uid && '\n' !in now && BuildVevent(uid, e, d, now).Some?
    ensures Lines(BuildVevent(uid, e, d, now).value) == EventLines(uid, e, d, now)
  {
    EventOneLine(uid, e, d, now);
    JoinedReadsBack(EventLines(uid, e, d, now));
  }

  /** Reading a built event gives the escaped trimmed texts, the dates as
      written and the same all-day flag. */
  lemma ReaderInvertsBuilder(uid: string, e: NewEvent, d: Dates, now: string)
    requires GoodDates(d) && '\n' !in uid && '\n' !in now && BuildVevent(uid, e, d, now).Some?
    ensures ReadFields(BuildVevent(uid, e, d, now).value) == FieldsOf(e, d)
  {
    var nm: Namer := part => NameOf(part);
    WrittenLinesReadBack(uid, e, d, now);
    RunEvent(nm, uid, e, d, now);
  }

  // ── what is written, and when nothing is ─────────────────────────────

  /** A date given: any for an all-day event, one that is not blank for a timed one. */
  predicate GivesEnd(e: NewEvent) { e.dtend.Some? && (e.allDay || Trim(e.dtend.value) != "") }

  /** The date in the form the event calls for: a day or an instant. */
  function Converted(e: NewEvent, d: Dates, raw: string): Option<string> {
    if e.allDay then d.date(raw) else d.utc(raw)
  }

  /** Nothing is built just when the summary is blank, or the start or an end that is
      given cannot be converted. */
  lemma BuildFailsIff(uid: string, e: NewEvent, d: Dates, now: string)
    ensures BuildVevent(uid, e, d, now).None? <==>
            || Trim(e.summary) == "" || Converted(e, d, e.dtstart).None?
            || (GivesEnd(e) && Converted(e, d, e.dtend.value).None?)
  {
  }

  /** The dates read back are those given, converted; the texts those given, trimmed
      and escaped, blank ones left out. */
  lemma BuiltFieldsAre(uid: string, e: NewEvent, d: Dates, now: string)
    requires GoodDates(d) && '\n' !in uid && '\n' !in now && BuildVevent(uid, e, d, now).Some?
    ensures var f := ReadFields(BuildVevent(uid, e, d, now).value);
            && f.summary == Some(Escape(Trim(e.summary))) && f.allDay == e.allDay
            && f.dtstart == Converted(e, d, e.dtstart)
            && f.dtend == (if GivesEnd(e) then Converted(e, d, e.dtend.value) else None)
            && f.location == (if e.location.None? || Trim(e.location.value) == "" then None
                              else Some(Escape(Trim(e.location.value))))
            && f.description == (if e.description.None? || Trim(e.description.value) == "" then None
                                 else Some(Escape(Trim(e.description.value))))
  {
    ReaderInvertsBuilder(uid, e, d, now);
  }
}
