/** A calendar of one event, read as a feed: what `build_vevent` writes comes back
    whole from `parse_ics_feed`. */
module BuiltFeed {
  import opened Base
  import opened Text
  import opened IcalText
  import opened Vevent
  import opened IcsFeed
  import opened IcalProperty

  // ── lines read as a feed ─────────────────────────────────────────────

  /** A line that neither continues another nor runs into the next. */
  ghost predicate Tidy(l: string) { l != "" && !Continues(l) && BlobLine(l) }

  ghost predicate AllTidy(lines: seq<string>) { forall i | 0 <= i < |lines| :: Tidy(lines[i]) }

  lemma {:induction false} UnfoldPlain(out: string, lines: seq<string>)
    requires AllTidy(lines) && lines != []
    ensures UnfoldLines(out, lines) == if out == "" then JoinLf(lines) else out + "\n" + JoinLf(lines)
    decreases |lines|
  {
    assert Tidy(lines[0]);
    var next := UnfoldStep(out, lines[0]);
    assert next == if out == "" then lines[0] else out + "\n" + lines[0];
    if |lines| > 1 {
      UnfoldPlain(next, lines[1..]);
      JoinMore(out, lines);
    } else {
      assert lines[1..] == [];
    }
  }

  lemma JoinMore(out: string, lines: seq<string>)
    requires |lines| > 1
    ensures JoinLf(lines) == lines[0] + "\n" + JoinLf(lines[1..])
    ensures (out + "\n" + lines[0]) + "\n" + JoinLf(lines[1..]) == out + "\n" + JoinLf(lines)
  {
    JoinPieces(out, "\n", lines[0], JoinLf(lines[1..]));
  }

  lemma JoinPieces(out: string, br: string, l: string, rest: string)
    ensures (out + br + l) + br + rest == out + br + (l + br + rest)
  {
  }

  function Ended(lines: seq<string>): (r: seq<string>)
    ensures |r| == |lines| && forall i | 0 <= i < |lines| :: r[i] == TrimEnd(lines[i])
  {
    seq(|lines|, i requires 0 <= i < |lines| => TrimEnd(lines[i]))
  }

  lemma FeedLinesOfJoined(lines: seq<string>)
    requires AllTidy(lines) && lines != []
    ensures FeedLines(JoinCrlf(lines)) == Ended(lines)
  {
    assert forall l | l in lines :: '\n' !in l && BlobLine(l);
    LinesOfJoined(lines);
    UnfoldPlain("", lines);
    RawLinesOfJoin(lines);
    assert Tidy(lines[|lines| - 1]);
    assert Lines(Unfold(JoinCrlf(lines))) == lines;
  }

  // ── trimming ─────────────────────────────────────────────────────────

  lemma {:induction false} TrimEndCons(c: char, t: string)
    ensures TrimEnd([c] + t) == if TrimEnd(t) == "" then TrimEnd([c]) else [c] + TrimEnd(t)
    decreases |t|
  {
    var x := [c] + t;
    if t == "" {
      assert x == [c];
    } else if IsSpace(t[|t| - 1]) {
      assert x[..|x| - 1] == [c] + t[..|t| - 1];
      TrimEndCons(c, t[..|t| - 1]);
    }
  }

  lemma {:induction false} TrimOrder(s: string)
    ensures TrimStart(TrimEnd(s)) == TrimEnd(TrimStart(s))
  {
    if s != "" {
      assert s == [s[0]] + s[1..];
      TrimEndCons(s[0], s[1..]);
      TrimOrder(s[1..]);
      assert TrimEnd([s[0]]) == if IsSpace(s[0]) then "" else [s[0]];
      if IsSpace(s[0]) && TrimEnd(s[1..]) != "" {
        assert ([s[0]] + TrimEnd(s[1..]))[1..] == TrimEnd(s[1..]);
      }
    }
  }

  lemma TrimOfTrimEnd(s: string)
    ensures Trim(TrimEnd(s)) == Trim(s)
  {
    TrimOrder(s);
  }

  lemma SameTrimSameLine(a: string, b: string)
    requires Trim(a) == Trim(b)
    ensures LineOf(a) == LineOf(b)
  {
  }

  lemma LineOfEnded(raw: string)
    ensures LineOf(TrimEnd(raw)) == LineOf(raw)
  {
    TrimOfTrimEnd(raw);
    SameTrimSameLine(TrimEnd(raw), raw);
  }

  // ── a calendar of one event ──────────────────────────────────────────

  /** A property line of the event. */
  datatype Pair = Pair(part: string, v: string)

  ghost predicate GoodPair(p: Pair) {
    NameLike(p.part) && '\n' !in p.part && BlobLine(p.v)
  }

  ghost predicate GoodPairs(ps: seq<Pair>) { forall i | 0 <= i < |ps| :: GoodPair(ps[i]) }

  function Entries(ps: seq<Pair>): (r: seq<string>)
    ensures |r| == |ps| && forall i | 0 <= i < |ps| :: r[i] == Entry(ps[i].part, ps[i].v)
  {
    seq(|ps|, i requires 0 <= i < |ps| => Entry(ps[i].part, ps[i].v))
  }

  function Section1(body: seq<string>): seq<string> { ["BEGIN:VEVENT"] + (body + ["END:VEVENT"]) }

  function Calendar(body: seq<string>): seq<string> { PREAMBLE + (Section1(body) + ["END:VCALENDAR"]) }

  function PairEnded(p: Pair): Pair { Pair(p.part, TrimEnd(p.v)) }

  function PairsEnded(ps: seq<Pair>): (r: seq<Pair>)
    ensures |r| == |ps| && forall i | 0 <= i < |ps| :: r[i] == PairEnded(ps[i])
  {
    seq(|ps|, i requires 0 <= i < |ps| => PairEnded(ps[i]))
  }

  lemma EntryIsTidy(p: Pair)
    requires GoodPair(p)
    ensures Tidy(Entry(p.part, p.v))
    ensures TrimEnd(Entry(p.part, p.v)) == Entry(p.part, TrimEnd(p.v))
    ensures KindOf(Entry(p.part, TrimEnd(p.v))) == Content
  {
    var l := Entry(p.part, p.v);
    assert l[0] == p.part[0];
    assert l[|l| - 1] == if p.v == "" then ':' else p.v[|p.v| - 1];
    assert IsSpace(' ') && IsSpace('\t');
    assert (p.part + ":")[|p.part + ":"| - 1] == ':';
    TrimEndBehind(p.part + ":", p.v);
    NotAMarker(Entry(p.part, TrimEnd(p.v)));
  }

  lemma EntriesAreTidy(ps: seq<Pair>)
    requires GoodPairs(ps)
    ensures AllTidy(Entries(ps)) && Ended(Entries(ps)) == Entries(PairsEnded(ps))
    ensures forall i | 0 <= i < |ps| :: KindOf(Entries(PairsEnded(ps))[i]) == Content
  {
    forall i | 0 <= i < |ps|
      ensures Tidy(Entries(ps)[i]) && TrimEnd(Entries(ps)[i]) == Entries(PairsEnded(ps))[i]
      ensures KindOf(Entries(PairsEnded(ps))[i]) == Content
    {
      EntryIsTidy(ps[i]);
    }
  }

  lemma FrameIsTidy()
    ensures AllTidy(PREAMBLE) && Tidy("BEGIN:VEVENT") && Tidy("END:VEVENT") && Tidy("END:VCALENDAR")
  {
    var a, b, c := "BEGIN:VCALENDAR", "VERSION:2.0", "PRODID:-//Lyra//EN";
    assert Tidy(a) && Tidy(b) && Tidy(c);
  }

  lemma FrameIsEnded()
    ensures Ended(PREAMBLE) == PREAMBLE && TrimEnd("BEGIN:VEVENT") == "BEGIN:VEVENT"
    ensures TrimEnd("END:VEVENT") == "END:VEVENT" && TrimEnd("END:VCALENDAR") == "END:VCALENDAR"
  {
    var a, b, c := "BEGIN:VCALENDAR", "VERSION:2.0", "PRODID:-//Lyra//EN";
    assert TrimEnd(a) == a && TrimEnd(b) == b && TrimEnd(c) == c;
  }

  lemma CalendarLines(ps: seq<Pair>)
    requires GoodPairs(ps)
    ensures FeedLines(JoinCrlf(Calendar(Entries(ps)))) == Calendar(Entries(PairsEnded(ps)))
  {
    FrameIsTidy();
    FrameIsEnded();
    EntriesAreTidy(ps);
    CalendarIsTidy(Entries(ps));
    FeedLinesOfJoined(Calendar(Entries(ps)));
    CalendarEnds(Entries(ps));
  }

  lemma CalendarIsTidy(body: seq<string>)
    requires AllTidy(body) && AllTidy(PREAMBLE) && Tidy("BEGIN:VEVENT") && Tidy("END:VEVENT") && Tidy("END:VCALENDAR")
    ensures AllTidy(Calendar(body))
  {
  }

  lemma CalendarEnds(body: seq<string>)
    requires Ended(PREAMBLE) == PREAMBLE && TrimEnd("BEGIN:VEVENT") == "BEGIN:VEVENT"
    requires TrimEnd("END:VEVENT") == "END:VEVENT" && TrimEnd("END:VCALENDAR") == "END:VCALENDAR"
    ensures Ended(Calendar(body)) == Calendar(Ended(body))
  {
    var p, t := PREAMBLE, ["END:VCALENDAR"];
    assert Ended(Section1(body)) == Section1(Ended(body));
    assert Ended(t) == t;
    assert Ended(p + (Section1(body) + t)) == Ended(p) + (Ended(Section1(body)) + Ended(t));
  }

  // ── its one event ────────────────────────────────────────────────────

  lemma FrameKinds()
    ensures KindOf("BEGIN:VEVENT") == BeginEvent && KindOf("END:VEVENT") == EndEvent
    ensures KindOf("END:VCALENDAR") == Content && forall i | 0 <= i < |PREAMBLE| :: KindOf(PREAMBLE[i]) == Content
  {
    assert |"BEGIN:VEVENT"| == 12 && |"END:VEVENT"| == 10 && |"END:VCALENDAR"| == 13;
    assert |"BEGIN:VCALENDAR"| == 15 && |"VERSION:2.0"| == 11 && |"PRODID:-//Lyra//EN"| == 18;
  }

  /** All lines of the body are content. */
  ghost predicate AllContent(body: seq<string>) { forall i | 0 <= i < |body| :: KindOf(body[i]) == Content }

  /** Where each line of a calendar stands. */
  lemma CalendarAt(body: seq<string>)
    ensures var lines := Calendar(body);
            && |lines| == |body| + 6
            && (forall i | 0 <= i < 3 :: lines[i] == PREAMBLE[i]) && lines[3] == "BEGIN:VEVENT"
            && (forall i | 0 <= i < |body| :: lines[i + 4] == body[i])
            && lines[|body| + 4] == "END:VEVENT" && lines[|body| + 5] == "END:VCALENDAR"
            && lines[3..|body| + 5] == Section1(body)
  {
    var lines := Calendar(body);
    assert |PREAMBLE| == 3 && |Section1(body)| == |body| + 2;
    assert lines[3..] == Section1(body) + ["END:VCALENDAR"];
    assert lines[3..][..|body| + 2] == Section1(body);
    assert forall i | 0 <= i < |body| :: Section1(body)[i + 1] == body[i];
    assert forall i | 0 <= i < |body| + 2 :: lines[3 + i] == Section1(body)[i];
    forall i | 0 <= i < |body|
      ensures lines[i + 4] == body[i]
    {
      assert lines[3 + (i + 1)] == Section1(body)[i + 1];
    }
  }

  /** Line by line: content but for the two markers. */
  lemma CalendarKinds(body: seq<string>)
    requires AllContent(body)
    ensures var lines := Calendar(body);
            forall i | 0 <= i < |lines| ::
              KindOf(lines[i]) == if i == 3 then BeginEvent else if i == |body| + 4 then EndEvent else Content
  {
    var lines := Calendar(body);
    FrameKinds();
    CalendarAt(body);
    forall i | 0 <= i < |lines|
      ensures KindOf(lines[i]) == if i == 3 then BeginEvent else if i == |body| + 4 then EndEvent else Content
    {
      if 4 <= i < |body| + 4 {
        assert lines[(i - 4) + 4] == body[i - 4];
      }
    }
  }

  lemma {:induction false} EndsBefore(lines: seq<string>, n: nat, e: nat)
    requires n <= |lines| && forall i | 0 <= i < |lines| :: KindOf(lines[i]) == EndEvent <==> i == e
    ensures IcsFeed.Ends(lines, n) == if e < n then 1 else 0
  {
    if n > 0 {
      EndsBefore(lines, n - 1, e);
    }
  }

  lemma OneSection(lines: seq<string>, e: nat)
    requires 3 < e && e + 1 < |lines|
    requires forall i | 0 <= i < |lines| ::
               KindOf(lines[i]) == if i == 3 then BeginEvent else if i == e then EndEvent else Content
    ensures Section(lines, 3, e) && IcsFeed.Ends(lines, e) == 0 && IcsFeed.Ends(lines, |lines|) == 1
  {
    EndsBefore(lines, e, e);
    EndsBefore(lines, |lines|, e);
  }

  /** Read as a feed, a calendar of good pairs is one event, read from its lines. */
  lemma CalendarIsOneEvent(ps: seq<Pair>, norm: Norm)
    requires GoodPairs(ps)
    ensures var own := Section1(Entries(PairsEnded(ps)));
            ReadFeed(JoinCrlf(Calendar(Entries(ps))), norm).events == [EventFrom(own, norm)]
  {
    var ics, body := JoinCrlf(Calendar(Entries(ps))), Entries(PairsEnded(ps));
    CalendarLines(ps);
    EntriesAreTidy(ps);
    CalendarKinds(body);
    CalendarAt(body);
    OneSection(FeedLines(ics), |body| + 4);
    OneSectionOneEvent(ics, norm, FeedLines(ics), |body| + 4);
  }

  lemma OneSectionOneEvent(ics: string, norm: Norm, lines: seq<string>, e: nat)
    requires lines == FeedLines(ics) && Section(lines, 3, e)
    requires IcsFeed.Ends(lines, e) == 0 && IcsFeed.Ends(lines, |lines|) == 1
    ensures ReadFeed(ics, norm).events == [EventFrom(lines[3..e + 1], norm)]
  {
    FeedReadsSections(ics, norm, 3, e);
  }

  // ── which lines name a property ──────────────────────────────────────

  lemma EntryNames(part: string, v: string, prop: string)
    requires ':' !in part
    ensures Names(Entry(part, v), prop) <==> ToUpper(BeforeSemicolon(part)) == prop
    ensures Names(Entry(part, v), prop) ==> Writes(Entry(part, v), prop, v)
  {
    ColonFound(part, v);
    ValueInIff(Entry(part, v), prop, v);
    if ToUpper(BeforeSemicolon(part)) == prop {
      assert Entry(part, v) == part + (":" + v);
      CutIsSpelled(Entry(part, v), part, v);
    }
  }

  /** The property a part names, as a value. */
  type Titler = string -> string

  ghost predicate IsTitler(t: Titler) {
    forall part {:trigger ToUpper(BeforeSemicolon(part))} :: t(part) == ToUpper(BeforeSemicolon(part))
  }

  /** This property is named by pair `k` and by no later one. */
  ghost predicate LastPair(ps: seq<Pair>, k: nat, prop: string, t: Titler) {
    && k < |ps| && t(ps[k].part) == prop
    && forall m | k < m < |ps| :: t(ps[m].part) != prop
  }

  ghost predicate NoPair(ps: seq<Pair>, prop: string, t: Titler) {
    forall m | 0 <= m < |ps| :: t(ps[m].part) != prop
  }

  lemma UpperEntryNames(name: string, v: string, line: string, prop: string)
    requires Upper(name) && ';' !in name && prop != name && line == Entry(name, v)
    ensures !Names(line, prop)
  {
    ToUpperOfUpper(name);
    NameBeforeParams(name, "");
    assert name + "" == name && !UpperLetter(':');
    EntryNames(name, v, prop);
  }

  lemma MarkersAreEntries()
    ensures "BEGIN:VEVENT" == Entry("BEGIN", "VEVENT") && "END:VEVENT" == Entry("END", "VEVENT")
    ensures Upper("BEGIN") && Upper("END") && ';' !in "BEGIN" && ';' !in "END"
  {
  }

  lemma MarkersName(prop: string)
    requires prop != "BEGIN" && prop != "END"
    ensures !Names("BEGIN:VEVENT", prop) && !Names("END:VEVENT", prop)
  {
    MarkersAreEntries();
    UpperEntryNames("BEGIN", "VEVENT", "BEGIN:VEVENT", prop);
    UpperEntryNames("END", "VEVENT", "END:VEVENT", prop);
  }

  lemma FramedWrites(begin: string, body: seq<string>, end: string, k: nat, prop: string, v: string)
    requires LastWrites(body, k, prop, v) && !Names(end, prop)
    ensures LastWrites([begin] + (body + [end]), k + 1, prop, v)
  {
    var own := [begin] + (body + [end]);
    forall m | k + 1 < m < |own|
      ensures !Names(own[m], prop)
    {
      assert own[m] == if m <= |body| then body[m - 1] else end;
    }
  }

  lemma FramedLacks(begin: string, body: seq<string>, end: string, prop: string)
    requires NoneNames(body, prop) && !Names(begin, prop) && !Names(end, prop)
    ensures NoneNames([begin] + (body + [end]), prop)
  {
    var own := [begin] + (body + [end]);
    forall m | 0 <= m < |own|
      ensures !Names(own[m], prop)
    {
      assert own[m] == if m == 0 then begin else if m <= |body| then body[m - 1] else end;
    }
  }

  lemma EntryNamesBy(p: Pair, prop: string, t: Titler)
    requires IsTitler(t) && GoodPair(p)
    ensures Names(Entry(p.part, p.v), prop) <==> t(p.part) == prop
    ensures t(p.part) == prop ==> Writes(Entry(p.part, p.v), prop, p.v)
  {
    EntryNames(p.part, p.v, prop);
  }

  lemma EntriesName(ps: seq<Pair>, m: nat, prop: string, t: Titler)
    requires IsTitler(t) && GoodPairs(ps) && m < |ps|
    ensures Names(Entries(ps)[m], prop) <==> t(ps[m].part) == prop
    ensures t(ps[m].part) == prop ==> Writes(Entries(ps)[m], prop, ps[m].v)
  {
    assert GoodPair(ps[m]);
    EntryNamesBy(ps[m], prop, t);
  }

  lemma EntriesWrite(ps: seq<Pair>, k: nat, prop: string, t: Titler)
    requires IsTitler(t) && GoodPairs(ps) && LastPair(ps, k, prop, t)
    ensures LastWrites(Entries(ps), k, prop, ps[k].v)
  {
    EntriesName(ps, k, prop, t);
    forall m | k < m < |ps|
      ensures !Names(Entries(ps)[m], prop)
    {
      EntriesName(ps, m, prop, t);
    }
  }

  lemma SectionWrites(ps: seq<Pair>, k: nat, prop: string, t: Titler)
    requires IsTitler(t) && GoodPairs(ps) && LastPair(ps, k, prop, t) && prop != "BEGIN" && prop != "END"
    ensures LastWrites(Section1(Entries(ps)), k + 1, prop, ps[k].v)
  {
    MarkersName(prop);
    EntriesWrite(ps, k, prop, t);
    FramedWrites("BEGIN:VEVENT", Entries(ps), "END:VEVENT", k, prop, ps[k].v);
  }

  lemma SectionLacks(ps: seq<Pair>, prop: string, t: Titler)
    requires IsTitler(t) && GoodPairs(ps) && NoPair(ps, prop, t) && prop != "BEGIN" && prop != "END"
    ensures NoneNames(Section1(Entries(ps)), prop)
  {
    MarkersName(prop);
    forall m | 0 <= m < |ps|
      ensures !Names(Entries(ps)[m], prop)
    {
      EntriesName(ps, m, prop, t);
    }
    FramedLacks("BEGIN:VEVENT", Entries(ps), "END:VEVENT", prop);
  }

  lemma EndedIsGood(ps: seq<Pair>, t: Titler)
    requires GoodPairs(ps)
    ensures GoodPairs(PairsEnded(ps))
    ensures forall k, prop :: LastPair(ps, k, prop, t) ==> LastPair(PairsEnded(ps), k, prop, t)
    ensures forall prop :: NoPair(ps, prop, t) ==> NoPair(PairsEnded(ps), prop, t)
  {
    assert IsSpace('\r');
    forall i | 0 <= i < |ps|
      ensures GoodPair(PairsEnded(ps)[i])
    {
      assert GoodPair(ps[i]);
    }
  }

  // ── the name of the calendar ─────────────────────────────────────────

  lemma FrameIsEntries()
    ensures PREAMBLE[0] == Entry("BEGIN", "VCALENDAR") && PREAMBLE[1] == Entry("VERSION", "2.0")
    ensures |PREAMBLE| == 3 && PREAMBLE[2] == Entry("PRODID", "-//Lyra//EN")
    ensures "END:VCALENDAR" == Entry("END", "VCALENDAR")
    ensures Upper("BEGIN") && Upper("VERSION") && Upper("PRODID") && Upper("END")
    ensures ';' !in "BEGIN" && ';' !in "VERSION" && ';' !in "PRODID" && ';' !in "END"
  {
    assert "BEGIN:VCALENDAR" == Entry("BEGIN", "VCALENDAR") && "VERSION:2.0" == Entry("VERSION", "2.0");
    assert "PRODID:-//Lyra//EN" == Entry("PRODID", "-//Lyra//EN");
  }

  lemma FrameNamesNothing()
    ensures forall i | 0 <= i < |PREAMBLE| :: !Names(PREAMBLE[i], "X-WR-CALNAME")
    ensures !Names("END:VCALENDAR", "X-WR-CALNAME")
  {
    FrameIsEntries();
    assert |"X-WR-CALNAME"| == 12;
    UpperEntryNames("BEGIN", "VCALENDAR", PREAMBLE[0], "X-WR-CALNAME");
    UpperEntryNames("VERSION", "2.0", PREAMBLE[1], "X-WR-CALNAME");
    UpperEntryNames("PRODID", "-//Lyra//EN", PREAMBLE[2], "X-WR-CALNAME");
    UpperEntryNames("END", "VCALENDAR", "END:VCALENDAR", "X-WR-CALNAME");
  }

  lemma CalendarHasNoName(body: seq<string>)
    requires AllContent(body)
    ensures CalendarName(Calendar(body), |Calendar(body)|) == None
  {
    var lines := Calendar(body);
    CalendarKinds(body);
    CalendarAt(body);
    FrameNamesNothing();
    forall m | 0 <= m < |lines|
      ensures !NamesCalendar(lines, m)
    {
      if 4 <= m < |body| + 4 {
        assert KindOf(lines[3]) == BeginEvent && !EndsBetween(lines, 3, m);
      }
    }
    NoCalendarName(lines, |lines|);
  }

  // ── what the builder writes ──────────────────────────────────────────

  function OptPair(part: string, v: Option<string>): seq<Pair> { if v.Some? then [Pair(part, v.value)] else [] }

  function OptPairs(e: NewEvent, d: Dates): seq<Pair> {
    OptPair(DateName("DTEND", e.allDay), EndValue(EndOf(e, d))) +
    (OptPair("LOCATION", TextOf(e.location)) + OptPair("DESCRIPTION", TextOf(e.description)))
  }

  /** Everything between the UID and the time stamp. */
  function FieldPairs(e: NewEvent, d: Dates): seq<Pair>
    requires StartOf(e, d).Some?
  {
    [Pair("SUMMARY", Escape(Trim(e.summary)))] +
    ([Pair(DateName("DTSTART", e.allDay), StartOf(e, d).value)] + OptPairs(e, d))
  }

  function Pairs(uid: string, e: NewEvent, d: Dates, now: string): seq<Pair>
    requires StartOf(e, d).Some?
  {
    [Pair("UID", uid)] + (FieldPairs(e, d) + [Pair("DTSTAMP", now)])
  }

  lemma EntriesAppend(a: seq<Pair>, b: seq<Pair>)
    ensures Entries(a + b) == Entries(a) + Entries(b)
  {
  }

  lemma EntriesOfOne(p: Pair)
    ensures Entries([p]) == [Entry(p.part, p.v)]
  {
  }

  lemma OptEntries(part: string, v: Option<string>)
    ensures Entries(OptPair(part, v)) == Opt(part, v)
  {
    if v.Some? {
      EntriesOfOne(Pair(part, v.value));
    }
  }

  lemma OptionalEntries(e: NewEvent, d: Dates)
    ensures Entries(OptPairs(e, d)) == OptionalLines(e, d)
  {
    var end, place, about := OptPair(DateName("DTEND", e.allDay), EndValue(EndOf(e, d))),
        OptPair("LOCATION", TextOf(e.location)), OptPair("DESCRIPTION", TextOf(e.description));
    EntriesAppend(end, place + about);
    EntriesAppend(place, about);
    OptEntries(DateName("DTEND", e.allDay), EndValue(EndOf(e, d)));
    OptEntries("LOCATION", TextOf(e.location));
    OptEntries("DESCRIPTION", TextOf(e.description));
  }

  lemma FieldEntries(e: NewEvent, d: Dates)
    requires StartOf(e, d).Some?
    ensures Entries(FieldPairs(e, d)) == [Entry("SUMMARY", Escape(Trim(e.summary)))] +
            ([Entry(DateName("DTSTART", e.allDay), StartOf(e, d).value)] + OptionalLines(e, d))
  {
    var summary := Pair("SUMMARY", Escape(Trim(e.summary)));
    var start := Pair(DateName("DTSTART", e.allDay), StartOf(e, d).value);
    EntriesAppend([summary], [start] + OptPairs(e, d));
    EntriesAppend([start], OptPairs(e, d));
    EntriesOfOne(summary);
    EntriesOfOne(start);
    OptionalEntries(e, d);
  }

  lemma Rejoin(pre: seq<string>, begin: string, uid: string, s: string, t: string, opt: seq<string>, stamp: string,
               end: string, close: string)
    ensures (pre + [begin]) + (([uid] + ([s] + [t])) + (opt + [stamp, end, close])) ==
            pre + (([begin] + (([uid] + (([s] + ([t] + opt)) + [stamp])) + [end])) + [close])
  {
  }

  lemma LinesArePairs(uid: string, e: NewEvent, d: Dates, now: string)
    requires StartOf(e, d).Some?
    ensures EventLines(uid, e, d, now) == Calendar(Entries(Pairs(uid, e, d, now)))
  {
    EntriesAppend([Pair("UID", uid)], FieldPairs(e, d) + [Pair("DTSTAMP", now)]);
    EntriesAppend(FieldPairs(e, d), [Pair("DTSTAMP", now)]);
    EntriesOfOne(Pair("UID", uid));
    EntriesOfOne(Pair("DTSTAMP", now));
    FieldEntries(e, d);
    Rejoin(PREAMBLE, "BEGIN:VEVENT", Entry("UID", uid), Entry("SUMMARY", Escape(Trim(e.summary))),
           Entry(DateName("DTSTART", e.allDay), StartOf(e, d).value), OptionalLines(e, d), Entry("DTSTAMP", now),
           "END:VEVENT", "END:VCALENDAR");
  }

  // ── the pairs are good and have their own names ──────────────────────

  /** A good pair whose property is one of these. */
  ghost predicate PairOf(p: Pair, names: set<string>, t: Titler) {
    GoodPair(p) && t(p.part) in names
  }

  ghost predicate PairsOf(ps: seq<Pair>, names: set<string>, t: Titler) {
    forall i | 0 <= i < |ps| :: PairOf(ps[i], names, t)
  }

  lemma PairsOfAppend(a: seq<Pair>, b: seq<Pair>, names: set<string>, t: Titler)
    requires PairsOf(a, names, t) && PairsOf(b, names, t)
    ensures PairsOf(a + b, names, t)
  {
  }

  lemma TextPair(part: string, v: string, t: Titler)
    requires IsTitler(t)
    requires NameLike(part) && Upper(part) && ';' !in part && BlobLine(v)
    ensures PairOf(Pair(part, v), {part}, t)
  {
    ToUpperOfUpper(part);
    NameBeforeParams(part, "");
    assert part + "" == part && !UpperLetter('\n');
  }

  lemma DatePair(name: string, allDay: bool, v: string, t: Titler)
    requires IsTitler(t)
    requires NameLike(DateName(name, allDay)) && Upper(name) && ';' !in name && BlobLine(v)
    ensures PairOf(Pair(DateName(name, allDay), v), {name}, t)
  {
    ToUpperOfUpper(name);
    NameBeforeParams(name, if allDay then ";VALUE=DATE" else "");
    assert name + "" == name && !UpperLetter('\n') && '\n' !in ";VALUE=DATE";
  }

  const FIELDS: set<string> := {"SUMMARY", "DTSTART", "DTEND", "LOCATION", "DESCRIPTION"}

  lemma CleanIsBlob(s: string)
    requires Clean(s)
    ensures BlobLine(s)
  {
    assert IsSpace('\n') && IsSpace('\r');
  }

  lemma EscapedIsBlob(s: string)
    ensures BlobLine(Escape(s))
  {
    EscapedStaysOnLine(s);
  }

  lemma OneOf(p: Pair, name: string, t: Titler)
    requires PairOf(p, {name}, t) && name in FIELDS
    ensures PairsOf([p], FIELDS, t)
  {
  }

  lemma OptText(name: string, field: Option<string>, t: Titler)
    requires IsTitler(t)
    requires NameLike(name) && Upper(name) && ';' !in name && name in FIELDS
    ensures PairsOf(OptPair(name, TextOf(field)), FIELDS, t)
  {
    if TextOf(field).Some? {
      EscapedIsBlob(Trim(field.value));
      TextPair(name, TextOf(field).value, t);
      OneOf(Pair(name, TextOf(field).value), name, t);
    }
  }

  lemma OptEnd(e: NewEvent, d: Dates, end: Option<string>, t: Titler)
    requires IsTitler(t)
    requires GoodDates(d) && end == EndValue(EndOf(e, d))
    ensures PairsOf(OptPair(DateName("DTEND", e.allDay), end), FIELDS, t)
  {
    if end.Some? {
      UpperNames();
      DateNamesAreNameLike(e.allDay);
      EndIsClean(e, d);
      CleanIsBlob(end.value);
      DatePair("DTEND", e.allDay, end.value, t);
      OneOf(Pair(DateName("DTEND", e.allDay), end.value), "DTEND", t);
    }
  }

  lemma OptPairsAreGood(e: NewEvent, d: Dates, t: Titler)
    requires IsTitler(t)
    requires GoodDates(d)
    ensures PairsOf(OptPairs(e, d), FIELDS, t)
  {
    UpperNames();
    NamesAreNameLike();
    OptEnd(e, d, EndValue(EndOf(e, d)), t);
    OptText("LOCATION", e.location, t);
    OptText("DESCRIPTION", e.description, t);
    var place, about := OptPair("LOCATION", TextOf(e.location)), OptPair("DESCRIPTION", TextOf(e.description));
    PairsOfAppend(place, about, FIELDS, t);
    PairsOfAppend(OptPair(DateName("DTEND", e.allDay), EndValue(EndOf(e, d))), place + about, FIELDS, t);
  }

  lemma SummaryPair(text: string, t: Titler)
    requires IsTitler(t)
    ensures PairsOf([Pair("SUMMARY", Escape(text))], FIELDS, t)
  {
    UpperNames();
    NamesAreNameLike();
    EscapedIsBlob(text);
    TextPair("SUMMARY", Escape(text), t);
    OneOf(Pair("SUMMARY", Escape(text)), "SUMMARY", t);
  }

  lemma StartPair(e: NewEvent, d: Dates, t: Titler)
    requires IsTitler(t)
    requires GoodDates(d) && StartOf(e, d).Some?
    ensures PairsOf([Pair(DateName("DTSTART", e.allDay), StartOf(e, d).value)], FIELDS, t)
  {
    UpperNames();
    DateNamesAreNameLike(e.allDay);
    StartIsClean(e, d);
    CleanIsBlob(StartOf(e, d).value);
    DatePair("DTSTART", e.allDay, StartOf(e, d).value, t);
    OneOf(Pair(DateName("DTSTART", e.allDay), StartOf(e, d).value), "DTSTART", t);
  }

  lemma FieldPairsAreGood(e: NewEvent, d: Dates, t: Titler)
    requires IsTitler(t)
    requires GoodDates(d) && StartOf(e, d).Some?
    ensures PairsOf(FieldPairs(e, d), FIELDS, t)
  {
    var summary, start := [Pair("SUMMARY", Escape(Trim(e.summary)))],
        [Pair(DateName("DTSTART", e.allDay), StartOf(e, d).value)];
    SummaryPair(Trim(e.summary), t);
    StartPair(e, d, t);
    OptPairsAreGood(e, d, t);
    PairsOfAppend(start, OptPairs(e, d), FIELDS, t);
    PairsOfAppend(summary, start + OptPairs(e, d), FIELDS, t);
  }

  lemma EndPairsAreGood(uid: string, now: string, t: Titler)
    requires IsTitler(t)
    requires BlobLine(uid) && BlobLine(now)
    ensures PairOf(Pair("UID", uid), {"UID"}, t) && PairOf(Pair("DTSTAMP", now), {"DTSTAMP"}, t)
  {
    UpperNames();
    NamesAreNameLike();
    TextPair("UID", uid, t);
    TextPair("DTSTAMP", now, t);
  }

  lemma NamesApart()
    ensures "UID" !in FIELDS && "DTSTAMP" !in FIELDS && "RRULE" !in FIELDS && "STATUS" !in FIELDS
    ensures "UID" != "DTSTAMP" && "RRULE" != "UID" && "RRULE" != "DTSTAMP" && "STATUS" != "UID" && "STATUS" != "DTSTAMP"
    ensures "UID" != "BEGIN" && "UID" != "END" && "RRULE" != "BEGIN" && "RRULE" != "END"
    ensures "STATUS" != "BEGIN" && "STATUS" != "END" && "DTSTAMP" != "BEGIN" && "DTSTAMP" != "END"
  {
    assert |"UID"| == 3 && |"DTSTAMP"| == 7 && |"RRULE"| == 5 && |"STATUS"| == 6 && |"BEGIN"| == 5 && |"END"| == 3;
    assert |"SUMMARY"| == 7 && |"DTSTART"| == 7 && |"DTEND"| == 5 && |"LOCATION"| == 8 && |"DESCRIPTION"| == 11;
    assert "DTSTAMP"[5] == 'M' && "DTSTART"[5] == 'R' && "SUMMARY"[5] == 'R' && "RRULE"[0] == 'R' && "DTEND"[0] == 'D';
    assert "BEGIN"[0] == 'B' && "UID"[0] == 'U' && "END"[0] == 'E';
  }

  /** The UID is named once, first; no rule and no status is. */
  lemma PairsName(first: Pair, fields: seq<Pair>, stamp: Pair, t: Titler)
    requires PairOf(first, {"UID"}, t) && PairsOf(fields, FIELDS, t) && PairOf(stamp, {"DTSTAMP"}, t)
    ensures var ps := [first] + (fields + [stamp]);
            && GoodPairs(ps) && LastPair(ps, 0, "UID", t) && NoPair(ps, "RRULE", t) && NoPair(ps, "STATUS", t)
            && LastPair(ps, |ps| - 1, "DTSTAMP", t) && NoPair(ps[..|ps| - 1], "DTSTAMP", t)
  {
    NamesApart();
    var ps := [first] + (fields + [stamp]);
    forall m | 0 <= m < |ps|
      ensures PairOf(ps[m], if m == 0 then {"UID"} else if m == |ps| - 1 then {"DTSTAMP"} else FIELDS, t)
    {
      if 0 < m < |ps| - 1 {
        assert ps[m] == fields[m - 1];
      }
    }
  }

  lemma BuiltPairs(uid: string, e: NewEvent, d: Dates, now: string, t: Titler)
    requires IsTitler(t)
    requires GoodDates(d) && StartOf(e, d).Some? && BlobLine(uid) && BlobLine(now)
    ensures var ps := Pairs(uid, e, d, now);
            && GoodPairs(ps) && LastPair(ps, 0, "UID", t) && NoPair(ps, "RRULE", t) && NoPair(ps, "STATUS", t)
            && LastPair(ps, |ps| - 1, "DTSTAMP", t) && NoPair(ps[..|ps| - 1], "DTSTAMP", t)
  {
    EndPairsAreGood(uid, now, t);
    FieldPairsAreGood(e, d, t);
    PairsName(Pair("UID", uid), FieldPairs(e, d), Pair("DTSTAMP", now), t);
  }

  // ── reading what was built ───────────────────────────────────────────

  lemma ReadOfEnded(lines: seq<string>)
    ensures FieldsIn(Ended(lines)) == FieldsIn(lines)
  {
    forall i | 0 <= i < |lines|
      ensures Read(Ended(lines))[i] == Read(lines)[i]
    {
      LineOfEnded(lines[i]);
    }
    assert Read(Ended(lines)) == Read(lines);
  }

  /** The fields of a calendar are those of its section. */
  lemma FieldsOfSection(body: seq<string>)
    ensures FieldsIn(Calendar(body)) == FieldsIn(Section1(body))
  {
    PreambleShape();
    NoMarkersRead(PREAMBLE);
    EndReads();
    FieldsBehindPreamble("BEGIN:VEVENT", body, "END:VEVENT", "END:VCALENDAR");
  }

  lemma FieldsBehindPreamble(begin: string, body: seq<string>, end: string, close: string)
    requires forall i | 0 <= i < |PREAMBLE| :: !Read(PREAMBLE)[i].Begin? && !Read(PREAMBLE)[i].End?
    requires LineOf(end) == End
    ensures FieldsIn(PREAMBLE + (([begin] + (body + [end])) + [close])) == FieldsIn([begin] + (body + [end]))
  {
    var front := [begin] + body;
    assert [begin] + (body + [end]) == front + [end];
    assert (front + [end]) + [close] == front + [end, close];
    RunBehindPreamble(front + [end, close]);
    RunToEnd(front, [end, close]);
    RunToEnd(front, [end]);
  }

  lemma RunBehindPreamble(lines: seq<string>)
    requires forall i | 0 <= i < |PREAMBLE| :: !Read(PREAMBLE)[i].Begin? && !Read(PREAMBLE)[i].End?
    ensures Run(START, Read(PREAMBLE + lines)) == Run(START, Read(lines))
  {
    ReadAppend(PREAMBLE, lines);
    RunAppend(START, Read(PREAMBLE), Read(lines));
    RunPreamble(Read(PREAMBLE));
  }

  lemma RunToEnd(front: seq<string>, tail: seq<string>)
    requires tail != [] && LineOf(tail[0]) == End
    ensures Run(START, Read(front + tail)).fields == Run(START, Read(front)).fields
  {
    var r := Run(START, Read(front));
    ReadAppend(front, tail);
    RunAppend(START, Read(front), Read(tail));
    DoneStaysDone(r.(done := true), Read(tail)[1..]);
  }

  lemma BuiltFields(uid: string, e: NewEvent, d: Dates, now: string)
    requires GoodDates(d) && StartOf(e, d).Some? && Trim(e.summary) != "" && BlobLine(uid) && BlobLine(now)
    ensures FieldsIn(Section1(Entries(PairsEnded(Pairs(uid, e, d, now))))) == FieldsOf(e, d)
  {
    var ps := Pairs(uid, e, d, now);
    LinesArePairs(uid, e, d, now);
    var t: Titler := part => ToUpper(BeforeSemicolon(part));
    BuiltPairs(uid, e, d, now, t);
    RunEvent(part => NameOf(part), uid, e, d, now);
    ReadOfEnded(Calendar(Entries(ps)));
    FrameIsEnded();
    CalendarEnds(Entries(ps));
    EntriesAreTidy(ps);
    FieldsOfSection(Entries(PairsEnded(ps)));
  }

  lemma LastUid(ps: seq<Pair>, t: Titler)
    requires IsTitler(t) && GoodPairs(ps) && LastPair(ps, 0, "UID", t)
    ensures LastValue(Section1(Entries(PairsEnded(ps))), "UID") == Some(Trim(ps[0].v))
  {
    var qs := PairsEnded(ps);
    NamesApart();
    EndedIsGood(ps, t);
    SectionWrites(qs, 0, "UID", t);
    LastValueIsLast(Section1(Entries(qs)), 1, "UID", qs[0].v);
    TrimOfTrimEnd(ps[0].v);
  }

  lemma LastOfNone(ps: seq<Pair>, prop: string, t: Titler)
    requires IsTitler(t) && GoodPairs(ps) && NoPair(ps, prop, t) && prop != "BEGIN" && prop != "END"
    ensures LastValue(Section1(Entries(PairsEnded(ps))), prop) == None
  {
    EndedIsGood(ps, t);
    SectionLacks(PairsEnded(ps), prop, t);
    LastValueOfNone(Section1(Entries(PairsEnded(ps))), prop);
  }

  lemma EventOfValues(own: seq<string>, norm: Norm, uid: string)
    requires LastValue(own, "UID") == Some(uid)
    requires LastValue(own, "RRULE") == None && LastValue(own, "STATUS") == None
    ensures var ev := EventFrom(own, norm);
            && ev.fields == FieldsIn(own) && ev.rrule == None && ev.status == None
            && ev.uid == UidOf(Some(uid), ev.fields.dtstart)
  {
  }

  lemma ReadBack(ps: seq<Pair>, norm: Norm, f: Fields, t: Titler)
    requires IsTitler(t) && GoodPairs(ps)
    requires LastPair(ps, 0, "UID", t) && NoPair(ps, "RRULE", t) && NoPair(ps, "STATUS", t)
    requires FieldsIn(Section1(Entries(PairsEnded(ps)))) == f
    ensures var ev := EventFrom(Section1(Entries(PairsEnded(ps))), norm);
            && ev.fields == f && ev.rrule == None && ev.status == None
            && ev.uid == UidOf(Some(Trim(ps[0].v)), f.dtstart)
  {
    NamesApart();
    LastUid(ps, t);
    LastOfNone(ps, "RRULE", t);
    LastOfNone(ps, "STATUS", t);
    EventOfValues(Section1(Entries(PairsEnded(ps))), norm, Trim(ps[0].v));
  }

  lemma FeedOfPairs(ps: seq<Pair>, norm: Norm)
    requires GoodPairs(ps)
    ensures var feed := ReadFeed(JoinCrlf(Calendar(Entries(ps))), norm);
            feed.name == None && feed.events == [EventFrom(Section1(Entries(PairsEnded(ps))), norm)]
  {
    CalendarIsOneEvent(ps, norm);
    EntriesAreTidy(ps);
    CalendarLines(ps);
    CalendarHasNoName(Entries(PairsEnded(ps)));
  }

  lemma BuiltEvent(uid: string, e: NewEvent, d: Dates, now: string, norm: Norm, ps: seq<Pair>, t: Titler, make: Maker)
    requires IsTitler(t) && IsMaker(make, norm) && GoodDates(d) && StartOf(e, d).Some? && Trim(e.summary) != ""
    requires BlobLine(uid) && BlobLine(now) && ps == Pairs(uid, e, d, now)
    ensures var ev := make(Section1(Entries(PairsEnded(ps))));
            && GoodPairs(ps) && ev.fields == FieldsOf(e, d) && ev.rrule == None && ev.status == None
            && ev.uid == UidOf(Some(Trim(uid)), StartOf(e, d))
  {
    BuiltPairs(uid, e, d, now, t);
    BuiltFields(uid, e, d, now);
    ReadBack(ps, norm, FieldsOf(e, d), t);
  }

  /** One event with the fields and, trimmed, the UID given, or one from its start. */
  ghost predicate IsTheEvent(feed: Feed, uid: string, e: NewEvent, d: Dates)
    requires StartOf(e, d).Some?
  {
    && feed.name == None && |feed.events| == 1
    && feed.events[0].fields == FieldsOf(e, d)
    && feed.events[0].uid == (if Trim(uid) != "" then Trim(uid) else "lyra-ics-" + StartOf(e, d).value)
    && feed.events[0].rrule == None && feed.events[0].status == None
  }

  /** What `build_vevent` writes is read by `parse_ics_feed` as one event with the
      same fields and, trimmed, the same UID, or one from its start if that is blank. */
  lemma FeedReadsBuilt(uid: string, e: NewEvent, d: Dates, now: string, norm: Norm)
    requires GoodDates(d) && BlobLine(uid) && BlobLine(now) && BuildVevent(uid, e, d, now).Some?
    ensures StartOf(e, d).Some? && IsTheEvent(ReadFeed(BuildVevent(uid, e, d, now).value, norm), uid, e, d)
  {
    var ps := Pairs(uid, e, d, now);
    BuiltText(uid, e, d, now, ps);
    BuiltIsTheEvent(uid, e, d, now, norm, ps, own => EventFrom(own, norm));
    TextIsTheEvent(BuildVevent(uid, e, d, now).value, ps, norm, own => EventFrom(own, norm), uid, e, d);
  }

  lemma BuiltIsTheEvent(uid: string, e: NewEvent, d: Dates, now: string, norm: Norm, ps: seq<Pair>, make: Maker)
    requires IsMaker(make, norm) && GoodDates(d) && StartOf(e, d).Some? && Trim(e.summary) != ""
    requires BlobLine(uid) && BlobLine(now) && ps == Pairs(uid, e, d, now)
    ensures GoodPairs(ps) && IsTheEvent(Feed(None, [make(Section1(Entries(PairsEnded(ps))))]), uid, e, d)
  {
    TitlerIs();
    BuiltEvent(uid, e, d, now, norm, ps, TitlerFor(), make);
    OneEventFeed(make(Section1(Entries(PairsEnded(ps)))), uid, e, d);
  }

  lemma OneEventFeed(ev: Event, uid: string, e: NewEvent, d: Dates)
    requires StartOf(e, d).Some? && ev.fields == FieldsOf(e, d) && ev.rrule == None && ev.status == None
    requires ev.uid == UidOf(Some(Trim(uid)), StartOf(e, d))
    ensures IsTheEvent(Feed(None, [ev]), uid, e, d)
  {
  }

  lemma TextIsTheEvent(text: string, ps: seq<Pair>, norm: Norm, make: Maker, uid: string, e: NewEvent, d: Dates)
    requires IsMaker(make, norm) && GoodPairs(ps) && text == JoinCrlf(Calendar(Entries(ps))) && StartOf(e, d).Some?
    requires IsTheEvent(Feed(None, [make(Section1(Entries(PairsEnded(ps))))]), uid, e, d)
    ensures IsTheEvent(ReadFeed(text, norm), uid, e, d)
  {
    FeedOfText(text, ps, norm, make);
  }

  lemma BuiltText(uid: string, e: NewEvent, d: Dates, now: string, ps: seq<Pair>)
    requires BuildVevent(uid, e, d, now).Some? && ps == Pairs(uid, e, d, now)
    ensures BuildVevent(uid, e, d, now).value == JoinCrlf(Calendar(Entries(ps)))
  {
    LinesArePairs(uid, e, d, now);
  }

  /** Reading an event from its lines, as a value. */
  type Maker = seq<string> -> Event

  ghost predicate IsMaker(make: Maker, norm: Norm) {
    forall own {:trigger EventFrom(own, norm)} :: make(own) == EventFrom(own, norm)
  }

  lemma FeedOfText(text: string, ps: seq<Pair>, norm: Norm, make: Maker)
    requires IsMaker(make, norm) && GoodPairs(ps) && text == JoinCrlf(Calendar(Entries(ps)))
    ensures ReadFeed(text, norm) == Feed(None, [make(Section1(Entries(PairsEnded(ps))))])
  {
    FeedOfPairs(ps, norm);
  }

  function TitlerFor(): Titler { part => ToUpper(BeforeSemicolon(part)) }

  lemma TitlerIs()
    ensures IsTitler(TitlerFor())
  {
  }

  // ── the lines nobody reads ───────────────────────────────────────────

  lemma BodyLine(ps: seq<Pair>, m: nat)
    requires m < |ps|
    ensures |Calendar(Entries(ps))| == |ps| + 6 && Calendar(Entries(ps))[m + 4] == Entry(ps[m].part, ps[m].v)
  {
    CalendarAt(Entries(ps));
  }

  lemma PairLinesName(ps: seq<Pair>, m: nat, t: Titler)
    requires IsTitler(t) && GoodPairs(ps) && m < |ps|
    requires LastPair(ps, 0, "UID", t) && LastPair(ps, |ps| - 1, "DTSTAMP", t) && NoPair(ps[..|ps| - 1], "DTSTAMP", t)
    ensures Names(Entry(ps[m].part, ps[m].v), "UID") <==> m == 0
    ensures Names(Entry(ps[m].part, ps[m].v), "DTSTAMP") <==> m == |ps| - 1
  {
    assert GoodPair(ps[m]) && (m < |ps| - 1 ==> ps[m] == ps[..|ps| - 1][m]);
    EntryNamesBy(ps[m], "UID", t);
    EntryNamesBy(ps[m], "DTSTAMP", t);
  }

  lemma LinesCarry(ps: seq<Pair>, lines: seq<string>)
    requires lines == Calendar(Entries(ps)) && |ps| > 1
    ensures |lines| == |ps| + 6 && lines[4] == Entry(ps[0].part, ps[0].v)
    ensures lines[|lines| - 3] == Entry(ps[|ps| - 1].part, ps[|ps| - 1].v)
  {
    BodyLine(ps, 0);
    BodyLine(ps, |ps| - 1);
  }

  lemma LinesName(ps: seq<Pair>, lines: seq<string>, m: nat, t: Titler)
    requires IsTitler(t) && GoodPairs(ps) && lines == Calendar(Entries(ps)) && 3 < m < |ps| + 4
    requires LastPair(ps, 0, "UID", t) && LastPair(ps, |ps| - 1, "DTSTAMP", t) && NoPair(ps[..|ps| - 1], "DTSTAMP", t)
    ensures m < |lines| && (Names(lines[m], "UID") <==> m == 4) && (Names(lines[m], "DTSTAMP") <==> m == |ps| + 3)
  {
    BodyLine(ps, m - 4);
    PairLinesName(ps, m - 4, t);
  }

  /** The built lines give the UID once, in the first line of the event, and the time
      stamp once, in the last. */
  lemma BuiltLinesCarry(uid: string, e: NewEvent, d: Dates, now: string, m: nat)
    requires GoodDates(d) && StartOf(e, d).Some? && BlobLine(uid) && BlobLine(now)
    ensures var lines := EventLines(uid, e, d, now);
            && |lines| > 7 && lines[4] == Entry("UID", uid) && lines[|lines| - 3] == Entry("DTSTAMP", now)
            && (3 < m < |lines| - 2 ==>
                  && (Names(lines[m], "UID") <==> m == 4)
                  && (Names(lines[m], "DTSTAMP") <==> m == |lines| - 3))
  {
    var ps := Pairs(uid, e, d, now);
    LinesArePairs(uid, e, d, now);
    TitlerIs();
    BuiltPairs(uid, e, d, now, TitlerFor());
    LinesCarry(ps, EventLines(uid, e, d, now));
    if 3 < m < |ps| + 4 {
      LinesName(ps, EventLines(uid, e, d, now), m, TitlerFor());
    }
  }
}
