/** Property lines of iCalendar as they are written, and what the readers of events
    and feeds make of them. */
module IcalProperty {
  import opened Base
  import opened Text
  import opened IcalText
  import opened Vevent
  import opened IcsFeed

  /** `name;params:value`, the parameters with their semicolon or none. */
  ghost predicate Spelled(line: string, name: string, params: string, v: string) {
    && line == name + (params + (":" + v)) && ':' !in name && ';' !in name
    && ':' !in params && (params == "" || params[0] == ';')
  }

  /** The line gives this property, in any case, the value `v`. */
  ghost predicate Writes(line: string, prop: string, v: string) {
    exists name, params :: Spelled(line, name, params, v) && ToUpper(name) == prop
  }

  ghost predicate Names(line: string, prop: string) { exists v :: Writes(line, prop, v) }

  lemma NameBeforeParams(name: string, params: string)
    requires ';' !in name && (params == "" || params[0] == ';')
    ensures BeforeSemicolon(name + params) == name
  {
    IndexOfSkips(name, params, ';');
    assert (name + params)[..|name|] == name;
  }

  /** Such a line has one name, one list of parameters and one value. */
  lemma SpelledReads(line: string, name: string, params: string, v: string)
    requires Spelled(line, name, params, v)
    ensures IndexOf(line, ':') == Some(|name| + |params|)
    ensures line[..|name| + |params|] == name + params && line[|name| + |params| + 1..] == v
    ensures BeforeSemicolon(name + params) == name
  {
    var part := name + params;
    assert line == part + (":" + v);
    IndexOfSkips(part, ":" + v, ':');
    NameBeforeParams(name, params);
  }

  lemma NameIsCut(part: string)
    ensures var name := BeforeSemicolon(part);
            && name <= part && ';' !in name && part == name + part[|name|..]
            && (part[|name|..] == "" || part[|name|..][0] == ';')
  {
  }

  lemma CutIsSpelled(line: string, part: string, v: string)
    requires line == part + (":" + v) && ':' !in part
    ensures var name := BeforeSemicolon(part); name <= part && Spelled(line, name, part[|name|..], v)
  {
    NameIsCut(part);
    var name := BeforeSemicolon(part);
    var params := part[|name|..];
    assert forall c | c in name || c in params :: c in part;
    assert name + (params + (":" + v)) == (name + params) + (":" + v);
  }

  lemma ValueOfPart(line: string, i: nat, part: string, name: string, v: string, prop: string)
    requires IndexOf(line, ':') == Some(i) && line[..i] == part && line[i + 1..] == v && BeforeSemicolon(part) == name
    ensures ValueIn(line, prop) == if ToUpper(name) == prop then Some(Trim(v)) else None
  {
  }

  lemma SpelledValue(line: string, name: string, params: string, v: string, prop: string)
    requires Spelled(line, name, params, v) && ToUpper(name) == prop
    ensures ValueIn(line, prop) == Some(Trim(v))
  {
    SpelledReads(line, name, params, v);
    ValueOfPart(line, |name| + |params|, name + params, name, v, prop);
  }

  lemma WrittenValue(line: string, prop: string, v: string)
    requires Writes(line, prop, v)
    ensures ValueIn(line, prop) == Some(Trim(v))
  {
    var name, params :| Spelled(line, name, params, v) && ToUpper(name) == prop;
    SpelledValue(line, name, params, v, prop);
  }

  lemma CutNames(line: string, part: string, v: string)
    requires line == part + (":" + v) && ':' !in part
    ensures Names(line, ToUpper(BeforeSemicolon(part)))
  {
    CutIsSpelled(line, part, v);
    assert Writes(line, ToUpper(BeforeSemicolon(part)), v);
  }

  lemma ValueIsWritten(line: string, prop: string)
    requires ValueIn(line, prop).Some?
    ensures Names(line, prop)
  {
    var i := IndexOf(line, ':').value;
    ValueOfPart(line, i, line[..i], BeforeSemicolon(line[..i]), line[i + 1..], prop);
    assert line == line[..i] + (":" + line[i + 1..]);
    CutNames(line, line[..i], line[i + 1..]);
  }

  /** What a line is read as: the trimmed value it gives the property. */
  lemma ValueInIff(line: string, prop: string, v: string)
    ensures Writes(line, prop, v) ==> ValueIn(line, prop) == Some(Trim(v))
    ensures Names(line, prop) <==> ValueIn(line, prop).Some?
  {
    if Writes(line, prop, v) {
      WrittenValue(line, prop, v);
    }
    if ValueIn(line, prop).Some? {
      ValueIsWritten(line, prop);
    } else if Names(line, prop) {
      var w :| Writes(line, prop, w);
      WrittenValue(line, prop, w);
    }
  }

  /** A name in any case counts. */
  lemma AnyCaseWrites(line: string, name: string, params: string, v: string, prop: string)
    requires Spelled(line, name, params, v) && |name| == |prop| && Upper(prop)
    requires forall i | 0 <= i < |name| :: AnyCase(name[i], prop[i])
    ensures Writes(line, prop, v)
  {
    ToUpperOfAnyCase(name, prop);
  }

  lemma MarkersAreUpper()
    ensures forall c | c in "BEGIN:VEVENT" || c in "END:VEVENT" :: !('a' <= c <= 'z')
  {
  }

  /** So do the markers, in ASCII letters. */
  lemma KindIff(line: string)
    ensures KindOf(line) == BeginEvent <==> Spells(line, "BEGIN:VEVENT")
    ensures KindOf(line) == EndEvent <==> Spells(line, "END:VEVENT")
  {
    MarkersAreUpper();
    SameIgnoringCaseIff(line, "BEGIN:VEVENT");
    SameIgnoringCaseIff(line, "END:VEVENT");
    assert |"BEGIN:VEVENT"| == 12 && |"END:VEVENT"| == 10;
  }

  lemma LineIff(raw: string)
    ensures LineOf(raw).Begin? <==> Spells(Trim(raw), "BEGIN:VEVENT")
    ensures LineOf(raw).End? <==> Spells(Trim(raw), "END:VEVENT")
  {
    MarkersAreUpper();
    SameIgnoringCaseIff(Trim(raw), "BEGIN:VEVENT");
    SameIgnoringCaseIff(Trim(raw), "END:VEVENT");
    assert |"BEGIN:VEVENT"| == 12 && |"END:VEVENT"| == 10;
  }

  // ── the last line of a name ──────────────────────────────────────────

  /** Line `k` gives the property its value and no later line names it. */
  ghost predicate LastWrites(lines: seq<string>, k: nat, prop: string, v: string) {
    && k < |lines| && Writes(lines[k], prop, v)
    && forall m | k < m < |lines| :: !Names(lines[m], prop)
  }

  ghost predicate NoneNames(lines: seq<string>, prop: string) {
    forall m | 0 <= m < |lines| :: !Names(lines[m], prop)
  }

  lemma {:induction false} LastValueIsLast(lines: seq<string>, k: nat, prop: string, v: string)
    requires LastWrites(lines, k, prop, v)
    ensures LastValue(lines, prop) == Some(Trim(v))
    decreases |lines|
  {
    var n := |lines| - 1;
    ValueInIff(lines[n], prop, v);
    if k < n {
      LastValueIsLast(lines[..n], k, prop, v);
    }
  }

  lemma {:induction false} LastValueOfNone(lines: seq<string>, prop: string)
    requires NoneNames(lines, prop)
    ensures LastValue(lines, prop) == None
    decreases |lines|
  {
    if lines != [] {
      ValueInIff(lines[|lines| - 1], prop, "");
      LastValueOfNone(lines[..|lines| - 1], prop);
    }
  }

  // ── the properties of a feed's events ────────────────────────────────

  /** The event a VEVENT of the feed is read as. */
  ghost function EventAtLine(ics: string, norm: Norm, i: nat, j: nat): Event
    requires Section(FeedLines(ics), i, j)
  {
    FeedReadsSections(ics, norm, i, j);
    ReadFeed(ics, norm).events[IcsFeed.Ends(FeedLines(ics), j)]
  }

  /** The UID read is the trimmed value of the section's last UID line; one that is
      blank gives way to the start date. */
  lemma FeedReadsUid(ics: string, norm: Norm, i: nat, j: nat, k: nat, v: string)
    requires Section(FeedLines(ics), i, j) && LastWrites(FeedLines(ics)[i..j + 1], k, "UID", v)
    ensures var e := EventAtLine(ics, norm, i, j);
            e.uid == if Trim(v) != "" then Trim(v)
                     else "lyra-ics-" + (if e.fields.dtstart.Some? then e.fields.dtstart.value else "unknown")
  {
    FeedReadsSections(ics, norm, i, j);
    LastValueIsLast(FeedLines(ics)[i..j + 1], k, "UID", v);
  }

  lemma FeedWithoutUid(ics: string, norm: Norm, i: nat, j: nat)
    requires Section(FeedLines(ics), i, j) && NoneNames(FeedLines(ics)[i..j + 1], "UID")
    ensures var e := EventAtLine(ics, norm, i, j);
            e.uid == "lyra-ics-" + if e.fields.dtstart.Some? then e.fields.dtstart.value else "unknown"
  {
    FeedReadsSections(ics, norm, i, j);
    LastValueOfNone(FeedLines(ics)[i..j + 1], "UID");
  }

  /** The rule and the status are those of the section's last such lines, if any. */
  lemma FeedReadsRule(ics: string, norm: Norm, i: nat, j: nat, k: nat, v: string)
    requires Section(FeedLines(ics), i, j)
    ensures LastWrites(FeedLines(ics)[i..j + 1], k, "RRULE", v) ==> EventAtLine(ics, norm, i, j).rrule == Some(Trim(v))
    ensures NoneNames(FeedLines(ics)[i..j + 1], "RRULE") ==> EventAtLine(ics, norm, i, j).rrule == None
  {
    var own := FeedLines(ics)[i..j + 1];
    FeedReadsSections(ics, norm, i, j);
    if LastWrites(own, k, "RRULE", v) {
      LastValueIsLast(own, k, "RRULE", v);
    }
    if NoneNames(own, "RRULE") {
      LastValueOfNone(own, "RRULE");
    }
  }

  lemma FeedReadsStatus(ics: string, norm: Norm, i: nat, j: nat, k: nat, v: string)
    requires Section(FeedLines(ics), i, j)
    ensures LastWrites(FeedLines(ics)[i..j + 1], k, "STATUS", v) ==>
              EventAtLine(ics, norm, i, j).status == Some(Trim(v))
    ensures NoneNames(FeedLines(ics)[i..j + 1], "STATUS") ==> EventAtLine(ics, norm, i, j).status == None
  {
    var own := FeedLines(ics)[i..j + 1];
    FeedReadsSections(ics, norm, i, j);
    if LastWrites(own, k, "STATUS", v) {
      LastValueIsLast(own, k, "STATUS", v);
    }
    if NoneNames(own, "STATUS") {
      LastValueOfNone(own, "STATUS");
    }
  }

  /** The dates are those of the fields, normalised, and the blob is the section. */
  lemma FeedReadsDates(ics: string, norm: Norm, i: nat, j: nat)
    requires Section(FeedLines(ics), i, j)
    ensures var e, own := EventAtLine(ics, norm, i, j), FeedLines(ics)[i..j + 1];
            && e.fields == FieldsIn(own) && e.blob == JoinLf(own)
            && e.start == (if e.fields.dtstart.Some? then norm(e.fields.dtstart.value) else None)
            && e.end == (if e.fields.dtend.Some? then norm(e.fields.dtend.value) else None)
  {
    FeedReadsSections(ics, norm, i, j);
  }

  // ── the name of the calendar ─────────────────────────────────────────

  /** Every BEGIN before line `k` has its END before it too. */
  ghost predicate Outside(lines: seq<string>, k: nat)
    requires k <= |lines|
  {
    forall b | 0 <= b < k && KindOf(lines[b]) == BeginEvent :: EndsBetween(lines, b, k)
  }

  ghost predicate EndsBetween(lines: seq<string>, b: nat, k: nat)
    requires b <= k <= |lines|
  {
    exists e :: b < e < k && KindOf(lines[e]) == EndEvent
  }

  lemma {:induction false} OpenedIff(lines: seq<string>, k: nat)
    requires k <= |lines|
    ensures Opened(lines, k).None? <==> Outside(lines, k)
    ensures Opened(lines, k).Some? ==>
              KindOf(lines[Opened(lines, k).value]) == BeginEvent && !EndsBetween(lines, Opened(lines, k).value, k)
  {
    if k > 0 {
      OpenedIff(lines, k - 1);
      var kind := KindOf(lines[k - 1]);
      forall b | 0 <= b < k - 1
        ensures EndsBetween(lines, b, k) <==> EndsBetween(lines, b, k - 1) || kind == EndEvent
      {
      }
      if kind == Content && Opened(lines, k).Some? {
        assert !EndsBetween(lines, Opened(lines, k).value, k - 1);
      }
    }
  }

  /** Line `k` lies outside every event and names the calendar. */
  ghost predicate NamesCalendar(lines: seq<string>, k: nat)
    requires k < |lines|
  {
    KindOf(lines[k]) == Content && Outside(lines, k) && Names(lines[k], "X-WR-CALNAME")
  }

  /** From line `k` up to line `n` none does. */
  ghost predicate Unnamed(lines: seq<string>, k: nat, n: nat)
    requires n <= |lines|
  {
    forall m | k <= m < n :: !NamesCalendar(lines, m)
  }

  lemma CalendarStep(lines: seq<string>, n: nat)
    requires n < |lines|
    ensures CalendarName(lines, n + 1) ==
            if NamesCalendar(lines, n) then ValueIn(lines[n], "X-WR-CALNAME") else CalendarName(lines, n)
  {
    ValueInIff(lines[n], "X-WR-CALNAME", "");
    OpenedIff(lines, n);
  }

  lemma CalendarLine(lines: seq<string>, k: nat, v: string)
    requires k < |lines| && NamesCalendar(lines, k) && Writes(lines[k], "X-WR-CALNAME", v)
    ensures CalendarName(lines, k + 1) == Some(Trim(v))
  {
    CalendarStep(lines, k);
    ValueInIff(lines[k], "X-WR-CALNAME", v);
  }

  /** What no step changes stays. */
  lemma {:induction false} Carried(name: nat -> Option<string>, k: nat, n: nat)
    requires k <= n && forall m: nat | k <= m < n :: name(m + 1) == name(m)
    ensures name(n) == name(k)
    decreases n
  {
    if k < n {
      Carried(name, k, n - 1);
      assert name((n - 1) + 1) == name(n - 1);
    }
  }

  lemma CalendarNameIsLast(lines: seq<string>, n: nat, k: nat, v: string)
    requires k < n <= |lines| && NamesCalendar(lines, k) && Writes(lines[k], "X-WR-CALNAME", v)
    requires Unnamed(lines, k + 1, n)
    ensures CalendarName(lines, n) == Some(Trim(v))
  {
    CalendarLine(lines, k, v);
    CalendarNameStays(lines, k + 1, n);
  }

  lemma CalendarNameStays(lines: seq<string>, k: nat, n: nat)
    requires k <= n <= |lines| && Unnamed(lines, k, n)
    ensures CalendarName(lines, n) == CalendarName(lines, k)
  {
    var name: nat -> Option<string> := (m: nat) => if m <= |lines| then CalendarName(lines, m) else None;
    forall m: nat | k <= m < n
      ensures name(m + 1) == name(m)
    {
      CalendarStep(lines, m);
    }
    Carried(name, k, n);
  }

  lemma NoCalendarName(lines: seq<string>, n: nat)
    requires n <= |lines| && Unnamed(lines, 0, n)
    ensures CalendarName(lines, n) == None
  {
    CalendarNameStays(lines, 0, n);
  }

  /** The feed's name is the trimmed value of the last such line outside events. */
  lemma FeedReadsName(ics: string, norm: Norm, k: nat, v: string)
    requires k < |FeedLines(ics)| && NamesCalendar(FeedLines(ics), k) && Writes(FeedLines(ics)[k], "X-WR-CALNAME", v)
    requires Unnamed(FeedLines(ics), k + 1, |FeedLines(ics)|)
    ensures ReadFeed(ics, norm).name == Some(Trim(v))
  {
    CalendarNameIsLast(FeedLines(ics), |FeedLines(ics)|, k, v);
  }
}
