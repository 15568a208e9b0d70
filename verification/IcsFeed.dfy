/** Unfolding and splitting a subscribed calendar feed. */
module IcsFeed {
  import opened Base
  import opened Text
  import opened IcalText
  import Vevent

  // ── unfolding ────────────────────────────────────────────────────────

  predicate Continues(raw: string) { raw != "" && (raw[0] == ' ' || raw[0] == '\t') }

  function UnfoldStep(out: string, raw: string): string {
    if Continues(raw) then out + TrimStart(raw) else if out == "" then raw else out + "\n" + raw
  }

  function UnfoldLines(out: string, raws: seq<string>): string
    decreases |raws|
  {
    if raws == [] then out else UnfoldLines(UnfoldStep(out, raws[0]), raws[1..])
  }

  function Unfold(ics: string): string { UnfoldLines("", RawLines(ics)) }

  /** `unfold_ical`. */
  method UnfoldIcal(ics: string) returns (out: string)
    ensures out == Unfold(ics)
  {
    SplitTwiceIsRawLines(ics);
    out := UnfoldAll(FlatSplit(SplitCrlf(ics)));
  }

  method UnfoldAll(raws: seq<string>) returns (out: string)
    ensures out == UnfoldLines("", raws)
  {
    out := "";
    for i := 0 to |raws|
      invariant UnfoldLines(out, raws[i..]) == UnfoldLines("", raws)
    {
      var raw := raws[i];
      UnfoldHead(out, raw, raws[i + 1..]);
      assert raws[i..] == [raw] + raws[i + 1..];
      assert "" + raw == raw;
      if Continues(raw) {
        out := out + TrimStart(raw);
      } else {
        if out != "" {
          out := out + "\n";
        }
        out := out + raw;
      }
    }
  }

  lemma {:induction false} UnfoldAppend(out: string, a: seq<string>, b: seq<string>)
    ensures UnfoldLines(out, a + b) == UnfoldLines(UnfoldLines(out, a), b)
    decreases |a|
  {
    if a == [] {
      assert a + b == b;
    } else {
      assert (a + b)[1..] == a[1..] + b;
      UnfoldAppend(UnfoldStep(out, a[0]), a[1..], b);
    }
  }

  /** What follows adds the same length to any non-empty buffer. */
  lemma {:induction false} SameGrowth(o1: string, o2: string, raws: seq<string>)
    requires o1 != "" && o2 != ""
    ensures |UnfoldLines(o1, raws)| - |o1| == |UnfoldLines(o2, raws)| - |o2|
    decreases |raws|
  {
    if raws != [] {
      SameGrowth(UnfoldStep(o1, raws[0]), UnfoldStep(o2, raws[0]), raws[1..]);
    }
  }

  lemma {:induction false} TrimStartAppend(p: string, q: string)
    ensures TrimStart(p + q) == if TrimStart(p) == "" then TrimStart(q) else TrimStart(p) + q
  {
    if p == "" {
      assert p + q == q;
    } else {
      assert (p + q)[0] == p[0] && (p + q)[1..] == p[1..] + q;
      TrimStartAppend(p[1..], q);
    }
  }

  /** Where unfolding gives a fold back: the continuation text is empty or does
      not start with white space, or nothing but white space precedes it. */
  predicate Foldable(p: string, q: string) {
    q == "" || !IsSpace(q[0]) || (Continues(p) && TrimStart(p) == "")
  }

  lemma TrimStartShortens(q: string)
    ensures q == "" || !IsSpace(q[0]) ==> TrimStart(q) == q
    ensures q != "" && IsSpace(q[0]) ==> |TrimStart(q)| < |q|
  {
  }

  lemma FoldedStep(out: string, p: string, ws: char, q: string)
    requires ws == ' ' || ws == '\t'
    ensures UnfoldStep(UnfoldStep(out, p), [ws] + q) == UnfoldStep(out, p) + TrimStart(q)
  {
    assert ([ws] + q)[1..] == q;
  }

  /** An unfolded line is its front's, then the rest as it stands; behind nothing
      but white space the rest is trimmed too. */
  lemma WholeStep(out: string, p: string, q: string)
    requires p != ""
    ensures UnfoldStep(out, p + q) ==
            UnfoldStep(out, p) + if Continues(p) && TrimStart(p) == "" then TrimStart(q) else q
  {
    assert (p + q)[0] == p[0];
    if Continues(p) {
      TrimStartAppend(p, q);
      Append(out, TrimStart(p), q);
      Append(out, "", TrimStart(q));
    } else {
      Append(out + "\n", p, q);
    }
  }

  lemma Append(a: string, b: string, c: string)
    ensures a + (b + c) == (a + b) + c && "" + c == c && a + "" == a
  {
  }

  lemma StepIsNotEmpty(out: string, p: string)
    requires p != "" && !(Continues(p) && TrimStart(p) == "")
    ensures UnfoldStep(out, p) != ""
  {
  }

  lemma FoldOneLine(out: string, p: string, ws: char, q: string)
    requires p != "" && (ws == ' ' || ws == '\t')
    ensures var whole, folded := UnfoldStep(out, p + q), UnfoldStep(UnfoldStep(out, p), [ws] + q);
            && (Foldable(p, q) ==> folded == whole)
            && (!Foldable(p, q) ==> whole != "" && folded != "" && |folded| < |whole|)
  {
    FoldedStep(out, p, ws, q);
    WholeStep(out, p, q);
    TrimStartShortens(q);
    if !Foldable(p, q) {
      StepIsNotEmpty(out, p);
    }
  }

  lemma FrontOfConcat(a: string, x: string)
    requires a != "" && (|a| > 1 || a[0] != '\r' || x == "" || x[0] != '\n')
    ensures CrlfAt(a + x) == CrlfAt(a) && (a + x)[0] == a[0] && (a + x)[1..] == a[1..] + x
    ensures CrlfAt(a) ==> (a + x)[2..] == a[2..] + x
  {
  }

  lemma {:induction false} RawLinesAcrossCrlf(a: string, b: string)
    ensures RawLines(a + ("\r\n" + b)) == RawLines(a) + RawLines(b)
  {
    var tail := "\r\n" + b;
    assert tail[0] == "\r\n"[0] && tail[1] == "\r\n"[1];
    if a == "" {
      assert a + tail == tail && tail[2..] == b;
    } else {
      FrontOfConcat(a, tail);
      if CrlfAt(a) {
        RawLinesAcrossCrlf(a[2..], b);
        ConsAppend('\n', RawLines(a[2..]), RawLines(b));
      } else {
        RawLinesAcrossCrlf(a[1..], b);
        ConsAppend(a[0], RawLines(a[1..]), RawLines(b));
      }
    }
  }

  function Glue(a: seq<string>, b: seq<string>): seq<string>
    requires a != [] && b != []
  {
    a[..|a| - 1] + ([a[|a| - 1] + b[0]] + b[1..])
  }

  lemma GlueCons(c: char, a: seq<string>, b: seq<string>)
    requires a != [] && b != []
    ensures Cons(c, Glue(a, b)) == Glue(Cons(c, a), b)
  {
    if c == '\n' {
      assert ([""] + a)[..|a|] == [""] + a[..|a| - 1];
    } else if |a| == 1 {
      GlueConsOne(c, a, b);
    } else {
      GlueConsMany(c, a, b);
    }
  }

  lemma GlueConsOne(c: char, a: seq<string>, b: seq<string>)
    requires |a| == 1 && b != [] && c != '\n'
    ensures Cons(c, Glue(a, b)) == Glue(Cons(c, a), b)
  {
    assert [c] + (a[0] + b[0]) == ([c] + a[0]) + b[0];
    assert Glue(a, b) == [a[0] + b[0]] + b[1..];
    assert Cons(c, a) == [[c] + a[0]];
  }

  lemma GlueConsMany(c: char, a: seq<string>, b: seq<string>)
    requires |a| > 1 && b != [] && c != '\n'
    ensures Cons(c, Glue(a, b)) == Glue(Cons(c, a), b)
  {
    var mid := a[1..|a| - 1];
    var end := [a[|a| - 1] + b[0]] + b[1..];
    assert Glue(a, b) == [a[0]] + (mid + end);
    assert Cons(c, a) == [[c] + a[0]] + (mid + [a[|a| - 1]]);
    assert Cons(c, a)[..|a| - 1] == [[c] + a[0]] + mid;
  }

  lemma {:induction false} RawLinesGlue(a: string, b: string)
    requires !(a != "" && a[|a| - 1] == '\r' && b != "" && b[0] == '\n')
    ensures RawLines(a + b) == Glue(RawLines(a), RawLines(b))
  {
    if a == "" {
      assert a + b == b;
      assert "" + RawLines(b)[0] == RawLines(b)[0];
    } else {
      FrontOfConcat(a, b);
      if CrlfAt(a) {
        RawLinesGlue(a[2..], b);
        GlueCons('\n', RawLines(a[2..]), RawLines(b));
      } else {
        RawLinesGlue(a[1..], b);
        GlueCons(a[0], RawLines(a[1..]), RawLines(b));
      }
    }
  }

  function LastLine(a: string): string { RawLines(a)[|RawLines(a)| - 1] }

  function FirstLine(b: string): string { RawLines(b)[0] }

  lemma FoldAmong(before: seq<string>, p: string, ws: char, q: string, after: seq<string>)
    requires p != "" && (ws == ' ' || ws == '\t')
    ensures (UnfoldLines("", before + ([p] + ([[ws] + q] + after))) ==
             UnfoldLines("", before + ([p + q] + after))) <==> Foldable(p, q)
  {
    var out := UnfoldLines("", before);
    UnfoldAppend("", before, [p] + ([[ws] + q] + after));
    UnfoldAppend("", before, [p + q] + after);
    FoldOneLine(out, p, ws, q);
    var whole, folded := UnfoldStep(out, p + q), UnfoldStep(UnfoldStep(out, p), [ws] + q);
    UnfoldHead(out, p + q, after);
    UnfoldHead(out, p, [[ws] + q] + after);
    UnfoldHead(UnfoldStep(out, p), [ws] + q, after);
    if !Foldable(p, q) {
      SameGrowth(whole, folded, after);
    }
  }

  lemma UnfoldHead(out: string, raw: string, raws: seq<string>)
    ensures UnfoldLines(out, [raw] + raws) == UnfoldLines(UnfoldStep(out, raw), raws)
  {
    assert ([raw] + raws)[1..] == raws;
  }

  /** Folding a line between `a` and `b` (section 3.1 of RFC 5545) is undone
      exactly when the fold is `Foldable`. */
  lemma FoldingIsUndoneIff(a: string, ws: char, b: string)
    requires LastLine(a) != "" && (ws == ' ' || ws == '\t')
    requires !(a[|a| - 1] == '\r' && b != "" && b[0] == '\n')
    ensures Unfold(a + ("\r\n" + ([ws] + b))) == Unfold(a + b) <==> Foldable(LastLine(a), FirstLine(b))
  {
    var ra, rb := RawLines(a), RawLines(b);
    FoldedLines(a, ws, b);
    RawLinesGlue(a, b);
    FoldAmong(ra[..|ra| - 1], LastLine(a), ws, rb[0], rb[1..]);
  }

  lemma FoldedLines(a: string, ws: char, b: string)
    requires ws == ' ' || ws == '\t'
    ensures var ra, rb := RawLines(a), RawLines(b);
            RawLines(a + ("\r\n" + ([ws] + b))) == ra[..|ra| - 1] + ([LastLine(a)] + ([[ws] + rb[0]] + rb[1..]))
  {
    RawLinesAcrossCrlf(a, [ws] + b);
    assert ([ws] + b)[1..] == b;
    assert RawLines([ws] + b) == Cons(ws, RawLines(b));
  }

  /** A fold right before a space loses that space. */
  lemma FoldBeforeSpaceLosesIt()
    ensures Unfold("S:a" + ("\r\n" + ([' '] + " b"))) != Unfold("S:a" + " b")
  {
    var a, b := "S:a", " b";
    RawLinesOfOne(a);
    RawLinesOfOne(b);
    NotFoldable(a, b);
    FoldingIsUndoneIff(a, ' ', b);
  }

  lemma NotFoldable(p: string, q: string)
    requires !Continues(p) && q != "" && q[0] == ' '
    ensures !Foldable(p, q)
  {
  }

  // ── events ───────────────────────────────────────────────────────────

  datatype Kind = BeginEvent | EndEvent | Content

  function KindOf(line: string): Kind {
    if SameIgnoringCase(line, "BEGIN:VEVENT") then BeginEvent
    else if SameIgnoringCase(line, "END:VEVENT") then EndEvent
    else Content
  }

  function JoinLf(lines: seq<string>): string {
    if lines == [] then "" else if |lines| == 1 then lines[0] else lines[0] + "\n" + JoinLf(lines[1..])
  }

  /** The value of a line with this property name. */
  function ValueIn(line: string, prop: string): Option<string> {
    match IndexOf(line, ':')
    case None => None
    case Some(i) => if ToUpper(Vevent.BeforeSemicolon(line[..i])) == prop then Some(Trim(line[i + 1..])) else None
  }

  /** The last such value. */
  function LastValue(lines: seq<string>, prop: string): Option<string> {
    if lines == [] then None
    else if ValueIn(lines[|lines| - 1], prop).Some? then ValueIn(lines[|lines| - 1], prop)
    else LastValue(lines[..|lines| - 1], prop)
  }

  lemma LastValueStep(lines: seq<string>, i: nat, prop: string)
    requires i < |lines|
    ensures LastValue(lines[..i + 1], prop) ==
            if ValueIn(lines[i], prop).Some? then ValueIn(lines[i], prop) else LastValue(lines[..i], prop)
  {
    assert lines[..i + 1][..i] == lines[..i];
  }

  datatype Event = Event(
    uid: string, fields: Vevent.Fields, start: Option<string>, end: Option<string>,
    rrule: Option<string>, status: Option<string>, blob: string)

  /** Date normalisation, kept abstract. */
  type Norm = string -> Option<string>

  function Normalized(raw: Option<string>, norm: Norm): Option<string> { if raw.Some? then norm(raw.value) else None }

  function UidOf(uid: Option<string>, start: Option<string>): string {
    if uid.Some? && uid.value != "" then uid.value
    else "lyra-ics-" + if start.Some? then start.value else "unknown"
  }

  function EventOf(blob: string, norm: Norm): Event {
    var f := Vevent.ReadFields(blob);
    Event(UidOf(LastValue(Lines(blob), "UID"), f.dtstart), f, Normalized(f.dtstart, norm), Normalized(f.dtend, norm),
          LastValue(Lines(blob), "RRULE"), LastValue(Lines(blob), "STATUS"), blob)
  }

  /** `parse_one_vevent`. */
  method ParseOneVevent(blob: string, norm: Norm) returns (e: Event)
    ensures e == EventOf(blob, norm)
  {
    var f := Vevent.ParseVeventFields(blob);
    var lines := Lines(blob);
    var uid, rrule, status := Option<string>.None, Option<string>.None, Option<string>.None;
    for i := 0 to |lines|
      invariant uid == LastValue(lines[..i], "UID")
      invariant rrule == LastValue(lines[..i], "RRULE")
      invariant status == LastValue(lines[..i], "STATUS")
    {
      LastValueStep(lines, i, "UID");
      LastValueStep(lines, i, "RRULE");
      LastValueStep(lines, i, "STATUS");
      var u, r, s := ValueIn(lines[i], "UID"), ValueIn(lines[i], "RRULE"), ValueIn(lines[i], "STATUS");
      uid := if u.Some? then u else uid;
      rrule := if r.Some? then r else rrule;
      status := if s.Some? then s else status;
    }
    assert lines[..|lines|] == lines;
    e := Event(UidOf(uid, f.dtstart), f, Normalized(f.dtstart, norm), Normalized(f.dtend, norm), rrule, status, blob);
  }

  /** Where the event that is open before line `j` began. */
  function Opened(lines: seq<string>, j: nat): (r: Option<nat>)
    requires j <= |lines|
    ensures r.Some? ==> r.value < j
  {
    if j == 0 then None
    else match KindOf(lines[j - 1])
      case BeginEvent => Some(j - 1)
      case EndEvent => None
      case Content => Opened(lines, j - 1)
  }

  /** The lines of the event ending at line `j`; a stray END is on its own. */
  function Own(lines: seq<string>, j: nat): seq<string>
    requires j < |lines|
  {
    match Opened(lines, j)
    case None => [lines[j]]
    case Some(i) => lines[i..j + 1]
  }

  /** Reading one blob. */
  type Reader = string -> Event

  function ReaderFor(norm: Norm): Reader { (blob: string) => EventOf(blob, norm) }

  /** One event per END line, in order. */
  function Events(lines: seq<string>, n: nat, read: Reader): seq<Event>
    requires n <= |lines|
  {
    if n == 0 then []
    else Events(lines, n - 1, read) + if KindOf(lines[n - 1]) == EndEvent then [read(JoinLf(Own(lines, n - 1)))] else []
  }

  /** The last calendar name outside every event. */
  function CalendarName(lines: seq<string>, n: nat): Option<string>
    requires n <= |lines|
  {
    if n == 0 then None
    else
      var v := ValueIn(lines[n - 1], "X-WR-CALNAME");
      if KindOf(lines[n - 1]) == Content && Opened(lines, n - 1).None? && v.Some? then v else CalendarName(lines, n - 1)
  }

  function FeedLines(ics: string): (r: seq<string>)
    ensures |r| == |Lines(Unfold(ics))| && forall i | 0 <= i < |r| :: r[i] == TrimEnd(Lines(Unfold(ics))[i])
  {
    var raws := Lines(Unfold(ics));
    seq(|raws|, i requires 0 <= i < |raws| => TrimEnd(raws[i]))
  }

  datatype Feed = Feed(name: Option<string>, events: seq<Event>)

  function ReadFeed(ics: string, norm: Norm): Feed {
    var lines := FeedLines(ics);
    Feed(CalendarName(lines, |lines|), Events(lines, |lines|, ReaderFor(norm)))
  }

  /** `parse_ics_feed`. */
  method ParseIcsFeed(ics: string, norm: Norm) returns (feed: Feed)
    ensures feed == ReadFeed(ics, norm)
  {
    var lines := FeedLines(ics);
    feed := SplitEvents(lines, norm, ReaderFor(norm));
  }

  ghost predicate IsReader(read: Reader, norm: Norm) {
    forall blob {:trigger EventOf(blob, norm)} :: read(blob) == EventOf(blob, norm)
  }

  method ReadEvent(own: seq<string>, norm: Norm, ghost read: Reader) returns (e: Event)
    requires IsReader(read, norm)
    ensures e == read(JoinLf(own))
  {
    e := ParseOneVevent(JoinLf(own), norm);
  }

  /** The lines kept of the event open before line `i`. */
  function Pending(lines: seq<string>, i: nat): seq<string>
    requires i <= |lines|
  {
    match Opened(lines, i)
    case None => []
    case Some(k) => lines[k..i]
  }

  lemma PendingStep(lines: seq<string>, i: nat)
    requires i < |lines|
    ensures Pending(lines, i) + [lines[i]] == Own(lines, i)
    ensures Pending(lines, i + 1) == match KindOf(lines[i])
      case BeginEvent => [lines[i]]
      case EndEvent => []
      case Content => if Opened(lines, i).Some? then Pending(lines, i) + [lines[i]] else []
  {
    var open := Opened(lines, i);
    if open.Some? {
      assert lines[open.value..i] + [lines[i]] == lines[open.value..i + 1];
    }
    assert lines[i..i + 1] == [lines[i]];
  }

  /** Its loop: the open event's lines are kept until its END. */
  method SplitEvents(lines: seq<string>, norm: Norm, ghost read: Reader) returns (feed: Feed)
    requires IsReader(read, norm)
    ensures feed == Feed(CalendarName(lines, |lines|), Events(lines, |lines|, read))
  {
    var name: Option<string> := None;
    var events: seq<Event> := [];
    var inEvent := false;
    var eventLines: seq<string> := [];
    for i := 0 to |lines|
      invariant name == CalendarName(lines, i) && events == Events(lines, i, read)
      invariant inEvent == Opened(lines, i).Some? && eventLines == Pending(lines, i)
    {
      var line := lines[i];
      PendingStep(lines, i);
      match KindOf(line) {
        case BeginEvent =>
          inEvent, eventLines := true, [line];
        case EndEvent =>
          var e := ReadEvent(eventLines + [line], norm, read);
          events := events + [e];
          inEvent, eventLines := false, [];
        case Content =>
          if inEvent {
            eventLines := eventLines + [line];
          } else {
            var v := ValueIn(line, "X-WR-CALNAME");
            name := if v.Some? then v else name;
          }
      }
    }
    feed := Feed(name, events);
  }

  // ── what the events are ──────────────────────────────────────────────

  function Ends(lines: seq<string>, n: nat): nat
    requires n <= |lines|
  {
    if n == 0 then 0 else Ends(lines, n - 1) + if KindOf(lines[n - 1]) == EndEvent then 1 else 0
  }

  lemma {:induction false} OneEventPerEnd(lines: seq<string>, n: nat, read: Reader)
    requires n <= |lines|
    ensures |Events(lines, n, read)| == Ends(lines, n)
  {
    if n > 0 {
      OneEventPerEnd(lines, n - 1, read);
    }
  }

  /** A VEVENT from line `i` to line `j`. */
  ghost predicate Section(lines: seq<string>, i: nat, j: nat) {
    && i < j < |lines| && KindOf(lines[i]) == BeginEvent && KindOf(lines[j]) == EndEvent
    && forall k | i < k < j :: KindOf(lines[k]) == Content
  }

  lemma {:induction false} SectionOpens(lines: seq<string>, i: nat, j: nat, k: nat)
    requires Section(lines, i, j) && i < k <= j
    ensures Opened(lines, k) == Some(i)
    decreases k
  {
    if k > i + 1 {
      SectionOpens(lines, i, j, k - 1);
    }
  }

  lemma EventsGrow(lines: seq<string>, n: nat, read: Reader)
    requires n < |lines|
    ensures Events(lines, n, read) <= Events(lines, n + 1, read)
  {
  }

  lemma EventAtEnd(lines: seq<string>, j: nat, read: Reader)
    requires j < |lines| && KindOf(lines[j]) == EndEvent
    ensures Events(lines, j + 1, read) == Events(lines, j, read) + [read(JoinLf(Own(lines, j)))]
    ensures |Events(lines, j, read)| == Ends(lines, j)
  {
    OneEventPerEnd(lines, j, read);
  }

  lemma {:induction false} EventAt(lines: seq<string>, j: nat, n: nat, read: Reader)
    requires j < n <= |lines| && KindOf(lines[j]) == EndEvent
    ensures Ends(lines, j) < |Events(lines, n, read)|
    ensures Events(lines, n, read)[Ends(lines, j)] == read(JoinLf(Own(lines, j)))
    decreases n
  {
    if j == n - 1 {
      EventAtEnd(lines, j, read);
    } else {
      EventAt(lines, j, n - 1, read);
      EventsGrow(lines, n - 1, read);
    }
  }

  /** Each VEVENT is the event at its place in the feed, with its own lines as blob. */
  lemma SectionIsItsEvent(lines: seq<string>, i: nat, j: nat, read: Reader)
    requires Section(lines, i, j)
    ensures var events := Events(lines, |lines|, read);
            && |events| == Ends(lines, |lines|) && Ends(lines, j) < |events|
            && events[Ends(lines, j)] == read(JoinLf(lines[i..j + 1]))
  {
    SectionOpens(lines, i, j, j);
    OneEventPerEnd(lines, |lines|, read);
    EventAt(lines, j, |lines|, read);
  }

  ghost predicate BlobLine(l: string) { '\n' !in l && (l == "" || l[|l| - 1] != '\r') }

  lemma {:induction false} RawLinesOfJoin(lines: seq<string>)
    requires lines != [] && forall l | l in lines :: BlobLine(l)
    ensures RawLines(JoinLf(lines)) == lines
    decreases |lines|
  {
    assert BlobLine(lines[0]);
    if |lines| == 1 {
      RawLinesOfOne(lines[0]);
    } else {
      RawLinesOfJoin(lines[1..]);
      RawLinesBeforeLf(lines[0], JoinLf(lines[1..]));
    }
  }

  lemma RawLinesBeforeLf(l: string, t: string)
    requires BlobLine(l)
    ensures RawLines(l + "\n" + t) == [l] + RawLines(t)
  {
    RawLinesOfOne(l);
    var b := "\n" + t;
    assert b[1..] == t && b[0] == "\n"[0];
    assert l + "\n" + t == l + b;
    RawLinesGlue(l, b);
    assert l + "" == l;
  }

  /** The properties of an event are read from its own lines alone. */
  lemma EventReadsOwnLines(lines: seq<string>, i: nat, j: nat)
    requires Section(lines, i, j) && forall l | l in lines :: BlobLine(l)
    ensures Lines(JoinLf(lines[i..j + 1])) == lines[i..j + 1]
  {
    var own := lines[i..j + 1];
    RawLinesOfJoin(own);
    assert own[|own| - 1] == lines[j];
    assert |"END:VEVENT"| == 10;
  }

  lemma FeedLinesAreBlobLines(ics: string)
    ensures forall l | l in FeedLines(ics) :: BlobLine(l)
  {
    var raws := Lines(Unfold(ics));
    assert IsSpace('\r');
    forall i | 0 <= i < |raws|
      ensures BlobLine(TrimEnd(raws[i]))
    {
      assert raws[i] in RawLines(Unfold(ics));
    }
  }

  /** What an event says when it is read from these lines. */
  function EventFrom(own: seq<string>, norm: Norm): Event {
    var f := Vevent.FieldsIn(own);
    Event(UidOf(LastValue(own, "UID"), f.dtstart), f, Normalized(f.dtstart, norm), Normalized(f.dtend, norm),
          LastValue(own, "RRULE"), LastValue(own, "STATUS"), JoinLf(own))
  }

  lemma EventOfOwn(own: seq<string>, norm: Norm)
    requires Lines(JoinLf(own)) == own
    ensures EventOf(JoinLf(own), norm) == EventFrom(own, norm)
  {
  }

  /** On every feed: as many events as END lines, and each VEVENT is the event at
      its place, read from its own lines and nothing else. */
  lemma FeedReadsSections(ics: string, norm: Norm, i: nat, j: nat)
    requires Section(FeedLines(ics), i, j)
    ensures var lines, events := FeedLines(ics), ReadFeed(ics, norm).events;
            && |events| == Ends(lines, |lines|) && Ends(lines, j) < |events|
            && events[Ends(lines, j)] == EventFrom(lines[i..j + 1], norm)
  {
    var lines := FeedLines(ics);
    FeedLinesAreBlobLines(ics);
    SectionIsItsEvent(lines, i, j, ReaderFor(norm));
    EventReadsOwnLines(lines, i, j);
    EventOfOwn(lines[i..j + 1], norm);
  }

  /** A foldable fold anywhere in the feed changes nothing of what is read. */
  lemma FoldingKeepsTheFeed(a: string, ws: char, b: string, norm: Norm)
    requires LastLine(a) != "" && (ws == ' ' || ws == '\t') && Foldable(LastLine(a), FirstLine(b))
    requires !(a[|a| - 1] == '\r' && b != "" && b[0] == '\n')
    ensures ReadFeed(a + ("\r\n" + ([ws] + b)), norm) == ReadFeed(a + b, norm)
  {
    FoldingIsUndoneIff(a, ws, b);
  }
}
