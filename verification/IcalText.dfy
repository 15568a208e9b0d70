/** Lines, letter case and text escaping of iCalendar. */
module IcalText {
  import opened Base
  import opened Text

  // ── lines ────────────────────────────────────────────────────────────

  /** One more character in front: a line break, or part of the first line. */
  function Cons(c: char, parts: seq<string>): seq<string>
    requires parts != []
  {
    if c == '\n' then [""] + parts else [[c] + parts[0]] + parts[1..]
  }

  predicate CrlfAt(s: string) { |s| > 1 && s[0] == '\r' && s[1] == '\n' }

  /** The text cut at every LF, one CR before it dropped. Never empty. */
  function RawLines(s: string): (r: seq<string>)
    ensures r != [] && forall l | l in r :: '\n' !in l
  {
    if s == "" then [""] else if CrlfAt(s) then Cons('\n', RawLines(s[2..])) else Cons(s[0], RawLines(s[1..]))
  }

  /** `str::lines`: no last line if it is empty. */
  function Lines(s: string): seq<string> {
    var r := RawLines(s);
    if r[|r| - 1] == "" then r[..|r| - 1] else r
  }

  function SplitCrlf(s: string): (r: seq<string>)
    ensures r != []
  {
    if s == "" then [""]
    else if "\r\n" <= s then [""] + SplitCrlf(s[2..])
    else
      var rest := SplitCrlf(s[1..]);
      [[s[0]] + rest[0]] + rest[1..]
  }

  function FlatSplit(parts: seq<string>): seq<string>
    decreases |parts|
  {
    if parts == [] then [] else SplitChar(parts[0], '\n') + FlatSplit(parts[1..])
  }

  lemma FlatSplitCons(p: string, parts: seq<string>)
    ensures FlatSplit([p] + parts) == SplitChar(p, '\n') + FlatSplit(parts)
  {
    assert ([p] + parts)[1..] == parts;
  }

  /** Cutting at CRLF first and at LF inside each piece gives the raw lines. */
  lemma {:induction false} SplitTwiceIsRawLines(s: string)
    ensures FlatSplit(SplitCrlf(s)) == RawLines(s)
  {
    if s == "" {
      FlatSplitCons("", []);
      assert [""] + [] == [""];
    } else if "\r\n" <= s {
      SplitTwiceIsRawLines(s[2..]);
      assert s[0] == "\r\n"[0] && s[1] == "\r\n"[1];
      FlatSplitCons("", SplitCrlf(s[2..]));
    } else {
      SplitTwiceIsRawLines(s[1..]);
      NoCrlfHere(s);
      SplitTwiceStep(s[0], SplitCrlf(s[1..]));
    }
  }

  lemma NoCrlfHere(s: string)
    requires !("\r\n" <= s)
    ensures !CrlfAt(s)
  {
  }

  lemma FirstOfAppend(a: seq<string>, b: seq<string>)
    requires a != []
    ensures (a + b)[0] == a[0] && (a + b)[1..] == a[1..] + b
  {
  }

  lemma ConsAppend(c: char, a: seq<string>, b: seq<string>)
    requires a != []
    ensures Cons(c, a + b) == Cons(c, a) + b
  {
    FirstOfAppend(a, b);
    AppendThrice([""], a, b);
    AppendThrice([[c] + a[0]], a[1..], b);
  }

  lemma SplitTwiceStep(c: char, rest: seq<string>)
    requires rest != []
    ensures FlatSplit(rest) != [] && FlatSplit([[c] + rest[0]] + rest[1..]) == Cons(c, FlatSplit(rest))
  {
    var first, tail := SplitChar(rest[0], '\n'), FlatSplit(rest[1..]);
    FlatSplitCons([c] + rest[0], rest[1..]);
    SplitCharCons(c, rest[0]);
    ConsAppend(c, first, tail);
  }

  lemma SplitCharCons(c: char, t: string)
    ensures SplitChar([c] + t, '\n') == Cons(c, SplitChar(t, '\n'))
  {
    assert ([c] + t)[1..] == t;
  }

  function JoinCrlf(lines: seq<string>): string {
    if lines == [] then "" else if |lines| == 1 then lines[0] else lines[0] + "\r\n" + JoinCrlf(lines[1..])
  }

  lemma {:induction false} RawLinesOfLine(l: string, t: string)
    requires '\n' !in l
    ensures RawLines(l + "\r\n" + t) == [l] + RawLines(t)
  {
    var x := l + "\r\n" + t;
    if l == "" {
      assert x[0] == "\r\n"[0] && x[1] == "\r\n"[1] && x[2..] == t;
    } else {
      assert x[1..] == l[1..] + "\r\n" + t && x[0] == l[0];
      assert x[1] == if |l| > 1 then l[1] else "\r\n"[0];
      RawLinesOfLine(l[1..], t);
      assert l == [l[0]] + l[1..];
    }
  }

  lemma {:induction false} RawLinesOfOne(l: string)
    requires '\n' !in l
    ensures RawLines(l) == [l]
  {
    if l != "" {
      RawLinesOfOne(l[1..]);
      assert l == [l[0]] + l[1..];
    }
  }

  /** Lines written with CRLF read back. */
  lemma {:induction false} LinesOfJoined(lines: seq<string>)
    requires lines != [] && forall l | l in lines :: '\n' !in l
    ensures RawLines(JoinCrlf(lines)) == lines
    decreases |lines|
  {
    if |lines| == 1 {
      RawLinesOfOne(lines[0]);
    } else {
      LinesOfJoined(lines[1..]);
      RawLinesOfLine(lines[0], JoinCrlf(lines[1..]));
    }
  }

  // ── letter case ──────────────────────────────────────────────────────

  function UpperAscii(c: char): char { if 'a' <= c <= 'z' then (c as int - 32) as char else c }

  predicate SameIgnoringCase(a: string, b: string) {
    |a| == |b| && forall i | 0 <= i < |a| :: UpperAscii(a[i]) == UpperAscii(b[i])
  }

  /** `to_uppercase`, as far as its result can hold ASCII letters only; every
      other character's upper case holds a character outside ASCII. */
  function UpperChar(c: char): string {
    if c == '\U{17F}' then "S"
    else if c == '\U{131}' then "I"
    else if c == '\U{DF}' then "SS"
    else if c == '\U{FB00}' then "FF"
    else if c == '\U{FB01}' then "FI"
    else if c == '\U{FB02}' then "FL"
    else if c == '\U{FB03}' then "FFI"
    else if c == '\U{FB04}' then "FFL"
    else if c == '\U{FB05}' || c == '\U{FB06}' then "ST"
    else [UpperAscii(c)]
  }

  function ToUpper(s: string): string { if s == "" then "" else UpperChar(s[0]) + ToUpper(s[1..]) }

  predicate UpperLetter(c: char) { 'A' <= c <= 'Z' || c == ';' || c == '=' || c == '-' }

  predicate Upper(s: string) { forall c | c in s :: UpperLetter(c) }

  lemma UpperLetterStays(c: char)
    requires UpperLetter(c)
    ensures UpperChar(c) == [c]
  {
  }

  lemma {:induction false} ToUpperOfUpper(s: string)
    requires Upper(s)
    ensures ToUpper(s) == s
  {
    if s != "" {
      UpperLetterStays(s[0]);
      ToUpperOfUpper(s[1..]);
      assert s == [s[0]] + s[1..];
    }
  }

  /** `str::len`: bytes in UTF-8. */
  function ByteLen(s: string): nat {
    if s == "" then 0
    else
      var n := s[0] as int;
      (if n < 0x80 then 1 else if n < 0x800 then 2 else if n < 0x1_0000 then 3 else 4) + ByteLen(s[1..])
  }

  /** Characters of ASCII take a byte each, others more. */
  lemma {:induction false} ByteLenIff(s: string)
    ensures |s| <= ByteLen(s) <= 4 * |s|
    ensures ByteLen(s) == |s| <==> forall i | 0 <= i < |s| :: s[i] as int < 0x80
  {
    if s != "" {
      ByteLenIff(s[1..]);
      assert forall i | 0 <= i < |s| - 1 :: s[1..][i] == s[i + 1];
      assert forall i | 0 < i < |s| :: s[i] == s[1..][i - 1];
    }
  }

  /** An upper-case name written in any case, the two odd letters included that
      have an ASCII upper case. */
  predicate AnyCase(c: char, upper: char) {
    || c == upper || ('A' <= upper <= 'Z' && c as int == upper as int + 32)
    || (upper == 'S' && c == '\U{17F}') || (upper == 'I' && c == '\U{131}')
  }

  lemma {:induction false} ToUpperOfAnyCase(s: string, upper: string)
    requires |s| == |upper| && Upper(upper) && forall i | 0 <= i < |s| :: AnyCase(s[i], upper[i])
    ensures ToUpper(s) == upper
  {
    if s != "" {
      assert UpperLetter(upper[0]) && AnyCase(s[0], upper[0]);
      ToUpperOfAnyCase(s[1..], upper[1..]);
      assert upper == [upper[0]] + upper[1..];
    }
  }

  /** The marker in ASCII letters of any case. */
  predicate Spells(line: string, marker: string) {
    |line| == |marker| &&
    forall i | 0 <= i < |line| ::
      line[i] == marker[i] || ('A' <= marker[i] <= 'Z' && line[i] as int == marker[i] as int + 32)
  }

  lemma SameIgnoringCaseIff(line: string, marker: string)
    requires forall c | c in marker :: !('a' <= c <= 'z')
    ensures SameIgnoringCase(line, marker) <==> Spells(line, marker)
  {
    forall i | 0 <= i < |line| && i < |marker|
      ensures UpperAscii(line[i]) == UpperAscii(marker[i]) <==>
              line[i] == marker[i] || ('A' <= marker[i] <= 'Z' && line[i] as int == marker[i] as int + 32)
    {
      assert marker[i] in marker;
    }
  }

  // ── text escaping ────────────────────────────────────────────────────

  function EscapeChar(c: char): string {
    match c
    case '\\' => "\\\\"
    case ';' => "\\;"
    case ',' => "\\,"
    case '\n' => "\\n"
    case '\r' => "\\n"
    case _ => [c]
  }

  function Escape(s: string): string {
    if s == "" then "" else Escape(s[..|s| - 1]) + EscapeChar(s[|s| - 1])
  }

  /** `escape_text`. */
  method EscapeText(raw: string) returns (out: string)
    ensures out == Escape(raw)
  {
    out := "";
    for i := 0 to |raw|
      invariant out == Escape(raw[..i])
    {
      assert raw[..i + 1][..i] == raw[..i];
      match raw[i] {
        case '\\' => out := out + "\\\\";
        case ';' => out := out + "\\;";
        case ',' => out := out + "\\,";
        case '\n' => out := out + "\\n";
        case '\r' => out := out + "\\n";
        case _ => out := out + [raw[i]];
      }
    }
    assert raw[..|raw|] == raw;
  }

  /** Reading TEXT per section 3.3.11 of RFC 5545. */
  function Unescape(s: string): string {
    if s == "" then ""
    else if s[0] == '\\' && |s| > 1 then
      [if s[1] == 'n' || s[1] == 'N' then '\n' else s[1]] + Unescape(s[2..])
    else [s[0]] + Unescape(s[1..])
  }

  function CrToLf(s: string): (r: string)
    ensures |r| == |s| && forall i | 0 <= i < |s| :: r[i] == if s[i] == '\r' then '\n' else s[i]
  {
    seq(|s|, i requires 0 <= i < |s| => if s[i] == '\r' then '\n' else s[i])
  }

  lemma {:induction false} EscapeCons(c: char, t: string)
    ensures Escape([c] + t) == EscapeChar(c) + Escape(t)
  {
    var s := [c] + t;
    if t == "" {
      assert s[..0] == "" && s == [c];
    } else {
      var n := |t| - 1;
      assert s[..|s| - 1] == [c] + t[..n];
      EscapeCons(c, t[..n]);
    }
  }

  lemma UnescapeChar(c: char, t: string)
    ensures Unescape(EscapeChar(c) + t) == [if c == '\r' then '\n' else c] + Unescape(t)
  {
    var x := EscapeChar(c) + t;
    assert x[|EscapeChar(c)|..] == t;
  }

  /** Escaping loses nothing but the difference between CR and LF. */
  lemma {:induction false} UnescapeInvertsEscape(s: string)
    ensures Unescape(Escape(s)) == CrToLf(s)
  {
    if s != "" {
      assert s == [s[0]] + s[1..];
      EscapeCons(s[0], s[1..]);
      UnescapeChar(s[0], Escape(s[1..]));
      UnescapeInvertsEscape(s[1..]);
      assert CrToLf(s) == [if s[0] == '\r' then '\n' else s[0]] + CrToLf(s[1..]);
    }
  }

  lemma EscapedCharStays(c: char)
    ensures '\n' !in EscapeChar(c) && '\r' !in EscapeChar(c)
  {
  }

  /** Escaped text stays on its line. */
  lemma {:induction false} EscapedStaysOnLine(s: string)
    ensures '\n' !in Escape(s) && '\r' !in Escape(s)
  {
    if s != "" {
      EscapedStaysOnLine(s[..|s| - 1]);
      EscapedCharStays(s[|s| - 1]);
    }
  }

  /** A comma or semicolon that no backslash escapes. */
  predicate Separates(s: string) {
    s != "" && if s[0] == '\\' && |s| > 1 then Separates(s[2..]) else s[0] == ';' || s[0] == ',' || Separates(s[1..])
  }

  lemma EscapedCharIsWhole(c: char, t: string)
    requires !Separates(t)
    ensures !Separates(EscapeChar(c) + t)
  {
    var x := EscapeChar(c) + t;
    assert x[|EscapeChar(c)|..] == t;
  }

  /** Escaped text holds no separator. */
  lemma {:induction false} EscapedNeverSeparates(s: string)
    ensures !Separates(Escape(s))
  {
    if s != "" {
      assert s == [s[0]] + s[1..];
      EscapeCons(s[0], s[1..]);
      EscapedNeverSeparates(s[1..]);
      EscapedCharIsWhole(s[0], Escape(s[1..]));
    }
  }

  lemma EscapedStarts(s: string)
    requires s != "" && !IsSpace(s[0])
    ensures Escape(s) != "" && !IsSpace(Escape(s)[0])
  {
    var e := EscapeChar(s[0]);
    assert s == [s[0]] + s[1..];
    EscapeCons(s[0], s[1..]);
    assert e[0] == '\\' || e[0] == s[0];
    assert Escape(s)[0] == e[0];
  }

  lemma EscapedCharEnds(c: char)
    requires !IsSpace(c)
    ensures EscapeChar(c) != "" && !IsSpace(EscapeChar(c)[|EscapeChar(c)| - 1])
  {
  }

  lemma EscapedEnds(s: string)
    requires s != "" && !IsSpace(s[|s| - 1])
    ensures Escape(s) != "" && !IsSpace(Escape(s)[|Escape(s)| - 1])
  {
    var e := EscapeChar(s[|s| - 1]);
    EscapedCharEnds(s[|s| - 1]);
    assert Escape(s)[|Escape(s)| - 1] == e[|e| - 1];
  }

  lemma EscapedIsTrimmed(s: string)
    requires s != "" && Trimmed(s)
    ensures Escape(s) != "" && Trimmed(Escape(s))
  {
    EscapedStarts(s);
    EscapedEnds(s);
  }

}
