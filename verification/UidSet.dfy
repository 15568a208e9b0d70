/** UID-set compression, against the sequence-set grammar of section 9 of RFC 3501. */
module UidSet {
  import opened Base
  import opened Text

  newtype u32 = x: int | 0 <= x < 0x1_0000_0000

  datatype Range = Range(first: u32, last: u32)

  // ── writing ──────────────────────────────────────────────────────────

  ghost predicate Ascending(s: seq<u32>) { forall i, j | 0 <= i < j < |s| :: s[i] < s[j] }

  lemma AscendingSnoc(s: seq<u32>, x: u32)
    requires Ascending(s) && forall y | y in s :: y < x
    ensures Ascending(s + [x])
  {
    assert forall i | 0 <= i < |s| :: s[i] in s;
  }

  function Insert(x: u32, s: seq<u32>): (r: seq<u32>)
    requires Ascending(s)
    ensures Ascending(r) && forall y :: y in r <==> y == x || y in s
  {
    if s == [] || s[|s| - 1] < x then s + [x]
    else if s[|s| - 1] == x then s
    else
      var n := |s| - 1;
      assert s == s[..n] + [s[n]];
      var r := Insert(x, s[..n]);
      assert forall y | y in r :: y < s[n];
      AscendingSnoc(r, s[n]);
      r + [s[n]]
  }

  /** `sort_unstable` and `dedup`. */
  function Sorted(uids: seq<u32>): (r: seq<u32>)
    ensures Ascending(r) && (forall y :: y in r <==> y in uids) && (uids != [] ==> r != [])
  {
    if uids == [] then []
    else
      assert uids == uids[..|uids| - 1] + [uids[|uids| - 1]];
      Insert(uids[|uids| - 1], Sorted(uids[..|uids| - 1]))
  }

  /** One more number: it prolongs the last range or opens one. */
  function Extend(rs: seq<Range>, x: u32): (r: seq<Range>)
    ensures r != [] && r[|r| - 1].last == x
  {
    var n := |rs| - 1;
    if rs != [] && x as int == rs[n].last as int + 1 then rs[..n] + [Range(rs[n].first, x)] else rs + [Range(x, x)]
  }

  /** Maximal runs of consecutive numbers. */
  function Ranges(s: seq<u32>): (r: seq<Range>)
    ensures s != [] ==> r != [] && r[|r| - 1].last == s[|s| - 1]
  {
    if s == [] then [] else Extend(Ranges(s[..|s| - 1]), s[|s| - 1])
  }

  function Digit(d: int): char
    requires 0 <= d < 10
  {
    '0' + d as char
  }

  function Decimal(n: nat): string { if n < 10 then [Digit(n)] else Decimal(n / 10) + [Digit(n % 10)] }

  function Print(r: Range): string {
    if r.first == r.last then Decimal(r.first as int) else Decimal(r.first as int) + ":" + Decimal(r.last as int)
  }

  function Printed(rs: seq<Range>): (parts: seq<string>)
    ensures |parts| == |rs| && forall i | 0 <= i < |rs| :: parts[i] == Print(rs[i])
  {
    seq(|rs|, i requires 0 <= i < |rs| => Print(rs[i]))
  }

  function Join(parts: seq<string>): string {
    if parts == [] then "" else if |parts| == 1 then parts[0] else parts[0] + "," + Join(parts[1..])
  }

  function Format(uids: seq<u32>): string { Join(Printed(Ranges(Sorted(uids)))) }

  /** `format_uid_set`. */
  method FormatUidSet(uids: seq<u32>) returns (text: string)
    requires uids != []
    ensures text == Format(uids)
  {
    var sorted := Sorted(uids);
    var parts := Compress(sorted);
    text := Join(parts);
  }

  /** Its loop. `end + 1` is 32-bit arithmetic and never overflows. */
  method Compress(sorted: seq<u32>) returns (parts: seq<string>)
    requires sorted != [] && Ascending(sorted)
    ensures parts == Printed(Ranges(sorted))
  {
    parts := [];
    var start, end := sorted[0], sorted[0];
    assert sorted[..1][..0] == [];
    for i := 1 to |sorted|
      invariant end == sorted[i - 1]
      invariant Open(Ranges(sorted[..i]), parts, start, end)
    {
      RangesSnoc(sorted, i);
      var uid := sorted[i];
      OpenStep(Ranges(sorted[..i]), parts, start, end, uid);
      if uid == end + 1 {
        end := uid;
      } else {
        parts := parts + [Print(Range(start, end))];
        start := uid;
        end := uid;
      }
    }
    assert sorted[..|sorted|] == sorted;
    PrintedSnoc(Ranges(sorted));
    parts := parts + [Print(Range(start, end))];
  }

  lemma RangesSnoc(s: seq<u32>, i: nat)
    requires i < |s|
    ensures Ranges(s[..i + 1]) == Extend(Ranges(s[..i]), s[i])
  {
    assert s[..i + 1][..i] == s[..i];
  }

  lemma PrintedSnoc(rs: seq<Range>)
    requires rs != []
    ensures Printed(rs) == Printed(rs[..|rs| - 1]) + [Print(rs[|rs| - 1])]
  {
  }

  lemma OpenStep(rs: seq<Range>, parts: seq<string>, start: u32, end: u32, uid: u32)
    requires Open(rs, parts, start, end)
    ensures uid as int == end as int + 1 ==> Open(Extend(rs, uid), parts, start, uid)
    ensures uid as int != end as int + 1 ==> Open(Extend(rs, uid), parts + [Print(Range(start, end))], uid, uid)
  {
    assert (rs + [Range(uid, uid)])[..|rs|] == rs;
    PrintedSnoc(rs);
  }

  /** All ranges but the last are printed; the last is still growing. */
  ghost predicate Open(rs: seq<Range>, parts: seq<string>, start: u32, end: u32) {
    rs != [] && parts == Printed(rs[..|rs| - 1]) && rs[|rs| - 1] == Range(start, end)
  }

  // ── the ranges are canonical ─────────────────────────────────────────

  ghost function Between(a: int, b: int): (r: set<int>)
    ensures forall x :: x in r <==> a <= x <= b
    decreases b - a
  {
    if b < a then {} else Between(a, b - 1) + {b}
  }

  ghost function Span(r: Range): set<int> { Between(r.first as int, r.last as int) }

  ghost function Members(rs: seq<Range>): set<int> {
    if rs == [] then {} else Members(rs[..|rs| - 1]) + Span(rs[|rs| - 1])
  }

  ghost function Values(s: seq<u32>): set<int> { set u | u in s :: u as int }

  /** Ascending, disjoint, and no two could be merged. */
  ghost predicate Canonical(rs: seq<Range>) {
    && (forall i | 0 <= i < |rs| :: rs[i].first <= rs[i].last)
    && (forall i, j | 0 <= i < j < |rs| :: rs[i].last as int + 1 < rs[j].first as int)
  }

  lemma ExtendIsCanonical(rs: seq<Range>, x: u32)
    requires Canonical(rs) && (rs != [] ==> rs[|rs| - 1].last < x)
    ensures Canonical(Extend(rs, x))
  {
  }

  lemma ExtendAdds(rs: seq<Range>, x: u32)
    requires Canonical(rs)
    ensures Members(Extend(rs, x)) == Members(rs) + {x as int}
  {
    assert (rs + [Range(x, x)])[..|rs|] == rs;
    if rs != [] && x as int == rs[|rs| - 1].last as int + 1 {
      var last := rs[|rs| - 1];
      assert (rs[..|rs| - 1] + [Range(last.first, x)])[..|rs| - 1] == rs[..|rs| - 1];
      assert Span(Range(last.first, x)) == Span(last) + {x as int};
    } else {
      assert Span(Range(x, x)) == {x as int};
    }
  }

  lemma ValuesSnoc(s: seq<u32>)
    requires s != []
    ensures Values(s) == Values(s[..|s| - 1]) + {s[|s| - 1] as int}
  {
    var init, last := s[..|s| - 1], s[|s| - 1];
    assert s == init + [last];
    assert last in s;
    forall x | x in Values(init)
      ensures x in Values(s)
    {
      var u :| u in init && u as int == x;
      assert u in s;
    }
  }

  lemma {:induction false} RangesAreCanonical(s: seq<u32>)
    requires Ascending(s)
    ensures Canonical(Ranges(s)) && Members(Ranges(s)) == Values(s)
  {
    if s != [] {
      var n := |s| - 1;
      RangesAreCanonical(s[..n]);
      ValuesSnoc(s);
      ExtendIsCanonical(Ranges(s[..n]), s[n]);
      ExtendAdds(Ranges(s[..n]), s[n]);
    }
  }

  // ── reading ──────────────────────────────────────────────────────────

  predicate IsDigit(c: char) { '0' <= c <= '9' }

  function Value(s: string): int {
    if s == "" then 0 else 10 * Value(s[..|s| - 1]) + (s[|s| - 1] as int - '0' as int)
  }

  /** `nz-number / "*"`; `star` is the number `*` stands for. */
  function ReadNumber(s: string, star: int): Option<int> {
    if s == "*" then Some(star)
    else if s != "" && s[0] != '0' && forall c | c in s :: IsDigit(c) then Some(Value(s))
    else None
  }

  /** `seq-number / seq-range`; a range may be written in either order. */
  ghost function ReadPart(s: string, star: int): Option<set<int>> {
    var ends := SplitChar(s, ':');
    if |ends| > 2 then None
    else match (ReadNumber(ends[0], star), ReadNumber(ends[|ends| - 1], star))
      case (Some(a), Some(b)) => Some(Between(if a <= b then a else b, if a <= b then b else a))
      case _ => None
  }

  ghost function ReadParts(parts: seq<string>, star: int): Option<set<int>> {
    if parts == [] then Some({})
    else match (ReadParts(parts[..|parts| - 1], star), ReadPart(parts[|parts| - 1], star))
      case (Some(a), Some(b)) => Some(a + b)
      case _ => None
  }

  /** The numbers a sequence-set stands for, `None` outside the grammar. */
  ghost function ReadSet(text: string, star: int): Option<set<int>> { ReadParts(SplitChar(text, ','), star) }

  // ── reading inverts writing ──────────────────────────────────────────

  lemma {:induction false} DecimalReads(n: nat)
    ensures Decimal(n) != "" && (forall c | c in Decimal(n) :: IsDigit(c)) && Value(Decimal(n)) == n
    ensures Decimal(n)[0] == '0' <==> n == 0
  {
    if n >= 10 {
      DecimalReads(n / 10);
      var s := Decimal(n);
      assert s[..|s| - 1] == Decimal(n / 10) && s[0] == Decimal(n / 10)[0];
    } else {
      assert Decimal(n)[..0] == "";
    }
  }

  lemma NumberReads(n: nat, star: int)
    ensures ReadNumber(Decimal(n), star) == if n == 0 then None else Some(n)
    ensures ':' !in Decimal(n) && ',' !in Decimal(n)
  {
    DecimalReads(n);
    assert !IsDigit('*') && !IsDigit(':') && !IsDigit(',');
    assert Decimal(n)[0] in Decimal(n);
  }

  lemma {:induction false} SplitPlain(s: string, c: char)
    requires c !in s
    ensures SplitChar(s, c) == [s]
  {
    if s != "" {
      SplitPlain(s[1..], c);
      assert s == [s[0]] + s[1..];
    }
  }

  lemma {:induction false} SplitAt(a: string, b: string, c: char)
    requires c !in a
    ensures SplitChar(a + [c] + b, c) == [a] + SplitChar(b, c)
  {
    var x := a + [c] + b;
    if a == "" {
      assert x[1..] == b;
    } else {
      assert x[1..] == a[1..] + [c] + b && x[0] == a[0];
      SplitAt(a[1..], b, c);
      assert a == [a[0]] + a[1..];
    }
  }

  lemma {:induction false} SplitJoined(parts: seq<string>)
    requires parts != [] && forall p | p in parts :: ',' !in p
    ensures SplitChar(Join(parts), ',') == parts
    decreases |parts|
  {
    if |parts| == 1 {
      SplitPlain(parts[0], ',');
    } else {
      SplitJoined(parts[1..]);
      SplitAt(parts[0], Join(parts[1..]), ',');
    }
  }

  lemma PartReads(r: Range, star: int)
    requires r.first <= r.last
    ensures ReadPart(Print(r), star) == if r.first == 0 then None else Some(Span(r))
    ensures ',' !in Print(r)
  {
    var a, b := r.first as int, r.last as int;
    NumberReads(a, star);
    NumberReads(b, star);
    if a == b {
      SplitPlain(Decimal(a), ':');
    } else {
      SplitAt(Decimal(a), Decimal(b), ':');
      SplitPlain(Decimal(b), ':');
      assert Decimal(a) + ":" + Decimal(b) == Decimal(a) + [':'] + Decimal(b);
    }
  }

  lemma {:induction false} PartsRead(rs: seq<Range>, star: int)
    requires Canonical(rs)
    ensures ReadParts(Printed(rs), star) == if 0 in Members(rs) then None else Some(Members(rs))
    ensures forall p | p in Printed(rs) :: ',' !in p
    decreases |rs|
  {
    if rs != [] {
      var n := |rs| - 1;
      PartsRead(rs[..n], star);
      PartReads(rs[n], star);
      PrintedSnoc(rs);
      assert 0 in Span(rs[n]) <==> rs[n].first == 0;
    }
  }

  /** The ranges written are canonical and hold exactly the listed UIDs. */
  lemma FormatIsCanonical(uids: seq<u32>)
    ensures Canonical(Ranges(Sorted(uids))) && Members(Ranges(Sorted(uids))) == Values(uids)
  {
    RangesAreCanonical(Sorted(uids));
    assert Values(Sorted(uids)) == Values(uids);
  }

  lemma ZeroListed(uids: seq<u32>)
    ensures 0 in Values(uids) <==> 0 in uids
  {
  }

  lemma CanonicalReadsBack(rs: seq<Range>, star: int)
    requires rs != [] && Canonical(rs)
    ensures ReadSet(Join(Printed(rs)), star) == if 0 in Members(rs) then None else Some(Members(rs))
  {
    PartsRead(rs, star);
    SplitJoined(Printed(rs));
  }

  /** Reading the text back gives exactly the listed UIDs; the text is in the
      grammar just when 0, which is no UID, is not listed. */
  lemma FormatReadsBack(uids: seq<u32>, star: int)
    requires uids != []
    ensures ReadSet(Format(uids), star) == if 0 in uids then None else Some(Values(uids))
  {
    FormatIsCanonical(uids);
    ZeroListed(uids);
    CanonicalReadsBack(Ranges(Sorted(uids)), star);
  }
}
