/** Shared value types. */
module Base {
  datatype Option<+T> = None | Some(value: T)

  function Mapped<T, U>(s: seq<T>, f: T -> U): (r: seq<U>)
    ensures |r| == |s| && forall i | 0 <= i < |s| :: r[i] == f(s[i])
  {
    seq(|s|, i requires 0 <= i < |s| => f(s[i]))
  }

  lemma MappedStep<T, U>(s: seq<T>, f: T -> U)
    requires s != []
    ensures Mapped(s, f) == [f(s[0])] + Mapped(s[1..], f)
  {
  }

  lemma AppendThrice<T>(a: seq<T>, b: seq<T>, c: seq<T>)
    ensures (a + b) + c == a + (b + c)
  {
  }
}

/** The string operations the readers and writers are made of. */
module Text {
  import opened Base

  /** Unicode White_Space, the class `trim` and `split_whitespace` use. */
  predicate IsSpace(c: char) {
    var n := c as int;
    || 0x9 <= n <= 0xD || n == 0x20 || n == 0x85 || n == 0xA0 || n == 0x1680 || 0x2000 <= n <= 0x200A
    || n == 0x2028 || n == 0x2029 || n == 0x202F || n == 0x205F || n == 0x3000
  }

  /** `str::find` of one character. */
  function IndexOf(s: string, c: char): (r: Option<nat>)
    ensures r.Some? ==> r.value < |s| && s[r.value] == c && c !in s[..r.value]
    ensures r.None? ==> c !in s
  {
    if s == "" then None
    else if s[0] == c then Some(0)
    else match IndexOf(s[1..], c)
      case None => None
      case Some(i) =>
        assert s[..i + 1] == [s[0]] + s[1..][..i];
        Some(i + 1)
  }

  /** `str::find` of a substring. */
  function IndexOfSub(s: string, pat: string): (r: Option<nat>)
    ensures r.Some? ==> r.value + |pat| <= |s| && s[r.value..r.value + |pat|] == pat
  {
    if pat <= s then Some(0)
    else if s == "" then None
    else match IndexOfSub(s[1..], pat)
      case None => None
      case Some(i) =>
        assert s[i + 1..i + 1 + |pat|] == s[1..][i..i + |pat|];
        Some(i + 1)
  }

  /** `str::split` at one character. */
  function SplitChar(s: string, c: char): (r: seq<string>)
    ensures r != []
  {
    if s == "" then [""]
    else
      var rest := SplitChar(s[1..], c);
      if s[0] == c then [""] + rest else [[s[0]] + rest[0]] + rest[1..]
  }

  predicate Contains(s: string, pat: string) { IndexOfSub(s, pat).Some? }

  function TrimStart(s: string): (r: string)
    ensures r == "" || !IsSpace(r[0])
    ensures |r| <= |s|
  {
    if s != "" && IsSpace(s[0]) then TrimStart(s[1..]) else s
  }

  function TrimEnd(s: string): (r: string)
    ensures r == "" || !IsSpace(r[|r| - 1])
    ensures r <= s
  {
    if s != "" && IsSpace(s[|s| - 1]) then TrimEnd(s[..|s| - 1]) else s
  }

  function Trim(s: string): string { TrimEnd(TrimStart(s)) }

  predicate Trimmed(s: string) { s == "" || (!IsSpace(s[0]) && !IsSpace(s[|s| - 1])) }

  lemma TrimIsTrimmed(s: string)
    ensures Trimmed(Trim(s))
  {
  }

  lemma TrimmedIsFixed(s: string)
    requires Trimmed(s)
    ensures Trim(s) == s
  {
  }

  lemma {:induction false} IndexOfSkips(p: string, s: string, c: char)
    requires c !in p
    ensures IndexOf(p + s, c) == (match IndexOf(s, c) case None => None case Some(i) => Some(|p| + i))
  {
    if p == "" {
      assert p + s == s;
    } else {
      assert (p + s)[1..] == p[1..] + s;
      IndexOfSkips(p[1..], s, c);
    }
  }

  /** A pattern is found wherever it occurs, no later than a known occurrence. */
  lemma {:induction false} ContainsAt(s: string, pat: string, i: nat)
    requires i + |pat| <= |s| && s[i..i + |pat|] == pat
    ensures Contains(s, pat)
  {
    if !(pat <= s) {
      assert i != 0 by {
        assert s[0..|pat|] == s[..|pat|];
      }
      assert s[1..][i - 1..i - 1 + |pat|] == s[i..i + |pat|];
      ContainsAt(s[1..], pat, i - 1);
    }
  }

  /** Searching finds a pattern exactly when the text is something around it. */
  lemma ContainsIff(s: string, pat: string)
    ensures Contains(s, pat) <==> exists a, b :: s == a + (pat + b)
  {
    if Contains(s, pat) {
      var i := IndexOfSub(s, pat).value;
      assert s == s[..i] + (pat + s[i + |pat|..]);
    }
    if exists a, b :: s == a + (pat + b) {
      var a, b :| s == a + (pat + b);
      assert s[|a|..|a| + |pat|] == pat;
      ContainsAt(s, pat, |a|);
    }
  }

  /** A string lacking one of the pattern's characters lacks the pattern. */
  lemma LacksCharLacksPattern(s: string, pat: string, c: char)
    requires c in pat && c !in s
    ensures !Contains(s, pat)
  {
  }
}
