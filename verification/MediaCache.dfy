/** Oldest-first eviction of the media cache. */
module MediaCache {
  import opened Base

  const MAX_CACHE_BYTES: nat := 512 * 1024 * 1024
  const MAX_UPSTREAM_BYTES: nat := 10 * 1024 * 1024

  datatype Entry = Entry(path: string, len: nat, modified: nat)

  /** The cache directory; `len` is missing when the metadata cannot be read. */
  datatype Node = Dir(readable: bool, entries: seq<Node>) | File(path: string, len: Option<nat>, modified: nat)

  // ── side files ───────────────────────────────────────────────────────

  /** Where the last `c` is. */
  function LastIndex(s: string, c: char): (r: Option<nat>)
    ensures r.Some? ==> r.value < |s| && s[r.value] == c && c !in s[r.value + 1..]
    ensures r.None? ==> c !in s
  {
    if s == "" then None
    else
      var n := |s| - 1;
      if s[n] == c then Some(n)
      else
        var r := LastIndex(s[..n], c);
        assert r.Some? ==> s[r.value + 1..] == s[..n][r.value + 1..] + [s[n]];
        r
  }

  /** Where the file name starts; a listed path ends in one. */
  function NameAt(path: string): (r: nat)
    ensures r <= |path| && '/' !in path[r..]
  {
    var slash := LastIndex(path, '/');
    if slash.Some? then slash.value + 1 else 0
  }

  /** The dot of the extension: the last of the name, unless it starts it. */
  function DotAt(path: string): (r: Option<nat>)
    ensures r.Some? ==> NameAt(path) < r.value < |path| && path[r.value] == '.' && '.' !in path[r.value + 1..]
  {
    var name := path[NameAt(path)..];
    match LastIndex(name, '.')
    case None => None
    case Some(i) =>
      if i == 0 then None
      else
        assert path[NameAt(path) + i + 1..] == name[i + 1..];
        Some(NameAt(path) + i)
  }

  predicate IsMeta(path: string) { DotAt(path).Some? && path[DotAt(path).value + 1..] == "meta" }

  /** `with_extension("meta")`: the extension is replaced, if there is one. */
  function MetaPath(path: string): string {
    (if DotAt(path).Some? then path[..DotAt(path).value] else path) + ".meta"
  }

  lemma LastIndexAt(s: string, c: char, i: nat)
    requires i < |s| && s[i] == c && c !in s[i + 1..]
    ensures LastIndex(s, c) == Some(i)
  {
    var r := LastIndex(s, c).value;
    assert forall k | r < k < |s| :: s[k] == s[r + 1..][k - r - 1];
    assert forall k | i < k < |s| :: s[k] == s[i + 1..][k - i - 1];
  }

  lemma NameOfSuffixed(p: string, suffix: string)
    requires '/' !in suffix
    ensures NameAt(p + suffix) == NameAt(p)
  {
    var x := p + suffix;
    if '/' in p {
      var i := LastIndex(p, '/').value;
      assert x[i + 1..] == p[i + 1..] + suffix;
      LastIndexAt(x, '/', i);
    }
  }

  lemma NameOfPrefix(path: string, n: nat)
    requires NameAt(path) <= n <= |path|
    ensures NameAt(path[..n]) == NameAt(path)
  {
    NameOfSuffixed(path[..n], path[n..]) by {
      assert forall i | n <= i < |path| :: path[i] == path[NameAt(path)..][i - NameAt(path)];
    }
    assert path[..n] + path[n..] == path;
  }

  lemma DotOfExtended(stem: string, ext: string)
    requires NameAt(stem) < |stem| && '.' !in ext && '/' !in ext
    ensures DotAt(stem + ("." + ext)) == Some(|stem|)
  {
    var x, n := stem + ("." + ext), |stem| - NameAt(stem);
    NameOfSuffixed(stem, "." + ext);
    assert x[NameAt(stem)..] == stem[NameAt(stem)..] + ("." + ext);
    assert x[NameAt(stem)..][n + 1..] == ext;
    LastIndexAt(x[NameAt(stem)..], '.', n);
  }

  /** The side file of a name with an extension: the extension makes way. */
  lemma SideFileOfExtended(stem: string, ext: string)
    requires NameAt(stem) < |stem| && '.' !in ext && '/' !in ext
    ensures MetaPath(stem + ("." + ext)) == stem + ".meta"
    ensures IsMeta(stem + ("." + ext)) <==> ext == "meta"
  {
    var x := stem + ("." + ext);
    DotOfExtended(stem, ext);
    assert x[..|stem|] == stem && x[|stem| + 1..] == ext;
  }

  lemma ExtensionAdded(p: string)
    requires NameAt(p) < |p|
    ensures IsMeta(p + ".meta")
  {
    assert "." + "meta" == ".meta";
    SideFileOfExtended(p, "meta");
  }

  /** A side file is never counted as a cached one. */
  lemma SideFileIsMeta(path: string)
    requires NameAt(path) < |path|
    ensures IsMeta(MetaPath(path))
  {
    if DotAt(path).Some? {
      NameOfPrefix(path, DotAt(path).value);
      ExtensionAdded(path[..DotAt(path).value]);
    } else {
      ExtensionAdded(path);
    }
  }

  /** A name without a dot, such as a hash, has a side file of its own. */
  lemma SideFileOfHash(path: string)
    requires '.' !in path[NameAt(path)..]
    ensures MetaPath(path) == path + ".meta"
  {
  }

  // ── walking the directory ────────────────────────────────────────────

  function Size(n: Node): (r: nat)
    ensures r > 0
  {
    if n.Dir? then 1 + SizeAll(n.entries) else 1
  }

  function SizeAll(ns: seq<Node>): nat { if ns == [] then 0 else SizeAll(ns[..|ns| - 1]) + Size(ns[|ns| - 1]) }

  /** The cached files below a directory that can be read. */
  ghost function Below(n: Node): multiset<Entry>
    decreases Size(n), 0
  {
    if n.Dir? && n.readable then OfAll(n.entries) else multiset{}
  }

  ghost function Of(n: Node): multiset<Entry>
    decreases Size(n), 1
  {
    if n.Dir? then Below(n) else multiset(Counted(n))
  }

  ghost function OfAll(ns: seq<Node>): multiset<Entry>
    decreases SizeAll(ns), 2
  {
    if ns == [] then multiset{} else OfAll(ns[..|ns| - 1]) + Of(ns[|ns| - 1])
  }

  ghost function BelowAll(ns: seq<Node>): multiset<Entry> {
    if ns == [] then multiset{} else BelowAll(ns[..|ns| - 1]) + Below(ns[|ns| - 1])
  }

  function Counted(n: Node): seq<Entry>
    requires n.File?
  {
    if IsMeta(n.path) || n.len.None? then [] else [Entry(n.path, n.len.value, n.modified)]
  }

  function Sum(es: seq<Entry>): nat { if es == [] then 0 else Sum(es[..|es| - 1]) + es[|es| - 1].len }

  lemma OfAllStep(ns: seq<Node>, i: nat)
    requires i < |ns|
    ensures OfAll(ns[..i + 1]) == OfAll(ns[..i]) + Of(ns[i]) && SizeAll(ns[..i + 1]) == SizeAll(ns[..i]) + Size(ns[i])
  {
    assert ns[..i + 1][..i] == ns[..i];
  }

  lemma PushStep(stack: seq<Node>, n: Node)
    ensures BelowAll(stack + [n]) == BelowAll(stack) + Below(n) && SizeAll(stack + [n]) == SizeAll(stack) + Size(n)
  {
    assert (stack + [n])[..|stack|] == stack;
  }

  lemma SumCounted(es: seq<Entry>, n: Node)
    requires n.File?
    ensures Sum(es + Counted(n)) == Sum(es) + if Counted(n) == [] then 0 else n.len.value
  {
    if Counted(n) == [] {
      assert es + [] == es;
    } else {
      assert (es + Counted(n))[..|es|] == es;
    }
  }

  /** Listed so far plus still on the stack. */
  ghost predicate Tally(stack: seq<Node>, entries: seq<Entry>, m: multiset<Entry>) {
    BelowAll(stack) + multiset(entries) == m
  }

  lemma Regroup(a: multiset<Entry>, b: multiset<Entry>, c: multiset<Entry>)
    ensures (a + c) + b == (a + b) + c && a + (b + c) == (a + b) + c
  {
  }

  lemma TallyNode(stack: seq<Node>, entries: seq<Entry>, m: multiset<Entry>, n: Node)
    requires Tally(stack, entries, m)
    ensures n.Dir? ==> Tally(stack + [n], entries, m + Of(n))
    ensures n.File? ==> Tally(stack, entries + Counted(n), m + Of(n))
  {
    PushStep(stack, n);
    Regroup(BelowAll(stack), multiset(entries), Of(n));
  }

  /** One entry of a directory: a subdirectory goes on the stack, a file is listed. */
  method ListNode(node: Node, stack: seq<Node>, entries: seq<Entry>, sum: nat, ghost m: multiset<Entry>)
    returns (stack': seq<Node>, entries': seq<Entry>, total: nat)
    requires sum == Sum(entries) && Tally(stack, entries, m)
    ensures Tally(stack', entries', m + Of(node))
    ensures SizeAll(stack') <= SizeAll(stack) + Size(node) && total == Sum(entries')
  {
    stack', entries', total := stack, entries, sum;
    TallyNode(stack, entries, m, node);
    if node.Dir? {
      PushStep(stack, node);
      stack' := stack + [node];
    } else {
      SumCounted(entries, node);
      if !IsMeta(node.path) && node.len.Some? {
        total := sum + node.len.value;
      }
      entries' := entries + Counted(node);
    }
  }

  /** One directory. */
  method ListDir(nodes: seq<Node>, stack: seq<Node>, entries: seq<Entry>, sum: nat, ghost m: multiset<Entry>)
    returns (stack': seq<Node>, entries': seq<Entry>, total: nat)
    requires sum == Sum(entries) && Tally(stack, entries, m)
    ensures Tally(stack', entries', m + OfAll(nodes))
    ensures SizeAll(stack') <= SizeAll(stack) + SizeAll(nodes) && total == Sum(entries')
  {
    stack', entries', total := stack, entries, sum;
    ghost var bag := m;
    assert bag + multiset{} == bag;
    for i := 0 to |nodes|
      invariant Tally(stack', entries', bag) && bag == m + OfAll(nodes[..i])
      invariant SizeAll(stack') <= SizeAll(stack) + SizeAll(nodes[..i]) && total == Sum(entries')
    {
      OfAllStep(nodes, i);
      Regroup(m, OfAll(nodes[..i]), Of(nodes[i]));
      stack', entries', total := ListNode(nodes[i], stack', entries', total, bag);
      bag := bag + Of(nodes[i]);
    }
    assert nodes[..|nodes|] == nodes;
  }

  lemma PopStep(stack: seq<Node>)
    requires stack != []
    ensures var n := |stack| - 1;
            && BelowAll(stack) == BelowAll(stack[..n]) + Below(stack[n])
            && SizeAll(stack) == SizeAll(stack[..n]) + Size(stack[n])
  {
  }

  lemma TallyPop(stack: seq<Node>, entries: seq<Entry>, m: multiset<Entry>)
    requires stack != [] && Tally(stack, entries, m)
    ensures BelowAll(stack[..|stack| - 1]) + multiset(entries) + Below(stack[|stack| - 1]) == m
  {
    PopStep(stack);
    Regroup(BelowAll(stack[..|stack| - 1]), multiset(entries), Below(stack[|stack| - 1]));
  }

  /** The walk finds every cached file once. */
  method Walk(root: Node) returns (entries: seq<Entry>, total: nat)
    ensures multiset(entries) == Below(root) && total == Sum(entries)
  {
    entries, total := [], 0;
    var stack := [root];
    PushStep([], root);
    assert [] + [root] == [root];
    while stack != []
      invariant Tally(stack, entries, Below(root)) && total == Sum(entries)
      decreases SizeAll(stack)
    {
      var dir := stack[|stack| - 1];
      PopStep(stack);
      TallyPop(stack, entries, Below(root));
      stack := stack[..|stack| - 1];
      if dir.Dir? && dir.readable {
        stack, entries, total := ListDir(dir.entries, stack, entries, total, BelowAll(stack) + multiset(entries));
      }
    }
  }

  // ── sorting by age ───────────────────────────────────────────────────

  ghost predicate OldestFirst(es: seq<Entry>) { forall i, j | 0 <= i < j < |es| :: es[i].modified <= es[j].modified }

  /** Behind everything that is no newer. */
  function Insert(es: seq<Entry>, e: Entry): seq<Entry> {
    if es == [] || es[|es| - 1].modified <= e.modified then es + [e]
    else Insert(es[..|es| - 1], e) + [es[|es| - 1]]
  }

  /** `sort_by_key` on the modification time, which is stable. */
  function ByAge(es: seq<Entry>): seq<Entry> {
    if es == [] then [] else Insert(ByAge(es[..|es| - 1]), es[|es| - 1])
  }

  /** The entries of one age, in order. */
  function Aged(es: seq<Entry>, t: nat): seq<Entry> {
    if es == [] then [] else Aged(es[..|es| - 1], t) + AgedOne(es[|es| - 1], t)
  }

  lemma {:induction false} InsertPermutes(es: seq<Entry>, e: Entry)
    ensures multiset(Insert(es, e)) == multiset(es) + multiset{e} && |Insert(es, e)| == |es| + 1
  {
    if es != [] && es[|es| - 1].modified > e.modified {
      var n := |es| - 1;
      InsertPermutes(es[..n], e);
      assert es == es[..n] + [es[n]];
    }
  }

  lemma {:induction false} InsertSorts(es: seq<Entry>, e: Entry)
    requires OldestFirst(es)
    ensures OldestFirst(Insert(es, e))
  {
    if es != [] && es[|es| - 1].modified > e.modified {
      var n := |es| - 1;
      InsertSorts(es[..n], e);
      InsertPermutes(es[..n], e);
      NoneNewer(es[..n], Insert(es[..n], e), e, es[n].modified);
    }
  }

  lemma NoneNewer(es: seq<Entry>, r: seq<Entry>, e: Entry, t: nat)
    requires multiset(r) == multiset(es) + multiset{e} && e.modified <= t
    requires forall i | 0 <= i < |es| :: es[i].modified <= t
    ensures forall i | 0 <= i < |r| :: r[i].modified <= t
  {
    forall i | 0 <= i < |r|
      ensures r[i].modified <= t
    {
      assert r[i] in multiset(r);
    }
  }

  lemma AgedSnoc(es: seq<Entry>, e: Entry, t: nat)
    ensures Aged(es + [e], t) == Aged(es, t) + AgedOne(e, t)
  {
    assert (es + [e])[..|es|] == es;
  }

  function AgedOne(e: Entry, t: nat): seq<Entry> { if e.modified == t then [e] else [] }

  lemma SwapPieces(a: seq<Entry>, x: seq<Entry>, y: seq<Entry>)
    requires x == [] || y == []
    ensures (a + x) + y == (a + y) + x
  {
  }

  /** The entries of one age as a value. */
  type Ager = (seq<Entry>, nat) -> seq<Entry>

  ghost predicate IsAger(ag: Ager) { forall es, t: nat {:trigger Aged(es, t)} :: ag(es, t) == Aged(es, t) }

  lemma AgedLast(ag: Ager, es: seq<Entry>, t: nat)
    requires IsAger(ag) && es != []
    ensures ag(es, t) == ag(es[..|es| - 1], t) + AgedOne(es[|es| - 1], t)
  {
    assert ag(es, t) == Aged(es, t) && ag(es[..|es| - 1], t) == Aged(es[..|es| - 1], t);
  }

  lemma AgedBehind(ag: Ager, es: seq<Entry>, e: Entry, t: nat)
    requires IsAger(ag)
    ensures ag(es + [e], t) == ag(es, t) + AgedOne(e, t)
  {
    AgedSnoc(es, e, t);
  }

  lemma InsertBefore(es: seq<Entry>, e: Entry)
    requires es != [] && e.modified < es[|es| - 1].modified
    ensures Insert(es, e) == Insert(es[..|es| - 1], e) + [es[|es| - 1]]
  {
  }

  lemma {:induction false} InsertKeepsAges(ag: Ager, es: seq<Entry>, e: Entry, t: nat)
    requires IsAger(ag)
    ensures ag(Insert(es, e), t) == ag(es, t) + AgedOne(e, t)
    decreases |es|
  {
    if es == [] || es[|es| - 1].modified <= e.modified {
      AgedBehind(ag, es, e, t);
    } else {
      var init, last := es[..|es| - 1], es[|es| - 1];
      var ins := Insert(init, e);
      InsertKeepsAges(ag, init, e, t);
      InsertBefore(es, e);
      AgedBehind(ag, ins, last, t);
      AgedLast(ag, es, t);
      SwapPieces(ag(init, t), AgedOne(e, t), AgedOne(last, t));
    }
  }

  lemma InsertIsStable(es: seq<Entry>, e: Entry, t: nat)
    ensures Aged(Insert(es, e), t) == Aged(es, t) + AgedOne(e, t)
  {
    InsertKeepsAges((s: seq<Entry>, u: nat) => Aged(s, u), es, e, t);
  }

  /** Sorting permutes into age order… */
  lemma {:induction false} ByAgeSorts(es: seq<Entry>)
    ensures OldestFirst(ByAge(es)) && multiset(ByAge(es)) == multiset(es) && |ByAge(es)| == |es|
  {
    if es != [] {
      var n := |es| - 1;
      ByAgeSorts(es[..n]);
      InsertSorts(ByAge(es[..n]), es[n]);
      InsertPermutes(ByAge(es[..n]), es[n]);
      BagSnoc(es);
    }
  }

  lemma BagSnoc(es: seq<Entry>)
    requires es != []
    ensures multiset(es) == multiset(es[..|es| - 1]) + multiset{es[|es| - 1]}
  {
    assert es == es[..|es| - 1] + [es[|es| - 1]];
  }

  /** …and leaves entries of one age in the order they were found. */
  lemma {:induction false} ByAgeIsStable(es: seq<Entry>, t: nat)
    ensures Aged(ByAge(es), t) == Aged(es, t)
  {
    if es != [] {
      var n := |es| - 1;
      ByAgeIsStable(es[..n], t);
      InsertIsStable(ByAge(es[..n]), es[n], t);
    }
  }

  lemma {:induction false} SumOfPermutation(a: seq<Entry>, b: seq<Entry>)
    requires multiset(a) == multiset(b)
    ensures Sum(a) == Sum(b)
    decreases |a|
  {
    if a != [] {
      var n, e := |a| - 1, a[|a| - 1];
      assert a == a[..n] + [e];
      assert e in multiset(b);
      var k :| 0 <= k < |b| && b[k] == e;
      var rest := b[..k] + b[k + 1..];
      assert b == b[..k] + ([e] + b[k + 1..]);
      assert multiset(rest) == multiset(b) - multiset{e};
      SumOfPermutation(a[..n], rest);
      SumAppend(b[..k], [e] + b[k + 1..]);
      SumAppend([e], b[k + 1..]);
      SumAppend(b[..k], b[k + 1..]);
      assert Sum([e]) == Sum([e][..0]) + e.len;
    } else {
      assert |multiset(b)| == |b|;
    }
  }

  lemma {:induction false} SumAppend(a: seq<Entry>, b: seq<Entry>)
    ensures Sum(a + b) == Sum(a) + Sum(b)
    decreases |b|
  {
    if b == [] {
      assert a + b == a;
    } else {
      assert (a + b)[..|a + b| - 1] == a + b[..|b| - 1];
      SumAppend(a, b[..|b| - 1]);
    }
  }

  // ── eviction ─────────────────────────────────────────────────────────

  /** How many of the oldest go: as few as bring the rest under the cap. */
  ghost predicate Shortest(es: seq<Entry>, max: nat, k: nat) {
    k <= |es| && Sum(es[k..]) <= max && forall j | 0 <= j < k :: Sum(es[j..]) > max
  }

  lemma SumStep(es: seq<Entry>, i: nat)
    requires i < |es|
    ensures Sum(es[i..]) == es[i].len + Sum(es[i + 1..])
  {
    assert es[i..] == [es[i]] + es[i + 1..];
    SumAppend([es[i]], es[i + 1..]);
    assert Sum([es[i]]) == Sum([es[i]][..0]) + es[i].len;
  }

  /** The files on disk that a removal takes away: the file and its side file. */
  function Paths(es: seq<Entry>): set<string> { PathsBy(es, PathsFor()) }

  function PathsOf(e: Entry): set<string> { {e.path, MetaPath(e.path)} }

  /** The same, with the files of one entry as a value. */
  function PathsBy(es: seq<Entry>, of: Pathing): set<string> {
    if es == [] then {} else PathsBy(es[..|es| - 1], of) + of(es[|es| - 1])
  }

  type Pathing = Entry -> set<string>

  function PathsFor(): Pathing { e => PathsOf(e) }

  ghost predicate IsPathing(of: Pathing) { forall e {:trigger PathsOf(e)} :: of(e) == PathsOf(e) }

  /** Removing one more entry's two files. */
  lemma PathsStep(files: set<string>, es: seq<Entry>, i: nat, stuck: set<string>, of: Pathing)
    requires i < |es|
    ensures files - (PathsBy(es[..i + 1], of) - stuck) ==
            (files - (PathsBy(es[..i], of) - stuck)) - (of(es[i]) - stuck)
  {
    assert es[..i + 1][..i] == es[..i];
  }

  class Cache {
    /** Paths of the files that exist. */
    var files: set<string>

    constructor (files: set<string>)
      ensures this.files == files
    {
      this.files := files;
    }

    /** `remove_file`; a path in `stuck` cannot be removed. */
    method RemoveFile(path: string, stuck: set<string>)
      modifies this
      ensures files == old(files) - ({path} - stuck)
    {
      if path !in stuck {
        files := files - {path};
      }
    }

    method RemoveEntry(e: Entry, stuck: set<string>, ghost of: Pathing)
      requires IsPathing(of)
      modifies this
      ensures files == old(files) - (of(e) - stuck)
    {
      assert of(e) == PathsOf(e);
      RemoveFile(e.path, stuck);
      RemoveFile(MetaPath(e.path), stuck);
    }

    /** `evict_cache_if_needed`. The subtraction never saturates. */
    method EvictCacheIfNeeded(root: Node, max: nat, stuck: set<string>) returns (entries: seq<Entry>, gone: nat)
      modifies this
      ensures multiset(entries) == Below(root)
      ensures Shortest(ByAge(entries), max, gone)
      ensures files == old(files) - (Paths(ByAge(entries)[..gone]) - stuck)
    {
      var total;
      entries, total := Walk(root);
      var sorted := ByAge(entries);
      ByAgeSorts(entries);
      SumOfPermutation(entries, sorted);
      gone := Evict(sorted, total, max, stuck, PathsFor());
    }

    method Evict(sorted: seq<Entry>, sum: nat, max: nat, stuck: set<string>, ghost of: Pathing) returns (gone: nat)
      requires sum == Sum(sorted) && IsPathing(of)
      modifies this
      ensures Shortest(sorted, max, gone) && files == old(files) - (PathsBy(sorted[..gone], of) - stuck)
    {
      gone := 0;
      var total := sum;
      assert sorted[0..] == sorted;
      while gone < |sorted| && total > max
        invariant gone <= |sorted| && total == Sum(sorted[gone..])
        invariant forall j | 0 <= j < gone :: Sum(sorted[j..]) > max
        invariant files == old(files) - (PathsBy(sorted[..gone], of) - stuck)
      {
        SumStep(sorted, gone);
        PathsStep(old(files), sorted, gone, stuck, of);
        RemoveEntry(sorted[gone], stuck, of);
        assert total >= sorted[gone].len;
        total := total - sorted[gone].len;
        gone := gone + 1;
      }
      assert sorted[|sorted|..] == [];
    }
  }

  // ── what eviction means ──────────────────────────────────────────────

  lemma {:induction false} SumOfSuffix(es: seq<Entry>, i: nat, j: nat)
    requires i <= j <= |es|
    ensures Sum(es[j..]) <= Sum(es[i..])
    decreases j - i
  {
    if i < j {
      SumStep(es, i);
      SumOfSuffix(es, i + 1, j);
    }
  }

  /** There is exactly one shortest prefix, and it is empty just under the cap. */
  lemma ShortestIsUnique(es: seq<Entry>, max: nat, k: nat, l: nat)
    requires Shortest(es, max, k) && Shortest(es, max, l)
    ensures k == l && (k == 0 <==> Sum(es) <= max)
  {
    assert es[0..] == es;
  }

  lemma PrefixSplits(es: seq<Entry>, k: nat)
    requires k <= |es|
    ensures Sum(es[..k]) + Sum(es[k..]) == Sum(es)
  {
    assert es == es[..k] + es[k..];
    SumAppend(es[..k], es[k..]);
  }

  lemma SortedSum(entries: seq<Entry>)
    ensures OldestFirst(ByAge(entries)) && Sum(ByAge(entries)) == Sum(entries)
  {
    ByAgeSorts(entries);
    SumOfPermutation(entries, ByAge(entries));
  }

  /** Only the oldest go, and no byte more than needed: what stays fits, keeping
      the newest of the evicted would not, and nothing kept is older than what went. */
  lemma EvictsOldestOnly(entries: seq<Entry>, max: nat, k: nat)
    requires Shortest(ByAge(entries), max, k)
    ensures var es := ByAge(entries);
            && Sum(es[..k]) + Sum(es[k..]) == Sum(entries)
            && Sum(es[k..]) <= max
            && (k > 0 ==> Sum(es[k - 1..]) > max)
            && forall i, j | 0 <= i < k <= j < |es| :: es[i].modified <= es[j].modified
  {
    SortedSum(entries);
    PrefixSplits(ByAge(entries), k);
  }

  /** Cached files have names, their own paths, and no side file is one. */
  ghost predicate Listed(es: seq<Entry>) {
    && (forall i | 0 <= i < |es| :: NameAt(es[i].path) < |es[i].path| && !IsMeta(es[i].path))
    && forall i, j | 0 <= i < j < |es| :: es[i].path != es[j].path
  }

  ghost predicate HashNamed(es: seq<Entry>) {
    forall i | 0 <= i < |es| :: '.' !in es[i].path[NameAt(es[i].path)..]
  }

  lemma {:induction false} PathsAre(es: seq<Entry>, path: string)
    ensures path in Paths(es) <==> exists i :: 0 <= i < |es| && (path == es[i].path || path == MetaPath(es[i].path))
    decreases |es|
  {
    if es != [] {
      PathsAre(es[..|es| - 1], path);
      assert es == es[..|es| - 1] + [es[|es| - 1]];
    }
  }

  lemma SideFilesDiffer(a: string, b: string)
    requires '.' !in a[NameAt(a)..] && '.' !in b[NameAt(b)..] && a != b
    ensures MetaPath(a) != MetaPath(b)
  {
    SideFileOfHash(a);
    SideFileOfHash(b);
    assert (a + ".meta")[..|a|] == a && (b + ".meta")[..|b|] == b;
  }

  /** No file that is kept is removed, as data or as another's side file, and with
      hash names it keeps its side file too. */
  lemma KeptFilesStay(es: seq<Entry>, k: nat, j: nat)
    requires Listed(es) && k <= j < |es|
    ensures es[j].path !in Paths(es[..k])
    ensures HashNamed(es) ==> MetaPath(es[j].path) !in Paths(es[..k])
  {
    PathsAre(es[..k], es[j].path);
    PathsAre(es[..k], MetaPath(es[j].path));
    SideFileIsMeta(es[j].path);
    forall i | 0 <= i < k
      ensures es[j].path != MetaPath(es[i].path)
      ensures HashNamed(es) ==> MetaPath(es[i].path) != MetaPath(es[j].path)
    {
      SideFileIsMeta(es[i].path);
      if HashNamed(es) {
        SideFilesDiffer(es[i].path, es[j].path);
      }
    }
  }

  /** Without hash names two files can share one side file. */
  lemma SideFilesCanBeShared(stem: string, ext: string, other: string)
    requires NameAt(stem) < |stem| && '.' !in ext + other && '/' !in ext + other
    ensures MetaPath(stem + ("." + ext)) == MetaPath(stem + ("." + other))
  {
    SideFileOfExtended(stem, ext);
    SideFileOfExtended(stem, other);
  }

  lemma {:induction false} WalkedAreNotMeta(n: Node)
    ensures forall e | e in Of(n) :: !IsMeta(e.path)
    decreases Size(n), 1
  {
    if n.Dir? && n.readable {
      AllWalkedAreNotMeta(n.entries);
    }
  }

  lemma {:induction false} AllWalkedAreNotMeta(ns: seq<Node>)
    ensures forall e | e in OfAll(ns) :: !IsMeta(e.path)
    decreases SizeAll(ns), 2
  {
    if ns != [] {
      AllWalkedAreNotMeta(ns[..|ns| - 1]);
      WalkedAreNotMeta(ns[|ns| - 1]);
    }
  }

  ghost predicate StrictlyNewest(es: seq<Entry>, e: Entry) {
    e in es && multiset(es)[e] == 1 && forall d | d in es && d != e :: d.modified < e.modified
  }

  lemma LastStays(es: seq<Entry>, max: nat, k: nat)
    requires es != [] && es[|es| - 1].len <= max && multiset(es)[es[|es| - 1]] == 1 && Shortest(es, max, k)
    ensures es[|es| - 1] !in es[..k]
  {
    var n := |es| - 1;
    SumStep(es, n);
    assert es[n + 1..] == [];
    assert k <= n;
    assert es == es[..n] + [es[n]];
    assert multiset(es[..n])[es[n]] == 0;
    assert forall d | d in es[..k] :: d in es[..n];
  }

  /** A strictly newest entry no larger than the cap stays. */
  lemma NewestStays(entries: seq<Entry>, max: nat, k: nat, e: Entry)
    requires Shortest(ByAge(entries), max, k) && StrictlyNewest(entries, e) && e.len <= max
    ensures e !in ByAge(entries)[..k]
  {
    NewestIsLast(entries, ByAge(entries), e);
    LastStays(ByAge(entries), max, k);
  }

  lemma NewestIsLast(entries: seq<Entry>, es: seq<Entry>, e: Entry)
    requires StrictlyNewest(entries, e) && es == ByAge(entries)
    ensures es != [] && es[|es| - 1] == e && multiset(es)[e] == 1
  {
    ByAgeSorts(entries);
    LastOfSorted(entries, es, e);
  }

  lemma LastOfSorted(entries: seq<Entry>, es: seq<Entry>, e: Entry)
    requires StrictlyNewest(entries, e) && multiset(es) == multiset(entries) && OldestFirst(es)
    ensures es != [] && es[|es| - 1] == e && multiset(es)[e] == 1
  {
    assert e in multiset(es);
    var k :| 0 <= k < |es| && es[k] == e;
    assert es[|es| - 1] in multiset(entries);
  }

  /** An upstream image fits the cache, so its own write never evicts it. */
  lemma FreshImageStays(entries: seq<Entry>, k: nat, e: Entry)
    requires Shortest(ByAge(entries), MAX_CACHE_BYTES, k) && StrictlyNewest(entries, e) && e.len <= MAX_UPSTREAM_BYTES
    ensures e !in ByAge(entries)[..k]
  {
    NewestStays(entries, MAX_CACHE_BYTES, k, e);
  }
}
