/** The CardDAV mirror: a token-driven local copy of a server's address book.
    Requests become answers of a `Server`; lost database writes become `Faults`. */
module CardDav {
  import opened Base

  datatype Result<+T> = Ok(value: T) | Err

  datatype Item = Item(href: string, etag: Option<string>, data: Option<string>)

  /** A contact row. A missing etag is stored as the empty string. */
  datatype Contact = Contact(account: string, href: string, book: string, etag: string, data: string)

  datatype Changes = Changes(changed: seq<Item>, removed: seq<string>, token: Option<string>, invalid: bool)

  /** Answers to the requests of one sync. */
  datatype Server = Server(
    collections: Result<seq<string>>,
    report: Option<string> -> Result<Changes>,
    listing: Result<seq<Item>>,
    multiget: seq<string> -> Result<seq<Item>>)

  /** Database calls that fail: upserts and deletes by position, the cursor's
      write, and its read, which then passes for no cursor. */
  datatype Faults = Faults(upserts: set<nat>, tombstones: set<nat>, cursor: bool, read: bool)

  const NO_FAULTS := Faults({}, {}, false, false)
  const READ_FAULT := Faults({}, {}, false, true)

  datatype Plan = Plan(fetch: seq<string>, removed: seq<string>, token: Option<string>)

  datatype Outcome = Outcome(changed: nat, removed: nat, collections: nat)

  datatype Book = Book(rows: seq<Contact>, cursors: map<string, Option<string>>)

  predicate Matches(c: Contact, account: string, href: string) { c.account == account && c.href == href }

  /** The row an upsert finds. */
  function Find(rows: seq<Contact>, account: string, href: string): (r: Option<nat>)
    ensures r.Some? ==> r.value < |rows| && Matches(rows[r.value], account, href)
    ensures r.None? ==> forall i | 0 <= i < |rows| :: !Matches(rows[i], account, href)
  {
    if rows == [] then None
    else if Matches(rows[|rows| - 1], account, href) && Find(rows[..|rows| - 1], account, href).None?
      then Some(|rows| - 1)
    else Find(rows[..|rows| - 1], account, href)
  }

  function NewRow(account: string, book: string, item: Item): Contact
    requires item.data.Some?
  {
    Contact(account, item.href, book, if item.etag.Some? then item.etag.value else "", item.data.value)
  }

  /** `upsert_contact`: nothing without data or with an unchanged etag. */
  function Upsert(rows: seq<Contact>, account: string, book: string, item: Item): seq<Contact> {
    if item.data.None? then rows
    else match Find(rows, account, item.href)
      case None => rows + [NewRow(account, book, item)]
      case Some(i) => if item.etag == Some(rows[i].etag) then rows else rows[i := NewRow(account, book, item)]
  }

  /** `tombstone_contact`: a DELETE by account and href. */
  function Tombstone(rows: seq<Contact>, account: string, href: string): seq<Contact> {
    if rows == [] then []
    else
      var rest := Tombstone(rows[..|rows| - 1], account, href);
      if Matches(rows[|rows| - 1], account, href) then rest else rest + [rows[|rows| - 1]]
  }

  function UpsertAll(rows: seq<Contact>, account: string, book: string, items: seq<Item>,
                     lost: set<nat>): seq<Contact> {
    if items == [] then rows
    else
      var n := |items| - 1;
      var before := UpsertAll(rows, account, book, items[..n], lost);
      if n in lost then before else Upsert(before, account, book, items[n])
  }

  function TombstoneAll(rows: seq<Contact>, account: string, hrefs: seq<string>, lost: set<nat>): seq<Contact> {
    if hrefs == [] then rows
    else
      var n := |hrefs| - 1;
      var before := TombstoneAll(rows, account, hrefs[..n], lost);
      if n in lost then before else Tombstone(before, account, hrefs[n])
  }

  function Hrefs(items: seq<Item>): (r: seq<string>)
    ensures |r| == |items| && forall i | 0 <= i < |items| :: r[i] == items[i].href
  {
    seq(|items|, i requires 0 <= i < |items| => items[i].href)
  }

  /** `delta`: the report, or the full etag listing when it fails or is flagged. */
  function Delta(s: Server, prior: Option<string>): Result<Plan> {
    match s.report(prior)
    case Ok(c) => if !c.invalid then Ok(Plan(Hrefs(c.changed), c.removed, c.token)) else FullListing(s)
    case Err => FullListing(s)
  }

  function FullListing(s: Server): Result<Plan> {
    match s.listing
    case Ok(items) => Ok(Plan(Hrefs(items), [], None))
    case Err => Err
  }

  function Cursor(b: Book, account: string): Option<string> {
    if account in b.cursors then b.cursors[account] else None
  }

  /** `load_cursor`: a failed read is no cursor. */
  function Prior(b: Book, account: string, f: Faults): Option<string> { if f.read then None else Cursor(b, account) }

  /** Upserts that count: those without data succeed before any query. */
  function Counted(items: seq<Item>, lost: set<nat>): (n: nat)
    ensures n <= |items|
  {
    if items == [] then 0
    else Counted(items[..|items| - 1], lost) + if items[|items| - 1].data.None? || |items| - 1 !in lost then 1 else 0
  }

  function Applied(b: Book, account: string, book: string, p: Plan, items: seq<Item>, f: Faults): Book {
    var rows := UpsertAll(b.rows, account, book, items, f.upserts);
    Book(TombstoneAll(rows, account, p.removed, f.tombstones),
         if f.cursor then b.cursors else b.cursors[account := p.token])
  }

  /** The table and the cursors after one sync. */
  function Synced(b: Book, account: string, s: Server, f: Faults): (r: (Book, Result<Outcome>))
    ensures r.1.Err? ==> r.0 == b
  {
    match s.collections
    case Err => (b, Err)
    case Ok(all) =>
      if all == [] then (b, Ok(Outcome(0, 0, 0)))
      else match Delta(s, Prior(b, account, f))
        case Err => (b, Err)
        case Ok(p) =>
          match s.multiget(p.fetch)
          case Err => (b, Err)
          case Ok(items) =>
            (Applied(b, account, all[0], p, items, f), Ok(Outcome(Counted(items, f.upserts), |p.removed|, |all|)))
  }

  /** The contact and cursor tables, updated in place. */
  class Mirror {
    var rows: seq<Contact>
    var cursors: map<string, Option<string>>

    constructor ()
      ensures rows == [] && cursors == map[]
    {
      rows, cursors := [], map[];
    }

    method FindRow(account: string, href: string) returns (r: Option<nat>)
      ensures r == Find(rows, account, href)
    {
      r := None;
      for i := 0 to |rows|
        invariant r == Find(rows[..i], account, href)
      {
        assert rows[..i + 1][..i] == rows[..i];
        if r.None? && Matches(rows[i], account, href) {
          r := Some(i);
        }
      }
      assert rows[..|rows|] == rows;
    }

    method UpsertContact(account: string, book: string, item: Item, lost: bool) returns (ok: bool)
      modifies this`rows
      ensures ok == (item.data.None? || !lost)
      ensures rows == if lost then old(rows) else Upsert(old(rows), account, book, item)
    {
      if item.data.None? || lost {
        return item.data.None?;
      }
      ok := true;
      var found := FindRow(account, item.href);
      match found
      case None => rows := rows + [NewRow(account, book, item)];
      case Some(i) =>
        if item.etag != Some(rows[i].etag) {
          rows := rows[i := NewRow(account, book, item)];
        }
    }

    method TombstoneContact(account: string, href: string, lost: bool)
      modifies this`rows
      ensures rows == if lost then old(rows) else Tombstone(old(rows), account, href)
    {
      if lost {
        return;
      }
      var kept := [];
      for i := 0 to |rows|
        invariant kept == Tombstone(rows[..i], account, href)
      {
        assert rows[..i + 1][..i] == rows[..i];
        if !Matches(rows[i], account, href) {
          kept := kept + [rows[i]];
        }
      }
      assert rows[..|rows|] == rows;
      rows := kept;
    }

    method SaveCursor(account: string, token: Option<string>, lost: bool)
      modifies this`cursors
      ensures cursors == if lost then old(cursors) else old(cursors)[account := token]
    {
      if !lost {
        cursors := cursors[account := token];
      }
    }

    method Store(account: string, book: string, items: seq<Item>, lost: set<nat>) returns (changed: nat)
      modifies this`rows
      ensures rows == UpsertAll(old(rows), account, book, items, lost) && changed == Counted(items, lost)
    {
      changed := 0;
      for i := 0 to |items|
        invariant rows == UpsertAll(old(rows), account, book, items[..i], lost) && changed == Counted(items[..i], lost)
      {
        assert items[..i + 1][..i] == items[..i];
        var ok := UpsertContact(account, book, items[i], i in lost);
        if ok {
          changed := changed + 1;
        }
      }
      assert items[..|items|] == items;
    }

    method Drop(account: string, hrefs: seq<string>, lost: set<nat>) returns (removed: nat)
      modifies this`rows
      ensures rows == TombstoneAll(old(rows), account, hrefs, lost) && removed == |hrefs|
    {
      removed := 0;
      for i := 0 to |hrefs|
        invariant rows == TombstoneAll(old(rows), account, hrefs[..i], lost) && removed == i
      {
        assert hrefs[..i + 1][..i] == hrefs[..i];
        TombstoneContact(account, hrefs[i], i in lost);
        removed := removed + 1;
      }
      assert hrefs[..|hrefs|] == hrefs;
    }

    /** `sync_carddav`: first collection only; any failed request leaves both tables alone. */
    method SyncCarddav(account: string, s: Server, f: Faults) returns (r: Result<Outcome>)
      modifies this
      ensures (Book(rows, cursors), r) == Synced(old(Book(rows, cursors)), account, s, f)
    {
      if s.collections.Err? {
        return Err;
      }
      var all := s.collections.value;
      if all == [] {
        return Ok(Outcome(0, 0, 0));
      }
      var prior := Prior(Book(rows, cursors), account, f);
      var plan := Delta(s, prior);
      if plan.Err? {
        return Err;
      }
      var items := s.multiget(plan.value.fetch);
      if items.Err? {
        return Err;
      }
      var changed := Store(account, all[0], items.value, f.upserts);
      var removed := Drop(account, plan.value.removed, f.tombstones);
      SaveCursor(account, plan.value.token, f.cursor);
      r := Ok(Outcome(changed, removed, |all|));
    }
  }

  // ── what the table says about one account ────────────────────────────

  ghost predicate Unique(rows: seq<Contact>) {
    forall i, j | 0 <= i < j < |rows| :: !(rows[i].account == rows[j].account && rows[i].href == rows[j].href)
  }

  /** The local contacts of an account by href. */
  ghost function DataOf(rows: seq<Contact>, account: string): map<string, string> {
    map c | c in rows && c.account == account :: c.href := DataAt(rows, account, c.href)
  }

  ghost function DataAt(rows: seq<Contact>, account: string, href: string): string {
    var i := Find(rows, account, href);
    if i.Some? then rows[i.value].data else ""
  }

  ghost function RowsOf(rows: seq<Contact>, account: string): set<Contact> {
    set c | c in rows && c.account == account
  }

  /** Strong etags: an href's etag determines its data. */
  type Content = (string, string) -> string

  ghost predicate Truthful(rows: seq<Contact>, account: string, content: Content) {
    forall c | c in rows && c.account == account && c.etag != "" :: c.data == content(c.href, c.etag)
  }

  ghost predicate HonestItem(item: Item, content: Content) {
    && item.data.Some?
    && (item.etag.Some? ==> item.etag.value != "" && item.data.value == content(item.href, item.etag.value))
  }

  lemma UniqueFind(rows: seq<Contact>, account: string, href: string, i: nat)
    requires Unique(rows) && i < |rows| && Matches(rows[i], account, href)
    ensures Find(rows, account, href) == Some(i)
  {
  }

  lemma DataOfMember(rows: seq<Contact>, account: string, href: string)
    ensures href in DataOf(rows, account) <==> Find(rows, account, href).Some?
    ensures href in DataOf(rows, account) ==> DataOf(rows, account)[href] == DataAt(rows, account, href)
  {
  }

  // ── one upsert ───────────────────────────────────────────────────────

  lemma UpsertKeepsUnique(rows: seq<Contact>, account: string, book: string, item: Item)
    requires Unique(rows)
    ensures Unique(Upsert(rows, account, book, item))
  {
  }

  lemma UpsertKeepsTruth(rows: seq<Contact>, account: string, book: string, item: Item, content: Content)
    requires Truthful(rows, account, content) && HonestItem(item, content)
    ensures Truthful(Upsert(rows, account, book, item), account, content)
  {
  }

  lemma UpsertFinds(rows: seq<Contact>, account: string, book: string, item: Item, href: string)
    requires Unique(rows) && item.data.Some?
    ensures var after, i, j := Upsert(rows, account, book, item),
            Find(rows, account, href),
            Find(Upsert(rows, account, book, item), account, href);
            && (href != item.href ==> i == j && (i.Some? ==> rows[i.value] == after[i.value]))
            && (href == item.href ==> j.Some?)
  {
    var after, i := Upsert(rows, account, book, item), Find(rows, account, href);
    UpsertKeepsUnique(rows, account, book, item);
    if i.Some? {
      UniqueFind(after, account, href, i.value);
    } else if href == item.href {
      UniqueFind(after, account, href, |rows|);
    }
  }

  lemma UpsertStores(rows: seq<Contact>, account: string, book: string, item: Item, content: Content)
    requires Unique(rows) && Truthful(rows, account, content) && HonestItem(item, content)
    ensures DataAt(Upsert(rows, account, book, item), account, item.href) == item.data.value
  {
    var after, i := Upsert(rows, account, book, item), Find(rows, account, item.href);
    UpsertKeepsUnique(rows, account, book, item);
    UniqueFind(after, account, item.href, if i.Some? then i.value else |rows|);
  }

  /** One upsert sets exactly its own href. */
  lemma UpsertEffect(rows: seq<Contact>, account: string, book: string, item: Item, content: Content)
    requires Unique(rows) && Truthful(rows, account, content) && HonestItem(item, content)
    ensures DataOf(Upsert(rows, account, book, item), account) == DataOf(rows, account)[item.href := item.data.value]
  {
    var after := Upsert(rows, account, book, item);
    forall h
      ensures h in DataOf(after, account) <==> h in DataOf(rows, account) || h == item.href
      ensures h in DataOf(after, account) ==>
        DataOf(after, account)[h] == if h == item.href then item.data.value else DataOf(rows, account)[h]
    {
      UpsertFinds(rows, account, book, item, h);
      UpsertStores(rows, account, book, item, content);
      DataOfMember(rows, account, h);
      DataOfMember(after, account, h);
    }
  }

  // ── deletes, and what a sync leaves alone ────────────────────────────

  lemma {:induction false} TombstoneKeepsRest(rows: seq<Contact>, account: string, href: string)
    ensures forall c :: c in Tombstone(rows, account, href) <==> c in rows && !Matches(c, account, href)
  {
    if rows != [] {
      TombstoneKeepsRest(rows[..|rows| - 1], account, href);
      assert rows == rows[..|rows| - 1] + [rows[|rows| - 1]];
    }
  }

  lemma {:induction false} TombstoneKeepsUnique(rows: seq<Contact>, account: string, href: string)
    requires Unique(rows)
    ensures Unique(Tombstone(rows, account, href))
  {
    if rows != [] {
      var init, last := rows[..|rows| - 1], rows[|rows| - 1];
      TombstoneKeepsUnique(init, account, href);
      TombstoneKeepsRest(init, account, href);
      forall c | c in Tombstone(init, account, href)
        ensures !(c.account == last.account && c.href == last.href)
      {
        assert c in init;
      }
    }
  }

  lemma TombstoneFinds(rows: seq<Contact>, account: string, href: string, h: string)
    requires Unique(rows)
    ensures var after := Tombstone(rows, account, href);
            && (Find(after, account, h).Some? <==> h != href && Find(rows, account, h).Some?)
            && (Find(after, account, h).Some? ==> DataAt(after, account, h) == DataAt(rows, account, h))
  {
    var after, i := Tombstone(rows, account, href), Find(rows, account, h);
    TombstoneKeepsUnique(rows, account, href);
    TombstoneKeepsRest(rows, account, href);
    if i.Some? && h != href {
      assert rows[i.value] in after;
      SameDataAt(rows, after, rows[i.value]);
    }
  }

  /** One delete drops exactly its own href. */
  lemma TombstoneEffect(rows: seq<Contact>, account: string, href: string)
    requires Unique(rows)
    ensures DataOf(Tombstone(rows, account, href), account) == DataOf(rows, account) - {href}
  {
    var before, after := DataOf(rows, account), DataOf(Tombstone(rows, account, href), account);
    forall h
      ensures (h in after <==> h in before && h != href) && (h in after ==> after[h] == before[h])
    {
      TombstoneDataAt(rows, account, href, h);
    }
    WithoutOne(before, after, href);
  }

  lemma TombstoneDataAt(rows: seq<Contact>, account: string, href: string, h: string)
    requires Unique(rows)
    ensures var before, after := DataOf(rows, account), DataOf(Tombstone(rows, account, href), account);
            (h in after <==> h in before && h != href) && (h in after ==> after[h] == before[h])
  {
    TombstoneFinds(rows, account, href, h);
    DataOfMember(rows, account, h);
    DataOfMember(Tombstone(rows, account, href), account, h);
  }

  lemma WithoutOne(m: map<string, string>, r: map<string, string>, href: string)
    requires forall h :: h in r <==> h in m && h != href
    requires forall h | h in r :: r[h] == m[h]
    ensures r == m - {href}
  {
    assert r.Keys == m.Keys - {href};
  }

  /** A row held by two tables is what both say about its href. */
  lemma SameDataAt(rows: seq<Contact>, other: seq<Contact>, c: Contact)
    requires Unique(rows) && Unique(other) && c in rows && c in other
    ensures DataAt(rows, c.account, c.href) == DataAt(other, c.account, c.href) == c.data
  {
    var i :| 0 <= i < |rows| && rows[i] == c;
    var j :| 0 <= j < |other| && other[j] == c;
    UniqueFind(rows, c.account, c.href, i);
    UniqueFind(other, c.account, c.href, j);
  }

  /** The rows of an account determine its contacts. */
  lemma RowsDetermineData(rows: seq<Contact>, other: seq<Contact>, account: string)
    requires Unique(rows) && Unique(other) && RowsOf(rows, account) == RowsOf(other, account)
    ensures DataOf(rows, account) == DataOf(other, account)
  {
    forall c: Contact | c.account == account
      ensures c in rows <==> c in other
    {
      assert c in RowsOf(rows, account) <==> c in RowsOf(other, account);
    }
    forall c | c in rows && c.account == account
      ensures DataAt(rows, account, c.href) == DataAt(other, account, c.href)
    {
      SameDataAt(rows, other, c);
    }
  }

  lemma UpsertKeepsOthers(rows: seq<Contact>, account: string, book: string, item: Item, other: string)
    requires other != account
    ensures RowsOf(Upsert(rows, account, book, item), other) == RowsOf(rows, other)
  {
    var after := Upsert(rows, account, book, item);
    forall c: Contact | c.account == other
      ensures c in after <==> c in rows
    {
      if c in rows {
        var k :| 0 <= k < |rows| && rows[k] == c;
        assert after[k] == c;
      }
    }
  }

  lemma {:induction false} UpsertAllFrame(rows: seq<Contact>, account: string, book: string, items: seq<Item>,
                                          lost: set<nat>, other: string)
    requires Unique(rows)
    ensures var after := UpsertAll(rows, account, book, items, lost);
            Unique(after) && (other != account ==> RowsOf(after, other) == RowsOf(rows, other))
    decreases |items|
  {
    if items != [] {
      var n := |items| - 1;
      var before := UpsertAll(rows, account, book, items[..n], lost);
      UpsertAllFrame(rows, account, book, items[..n], lost, other);
      UpsertKeepsUnique(before, account, book, items[n]);
      if other != account {
        UpsertKeepsOthers(before, account, book, items[n], other);
      }
    }
  }

  lemma {:induction false} TombstoneAllFrame(rows: seq<Contact>, account: string, hrefs: seq<string>, lost: set<nat>,
                                             other: string)
    requires Unique(rows)
    ensures var after := TombstoneAll(rows, account, hrefs, lost);
            Unique(after) && (other != account ==> RowsOf(after, other) == RowsOf(rows, other))
    decreases |hrefs|
  {
    if hrefs != [] {
      var n := |hrefs| - 1;
      var before := TombstoneAll(rows, account, hrefs[..n], lost);
      TombstoneAllFrame(rows, account, hrefs[..n], lost, other);
      TombstoneKeepsUnique(before, account, hrefs[n]);
      TombstoneKeepsRest(before, account, hrefs[n]);
    }
  }

  /** Whatever the server answers and whichever writes fail: one row per account
      and href, and nothing of another account changes. */
  lemma SyncFrame(b: Book, account: string, s: Server, f: Faults, other: string)
    requires Unique(b.rows)
    ensures var after := Synced(b, account, s, f).0;
            && Unique(after.rows)
            && (other != account ==>
                  RowsOf(after.rows, other) == RowsOf(b.rows, other) && Cursor(after, other) == Cursor(b, other))
  {
    if s.collections.Ok? && s.collections.value != [] && Delta(s, Prior(b, account, f)).Ok? {
      var p := Delta(s, Prior(b, account, f)).value;
      if s.multiget(p.fetch).Ok? {
        var book, items := s.collections.value[0], s.multiget(p.fetch).value;
        UpsertAllFrame(b.rows, account, book, items, f.upserts, other);
        TombstoneAllFrame(UpsertAll(b.rows, account, book, items, f.upserts), account, p.removed, f.tombstones, other);
      }
    }
  }

  // ── whole passes without lost writes ─────────────────────────────────

  function Stored(m: map<string, string>, items: seq<Item>): map<string, string> {
    if items == [] then m
    else
      var before, last := Stored(m, items[..|items| - 1]), items[|items| - 1];
      if last.data.None? then before else before[last.href := last.data.value]
  }

  function Members(hrefs: seq<string>): set<string> { set h | h in hrefs }

  lemma DropOneMore(m: map<string, string>, hrefs: seq<string>)
    requires hrefs != []
    ensures m - Members(hrefs[..|hrefs| - 1]) - {hrefs[|hrefs| - 1]} == m - Members(hrefs)
  {
    assert hrefs == hrefs[..|hrefs| - 1] + [hrefs[|hrefs| - 1]];
    assert Members(hrefs) == Members(hrefs[..|hrefs| - 1]) + {hrefs[|hrefs| - 1]};
  }

  lemma {:induction false} UpsertAllEffect(rows: seq<Contact>, account: string, book: string, items: seq<Item>,
                                           content: Content)
    requires Unique(rows) && Truthful(rows, account, content) && forall it | it in items :: HonestItem(it, content)
    ensures var after := UpsertAll(rows, account, book, items, {});
            && Unique(after) && Truthful(after, account, content)
            && DataOf(after, account) == Stored(DataOf(rows, account), items)
    decreases |items|
  {
    if items != [] {
      var n := |items| - 1;
      var before := UpsertAll(rows, account, book, items[..n], {});
      UpsertAllEffect(rows, account, book, items[..n], content);
      UpsertKeepsUnique(before, account, book, items[n]);
      UpsertKeepsTruth(before, account, book, items[n], content);
      UpsertEffect(before, account, book, items[n], content);
    }
  }

  lemma {:induction false} TombstoneAllEffect(rows: seq<Contact>, account: string, hrefs: seq<string>, content: Content)
    requires Unique(rows) && Truthful(rows, account, content)
    ensures var after := TombstoneAll(rows, account, hrefs, {});
            && Unique(after) && Truthful(after, account, content)
            && DataOf(after, account) == DataOf(rows, account) - Members(hrefs)
    decreases |hrefs|
  {
    if hrefs != [] {
      var n := |hrefs| - 1;
      var before := TombstoneAll(rows, account, hrefs[..n], {});
      TombstoneAllEffect(rows, account, hrefs[..n], content);
      TombstoneKeepsUnique(before, account, hrefs[n]);
      TombstoneKeepsRest(before, account, hrefs[n]);
      TombstoneEffect(before, account, hrefs[n]);
      DropOneMore(DataOf(rows, account), hrefs);
    }
  }

  // ── the server as a history of views ─────────────────────────────────

  datatype Card = Card(etag: string, data: string)

  type View = map<string, Card>

  /** The server's views and the tokens naming them. */
  datatype History = History(views: seq<View>, names: map<string, nat>)

  ghost predicate GoodHistory(hist: History, content: Content) {
    && (forall t | t in hist.names :: hist.names[t] < |hist.views|)
    && (forall v | v in hist.views :: StrongEtags(v, content))
  }

  ghost predicate StrongEtags(v: View, content: Content) {
    forall h | h in v :: v[h].etag != "" && v[h].data == content(h, v[h].etag)
  }

  ghost predicate Known(hist: History, token: Option<string>) {
    token.Some? ==> token.value in hist.names && hist.names[token.value] < |hist.views|
  }

  /** The view a cursor stands for; none yet is the empty one. */
  ghost function ViewAt(hist: History, token: Option<string>): View
    requires Known(hist, token)
  {
    if token.None? then map[] else hist.views[hist.names[token.value]]
  }

  ghost function DataIn(v: View): map<string, string> { map h | h in v :: v[h].data }

  /** A report from `base` to `v` may say too much about what exists, never too little. */
  ghost predicate Reports(c: Changes, base: View, v: View) {
    && (forall h | h in v && !(h in base && base[h] == v[h]) :: h in Hrefs(c.changed))
    && (forall h | h in Hrefs(c.changed) :: h in v)
    && (forall h | h in base && h !in v :: h in c.removed)
    && (forall h | h in c.removed :: h !in v)
  }

  ghost predicate FromView(items: seq<Item>, v: View) {
    forall it | it in items ::
      it.href in v && it.data == Some(v[it.href].data) && it.etag in {None, Some(v[it.href].etag)}
  }

  /** Every requested href is answered, from that view. */
  ghost predicate Answers(items: seq<Item>, fetch: seq<string>, v: View) {
    FromView(items, v) && forall h | h in fetch :: h in Hrefs(items)
  }

  ghost predicate Fetches(s: Server, fetch: seq<string>, v: View) {
    s.multiget(fetch).Ok? && Answers(s.multiget(fetch).value, fetch, v)
  }

  /** A sync driven by the report. */
  ghost predicate ReportSync(hist: History, prior: Option<string>, s: Server) {
    && s.collections.Ok? && s.collections.value != [] && Known(hist, prior)
    && s.report(prior).Ok?
    && var c := s.report(prior).value;
    && !c.invalid && c.token.Some? && Known(hist, c.token)
    && Reports(c, ViewAt(hist, prior), ViewAt(hist, c.token))
    && Fetches(s, Hrefs(c.changed), ViewAt(hist, c.token))
  }

  /** A sync that falls back to the full etag listing of `v`. */
  ghost predicate FallbackSync(prior: Option<string>, s: Server, v: View) {
    && s.collections.Ok? && s.collections.value != []
    && (s.report(prior).Ok? ==> s.report(prior).value.invalid)
    && s.listing.Ok?
    && (forall h :: h in v <==> h in Hrefs(s.listing.value))
    && Fetches(s, Hrefs(s.listing.value), v)
  }

  lemma {:induction false} StoredFromView(m: map<string, string>, items: seq<Item>, v: View)
    requires FromView(items, v)
    ensures Stored(m, items).Keys == m.Keys + Members(Hrefs(items))
    ensures forall h | h in Stored(m, items) :: Stored(m, items)[h] == if h in Hrefs(items) then v[h].data else m[h]
    decreases |items|
  {
    if items != [] {
      var n := |items| - 1;
      StoredFromView(m, items[..n], v);
      assert Hrefs(items) == Hrefs(items[..n]) + [items[n].href];
      assert items[n] in items;
    }
  }

  lemma HonestAnswers(items: seq<Item>, v: View, content: Content)
    requires FromView(items, v) && StrongEtags(v, content)
    ensures forall it | it in items :: HonestItem(it, content)
  {
  }

  /** One pass from a plan: fetched hrefs read as in the view, the removed are
      gone, all others are as they were. */
  lemma PassEffect(b: Book, account: string, book: string, p: Plan, items: seq<Item>, v: View, content: Content)
    requires Unique(b.rows) && Truthful(b.rows, account, content) && StrongEtags(v, content) && FromView(items, v)
    ensures var after := Applied(b, account, book, p, items, NO_FAULTS);
            && after == Applied(b, account, book, p, items, READ_FAULT)
            && Truthful(after.rows, account, content) && Cursor(after, account) == p.token
            && DataOf(after.rows, account) == Stored(DataOf(b.rows, account), items) - Members(p.removed)
  {
    HonestAnswers(items, v, content);
    UpsertAllEffect(b.rows, account, book, items, content);
    TombstoneAllEffect(UpsertAll(b.rows, account, book, items, {}), account, p.removed, content);
  }

  lemma AnsweredHrefs(items: seq<Item>, v: View, h: string)
    requires FromView(items, v) && h in Hrefs(items)
    ensures h in v
  {
    var i :| 0 <= i < |items| && items[i].href == h;
    assert items[i] in items;
  }

  lemma ReportAlgebraAt(m: map<string, string>, items: seq<Item>, c: Changes, base: View, v: View, h: string)
    requires Reports(c, base, v) && Answers(items, Hrefs(c.changed), v)
    ensures var r := Stored(m, items) - Members(c.removed);
            && (h in r <==> h in Hrefs(items) || (h in m && h !in c.removed))
            && (h in r ==> r[h] == if h in Hrefs(items) then v[h].data else m[h])
            && (h in Hrefs(items) ==> h in v)
            && (h in v && h !in Hrefs(items) ==> h in base && base[h] == v[h] && h !in c.removed)
  {
    StoredFromView(m, items, v);
    if h in Hrefs(items) {
      AnsweredHrefs(items, v, h);
    }
  }

  lemma ReportAlgebra(m: map<string, string>, items: seq<Item>, c: Changes, base: View, v: View)
    requires Reports(c, base, v) && Answers(items, Hrefs(c.changed), v)
    ensures var r := Stored(m, items) - Members(c.removed);
            && (m == DataIn(base) ==> r == DataIn(v))
            && (Covers(m, base) ==> Covers(r, v))
  {
    var r := Stored(m, items) - Members(c.removed);
    forall h
      ensures h in v ==> (m == DataIn(base) || Covers(m, base) ==> h in r && r[h] == v[h].data)
      ensures h in r && m == DataIn(base) ==> h in v
    {
      ReportAlgebraAt(m, items, c, base, v, h);
    }
    if m == DataIn(base) {
      assert r.Keys == DataIn(v).Keys;
    }
  }

  lemma ListingAlgebra(m: map<string, string>, items: seq<Item>, fetch: seq<string>, v: View)
    requires Answers(items, fetch, v) && forall h :: h in v <==> h in fetch
    ensures Stored(m, items) - Members([]) == m + DataIn(v)
  {
    var r := Stored(m, items);
    forall h
      ensures (h in r <==> h in m || h in v) && (h in r ==> r[h] == if h in v then v[h].data else m[h])
    {
      StoredFromView(m, items, v);
      if h in Hrefs(items) {
        AnsweredHrefs(items, v, h);
      }
    }
    assert r - Members([]) == r;
    OverlayFrom(m, r, v);
  }

  lemma OverlayFrom(m: map<string, string>, r: map<string, string>, v: View)
    requires forall h :: h in r <==> h in m || h in v
    requires forall h | h in r :: r[h] == if h in v then v[h].data else m[h]
    ensures r == m + DataIn(v)
  {
    assert r.Keys == m.Keys + v.Keys;
  }

  /** Everything in the view is mirrored with its data. */
  ghost predicate Covers(m: map<string, string>, v: View) { forall h | h in v :: h in m && m[h] == v[h].data }

  // ── whole runs ───────────────────────────────────────────────────────

  datatype Event = Sync(account: string, server: Server, faults: Faults)

  function Run(b: Book, events: seq<Event>): Book {
    if events == [] then b
    else var e := events[|events| - 1]; Synced(Run(b, events[..|events| - 1]), e.account, e.server, e.faults).0
  }

  ghost predicate ReportEvent(hist: History, account: string, b: Book, e: Event) {
    e.account == account ==>
      || Synced(b, account, e.server, e.faults).1.Err?
      || (e.faults == NO_FAULTS && ReportSync(hist, Cursor(b, account), e.server))
  }

  /** Failed cursor reads and fallbacks included. */
  ghost predicate AnyEvent(hist: History, account: string, content: Content, b: Book, e: Event) {
    || ReportEvent(hist, account, b, e)
    || (e.faults in {NO_FAULTS, READ_FAULT} && ReportSync(hist, Prior(b, account, e.faults), e.server))
    || (e.faults in {NO_FAULTS, READ_FAULT} &&
        exists v :: StrongEtags(v, content) && FallbackSync(Prior(b, account, e.faults), e.server, v))
  }

  /** Syncs of `account` fail or are report-driven; other accounts do anything. */
  ghost predicate ReportRun(hist: History, account: string, b: Book, events: seq<Event>) {
    forall i | 0 <= i < |events| :: ReportEvent(hist, account, Run(b, events[..i]), events[i])
  }

  ghost predicate MixedRun(hist: History, account: string, content: Content, b: Book, events: seq<Event>) {
    forall i | 0 <= i < |events| :: AnyEvent(hist, account, content, Run(b, events[..i]), events[i])
  }

  ghost predicate Sound(hist: History, account: string, content: Content, b: Book) {
    Unique(b.rows) && Truthful(b.rows, account, content) && Known(hist, Cursor(b, account))
  }

  ghost predicate Exact(hist: History, account: string, b: Book)
    requires Known(hist, Cursor(b, account))
  {
    DataOf(b.rows, account) == DataIn(ViewAt(hist, Cursor(b, account)))
  }

  ghost predicate Covering(hist: History, account: string, b: Book)
    requires Known(hist, Cursor(b, account))
  {
    Covers(DataOf(b.rows, account), ViewAt(hist, Cursor(b, account)))
  }

  lemma OtherAccountStep(hist: History, account: string, content: Content, b: Book, e: Event)
    requires Sound(hist, account, content, b) && e.account != account
    ensures var after := Synced(b, e.account, e.server, e.faults).0;
            && Sound(hist, account, content, after) && Cursor(after, account) == Cursor(b, account)
            && DataOf(after.rows, account) == DataOf(b.rows, account)
  {
    var after := Synced(b, e.account, e.server, e.faults).0;
    SyncFrame(b, e.account, e.server, e.faults, account);
    RowsDetermineData(b.rows, after.rows, account);
    forall c | c in after.rows && c.account == account
      ensures c in b.rows
    {
      assert c in RowsOf(after.rows, account);
    }
  }

  lemma ReportStep(hist: History, account: string, content: Content, b: Book, s: Server, f: Faults)
    requires GoodHistory(hist, content) && Sound(hist, account, content, b)
    requires f in {NO_FAULTS, READ_FAULT} && ReportSync(hist, Prior(b, account, f), s)
    ensures var after := Synced(b, account, s, f).0;
            && Sound(hist, account, content, after)
            && (Exact(hist, account, b) && !f.read ==> Exact(hist, account, after))
            && (Covering(hist, account, b) ==> Covering(hist, account, after))
  {
    var prior := Prior(b, account, f);
    var c := s.report(prior).value;
    var v, items := ViewAt(hist, c.token), s.multiget(Hrefs(c.changed)).value;
    SyncFrame(b, account, s, f, account);
    PassEffect(b, account, s.collections.value[0], Plan(Hrefs(c.changed), c.removed, c.token), items, v, content);
    ReportAlgebra(DataOf(b.rows, account), items, c, ViewAt(hist, prior), v);
  }

  /** The fallback overlays the listed view; only stale rows may be extra. */
  lemma FallbackStep(hist: History, account: string, content: Content, b: Book, s: Server, f: Faults, v: View)
    requires Sound(hist, account, content, b) && StrongEtags(v, content)
    requires f in {NO_FAULTS, READ_FAULT} && FallbackSync(Prior(b, account, f), s, v)
    ensures var after := Synced(b, account, s, f).0;
            && Sound(hist, account, content, after) && Cursor(after, account) == None
            && DataOf(after.rows, account) == DataOf(b.rows, account) + DataIn(v)
  {
    var fetch := Hrefs(s.listing.value);
    var items, m := s.multiget(fetch).value, DataOf(b.rows, account);
    SyncFrame(b, account, s, f, account);
    PassEffect(b, account, s.collections.value[0], Plan(fetch, [], None), items, v, content);
    ListingAlgebra(m, items, fetch, v);
  }

  /** After a fallback the copy is exact just when it held nothing the server has dropped. */
  lemma FallbackIsExactIff(hist: History, account: string, content: Content, b: Book, s: Server, v: View)
    requires Sound(hist, account, content, b) && StrongEtags(v, content)
    requires FallbackSync(Prior(b, account, NO_FAULTS), s, v)
    ensures DataOf(Synced(b, account, s, NO_FAULTS).0.rows, account) == DataIn(v) <==>
            forall h | h in DataOf(b.rows, account) :: h in v
  {
    FallbackStep(hist, account, content, b, s, NO_FAULTS, v);
    OverlayExactIff(DataOf(b.rows, account), DataIn(v));
  }

  lemma OverlayExactIff(m: map<string, string>, d: map<string, string>)
    ensures m + d == d <==> forall h | h in m :: h in d
  {
    if m + d == d {
      forall h | h in m
        ensures h in d
      {
        assert h in m + d;
      }
    }
  }

  /** A dropped contact that stays: the server lists nothing, the row is kept. */
  lemma FallbackKeepsStaleRow()
    ensures var empty := Server(Ok(["book"]), (prior: Option<string>) => Err, Ok([]), (fetch: seq<string>) => Ok([]));
            var b := Book([Contact("a", "h", "book", "e", "d")], map[]);
            Synced(b, "a", empty, NO_FAULTS).0.rows == b.rows
  {
    var rows := [Contact("a", "h", "book", "e", "d")];
    assert UpsertAll(rows, "a", "book", [], {}) == rows && TombstoneAll(rows, "a", [], {}) == rows;
  }

  /** After a failed cursor read the report starts from nothing: the copy is exact
      just when every contact held is still served or named as removed. */
  lemma ReadFaultIsExactIff(hist: History, account: string, content: Content, b: Book, s: Server)
    requires GoodHistory(hist, content) && Sound(hist, account, content, b) && ReportSync(hist, None, s)
    ensures var c := s.report(None).value;
            Exact(hist, account, Synced(b, account, s, READ_FAULT).0) <==>
            forall h | h in DataOf(b.rows, account) :: h in ViewAt(hist, c.token) || h in c.removed
  {
    var c := s.report(None).value;
    var v, items, m := ViewAt(hist, c.token), s.multiget(Hrefs(c.changed)).value, DataOf(b.rows, account);
    PassEffect(b, account, s.collections.value[0], Plan(Hrefs(c.changed), c.removed, c.token), items, v, content);
    FromNothing(m, items, c, v);
  }

  /** Where it is not: the first view held a contact, the second holds none, and a
      full report of the second has nothing to name. */
  const TWO_VIEWS := History([map["h" := Card("e", "d")], map[]], map["t0" := 0, "t1" := 1])
  const HELD_BOOK := Book([Contact("a", "h", "book", "e", "d")], map["a" := Some("t0")])

  function EmptyReports(): Server {
    Server(Ok(["book"]), (prior: Option<string>) => Ok(Changes([], [], Some("t1"), false)),
           Err, (fetch: seq<string>) => Ok([]))
  }

  lemma HeldBookHolds()
    ensures DataOf(HELD_BOOK.rows, "a") == map["h" := "d"]
  {
    assert Find(HELD_BOOK.rows, "a", "h") == Some(0);
    DataOfMember(HELD_BOOK.rows, "a", "h");
  }

  lemma HeldBookIsSound(content: Content)
    requires content("h", "e") == "d"
    ensures GoodHistory(TWO_VIEWS, content) && Sound(TWO_VIEWS, "a", content, HELD_BOOK)
  {
  }

  lemma HeldBookIsExact(content: Content)
    requires content("h", "e") == "d"
    ensures GoodHistory(TWO_VIEWS, content) && Sound(TWO_VIEWS, "a", content, HELD_BOOK)
    ensures Exact(TWO_VIEWS, "a", HELD_BOOK) && "h" in DataOf(HELD_BOOK.rows, "a")
  {
    HeldBookIsSound(content);
    HeldBookHolds();
    assert DataIn(TWO_VIEWS.views[0]) == map["h" := "d"];
  }

  /** A failed cursor read can turn an exact copy into one that keeps a contact the
      server has dropped, under the token that says it is gone. */
  lemma ReadFaultKeepsStaleRow(content: Content)
    requires content("h", "e") == "d"
    ensures var after := Synced(HELD_BOOK, "a", EmptyReports(), READ_FAULT).0;
            && ReportSync(TWO_VIEWS, None, EmptyReports()) && Exact(TWO_VIEWS, "a", HELD_BOOK)
            && Cursor(after, "a") == Some("t1") && !Exact(TWO_VIEWS, "a", after)
  {
    HeldBookIsExact(content);
    assert ReportSync(TWO_VIEWS, None, EmptyReports());
    ReadFaultIsExactIff(TWO_VIEWS, "a", content, HELD_BOOK, EmptyReports());
  }

  lemma FromNothing(m: map<string, string>, items: seq<Item>, c: Changes, v: View)
    requires Reports(c, map[], v) && Answers(items, Hrefs(c.changed), v)
    ensures Stored(m, items) - Members(c.removed) == DataIn(v) <==> forall h | h in m :: h in v || h in c.removed
  {
    var r := Stored(m, items) - Members(c.removed);
    forall h
      ensures h in r <==> h in v || (h in m && h !in c.removed)
      ensures h in v ==> h in r && r[h] == v[h].data
    {
      ReportAlgebraAt(m, items, c, map[], v, h);
    }
    if forall h | h in m :: h in v || h in c.removed {
      assert r.Keys == DataIn(v).Keys;
    } else {
      var h :| h in m && h !in v && h !in c.removed;
      assert h in r && h !in DataIn(v);
    }
  }

  /** From no contacts and no cursor, after any report-driven run the local
      contacts are exactly the view the saved token names, one row per href. */
  lemma {:induction false} ReportRunsConverge(hist: History, account: string, content: Content, b: Book,
                                              events: seq<Event>)
    requires GoodHistory(hist, content) && Unique(b.rows) && RowsOf(b.rows, account) == {} && Cursor(b, account) == None
    requires ReportRun(hist, account, b, events)
    ensures var after := Run(b, events); Sound(hist, account, content, after) && Exact(hist, account, after)
    decreases |events|
  {
    if events == [] {
      NoRowsNoData(b.rows, account);
    } else {
      var n := |events| - 1;
      PrefixOfReportRun(hist, account, b, events);
      ReportRunsConverge(hist, account, content, b, events[..n]);
      var e, now := events[n], Run(b, events[..n]);
      if e.account != account {
        OtherAccountStep(hist, account, content, now, e);
      } else if Synced(now, account, e.server, e.faults).1.Ok? {
        ReportStep(hist, account, content, now, e.server, e.faults);
      }
    }
  }

  lemma PrefixOfReportRun(hist: History, account: string, b: Book, events: seq<Event>)
    requires ReportRun(hist, account, b, events) && events != []
    ensures ReportRun(hist, account, b, events[..|events| - 1])
  {
    forall i | 0 <= i < |events| - 1
      ensures events[..|events| - 1][..i] == events[..i]
    {
    }
  }

  lemma NoRowsNoData(rows: seq<Contact>, account: string)
    requires RowsOf(rows, account) == {}
    ensures DataOf(rows, account) == map[] && forall c | c in rows :: c.account != account
  {
    forall c | c in rows
      ensures c.account != account
    {
      assert c !in RowsOf(rows, account);
    }
  }

  /** Fallbacks included: everything in the view a token names is mirrored with
      its data, whatever stale rows there are beside it. */
  lemma {:induction false} MixedRunsCover(hist: History, account: string, content: Content, b: Book, events: seq<Event>)
    requires GoodHistory(hist, content) && Sound(hist, account, content, b) && Covering(hist, account, b)
    requires MixedRun(hist, account, content, b, events)
    ensures var after := Run(b, events); Sound(hist, account, content, after) && Covering(hist, account, after)
    decreases |events|
  {
    if events != [] {
      var n := |events| - 1;
      PrefixOfMixedRun(hist, account, content, b, events);
      MixedRunsCover(hist, account, content, b, events[..n]);
      var e, now := events[n], Run(b, events[..n]);
      if e.account != account {
        OtherAccountStep(hist, account, content, now, e);
      } else if Synced(now, account, e.server, e.faults).1.Ok? {
        AnyStepCovers(hist, account, content, now, e);
      }
    }
  }

  lemma AnyStepCovers(hist: History, account: string, content: Content, b: Book, e: Event)
    requires GoodHistory(hist, content) && Sound(hist, account, content, b) && Covering(hist, account, b)
    requires e.account == account && AnyEvent(hist, account, content, b, e)
    requires Synced(b, account, e.server, e.faults).1.Ok?
    ensures var after := Synced(b, account, e.server, e.faults).0;
            Sound(hist, account, content, after) && Covering(hist, account, after)
  {
    if e.faults in {NO_FAULTS, READ_FAULT} && ReportSync(hist, Prior(b, account, e.faults), e.server) {
      ReportStep(hist, account, content, b, e.server, e.faults);
    } else {
      var v :| StrongEtags(v, content) && FallbackSync(Prior(b, account, e.faults), e.server, v);
      FallbackStep(hist, account, content, b, e.server, e.faults, v);
    }
  }

  lemma PrefixOfMixedRun(hist: History, account: string, content: Content, b: Book, events: seq<Event>)
    requires MixedRun(hist, account, content, b, events) && events != []
    ensures MixedRun(hist, account, content, b, events[..|events| - 1])
  {
    forall i | 0 <= i < |events| - 1
      ensures events[..|events| - 1][..i] == events[..i]
    {
    }
  }
}
