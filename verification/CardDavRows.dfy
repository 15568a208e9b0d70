/** The rows of the CardDAV mirror in full: which etag and collection they carry,
    and that syncing the same contacts again leaves them alone. */
module CardDavRows {
  import opened Base
  import opened CardDav

  /** The row of a contact. */
  function RowOf(rows: seq<Contact>, account: string, href: string): Option<Contact> {
    var i := Find(rows, account, href);
    if i.Some? then Some(rows[i.value]) else None
  }

  /** The stored row already has the item's etag. */
  predicate Current(rows: seq<Contact>, account: string, item: Item) {
    var r := RowOf(rows, account, item.href);
    r.Some? && item.etag == Some(r.value.etag)
  }

  /** An upsert of an item with data leaves the table alone if its etag is current,
      and otherwise makes the contact's row carry the collection given, the item's
      etag, or none, and its data; every other contact's row stays. */
  lemma UpsertWrites(rows: seq<Contact>, account: string, book: string, item: Item, other: string)
    requires Unique(rows) && item.data.Some?
    ensures var after := Upsert(rows, account, book, item);
            var row := RowOf(after, account, item.href);
            && row.Some? && (Current(rows, account, item) ==> after == rows)
            && (!Current(rows, account, item) ==>
                  && row.value.account == account && row.value.href == item.href && row.value.book == book
                  && row.value.etag == (if item.etag.Some? then item.etag.value else "")
                  && row.value.data == item.data.value)
            && (other != item.href ==> RowOf(after, account, other) == RowOf(rows, account, other))
  {
    var after, i := Upsert(rows, account, book, item), Find(rows, account, item.href);
    UpsertKeepsUnique(rows, account, book, item);
    UniqueFind(after, account, item.href, if i.Some? then i.value else |rows|);
    UpsertFinds(rows, account, book, item, other);
  }

  lemma TombstoneKeeps(rows: seq<Contact>, account: string, href: string, other: string)
    requires Unique(rows) && other != href
    ensures RowOf(Tombstone(rows, account, href), account, other) == RowOf(rows, account, other)
  {
    var after := Tombstone(rows, account, href);
    TombstoneKeepsUnique(rows, account, href);
    TombstoneKeepsRest(rows, account, href);
    TombstoneFinds(rows, account, href, other);
    var i := Find(rows, account, other);
    if i.Some? {
      assert rows[i.value] in after;
      var k :| 0 <= k < |after| && after[k] == rows[i.value];
      UniqueFind(after, account, other, k);
    }
  }

  // ── a whole pass ─────────────────────────────────────────────────────

  /** Every item for this href was served with its etag. */
  ghost predicate Tagged(items: seq<Item>, href: string) {
    forall it | it in items && it.href == href :: it.etag.Some?
  }

  ghost predicate CarriesEtag(rows: seq<Contact>, account: string, href: string, etag: string) {
    RowOf(rows, account, href).Some? && RowOf(rows, account, href).value.etag == etag
  }

  lemma {:induction false} PassStoresEtag(rows: seq<Contact>, account: string, book: string, items: seq<Item>,
                                          v: View, h: string)
    requires Unique(rows) && FromView(items, v) && h in Hrefs(items) && h in v && Tagged(items, h)
    ensures Unique(UpsertAll(rows, account, book, items, {}))
    ensures CarriesEtag(UpsertAll(rows, account, book, items, {}), account, h, v[h].etag)
    decreases |items|
  {
    var n := |items| - 1;
    var before, last := UpsertAll(rows, account, book, items[..n], {}), items[n];
    assert last in items && forall it | it in items[..n] :: it in items;
    UpsertAllUnique(rows, account, book, items[..n]);
    UpsertKeepsUnique(before, account, book, last);
    UpsertWrites(before, account, book, last, h);
    if h != last.href {
      assert Hrefs(items) == Hrefs(items[..n]) + [last.href];
      PassStoresEtag(rows, account, book, items[..n], v, h);
    }
  }

  lemma {:induction false} UpsertAllUnique(rows: seq<Contact>, account: string, book: string, items: seq<Item>)
    requires Unique(rows)
    ensures Unique(UpsertAll(rows, account, book, items, {}))
    decreases |items|
  {
    if items != [] {
      var n := |items| - 1;
      UpsertAllUnique(rows, account, book, items[..n]);
      UpsertKeepsUnique(UpsertAll(rows, account, book, items[..n], {}), account, book, items[n]);
    }
  }

  lemma {:induction false} TombstonesKeep(rows: seq<Contact>, account: string, hrefs: seq<string>, h: string)
    requires Unique(rows) && h !in hrefs
    ensures Unique(TombstoneAll(rows, account, hrefs, {}))
    ensures RowOf(TombstoneAll(rows, account, hrefs, {}), account, h) == RowOf(rows, account, h)
    decreases |hrefs|
  {
    if hrefs != [] {
      var n := |hrefs| - 1;
      TombstonesKeep(rows, account, hrefs[..n], h);
      var before := TombstoneAll(rows, account, hrefs[..n], {});
      TombstoneKeepsUnique(before, account, hrefs[n]);
      TombstoneKeeps(before, account, hrefs[n], h);
    }
  }

  lemma {:induction false} PassKeepsOthers(rows: seq<Contact>, account: string, book: string, items: seq<Item>,
                                           h: string)
    requires Unique(rows) && h !in Hrefs(items)
    ensures RowOf(UpsertAll(rows, account, book, items, {}), account, h) == RowOf(rows, account, h)
    decreases |items|
  {
    if items != [] {
      var n := |items| - 1;
      assert Hrefs(items) == Hrefs(items[..n]) + [items[n].href];
      UpsertAllUnique(rows, account, book, items[..n]);
      PassKeepsOthers(rows, account, book, items[..n], h);
      if items[n].data.Some? {
        UpsertWrites(UpsertAll(rows, account, book, items[..n], {}), account, book, items[n], h);
      }
    }
  }

  lemma {:induction false} PassFilesNew(rows: seq<Contact>, account: string, book: string, items: seq<Item>,
                                        v: View, h: string)
    requires Unique(rows) && FromView(items, v) && h in Hrefs(items) && RowOf(rows, account, h).None?
    ensures var row := RowOf(UpsertAll(rows, account, book, items, {}), account, h);
            row.Some? && row.value.book == book
    decreases |items|
  {
    var n := |items| - 1;
    var before := UpsertAll(rows, account, book, items[..n], {});
    assert items[n] in items && forall it | it in items[..n] :: it in items;
    assert Hrefs(items) == Hrefs(items[..n]) + [items[n].href];
    UpsertAllUnique(rows, account, book, items[..n]);
    UpsertWrites(before, account, book, items[n], h);
    if h in Hrefs(items[..n]) {
      PassFilesNew(rows, account, book, items[..n], v, h);
    } else {
      PassKeepsOthers(rows, account, book, items[..n], h);
    }
  }

  /** A contact not held before is filed under the first collection. */
  lemma SyncFilesNewContacts(hist: History, account: string, b: Book, s: Server, h: string)
    requires Unique(b.rows) && ReportSync(hist, Prior(b, account, NO_FAULTS), s) && RowOf(b.rows, account, h).None?
    ensures var c := s.report(Prior(b, account, NO_FAULTS)).value;
            var row := RowOf(Synced(b, account, s, NO_FAULTS).0.rows, account, h);
            h in Hrefs(c.changed) ==> row.Some? && row.value.book == s.collections.value[0]
  {
    var c := s.report(Prior(b, account, NO_FAULTS)).value;
    var items, v, book := s.multiget(Hrefs(c.changed)).value, ViewAt(hist, c.token), s.collections.value[0];
    if h in Hrefs(c.changed) {
      UpsertAllUnique(b.rows, account, book, items);
      PassFilesNew(b.rows, account, book, items, v, h);
      TombstonesKeep(UpsertAll(b.rows, account, book, items, {}), account, c.removed, h);
    }
  }

  /** After a report-driven sync every contact fetched with its etag carries the
      etag of the view the saved token names. */
  lemma SyncStoresEtags(hist: History, account: string, b: Book, s: Server, h: string)
    requires Unique(b.rows) && ReportSync(hist, Prior(b, account, NO_FAULTS), s)
    ensures var c := s.report(Prior(b, account, NO_FAULTS)).value;
            var items, v := s.multiget(Hrefs(c.changed)).value, ViewAt(hist, c.token);
            h in Hrefs(items) && Tagged(items, h) ==>
            h in v && CarriesEtag(Synced(b, account, s, NO_FAULTS).0.rows, account, h, v[h].etag)
  {
    var c := s.report(Prior(b, account, NO_FAULTS)).value;
    var items, v, book := s.multiget(Hrefs(c.changed)).value, ViewAt(hist, c.token), s.collections.value[0];
    if h in Hrefs(items) && Tagged(items, h) {
      AnsweredHrefs(items, v, h);
      PassStoresEtag(b.rows, account, book, items, v, h);
      TombstonesKeep(UpsertAll(b.rows, account, book, items, {}), account, c.removed, h);
    }
  }

  // ── the same again ───────────────────────────────────────────────────

  lemma {:induction false} CurrentItemsChangeNothing(rows: seq<Contact>, account: string, book: string,
                                                     items: seq<Item>, lost: set<nat>)
    requires forall it | it in items :: it.data.None? || Current(rows, account, it)
    ensures UpsertAll(rows, account, book, items, lost) == rows
    decreases |items|
  {
    if items != [] {
      var n := |items| - 1;
      CurrentItemsChangeNothing(rows, account, book, items[..n], lost);
      assert items[n] in items;
    }
  }

  lemma {:induction false} NothingToDrop(rows: seq<Contact>, account: string, href: string)
    requires RowOf(rows, account, href).None?
    ensures Tombstone(rows, account, href) == rows
    decreases |rows|
  {
    if rows != [] {
      var n := |rows| - 1;
      assert !Matches(rows[n], account, href);
      assert Find(rows[..n], account, href).None?;
      NothingToDrop(rows[..n], account, href);
      assert rows == rows[..n] + [rows[n]];
    }
  }

  lemma {:induction false} NothingToDropAll(rows: seq<Contact>, account: string, hrefs: seq<string>, lost: set<nat>)
    requires forall h | h in hrefs :: RowOf(rows, account, h).None?
    ensures TombstoneAll(rows, account, hrefs, lost) == rows
    decreases |hrefs|
  {
    if hrefs != [] {
      var n := |hrefs| - 1;
      NothingToDropAll(rows, account, hrefs[..n], lost);
      NothingToDrop(rows, account, hrefs[n]);
    }
  }

  lemma {:induction false} DroppedAreGone(rows: seq<Contact>, account: string, hrefs: seq<string>, h: string)
    requires Unique(rows) && h in hrefs
    ensures RowOf(TombstoneAll(rows, account, hrefs, {}), account, h).None?
    decreases |hrefs|
  {
    var n := |hrefs| - 1;
    var before := TombstoneAll(rows, account, hrefs[..n], {});
    TombstoneAllUnique(rows, account, hrefs[..n]);
    if h != hrefs[n] {
      DroppedAreGone(rows, account, hrefs[..n], h);
      TombstoneKeeps(before, account, hrefs[n], h);
    } else {
      TombstoneFinds(before, account, h, h);
    }
  }

  lemma {:induction false} TombstoneAllUnique(rows: seq<Contact>, account: string, hrefs: seq<string>)
    requires Unique(rows)
    ensures Unique(TombstoneAll(rows, account, hrefs, {}))
    decreases |hrefs|
  {
    if hrefs != [] {
      var n := |hrefs| - 1;
      TombstoneAllUnique(rows, account, hrefs[..n]);
      TombstoneKeepsUnique(TombstoneAll(rows, account, hrefs[..n], {}), account, hrefs[n]);
    }
  }

  /** A sync that only names contacts stored with their etags, and removes none that
      is held, leaves the rows as they are, whichever writes fail. */
  lemma NothingNewChangesNothing(b: Book, account: string, s: Server, f: Faults)
    requires var plan := Delta(s, Prior(b, account, f));
             plan.Ok? && s.multiget(plan.value.fetch).Ok? ==>
             && (forall it | it in s.multiget(plan.value.fetch).value :: it.data.None? || Current(b.rows, account, it))
             && (forall h | h in plan.value.removed :: RowOf(b.rows, account, h).None?)
    ensures Synced(b, account, s, f).0.rows == b.rows
  {
    var plan := Delta(s, Prior(b, account, f));
    if s.collections.Ok? && s.collections.value != [] && plan.Ok? && s.multiget(plan.value.fetch).Ok? {
      var items, book := s.multiget(plan.value.fetch).value, s.collections.value[0];
      CurrentItemsChangeNothing(b.rows, account, book, items, f.upserts);
      NothingToDropAll(b.rows, account, plan.value.removed, f.tombstones);
    }
  }

  /** Repeating a report-driven sync whose items carry their etags changes no row:
      the next one may name again whatever this one fetched and removed. */
  lemma RepeatedSyncKeepsRows(hist: History, account: string, b: Book, s: Server, s': Server, f: Faults)
    requires Unique(b.rows) && ReportSync(hist, Prior(b, account, NO_FAULTS), s)
    requires var c := s.report(Prior(b, account, NO_FAULTS)).value;
             var items, after := s.multiget(Hrefs(c.changed)).value, Synced(b, account, s, NO_FAULTS).0;
             var plan := Delta(s', Prior(after, account, f));
             && (forall it | it in items :: it.etag.Some?)
             && (plan.Ok? && s'.multiget(plan.value.fetch).Ok? ==>
                   && (forall it | it in s'.multiget(plan.value.fetch).value :: it in items)
                   && (forall h | h in plan.value.removed :: h in c.removed))
    ensures var after := Synced(b, account, s, NO_FAULTS).0; Synced(after, account, s', f).0.rows == after.rows
  {
    var c := s.report(Prior(b, account, NO_FAULTS)).value;
    var items, v := s.multiget(Hrefs(c.changed)).value, ViewAt(hist, c.token);
    var after := Synced(b, account, s, NO_FAULTS).0;
    forall it | it in items
      ensures Current(after.rows, account, it)
    {
      var i :| 0 <= i < |items| && items[i] == it;
      assert Hrefs(items)[i] == it.href;
      SyncStoresEtags(hist, account, b, s, it.href);
    }
    UpsertAllUnique(b.rows, account, s.collections.value[0], items);
    forall h | h in c.removed
      ensures RowOf(after.rows, account, h).None?
    {
      DroppedAreGone(UpsertAll(b.rows, account, s.collections.value[0], items, {}), account, c.removed, h);
    }
    NothingNewChangesNothing(after, account, s', f);
  }

  // ── what a sync reports ──────────────────────────────────────────────

  /** The report can be used: it came, and its token was not refused. */
  predicate Reported(s: Server, prior: Option<string>) { s.report(prior).Ok? && !s.report(prior).value.invalid }

  /** What is asked for: what the report changed, else everything listed. */
  function Wanted(s: Server, prior: Option<string>): seq<string> {
    if Reported(s, prior) then Hrefs(s.report(prior).value.changed)
    else if s.listing.Ok? then Hrefs(s.listing.value) else []
  }

  /** Items whose write failed. */
  function Failing(items: seq<Item>, lost: set<nat>): set<nat> {
    set i | i in lost && i < |items| && items[i].data.Some?
  }

  lemma FailingStep(items: seq<Item>, lost: set<nat>, n: nat)
    requires |items| == n + 1
    ensures n !in Failing(items[..n], lost)
    ensures Failing(items, lost) ==
            Failing(items[..n], lost) + if n in lost && items[n].data.Some? then {n} else {}
  {
  }

  lemma {:induction false} CountedAll(items: seq<Item>, lost: set<nat>)
    ensures Counted(items, lost) + |Failing(items, lost)| == |items|
    decreases |items|
  {
    if items == [] {
      assert Failing(items, lost) == {};
    } else {
      var n := |items| - 1;
      CountedAll(items[..n], lost);
      FailingStep(items, lost, n);
      CountedOneMore(items, lost, n, Failing(items[..n], lost));
    }
  }

  lemma CountedOneMore(items: seq<Item>, lost: set<nat>, n: nat, before: set<nat>)
    requires |items| == n + 1 && n !in before && Counted(items[..n], lost) + |before| == n
    ensures Counted(items, lost) + |before + if n in lost && items[n].data.Some? then {n} else {}| == n + 1
  {
    if !(n in lost && items[n].data.Some?) {
      assert before + {} == before;
    }
  }

  /** When a sync fails: no collections answer, or with a collection no plan to be had
      from the report or the listing, or no answer to the fetch. */
  lemma SyncFailsIff(b: Book, account: string, s: Server, f: Faults)
    ensures var prior := Prior(b, account, f);
            Synced(b, account, s, f).1.Err? <==>
            || s.collections.Err?
            || (s.collections.value != [] &&
                ((!Reported(s, prior) && s.listing.Err?) || s.multiget(Wanted(s, prior)).Err?))
  {
  }

  /** What a sync that succeeds says and saves: nothing without a collection, else all
      items but those whose write failed, the reported removals, and the token. */
  lemma SyncCounts(b: Book, account: string, s: Server, f: Faults)
    requires Synced(b, account, s, f).1.Ok?
    ensures var prior, after, o := Prior(b, account, f), Synced(b, account, s, f).0, Synced(b, account, s, f).1.value;
            && o.collections == |s.collections.value|
            && (s.collections.value == [] ==> after == b && o.changed == 0 && o.removed == 0)
            && (s.collections.value != [] ==>
                  && s.multiget(Wanted(s, prior)).Ok?
                  && var items := s.multiget(Wanted(s, prior)).value;
                  && o.changed + |Failing(items, f.upserts)| == |items|
                  && o.removed == (if Reported(s, prior) then |s.report(prior).value.removed| else 0)
                  && after.cursors == (if f.cursor then b.cursors
                                       else b.cursors[account := if Reported(s, prior) then s.report(prior).value.token
                                                                 else None]))
  {
    var prior := Prior(b, account, f);
    if s.collections.value != [] {
      CountedAll(s.multiget(Wanted(s, prior)).value, f.upserts);
    }
  }
}
