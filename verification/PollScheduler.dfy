/** The poll scheduler: per-account backoff and the periodic tick that enqueues
    sync jobs. */
module PollScheduler {
  import opened Base
  import opened JobTable
  import WorkerPool

  const MAX_BACKOFF_SECS: nat := 3600
  const DURATION_MAX_SECS: nat := 0xFFFF_FFFF_FFFF_FFFF

  function Min(a: nat, b: nat): nat { if a <= b then a else b }

  // ── backoff ──────────────────────────────────────────────────────────

  datatype BackoffState = BackoffState(
    delays: map<Account, nat>,
    nextDue: map<Account, int>,
    applied: map<Account, JobId>,
    base: nat)

  function WithBase(secs: nat): BackoffState { BackoffState(map[], map[], map[], if secs < 1 then 1 else secs) }

  function DelayOf(b: BackoffState, a: Account): nat { if a in b.delays then b.delays[a] else b.base }

  /** `saturating_mul(2).min(max)`. */
  function AfterFail(b: BackoffState, a: Account): BackoffState {
    b.(delays := b.delays[a := Min(Min(2 * DelayOf(b, a), DURATION_MAX_SECS), MAX_BACKOFF_SECS)])
  }

  function AfterOk(b: BackoffState, a: Account): BackoffState { b.(delays := b.delays - {a}) }

  /** A terminal outcome counts once per remembered job id. */
  function Observe(b: BackoffState, a: Account, job: JobId, status: Status, now: int): BackoffState {
    if a in b.applied && b.applied[a] == job then b
    else
      var b' := b.(applied := b.applied[a := job]);
      if status == Failed then
        var f := AfterFail(b', a);
        f.(nextDue := f.nextDue[a := now + DelayOf(f, a)])
      else if status == Completed then AfterOk(b', a)
      else b'
  }

  predicate DueNow(b: BackoffState, a: Account, now: int) { a !in b.nextDue || b.nextDue[a] <= now }

  function Marked(b: BackoffState, a: Account, now: int): BackoffState {
    b.(nextDue := b.nextDue[a := now + DelayOf(b, a)])
  }

  class Backoff {
    var delays: map<Account, nat>
    var nextDue: map<Account, int>
    var applied: map<Account, JobId>
    const base: nat

    function State(): BackoffState
      reads this
    {
      BackoffState(delays, nextDue, applied, base)
    }

    constructor (secs: nat)
      ensures State() == WithBase(secs)
    {
      delays, nextDue, applied := map[], map[], map[];
      base := if secs < 1 then 1 else secs;
    }

    method ObserveOutcome(a: Account, job: JobId, status: Status, now: int)
      modifies this
      ensures State() == Observe(old(State()), a, job, status, now)
      ensures forall other | other != a :: DelayOf(State(), other) == DelayOf(old(State()), other)
    {
      if a in applied && applied[a] == job {
        return;
      }
      applied := applied[a := job];
      if status == Failed {
        delays := delays[a := Min(Min(2 * DelayOf(State(), a), DURATION_MAX_SECS), MAX_BACKOFF_SECS)];
        nextDue := nextDue[a := now + DelayOf(State(), a)];
      } else if status == Completed {
        delays := delays - {a};
      }
    }

    method MarkEnqueued(a: Account, now: int)
      modifies this
      ensures State() == Marked(old(State()), a, now)
      ensures delays == old(delays) && applied == old(applied)
    {
      nextDue := nextDue[a := now + DelayOf(State(), a)];
    }
  }

  // ── what the tick asks the table ─────────────────────────────────────

  predicate SyncOf(t: Table, a: Account, id: JobId) {
    id in t && t[id].payload.SyncAccount? && t[id].payload.account == a
  }

  predicate Ended(t: Table, a: Account, id: JobId) { SyncOf(t, a, id) && Terminal(t[id]) }

  predicate Queued(t: Table, a: Account, id: JobId) { SyncOf(t, a, id) && !Terminal(t[id]) }

  ghost predicate HasQueued(t: Table, a: Account) { exists id :: Queued(t, a, id) }

  ghost predicate QueuedListing(t: Table, ids: seq<JobId>) {
    && (forall i | 0 <= i < |ids| :: ids[i] in t && t[ids[i]].payload.SyncAccount? && !Terminal(t[ids[i]]))
    && (forall a, id | Queued(t, a, id) :: id in ids)
  }

  /** `ORDER BY updated_at DESC, created_at DESC`: `i` is stamped later. */
  predicate StampedAfter(t: Table, i: JobId, j: JobId)
    requires i in t && j in t
  {
    t[i].updatedAt > t[j].updatedAt || (t[i].updatedAt == t[j].updatedAt && t[i].createdAt > t[j].createdAt)
  }

  /** The answer to the terminal SELECT: the finished sync rows, newest first,
      rows with equal stamps in whatever order the database likes. */
  ghost predicate StampListing(t: Table, ids: seq<JobId>) {
    && (forall i | 0 <= i < |ids| :: ids[i] in t && t[ids[i]].payload.SyncAccount? && Terminal(t[ids[i]]))
    && (forall a, id | Ended(t, a, id) :: id in ids)
    && (forall i, j | 0 <= i < j < |ids| :: ids[i] in t && ids[j] in t && !StampedAfter(t, ids[j], ids[i]))
  }

  /** The id and status the terminal query returns. */
  datatype Ending = Ending(job: JobId, status: Status)

  function FirstListed(t: Table, a: Account, ids: seq<JobId>): Option<Ending> {
    if ids == [] then None
    else if SyncOf(t, a, ids[0]) then Some(Ending(ids[0], t[ids[0]].status))
    else FirstListed(t, a, ids[1..])
  }

  /** A finished sync job of `a` that none is stamped after; nothing only when
      there is none. With equal stamps there can be several answers. */
  ghost predicate Newest(t: Table, a: Account, latest: Option<Ending>) {
    match latest
    case None => forall id :: !Ended(t, a, id)
    case Some(e) =>
      Ended(t, a, e.job) && t[e.job].status == e.status && forall j | Ended(t, a, j) :: !StampedAfter(t, j, e.job)
  }

  method LatestTerminalSync(t: Table, a: Account, ids: seq<JobId>) returns (r: Option<Ending>)
    requires StampListing(t, ids)
    ensures r == FirstListed(t, a, ids)
    ensures Newest(t, a, r)
    ensures r.Some? ==> forall id | Ended(t, a, id) ::
              && t[id].updatedAt <= t[r.value.job].updatedAt
              && (t[id].updatedAt == t[r.value.job].updatedAt ==> t[id].createdAt <= t[r.value.job].createdAt)
  {
    for i := 0 to |ids|
      invariant forall k | 0 <= k < i :: !SyncOf(t, a, ids[k])
      invariant FirstListed(t, a, ids) == FirstListed(t, a, ids[i..])
    {
      assert ids[i..][0] == ids[i] && ids[i..][1..] == ids[i + 1..];
      if t[ids[i]].payload.account == a {
        NoneAbove(t, a, ids, i);
        return Some(Ending(ids[i], t[ids[i]].status));
      }
    }
    return None;
  }

  /** No finished job of the account is stamped after its first listed one. */
  lemma NoneAbove(t: Table, a: Account, ids: seq<JobId>, i: nat)
    requires StampListing(t, ids) && i < |ids|
    requires forall k | 0 <= k < i :: !SyncOf(t, a, ids[k])
    ensures forall j | Ended(t, a, j) :: !StampedAfter(t, j, ids[i])
  {
    forall j | Ended(t, a, j)
      ensures !StampedAfter(t, j, ids[i])
    {
      var k :| 0 <= k < |ids| && ids[k] == j;
      assert i <= k;
    }
  }

  lemma {:induction false} FirstIsWhere(t: Table, a: Account, ids: seq<JobId>) returns (i: nat)
    ensures i <= |ids| && forall k | 0 <= k < i :: !SyncOf(t, a, ids[k])
    ensures i == |ids| ==> FirstListed(t, a, ids) == None
    ensures i < |ids| ==> SyncOf(t, a, ids[i]) && FirstListed(t, a, ids) == Some(Ending(ids[i], t[ids[i]].status))
  {
    if ids == [] || SyncOf(t, a, ids[0]) {
      i := 0;
    } else {
      var j := FirstIsWhere(t, a, ids[1..]);
      i := j + 1;
      assert forall k | 0 < k < i :: ids[k] == ids[1..][k - 1];
    }
  }

  /** Whatever the order of ties, the first listed row is a newest one. */
  lemma FirstListedIsNewest(t: Table, a: Account, ids: seq<JobId>)
    requires StampListing(t, ids)
    ensures Newest(t, a, FirstListed(t, a, ids))
  {
    var i := FirstIsWhere(t, a, ids);
    if i < |ids| {
      NoneAbove(t, a, ids, i);
    }
  }

  method PendingOrRunningSyncJobId(t: Table, a: Account, ids: seq<JobId>) returns (r: Option<JobId>)
    requires QueuedListing(t, ids)
    ensures r.Some? ==> Queued(t, a, r.value)
    ensures r.None? ==> !HasQueued(t, a)
  {
    for i := 0 to |ids|
      invariant forall k | 0 <= k < i :: !SyncOf(t, a, ids[k])
    {
      if t[ids[i]].payload.account == a {
        return Some(ids[i]);
      }
    }
    return None;
  }

  // ── one account of one tick ──────────────────────────────────────────

  /** A database call of the tick that fails, ending the whole tick. */
  datatype Fault = NoFault | LatestFails | QueuedFails | InsertFails(inserted: bool)

  /** Clock readings, fresh id and fault of one account's turn. */
  datatype Turn = Turn(user: string, id: JobId, observedAt: int, insertedAt: int, markedAt: int, fault: Fault)

  datatype Result = Skipped | Enqueued | Errored

  function NewSync(a: Account, turn: Turn, runAt: int): Row {
    NewRow(SyncAccount(a, turn.user), runAt, turn.insertedAt)
  }

  function Observed(b: BackoffState, a: Account, latest: Option<Ending>, at: int): BackoffState {
    match latest
    case None => b
    case Some(e) => Observe(b, a, e.job, e.status, at)
  }

  datatype World = World(table: Table, backoff: BackoffState)

  datatype Ticked = Ticked(world: World, result: Result)

  /** Stop if not due or already queued, else insert and mark. */
  ghost function Place(w: World, a: Account, now: int, runAt: int, turn: Turn): Ticked {
    if !DueNow(w.backoff, a, now) then Ticked(w, Skipped)
    else if turn.fault.QueuedFails? then Ticked(w, Errored)
    else if HasQueued(w.table, a) then Ticked(w, Skipped)
    else
      var filled := w.table[turn.id := NewSync(a, turn, runAt)];
      match turn.fault
      case InsertFails(inserted) => Ticked(if inserted then w.(table := filled) else w, Errored)
      case _ => Ticked(World(filled, Marked(w.backoff, a, turn.markedAt)), Enqueued)
  }

  /** One account's turn: apply the outcome queried, then perhaps enqueue. */
  ghost function TickAccount(w: World, a: Account, now: int, runAt: int, turn: Turn, latest: Option<Ending>): Ticked {
    if turn.fault.LatestFails? then Ticked(w, Errored)
    else Place(World(w.table, Observed(w.backoff, a, latest, turn.observedAt)), a, now, runAt, turn)
  }

  /** The database's answers to the tick's two SELECTs. */
  datatype Engine = Engine(ended: Table -> seq<JobId>, queued: Table -> seq<JobId>)

  ghost predicate Answers(e: Engine) {
    forall t: Table :: StampListing(t, e.ended(t)) && QueuedListing(t, e.queued(t))
  }

  function LatestBy(e: Engine, t: Table, a: Account): Option<Ending> { FirstListed(t, a, e.ended(t)) }

  datatype TickSummary = TickSummary(world: World, enqueued: nat, ok: bool)

  /** A whole tick: the first failing database call ends it. */
  ghost function TickAll(w: World, e: Engine, accounts: seq<Account>, turns: seq<Turn>, now: int,
                         runAt: int): TickSummary
    requires |accounts| == |turns|
    decreases |accounts|
  {
    if accounts == [] then TickSummary(w, 0, true)
    else
      var r := TickAccount(w, accounts[0], now, runAt, turns[0], LatestBy(e, w.table, accounts[0]));
      if r.result.Errored? then TickSummary(r.world, 0, false)
      else
        var rest := TickAll(r.world, e, accounts[1..], turns[1..], now, runAt);
        rest.(enqueued := rest.enqueued + (if r.result.Enqueued? then 1 else 0))
  }

  method PollAccount(db: JobStore, backoff: Backoff, engine: Engine, a: Account, now: int, runAt: int, turn: Turn)
    returns (r: Result)
    requires Answers(engine) && turn.id !in db.rows
    modifies db, backoff
    ensures db.rows.Keys <= old(db.rows).Keys + {turn.id}
    ensures var w := World(old(db.rows), old(backoff.State()));
            Ticked(World(db.rows, backoff.State()), r) ==
            TickAccount(w, a, now, runAt, turn, LatestBy(engine, w.table, a))
  {
    if turn.fault.LatestFails? {
      return Errored;
    }
    var latest := LatestTerminalSync(db.rows, a, engine.ended(db.rows));
    if latest.Some? {
      backoff.ObserveOutcome(a, latest.value.job, latest.value.status, turn.observedAt);
    }
    if !DueNow(backoff.State(), a, now) {
      return Skipped;
    }
    if turn.fault.QueuedFails? {
      return Errored;
    }
    var queued := PendingOrRunningSyncJobId(db.rows, a, engine.queued(db.rows));
    if queued.Some? {
      return Skipped;
    }
    if turn.fault.InsertFails? {
      if turn.fault.inserted {
        db.Enqueue(turn.id, SyncAccount(a, turn.user), runAt, turn.insertedAt);
      }
      return Errored;
    }
    db.Enqueue(turn.id, SyncAccount(a, turn.user), runAt, turn.insertedAt);
    backoff.MarkEnqueued(a, turn.markedAt);
    return Enqueued;
  }

  /** The ids a tick may insert are new and distinct. */
  ghost predicate NewIds(t: Table, turns: seq<Turn>) {
    && (forall i | 0 <= i < |turns| :: turns[i].id !in t)
    && (forall i, j | 0 <= i < j < |turns| :: turns[i].id != turns[j].id)
  }

  method PollTick(db: JobStore, backoff: Backoff, engine: Engine, accounts: seq<Account>, turns: seq<Turn>,
                  now: int, runAt: int)
    returns (enqueued: nat, ok: bool)
    requires Answers(engine) && |accounts| == |turns| && NewIds(db.rows, turns)
    modifies db, backoff
    ensures var s := TickAll(World(old(db.rows), old(backoff.State())), engine, accounts, turns, now, runAt);
            s.world == World(db.rows, backoff.State()) && s.ok == ok && (ok ==> s.enqueued == enqueued)
  {
    enqueued := 0;
    ghost var start := World(db.rows, backoff.State());
    for i := 0 to |accounts|
      invariant forall k | i <= k < |turns| :: turns[k].id !in db.rows
      invariant var rest := TickAll(World(db.rows, backoff.State()), engine, accounts[i..], turns[i..], now, runAt);
                TickAll(start, engine, accounts, turns, now, runAt) == rest.(enqueued := rest.enqueued + enqueued)
    {
      assert accounts[i..][0] == accounts[i] && accounts[i..][1..] == accounts[i + 1..];
      assert turns[i..][0] == turns[i] && turns[i..][1..] == turns[i + 1..];
      var r := PollAccount(db, backoff, engine, accounts[i], now, runAt, turns[i]);
      if r.Errored? {
        return enqueued, false;
      }
      if r.Enqueued? {
        enqueued := enqueued + 1;
      }
    }
    return enqueued, true;
  }

  // ── runs of ticks among everything else ──────────────────────────────

  datatype Outcome = Outcome(job: JobId, failed: bool)

  /** `seen`: outcomes that moved the backoff; `inserts`: when a tick inserted a row,
      also one that landed while reporting an error. */
  datatype System = System(
    world: World,
    clock: int,
    seen: map<Account, seq<Outcome>>,
    inserts: map<Account, seq<int>>)

  /** `Others` is any table change by workers and other enqueuers that keeps
      finished rows as they are; `Turned` is one account of a tick, with the
      database's answer to the terminal query. */
  datatype Event =
    | Others(table: Table, at: int)
    | Turned(a: Account, now: int, runAt: int, turn: Turn, latest: Option<Ending>)

  function Start(secs: nat, at: int): System { System(World(map[], WithBase(secs)), at, map[], map[]) }

  ghost predicate Happens(s: System, e: Event) {
    match e
    case Others(t, at) => WorkerPool.Forward(s.world.table, t) && s.clock <= at
    case Turned(a, now, _, turn, latest) =>
      && turn.id !in s.world.table && s.clock <= turn.observedAt
      && now <= turn.observedAt <= turn.insertedAt <= turn.markedAt
      && Newest(s.world.table, a, latest)
  }

  function SeenBy(s: System, a: Account): seq<Outcome> { if a in s.seen then s.seen[a] else [] }

  function InsertsOf(s: System, a: Account): seq<int> { if a in s.inserts then s.inserts[a] else [] }

  /** The outcome this turn will apply, if it is a new one. */
  function News(b: BackoffState, a: Account, turn: Turn, latest: Option<Ending>): Option<Outcome> {
    if turn.fault.LatestFails? || latest.None? || (a in b.applied && b.applied[a] == latest.value.job) then None
    else Some(Outcome(latest.value.job, latest.value.status == Failed))
  }

  function WithNews(outs: seq<Outcome>, news: Option<Outcome>): seq<Outcome> {
    if news.Some? then outs + [news.value] else outs
  }

  ghost function Result1(w: World, e: Event): Ticked
    requires e.Turned?
  {
    TickAccount(w, e.a, e.now, e.runAt, e.turn, e.latest)
  }

  /** This turn puts a row into the table. */
  ghost predicate Inserts(w: World, e: Event) { e.Turned? && Result1(w, e).world.table != w.table }

  ghost function After1(s: System, e: Event): System {
    match e
    case Others(t, at) => s.(world := s.world.(table := t), clock := at)
    case Turned(a, now, runAt, turn, latest) =>
      var news := News(s.world.backoff, a, turn, latest);
      System(Result1(s.world, e).world, turn.markedAt,
             if news.Some? then s.seen[a := SeenBy(s, a) + [news.value]] else s.seen,
             if Inserts(s.world, e) then s.inserts[a := InsertsOf(s, a) + [turn.insertedAt]] else s.inserts)
  }

  ghost predicate History(s: System, events: seq<Event>, s': System)
    decreases |events|
  {
    if events == [] then s == s' else Happens(s, events[0]) && History(After1(s, events[0]), events[1..], s')
  }

  lemma EventIsForward(s: System, e: Event)
    requires Happens(s, e)
    ensures WorkerPool.Forward(s.world.table, After1(s, e).world.table)
  {
  }

  lemma {:induction false} HistoryIsForward(s: System, events: seq<Event>, s': System)
    requires History(s, events, s')
    ensures WorkerPool.Forward(s.world.table, s'.world.table)
    decreases |events|
  {
    if events != [] {
      EventIsForward(s, events[0]);
      HistoryIsForward(After1(s, events[0]), events[1..], s');
      assert forall id | id in s.world.table :: id in After1(s, events[0]).world.table;
    }
  }

  lemma EventKeepsBase(s: System, e: Event)
    ensures After1(s, e).world.backoff.base == s.world.backoff.base
  {
  }

  /** Nothing the backoff holds about `a` changed. */
  ghost predicate SameFor(b: BackoffState, b': BackoffState, a: Account) {
    && DelayOf(b', a) == DelayOf(b, a) && b'.base == b.base
    && (a in b'.applied <==> a in b.applied) && (a in b.applied ==> b'.applied[a] == b.applied[a])
    && (a in b'.nextDue <==> a in b.nextDue) && (a in b.nextDue ==> b'.nextDue[a] == b.nextDue[a])
  }

  /** A turn of another account, or of none, leaves and records nothing about `a`. */
  ghost predicate NotAbout(e: Event, a: Account) { e.Others? || e.a != a }

  lemma EventFrames(s: System, e: Event, a: Account)
    requires NotAbout(e, a)
    ensures SameFor(s.world.backoff, After1(s, e).world.backoff, a)
    ensures SeenBy(After1(s, e), a) == SeenBy(s, a) && InsertsOf(After1(s, e), a) == InsertsOf(s, a)
  {
    if e.Turned? {
      ObserveFrames(s.world.backoff, e.a, e.latest, e.turn.observedAt, a);
      var seen := World(s.world.table, Observed(s.world.backoff, e.a, e.latest, e.turn.observedAt));
      PlaceFrames(seen, e.a, e.now, e.runAt, e.turn, a);
    }
  }

  lemma ObserveFrames(b: BackoffState, turned: Account, latest: Option<Ending>, at: int, a: Account)
    requires turned != a
    ensures SameFor(b, Observed(b, turned, latest, at), a)
  {
  }

  lemma PlaceFrames(w: World, turned: Account, now: int, runAt: int, turn: Turn, a: Account)
    requires turned != a
    ensures SameFor(w.backoff, Place(w, turned, now, runAt, turn).world.backoff, a)
  {
  }

  /** The state after a turn, in its parts. */
  lemma AfterTurn(s: System, e: Event)
    requires e.Turned? && e.turn.id !in s.world.table
    ensures var s', b := After1(s, e), s.world.backoff;
            && s'.world == Result1(s.world, e).world && s'.clock == e.turn.markedAt
            && SeenBy(s', e.a) == WithNews(SeenBy(s, e.a), News(b, e.a, e.turn, e.latest))
            && InsertsOf(s', e.a) ==
               if Inserts(s.world, e) then InsertsOf(s, e.a) + [e.turn.insertedAt] else InsertsOf(s, e.a)
  {
  }

  // ── the delay ────────────────────────────────────────────────────────

  function TrailingFails(outs: seq<Outcome>): nat {
    if outs == [] || !outs[|outs| - 1].failed then 0 else 1 + TrailingFails(outs[..|outs| - 1])
  }

  /** base·2^k. */
  function Scaled(base: nat, k: nat): nat { if k == 0 then base else 2 * Scaled(base, k - 1) }

  lemma {:induction false} ScaledIsProduct(base: nat, k: nat)
    ensures Scaled(base, k) == base * WorkerPool.Doubled(k)
  {
    if k > 0 {
      ScaledIsProduct(base, k - 1);
      var p := WorkerPool.Doubled(k - 1);
      assert WorkerPool.Doubled(k) == 2 * p && base * (2 * p) == 2 * (base * p);
    }
  }

  /** The base after a success, else min(base·2^k, 3600) after k failures. */
  function ExpectedDelay(base: nat, k: nat): nat { if k == 0 then base else Min(Scaled(base, k), MAX_BACKOFF_SECS) }

  lemma ExpectedIs(base: nat, k: nat)
    ensures ExpectedDelay(base, k) == if k == 0 then base else Min(base * WorkerPool.Doubled(k), 3600)
  {
    ScaledIsProduct(base, k);
  }

  /** The last outcome seen is remembered and the delay is what the outcomes make it. */
  ghost predicate DelayOk(b: BackoffState, a: Account, outs: seq<Outcome>) {
    && (outs == [] <==> a !in b.applied)
    && (outs != [] ==> b.applied[a] == outs[|outs| - 1].job)
    && DelayOf(b, a) == ExpectedDelay(b.base, TrailingFails(outs))
  }

  lemma {:induction false} ScaledFloor(base: nat, k: nat)
    ensures base <= Scaled(base, k)
  {
    if k > 0 {
      ScaledFloor(base, k - 1);
    }
  }

  lemma ExpectedDelayFloor(base: nat, k: nat)
    ensures Min(base, MAX_BACKOFF_SECS) <= ExpectedDelay(base, k)
  {
    ScaledFloor(base, k);
  }

  lemma DoublingStep(base: nat, k: nat)
    ensures Min(Min(2 * ExpectedDelay(base, k), DURATION_MAX_SECS), MAX_BACKOFF_SECS) == ExpectedDelay(base, k + 1)
  {
  }

  lemma TrailingGrows(outs: seq<Outcome>, o: Outcome)
    ensures TrailingFails(outs + [o]) == if o.failed then TrailingFails(outs) + 1 else 0
  {
    assert (outs + [o])[..|outs|] == outs;
  }

  /** A new failure takes the delay to the next one, a success to the base. */
  lemma ObserveDelays(b: BackoffState, a: Account, e: Ending, at: int, delay: nat, next: nat)
    requires !(a in b.applied && b.applied[a] == e.job) && DelayOf(b, a) == delay
    requires next == Min(Min(2 * delay, DURATION_MAX_SECS), MAX_BACKOFF_SECS)
    requires e.status == Completed || e.status == Failed
    ensures var b' := Observe(b, a, e.job, e.status, at);
            && a in b'.applied && b'.applied[a] == e.job && b'.base == b.base
            && DelayOf(b', a) == if e.status == Failed then next else b.base
  {
  }

  lemma ObserveKeepsDelay(b: BackoffState, a: Account, outs: seq<Outcome>, turn: Turn, latest: Option<Ending>)
    requires DelayOk(b, a, outs) && !turn.fault.LatestFails?
    requires latest.Some? ==> latest.value.status == Completed || latest.value.status == Failed
    ensures DelayOk(Observed(b, a, latest, turn.observedAt), a, WithNews(outs, News(b, a, turn, latest)))
  {
    var news := News(b, a, turn, latest);
    if news.Some? {
      var k, e := TrailingFails(outs), latest.value;
      TrailingGrows(outs, news.value);
      DoublingStep(b.base, k);
      ObserveDelays(b, a, e, turn.observedAt, ExpectedDelay(b.base, k), ExpectedDelay(b.base, k + 1));
    }
  }

  lemma PlaceKeepsDelay(w: World, a: Account, outs: seq<Outcome>, now: int, runAt: int, turn: Turn)
    requires DelayOk(w.backoff, a, outs)
    ensures DelayOk(Place(w, a, now, runAt, turn).world.backoff, a, outs)
  {
  }

  lemma EventKeepsDelay(s: System, e: Event, a: Account)
    requires DelayOk(s.world.backoff, a, SeenBy(s, a)) && Happens(s, e)
    ensures DelayOk(After1(s, e).world.backoff, a, SeenBy(After1(s, e), a))
  {
    if NotAbout(e, a) {
      EventFrames(s, e, a);
    } else {
      AfterTurn(s, e);
      if !e.turn.fault.LatestFails? {
        var w := World(s.world.table, Observed(s.world.backoff, a, e.latest, e.turn.observedAt));
        ObserveKeepsDelay(s.world.backoff, a, SeenBy(s, a), e.turn, e.latest);
        PlaceKeepsDelay(w, a, SeenBy(After1(s, e), a), e.now, e.runAt, e.turn);
      }
    }
  }

  lemma {:induction false} HistoryKeepsDelay(s: System, events: seq<Event>, s': System, a: Account)
    requires DelayOk(s.world.backoff, a, SeenBy(s, a)) && History(s, events, s')
    ensures DelayOk(s'.world.backoff, a, SeenBy(s', a)) && s'.world.backoff.base == s.world.backoff.base
    decreases |events|
  {
    if events != [] {
      EventKeepsDelay(s, events[0], a);
      EventKeepsBase(s, events[0]);
      HistoryKeepsDelay(After1(s, events[0]), events[1..], s', a);
    }
  }

  /** The delay is the base after a success or with no history, and exactly
      min(base·2^k, 3600) after k observed failures since. */
  lemma DelayFollowsFailures(secs: nat, at: int, events: seq<Event>, s: System, a: Account)
    requires History(Start(secs, at), events, s)
    ensures var base, k := if secs < 1 then 1 else secs, TrailingFails(SeenBy(s, a));
            DelayOf(s.world.backoff, a) == if k == 0 then base else Min(base * WorkerPool.Doubled(k), 3600)
  {
    HistoryKeepsDelay(Start(secs, at), events, s, a);
    ExpectedIs(if secs < 1 then 1 else secs, TrailingFails(SeenBy(s, a)));
  }

  // ── outcomes count once ──────────────────────────────────────────────

  /** A fixed order of rows with equal stamps, such as that of their ids. */
  type Rank = JobId -> int

  predicate SameStamps(t: Table, i: JobId, j: JobId)
    requires i in t && j in t
  {
    t[i].updatedAt == t[j].updatedAt && t[i].createdAt == t[j].createdAt
  }

  predicate After(t: Table, rank: Rank, i: JobId, j: JobId)
    requires i in t && j in t
  {
    StampedAfter(t, i, j) || (SameStamps(t, i, j) && rank(i) > rank(j))
  }

  ghost predicate IsTop(t: Table, rank: Rank, a: Account, id: JobId) {
    Ended(t, a, id) && forall j | Ended(t, a, j) && j != id :: After(t, rank, id, j)
  }

  /** Turns of `a` in this history get the top row, ties settled by `rank`. */
  ghost predicate RankedFor(s: System, events: seq<Event>, rank: Rank, a: Account)
    decreases |events|
  {
    events != [] ==>
      var e := events[0];
      && (e.Turned? && e.a == a && e.latest.Some? ==> IsTop(s.world.table, rank, a, e.latest.value.job))
      && RankedFor(After1(s, e), events[1..], rank, a)
  }

  /** A listing that settles ties by `rank`. */
  ghost predicate RankListing(t: Table, rank: Rank, ids: seq<JobId>) {
    && StampListing(t, ids)
    && forall i, j | 0 <= i < j < |ids| :: ids[i] in t && ids[j] in t && After(t, rank, ids[i], ids[j])
  }

  lemma RankedListingGivesTop(t: Table, rank: Rank, a: Account, ids: seq<JobId>)
    requires RankListing(t, rank, ids)
    ensures var latest := FirstListed(t, a, ids); latest.Some? ==> IsTop(t, rank, a, latest.value.job)
  {
    var i := FirstIsWhere(t, a, ids);
    if i < |ids| {
      forall j | Ended(t, a, j) && j != ids[i]
        ensures After(t, rank, ids[i], j)
      {
        var k :| 0 <= k < |ids| && ids[k] == j;
        assert i < k;
      }
    }
  }

  /** No two finished rows of `a` bear the same stamps. */
  ghost predicate NoTies(t: Table, a: Account) {
    forall i, j | Ended(t, a, i) && Ended(t, a, j) && i != j :: !SameStamps(t, i, j)
  }

  /** Without ties the database has no choice, so any rank fits. */
  lemma {:induction false} NoTiesIsRanked(s: System, events: seq<Event>, s': System, rank: Rank, a: Account)
    requires History(s, events, s') && NoTies(s'.world.table, a)
    ensures RankedFor(s, events, rank, a)
    decreases |events|
  {
    if events != [] {
      HistoryIsForward(s, events, s');
      EarlierHasNoTies(s.world.table, s'.world.table, a);
      NoTiesIsRanked(After1(s, events[0]), events[1..], s', rank, a);
    }
  }

  lemma EarlierHasNoTies(t: Table, t': Table, a: Account)
    requires WorkerPool.Forward(t, t') && NoTies(t', a)
    ensures NoTies(t, a)
  {
    forall i, j | Ended(t, a, i) && Ended(t, a, j) && i != j
      ensures !SameStamps(t, i, j)
    {
      assert Ended(t', a, i) && Ended(t', a, j) && !SameStamps(t', i, j);
    }
  }

  /** Over any history the top finished job only moves up in the order. */
  lemma LatestNeverGoesBack(s: System, events: seq<Event>, s': System, rank: Rank, a: Account, i: JobId, j: JobId)
    requires History(s, events, s') && IsTop(s.world.table, rank, a, i) && IsTop(s'.world.table, rank, a, j)
    ensures i == j || (i in s'.world.table && After(s'.world.table, rank, j, i))
  {
    HistoryIsForward(s, events, s');
    assert Ended(s'.world.table, a, i);
  }

  /** The outcomes seen are finished jobs, each after all before it. */
  ghost predicate Ascending(t: Table, rank: Rank, a: Account, outs: seq<Outcome>) {
    && (forall i | 0 <= i < |outs| :: Ended(t, a, outs[i].job))
    && (forall i, j | 0 <= i < j < |outs| ::
          Ended(t, a, outs[i].job) && Ended(t, a, outs[j].job) && After(t, rank, outs[j].job, outs[i].job))
  }

  lemma AscendingAcrossForward(t: Table, t': Table, rank: Rank, a: Account, outs: seq<Outcome>)
    requires Ascending(t, rank, a, outs) && WorkerPool.Forward(t, t')
    ensures Ascending(t', rank, a, outs)
  {
    forall i | 0 <= i < |outs|
      ensures Ended(t', a, outs[i].job) && t'[outs[i].job] == t[outs[i].job]
    {
      assert Ended(t, a, outs[i].job);
    }
  }

  /** A new top outcome comes strictly after everything applied before. */
  lemma AscendingGrows(t: Table, rank: Rank, a: Account, outs: seq<Outcome>, next: Outcome)
    requires Ascending(t, rank, a, outs) && IsTop(t, rank, a, next.job)
    requires outs != [] ==> outs[|outs| - 1].job != next.job
    ensures Ascending(t, rank, a, outs + [next])
  {
    if outs != [] {
      var last := outs[|outs| - 1].job;
      assert After(t, rank, next.job, last);
      forall i | 0 <= i < |outs|
        ensures Ended(t, a, outs[i].job) && After(t, rank, next.job, outs[i].job)
      {
        assert outs[i].job != next.job by {
          assert i < |outs| - 1 ==> After(t, rank, last, outs[i].job);
        }
      }
    }
  }

  lemma EventKeepsAscending(s: System, e: Event, rank: Rank, a: Account)
    requires Happens(s, e) && RankedFor(s, [e], rank, a)
    requires DelayOk(s.world.backoff, a, SeenBy(s, a)) && Ascending(s.world.table, rank, a, SeenBy(s, a))
    ensures Ascending(After1(s, e).world.table, rank, a, SeenBy(After1(s, e), a))
  {
    var outs := SeenBy(s, a);
    if NotAbout(e, a) {
      EventFrames(s, e, a);
    } else {
      AfterTurn(s, e);
      var news := News(s.world.backoff, a, e.turn, e.latest);
      if news.Some? {
        AscendingGrows(s.world.table, rank, a, outs, news.value);
      }
    }
    EventIsForward(s, e);
    AscendingAcrossForward(s.world.table, After1(s, e).world.table, rank, a, SeenBy(After1(s, e), a));
  }

  lemma {:induction false} HistoryKeepsAscending(s: System, events: seq<Event>, s': System, rank: Rank, a: Account)
    requires History(s, events, s') && RankedFor(s, events, rank, a)
    requires DelayOk(s.world.backoff, a, SeenBy(s, a)) && Ascending(s.world.table, rank, a, SeenBy(s, a))
    ensures Ascending(s'.world.table, rank, a, SeenBy(s', a))
    decreases |events|
  {
    if events != [] {
      EventKeepsAscending(s, events[0], rank, a);
      EventKeepsDelay(s, events[0], a);
      HistoryKeepsAscending(After1(s, events[0]), events[1..], s', rank, a);
    }
  }

  ghost predicate CountedOnce(outs: seq<Outcome>) {
    forall i, j | 0 <= i < j < |outs| :: outs[i].job != outs[j].job
  }

  lemma AscendingIsOnce(t: Table, rank: Rank, a: Account, outs: seq<Outcome>)
    requires Ascending(t, rank, a, outs)
    ensures CountedOnce(outs)
  {
    forall i, j | 0 <= i < j < |outs|
      ensures outs[i].job != outs[j].job
    {
      assert After(t, rank, outs[j].job, outs[i].job);
    }
  }

  /** Where ties keep one fixed order, each finished job moves the backoff at most
      once, though only the last id is remembered. */
  lemma OutcomesCountOnce(secs: nat, at: int, events: seq<Event>, s: System, rank: Rank, a: Account)
    requires History(Start(secs, at), events, s) && RankedFor(Start(secs, at), events, rank, a)
    ensures CountedOnce(SeenBy(s, a))
    ensures forall i | 0 <= i < |SeenBy(s, a)| :: Ended(s.world.table, a, SeenBy(s, a)[i].job)
  {
    HistoryKeepsAscending(Start(secs, at), events, s, rank, a);
    AscendingIsOnce(s.world.table, rank, a, SeenBy(s, a));
  }

  /** Without ties the same holds in whatever order the database lists rows. */
  lemma UntiedOutcomesCountOnce(secs: nat, at: int, events: seq<Event>, s: System, a: Account)
    requires History(Start(secs, at), events, s) && NoTies(s.world.table, a)
    ensures CountedOnce(SeenBy(s, a))
  {
    var rank: Rank := id => id;
    NoTiesIsRanked(Start(secs, at), events, s, rank, a);
    OutcomesCountOnce(secs, at, events, s, rank, a);
  }

  /** Two rows tie for the newest: the database may list either first. */
  ghost predicate Tied(t: Table, a: Account) {
    exists i, j :: i != j && Newest(t, a, Some(i)) && Newest(t, a, Some(j))
  }

  lemma UntiedIsTop(t: Table, rank: Rank, a: Account, e: Ending)
    requires Newest(t, a, Some(e)) && !Tied(t, a)
    ensures IsTop(t, rank, a, e.job)
  {
    forall j | Ended(t, a, j) && j != e.job
      ensures After(t, rank, e.job, j)
    {
      assert !Newest(t, a, Some(Ending(j, t[j].status)));
    }
  }

  ghost predicate OnlyTurns(events: seq<Event>) { forall i | 0 <= i < |events| :: events[i].Turned? }

  /** A turn inserts no finished row, so it makes no tie. */
  lemma TurnKeepsNewest(s: System, e: Event, a: Account, latest: Option<Ending>)
    requires Happens(s, e) && e.Turned?
    ensures Newest(After1(s, e).world.table, a, latest) <==> Newest(s.world.table, a, latest)
  {
    var t, t' := s.world.table, After1(s, e).world.table;
    assert forall id :: Ended(t', a, id) <==> Ended(t, a, id);
    assert forall id | Ended(t, a, id) :: t'[id] == t[id];
  }

  lemma {:induction false} UntiedIsRanked(s: System, events: seq<Event>, s': System, rank: Rank, a: Account)
    requires History(s, events, s') && OnlyTurns(events) && !Tied(s.world.table, a)
    ensures RankedFor(s, events, rank, a)
    decreases |events|
  {
    if events != [] {
      var e, s1 := events[0], After1(s, events[0]);
      if e.a == a && e.latest.Some? {
        UntiedIsTop(s.world.table, rank, a, e.latest.value);
      }
      if Tied(s1.world.table, a) {
        var i, j :| i != j && Newest(s1.world.table, a, Some(i)) && Newest(s1.world.table, a, Some(j));
        TurnKeepsNewest(s, e, a, Some(i));
        TurnKeepsNewest(s, e, a, Some(j));
      }
      UntiedIsRanked(s1, events[1..], s', rank, a);
    }
  }

  /** A turn that only looks: its second query fails. */
  function Look(s: System, a: Account, id: JobId, latest: Ending): Event {
    Turned(a, s.clock, s.clock, Turn("", id, s.clock, s.clock, s.clock, QueuedFails), Some(latest))
  }

  lemma LookSees(s: System, a: Account, id: JobId, latest: Ending)
    requires id !in s.world.table && Newest(s.world.table, a, Some(latest))
    ensures var e := Look(s, a, id, latest);
            && Happens(s, e)
            && After1(s, e).world.table == s.world.table && After1(s, e).clock == s.clock
            && SeenBy(After1(s, e), a) == WithNews(SeenBy(s, a), News(s.world.backoff, a, e.turn, e.latest))
            && (DelayOk(s.world.backoff, a, SeenBy(s, a)) ==>
                  DelayOk(After1(s, e).world.backoff, a, SeenBy(After1(s, e), a)))
  {
    AfterTurn(s, Look(s, a, id, latest));
    if DelayOk(s.world.backoff, a, SeenBy(s, a)) {
      EventKeepsDelay(s, Look(s, a, id, latest), a);
    }
  }

  lemma LookLands(s: System, a: Account, id: JobId, latest: Ending)
    requires id !in s.world.table && Newest(s.world.table, a, Some(latest))
    requires DelayOk(s.world.backoff, a, SeenBy(s, a))
    ensures var outs, outs' := SeenBy(s, a), SeenBy(After1(s, Look(s, a, id, latest)), a);
            && outs' != [] && outs'[|outs'| - 1].job == latest.job
            && (outs != [] && outs[|outs| - 1].job != latest.job ==> |outs'| == |outs| + 1 && outs <= outs')
  {
    LookSees(s, a, id, latest);
  }

  /** A look at the other tied row and one back count this one again. */
  lemma BackAndForth(s: System, a: Account, id: JobId, i: Ending, j: Ending)
    requires DelayOk(s.world.backoff, a, SeenBy(s, a)) && id !in s.world.table
    requires i.job != j.job && Newest(s.world.table, a, Some(i)) && Newest(s.world.table, a, Some(j))
    requires SeenBy(s, a) != [] && SeenBy(s, a)[|SeenBy(s, a)| - 1].job == i.job
    ensures var there := Look(s, a, id, j); var s' := After1(s, there); var back := Look(s', a, id, i);
            Happens(s, there) && Happens(s', back) && !CountedOnce(SeenBy(After1(s', back), a))
  {
    var s' := After1(s, Look(s, a, id, j));
    LookSees(s, a, id, j);
    LookLands(s, a, id, j);
    LookSees(s', a, id, i);
    LookLands(s', a, id, i);
    var n, outs := |SeenBy(s, a)|, SeenBy(After1(s', Look(s', a, id, i)), a);
    assert outs[n - 1].job == i.job && outs[n + 1].job == i.job;
  }

  /** Three looks that find the tied rows in turn count the first of them twice. */
  lemma TiesCountTwice(s: System, a: Account, id: JobId, i: Ending, j: Ending)
    requires DelayOk(s.world.backoff, a, SeenBy(s, a)) && id !in s.world.table
    requires i.job != j.job && Newest(s.world.table, a, Some(i)) && Newest(s.world.table, a, Some(j))
    ensures exists more, s' :: OnlyTurns(more) && History(s, more, s') && !CountedOnce(SeenBy(s', a))
  {
    var first := Look(s, a, id, i);
    var s1 := After1(s, first);
    LookSees(s, a, id, i);
    LookLands(s, a, id, i);
    BackAndForth(s1, a, id, i, j);
    var there := Look(s1, a, id, j);
    RepeatFollows(s, first, there, Look(After1(s1, there), a, id, i), a);
  }

  lemma RepeatFollows(s: System, e1: Event, e2: Event, e3: Event, a: Account)
    requires e1.Turned? && e2.Turned? && e3.Turned?
    requires var s1 := After1(s, e1); var s2 := After1(s1, e2);
             Happens(s, e1) && Happens(s1, e2) && Happens(s2, e3) && !CountedOnce(SeenBy(After1(s2, e3), a))
    ensures exists more, s' :: OnlyTurns(more) && History(s, more, s') && !CountedOnce(SeenBy(s', a))
  {
    ThreeEvents(s, e1, e2, e3);
    assert OnlyTurns([e1, e2, e3]);
  }

  lemma ThreeEvents(s: System, e1: Event, e2: Event, e3: Event)
    ensures var s1 := After1(s, e1); var s2 := After1(s1, e2);
            History(s, [e1, e2, e3], After1(s2, e3)) <==> Happens(s, e1) && Happens(s1, e2) && Happens(s2, e3)
  {
    var s1 := After1(s, e1);
    var s2 := After1(s1, e2);
    assert History(s2, [e3], After1(s2, e3)) <==> Happens(s2, e3);
    assert [e1, e2, e3][1..] == [e2, e3] && [e2, e3][1..] == [e3];
  }

  lemma {:induction false} AboveAll(ids: set<JobId>) returns (bound: JobId)
    ensures forall id | id in ids :: id < bound
  {
    if ids == {} {
      bound := 0;
    } else {
      var id :| id in ids;
      var b := AboveAll(ids - {id});
      bound := if id < b then b else id + 1;
      assert forall i | i in ids :: i == id || i in ids - {id};
    }
  }

  /** The exact condition: turns that follow count every outcome once, in whatever
      order ties are listed, just when no two rows tie for the newest. */
  lemma CountsOnceIff(secs: nat, at: int, events: seq<Event>, s: System, rank: Rank, a: Account)
    requires History(Start(secs, at), events, s) && RankedFor(Start(secs, at), events, rank, a)
    ensures (forall more, s' | OnlyTurns(more) && History(s, more, s') :: CountedOnce(SeenBy(s', a))) <==>
            !Tied(s.world.table, a)
  {
    HistoryKeepsDelay(Start(secs, at), events, s, a);
    HistoryKeepsAscending(Start(secs, at), events, s, rank, a);
    if Tied(s.world.table, a) {
      var i, j :| i != j && Newest(s.world.table, a, Some(i)) && Newest(s.world.table, a, Some(j));
      var id := AboveAll(s.world.table.Keys);
      TiesCountTwice(s, a, id, i, j);
    } else {
      forall more, s' | OnlyTurns(more) && History(s, more, s')
        ensures CountedOnce(SeenBy(s', a))
      {
        UntiedIsRanked(s, more, s', rank, a);
        HistoryKeepsAscending(s, more, s', rank, a);
        AscendingIsOnce(s'.world.table, rank, a, SeenBy(s', a));
      }
    }
  }

  /** One such table, and two listings of it: alternating, they make two failed
      jobs count as three failures. */
  lemma AlternatingTiesCountTwice(a: Account, now: int)
    ensures var row := Row(SyncAccount(a, "u"), Failed, 3, 0, 0, 0);
            var t := map[0 := row, 1 := row];
            && StampListing(t, [0, 1]) && StampListing(t, [1, 0])
            && var up, down := FirstListed(t, a, [0, 1]), FirstListed(t, a, [1, 0]);
            var b := Observed(Observed(WithBase(1), a, up, now), a, down, now);
            DelayOf(b, a) == 4 && DelayOf(Observed(b, a, up, now), a) == 8
  {
    var row := Row(SyncAccount(a, "u"), Failed, 3, 0, 0, 0);
    var t: Table := map[0 := row, 1 := row];
    assert FirstListed(t, a, [0, 1]) == Some(Ending(0, Failed));
    assert FirstListed(t, a, [1, 0]) == Some(Ending(1, Failed));
  }

  // ── spacing ──────────────────────────────────────────────────────────

  ghost predicate Spaced(times: seq<int>, gap: nat) {
    forall i, j | 0 <= i < j < |times| :: times[i] + gap <= times[j]
  }

  /** The least gap between two inserts. */
  function Gap(b: BackoffState): nat { Min(b.base, MAX_BACKOFF_SECS) }

  /** One gap after the last insert lies behind the clock or ahead of the next due time. */
  ghost predicate SpacedOk(b: BackoffState, a: Account, times: seq<int>, clock: int) {
    && Spaced(times, Gap(b))
    && (times != [] ==>
          var last := times[|times| - 1];
          last <= clock && (last + Gap(b) <= clock || (a in b.nextDue && last + Gap(b) <= b.nextDue[a])))
  }

  /** An insert of `a` that lands with an error takes the tick at least a gap. */
  predicate Paced(e: Event, a: Account, gap: nat) {
    e.Turned? && e.a == a && e.turn.fault == InsertFails(true) ==> e.turn.markedAt - e.turn.insertedAt >= gap
  }

  ghost predicate AllPaced(events: seq<Event>, a: Account, gap: nat) {
    forall i | 0 <= i < |events| :: Paced(events[i], a, gap)
  }

  lemma DelayIsAGap(b: BackoffState, a: Account, outs: seq<Outcome>)
    requires DelayOk(b, a, outs) && 1 <= b.base
    ensures Gap(b) <= DelayOf(b, a)
  {
    ExpectedDelayFloor(b.base, TrailingFails(outs));
  }

  lemma ObserveKeepsSpacing(b: BackoffState, a: Account, times: seq<int>, clock: int, latest: Option<Ending>, at: int)
    requires SpacedOk(b, a, times, clock) && clock <= at && Gap(b) <= DelayOf(Observed(b, a, latest, at), a)
    ensures SpacedOk(Observed(b, a, latest, at), a, times, at)
  {
  }

  lemma SpacedGrows(times: seq<int>, gap: nat, next: int)
    requires Spaced(times, gap) && (times != [] ==> times[|times| - 1] + gap <= next)
    ensures Spaced(times + [next], gap)
  {
    var times' := times + [next];
    forall i, j | 0 <= i < j < |times'|
      ensures times'[i] + gap <= times'[j]
    {
      if j == |times| {
        var last := times[|times| - 1];
        assert i < |times| - 1 ==> times[i] + gap <= last;
      }
    }
  }

  /** A row inserted when due comes a gap after the last one. */
  lemma DueInsertIsSpaced(b: BackoffState, a: Account, times: seq<int>, now: int, turn: Turn)
    requires SpacedOk(b, a, times, turn.observedAt) && DueNow(b, a, now)
    requires now <= turn.observedAt <= turn.insertedAt
    ensures Spaced(times + [turn.insertedAt], Gap(b))
  {
    SpacedGrows(times, Gap(b), turn.insertedAt);
  }

  lemma MarkKeepsSpacing(b: BackoffState, a: Account, times: seq<int>, turn: Turn)
    requires Gap(b) <= DelayOf(b, a) && turn.insertedAt <= turn.markedAt
    requires Spaced(times + [turn.insertedAt], Gap(b))
    ensures SpacedOk(Marked(b, a, turn.markedAt), a, times + [turn.insertedAt], turn.markedAt)
  {
  }

  lemma PlaceKeepsSpacing(w: World, a: Account, times: seq<int>, now: int, runAt: int, turn: Turn)
    requires Gap(w.backoff) <= DelayOf(w.backoff, a) && SpacedOk(w.backoff, a, times, turn.observedAt)
    requires now <= turn.observedAt <= turn.insertedAt <= turn.markedAt && turn.id !in w.table
    requires turn.fault == InsertFails(true) ==> turn.markedAt - turn.insertedAt >= Gap(w.backoff)
    ensures var r := Place(w, a, now, runAt, turn).world;
            SpacedOk(r.backoff, a, if r.table != w.table then times + [turn.insertedAt] else times, turn.markedAt)
  {
    var r := Place(w, a, now, runAt, turn).world;
    if turn.id in r.table {
      DueInsertIsSpaced(w.backoff, a, times, now, turn);
      if r.backoff != w.backoff {
        MarkKeepsSpacing(w.backoff, a, times, turn);
      }
    }
  }

  lemma EventKeepsSpacing(s: System, e: Event, a: Account)
    requires Happens(s, e) && Paced(e, a, Gap(s.world.backoff)) && 1 <= s.world.backoff.base
    requires DelayOk(s.world.backoff, a, SeenBy(s, a)) && SpacedOk(s.world.backoff, a, InsertsOf(s, a), s.clock)
    ensures SpacedOk(After1(s, e).world.backoff, a, InsertsOf(After1(s, e), a), After1(s, e).clock)
  {
    var b, outs, times := s.world.backoff, SeenBy(After1(s, e), a), InsertsOf(s, a);
    if NotAbout(e, a) {
      EventFrames(s, e, a);
    } else {
      AfterTurn(s, e);
      if !e.turn.fault.LatestFails? {
        var w := World(s.world.table, Observed(b, a, e.latest, e.turn.observedAt));
        ObserveKeepsDelay(b, a, SeenBy(s, a), e.turn, e.latest);
        DelayIsAGap(w.backoff, a, outs);
        ObserveKeepsSpacing(b, a, times, s.clock, e.latest, e.turn.observedAt);
        PlaceKeepsSpacing(w, a, times, e.now, e.runAt, e.turn);
      }
    }
  }

  lemma {:induction false} HistoryKeepsSpacing(s: System, events: seq<Event>, s': System, a: Account)
    requires History(s, events, s') && AllPaced(events, a, Gap(s.world.backoff)) && 1 <= s.world.backoff.base
    requires DelayOk(s.world.backoff, a, SeenBy(s, a)) && SpacedOk(s.world.backoff, a, InsertsOf(s, a), s.clock)
    ensures SpacedOk(s'.world.backoff, a, InsertsOf(s', a), s'.clock)
    ensures s'.world.backoff.base == s.world.backoff.base && DelayOk(s'.world.backoff, a, SeenBy(s', a))
    decreases |events|
  {
    if events != [] {
      assert Paced(events[0], a, Gap(s.world.backoff));
      EventKeepsSpacing(s, events[0], a);
      EventKeepsDelay(s, events[0], a);
      EventKeepsBase(s, events[0]);
      HistoryKeepsSpacing(After1(s, events[0]), events[1..], s', a);
    }
  }

  function GapFor(secs: nat): nat { Min(if secs < 1 then 1 else secs, 3600) }

  /** Any two rows ticks insert for one account are at least min(base, 3600) apart,
      unless an insert landed with an error in less than that. */
  lemma EnqueuesAreSpaced(secs: nat, at: int, events: seq<Event>, s: System, a: Account, i: nat, j: nat)
    requires History(Start(secs, at), events, s) && AllPaced(events, a, GapFor(secs)) && i < j < |InsertsOf(s, a)|
    ensures InsertsOf(s, a)[j] - InsertsOf(s, a)[i] >= GapFor(secs)
  {
    HistoryKeepsSpacing(Start(secs, at), events, s, a);
  }

  /** A stamp no finished row of `a` bears a later one than. */
  function StampAbove(t: Table, latest: Option<Ending>, at: int): int {
    if latest.Some? && latest.value.job in t && at <= t[latest.value.job].updatedAt
    then t[latest.value.job].updatedAt + 1
    else at
  }

  /** The landed row is done by the time the tick's error comes back. */
  function Done(s: System, e: Event): Event
    requires e.Turned?
  {
    var row := NewSync(e.a, e.turn, e.runAt);
    var stamp := StampAbove(s.world.table, e.latest, e.turn.markedAt);
    Others(s.world.table[e.turn.id := row.(status := Completed, updatedAt := stamp)], e.turn.markedAt)
  }

  /** A turn that follows at once. */
  function Again(e: Event, id: JobId): Event
    requires e.Turned?
  {
    var at := e.turn.markedAt;
    Turned(e.a, at, e.runAt, Turn(e.turn.user, id, at, at, at, NoFault), Some(Ending(e.turn.id, Completed)))
  }

  /** What a turn that landed with an error leaves: a row, no mark, and the account due. */
  lemma Landed(s: System, e: Event)
    requires Happens(s, e) && Inserts(s.world, e) && e.turn.fault == InsertFails(true)
    ensures var w' := After1(s, e).world;
            && w'.table == s.world.table[e.turn.id := NewSync(e.a, e.turn, e.runAt)]
            && DueNow(w'.backoff, e.a, e.now) && !HasQueued(s.world.table, e.a)
            && (e.latest.Some? ==> w'.backoff == Observed(s.world.backoff, e.a, e.latest, e.turn.observedAt))
  {
  }

  lemma DoneIsNewest(s: System, e: Event)
    requires Happens(s, e) && e.Turned?
    ensures Newest(Done(s, e).table, e.a, Some(Ending(e.turn.id, Completed)))
  {
    var t, t' := s.world.table, Done(s, e).table;
    assert Ended(t', e.a, e.turn.id);
    forall j | Ended(t', e.a, j)
      ensures !StampedAfter(t', j, e.turn.id)
    {
      if j != e.turn.id {
        assert Ended(t, e.a, j) && e.latest.Some? && !StampedAfter(t, j, e.latest.value.job);
      }
    }
  }

  lemma NoneQueuedWhenDone(s: System, e: Event)
    requires e.Turned? && !HasQueued(s.world.table, e.a)
    ensures !HasQueued(Done(s, e).table, e.a)
  {
    var t' := Done(s, e).table;
    forall id
      ensures !Queued(t', e.a, id)
    {
      assert !Queued(s.world.table, e.a, id);
    }
  }

  lemma DoneHappens(s: System, e: Event)
    requires Happens(s, e) && Inserts(s.world, e) && e.turn.fault == InsertFails(true)
    ensures Happens(After1(s, e), Done(s, e))
  {
    Landed(s, e);
  }

  /** With its job done the account is due at once, whatever the tick was told. */
  lemma AgainInserts(s: System, e: Event, id: JobId)
    requires e.Turned? && e.now <= e.turn.markedAt && id !in s.world.table && DueNow(s.world.backoff, e.a, e.now)
    requires s.clock == e.turn.markedAt && !HasQueued(s.world.table, e.a)
    requires Newest(s.world.table, e.a, Some(Ending(e.turn.id, Completed)))
    ensures Happens(s, Again(e, id)) && Inserts(s.world, Again(e, id))
    ensures InsertsOf(After1(s, Again(e, id)), e.a) == InsertsOf(s, e.a) + [e.turn.markedAt]
  {
    assert id in Result1(s.world, Again(e, id)).world.table;
  }

  /** From any state: after an insert of `e` that lands with an error, its job may
      be done and the next row come at the very moment the error comes back, which
      is unspaced when that is less than a gap after the first row. */
  lemma LandedErrorIsUnspaced(s: System, e: Event, id: JobId)
    requires Happens(s, e) && Inserts(s.world, e) && e.turn.fault == InsertFails(true)
    requires id !in s.world.table && id != e.turn.id
    ensures var s1 := After1(s, e); var s2 := After1(s1, Done(s, e)); var s3 := After1(s2, Again(e, id));
            && History(s1, [Done(s, e), Again(e, id)], s3)
            && InsertsOf(s3, e.a) == InsertsOf(s, e.a) + [e.turn.insertedAt] + [e.turn.markedAt]
            && forall gap: nat | e.turn.markedAt - e.turn.insertedAt < gap :: !Spaced(InsertsOf(s3, e.a), gap)
  {
    var s1, done, again := After1(s, e), Done(s, e), Again(e, id);
    var s2 := After1(s1, done);
    Landed(s, e);
    DoneHappens(s, e);
    DoneIsNewest(s, e);
    NoneQueuedWhenDone(s, e);
    AgainInserts(s2, e, id);
    TwoEvents(s1, done, again);
    var n, times := |InsertsOf(s, e.a)|, InsertsOf(After1(s2, again), e.a);
    assert times[n] == e.turn.insertedAt && times[n + 1] == e.turn.markedAt;
  }

  lemma TwoEvents(s: System, e1: Event, e2: Event)
    ensures var s1 := After1(s, e1);
            History(s, [e1, e2], After1(s1, e2)) <==> Happens(s, e1) && Happens(s1, e2)
  {
    var s1 := After1(s, e1);
    assert History(s1, [e2], After1(s1, e2)) <==> Happens(s1, e2);
    assert [e1, e2][1..] == [e2];
  }

  lemma UnspacedFollows(s: System, e: Event, gap: nat)
    requires Happens(s, e) && Inserts(s.world, e) && !Paced(e, e.a, gap)
    ensures exists more, s' ::
              AllPaced(more, e.a, gap) && History(After1(s, e), more, s') && !Spaced(InsertsOf(s', e.a), gap)
  {
    var id := AboveAll(s.world.table.Keys + {e.turn.id});
    LandedErrorIsUnspaced(s, e, id);
    assert AllPaced([Done(s, e), Again(e, id)], e.a, gap);
  }

  lemma PacedTurnKeepsSpacing(s: System, e: Event, a: Account, more: seq<Event>, s': System)
    requires Happens(s, e) && Paced(e, a, Gap(s.world.backoff)) && 1 <= s.world.backoff.base
    requires DelayOk(s.world.backoff, a, SeenBy(s, a)) && SpacedOk(s.world.backoff, a, InsertsOf(s, a), s.clock)
    requires AllPaced(more, a, Gap(s.world.backoff)) && History(After1(s, e), more, s')
    ensures Spaced(InsertsOf(s', a), Gap(s.world.backoff))
  {
    EventKeepsSpacing(s, e, a);
    EventKeepsDelay(s, e, a);
    EventKeepsBase(s, e);
    HistoryKeepsSpacing(After1(s, e), more, s', a);
  }

  /** The exact condition: all that can follow a turn's insert stays spaced just when
      the insert did not land with an error, or took the tick at least a gap. */
  lemma SpacingIff(secs: nat, at: int, events: seq<Event>, s: System, e: Event)
    requires e.Turned? && History(Start(secs, at), events, s) && AllPaced(events, e.a, GapFor(secs))
    requires Happens(s, e) && Inserts(s.world, e)
    ensures (forall more, s' | AllPaced(more, e.a, GapFor(secs)) && History(After1(s, e), more, s') ::
               Spaced(InsertsOf(s', e.a), GapFor(secs))) <==>
            Paced(e, e.a, GapFor(secs))
  {
    HistoryKeepsSpacing(Start(secs, at), events, s, e.a);
    if Paced(e, e.a, GapFor(secs)) {
      forall more, s' | AllPaced(more, e.a, GapFor(secs)) && History(After1(s, e), more, s')
        ensures Spaced(InsertsOf(s', e.a), GapFor(secs))
      {
        PacedTurnKeepsSpacing(s, e, e.a, more, s');
      }
    } else {
      UnspacedFollows(s, e, GapFor(secs));
    }
  }

  // ── a tick as a history ──────────────────────────────────────────────

  /** The turns a tick takes, up to the first that fails. */
  ghost function TickEvents(w: World, e: Engine, accounts: seq<Account>, turns: seq<Turn>, now: int,
                            runAt: int): seq<Event>
    requires |accounts| == |turns|
    decreases |accounts|
  {
    if accounts == [] then []
    else
      var latest := LatestBy(e, w.table, accounts[0]);
      var r := TickAccount(w, accounts[0], now, runAt, turns[0], latest);
      [Turned(accounts[0], now, runAt, turns[0], latest)] +
      if r.result.Errored? then [] else TickEvents(r.world, e, accounts[1..], turns[1..], now, runAt)
  }

  /** The state these events lead to. */
  ghost function Play(s: System, events: seq<Event>): System
    decreases |events|
  {
    if events == [] then s else Play(After1(s, events[0]), events[1..])
  }

  /** The clock readings of a tick come in order. */
  predicate InOrder(clock: int, now: int, turns: seq<Turn>)
    decreases |turns|
  {
    turns != [] ==>
      && clock <= turns[0].observedAt && now <= turns[0].observedAt <= turns[0].insertedAt <= turns[0].markedAt
      && InOrder(turns[0].markedAt, now, turns[1..])
  }

  /** A tick is a history of turns, one for each account until a database call
      fails, whatever the order the engine lists ties in. */
  lemma {:induction false} TickIsHistory(s: System, e: Engine, accounts: seq<Account>, turns: seq<Turn>, now: int,
                                         runAt: int)
    requires Answers(e) && |accounts| == |turns| && NewIds(s.world.table, turns) && InOrder(s.clock, now, turns)
    ensures var events := TickEvents(s.world, e, accounts, turns, now, runAt);
            var tick := TickAll(s.world, e, accounts, turns, now, runAt);
            && OnlyTurns(events) && |events| <= |accounts| && (tick.ok ==> |events| == |accounts|)
            && (forall i | 0 <= i < |events| :: events[i].a == accounts[i] && events[i].turn == turns[i])
            && History(s, events, Play(s, events)) && Play(s, events).world == tick.world
    decreases |accounts|
  {
    if accounts != [] {
      var a, latest := accounts[0], LatestBy(e, s.world.table, accounts[0]);
      var event := Turned(a, now, runAt, turns[0], latest);
      var s1 := After1(s, event);
      FirstListedIsNewest(s.world.table, a, e.ended(s.world.table));
      assert Happens(s, event);
      if Result1(s.world, event).result.Errored? {
        OneEvent(s, event);
      } else {
        NewIdsLeft(s, event, turns);
        var rest := TickEvents(s1.world, e, accounts[1..], turns[1..], now, runAt);
        TickIsHistory(s1, e, accounts[1..], turns[1..], now, runAt);
        FirstEvent(s, event, rest);
      }
    }
  }

  /** The number a tick reports is the number of rows it added. */
  lemma {:induction false} TickCountsRows(w: World, e: Engine, accounts: seq<Account>, turns: seq<Turn>, now: int,
                                          runAt: int)
    requires |accounts| == |turns| && NewIds(w.table, turns)
    ensures var tick := TickAll(w, e, accounts, turns, now, runAt);
            tick.ok ==> |tick.world.table| == |w.table| + tick.enqueued
    decreases |accounts|
  {
    if accounts != [] {
      var r := TickAccount(w, accounts[0], now, runAt, turns[0], LatestBy(e, w.table, accounts[0]));
      if !r.result.Errored? {
        assert r.world.table.Keys == if r.result.Enqueued? then w.table.Keys + {turns[0].id} else w.table.Keys;
        TickCountsRows(r.world, e, accounts[1..], turns[1..], now, runAt);
        assert |w.table| == |w.table.Keys| && |r.world.table| == |r.world.table.Keys|;
      }
    }
  }

  lemma OneEvent(s: System, e: Event)
    ensures Play(s, [e]) == After1(s, e) && (History(s, [e], After1(s, e)) <==> Happens(s, e))
  {
    assert [e][1..] == [];
  }

  lemma FirstEvent(s: System, e: Event, rest: seq<Event>)
    ensures Play(s, [e] + rest) == Play(After1(s, e), rest)
    ensures forall s' :: History(s, [e] + rest, s') <==> Happens(s, e) && History(After1(s, e), rest, s')
  {
    assert ([e] + rest)[1..] == rest;
  }

  lemma NewIdsLeft(s: System, e: Event, turns: seq<Turn>)
    requires e.Turned? && turns != [] && NewIds(s.world.table, turns) && e.turn == turns[0]
    ensures NewIds(After1(s, e).world.table, turns[1..])
  {
    assert After1(s, e).world.table.Keys <= s.world.table.Keys + {turns[0].id};
  }

  // ── at most one queued job ───────────────────────────────────────────

  ghost predicate AtMostOneQueued(t: Table, a: Account) {
    forall i, j | Queued(t, a, i) && Queued(t, a, j) :: i == j
  }

  /** A turn never queues a second sync job for any account. */
  lemma TurnKeepsAtMostOneQueued(w: World, a: Account, now: int, runAt: int, turn: Turn, latest: Option<Ending>,
                                 b: Account)
    requires turn.id !in w.table && AtMostOneQueued(w.table, b)
    ensures AtMostOneQueued(TickAccount(w, a, now, runAt, turn, latest).world.table, b)
  {
    var t' := TickAccount(w, a, now, runAt, turn, latest).world.table;
    if t' != w.table {
      assert !HasQueued(w.table, a);
      assert forall id | id != turn.id :: Queued(t', b, id) == Queued(w.table, b, id);
    }
  }

  /** A whole tick neither, however many accounts it visits. */
  lemma {:induction false} TickKeepsAtMostOneQueued(w: World, e: Engine, accounts: seq<Account>, turns: seq<Turn>,
                                                    now: int, runAt: int, b: Account)
    requires |accounts| == |turns| && AtMostOneQueued(w.table, b) && NewIds(w.table, turns)
    ensures AtMostOneQueued(TickAll(w, e, accounts, turns, now, runAt).world.table, b)
    decreases |accounts|
  {
    if accounts != [] {
      var latest := LatestBy(e, w.table, accounts[0]);
      var r := TickAccount(w, accounts[0], now, runAt, turns[0], latest);
      TurnKeepsAtMostOneQueued(w, accounts[0], now, runAt, turns[0], latest, b);
      if !r.result.Errored? {
        assert r.world.table.Keys <= w.table.Keys + {turns[0].id};
        TickKeepsAtMostOneQueued(r.world, e, accounts[1..], turns[1..], now, runAt, b);
      }
    }
  }
}
