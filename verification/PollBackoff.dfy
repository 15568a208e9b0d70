/** When the scheduler polls an account again: over every history, an observed
    failure and an enqueue hold the account back for exactly its delay. */
module PollBackoff {
  import opened Base
  import opened JobTable
  import opened PollScheduler
  import WorkerPool

  /** This turn observes an outcome it has not applied yet. */
  predicate Observes(s: System, e: Event, failed: bool) {
    && e.Turned? && News(s.world.backoff, e.a, e.turn, e.latest).Some?
    && News(s.world.backoff, e.a, e.turn, e.latest).value.failed == failed
  }

  ghost predicate Enqueues(s: System, e: Event) { e.Turned? && Result1(s.world, e).result.Enqueued? }

  /** This event sets when `a` is due: a failure observed, or a row enqueued. */
  ghost predicate Sets(s: System, e: Event, a: Account) {
    e.Turned? && e.a == a && (Observes(s, e, true) || Enqueues(s, e))
  }

  /** Nothing in this history sets when `a` is due. */
  ghost predicate Quiet(s: System, events: seq<Event>, a: Account)
    decreases |events|
  {
    events != [] ==> !Sets(s, events[0], a) && Quiet(After1(s, events[0]), events[1..], a)
  }

  /** When `a` is due next, if it ever had to wait. */
  function DueAt(s: System, a: Account): Option<int> {
    if a in s.world.backoff.nextDue then Some(s.world.backoff.nextDue[a]) else None
  }

  /** The database calls of a turn go well enough to insert a row. */
  predicate CanInsert(fault: Fault) { fault == NoFault || fault == InsertFails(true) }

  // ── when a turn inserts ──────────────────────────────────────────────

  /** Exactly then: the account is due once the outcome is applied, and not queued. */
  lemma InsertsWhenDue(w: World, e: Event)
    requires e.Turned? && e.turn.id !in w.table
    ensures Inserts(w, e) <==>
            && CanInsert(e.turn.fault) && !HasQueued(w.table, e.a)
            && DueNow(Observed(w.backoff, e.a, e.latest, e.turn.observedAt), e.a, e.now)
  {
    var seen := World(w.table, Observed(w.backoff, e.a, e.latest, e.turn.observedAt));
    assert Inserts(w, e) ==> e.turn.id in Result1(w, e).world.table;
    assert Place(seen, e.a, e.now, e.runAt, e.turn).world.table == w.table ||
           e.turn.id in Place(seen, e.a, e.now, e.runAt, e.turn).world.table;
  }

  lemma ObserveKeepsDue(b: BackoffState, a: Account, turn: Turn, latest: Option<Ending>)
    requires News(b, a, turn, latest).None? || !News(b, a, turn, latest).value.failed
    requires !turn.fault.LatestFails?
    ensures Observed(b, a, latest, turn.observedAt).nextDue == b.nextDue
  {
  }

  lemma QuietTurnKeepsDue(s: System, e: Event, a: Account)
    requires !Sets(s, e, a)
    ensures DueAt(After1(s, e), a) == DueAt(s, a)
  {
    if NotAbout(e, a) {
      EventFrames(s, e, a);
    } else if !e.turn.fault.LatestFails? {
      ObserveKeepsDue(s.world.backoff, a, e.turn, e.latest);
    }
  }

  lemma {:induction false} QuietKeepsDue(s: System, events: seq<Event>, s': System, a: Account)
    requires History(s, events, s') && Quiet(s, events, a)
    ensures DueAt(s', a) == DueAt(s, a)
    decreases |events|
  {
    if events != [] {
      QuietTurnKeepsDue(s, events[0], a);
      QuietKeepsDue(After1(s, events[0]), events[1..], s', a);
    }
  }

  /** With a due time known, a turn that observes no new failure inserts exactly
      from then on. */
  lemma InsertsFrom(s: System, e: Event, due: int)
    requires Happens(s, e) && e.Turned? && DueAt(s, e.a) == Some(due) && !Observes(s, e, true)
    ensures Inserts(s.world, e) <==> CanInsert(e.turn.fault) && due <= e.now && !HasQueued(s.world.table, e.a)
  {
    InsertsWhenDue(s.world, e);
    if !e.turn.fault.LatestFails? {
      ObserveKeepsDue(s.world.backoff, e.a, e.turn, e.latest);
    }
  }

  // ── a failure ────────────────────────────────────────────────────────

  lemma FailureSetsDue(b: BackoffState, a: Account, e: Ending, at: int)
    requires e.status == Failed && !(a in b.applied && b.applied[a] == e.job)
    ensures var b' := Observe(b, a, e.job, e.status, at); a in b'.nextDue && b'.nextDue[a] == at + DelayOf(b', a)
  {
  }

  /** A turn that observes a failure inserts nothing: the delay starts now. */
  lemma FailureTurnWaits(s: System, e: Event)
    requires Happens(s, e) && Observes(s, e, true) && 1 <= s.world.backoff.base
    requires DelayOk(s.world.backoff, e.a, SeenBy(s, e.a))
    ensures DueAt(After1(s, e), e.a) == Some(e.turn.observedAt + DelayOf(After1(s, e).world.backoff, e.a))
    ensures !Inserts(s.world, e)
  {
    var b, a, at := s.world.backoff, e.a, e.turn.observedAt;
    ObserveKeepsDelay(b, a, SeenBy(s, a), e.turn, e.latest);
    FailureSetsDue(b, a, e.latest.value, at);
    InsertsWhenDue(s.world, e);
    DelayIsAGap(Observed(b, a, e.latest, at), a, WithNews(SeenBy(s, a), News(b, a, e.turn, e.latest)));
  }

  lemma ReachedDelays(secs: nat, at: int, events: seq<Event>, s: System, e: Event)
    requires History(Start(secs, at), events, s) && Happens(s, e) && e.Turned?
    ensures var base, k := if secs < 1 then 1 else secs, TrailingFails(SeenBy(After1(s, e), e.a));
            && DelayOk(s.world.backoff, e.a, SeenBy(s, e.a)) && s.world.backoff.base == base
            && DelayOf(After1(s, e).world.backoff, e.a) ==
               if k == 0 then base else Min(base * WorkerPool.Doubled(k), 3600)
  {
    HistoryKeepsDelay(Start(secs, at), events, s, e.a);
    EventKeepsDelay(s, e, e.a);
    EventKeepsBase(s, e);
    ExpectedIs(if secs < 1 then 1 else secs, TrailingFails(SeenBy(After1(s, e), e.a)));
  }

  lemma ObservedIsCounted(s: System, e: Event)
    requires e.Turned? && e.turn.id !in s.world.table && Observes(s, e, true)
    ensures TrailingFails(SeenBy(After1(s, e), e.a)) >= 1
  {
    AfterTurn(s, e);
    TrailingGrows(SeenBy(s, e.a), News(s.world.backoff, e.a, e.turn, e.latest).value);
  }

  /** Exponential backoff: after the k-th failure since a success, observed at t, a
      turn of the account inserts nothing before t + min(base·2^k, 3600), and from
      then on inserts whenever nothing is queued, until the next failure or enqueue. */
  lemma FailureBacksOff(secs: nat, at: int, before: seq<Event>, s: System, e: Event, more: seq<Event>, s': System,
                        next: Event)
    requires History(Start(secs, at), before, s) && Happens(s, e) && Observes(s, e, true)
    requires History(After1(s, e), more, s') && Quiet(After1(s, e), more, e.a)
    requires Happens(s', next) && next.Turned? && next.a == e.a && !Observes(s', next, true)
    ensures var base, k := if secs < 1 then 1 else secs, TrailingFails(SeenBy(After1(s, e), e.a));
            && k >= 1 && !Inserts(s.world, e)
            && (Inserts(s'.world, next) <==>
                  && CanInsert(next.turn.fault) && !HasQueued(s'.world.table, e.a)
                  && e.turn.observedAt + Min(base * WorkerPool.Doubled(k), 3600) <= next.now)
  {
    ReachedDelays(secs, at, before, s, e);
    ObservedIsCounted(s, e);
    FailureHolds(s, e, more, s', next);
  }

  lemma FailureHolds(s: System, e: Event, more: seq<Event>, s': System, next: Event)
    requires e.Turned? && DelayOk(s.world.backoff, e.a, SeenBy(s, e.a)) && 1 <= s.world.backoff.base
    requires Happens(s, e) && Observes(s, e, true)
    requires History(After1(s, e), more, s') && Quiet(After1(s, e), more, e.a)
    requires Happens(s', next) && next.Turned? && next.a == e.a && !Observes(s', next, true)
    ensures !Inserts(s.world, e)
    ensures Inserts(s'.world, next) <==>
            && CanInsert(next.turn.fault) && !HasQueued(s'.world.table, e.a)
            && e.turn.observedAt + DelayOf(After1(s, e).world.backoff, e.a) <= next.now
  {
    FailureTurnWaits(s, e);
    QuietKeepsDue(After1(s, e), more, s', e.a);
    InsertsFrom(s', next, e.turn.observedAt + DelayOf(After1(s, e).world.backoff, e.a));
  }

  // ── an enqueue ───────────────────────────────────────────────────────

  lemma EnqueueSetsDue(s: System, e: Event)
    requires Enqueues(s, e)
    ensures DueAt(After1(s, e), e.a) == Some(e.turn.markedAt + DelayOf(After1(s, e).world.backoff, e.a))
  {
  }

  /** After an enqueue marked at t the next row comes no earlier than t plus the
      delay, and from then on whenever nothing is queued, until the next failure. */
  lemma EnqueueBacksOff(secs: nat, at: int, before: seq<Event>, s: System, e: Event, more: seq<Event>, s': System,
                        next: Event)
    requires History(Start(secs, at), before, s) && Happens(s, e) && Enqueues(s, e)
    requires History(After1(s, e), more, s') && Quiet(After1(s, e), more, e.a)
    requires Happens(s', next) && next.Turned? && next.a == e.a && !Observes(s', next, true)
    ensures var base, k := if secs < 1 then 1 else secs, TrailingFails(SeenBy(After1(s, e), e.a));
            var delay := if k == 0 then base else Min(base * WorkerPool.Doubled(k), 3600);
            Inserts(s'.world, next) <==>
            CanInsert(next.turn.fault) && !HasQueued(s'.world.table, e.a) && e.turn.markedAt + delay <= next.now
  {
    ReachedDelays(secs, at, before, s, e);
    EnqueueHolds(s, e, more, s', next);
  }

  lemma EnqueueHolds(s: System, e: Event, more: seq<Event>, s': System, next: Event)
    requires Happens(s, e) && Enqueues(s, e)
    requires History(After1(s, e), more, s') && Quiet(After1(s, e), more, e.a)
    requires Happens(s', next) && next.Turned? && next.a == e.a && !Observes(s', next, true)
    ensures Inserts(s'.world, next) <==>
            && CanInsert(next.turn.fault) && !HasQueued(s'.world.table, e.a)
            && e.turn.markedAt + DelayOf(After1(s, e).world.backoff, e.a) <= next.now
  {
    EnqueueSetsDue(s, e);
    QuietKeepsDue(After1(s, e), more, s', e.a);
    InsertsFrom(s', next, e.turn.markedAt + DelayOf(After1(s, e).world.backoff, e.a));
  }

  /** An account that never failed and was never enqueued is polled at once. */
  lemma NewAccountIsPolled(secs: nat, at: int, events: seq<Event>, s: System, next: Event)
    requires History(Start(secs, at), events, s) && Happens(s, next) && next.Turned?
    requires Quiet(Start(secs, at), events, next.a) && !Observes(s, next, true)
    ensures Inserts(s.world, next) <==> CanInsert(next.turn.fault) && !HasQueued(s.world.table, next.a)
  {
    QuietKeepsDue(Start(secs, at), events, s, next.a);
    InsertsWhenDue(s.world, next);
    if !next.turn.fault.LatestFails? {
      ObserveKeepsDue(s.world.backoff, next.a, next.turn, next.latest);
    }
  }

  // ── what is inserted ─────────────────────────────────────────────────

  /** The row a turn inserts: a sync of this account for its user, due at the tick's
      time, created when it was inserted, and the first of its id. */
  lemma InsertedIsSync(w: World, e: Event)
    requires Inserts(w, e) && e.turn.id !in w.table
    ensures var t := Result1(w, e).world.table;
            && t.Keys == w.table.Keys + {e.turn.id}
            && t[e.turn.id].payload == SyncAccount(e.a, e.turn.user) && t[e.turn.id].attempts == 0
            && t[e.turn.id].createdAt == e.turn.insertedAt
            && (forall at :: Due(t, at, e.turn.id) <==> e.runAt <= at)
            && forall id | id in w.table :: t[id] == w.table[id]
  {
    InsertsWhenDue(w, e);
  }
}
