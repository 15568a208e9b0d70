/** What a finished job says about the work done for it: over every run of the
    pool, a row's last status is the outcome its task was told. */
module PoolOutcomes {
  import opened Base
  import opened JobTable
  import opened WorkerPool

  /** What a task was last told about its job: by the sync, by the send plugin, or
      by work that settles the job in one step. */
  datatype Report = Synced(ok: bool) | Sent(ok: bool, transient: bool) | Settled(ok: bool)

  type Log = map<JobId, Report>

  function ReportOf(step: TaskStep): Option<Report> {
    match step
    case SyncReturns(ok) => Some(Synced(ok))
    case PluginReturns(ok, transient) => Some(Sent(ok, transient))
    case Settle(ok) => Some(Settled(ok))
    case _ => None
  }

  function Told(s: State, a: Action, log: Log): Log {
    if a.Move? && a.w in s.workers && ReportOf(a.step).Some? then log[s.workers[a.w].job := ReportOf(a.step).value]
    else log
  }

  /** The reports of a run, the last one for each job. */
  ghost function LogOf(s: State, acts: seq<Action>, s': State, log: Log): Log
    requires Runs(s, acts, s')
    decreases |acts|
  {
    if acts == [] then log else LogOf(Apply(s, acts[0]), acts[1..], s', Told(s, acts[0], log))
  }

  function Last(log: Log, id: JobId): Option<Report> { if id in log then Some(log[id]) else None }

  /** Seconds a send waits after its first and its second transient error. */
  function Wait(attempts: nat): nat { if attempts == 0 then 30 else 60 }

  /** The report that leads to each write, for a job with so many attempts spent. */
  predicate Leads(p: Payload, last: Option<Report>, attempts: nat, w: Write) {
    match p
    case SyncAccount(_, _) => w == Revert || (w == Complete && last == Some(Synced(true))) ||
                              (w == Fail && last == Some(Synced(false)))
    case SendMessage(_, _) =>
      && last.Some?
      && (|| (w == Complete && last.value.Sent? && last.value.ok)
          || (w == Fail && last.value == Settled(false))
          || (w == Fail && last.value == Sent(false, false))
          || (w == Fail && last.value == Sent(false, true) && attempts >= 2)
          || (attempts < 2 && last.value == Sent(false, true) && w == Reschedule(Wait(attempts))))
    case UnsnoozeMessage(_) => w == Complete && last == Some(Settled(true))
    case Backup(_) => last == Some(Settled(w == Complete)) && (w == Complete || w == Fail)
    case Unreadable => false
  }

  /** What a task knows is what it was last told. */
  predicate Knows(k: Worker, last: Option<Report>, attempts: nat) {
    match k.pc
    case Leaving(ok) => k.payload.SyncAccount? && last == Some(Synced(ok))
    case Deciding(transient) => k.payload.SendMessage? && last == Some(Sent(false, transient))
    case Writing(w) => Leads(k.payload, last, attempts, w)
    case _ => true
  }

  /** A finished row bears the outcome last told. */
  predicate Bears(r: Row, last: Option<Report>) {
    && (r.status == Completed ==> Leads(r.payload, last, r.attempts, Complete))
    && (r.status == Failed ==> r.attempts >= 1 && Leads(r.payload, last, r.attempts - 1, Fail))
  }

  ghost predicate RowsBear(t: Table, log: Log) { forall id | id in t :: Bears(t[id], Last(log, id)) }

  ghost predicate TasksKnow(t: Table, ws: Workers, log: Log) {
    forall w | w in ws :: ws[w].job in t && Knows(ws[w], Last(log, ws[w].job), t[ws[w].job].attempts)
  }

  ghost predicate Truthful(s: State, log: Log) { RowsBear(s.table, log) && TasksKnow(s.table, s.workers, log) }

  // ── every step keeps it ──────────────────────────────────────────────

  lemma VerdictIs(attempts: nat, transient: bool)
    ensures SendVerdict(attempts, transient) == if transient && attempts < 2 then Reschedule(Wait(attempts)) else Fail
  {
    assert Doubled(0) == 1 && Doubled(1) == 2;
  }

  lemma TaskStepKnows(k: Worker, step: TaskStep, inflight: set<Account>, attempts: nat, last: Option<Report>)
    requires TaskEnabled(k, step) && Knows(k, last, attempts)
    ensures var told := ReportOf(step);
            Knows(k.(pc := TaskNext(k, step, inflight, attempts)), if told.Some? then told else last, attempts)
  {
    if step.Decide? {
      VerdictIs(attempts, k.pc.transient);
    }
  }

  lemma MoveKeepsTruth(s: State, w: WorkerId, step: TaskStep, log: Log)
    requires Truthful(s, log) && OneTaskPerRow(s.table, s.workers) && Enabled(s, Move(w, step))
    ensures Truthful(Apply(s, Move(w, step)), Told(s, Move(w, step), log))
  {
    var k, s', log' := s.workers[w], Apply(s, Move(w, step)), Told(s, Move(w, step), log);
    TaskStepKnows(k, step, s.inflight, s.table[k.job].attempts, Last(log, k.job));
    forall v | v in s'.workers
      ensures Knows(s'.workers[v], Last(log', s'.workers[v].job), s.table[s'.workers[v].job].attempts)
    {
      if v != w {
        assert !SameJob(s.workers[v], s.workers[w]);
      }
    }
    forall id | id in s.table
      ensures Bears(s.table[id], Last(log', id))
    {
      assert id == k.job ==> RunsIn(s.table, id);
    }
  }

  lemma WriteBears(r: Row, w: Write, now: int, last: Option<Report>)
    requires Leads(r.payload, last, r.attempts, w)
    ensures Bears(WriteRow(r, w, now), last)
  {
  }

  lemma WriteKeepsTruth(s: State, w: WorkerId, now: int, log: Log)
    requires Truthful(s, log) && OneTaskPerRow(s.table, s.workers) && w in s.workers && s.workers[w].pc.Writing?
    ensures Truthful(Retire(s, w, now), log)
  {
    var k, s' := s.workers[w], Retire(s, w, now);
    WriteBears(s.table[k.job], k.pc.w, now, Last(log, k.job));
    forall v | v in s'.workers
      ensures s'.workers[v].job in s'.table && s'.table[s'.workers[v].job] == s.table[s.workers[v].job]
    {
      assert !SameJob(s.workers[v], s.workers[w]);
    }
  }

  /** A row put to pending or running, attempts as they were, promises nothing. */
  lemma OpenRowKeepsTruth(t: Table, ws: Workers, log: Log, id: JobId, r: Row)
    requires RowsBear(t, log) && TasksKnow(t, ws, log) && !Terminal(r)
    requires id in t ==> r.attempts == t[id].attempts
    ensures RowsBear(t[id := r], log) && TasksKnow(t[id := r], ws, log)
  {
  }

  lemma ClaimKeepsTruth(s: State, a: Action, log: Log)
    requires Truthful(s, log) && Enabled(s, a) && (a.Enqueue? || a.Cas? || a.CasError?)
    ensures Truthful(Apply(s, a), log)
  {
    if a.Enqueue? {
      OpenRowKeepsTruth(s.table, s.workers, log, a.id, NewRow(a.payload, a.runAt, a.now));
    } else {
      OpenRowKeepsTruth(s.table, s.workers, log, s.poller.id, ClaimRow(s.table[s.poller.id], a.now));
    }
  }

  lemma RestartKeepsTruth(s: State, a: Action, log: Log)
    requires Truthful(s, log) && Enabled(s, a) && PollerSane(s) && (a.Crash? || a.Boot?)
    ensures Truthful(Apply(s, a), log)
  {
    if a.Boot? {
      forall id | id in s.table
        ensures id in Reclaim(s.table, a.now) && Bears(Reclaim(s.table, a.now)[id], Last(log, id))
      {
        assert Bears(s.table[id], Last(log, id));
      }
    }
  }

  lemma StepKeepsTruth(s: State, a: Action, log: Log)
    requires Inv(s) && Truthful(s, log) && Enabled(s, a)
    ensures Truthful(Apply(s, a), Told(s, a, log))
  {
    match a {
      case Move(w, step) => MoveKeepsTruth(s, w, step, log);
      case Commit(w, now) => WriteKeepsTruth(s, w, now, log);
      case CommitError(w, _, now) => WriteKeepsTruth(s, w, now, log);
      case Enqueue(_, _, _, _) => ClaimKeepsTruth(s, a, log);
      case Cas(_, _) => ClaimKeepsTruth(s, a, log);
      case CasError(_, _) => ClaimKeepsTruth(s, a, log);
      case Crash => RestartKeepsTruth(s, a, log);
      case Boot(_, _) => RestartKeepsTruth(s, a, log);
      case _ =>
    }
  }

  lemma {:induction false} RunKeepsTruth(s: State, acts: seq<Action>, s': State, log: Log)
    requires Inv(s) && Truthful(s, log) && Runs(s, acts, s')
    ensures Truthful(s', LogOf(s, acts, s', log))
    decreases |acts|
  {
    if acts != [] {
      StepKeepsInv(s, acts[0]);
      StepKeepsTruth(s, acts[0], log);
      RunKeepsTruth(Apply(s, acts[0]), acts[1..], s', Told(s, acts[0], log));
    }
  }

  // ── what a status means ──────────────────────────────────────────────

  ghost function Reports(n: nat, acts: seq<Action>, s: State): Log
    requires Runs(Init(n), acts, s)
  {
    LogOf(Init(n), acts, s, map[])
  }

  lemma ReachedBears(n: nat, acts: seq<Action>, s: State, id: JobId)
    requires Runs(Init(n), acts, s) && id in s.table
    ensures Bears(s.table[id], Last(Reports(n, acts, s), id))
  {
    InitInv(n);
    RunKeepsTruth(Init(n), acts, s, map[]);
  }

  /** A finished sync job is completed exactly when its last sync succeeded, and
      failed exactly when it did not. */
  lemma SyncStatusIsOutcome(n: nat, acts: seq<Action>, s: State, id: JobId)
    requires Runs(Init(n), acts, s) && id in s.table && s.table[id].payload.SyncAccount? && Terminal(s.table[id])
    ensures var last := Last(Reports(n, acts, s), id);
            && (s.table[id].status == Completed <==> last == Some(Synced(true)))
            && (s.table[id].status == Failed <==> last == Some(Synced(false)))
  {
    ReachedBears(n, acts, s, id);
  }

  /** A send job is completed only if the plugin took the message, and failed only
      if it was refused before the call, or the last error was not transient, or it
      was and the third attempt is spent. */
  lemma SendStatusIsOutcome(n: nat, acts: seq<Action>, s: State, id: JobId)
    requires Runs(Init(n), acts, s) && id in s.table && s.table[id].payload.SendMessage? && Terminal(s.table[id])
    ensures var r, last := s.table[id], Last(Reports(n, acts, s), id);
            && last.Some?
            && (r.status == Completed <==> last.value.Sent? && last.value.ok)
            && (r.status == Failed <==>
                  || last.value == Settled(false) || last.value == Sent(false, false)
                  || (last.value == Sent(false, true) && r.attempts == 3))
  {
    ReachedBears(n, acts, s, id);
    SendsAreBounded(n, acts, s);
  }

  /** A backup and a wake-up end as they settled. */
  lemma SettledStatusIsOutcome(n: nat, acts: seq<Action>, s: State, id: JobId)
    requires Runs(Init(n), acts, s) && id in s.table && Terminal(s.table[id])
    requires s.table[id].payload.Backup? || s.table[id].payload.UnsnoozeMessage?
    ensures Last(Reports(n, acts, s), id) == Some(Settled(s.table[id].status == Completed))
  {
    ReachedBears(n, acts, s, id);
  }

  // ── what an error leads to ───────────────────────────────────────────

  /** The first two transient errors of a send put it back, not due before 30 and 60
      seconds have passed; any other error, or a third, fails it for good. */
  lemma SendErrorIsHandled(s: State, w: WorkerId, now: int)
    requires Inv(s) && w in s.workers && s.workers[w].pc.Deciding? && s.workers[w].payload.SendMessage?
    ensures var k := s.workers[w];
            && Enabled(s, Move(w, Decide)) && Enabled(Apply(s, Move(w, Decide)), Commit(w, now))
            && var t, t' := s.table, Apply(Apply(s, Move(w, Decide)), Commit(w, now)).table;
            && k.job in t && k.job in t' && t'[k.job].attempts == t[k.job].attempts + 1
            && (k.pc.transient && t[k.job].attempts < 2 ==>
                  forall at :: Due(t', at, k.job) <==> now + (if t[k.job].attempts == 0 then 30 else 60) <= at)
            && (!(k.pc.transient && t[k.job].attempts < 2) ==> t'[k.job].status == Failed)
  {
    var k := s.workers[w];
    assert RunsIn(s.table, k.job);
    VerdictIs(s.table[k.job].attempts, k.pc.transient);
  }

  /** When an action writes to the table. */
  function TimeOf(a: Action): Option<int> {
    match a
    case Enqueue(_, _, _, now) => Some(now)
    case Cas(_, now) => Some(now)
    case CasError(_, now) => Some(now)
    case Commit(_, now) => Some(now)
    case CommitError(_, _, now) => Some(now)
    case Boot(_, now) => Some(now)
    case _ => None
  }

  /** Between the tables row `id` is new or changed, and does not bear this time. */
  predicate Unstamped(t: Table, t': Table, id: JobId, now: int) {
    id in t' && (id !in t || t'[id] != t[id]) && t'[id].updatedAt != now
  }

  lemma WriteStamps(t: Table, job: JobId, w: Write, now: int, id: JobId)
    ensures !Unstamped(t, WriteTable(t, job, w, now), id, now)
  {
  }

  lemma ReclaimStamps(t: Table, now: int, id: JobId)
    ensures !Unstamped(t, Reclaim(t, now), id, now)
  {
  }

  lemma RowStamps(t: Table, job: JobId, r: Row, id: JobId)
    ensures !Unstamped(t, t[job := r], id, r.updatedAt)
  {
  }

  /** Whatever a step changes of the table bears the time of the step. */
  lemma ChangedRowsAreStamped(s: State, a: Action, id: JobId)
    requires Enabled(s, a)
    ensures var t, t' := s.table, Apply(s, a).table;
            t' != t ==> TimeOf(a).Some? && !Unstamped(t, t', id, TimeOf(a).value)
  {
    match a {
      case Enqueue(job, payload, runAt, now) => RowStamps(s.table, job, NewRow(payload, runAt, now), id);
      case Cas(_, now) => RowStamps(s.table, s.poller.id, ClaimRow(s.table[s.poller.id], now), id);
      case CasError(_, now) => RowStamps(s.table, s.poller.id, ClaimRow(s.table[s.poller.id], now), id);
      case Commit(w, now) => WriteStamps(s.table, s.workers[w].job, s.workers[w].pc.w, now, id);
      case CommitError(w, _, now) => WriteStamps(s.table, s.workers[w].job, s.workers[w].pc.w, now, id);
      case Boot(_, now) => ReclaimStamps(s.table, now, id);
      case _ =>
    }
  }

  /** A task that finds its account busy puts the row back as it was, due as before. */
  lemma BusySyncIsPutBack(s: State, w: WorkerId, now: int)
    requires Inv(s) && w in s.workers && TaskEnabled(s.workers[w], TryBegin)
    requires s.workers[w].payload.account in s.inflight
    ensures var k := s.workers[w];
            && Enabled(s, Move(w, TryBegin)) && Enabled(Apply(s, Move(w, TryBegin)), Commit(w, now))
            && var s' := Apply(Apply(s, Move(w, TryBegin)), Commit(w, now));
            && k.job in s.table && s'.table == s.table[k.job := s.table[k.job].(status := Pending, updatedAt := now)]
            && s'.inflight == s.inflight
  {
    assert RunsIn(s.table, s.workers[w].job);
  }

  // ── what the counters count ──────────────────────────────────────────

  /** This step calls the send plugin for this job. */
  predicate CallsPlugin(s: State, a: Action, id: JobId) {
    a.Move? && a.step.CallPlugin? && a.w in s.workers && s.workers[a.w].job == id
  }

  /** This step is a restart that takes this job back from running. */
  predicate TakesBack(s: State, a: Action, id: JobId) { a.Boot? && a.reclaimed && RunsIn(s.table, id) }

  ghost function CallsIn(s: State, acts: seq<Action>, s': State, id: JobId): nat
    requires Runs(s, acts, s')
    decreases |acts|
  {
    if acts == [] then 0
    else (if CallsPlugin(s, acts[0], id) then 1 else 0) + CallsIn(Apply(s, acts[0]), acts[1..], s', id)
  }

  ghost function ReclaimsIn(s: State, acts: seq<Action>, s': State, id: JobId): nat
    requires Runs(s, acts, s')
    decreases |acts|
  {
    if acts == [] then 0
    else (if TakesBack(s, acts[0], id) then 1 else 0) + ReclaimsIn(Apply(s, acts[0]), acts[1..], s', id)
  }

  lemma StepKeepsRowIds(s: State, a: Action)
    requires Inv(s) && Enabled(s, a)
    ensures s.table.Keys <= Apply(s, a).table.Keys
  {
    StepIsForward(s, a);
  }

  lemma StepCountsReclaims(s: State, a: Action, id: JobId)
    requires Enabled(s, a) && s.reclaims.Keys <= s.table.Keys && s.table.Keys <= Apply(s, a).table.Keys
    ensures var s' := Apply(s, a);
            && s'.reclaims.Keys <= s'.table.Keys
            && Count(s'.reclaims, id) == Count(s.reclaims, id) + (if TakesBack(s, a, id) then 1 else 0)
  {
    if a.Boot? && a.reclaimed {
      assert Apply(s, a).reclaims == Recount(s.table, s.reclaims);
    } else {
      assert Apply(s, a).reclaims == s.reclaims;
    }
  }

  lemma StepCountsCalls(s: State, a: Action, id: JobId)
    requires Enabled(s, a)
    ensures Count(Apply(s, a).calls, id) == Count(s.calls, id) + (if CallsPlugin(s, a, id) then 1 else 0)
  {
    assert !a.Move? ==> Apply(s, a).calls == s.calls;
  }

  lemma {:induction false} RunCounts(s: State, acts: seq<Action>, s': State, id: JobId)
    requires Inv(s) && Runs(s, acts, s') && s.reclaims.Keys <= s.table.Keys
    ensures Count(s'.calls, id) == Count(s.calls, id) + CallsIn(s, acts, s', id)
    ensures Count(s'.reclaims, id) == Count(s.reclaims, id) + ReclaimsIn(s, acts, s', id)
    decreases |acts|
  {
    if acts != [] {
      StepKeepsRowIds(s, acts[0]);
      StepCountsReclaims(s, acts[0], id);
      StepCountsCalls(s, acts[0], id);
      StepKeepsInv(s, acts[0]);
      RunCounts(Apply(s, acts[0]), acts[1..], s', id);
    }
  }

  /** In any run a job is sent at most three times plus once for each restart that
      took it back from running. */
  lemma RunsSendFewTimes(n: nat, acts: seq<Action>, s: State, id: JobId)
    requires Runs(Init(n), acts, s) && id in s.table
    ensures CallsIn(Init(n), acts, s, id) <= 3 + ReclaimsIn(Init(n), acts, s, id)
  {
    InitInv(n);
    RunCounts(Init(n), acts, s, id);
    SendsAreBounded(n, acts, s);
  }
}
