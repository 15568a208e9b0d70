/** The worker pool as a step relation: one poller that claims, a capped number
    of job tasks, the in-flight set, and the table all of them share. SELECT,
    the in-flight check and the compare-and-set are separate steps, so any
    number of other steps may fall between them. */
module WorkerPool {
  import opened JobTable

  type WorkerId = nat

  const SMTP_TRANSIENT_MAX_ATTEMPTS: nat := 3

  /** Where a job task stands. `Syncing` is inside `run_account_sync`;
      `Leaving` has returned from it and still owns the in-flight entry. */
  datatype Pc =
    | Started
    | Syncing
    | Leaving(ok: bool)
    | Sending
    | Deciding(transient: bool)
    | Writing(w: Write)

  datatype Worker = Worker(job: JobId, payload: Payload, pc: Pc)

  datatype Poller =
    | Booting
    | Idle
    | Permitted
    | Scanning(rest: seq<JobId>)
    | Checked(id: JobId, rest: seq<JobId>)

  /** `orphans`, `calls` and `reclaims` are history: running rows no task owns,
      send-plugin calls per job, restarts that reclaimed the job. */
  datatype State = State(
    table: Table,
    inflight: set<Account>,
    capacity: nat,
    poller: Poller,
    workers: map<WorkerId, Worker>,
    orphans: set<JobId>,
    calls: map<JobId, nat>,
    reclaims: map<JobId, nat>)

  /** The poller's own steps, up to the compare-and-set. */
  datatype PollStep =
    | Acquire
    | Select(now: int, ids: seq<JobId>)
    | Inspect
    | Exhausted
    | SelectError

  /** What a task does between its claim and its last write. `Settle` is work with
      no further steps: waking a message, a backup, or refusing to send. */
  datatype TaskStep =
    | TryBegin
    | SyncReturns(ok: bool)
    | Leave
    | Settle(ok: bool)
    | CallPlugin
    | PluginReturns(ok: bool, transient: bool)
    | Decide

  datatype Action =
    | Enqueue(id: JobId, payload: Payload, runAt: int, now: int)
    | Poll(poll: PollStep)
    | Cas(w: WorkerId, now: int)
    | CasError(applied: bool, now: int)
    | Move(w: WorkerId, step: TaskStep)
    | Commit(w: WorkerId, now: int)
    | CommitError(w: WorkerId, applied: bool, now: int)
    | Abort(w: WorkerId)
    | Crash
    | Boot(reclaimed: bool, now: int)

  function Init(maxConcurrent: nat): State {
    State(map[], {}, if maxConcurrent < 1 then 1 else maxConcurrent, Booting, map[], {}, map[], map[])
  }

  function Count(m: map<JobId, nat>, id: JobId): nat { if id in m then m[id] else 0 }

  /** One more reclaim for every running row. */
  function Recount(t: Table, reclaims: map<JobId, nat>): (r: map<JobId, nat>)
    ensures r.Keys == t.Keys
    ensures forall id | id in t :: r[id] == Count(reclaims, id) + (if t[id].status == Running then 1 else 0)
  {
    map id | id in t :: Count(reclaims, id) + (if t[id].status == Running then 1 else 0)
  }

  function Doubled(n: nat): (r: nat)
    ensures n < r
  {
    if n == 0 then 1 else 2 * Doubled(n - 1)
  }

  /** `30 * (1 << attempts.min(4))`. */
  function RetryDelay(attempts: nat): nat { 30 * Doubled(if attempts < 4 then attempts else 4) }

  /** The send handler's decision after a plugin error. */
  function SendVerdict(attempts: nat, transient: bool): Write {
    if transient && attempts + 1 < SMTP_TRANSIENT_MAX_ATTEMPTS then Reschedule(RetryDelay(attempts)) else Fail
  }

  function PermitsHeld(s: State): nat {
    |s.workers| + (if s.poller.Permitted? || s.poller.Scanning? || s.poller.Checked? then 1 else 0)
  }

  function Goto(s: State, w: WorkerId, pc: Pc): State
    requires w in s.workers
  {
    s.(workers := s.workers[w := s.workers[w].(pc := pc)])
  }

  /** The worker's last write lands and the worker ends. */
  function Retire(s: State, w: WorkerId, now: int): State
    requires w in s.workers && s.workers[w].pc.Writing?
  {
    s.(table := WriteTable(s.table, s.workers[w].job, s.workers[w].pc.w, now), workers := s.workers - {w})
  }

  /** The worker ends on a database error and leaves its row running. */
  function Orphan(s: State, w: WorkerId): State
    requires w in s.workers
  {
    s.(orphans := s.orphans + {s.workers[w].job}, workers := s.workers - {w})
  }

  function ClaimFor(s: State, id: JobId, w: WorkerId, now: int): State
    requires id in s.table
  {
    s.(table := s.table[id := ClaimRow(s.table[id], now)],
    workers := s.workers[w := Worker(id, s.table[id].payload, Started)],
    poller := Idle)
  }

  function ClaimLost(s: State, id: JobId, now: int): State
    requires id in s.table
  {
    s.(table := s.table[id := ClaimRow(s.table[id], now)], orphans := s.orphans + {id}, poller := Idle)
  }

  /** Start-up with the reclaim done: no row is running, and none is an orphan. */
  function Rebooted(s: State, now: int): State {
    s.(table := Reclaim(s.table, now), poller := Idle, orphans := {}, reclaims := Recount(s.table, s.reclaims))
  }

  function RunningRows(t: Table): set<JobId> { set id | id in t && t[id].status == Running }

  ghost predicate PollEnabled(s: State, p: PollStep) {
    match p
    case Acquire => s.poller.Idle? && PermitsHeld(s) < s.capacity
    case Select(now, ids) => s.poller.Permitted? && Selection(s.table, now, ids)
    case Inspect => s.poller.Scanning? && s.poller.rest != [] && s.poller.rest[0] in s.table
    case Exhausted => s.poller.Scanning? && s.poller.rest == []
    case SelectError => s.poller.Permitted?
  }

  function PollNext(s: State, p: PollStep): Poller
    requires PollEnabled(s, p)
  {
    match p
    case Acquire => Permitted
    case Select(_, ids) => Scanning(ids)
    case Inspect =>
      var id, rest := s.poller.rest[0], s.poller.rest[1..];
      var payload := s.table[id].payload;
      if payload == Unreadable || Busy(payload, s.inflight) then Scanning(rest) else Checked(id, rest)
    case Exhausted => Idle
    case SelectError => Idle
  }

  predicate TaskEnabled(k: Worker, step: TaskStep) {
    match step
    case TryBegin => k.payload.SyncAccount? && k.pc.Started?
    case SyncReturns(_) => k.payload.SyncAccount? && k.pc.Syncing?
    case Leave => k.payload.SyncAccount? && k.pc.Leaving?
    case Settle(ok) =>
      k.pc.Started? && ((k.payload.UnsnoozeMessage? && ok) || (k.payload.SendMessage? && !ok) || k.payload.Backup?)
    case CallPlugin => k.payload.SendMessage? && k.pc.Started?
    case PluginReturns(_, _) => k.payload.SendMessage? && k.pc.Sending?
    case Decide => k.payload.SendMessage? && k.pc.Deciding?
  }

  /** `attempts` is the stored counter the send handler reads back. */
  function TaskNext(k: Worker, step: TaskStep, inflight: set<Account>, attempts: nat): Pc
    requires TaskEnabled(k, step)
  {
    match step
    case TryBegin => if k.payload.account in inflight then Writing(Revert) else Syncing
    case SyncReturns(ok) => Leaving(ok)
    case Leave => Writing(if k.pc.ok then Complete else Fail)
    case Settle(ok) => Writing(if ok then Complete else Fail)
    case CallPlugin => Sending
    case PluginReturns(ok, transient) => if ok then Writing(Complete) else Deciding(transient)
    case Decide => Writing(SendVerdict(attempts, k.pc.transient))
  }

  function FlightNext(k: Worker, step: TaskStep, inflight: set<Account>): set<Account>
    requires TaskEnabled(k, step)
  {
    match step
    case TryBegin => inflight + {k.payload.account}
    case Leave => inflight - {k.payload.account}
    case _ => inflight
  }

  ghost predicate Enabled(s: State, a: Action) {
    match a
    case Enqueue(id, _, _, _) => id !in s.table
    case Poll(p) => PollEnabled(s, p)
    case Cas(w, _) => s.poller.Checked? && w !in s.workers && s.poller.id in s.table
    case CasError(_, _) => s.poller.Checked? && s.poller.id in s.table
    case Move(w, step) => w in s.workers && s.workers[w].job in s.table && TaskEnabled(s.workers[w], step)
    case Commit(w, _) => w in s.workers && s.workers[w].pc.Writing?
    case CommitError(w, _, _) => w in s.workers && s.workers[w].pc.Writing?
    case Abort(w) =>
      w in s.workers && !s.workers[w].payload.SyncAccount? && (s.workers[w].pc.Started? || s.workers[w].pc.Deciding?)
    case Crash => true
    case Boot(_, _) => s.poller.Booting?
  }

  function Apply(s: State, a: Action): State
    requires Enabled(s, a)
  {
    match a
    case Enqueue(id, payload, runAt, now) => s.(table := s.table[id := NewRow(payload, runAt, now)])
    case Poll(p) => s.(poller := PollNext(s, p))
    case Cas(w, now) =>
      if s.table[s.poller.id].status == Pending then ClaimFor(s, s.poller.id, w, now)
      else s.(poller := Scanning(s.poller.rest))
    case CasError(applied, now) =>
      if applied && s.table[s.poller.id].status == Pending then ClaimLost(s, s.poller.id, now)
      else s.(poller := Idle)
    case Move(w, step) =>
      var k := s.workers[w];
      Goto(s, w, TaskNext(k, step, s.inflight, s.table[k.job].attempts))
      .(inflight := FlightNext(k, step, s.inflight),
        calls := if step.CallPlugin? then s.calls[k.job := Count(s.calls, k.job) + 1] else s.calls)
    case Commit(w, now) => Retire(s, w, now)
    case CommitError(w, applied, now) => if applied then Retire(s, w, now) else Orphan(s, w)
    case Abort(w) => Orphan(s, w)
    case Crash => s.(poller := Booting, workers := map[], inflight := {}, orphans := RunningRows(s.table))
    case Boot(reclaimed, now) =>
      if !reclaimed then s.(poller := Idle) else Rebooted(s, now)
  }

  // ── invariants ───────────────────────────────────────────────────────

  type Workers = map<WorkerId, Worker>

  /** The worker owns its account's in-flight entry. */
  predicate Holds(k: Worker, account: Account) {
    k.payload.SyncAccount? && k.payload.account == account && (k.pc.Syncing? || k.pc.Leaving?)
  }

  ghost predicate HasHolder(ws: Workers, account: Account) { exists w :: w in ws && Holds(ws[w], account) }

  ghost predicate HasOwner(ws: Workers, id: JobId) { exists w :: w in ws && ws[w].job == id }

  predicate RunsIn(t: Table, id: JobId) { id in t && t[id].status == Running }

  ghost predicate OneTaskPerRow(t: Table, ws: Workers) {
    && (forall w | w in ws :: RunsIn(t, ws[w].job) && ws[w].payload == t[ws[w].job].payload)
    && DistinctJobs(ws)
  }

  predicate SameJob(j: Worker, k: Worker) { j.job == k.job }

  ghost predicate DistinctJobs(ws: Workers) {
    forall v, w {:trigger SameJob(ws[v], ws[w])} | v in ws && w in ws && SameJob(ws[v], ws[w]) :: v == w
  }

  /** Every running row has exactly one owner: a live task or the orphan set. */
  ghost predicate Ownership(t: Table, ws: Workers, orphans: set<JobId>) {
    && OneTaskPerRow(t, ws)
    && (forall id | id in orphans :: RunsIn(t, id) && !HasOwner(ws, id))
    && (forall id | RunsIn(t, id) && id !in orphans :: HasOwner(ws, id))
  }

  /** The in-flight set is exactly the accounts being synced, one task each. */
  ghost predicate InFlightExact(ws: Workers, inflight: set<Account>) {
    && (forall v, w {:trigger SameAccount(ws[v], ws[w])} | v in ws && w in ws && SameAccount(ws[v], ws[w]) :: v == w)
    && (forall account :: account in inflight <==> HasHolder(ws, account))
  }

  predicate SameAccount(j: Worker, k: Worker) {
    j.payload.SyncAccount? && k.payload.SyncAccount? && Holds(j, k.payload.account) && Holds(k, k.payload.account)
  }

  ghost predicate PollerSane(s: State) {
    && 1 <= s.capacity
    && PermitsHeld(s) <= s.capacity
    && (s.poller.Booting? ==> s.workers == map[])
    && (s.poller.Scanning? ==> forall i | 0 <= i < |s.poller.rest| :: s.poller.rest[i] in s.table)
    && (s.poller.Checked? ==>
          && s.poller.id in s.table && s.table[s.poller.id].payload != Unreadable
          && forall i | 0 <= i < |s.poller.rest| :: s.poller.rest[i] in s.table)
  }

  /** A program counter belongs to the kind of job the worker carries. */
  predicate PcFits(k: Worker, attempts: nat) {
    match k.payload
    case SyncAccount(_, _) => k.pc.Started? || k.pc.Syncing? || k.pc.Leaving? ||
                              k.pc == Writing(Revert) || k.pc == Writing(Complete) || k.pc == Writing(Fail)
    case SendMessage(_, _) =>
      || k.pc.Started? || k.pc.Sending? || k.pc.Deciding? || k.pc == Writing(Complete) || k.pc == Writing(Fail)
      || (attempts + 1 < SMTP_TRANSIENT_MAX_ATTEMPTS &&
          (k.pc == Writing(Reschedule(30)) || k.pc == Writing(Reschedule(60))))
    case Unreadable => false
    case _ => k.pc.Started? || k.pc == Writing(Complete) || k.pc == Writing(Fail)
  }

  /** Attempts spent: a row still to run has spent fewer than the maximum. */
  predicate AttemptsFit(r: Row) {
    r.attempts <= SMTP_TRANSIENT_MAX_ATTEMPTS && (r.status != Failed ==> r.attempts < SMTP_TRANSIENT_MAX_ATTEMPTS)
  }

  ghost predicate AttemptsBounded(t: Table, ws: Workers) {
    && (forall id | id in t :: AttemptsFit(t[id]))
    && (forall w | w in ws :: ws[w].job in t && PcFits(ws[w], t[ws[w].job].attempts))
  }

  /** The worker has called the plugin and not yet charged an attempt for it. */
  predicate Charging(k: Worker) { k.payload.SendMessage? && !k.pc.Started? }

  /** Calls on record never exceed attempts plus reclaims, plus the one in progress. */
  predicate CallsFit(r: Row, calls: nat, reclaims: nat) {
    && calls <= r.attempts + reclaims + 1
    && (r.status == Pending || r.status == Failed ==> calls <= r.attempts + reclaims)
  }

  ghost predicate CallsBounded(t: Table, ws: Workers, calls: map<JobId, nat>, reclaims: map<JobId, nat>) {
    && calls.Keys <= t.Keys
    && (forall id | id in t :: CallsFit(t[id], Count(calls, id), Count(reclaims, id)))
    && (forall w | w in ws :: ws[w].job in t &&
          (Charging(ws[w]) || Count(calls, ws[w].job) <= t[ws[w].job].attempts + Count(reclaims, ws[w].job)))
  }

  ghost predicate Inv(s: State) {
    && Ownership(s.table, s.workers, s.orphans)
    && InFlightExact(s.workers, s.inflight)
    && PollerSane(s)
    && AttemptsBounded(s.table, s.workers)
    && CallsBounded(s.table, s.workers, s.calls, s.reclaims)
  }

  lemma InitInv(n: nat)
    ensures Inv(Init(n))
  {
  }

  lemma DropWorker(m: Workers, w: WorkerId)
    requires w in m
    ensures |m - {w}| == |m| - 1
  {
    assert (m - {w}).Keys == m.Keys - {w};
    assert |(m - {w}).Keys| == |m.Keys| - 1;
  }

  lemma PutWorker(m: Workers, w: WorkerId, k: Worker)
    ensures |m[w := k]| == |m| + (if w in m then 0 else 1)
  {
    assert m[w := k].Keys == m.Keys + {w};
    if w in m {
      assert m.Keys + {w} == m.Keys;
    }
  }

  // Ownership, one lemma per way workers or the table change.

  lemma OwnersAfterMove(t: Table, ws: Workers, orphans: set<JobId>, w: WorkerId, pc: Pc)
    requires Ownership(t, ws, orphans) && w in ws
    ensures Ownership(t, ws[w := ws[w].(pc := pc)], orphans)
  {
    var ws' := ws[w := ws[w].(pc := pc)];
    forall u, v | u in ws' && v in ws' && SameJob(ws'[u], ws'[v])
      ensures u == v
    {
      assert SameJob(ws[u], ws[v]);
    }
    forall id
      ensures HasOwner(ws', id) == HasOwner(ws, id)
    {
      if HasOwner(ws, id) {
        var v :| v in ws && ws[v].job == id;
        assert v in ws' && ws'[v].job == id;
      }
      if HasOwner(ws', id) {
        var v :| v in ws' && ws'[v].job == id;
        assert v in ws && ws[v].job == id;
      }
    }
  }

  lemma OthersDiffer(ws: Workers, w: WorkerId)
    requires DistinctJobs(ws) && w in ws
    ensures forall v | v in ws && v != w :: ws[v].job != ws[w].job
  {
    forall v | v in ws && v != w
      ensures ws[v].job != ws[w].job
    {
      assert !SameJob(ws[v], ws[w]);
    }
  }

  lemma DropKeepsDistinct(ws: Workers, w: WorkerId)
    requires DistinctJobs(ws)
    ensures DistinctJobs(ws - {w})
  {
    var ws' := ws - {w};
    forall u, v | u in ws' && v in ws' && SameJob(ws'[u], ws'[v])
      ensures u == v
    {
      assert SameJob(ws[u], ws[v]);
    }
  }

  lemma OwnersAfterDrop(ws: Workers, w: WorkerId)
    requires w in ws
    requires DistinctJobs(ws)
    ensures DistinctJobs(ws - {w})
    ensures forall id :: HasOwner(ws - {w}, id) <==> HasOwner(ws, id) && id != ws[w].job
  {
    var ws' := ws - {w};
    DropKeepsDistinct(ws, w);
    OthersDiffer(ws, w);
    forall id
      ensures HasOwner(ws', id) <==> HasOwner(ws, id) && id != ws[w].job
    {
      if HasOwner(ws, id) && id != ws[w].job {
        var v :| v in ws && ws[v].job == id;
        assert v in ws' && ws'[v].job == id;
      }
      if HasOwner(ws', id) {
        var v :| v in ws' && ws'[v].job == id;
        assert v in ws && ws[v].job == id;
      }
    }
  }

  lemma OwnersAfterWrite(t: Table, ws: Workers, orphans: set<JobId>, w: WorkerId, write: Write, now: int)
    requires Ownership(t, ws, orphans) && w in ws
    ensures Ownership(WriteTable(t, ws[w].job, write, now), ws - {w}, orphans)
  {
    OwnersAfterDrop(ws, w);
    var t' := WriteTable(t, ws[w].job, write, now);
    assert HasOwner(ws, ws[w].job);
    assert forall id :: RunsIn(t', id) <==> RunsIn(t, id) && id != ws[w].job;
  }

  lemma OwnersAfterOrphan(t: Table, ws: Workers, orphans: set<JobId>, w: WorkerId)
    requires Ownership(t, ws, orphans) && w in ws
    ensures Ownership(t, ws - {w}, orphans + {ws[w].job})
  {
    OwnersAfterDrop(ws, w);
  }

  lemma OwnersAfterClaim(t: Table, ws: Workers, orphans: set<JobId>, id: JobId, w: WorkerId, now: int)
    requires Ownership(t, ws, orphans) && w !in ws && id in t && t[id].status == Pending
    ensures Ownership(t[id := ClaimRow(t[id], now)], ws[w := Worker(id, t[id].payload, Started)], orphans)
  {
    var ws' := ws[w := Worker(id, t[id].payload, Started)];
    assert !RunsIn(t, id);
    forall u, v | u in ws' && v in ws' && SameJob(ws'[u], ws'[v])
      ensures u == v
    {
      if u != w && v != w {
        assert SameJob(ws[u], ws[v]);
      }
    }
    forall j
      ensures HasOwner(ws', j) <==> HasOwner(ws, j) || j == id
    {
      if HasOwner(ws, j) {
        var v :| v in ws && ws[v].job == j;
        assert v in ws' && ws'[v].job == j;
      }
      assert ws'[w].job == id;
      if HasOwner(ws', j) {
        var v :| v in ws' && ws'[v].job == j;
        assert v == w || (v in ws && ws[v].job == j);
      }
    }
    assert forall j :: RunsIn(t[id := ClaimRow(t[id], now)], j) <==> RunsIn(t, j) || j == id;
  }

  lemma OwnersAfterClaimLost(t: Table, ws: Workers, orphans: set<JobId>, id: JobId, now: int)
    requires Ownership(t, ws, orphans) && id in t && t[id].status == Pending
    ensures Ownership(t[id := ClaimRow(t[id], now)], ws, orphans + {id})
  {
    assert !RunsIn(t, id);
    assert !HasOwner(ws, id);
    assert forall j :: RunsIn(t[id := ClaimRow(t[id], now)], j) <==> RunsIn(t, j) || j == id;
  }

  // The in-flight set, likewise.

  lemma FlightsAfterMove(ws: Workers, inflight: set<Account>, w: WorkerId, k: Worker)
    requires InFlightExact(ws, inflight)
    requires w in ws ==> forall account :: Holds(ws[w], account) == Holds(k, account)
    requires w !in ws ==> forall account :: !Holds(k, account)
    ensures InFlightExact(ws[w := k], inflight)
  {
    var ws' := ws[w := k];
    forall account
      ensures HasHolder(ws', account) == HasHolder(ws, account)
    {
      if HasHolder(ws, account) {
        var v :| v in ws && Holds(ws[v], account);
        assert v in ws' && Holds(ws'[v], account);
      }
      if HasHolder(ws', account) {
        var v :| v in ws' && Holds(ws'[v], account);
        assert v in ws && Holds(ws[v], account);
      }
    }
    forall u, v | u in ws' && v in ws' && SameAccount(ws'[u], ws'[v])
      ensures u == v
    {
      var account := ws'[v].payload.account;
      assert Holds(ws[u], account) && Holds(ws[v], account);
      assert SameAccount(ws[u], ws[v]);
    }
  }

  lemma FlightsAfterBegin(ws: Workers, inflight: set<Account>, w: WorkerId)
    requires InFlightExact(ws, inflight) && w in ws
    requires ws[w].payload.SyncAccount? && ws[w].pc.Started? && ws[w].payload.account !in inflight
    ensures InFlightExact(ws[w := ws[w].(pc := Syncing)], inflight + {ws[w].payload.account})
  {
    var account, k := ws[w].payload.account, ws[w].(pc := Syncing);
    var ws' := ws[w := k];
    assert Holds(ws'[w], account);
    forall v | v in ws && v != w
      ensures !Holds(ws[v], account)
    {
      assert !HasHolder(ws, account);
    }
    forall a
      ensures a in inflight + {account} <==> HasHolder(ws', a)
    {
      if a in inflight {
        var v :| v in ws && Holds(ws[v], a);
        assert v in ws' && Holds(ws'[v], a);
      }
      if HasHolder(ws', a) && a != account {
        var v :| v in ws' && Holds(ws'[v], a);
        assert v in ws && Holds(ws[v], a);
        assert HasHolder(ws, a);
      }
    }
    forall u, v | u in ws' && v in ws' && SameAccount(ws'[u], ws'[v])
      ensures u == v
    {
      if u != w && v != w {
        assert SameAccount(ws[u], ws[v]);
      }
    }
  }

  lemma FlightsAfterLeave(ws: Workers, inflight: set<Account>, w: WorkerId, write: Write)
    requires InFlightExact(ws, inflight) && w in ws
    requires ws[w].payload.SyncAccount? && ws[w].pc.Leaving?
    ensures InFlightExact(ws[w := ws[w].(pc := Writing(write))], inflight - {ws[w].payload.account})
  {
    var account := ws[w].payload.account;
    var ws' := ws[w := ws[w].(pc := Writing(write))];
    assert Holds(ws[w], account);
    forall v | v in ws && v != w
      ensures !Holds(ws[v], account)
    {
      assert SameAccount(ws[v], ws[w]) == Holds(ws[v], account);
    }
    forall a
      ensures a in inflight - {account} <==> HasHolder(ws', a)
    {
      if a in inflight && a != account {
        var v :| v in ws && Holds(ws[v], a);
        assert v in ws' && Holds(ws'[v], a);
      }
      if HasHolder(ws', a) {
        var v :| v in ws' && Holds(ws'[v], a);
        assert v in ws && Holds(ws[v], a);
        assert HasHolder(ws, a);
      }
    }
    forall u, v | u in ws' && v in ws' && SameAccount(ws'[u], ws'[v])
      ensures u == v
    {
      assert SameAccount(ws[u], ws[v]);
    }
  }

  lemma FlightsAfterDrop(ws: Workers, inflight: set<Account>, w: WorkerId)
    requires InFlightExact(ws, inflight) && w in ws
    requires forall account :: !Holds(ws[w], account)
    ensures InFlightExact(ws - {w}, inflight)
  {
    var ws' := ws - {w};
    forall account
      ensures HasHolder(ws', account) == HasHolder(ws, account)
    {
      if HasHolder(ws, account) {
        var v :| v in ws && Holds(ws[v], account);
        assert v in ws' && Holds(ws'[v], account);
      }
      if HasHolder(ws', account) {
        var v :| v in ws' && Holds(ws'[v], account);
        assert v in ws && Holds(ws[v], account);
      }
    }
    forall u, v | u in ws' && v in ws' && SameAccount(ws'[u], ws'[v])
      ensures u == v
    {
      assert SameAccount(ws[u], ws[v]);
    }
  }

  // Attempts and plugin calls.

  lemma AttemptsAfterMove(t: Table, ws: Workers, w: WorkerId, k: Worker)
    requires AttemptsBounded(t, ws) && k.job in t && PcFits(k, t[k.job].attempts)
    ensures AttemptsBounded(t, ws[w := k])
  {
  }

  lemma AttemptsAfterWrite(t: Table, ws: Workers, w: WorkerId, now: int)
    requires AttemptsBounded(t, ws) && OneTaskPerRow(t, ws) && w in ws && ws[w].pc.Writing?
    ensures AttemptsBounded(WriteTable(t, ws[w].job, ws[w].pc.w, now), ws - {w})
  {
    assert PcFits(ws[w], t[ws[w].job].attempts);
    OthersDiffer(ws, w);
  }

  lemma AttemptsAfterRow(t: Table, ws: Workers, id: JobId, r: Row)
    requires AttemptsBounded(t, ws) && AttemptsFit(r) && (id in t ==> r.attempts == t[id].attempts)
    ensures AttemptsBounded(t[id := r], ws)
  {
  }

  lemma CallsAfterRow(t: Table, ws: Workers, calls: map<JobId, nat>, reclaims: map<JobId, nat>, id: JobId, r: Row)
    requires CallsBounded(t, ws, calls, reclaims) && CallsFit(r, Count(calls, id), Count(reclaims, id))
    requires id in t ==> r.attempts == t[id].attempts
    ensures CallsBounded(t[id := r], ws, calls, reclaims)
  {
  }

  lemma CallsAfterMove(t: Table, ws: Workers, calls: map<JobId, nat>, reclaims: map<JobId, nat>, w: WorkerId, k: Worker)
    requires CallsBounded(t, ws, calls, reclaims) && k.job in t
    requires Charging(k) || Count(calls, k.job) <= t[k.job].attempts + Count(reclaims, k.job)
    ensures CallsBounded(t, ws[w := k], calls, reclaims)
  {
  }

  lemma CallsAfterCall(t: Table, ws: Workers, calls: map<JobId, nat>, reclaims: map<JobId, nat>, w: WorkerId)
    requires CallsBounded(t, ws, calls, reclaims) && OneTaskPerRow(t, ws) && w in ws && Charging(ws[w].(pc := Sending))
    requires !Charging(ws[w])
    ensures CallsBounded(t, ws[w := ws[w].(pc := Sending)], calls[ws[w].job := Count(calls, ws[w].job) + 1], reclaims)
  {
    OthersDiffer(ws, w);
  }

  lemma CallsAfterWrite(t: Table, ws: Workers, calls: map<JobId, nat>, reclaims: map<JobId, nat>, w: WorkerId, now: int)
    requires CallsBounded(t, ws, calls, reclaims) && OneTaskPerRow(t, ws) && w in ws && ws[w].pc.Writing?
    requires PcFits(ws[w], t[ws[w].job].attempts)
    ensures CallsBounded(WriteTable(t, ws[w].job, ws[w].pc.w, now), ws - {w}, calls, reclaims)
  {
    OthersDiffer(ws, w);
    assert WriteTable(t, ws[w].job, ws[w].pc.w, now).Keys == t.Keys;
  }

  // Whole steps, one conjunct of the invariant at a time.

  lemma StepKeepsOwnership(s: State, a: Action)
    requires Ownership(s.table, s.workers, s.orphans) && PollerSane(s) && Enabled(s, a)
    ensures var s' := Apply(s, a); Ownership(s'.table, s'.workers, s'.orphans)
  {
    var s' := Apply(s, a);
    match a {
      case Enqueue(_, _, _, _) => assert forall id :: RunsIn(s'.table, id) == RunsIn(s.table, id);
      case Poll(_) =>
      case Cas(w, now) =>
        if s.table[s.poller.id].status == Pending {
          OwnersAfterClaim(s.table, s.workers, s.orphans, s.poller.id, w, now);
        }
      case CasError(applied, now) =>
        if applied && s.table[s.poller.id].status == Pending {
          OwnersAfterClaimLost(s.table, s.workers, s.orphans, s.poller.id, now);
        }
      case Move(w, _) => OwnersAfterMove(s.table, s.workers, s.orphans, w, s'.workers[w].pc);
      case Commit(w, now) => OwnersAfterWrite(s.table, s.workers, s.orphans, w, s.workers[w].pc.w, now);
      case CommitError(w, applied, now) =>
        if applied { OwnersAfterWrite(s.table, s.workers, s.orphans, w, s.workers[w].pc.w, now); }
        else { OwnersAfterOrphan(s.table, s.workers, s.orphans, w); }
      case Abort(w) => OwnersAfterOrphan(s.table, s.workers, s.orphans, w);
      case Crash => assert forall id :: RunsIn(s.table, id) <==> id in s'.orphans;
      case Boot(reclaimed, _) => assert reclaimed ==> forall id :: !RunsIn(s'.table, id);
    }
  }

  lemma FlightsAfterTaskStep(ws: Workers, inflight: set<Account>, w: WorkerId, step: TaskStep, attempts: nat)
    requires InFlightExact(ws, inflight) && w in ws && TaskEnabled(ws[w], step)
    ensures InFlightExact(ws[w := ws[w].(pc := TaskNext(ws[w], step, inflight, attempts))],
                          FlightNext(ws[w], step, inflight))
  {
    var pc := TaskNext(ws[w], step, inflight, attempts);
    if step.Leave? {
      FlightsAfterLeave(ws, inflight, w, pc.w);
    } else if step.TryBegin? && ws[w].payload.account !in inflight {
      FlightsAfterBegin(ws, inflight, w);
    } else {
      assert FlightNext(ws[w], step, inflight) == inflight;
      FlightsAfterMove(ws, inflight, w, ws[w].(pc := pc));
    }
  }

  lemma StepKeepsInFlight(s: State, a: Action)
    requires InFlightExact(s.workers, s.inflight) && AttemptsBounded(s.table, s.workers) && Enabled(s, a)
    ensures var s' := Apply(s, a); InFlightExact(s'.workers, s'.inflight)
  {
    var s' := Apply(s, a);
    match a {
      case Enqueue(_, _, _, _) =>
      case Poll(_) =>
      case Cas(w, now) =>
        if s.table[s.poller.id].status == Pending { FlightsAfterMove(s.workers, s.inflight, w, s'.workers[w]); }
      case CasError(_, _) =>
      case Move(w, step) => FlightsAfterTaskStep(s.workers, s.inflight, w, step, s.table[s.workers[w].job].attempts);
      case Commit(w, _) => FlightsAfterDrop(s.workers, s.inflight, w);
      case CommitError(w, _, _) => FlightsAfterDrop(s.workers, s.inflight, w);
      case Abort(w) => FlightsAfterDrop(s.workers, s.inflight, w);
      case Crash => assert forall account :: !HasHolder(s'.workers, account);
      case Boot(_, _) =>
    }
  }

  lemma StepKeepsPermits(s: State, a: Action)
    requires PermitsHeld(s) <= s.capacity && Enabled(s, a)
    ensures PermitsHeld(Apply(s, a)) <= Apply(s, a).capacity == s.capacity
  {
    var s' := Apply(s, a);
    match a {
      case Cas(w, _) => if s.table[s.poller.id].status == Pending { PutWorker(s.workers, w, s'.workers[w]); }
      case Move(w, _) => PutWorker(s.workers, w, s'.workers[w]);
      case Commit(w, _) => DropWorker(s.workers, w);
      case CommitError(w, _, _) => DropWorker(s.workers, w);
      case Abort(w) => DropWorker(s.workers, w);
      case _ =>
    }
  }

  /** Rows are never deleted and payloads never rewritten. */
  lemma StepKeepsRows(s: State, a: Action)
    requires Enabled(s, a)
    ensures forall id | id in s.table :: id in Apply(s, a).table && Apply(s, a).table[id].payload == s.table[id].payload
  {
  }

  lemma StepKeepsPoller(s: State, a: Action)
    requires PollerSane(s) && Enabled(s, a)
    ensures PollerSane(Apply(s, a))
  {
    StepKeepsPermits(s, a);
    StepKeepsRows(s, a);
    var s' := Apply(s, a);
    assert s'.poller == s.poller || s'.poller.Idle? || s'.poller.Booting? || a.Poll? || a.Cas?;
  }

  lemma DelaysAreThirtyOrSixty(attempts: nat, transient: bool)
    ensures var w := SendVerdict(attempts, transient);
            w == Fail || (attempts + 1 < SMTP_TRANSIENT_MAX_ATTEMPTS && (w == Reschedule(30) || w == Reschedule(60)))
  {
    assert Doubled(0) == 1 && Doubled(1) == 2;
    assert RetryDelay(0) == 30 && RetryDelay(1) == 60;
  }

  lemma TaskStepFits(k: Worker, step: TaskStep, inflight: set<Account>, attempts: nat)
    requires TaskEnabled(k, step)
    ensures PcFits(k.(pc := TaskNext(k, step, inflight, attempts)), attempts)
    ensures k.payload.SendMessage? ==> Charging(k.(pc := TaskNext(k, step, inflight, attempts)))
  {
    if step.Decide? {
      DelaysAreThirtyOrSixty(attempts, k.pc.transient);
    }
  }

  lemma StepKeepsAttempts(s: State, a: Action)
    requires AttemptsBounded(s.table, s.workers) && OneTaskPerRow(s.table, s.workers) && PollerSane(s) && Enabled(s, a)
    ensures var s' := Apply(s, a); AttemptsBounded(s'.table, s'.workers)
  {
    var s' := Apply(s, a);
    match a {
      case Enqueue(id, _, _, _) => AttemptsAfterRow(s.table, s.workers, id, s'.table[id]);
      case Poll(_) =>
      case Cas(w, _) =>
        if s.table[s.poller.id].status == Pending {
          AttemptsAfterRow(s.table, s.workers, s.poller.id, s'.table[s.poller.id]);
          AttemptsAfterMove(s'.table, s.workers, w, s'.workers[w]);
        }
      case CasError(applied, _) =>
        if applied && s.table[s.poller.id].status == Pending {
          AttemptsAfterRow(s.table, s.workers, s.poller.id, s'.table[s.poller.id]);
        }
      case Move(w, step) =>
        TaskStepFits(s.workers[w], step, s.inflight, s.table[s.workers[w].job].attempts);
        AttemptsAfterMove(s.table, s.workers, w, s'.workers[w]);
      case Commit(w, now) => AttemptsAfterWrite(s.table, s.workers, w, now);
      case CommitError(w, applied, now) => if applied { AttemptsAfterWrite(s.table, s.workers, w, now); }
      case Abort(w) =>
      case Crash =>
      case Boot(_, _) => assert s.workers == map[];
    }
  }

  lemma CallsFitAfterReclaim(r: Row, calls: nat, reclaims: nat, now: int)
    requires CallsFit(r, calls, reclaims)
    ensures r.status == Running ==> CallsFit(r.(status := Pending, updatedAt := now), calls, reclaims + 1)
  {
  }

  lemma CallsAfterReclaim(t: Table, calls: map<JobId, nat>, reclaims: map<JobId, nat>, now: int)
    requires CallsBounded(t, map[], calls, reclaims)
    ensures CallsBounded(Reclaim(t, now), map[], calls, Recount(t, reclaims))
  {
    var t', counts := Reclaim(t, now), Recount(t, reclaims);
    forall id | id in t
      ensures CallsFit(t'[id], Count(calls, id), Count(counts, id))
    {
      assert CallsFit(t[id], Count(calls, id), Count(reclaims, id));
      CallsFitAfterReclaim(t[id], Count(calls, id), Count(reclaims, id), now);
    }
  }

  lemma CallsAfterPlugin(s: State, w: WorkerId)
    requires CallsBounded(s.table, s.workers, s.calls, s.reclaims) && OneTaskPerRow(s.table, s.workers)
    requires Enabled(s, Move(w, CallPlugin))
    ensures var s' := Apply(s, Move(w, CallPlugin)); CallsBounded(s'.table, s'.workers, s'.calls, s'.reclaims)
  {
    CallsAfterCall(s.table, s.workers, s.calls, s.reclaims, w);
  }

  lemma CallsAfterTaskStep(s: State, w: WorkerId, step: TaskStep)
    requires CallsBounded(s.table, s.workers, s.calls, s.reclaims) && OneTaskPerRow(s.table, s.workers)
    requires Enabled(s, Move(w, step))
    ensures var s' := Apply(s, Move(w, step)); CallsBounded(s'.table, s'.workers, s'.calls, s'.reclaims)
  {
    if step.CallPlugin? {
      CallsAfterPlugin(s, w);
    } else {
      var k := s.workers[w];
      TaskStepFits(k, step, s.inflight, s.table[k.job].attempts);
      CallsAfterMove(s.table, s.workers, s.calls, s.reclaims, w, Apply(s, Move(w, step)).workers[w]);
    }
  }

  lemma ClaimsKeepCalls(s: State, a: Action)
    requires CallsBounded(s.table, s.workers, s.calls, s.reclaims) && Enabled(s, a)
    requires (a.Enqueue? || a.Cas? || a.CasError?)
    ensures var s' := Apply(s, a); CallsBounded(s'.table, s'.workers, s'.calls, s'.reclaims)
  {
    var s' := Apply(s, a);
    if a.Enqueue? {
      assert Count(s.calls, a.id) == 0;
      CallsAfterRow(s.table, s.workers, s.calls, s.reclaims, a.id, s'.table[a.id]);
    } else if s.table[s.poller.id].status == Pending && (a.Cas? || a.applied) {
      CallsAfterRow(s.table, s.workers, s.calls, s.reclaims, s.poller.id, s'.table[s.poller.id]);
      if a.Cas? {
        CallsAfterMove(s'.table, s.workers, s.calls, s.reclaims, a.w, s'.workers[a.w]);
      }
    }
  }

  lemma CallsAfterDrop(t: Table, ws: Workers, calls: map<JobId, nat>, reclaims: map<JobId, nat>, w: WorkerId)
    requires CallsBounded(t, ws, calls, reclaims)
    ensures CallsBounded(t, ws - {w}, calls, reclaims) && CallsBounded(t, map[], calls, reclaims)
  {
  }

  lemma EndsKeepCalls(s: State, a: Action)
    requires CallsBounded(s.table, s.workers, s.calls, s.reclaims) && OneTaskPerRow(s.table, s.workers)
    requires Enabled(s, a) && (a.Commit? || a.CommitError? || a.Abort?)
    requires a.Abort? || PcFits(s.workers[a.w], s.table[s.workers[a.w].job].attempts)
    ensures var s' := Apply(s, a); CallsBounded(s'.table, s'.workers, s'.calls, s'.reclaims)
  {
    if a.Commit? || (a.CommitError? && a.applied) {
      CallsAfterWrite(s.table, s.workers, s.calls, s.reclaims, a.w, a.now);
    } else {
      CallsAfterDrop(s.table, s.workers, s.calls, s.reclaims, a.w);
    }
  }

  lemma RebootKeepsCalls(s: State, now: int)
    requires CallsBounded(s.table, s.workers, s.calls, s.reclaims) && s.workers == map[]
    ensures var s' := Rebooted(s, now); CallsBounded(s'.table, s'.workers, s'.calls, s'.reclaims)
  {
    CallsAfterReclaim(s.table, s.calls, s.reclaims, now);
  }

  lemma RestartKeepsCalls(s: State, a: Action)
    requires CallsBounded(s.table, s.workers, s.calls, s.reclaims)
    requires Enabled(s, a) && (a.Poll? || a.Crash? || (a.Boot? && s.workers == map[]))
    ensures var s' := Apply(s, a); CallsBounded(s'.table, s'.workers, s'.calls, s'.reclaims)
  {
    if a.Boot? && a.reclaimed {
      RebootKeepsCalls(s, a.now);
    } else if a.Crash? {
      CallsAfterDrop(s.table, s.workers, s.calls, s.reclaims, 0);
    }
  }

  lemma StepKeepsCalls(s: State, a: Action)
    requires CallsBounded(s.table, s.workers, s.calls, s.reclaims) && OneTaskPerRow(s.table, s.workers) && Enabled(s, a)
    requires s.poller.Booting? ==> s.workers == map[]
    requires a.Commit? || a.CommitError? ==> PcFits(s.workers[a.w], s.table[s.workers[a.w].job].attempts)
    ensures var s' := Apply(s, a); CallsBounded(s'.table, s'.workers, s'.calls, s'.reclaims)
  {
    if a.Move? {
      CallsAfterTaskStep(s, a.w, a.step);
    } else if a.Enqueue? || a.Cas? || a.CasError? {
      ClaimsKeepCalls(s, a);
    } else if a.Commit? || a.CommitError? || a.Abort? {
      EndsKeepCalls(s, a);
    } else {
      RestartKeepsCalls(s, a);
    }
  }

  lemma StepKeepsInv(s: State, a: Action)
    requires Inv(s) && Enabled(s, a)
    ensures Inv(Apply(s, a))
  {
    StepKeepsOwnership(s, a);
    StepKeepsInFlight(s, a);
    StepKeepsPoller(s, a);
    StepKeepsAttempts(s, a);
    StepKeepsCalls(s, a);
  }

  // ── whole runs ───────────────────────────────────────────────────────

  /** `s'` is reached from `s` by some interleaving of steps. */
  ghost predicate Runs(s: State, acts: seq<Action>, s': State)
    decreases |acts|
  {
    if acts == [] then s == s' else Enabled(s, acts[0]) && Runs(Apply(s, acts[0]), acts[1..], s')
  }

  lemma {:induction false} RunKeepsInv(s: State, acts: seq<Action>, s': State)
    requires Inv(s) && Runs(s, acts, s')
    ensures Inv(s')
    decreases |acts|
  {
    if acts != [] {
      StepKeepsInv(s, acts[0]);
      RunKeepsInv(Apply(s, acts[0]), acts[1..], s');
    }
  }

  /** Mutual exclusion: whatever was claimed before, two tasks are never inside
      `run_account_sync` for the same account. */
  lemma AtMostOneSyncPerAccount(n: nat, acts: seq<Action>, s: State, v: WorkerId, w: WorkerId)
    requires Runs(Init(n), acts, s)
    requires v in s.workers && w in s.workers
    requires s.workers[v].pc.Syncing? && s.workers[w].pc.Syncing?
    requires s.workers[v].payload.SyncAccount? && s.workers[w].payload.SyncAccount?
    requires s.workers[v].payload.account == s.workers[w].payload.account
    ensures v == w
  {
    InitInv(n);
    RunKeepsInv(Init(n), acts, s);
    assert SameAccount(s.workers[v], s.workers[w]);
  }

  /** The accounts in flight are exactly the accounts some task is syncing. */
  lemma InFlightIsWhatIsSynced(n: nat, acts: seq<Action>, s: State, account: Account)
    requires Runs(Init(n), acts, s)
    ensures account in s.inflight <==> exists w :: w in s.workers && Holds(s.workers[w], account)
  {
    InitInv(n);
    RunKeepsInv(Init(n), acts, s);
    assert HasHolder(s.workers, account) == exists w :: w in s.workers && Holds(s.workers[w], account);
  }

  function OwnedJobs(ws: Workers): set<JobId> { set w | w in ws :: ws[w].job }

  lemma {:induction false} OwnedJobsCounted(ws: Workers)
    requires DistinctJobs(ws)
    ensures |OwnedJobs(ws)| == |ws|
    decreases |ws|
  {
    if ws != map[] {
      var w :| w in ws;
      var rest := ws - {w};
      DropWorker(ws, w);
      DropKeepsDistinct(ws, w);
      OthersDiffer(ws, w);
      OwnedJobsCounted(rest);
      forall id
        ensures id in OwnedJobs(ws) <==> id in OwnedJobs(rest) + {ws[w].job}
      {
        if id in OwnedJobs(ws) {
          var v :| v in ws && ws[v].job == id;
          assert v == w || v in rest;
        }
        if id in OwnedJobs(rest) {
          var v :| v in rest && rest[v].job == id;
          assert v in ws;
        }
        assert ws[w].job in OwnedJobs(ws);
      }
      assert OwnedJobs(ws) == OwnedJobs(rest) + {ws[w].job};
      assert ws[w].job !in OwnedJobs(rest);
    }
  }

  lemma OwnershipSplitsRunningRows(t: Table, ws: Workers, orphans: set<JobId>)
    requires Ownership(t, ws, orphans)
    ensures RunningRows(t) == OwnedJobs(ws) + orphans && OwnedJobs(ws) !! orphans
    ensures |RunningRows(t)| == |ws| + |orphans|
  {
    OwnedJobsCounted(ws);
    forall id
      ensures id in RunningRows(t) <==> id in OwnedJobs(ws) + orphans
      ensures !(id in OwnedJobs(ws) && id in orphans)
    {
      assert RunsIn(t, id) == (id in RunningRows(t));
      assert HasOwner(ws, id) == (id in OwnedJobs(ws));
    }
  }

  /** No double ownership: live tasks own distinct running rows, every other
      running row is an orphan, and live tasks never exceed the permits. */
  lemma RunningRowsAreOwnedOnce(n: nat, acts: seq<Action>, s: State)
    requires Runs(Init(n), acts, s)
    ensures DistinctJobs(s.workers)
    ensures RunningRows(s.table) == OwnedJobs(s.workers) + s.orphans && OwnedJobs(s.workers) !! s.orphans
    ensures |s.workers| <= s.capacity
    ensures |RunningRows(s.table)| == |s.workers| + |s.orphans|
  {
    InitInv(n);
    RunKeepsInv(Init(n), acts, s);
    OwnershipSplitsRunningRows(s.table, s.workers, s.orphans);
  }

  /** No database write failed and every restart reclaimed. */
  predicate Clean(a: Action) {
    match a
    case CasError(applied, _) => !applied
    case CommitError(_, applied, _) => applied
    case Abort(_) => false
    case Boot(reclaimed, _) => reclaimed
    case _ => true
  }

  lemma {:induction false} CleanRunsLeaveNoOrphans(s: State, acts: seq<Action>, s': State)
    requires Runs(s, acts, s') && (s.poller.Booting? || s.orphans == {})
    requires forall i | 0 <= i < |acts| :: Clean(acts[i])
    ensures s'.poller.Booting? || s'.orphans == {}
    decreases |acts|
  {
    if acts != [] {
      assert Clean(acts[0]);
      CleanRunsLeaveNoOrphans(Apply(s, acts[0]), acts[1..], s');
    }
  }

  /** Then, once booted, the running rows stay within the permits as well. */
  lemma CleanRunsBoundRunningRows(n: nat, acts: seq<Action>, s: State)
    requires Runs(Init(n), acts, s) && !s.poller.Booting?
    requires forall i | 0 <= i < |acts| :: Clean(acts[i])
    ensures |RunningRows(s.table)| <= s.capacity
  {
    CleanRunsLeaveNoOrphans(Init(n), acts, s);
    RunningRowsAreOwnedOnce(n, acts, s);
  }

  /** A row keeps its payload and its time of creation, its attempts only grow, and
      as long as they do not it keeps its place in the queue. */
  predicate SameJobRow(r: Row, r': Row) {
    && r'.payload == r.payload && r'.createdAt == r.createdAt
    && r.attempts <= r'.attempts && (r'.attempts == r.attempts ==> r'.runAt == r.runAt)
  }

  /** Rows survive as the same job, and a finished row never changes again. */
  ghost predicate Forward(t: Table, t': Table) {
    forall id | id in t :: id in t' && SameJobRow(t[id], t'[id]) && (Terminal(t[id]) ==> t'[id] == t[id])
  }

  lemma RowForward(t: Table, id: JobId, r: Row)
    requires id in t && !Terminal(t[id]) && SameJobRow(t[id], r)
    ensures Forward(t, t[id := r])
  {
  }

  lemma NewRowForward(t: Table, id: JobId, r: Row)
    requires id !in t
    ensures Forward(t, t[id := r])
  {
  }

  lemma ReclaimForward(t: Table, now: int)
    ensures Forward(t, Reclaim(t, now)) && Forward(t, t)
  {
  }

  lemma WriteForward(t: Table, id: JobId, w: Write, now: int)
    requires RunsIn(t, id)
    ensures Forward(t, WriteTable(t, id, w, now))
  {
    RowForward(t, id, WriteRow(t[id], w, now));
  }

  lemma StepIsForward(s: State, a: Action)
    requires OneTaskPerRow(s.table, s.workers) && Enabled(s, a)
    ensures Forward(s.table, Apply(s, a).table)
  {
    ReclaimForward(s.table, if a.Boot? then a.now else 0);
    match a {
      case Enqueue(id, payload, runAt, now) => NewRowForward(s.table, id, NewRow(payload, runAt, now));
      case Cas(_, now) =>
        if s.table[s.poller.id].status == Pending {
          RowForward(s.table, s.poller.id, ClaimRow(s.table[s.poller.id], now));
        }
      case CasError(_, now) =>
        if s.table[s.poller.id].status == Pending {
          RowForward(s.table, s.poller.id, ClaimRow(s.table[s.poller.id], now));
        }
      case Commit(w, now) => WriteForward(s.table, s.workers[w].job, s.workers[w].pc.w, now);
      case CommitError(w, _, now) => WriteForward(s.table, s.workers[w].job, s.workers[w].pc.w, now);
      case _ =>
    }
  }

  lemma {:induction false} NoRunLosesOrReopensAJob(s: State, acts: seq<Action>, s': State)
    requires Inv(s) && Runs(s, acts, s')
    ensures Forward(s.table, s'.table)
    decreases |acts|
  {
    if acts != [] {
      var mid := Apply(s, acts[0]);
      StepIsForward(s, acts[0]);
      StepKeepsInv(s, acts[0]);
      NoRunLosesOrReopensAJob(mid, acts[1..], s');
    }
  }

  lemma BoundsGiveSendLimits(t: Table, ws: Workers, calls: map<JobId, nat>, reclaims: map<JobId, nat>)
    requires AttemptsBounded(t, ws) && CallsBounded(t, ws, calls, reclaims)
    ensures forall id | id in t :: t[id].attempts <= 3 && Count(calls, id) <= 3 + Count(reclaims, id)
    ensures forall w | w in ws && ws[w].pc.Writing? && ws[w].pc.w.Reschedule? ::
              ws[w].pc.w.delay == 30 || ws[w].pc.w.delay == 60
  {
    forall id | id in t
      ensures t[id].attempts <= 3 && Count(calls, id) <= 3 + Count(reclaims, id)
    {
      assert AttemptsFit(t[id]) && CallsFit(t[id], Count(calls, id), Count(reclaims, id));
    }
    forall w | w in ws && ws[w].pc.Writing? && ws[w].pc.w.Reschedule?
      ensures ws[w].pc.w.delay == 30 || ws[w].pc.w.delay == 60
    {
      assert PcFits(ws[w], t[ws[w].job].attempts);
    }
  }

  /** Send jobs: at most three attempts, at most three plugin calls plus one per
      reclaiming restart, and retry delays of 30 and 60 seconds only. */
  lemma SendsAreBounded(n: nat, acts: seq<Action>, s: State)
    requires Runs(Init(n), acts, s)
    ensures forall id | id in s.table :: s.table[id].attempts <= 3 && Count(s.calls, id) <= 3 + Count(s.reclaims, id)
    ensures forall w | w in s.workers && s.workers[w].pc.Writing? && s.workers[w].pc.w.Reschedule? ::
              s.workers[w].pc.w.delay == 30 || s.workers[w].pc.w.delay == 60
  {
    InitInv(n);
    RunKeepsInv(Init(n), acts, s);
    BoundsGiveSendLimits(s.table, s.workers, s.calls, s.reclaims);
  }
}
