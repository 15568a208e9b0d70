/** With no new jobs, restarts or failed writes and each claim taken as one
    step, the pool runs out of work: a measure falls with every step. */
module PoolTermination {
  import opened JobTable
  import opened WorkerPool
  import opened MapSums

  /** A claim seen as one step, a task step, or a task's last write. */
  datatype Live =
    | Claim(w: WorkerId, id: JobId, now: int)
    | Task(w: WorkerId, step: TaskStep)
    | Finish(w: WorkerId, now: int)

  /** The row `claim_next` takes: eligible, and no eligible row comes before it. */
  ghost predicate Claimable(s: State, id: JobId, now: int) {
    && Eligible(s.table, now, s.inflight, id)
    && forall j | Eligible(s.table, now, s.inflight, j) :: NotAfter(s.table[id], s.table[j])
  }

  ghost predicate LiveEnabled(s: State, l: Live) {
    match l
    case Claim(w, id, now) => s.poller.Idle? && PermitsHeld(s) < s.capacity && w !in s.workers && Claimable(s, id, now)
    case Task(w, step) => Enabled(s, Move(w, step))
    case Finish(w, now) => Enabled(s, Commit(w, now))
  }

  function LiveApply(s: State, l: Live): State
    requires LiveEnabled(s, l)
  {
    match l
    case Claim(w, id, now) => ClaimFor(s, id, w, now)
    case Task(w, step) => Apply(s, Move(w, step))
    case Finish(w, now) => Retire(s, w, now)
  }

  /** Taking the claim as one step loses nothing: acquire, select, inspect and
      compare-and-set with nothing in between end in exactly that state. */
  lemma OneStepClaimIsARun(s: State, ids: seq<JobId>, w: WorkerId, now: int) returns (acts: seq<Action>, id: JobId)
    requires s.poller.Idle? && PermitsHeld(s) < s.capacity && w !in s.workers
    requires Selection(s.table, now, ids) && FirstEligible(s.table, now, s.inflight, ids).Some?
    ensures LiveEnabled(s, Claim(w, id, now)) && Runs(s, acts, LiveApply(s, Claim(w, id, now)))
  {
    FirstEligibleIsLeast(s.table, now, s.inflight, ids);
    id := FirstEligible(s.table, now, s.inflight, ids).value;
    var s1 := s.(poller := Permitted);
    var s2 := s.(poller := Scanning(ids));
    var scan := ScanIsARun(s2, ids, w, now);
    assert Apply(s1, Poll(Select(now, ids))) == s2;
    var tail := [Poll(Select(now, ids))] + scan;
    assert tail[1..] == scan;
    assert Runs(s1, tail, ClaimFor(s, id, w, now));
    acts := [Poll(Acquire)] + tail;
    assert acts[1..] == tail;
  }

  lemma {:induction false} ScanIsARun(s: State, ids: seq<JobId>, w: WorkerId, now: int) returns (acts: seq<Action>)
    requires s.poller == Scanning(ids) && w !in s.workers
    requires forall i | 0 <= i < |ids| :: Due(s.table, now, ids[i])
    requires FirstEligible(s.table, now, s.inflight, ids).Some?
    ensures Runs(s, acts, ClaimFor(s, FirstEligible(s.table, now, s.inflight, ids).value, w, now))
    decreases |ids|
  {
    assert Due(s.table, now, ids[0]);
    var s1 := Apply(s, Poll(Inspect));
    var rest;
    if Eligible(s.table, now, s.inflight, ids[0]) {
      rest := [Cas(w, now)];
      assert Apply(s1, Cas(w, now)) == ClaimFor(s, ids[0], w, now);
      assert rest[1..] == [];
    } else {
      rest := ScanIsARun(s1, ids[1..], w, now);
    }
    acts := [Poll(Inspect)] + rest;
    assert acts[1..] == rest;
  }

  lemma LiveKeepsInv(s: State, l: Live)
    requires Inv(s) && LiveEnabled(s, l)
    ensures Inv(LiveApply(s, l))
  {
    match l {
      case Claim(w, id, now) =>
        var checked := s.(poller := Checked(id, []));
        assert PollerSane(checked);
        assert Inv(checked);
        StepKeepsInv(checked, Cas(w, now));
        assert Apply(checked, Cas(w, now)) == ClaimFor(s, id, w, now);
      case Task(w, step) => StepKeepsInv(s, Move(w, step));
      case Finish(w, now) => StepKeepsInv(s, Commit(w, now));
    }
  }

  // ── the measure ──────────────────────────────────────────────────────

  /** Attempts a send still has; one for a sync job that has not begun. */
  function RowMajor(r: Row): nat {
    if Terminal(r) then 0
    else if r.payload.SendMessage? then (if r.attempts < 3 then 3 - r.attempts else 0)
    else if r.payload.SyncAccount? && r.status == Pending then 1
    else 0
  }

  function WorkerMajor(k: Worker): nat {
    if k.payload.SyncAccount? && (k.pc.Started? || k.pc == Writing(Revert)) then 1 else 0
  }

  function RowMinor(r: Row): nat { if r.status == Pending then 6 else 0 }

  /** Between two begins a task only moves down this ladder; a task about to
      lose the race for its account stands above the pending row it becomes. */
  function WorkerMinor(k: Worker, inflight: set<Account>): nat {
    match k.pc
    case Started => if Busy(k.payload, inflight) then 8 else 5
    case Syncing => 4
    case Sending => 4
    case Leaving(_) => 3
    case Deciding(_) => 3
    case Writing(w) => if w == Revert then 7 else 2
  }

  function RowMajors(t: Table): map<nat, nat> { map id | id in t :: RowMajor(t[id]) }
  function RowMinors(t: Table): map<nat, nat> { map id | id in t :: RowMinor(t[id]) }
  function WorkerMajors(ws: Workers): map<nat, nat> { map w | w in ws :: WorkerMajor(ws[w]) }
  function WorkerMinors(ws: Workers, inflight: set<Account>): map<nat, nat> {
    map w | w in ws :: WorkerMinor(ws[w], inflight)
  }

  ghost function Major(s: State): nat { Sum(RowMajors(s.table)) + Sum(WorkerMajors(s.workers)) }
  ghost function Minor(s: State): nat { Sum(RowMinors(s.table)) + Sum(WorkerMinors(s.workers, s.inflight)) }

  /** No minor part can outweigh one major unit. */
  function Scale(s: State): nat { 6 * |s.table| + 8 * s.capacity + 1 }

  ghost function Measure(s: State): nat { Major(s) * Scale(s) + Minor(s) }

  lemma MinorBelowScale(s: State)
    requires |s.workers| <= s.capacity
    ensures Minor(s) < Scale(s)
  {
    SumBounded(RowMinors(s.table), 6);
    SumBounded(WorkerMinors(s.workers, s.inflight), 8);
    TimesIsProduct(6, |s.table|);
    TimesIsProduct(8, |s.workers|);
    assert RowMinors(s.table).Keys == s.table.Keys;
    assert WorkerMinors(s.workers, s.inflight).Keys == s.workers.Keys;
    assert |RowMinors(s.table)| == |s.table| && |WorkerMinors(s.workers, s.inflight)| == |s.workers|;
  }

  /** Replacing one row changes the two row sums by that row's difference. */
  lemma RowChanged(t: Table, id: JobId, r: Row)
    requires id in t
    ensures Sum(RowMajors(t[id := r])) + RowMajor(t[id]) == Sum(RowMajors(t)) + RowMajor(r)
    ensures Sum(RowMinors(t[id := r])) + RowMinor(t[id]) == Sum(RowMinors(t)) + RowMinor(r)
    ensures |t[id := r]| == |t|
  {
    assert RowMajors(t[id := r]) == RowMajors(t)[id := RowMajor(r)];
    assert RowMinors(t[id := r]) == RowMinors(t)[id := RowMinor(r)];
    SumPut(RowMajors(t), id, RowMajor(r));
    SumPut(RowMinors(t), id, RowMinor(r));
    assert t[id := r].Keys == t.Keys;
  }

  lemma WorkerPut(ws: Workers, inflight: set<Account>, w: WorkerId, k: Worker)
    ensures Sum(WorkerMajors(ws[w := k])) + (if w in ws then WorkerMajor(ws[w]) else 0) ==
            Sum(WorkerMajors(ws)) + WorkerMajor(k)
    ensures Sum(WorkerMinors(ws[w := k], inflight)) + (if w in ws then WorkerMinor(ws[w], inflight) else 0)
         == Sum(WorkerMinors(ws, inflight)) + WorkerMinor(k, inflight)
  {
    assert WorkerMajors(ws[w := k]) == WorkerMajors(ws)[w := WorkerMajor(k)];
    assert WorkerMinors(ws[w := k], inflight) == WorkerMinors(ws, inflight)[w := WorkerMinor(k, inflight)];
    SumPut(WorkerMajors(ws), w, WorkerMajor(k));
    SumPut(WorkerMinors(ws, inflight), w, WorkerMinor(k, inflight));
  }

  lemma WorkerGone(ws: Workers, inflight: set<Account>, w: WorkerId)
    requires w in ws
    ensures Sum(WorkerMajors(ws)) == WorkerMajor(ws[w]) + Sum(WorkerMajors(ws - {w}))
    ensures Sum(WorkerMinors(ws, inflight)) == WorkerMinor(ws[w], inflight) + Sum(WorkerMinors(ws - {w}, inflight))
  {
    assert WorkerMajors(ws - {w}) == WorkerMajors(ws) - {w};
    assert WorkerMinors(ws - {w}, inflight) == WorkerMinors(ws, inflight) - {w};
    SumWithout(WorkerMajors(ws), w);
    SumWithout(WorkerMinors(ws, inflight), w);
  }

  /** An account leaving the in-flight set never raises the minor sum. */
  lemma FewerInFlight(ws: Workers, inflight: set<Account>, inflight': set<Account>)
    requires inflight' <= inflight
    ensures Sum(WorkerMinors(ws, inflight')) <= Sum(WorkerMinors(ws, inflight))
  {
    SumMonotone(WorkerMinors(ws, inflight'), WorkerMinors(ws, inflight));
  }

  /** Lexicographically smaller. */
  ghost predicate Less(s': State, s: State) {
    Major(s') < Major(s) || (Major(s') == Major(s) && Minor(s') < Minor(s))
  }

  /** What a claim does to the two sums. */
  lemma ClaimSums(s: State, id: JobId, w: WorkerId, now: int)
    requires id in s.table && w !in s.workers
    ensures var s', r := ClaimFor(s, id, w, now), s.table[id]; var k := Worker(id, r.payload, Started);
            && Major(s') + RowMajor(r) == Major(s) + RowMajor(ClaimRow(r, now)) + WorkerMajor(k)
            && Minor(s') + RowMinor(r) == Minor(s) + RowMinor(ClaimRow(r, now)) + WorkerMinor(k, s.inflight)
            && |s'.table| == |s.table|
  {
    var r := s.table[id];
    RowChanged(s.table, id, ClaimRow(r, now));
    WorkerPut(s.workers, s.inflight, w, Worker(id, r.payload, Started));
  }

  /** A claimed row passes its major unit on to its task, which stands lower. */
  lemma ClaimLadder(r: Row, id: JobId, now: int, inflight: set<Account>)
    requires r.status == Pending
    ensures var k := Worker(id, r.payload, Started);
            && RowMajor(ClaimRow(r, now)) + WorkerMajor(k) == RowMajor(r)
            && RowMinor(ClaimRow(r, now)) + WorkerMinor(k, inflight) ==
               RowMinor(r) + (if Busy(r.payload, inflight) then 2 else 0)
               - (if Busy(r.payload, inflight) then 0 else 1)
  {
  }

  lemma ClaimDescends(s: State, l: Live)
    requires LiveEnabled(s, l) && l.Claim?
    ensures Less(LiveApply(s, l), s)
    ensures |LiveApply(s, l).table| == |s.table|
  {
    ClaimSums(s, l.id, l.w, l.now);
    ClaimLadder(s.table[l.id], l.id, l.now, s.inflight);
  }

  /** A task step goes down the ladder, or is a begin and spends the major unit. */
  lemma TaskLadder(k: Worker, step: TaskStep, inflight: set<Account>, attempts: nat)
    requires TaskEnabled(k, step)
    ensures var k' := k.(pc := TaskNext(k, step, inflight, attempts));
            var inflight' := FlightNext(k, step, inflight);
            || WorkerMajor(k') < WorkerMajor(k)
            || (WorkerMajor(k') == WorkerMajor(k) && WorkerMinor(k', inflight) < WorkerMinor(k, inflight)
               && inflight' <= inflight)
  {
  }

  lemma TaskDescends(s: State, l: Live)
    requires LiveEnabled(s, l) && l.Task?
    ensures Less(LiveApply(s, l), s)
    ensures LiveApply(s, l).table == s.table
  {
    var s', k := LiveApply(s, l), s.workers[l.w];
    TaskLadder(k, l.step, s.inflight, s.table[k.job].attempts);
    WorkerPut(s.workers, s.inflight, l.w, s'.workers[l.w]);
    if s'.inflight <= s.inflight {
      FewerInFlight(s'.workers, s.inflight, s'.inflight);
    }
  }

  /** A last write spends a send attempt, ends the row, or puts a sync job back. */
  lemma WriteLadder(k: Worker, r: Row, now: int, inflight: set<Account>)
    requires k.pc.Writing? && k.payload == r.payload && r.status == Running && PcFits(k, r.attempts) && AttemptsFit(r)
    ensures var r' := WriteRow(r, k.pc.w, now);
            || RowMajor(r') < RowMajor(r) + WorkerMajor(k)
            || (RowMajor(r') == RowMajor(r) + WorkerMajor(k) && RowMinor(r') < RowMinor(r) + WorkerMinor(k, inflight))
  {
  }

  lemma FinishDescends(s: State, l: Live)
    requires LiveEnabled(s, l) && l.Finish?
    requires var k := s.workers[l.w];
             RunsIn(s.table, k.job) && PcFits(k, s.table[k.job].attempts) && AttemptsFit(s.table[k.job])
    requires s.workers[l.w].payload == s.table[s.workers[l.w].job].payload
    ensures Less(LiveApply(s, l), s)
    ensures |LiveApply(s, l).table| == |s.table|
  {
    var k := s.workers[l.w];
    WriteLadder(k, s.table[k.job], l.now, s.inflight);
    RowChanged(s.table, k.job, WriteRow(s.table[k.job], k.pc.w, l.now));
    WorkerGone(s.workers, s.inflight, l.w);
  }

  /** What a last write needs to know of its row. */
  ghost predicate Settled(s: State, w: WorkerId) {
    && w in s.workers && RunsIn(s.table, s.workers[w].job) && AttemptsFit(s.table[s.workers[w].job])
    && PcFits(s.workers[w], s.table[s.workers[w].job].attempts)
    && s.workers[w].payload == s.table[s.workers[w].job].payload
  }

  lemma TasksAreSettled(s: State, w: WorkerId)
    requires OneTaskPerRow(s.table, s.workers) && AttemptsBounded(s.table, s.workers) && w in s.workers
    ensures Settled(s, w)
  {
    assert RunsIn(s.table, s.workers[w].job);
  }

  lemma EarlyStepIsLess(s: State, l: Live)
    requires LiveEnabled(s, l) && !l.Finish?
    ensures Less(LiveApply(s, l), s) && |LiveApply(s, l).table| == |s.table|
  {
    if l.Claim? {
      ClaimDescends(s, l);
    } else {
      TaskDescends(s, l);
    }
  }

  lemma SettledStepIsLess(s: State, l: Live)
    requires LiveEnabled(s, l) && (l.Finish? ==> Settled(s, l.w))
    ensures Less(LiveApply(s, l), s) && |LiveApply(s, l).table| == |s.table|
  {
    if l.Finish? {
      FinishDescends(s, l);
    } else {
      EarlyStepIsLess(s, l);
    }
  }

  lemma EveryStepIsLess(s: State, l: Live)
    requires Inv(s) && LiveEnabled(s, l)
    ensures Less(LiveApply(s, l), s) && Scale(LiveApply(s, l)) == Scale(s)
  {
    if l.Finish? {
      TasksAreSettled(s, l.w);
    }
    SettledStepIsLess(s, l);
  }

  lemma LessLowersMeasure(s: State, s': State)
    requires Less(s', s) && Scale(s') == Scale(s) && |s'.workers| <= s'.capacity
    ensures Measure(s') < Measure(s)
  {
    MinorBelowScale(s');
    if Major(s') < Major(s) {
      Descends(Major(s'), Minor(s'), Major(s), Scale(s));
    }
  }

  /** Every step lowers the measure. */
  lemma EveryStepDescends(s: State, l: Live)
    requires Inv(s) && LiveEnabled(s, l)
    ensures Inv(LiveApply(s, l)) && Measure(LiveApply(s, l)) < Measure(s)
  {
    LiveKeepsInv(s, l);
    EveryStepIsLess(s, l);
    LessLowersMeasure(s, LiveApply(s, l));
  }

  lemma Descends(major': nat, minor': nat, major: nat, scale: nat)
    requires major' < major && minor' < scale
    ensures major' * scale + minor' < major * scale
  {
    assert (major' + 1) * scale <= major * scale;
  }

  ghost predicate LiveRuns(s: State, run: seq<Live>, s': State)
    decreases |run|
  {
    if run == [] then s == s' else LiveEnabled(s, run[0]) && LiveRuns(LiveApply(s, run[0]), run[1..], s')
  }

  /** Termination: no run from `s` takes more than `Measure(s)` steps. */
  lemma {:induction false} EveryRunIsFinite(s: State, run: seq<Live>, s': State)
    requires Inv(s) && LiveRuns(s, run, s')
    ensures Inv(s')
    ensures |run| + Measure(s') <= Measure(s)
    decreases |run|
  {
    if run != [] {
      EveryStepDescends(s, run[0]);
      EveryRunIsFinite(LiveApply(s, run[0]), run[1..], s');
    }
  }

  // ── where it stops ───────────────────────────────────────────────────

  /** Every program counter has a next step. */
  function NextLive(k: Worker, w: WorkerId): Live {
    match k.pc
    case Started =>
      if k.payload.SyncAccount? then Task(w, TryBegin)
      else if k.payload.SendMessage? then Task(w, CallPlugin)
      else Task(w, Settle(true))
    case Syncing => Task(w, SyncReturns(true))
    case Leaving(_) => Task(w, Leave)
    case Sending => Task(w, PluginReturns(true, false))
    case Deciding(_) => Task(w, Decide)
    case Writing(_) => Finish(w, 0)
  }

  lemma TasksAreNeverStuck(s: State, w: WorkerId)
    requires w in s.workers && s.workers[w].job in s.table && PcFits(s.workers[w], s.table[s.workers[w].job].attempts)
    ensures LiveEnabled(s, NextLive(s.workers[w], w)) && !NextLive(s.workers[w], w).Claim?
  {
  }

  lemma {:induction false} SomeRowIsFirst(t: Table, ids: set<JobId>) returns (first: JobId)
    requires ids != {} && ids <= t.Keys
    ensures first in ids && forall j | j in ids :: NotAfter(t[first], t[j])
    decreases |ids|
  {
    first :| first in ids;
    if ids != {first} {
      var rest := ids - {first};
      assert rest != {};
      var other := SomeRowIsFirst(t, rest);
      if !NotAfter(t[first], t[other]) {
        first := other;
      }
    }
  }

  /** When the idle pool can take no step at `now`, every row is finished, not
      due yet, unreadable, or an orphan of a failed write. */
  lemma StopsOnlyWhenNothingIsLeft(s: State, now: int)
    requires Inv(s) && s.poller.Idle?
    requires forall l | LiveEnabled(s, l) :: l.Claim? && l.now != now
    ensures s.workers == map[] && s.inflight == {}
    ensures forall id | id in s.table && id !in s.orphans ::
              Terminal(s.table[id])
                || (s.table[id].status == Pending && (now < s.table[id].runAt || s.table[id].payload == Unreadable))
  {
    if w :| w in s.workers {
      TasksAreNeverStuck(s, w);
      assert false;
    }
    assert s.workers == map[];
    assert forall account | account in s.inflight :: HasHolder(s.workers, account);
    var ids := set id | id in s.table && Eligible(s.table, now, s.inflight, id);
    if ids != {} {
      var first := SomeRowIsFirst(s.table, ids);
      assert Claimable(s, first, now);
      assert LiveEnabled(s, Claim(0, first, now));
      assert false;
    }
    forall id | id in s.table && id !in s.orphans
      ensures Terminal(s.table[id])
        || (s.table[id].status == Pending && (now < s.table[id].runAt || s.table[id].payload == Unreadable))
    {
      assert id !in ids;
      assert !HasOwner(s.workers, id);
      assert !RunsIn(s.table, id);
    }
  }
}
