/** Termination with the claim kept in its separate steps: the poller may poll for
    ever, but a closed pool does only boundedly much work. */
module PoolWork {
  import opened JobTable
  import opened WorkerPool
  import opened PoolTermination

  /** No new jobs, no restarts, no failed writes. */
  predicate Closed(a: Action) { a.Poll? || a.Cas? || a.Move? || a.Commit? }

  /** The rows the poller still has in hand are pending. */
  ghost predicate InHand(s: State) {
    && (s.poller.Scanning? ==> AllPending(s.table, s.poller.rest))
    && (s.poller.Checked? ==> IsPending(s.table, s.poller.id) && AllPending(s.table, s.poller.rest))
  }

  predicate IsPending(t: Table, id: JobId) { id in t && t[id].status == Pending }

  ghost predicate AllPending(t: Table, ids: seq<JobId>) { forall i | 0 <= i < |ids| :: IsPending(t, ids[i]) }

  /** A claim on its way to an account that went busy after the check. */
  function Doomed(t: Table, inflight: set<Account>, p: Poller): nat {
    if p.Checked? && p.id in t && Busy(t[p.id].payload, inflight) then 3 else 0
  }

  ghost function Fine(s: State): nat { Minor(s) + Doomed(s.table, s.inflight, s.poller) }

  /** Fine parts stay below the scale, so major parts decide. */
  function Weigh(major: nat, fine: nat, scale: nat): nat { major * scale + fine }

  ghost function Work(s: State): nat { Weigh(Major(s), Fine(s), Scale(s) + 3) }

  ghost predicate Lower(s': State, s: State) {
    Major(s') < Major(s) || (Major(s') == Major(s) && Fine(s') < Fine(s))
  }

  // ── polling ──────────────────────────────────────────────────────────

  /** Polling changes neither rows nor tasks, and never checks a busy account. */
  lemma PollIsFree(s: State, p: PollStep)
    requires Enabled(s, Poll(p)) && InHand(s)
    ensures var s' := Apply(s, Poll(p)); InHand(s') && Work(s') <= Work(s)
  {
    var s' := Apply(s, Poll(p));
    if p.Select? {
      forall i | 0 <= i < |p.ids|
        ensures IsPending(s.table, p.ids[i])
      {
        assert Due(s.table, p.now, p.ids[i]);
      }
    }
    assert Minor(s') == Minor(s) && Major(s') == Major(s) && Scale(s') == Scale(s);
    assert Doomed(s'.table, s'.inflight, s'.poller) == 0 || p.Acquire?;
  }

  // ── claiming ─────────────────────────────────────────────────────────

  /** A claim pays with its row; a doomed one also with what it was charged. */
  lemma CasLowers(s: State, w: WorkerId, now: int)
    requires Enabled(s, Cas(w, now)) && InHand(s)
    ensures var s' := Apply(s, Cas(w, now)); InHand(s') && Lower(s', s) && |s'.table| == |s.table|
  {
    var id := s.poller.id;
    assert IsPending(s.table, id);
    assert Apply(s, Cas(w, now)) == ClaimFor(s, id, w, now);
    ClaimSums(s, id, w, now);
    ClaimLadder(s.table[id], id, now, s.inflight);
  }

  // ── tasks and writes ─────────────────────────────────────────────────

  lemma FewerDoomed(t: Table, inflight: set<Account>, inflight': set<Account>, p: Poller)
    requires inflight' <= inflight
    ensures Doomed(t, inflight', p) <= Doomed(t, inflight, p)
  {
  }

  lemma TaskLowers(s: State, w: WorkerId, step: TaskStep)
    requires Enabled(s, Move(w, step)) && InHand(s)
    ensures var s' := Apply(s, Move(w, step)); InHand(s') && Lower(s', s) && s'.table == s.table
  {
    var s', k := Apply(s, Move(w, step)), s.workers[w];
    assert LiveApply(s, Task(w, step)) == s';
    TaskDescends(s, Task(w, step));
    TaskLadder(k, step, s.inflight, s.table[k.job].attempts);
    WorkerPut(s.workers, s.inflight, w, s'.workers[w]);
    if s'.inflight <= s.inflight {
      FewerDoomed(s.table, s.inflight, s'.inflight, s.poller);
    }
  }

  lemma WritesKeepPending(t: Table, id: JobId, r: Row, ids: seq<JobId>)
    requires AllPending(t, ids) && id in t && t[id].status == Running
    ensures AllPending(t[id := r], ids)
  {
  }

  lemma WriteKeepsHand(s: State, s': State, id: JobId, r: Row)
    requires InHand(s) && RunsIn(s.table, id) && s'.table == s.table[id := r] && s'.poller == s.poller
    ensures InHand(s')
  {
    if s.poller.Scanning? || s.poller.Checked? {
      WritesKeepPending(s.table, id, r, s.poller.rest);
    }
  }

  lemma SameDoom(t: Table, id: JobId, r: Row, inflight: set<Account>, p: Poller)
    requires id in t && r.payload == t[id].payload
    ensures Doomed(t[id := r], inflight, p) == Doomed(t, inflight, p)
  {
  }

  lemma CommitLowers(s: State, w: WorkerId, now: int)
    requires Enabled(s, Commit(w, now)) && InHand(s)
    requires var k := s.workers[w];
             RunsIn(s.table, k.job) && PcFits(k, s.table[k.job].attempts) && AttemptsFit(s.table[k.job])
    requires s.workers[w].payload == s.table[s.workers[w].job].payload
    ensures var s' := Apply(s, Commit(w, now)); InHand(s') && Lower(s', s) && |s'.table| == |s.table|
  {
    var k, s' := s.workers[w], Apply(s, Commit(w, now));
    var r := WriteRow(s.table[k.job], k.pc.w, now);
    FinishDescends(s, Finish(w, now));
    assert LiveApply(s, Finish(w, now)) == s';
    WriteKeepsHand(s, s', k.job, r);
    SameDoom(s.table, k.job, r, s.inflight, s.poller);
  }

  // ── whole runs ───────────────────────────────────────────────────────

  lemma WeighsLess(major': nat, fine': nat, major: nat, fine: nat, scale: nat)
    requires fine' < scale && (major' < major || (major' == major && fine' < fine))
    ensures Weigh(major', fine', scale) < Weigh(major, fine, scale)
  {
    if major' < major {
      Descends(major', fine', major, scale);
    }
  }

  lemma FineBelowScale(s: State)
    requires |s.workers| <= s.capacity
    ensures Fine(s) < Scale(s) + 3
  {
    MinorBelowScale(s);
  }

  lemma LowerIsLess(s: State, s': State)
    requires Lower(s', s) && Scale(s') == Scale(s) && |s'.workers| <= s'.capacity
    ensures Work(s') < Work(s)
  {
    FineBelowScale(s');
    WeighsLess(Major(s'), Fine(s'), Major(s), Fine(s), Scale(s) + 3);
  }

  lemma CommitPays(s: State, w: WorkerId, now: int)
    requires Inv(s) && InHand(s) && Enabled(s, Commit(w, now))
    ensures var s' := Apply(s, Commit(w, now)); InHand(s') && Lower(s', s) && |s'.table| == |s.table|
  {
    assert RunsIn(s.table, s.workers[w].job);
    CommitLowers(s, w, now);
  }

  /** Claiming, moving and committing each lower the measure. */
  lemma EffortLowers(s: State, a: Action)
    requires Inv(s) && InHand(s) && (a.Cas? || a.Move? || a.Commit?) && Enabled(s, a)
    ensures var s' := Apply(s, a); InHand(s') && Lower(s', s) && Scale(s') == Scale(s)
  {
    match a {
      case Cas(w, now) => CasLowers(s, w, now);
      case Move(w, step) => TaskLowers(s, w, step);
      case Commit(w, now) => CommitPays(s, w, now);
    }
  }

  lemma PermitsCoverWorkers(s: State)
    requires PollerSane(s)
    ensures |s.workers| <= s.capacity
  {
  }

  /** Polling costs nothing; claiming, moving and committing each cost a unit. */
  lemma EveryActionPays(s: State, a: Action)
    requires Inv(s) && InHand(s) && Closed(a) && Enabled(s, a)
    ensures var s' := Apply(s, a); Inv(s') && InHand(s') && Work(s') + (if a.Poll? then 0 else 1) <= Work(s)
  {
    StepKeepsInv(s, a);
    if a.Poll? {
      PollIsFree(s, a.poll);
    } else {
      EffortLowers(s, a);
      PermitsCoverWorkers(Apply(s, a));
      LowerIsLess(s, Apply(s, a));
    }
  }

  /** Claims, task steps and last writes of a run. */
  function Efforts(acts: seq<Action>): nat {
    if acts == [] then 0 else (if acts[0].Poll? then 0 else 1) + Efforts(acts[1..])
  }

  /** In every interleaving of a closed pool, however long it polls, the claims,
      task steps and writes stay within the measure of its first state. */
  lemma {:induction false} WorkIsBounded(s: State, acts: seq<Action>, s': State)
    requires Inv(s) && InHand(s) && Runs(s, acts, s') && forall a | a in acts :: Closed(a)
    ensures Inv(s') && InHand(s') && Efforts(acts) + Work(s') <= Work(s)
    decreases |acts|
  {
    if acts != [] {
      EveryActionPays(s, acts[0]);
      WorkIsBounded(Apply(s, acts[0]), acts[1..], s');
    }
  }
}
