/** The `jobs` table of the durable queue: its rows, the single-statement
    writes the workers issue, and the two ways of claiming a job. */
module JobTable {
  import opened Base

  type JobId = nat
  type Account = string

  datatype Status = Pending | Running | Completed | Failed

  /** A stored payload. `Unreadable` stands for JSON that does not parse. */
  datatype Payload =
    | SyncAccount(account: Account, user: string)
    | UnsnoozeMessage(message: string)
    | SendMessage(account: Account, outbound: string)
    | Backup(user: string)
    | Unreadable

  /** Stamps are ordered instants; ids are unique, so ties are never lost rows. */
  datatype Row = Row(payload: Payload, status: Status, attempts: nat, runAt: int, createdAt: int, updatedAt: int)

  type Table = map<JobId, Row>

  /** The writes a worker can finish with, each an `UPDATE … WHERE id = ?`. */
  datatype Write = Complete | Fail | Reschedule(delay: nat) | Revert

  predicate Terminal(r: Row) { r.status == Completed || r.status == Failed }

  function WriteRow(r: Row, w: Write, now: int): Row {
    match w
    case Complete => r.(status := Completed, updatedAt := now)
    case Fail => r.(status := Failed, attempts := r.attempts + 1, updatedAt := now)
    case Reschedule(delay) => r.(status := Pending, attempts := r.attempts + 1, runAt := now + delay, updatedAt := now)
    case Revert => r.(status := Pending, updatedAt := now)
  }

  /** The write is filtered by id only: an id that is gone changes nothing. */
  function WriteTable(t: Table, id: JobId, w: Write, now: int): Table {
    if id in t then t[id := WriteRow(t[id], w, now)] else t
  }

  function NewRow(p: Payload, runAt: int, now: int): Row {
    Row(p, Pending, 0, runAt, now, now)
  }

  function Reclaim(t: Table, now: int): Table {
    map id | id in t :: if t[id].status == Running then t[id].(status := Pending, updatedAt := now) else t[id]
  }

  function ClaimRow(r: Row, now: int): Row { r.(status := Running, updatedAt := now) }

  predicate Due(t: Table, now: int, id: JobId) {
    id in t && t[id].status == Pending && t[id].runAt <= now
  }

  /** `ORDER BY run_at ASC, created_at ASC`. */
  predicate NotAfter(x: Row, y: Row) {
    x.runAt < y.runAt || (x.runAt == y.runAt && x.createdAt <= y.createdAt)
  }

  /** A listing the database may answer the claim's SELECT with: every due
      pending row exactly once, in order, ties in whatever order it likes. */
  ghost predicate Selection(t: Table, now: int, ids: seq<JobId>) {
    && (forall i | 0 <= i < |ids| :: Due(t, now, ids[i]))
    && (forall id | Due(t, now, id) :: id in ids)
    && (forall i, j | 0 <= i < j < |ids| :: ids[i] != ids[j])
    && (forall i, j | 0 <= i < j < |ids| :: ids[i] in t && ids[j] in t && NotAfter(t[ids[i]], t[ids[j]]))
  }

  predicate Busy(p: Payload, inflight: set<Account>) { p.SyncAccount? && p.account in inflight }

  predicate Eligible(t: Table, now: int, inflight: set<Account>, id: JobId) {
    Due(t, now, id) && t[id].payload != Unreadable && !Busy(t[id].payload, inflight)
  }

  /** A row added is due exactly from its `run_at` on, and created at the call. */
  lemma EnqueuedIsDue(t: Table, id: JobId, p: Payload, runAt: int, now: int)
    ensures var t' := t[id := NewRow(p, runAt, now)];
            && (forall at :: Due(t', at, id) <==> runAt <= at)
            && t'[id].payload == p && t'[id].attempts == 0 && t'[id].createdAt == t'[id].updatedAt == now
  {
  }

  datatype Claim = Nothing | Claimed(id: JobId, payload: Payload) | DecodeError(id: JobId)

  /** The per-account set behind a mutex (`InFlight`). */
  class InFlight {
    var accounts: set<Account>

    constructor ()
      ensures accounts == {}
    {
      accounts := {};
    }

    /** Insertion reports whether the account was new: the caller owns it iff so. */
    method TryBegin(account: Account) returns (began: bool)
      modifies this
      ensures began == (account !in old(accounts))
      ensures accounts == old(accounts) + {account}
    {
      began := account !in accounts;
      accounts := accounts + {account};
    }

    method Finish(account: Account)
      modifies this
      ensures accounts == old(accounts) - {account}
    {
      accounts := accounts - {account};
    }
  }

  class JobStore {
    var rows: Table

    constructor ()
      ensures rows == map[]
    {
      rows := map[];
    }

    method Enqueue(id: JobId, payload: Payload, runAt: int, now: int)
      requires id !in rows
      modifies this
      ensures rows == old(rows)[id := NewRow(payload, runAt, now)]
      ensures forall other | other in old(rows) :: other in rows && rows[other] == old(rows)[other]
      ensures forall at :: Due(rows, at, id) <==> runAt <= at
      ensures rows[id].payload == payload && rows[id].attempts == 0
      ensures rows[id].createdAt == now && rows[id].updatedAt == now
    {
      EnqueuedIsDue(rows, id, payload, runAt, now);
      rows := rows[id := NewRow(payload, runAt, now)];
    }

    /** `mark_completed`, `mark_failed`, `reschedule_transient`, `revert_pending`. */
    method Commit(id: JobId, w: Write, now: int)
      modifies this
      ensures rows == WriteTable(old(rows), id, w, now)
      ensures rows.Keys == old(rows).Keys
      ensures forall other | other in rows && other != id :: rows[other] == old(rows)[other]
    {
      if id in rows {
        rows := rows[id := WriteRow(rows[id], w, now)];
      }
    }

    method ReclaimStaleRunning(now: int) returns (count: nat)
      modifies this
      ensures rows == Reclaim(old(rows), now)
      ensures forall id | id in rows :: rows[id].status != Running
      ensures count == |set id | id in old(rows) && old(rows)[id].status == Running|
    {
      count := |set id | id in rows && rows[id].status == Running|;
      rows := Reclaim(rows, now);
    }

    /** `claim_due`: one UPDATE over the first row of the ordered SELECT. A row
        whose payload does not parse is still flipped to running. */
    method ClaimDue(now: int, ids: seq<JobId>, stamp: int) returns (c: Claim)
      requires Selection(rows, now, ids)
      modifies this
      ensures c.Nothing? <==> forall id :: !Due(old(rows), now, id)
      ensures c.Nothing? ==> rows == old(rows)
      ensures !c.Nothing? ==>
                && Due(old(rows), now, c.id)
                && (forall id | Due(old(rows), now, id) :: NotAfter(old(rows)[c.id], old(rows)[id]))
                && rows == old(rows)[c.id := ClaimRow(old(rows)[c.id], stamp)]
                && (c.DecodeError? <==> old(rows)[c.id].payload == Unreadable)
      ensures c.Claimed? ==> c.payload == old(rows)[c.id].payload
      ensures !c.Nothing? ==> c.id == ids[0]
    {
      if ids == [] {
        return Nothing;
      }
      var id := ids[0];
      assert Due(rows, now, id);
      var p := rows[id].payload;
      rows := rows[id := ClaimRow(rows[id], stamp)];
      c := if p == Unreadable then DecodeError(id) else Claimed(id, p);
    }

    /** `claim_next`: walk the listing, skip unreadable payloads and accounts in
        flight, compare-and-set the first row left. */
    method ClaimNext(now: int, inflight: InFlight, ids: seq<JobId>, stamp: int) returns (c: Claim)
      requires Selection(rows, now, ids)
      modifies this
      ensures !c.DecodeError?
      ensures c.Nothing? <==> forall id :: !Eligible(old(rows), now, inflight.accounts, id)
      ensures c.Nothing? ==> rows == old(rows)
      ensures c.Claimed? ==>
                && Eligible(old(rows), now, inflight.accounts, c.id)
                && (forall id | Eligible(old(rows), now, inflight.accounts, id) ::
                      NotAfter(old(rows)[c.id], old(rows)[id]))
                && rows == old(rows)[c.id := ClaimRow(old(rows)[c.id], stamp)]
                && c.payload == old(rows)[c.id].payload
      ensures c.Claimed? ==> c.id in ids
      ensures c.Claimed? ==> FirstEligible(old(rows), now, inflight.accounts, ids) == Some(c.id)
    {
      for i := 0 to |ids|
        invariant rows == old(rows)
        invariant FirstEligible(rows, now, inflight.accounts, ids) ==
                  FirstEligible(rows, now, inflight.accounts, ids[i..])
      {
        assert ids[i..][0] == ids[i] && ids[i..][1..] == ids[i + 1..];
        assert Due(rows, now, ids[i]);
        var p := rows[ids[i]].payload;
        if p == Unreadable {
          continue;
        }
        if p.SyncAccount? && p.account in inflight.accounts {
          continue;
        }
        if rows[ids[i]].status == Pending {
          FirstEligibleIsLeast(rows, now, inflight.accounts, ids);
          rows := rows[ids[i] := ClaimRow(rows[ids[i]], stamp)];
          return Claimed(ids[i], p);
        }
      }
      FirstEligibleIsLeast(rows, now, inflight.accounts, ids);
      return Nothing;
    }
  }

  /** The first listed row that may be claimed. */
  function FirstEligible(t: Table, now: int, inflight: set<Account>, ids: seq<JobId>): (r: Option<JobId>)
    ensures r.Some? ==> r.value in ids && Eligible(t, now, inflight, r.value)
    ensures r.None? ==> forall i | 0 <= i < |ids| :: !Eligible(t, now, inflight, ids[i])
  {
    if ids == [] then None
    else if Eligible(t, now, inflight, ids[0]) then Some(ids[0])
    else FirstEligible(t, now, inflight, ids[1..])
  }

  /** No eligible row is ever passed over: the choice is least in
      (run_at, created_at) order, and there is none only if no row is eligible. */
  lemma {:induction false} FirstEligibleIsLeast(t: Table, now: int, inflight: set<Account>, ids: seq<JobId>)
    requires Selection(t, now, ids)
    ensures var r := FirstEligible(t, now, inflight, ids);
            && (r.None? <==> forall id :: !Eligible(t, now, inflight, id))
            && (r.Some? ==> forall id | Eligible(t, now, inflight, id) :: NotAfter(t[r.value], t[id]))
            && (r.Some? ==> forall id | Eligible(t, now, inflight, id) ::
                  && t[r.value].runAt <= t[id].runAt
                  && (t[r.value].runAt == t[id].runAt ==> t[r.value].createdAt <= t[id].createdAt))
  {
    var r := FirstEligible(t, now, inflight, ids);
    if r.Some? {
      var k := FirstEligibleIndex(t, now, inflight, ids);
      forall id | Eligible(t, now, inflight, id)
        ensures NotAfter(t[r.value], t[id])
      {
        var j :| 0 <= j < |ids| && ids[j] == id;
        assert k <= j;
      }
    }
  }

  lemma {:induction false} FirstEligibleIndex(t: Table, now: int, inflight: set<Account>,
                                              ids: seq<JobId>) returns (k: nat)
    requires FirstEligible(t, now, inflight, ids).Some?
    ensures k < |ids| && ids[k] == FirstEligible(t, now, inflight, ids).value
    ensures forall i | 0 <= i < k :: !Eligible(t, now, inflight, ids[i])
  {
    if Eligible(t, now, inflight, ids[0]) {
      k := 0;
    } else {
      var rest := FirstEligibleIndex(t, now, inflight, ids[1..]);
      k := rest + 1;
      assert forall i | 1 <= i < k :: ids[i] == ids[1..][i - 1];
    }
  }

  /** With nothing in flight and every due payload readable, `claim_next` and
      `claim_due` take the same row of the same listing. */
  lemma ClaimNextAgreesWithClaimDue(t: Table, now: int, ids: seq<JobId>)
    requires Selection(t, now, ids)
    requires forall id | Due(t, now, id) :: t[id].payload != Unreadable
    ensures FirstEligible(t, now, {}, ids) == (if ids == [] then None else Some(ids[0]))
    ensures ids != [] ==> forall id | Due(t, now, id) :: NotAfter(t[ids[0]], t[id])
  {
    if ids != [] {
      assert Eligible(t, now, {}, ids[0]);
      FirstEligibleIsLeast(t, now, {}, ids);
      assert forall id | Due(t, now, id) :: Eligible(t, now, {}, id);
    }
  }
}
