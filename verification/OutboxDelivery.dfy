/**
 * The manual delivery pass of apps/prestashop-module/openlinker/openlinker.php over the outbox table of
 * classes/OutboxRepository.php. Every repository call and every send may fail; the failures are inputs.
 * Logging is taken not to fail.
 */
module OutboxDelivery {
  import opened Wrappers

  type RowId = int
  type RunId = string

  datatype Status = Pending | Processing | Delivered | Failed

  datatype Row = Row(status: Status, owner: Option<RunId>, attempts: int, createdAt: int)

  type Outbox = map<RowId, Row>

  /**
   * How a statement ends: with its effect, with the driver answering false and no effect (the callers
   * ignore the returned value), by an exception before the effect, or by one after it.
   */
  datatype Fault = Fine | Silent | ThrewBefore | ThrewAfter

  /** How the SELECT of the claim ends: with the claimed rows, with the driver answering false, or by an exception. */
  datatype Select = Rows | AnsweredFalse | SelectThrew

  datatype Send = Accepted | Refused | Threw

  /** What one delivery meets: the send, the write after it, and the write in the catch block. */
  datatype Trial = Trial(send: Send, first: Fault, second: Fault)

  datatype Exit = NothingDue | Finished | BudgetReached | Error

  predicate TakesEffect(fault: Fault) {
    fault.Fine? || fault.ThrewAfter?
  }

  predicate Throws(fault: Fault) {
    fault.ThrewBefore? || fault.ThrewAfter?
  }

  // ---------------------------------------------------------------- single statements

  function MarkedDelivered(r: Row): Row {
    r.(status := Delivered, owner := None, attempts := r.attempts + 1)
  }

  function MarkedFailed(r: Row): Row {
    r.(status := Failed, owner := None)
  }

  /** `scheduleRetry($id, $attemptNumber, ...)`: at the maximum it marks the row failed instead. */
  function Rescheduled(r: Row, attemptNumber: int, maxAttempts: int): Row {
    if attemptNumber >= maxAttempts then MarkedFailed(r) else r.(status := Pending, owner := None, attempts := r.attempts + 1)
  }

  function Released(r: Row): Row {
    r.(status := Pending, owner := None)
  }

  predicate Held(r: Row, runId: RunId) {
    r.status == Processing && r.owner == Some(runId)
  }

  ghost function HeldIds(rows: Outbox, runId: RunId): set<RowId> {
    set id | id in rows && Held(rows[id], runId)
  }

  function ReleasedBy(rows: Outbox, runId: RunId): Outbox {
    map id | id in rows :: if Held(rows[id], runId) then Released(rows[id]) else rows[id]
  }

  /** Rows other runs hold too long, as far as the age predicates select them. */
  function Requeued(rows: Outbox, expired: set<RowId>, runId: RunId): Outbox {
    map id | id in rows ::
      if id in expired && rows[id].status == Processing && rows[id].owner != Some(runId) then Released(rows[id]) else rows[id]
  }

  function Claimed(rows: Outbox, picked: seq<RowId>, runId: RunId): Outbox {
    map id | id in rows :: if id in picked then rows[id].(status := Processing, owner := Some(runId)) else rows[id]
  }

  lemma ReleaseFreesAll(rows: Outbox, runId: RunId)
    ensures HeldIds(ReleasedBy(rows, runId), runId) == {}
  {
    var after := ReleasedBy(rows, runId);
    forall id | id in after ensures !Held(after[id], runId) {
    }
  }

  // ---------------------------------------------------------------- one delivery

  /** The row after one delivery, whether it counts as delivered, and whether an exception left the inner handler. */
  datatype Attempted = Attempted(row: Row, delivered: bool, escaped: bool)

  function Write(before: Row, after: Row, fault: Fault): Row {
    if TakesEffect(fault) then after else before
  }

  /** The catch block: it decides on the attempt count read at claim time. */
  function Caught(r: Row, attempts: int, maxAttempts: int, fault: Fault): Attempted {
    var handled := if attempts >= maxAttempts then MarkedFailed(r) else Rescheduled(r, attempts, maxAttempts);
    Attempted(Write(r, handled, fault), false, Throws(fault))
  }

  function Attempt(r: Row, maxAttempts: int, trial: Trial): Attempted {
    match trial.send
    case Threw => Caught(r, r.attempts, maxAttempts, trial.second)
    case Accepted =>
      var w := Write(r, MarkedDelivered(r), trial.first);
      if Throws(trial.first) then Caught(w, r.attempts, maxAttempts, trial.second) else Attempted(w, true, false)
    case Refused =>
      var w := Write(r, Rescheduled(r, r.attempts, maxAttempts), trial.first);
      if Throws(trial.first) then Caught(w, r.attempts, maxAttempts, trial.second) else Attempted(w, false, false)
  }

  /** No status write of the delivery took effect. */
  predicate LostWrite(trial: Trial) {
    if trial.send != Threw && !Throws(trial.first) then trial.first.Silent?
    else !TakesEffect(trial.second) && !(trial.send != Threw && trial.first.ThrewAfter?)
  }

  /** A delivery leaves its row in `processing` exactly when its writes were lost, whether or not it ends the loop. */
  lemma AttemptReleasesIff(r: Row, maxAttempts: int, trial: Trial, runId: RunId)
    requires Held(r, runId)
    ensures Held(Attempt(r, maxAttempts, trial).row, runId) <==> LostWrite(trial)
    ensures Attempt(r, maxAttempts, trial).row.status == Processing <==> LostWrite(trial)
  {
  }

  /** The delivery is counted as delivered. */
  predicate Succeeds(trial: Trial) {
    trial.send == Accepted && !Throws(trial.first)
  }

  /** The write in the catch block raises, which ends the loop. */
  predicate Escapes(trial: Trial) {
    (trial.send == Threw || Throws(trial.first)) && Throws(trial.second)
  }

  lemma AttemptOutcome(r: Row, maxAttempts: int, trial: Trial)
    ensures Attempt(r, maxAttempts, trial).delivered <==> Succeeds(trial)
    ensures Attempt(r, maxAttempts, trial).escaped <==> Escapes(trial)
  {
  }

  /** Without failures: delivered, or failed at the maximum, or pending with one more attempt. */
  lemma AttemptWithoutFaults(r: Row, maxAttempts: int, send: Send)
    ensures var a := Attempt(r, maxAttempts, Trial(send, Fine, Fine));
            && !a.escaped && (a.delivered <==> send == Accepted) && a.row.owner == None
            && a.row.createdAt == r.createdAt
            && a.row.status == (if send == Accepted then Delivered else if r.attempts >= maxAttempts then Failed else Pending)
            && a.row.attempts == if a.row.status == Failed then r.attempts else r.attempts + 1
  {
  }

  /** An accepted event is recorded delivered exactly when its first write worked and raised nothing. */
  lemma AcceptedIsDeliveredIff(r: Row, maxAttempts: int, trial: Trial, runId: RunId)
    requires Held(r, runId) && trial.send == Accepted
    ensures Attempt(r, maxAttempts, trial).row.status == Delivered
       <==> trial.first.Fine? || (trial.first.ThrewAfter? && (trial.second.Silent? || trial.second.ThrewBefore?))
  {
  }

  class OutboxRepository {
    var rows: Outbox

    constructor (rows: Outbox)
      ensures this.rows == rows
    {
      this.rows := rows;
    }

    /** One UPDATE of one row; `threw` says whether it raised. */
    method Update(id: RowId, row: Row, fault: Fault) returns (threw: bool)
      requires id in rows
      modifies this
      ensures rows == old(rows)[id := Write(old(rows)[id], row, fault)]
      ensures threw <==> Throws(fault)
    {
      if fault.Fine? || fault.ThrewAfter? {
        rows := rows[id := row];
      }
      threw := fault.ThrewBefore? || fault.ThrewAfter?;
    }

    /** Rows other runs hold too long go back to pending. */
    method RequeueOthers(expired: set<RowId>, runId: RunId)
      modifies this
      ensures rows == Requeued(old(rows), expired, runId)
    {
      rows := Requeued(rows, expired, runId);
    }

    /** The release by run id, and `Affected_Rows()` after it; `stray` is what that reads after a false answer. */
    method RequeueEventsByRunId(runId: RunId, fault: Fault, stray: nat) returns (affected: nat, threw: bool)
      modifies this
      ensures rows == if TakesEffect(fault) then ReleasedBy(old(rows), runId) else old(rows)
      ensures HeldIds(rows, runId) == if TakesEffect(fault) then {} else HeldIds(old(rows), runId)
      ensures affected == if fault.Fine? then |HeldIds(old(rows), runId)| else stray
      ensures threw <==> Throws(fault)
    {
      var held := set id | id in rows && Held(rows[id], runId);
      if TakesEffect(fault) {
        ReleaseFreesAll(rows, runId);
        rows := ReleasedBy(rows, runId);
      }
      affected := if fault.Fine? then |held| else stray;
      threw := Throws(fault);
    }
  }

  /** One iteration's try and catch blocks. */
  method DeliverOne(repository: OutboxRepository, id: RowId, maxAttempts: int, trial: Trial)
    returns (delivered: bool, escaped: bool)
    requires id in repository.rows
    modifies repository
    ensures var a := Attempt(old(repository.rows)[id], maxAttempts, trial);
            && repository.rows == old(repository.rows)[id := a.row]
            && delivered == a.delivered && escaped == a.escaped
  {
    var event := repository.rows[id];
    var threw := trial.send == Threw;
    delivered, escaped := false, false;
    if !threw {
      if trial.send == Accepted {
        threw := repository.Update(id, MarkedDelivered(event), trial.first);
        delivered := !threw;
      } else {
        threw := repository.Update(id, Rescheduled(event, event.attempts, maxAttempts), trial.first);
      }
    }
    if threw {
      var now := repository.rows[id];
      if event.attempts >= maxAttempts {
        escaped := repository.Update(id, MarkedFailed(now), trial.second);
      } else {
        escaped := repository.Update(id, Rescheduled(now, event.attempts, maxAttempts), trial.second);
      }
    }
  }

  // ---------------------------------------------------------------- the claim

  /** The first delivery is always allowed; later ones must fit their worst case into the budget. */
  predicate HasBudget(elapsed: int, budget: int, worst: int, attempted: nat) {
    attempted == 0 || elapsed + worst <= budget
  }

  predicate Distinct(ids: seq<RowId>) {
    forall i, j :: 0 <= i < j < |ids| ==> ids[i] != ids[j]
  }

  /** What the pass meets, call by call; `cleanup` is the release in the outermost handler. */
  datatype Conditions = Conditions(
    setupThrows: bool, expired: set<RowId>, batchSize: nat, claim: Fault, claimed: Select,
    elapsed: nat -> int, budget: int, worst: int, maxAttempts: int, trials: nat -> Trial,
    requeue: Fault, stray: nat, cleanup: Fault)

  datatype Report = Report(exit: Exit, claimed: nat, attempted: nat, delivered: nat, failed: nat, skipped: nat)

  /** Deliveries among the first n whose status write was lost. */
  function LostAmong(trials: nat -> Trial, n: nat): set<nat> {
    set i: nat | i < n && LostWrite(trials(i))
  }

  /** The picked rows at some positions. */
  ghost function Image(ids: seq<RowId>, at: set<nat>): set<RowId>
    requires forall i :: i in at ==> i < |ids|
  {
    set i | i in at :: ids[i]
  }

  function PendingIds(rows: Outbox): set<RowId> {
    set id | id in rows && rows[id].status == Pending
  }

  /** ORDER BY created_at LIMIT: the oldest pending rows, oldest first. */
  ghost predicate OldestPending(rows: Outbox, picked: seq<RowId>, limit: nat) {
    && Distinct(picked)
    && (forall i :: 0 <= i < |picked| ==> picked[i] in PendingIds(rows))
    && |picked| == (if |PendingIds(rows)| < limit then |PendingIds(rows)| else limit)
    && (forall i, j :: 0 <= i < j < |picked| ==> rows[picked[i]].createdAt <= rows[picked[j]].createdAt)
    && (forall i, id :: 0 <= i < |picked| && id in PendingIds(rows) && id !in picked ==>
          rows[picked[i]].createdAt <= rows[id].createdAt)
  }

  ghost predicate IsOldest(rows: Outbox, pool: set<RowId>, id: RowId)
    requires pool <= rows.Keys
  {
    id in pool && forall k :: k in pool ==> rows[id].createdAt <= rows[k].createdAt
  }

  lemma EmptyOrHasMember(pool: set<RowId>)
    ensures pool == {} || exists k :: k in pool
  {
    if forall k :: k !in pool {
      assert pool == {};
    }
  }

  lemma {:induction false} OldestExists(rows: Outbox, pool: set<RowId>)
    requires pool != {} && pool <= rows.Keys
    ensures exists id :: IsOldest(rows, pool, id)
    decreases |pool|
  {
    EmptyOrHasMember(pool);
    if k :| k in pool {
      if pool == {k} {
        assert IsOldest(rows, pool, k);
      } else {
        assert pool == (pool - {k}) + {k};
        OldestExists(rows, pool - {k});
        var id :| IsOldest(rows, pool - {k}, id);
        assert IsOldest(rows, pool, if rows[k].createdAt <= rows[id].createdAt then k else id);
      }
    }
  }

  /** The rows picked so far are in order and none of the pool is older. */
  ghost predicate Picking(rows: Outbox, picked: seq<RowId>, pool: set<RowId>) {
    && pool <= PendingIds(rows) && |pool| + |picked| == |PendingIds(rows)| && Distinct(picked)
    && (forall i :: 0 <= i < |picked| ==> picked[i] in PendingIds(rows) && picked[i] !in pool)
    && (forall id :: id in PendingIds(rows) ==> id in pool || id in picked)
    && (forall i, j :: 0 <= i < j < |picked| ==> rows[picked[i]].createdAt <= rows[picked[j]].createdAt)
    && (forall i, id :: 0 <= i < |picked| && id in pool ==> rows[picked[i]].createdAt <= rows[id].createdAt)
  }

  lemma PickingStep(rows: Outbox, picked: seq<RowId>, pool: set<RowId>, id: RowId)
    requires Picking(rows, picked, pool) && IsOldest(rows, pool, id)
    ensures Picking(rows, picked + [id], pool - {id})
  {
    var more := picked + [id];
    forall k | k in PendingIds(rows) ensures k in pool - {id} || k in more {
      if k == id {
        assert more[|picked|] == k;
      }
    }
  }

  method PickOldest(rows: Outbox, limit: nat) returns (picked: seq<RowId>)
    ensures OldestPending(rows, picked, limit)
  {
    picked := [];
    var pool := PendingIds(rows);
    while |picked| < limit && pool != {}
      invariant Picking(rows, picked, pool) && |picked| <= limit
      decreases |pool|
    {
      OldestExists(rows, pool);
      ghost var oldest :| IsOldest(rows, pool, oldest);
      assert oldest in pool && forall k :: k in pool ==> rows[oldest].createdAt <= rows[k].createdAt;
      var id :| id in pool && forall k :: k in pool ==> rows[id].createdAt <= rows[k].createdAt;
      PickingStep(rows, picked, pool, id);
      picked := picked + [id];
      pool := pool - {id};
    }
  }

  // ---------------------------------------------------------------- the pass as a function of what it meets

  /** `picked` can be what the claim's UPDATE takes: rows created at the same moment may come in any order. */
  ghost predicate MayClaim(rows: Outbox, runId: RunId, c: Conditions, picked: seq<RowId>) {
    if c.setupThrows || !TakesEffect(c.claim) then picked == []
    else OldestPending(Requeued(rows, c.expired, runId), picked, c.batchSize)
  }

  /** How many rows that is. */
  function ClaimSize(rows: Outbox, runId: RunId, c: Conditions): nat {
    var pending := |PendingIds(Requeued(rows, c.expired, runId))|;
    if c.setupThrows || !TakesEffect(c.claim) then 0 else if pending < c.batchSize then pending else c.batchSize
  }

  function ClaimedRows(rows: Outbox, runId: RunId, c: Conditions, picked: seq<RowId>): Outbox {
    Claimed(Requeued(rows, c.expired, runId), picked, runId)
  }

  /** The exit taken before any delivery, n rows having been claimed. */
  function EarlyExit(c: Conditions, n: nat): Option<Exit> {
    if c.setupThrows || Throws(c.claim) || c.claimed.SelectThrew? then Some(Error)
    else if c.claimed.AnsweredFalse? || n == 0 then Some(NothingDue) else None
  }

  /** Where the loop stops: deliveries begun, and whether the budget or an exception stopped it. */
  datatype Stop = Stop(attempted: nat, budgetExhausted: bool, escaped: bool)

  function StopOf(c: Conditions, n: nat, k: nat): (stop: Stop)
    requires k <= n
    ensures k <= stop.attempted <= n
    decreases n - k
  {
    if k == n then Stop(n, false, false)
    else if !HasBudget(c.elapsed(k), c.budget, c.worst, k) then Stop(k, true, false)
    else if Escapes(c.trials(k)) then Stop(k + 1, false, true)
    else StopOf(c, n, k + 1)
  }

  function Deliveries(trials: nat -> Trial, n: nat): nat {
    if n == 0 then 0 else Deliveries(trials, n - 1) + if Succeeds(trials(n - 1)) then 1 else 0
  }

  function Failures(trials: nat -> Trial, n: nat): nat {
    if n == 0 then 0
    else Failures(trials, n - 1) + if !Succeeds(trials(n - 1)) && !Escapes(trials(n - 1)) then 1 else 0
  }

  ghost predicate Known(rows: Outbox, picked: seq<RowId>) {
    forall i :: 0 <= i < |picked| ==> picked[i] in rows
  }

  /** The table after n deliveries. */
  ghost function Worked(rows: Outbox, picked: seq<RowId>, c: Conditions, n: nat): (after: Outbox)
    requires Known(rows, picked) && n <= |picked|
    ensures after.Keys == rows.Keys
  {
    if n == 0 then rows
    else
      var before := Worked(rows, picked, c, n - 1);
      before[picked[n - 1] := Attempt(before[picked[n - 1]], c.maxAttempts, c.trials(n - 1)).row]
  }

  function ExitOf(c: Conditions, n: nat): Exit {
    if EarlyExit(c, n).Some? then EarlyExit(c, n).value
    else
      var stop := StopOf(c, n, 0);
      if stop.escaped || (stop.budgetExhausted && Throws(c.requeue)) then Error
      else if stop.budgetExhausted then BudgetReached else Finished
  }

  function AttemptedOf(c: Conditions, n: nat): (attempted: nat)
    ensures attempted <= n
  {
    if EarlyExit(c, n).Some? then 0 else StopOf(c, n, 0).attempted
  }

  /** Some release by run id takes effect: the budget's own, or the one in the outermost handler. */
  predicate IsReleased(c: Conditions, n: nat) {
    || (ExitOf(c, n) == Error && TakesEffect(c.cleanup))
    || (EarlyExit(c, n).None? && StopOf(c, n, 0).budgetExhausted && TakesEffect(c.requeue))
  }

  function ReportOf(c: Conditions, n: nat): Report {
    if EarlyExit(c, n).Some? then Report(ExitOf(c, n), 0, 0, 0, 0, 0)
    else
      var attempted := AttemptedOf(c, n);
      Report(ExitOf(c, n), n, attempted, Deliveries(c.trials, attempted), Failures(c.trials, attempted),
             if ExitOf(c, n) != BudgetReached then 0
             else if c.requeue.Fine? then n - attempted + |LostAmong(c.trials, attempted)| else c.stray)
  }

  ghost function FinalRows(rows: Outbox, runId: RunId, c: Conditions, picked: seq<RowId>): Outbox
    requires MayClaim(rows, runId, c, picked)
  {
    var worked := Worked(ClaimedRows(rows, runId, c, picked), picked, c, AttemptedOf(c, |picked|));
    if IsReleased(c, |picked|) then ReleasedBy(worked, runId) else worked
  }

  // ---------------------------------------------------------------- the pass

  /** Everything up to and including the claim; `done` is the exit taken before any delivery. */
  method ClaimBatch(repository: OutboxRepository, runId: RunId, c: Conditions)
    returns (done: Option<Exit>, picked: seq<RowId>)
    modifies repository
    ensures MayClaim(old(repository.rows), runId, c, picked)
    ensures repository.rows == ClaimedRows(old(repository.rows), runId, c, picked)
    ensures done == EarlyExit(c, |picked|)
  {
    repository.RequeueOthers(c.expired, runId);
    picked := [];
    assert Claimed(repository.rows, [], runId) == repository.rows;
    if c.setupThrows {
      return Some(Error), picked;
    }
    if TakesEffect(c.claim) {
      picked := PickOldest(repository.rows, c.batchSize);
      repository.rows := Claimed(repository.rows, picked, runId);
    }
    if Throws(c.claim) || c.claimed.SelectThrew? {
      return Some(Error), picked;
    }
    done := if c.claimed.AnsweredFalse? || |picked| == 0 then Some(NothingDue) else None;
  }

  /** The foreach loop. */
  method DeliverBatch(repository: OutboxRepository, picked: seq<RowId>, c: Conditions)
    returns (attempted: nat, delivered: nat, failed: nat, budgetExhausted: bool, escaped: bool)
    requires Known(repository.rows, picked)
    modifies repository
    ensures Stop(attempted, budgetExhausted, escaped) == StopOf(c, |picked|, 0)
    ensures repository.rows == Worked(old(repository.rows), picked, c, attempted)
    ensures delivered == Deliveries(c.trials, attempted) && failed == Failures(c.trials, attempted)
  {
    attempted, delivered, failed, budgetExhausted, escaped := 0, 0, 0, false, false;
    while attempted < |picked|
      invariant attempted <= |picked| && !budgetExhausted && !escaped
      invariant StopOf(c, |picked|, attempted) == StopOf(c, |picked|, 0)
      invariant repository.rows == Worked(old(repository.rows), picked, c, attempted)
      invariant delivered == Deliveries(c.trials, attempted) && failed == Failures(c.trials, attempted)
    {
      if !HasBudget(c.elapsed(attempted), c.budget, c.worst, attempted) {
        budgetExhausted := true;
        return;
      }
      attempted := attempted + 1;
      var id := picked[attempted - 1];
      AttemptOutcome(repository.rows[id], c.maxAttempts, c.trials(attempted - 1));
      var success;
      success, escaped := DeliverOne(repository, id, c.maxAttempts, c.trials(attempted - 1));
      if escaped {
        return;
      }
      if success {
        delivered := delivered + 1;
      } else {
        failed := failed + 1;
      }
    }
  }

  /** What follows the loop: the budget's release, and the outermost handler. */
  method Conclude(repository: OutboxRepository, runId: RunId, c: Conditions, stop: Stop) returns (exit: Exit, skipped: nat)
    modifies repository
    ensures exit == if stop.escaped || (stop.budgetExhausted && Throws(c.requeue)) then Error
                    else if stop.budgetExhausted then BudgetReached else Finished
    ensures repository.rows == if (exit == Error && TakesEffect(c.cleanup))
                                  || (!stop.escaped && stop.budgetExhausted && TakesEffect(c.requeue))
                               then ReleasedBy(old(repository.rows), runId) else old(repository.rows)
    ensures skipped == if exit != BudgetReached then 0
                       else if c.requeue.Fine? then |HeldIds(old(repository.rows), runId)| else c.stray
  {
    if stop.escaped {
      var _, _ := repository.RequeueEventsByRunId(runId, c.cleanup, c.stray);
      return Error, 0;
    }
    if !stop.budgetExhausted {
      return Finished, 0;
    }
    var affected, threw := repository.RequeueEventsByRunId(runId, c.requeue, c.stray);
    if threw {
      ReleaseTwice(old(repository.rows), runId);
      var _, _ := repository.RequeueEventsByRunId(runId, c.cleanup, c.stray);
      return Error, 0;
    }
    exit, skipped := BudgetReached, affected;
  }

  /**
   * The whole pass: its claim, its report and its final table are those of the conditions it meets. It
   * leaves alone what is delivered or failed, and every row another run holds that is not overdue; what it
   * does not claim changes only by going back to pending.
   */
  method ProcessManualDelivery(repository: OutboxRepository, runId: RunId, c: Conditions)
    returns (report: Report, picked: seq<RowId>)
    requires HeldIds(repository.rows, runId) == {}
    modifies repository
    ensures MayClaim(old(repository.rows), runId, c, picked)
    ensures repository.rows == FinalRows(old(repository.rows), runId, c, picked)
    ensures report == ReportOf(c, |picked|)
    ensures repository.rows.Keys == old(repository.rows).Keys && (c.setupThrows ==> picked == [])
    ensures forall id :: id in old(repository.rows) && old(repository.rows)[id].status in {Delivered, Failed} ==>
              id !in picked && repository.rows[id] == old(repository.rows)[id]
    ensures forall id :: id in old(repository.rows) && old(repository.rows)[id].status == Processing && id !in c.expired ==>
              id !in picked && repository.rows[id] == old(repository.rows)[id]
    ensures forall id :: id in old(repository.rows) && id !in picked ==>
              repository.rows[id] == if old(repository.rows)[id].status == Processing && id in c.expired
                                     then old(repository.rows)[id].(status := Pending, owner := None)
                                     else old(repository.rows)[id]
    ensures TakesOldest(old(repository.rows), c, picked)
  {
    report, picked := RunPass(repository, runId, c);
    OthersSpared(old(repository.rows), runId, c, picked);
    ClaimTakesOldest(old(repository.rows), runId, c, picked);
  }

  /** The claim takes each row once, oldest first, leaves no older pending row, and stops short of the batch only for want of rows. */
  ghost predicate TakesOldest(before: Outbox, c: Conditions, picked: seq<RowId>) {
    && |picked| <= c.batchSize
    && (forall i, j :: 0 <= i < j < |picked| ==> picked[i] != picked[j])
    && (forall i, j :: 0 <= i < j < |picked| && picked[i] in before && picked[j] in before ==>
          before[picked[i]].createdAt <= before[picked[j]].createdAt)
    && (forall i, id :: 0 <= i < |picked| && picked[i] in before && id in before && id !in picked && before[id].status == Pending ==>
          before[picked[i]].createdAt <= before[id].createdAt)
    && (!c.setupThrows && c.claim in {Fine, ThrewAfter} && |picked| < c.batchSize ==>
          forall id :: id in before && before[id].status == Pending ==> id in picked)
    && (c.setupThrows || c.claim in {Silent, ThrewBefore} ==> picked == [])
  }

  lemma ClaimTakesOldest(before: Outbox, runId: RunId, c: Conditions, picked: seq<RowId>)
    requires MayClaim(before, runId, c, picked)
    ensures TakesOldest(before, c, picked)
  {
    var rows := Requeued(before, c.expired, runId);
    forall id | id in before ensures id in rows && rows[id].createdAt == before[id].createdAt {
    }
    forall id | id in before && before[id].status == Pending ensures id in PendingIds(rows) {
    }
    if !c.setupThrows && TakesEffect(c.claim) && |picked| < c.batchSize {
      AllPicked(PendingIds(rows), picked);
    }
  }

  /** A duplicate-free sequence of all the members' number lists all the members. */
  lemma {:induction false} AllPicked(pool: set<RowId>, picked: seq<RowId>)
    requires Distinct(picked) && |picked| == |pool| && forall i :: 0 <= i < |picked| ==> picked[i] in pool
    ensures forall id :: id in pool ==> id in picked
    decreases |picked|
  {
    if picked == [] {
      assert pool == {};
    } else {
      AllPicked(pool - {picked[0]}, picked[1..]);
      assert picked == [picked[0]] + picked[1..];
      forall id | id in pool ensures id in picked {
        assert id == picked[0] || id in pool - {picked[0]};
      }
    }
  }

  /** The pass itself, with the outermost handler. */
  method RunPass(repository: OutboxRepository, runId: RunId, c: Conditions)
    returns (report: Report, picked: seq<RowId>)
    requires HeldIds(repository.rows, runId) == {}
    modifies repository
    ensures MayClaim(old(repository.rows), runId, c, picked)
    ensures repository.rows == FinalRows(old(repository.rows), runId, c, picked)
    ensures report == ReportOf(c, |picked|)
  {
    var done, claimed := ClaimBatch(repository, runId, c);
    picked := claimed;
    if done.Some? {
      if done == Some(Error) {
        var _, _ := repository.RequeueEventsByRunId(runId, c.cleanup, c.stray);
      }
      return Report(done.value, 0, 0, 0, 0, 0), picked;
    }
    var attempted, delivered, failed, budgetExhausted, escaped := DeliverBatch(repository, picked, c);
    WorkedHolds(old(repository.rows), runId, c, picked, attempted);
    HeldCount(picked, c, attempted);
    StopIsOneReason(c, |picked|, 0);
    var exit, skipped := Conclude(repository, runId, c, Stop(attempted, budgetExhausted, escaped));
    report := Report(exit, |picked|, attempted, delivered, failed, skipped);
  }

  lemma ReleaseTwice(rows: Outbox, runId: RunId)
    ensures ReleasedBy(ReleasedBy(rows, runId), runId) == ReleasedBy(rows, runId)
  {
    var once, twice := ReleasedBy(rows, runId), ReleasedBy(ReleasedBy(rows, runId), runId);
    assert once.Keys == twice.Keys;
    forall id | id in once ensures twice[id] == once[id] {
    }
  }

  // ---------------------------------------------------------------- what the pass leaves behind

  lemma {:induction false} StopIsOneReason(c: Conditions, n: nat, k: nat)
    requires k <= n
    ensures var stop := StopOf(c, n, k);
            && !(stop.budgetExhausted && stop.escaped)
            && (!stop.budgetExhausted && !stop.escaped ==> stop.attempted == n)
            && (stop.budgetExhausted ==>
                  stop.attempted < n && !HasBudget(c.elapsed(stop.attempted), c.budget, c.worst, stop.attempted))
            && (stop.escaped ==> stop.attempted > k && Escapes(c.trials(stop.attempted - 1)))
            && forall i: nat :: k <= i < stop.attempted ==>
                 (i == 0 || c.elapsed(i) + c.worst <= c.budget) && (Escapes(c.trials(i)) ==> stop.escaped && i == stop.attempted - 1)
    decreases n - k
  {
    if k < n && HasBudget(c.elapsed(k), c.budget, c.worst, k) && !Escapes(c.trials(k)) {
      StopIsOneReason(c, n, k + 1);
    }
  }

  lemma {:induction false} CountsAddUp(trials: nat -> Trial, n: nat)
    requires forall i: nat :: i < n ==> !Escapes(trials(i))
    ensures Deliveries(trials, n) + Failures(trials, n) == n
  {
    if n > 0 {
      CountsAddUp(trials, n - 1);
    }
  }

  /** The report of a pass that reached the loop and was not ended by an exception adds up. */
  lemma ReportAddsUp(c: Conditions, n: nat)
    requires ExitOf(c, n) == Finished || ExitOf(c, n) == BudgetReached
    ensures var r := ReportOf(c, n);
            && r.delivered + r.failed == r.attempted && 1 <= r.attempted <= r.claimed == n
            && (r.exit == Finished ==> r.attempted == n && r.skipped == 0)
            && (r.exit == BudgetReached && c.requeue.Fine? ==>
                  r.attempted + r.skipped == n + |LostAmong(c.trials, r.attempted)|)
  {
    StopIsOneReason(c, n, 0);
    CountsAddUp(c.trials, AttemptedOf(c, n));
  }

  /** Something is sent exactly when rows were claimed and shown, and a pass ends in an error exactly when a call raised. */
  lemma ExitIs(c: Conditions, n: nat)
    ensures var attempted := AttemptedOf(c, n);
            var raised := {ThrewBefore, ThrewAfter};
            var last := c.trials(if attempted == 0 then 0 else attempted - 1);
            && (attempted > 0 <==> n > 0 && !c.setupThrows && c.claim !in raised && c.claimed == Rows)
            && (ExitOf(c, n) == NothingDue
                <==> !c.setupThrows && c.claim !in raised && (c.claimed == AnsweredFalse || (c.claimed == Rows && n == 0)))
            && (ExitOf(c, n) == BudgetReached ==> attempted < n && c.elapsed(attempted) + c.worst > c.budget)
            && (attempted > 0 ==>
                  (ExitOf(c, n) == Error
                   <==> || ((last.send == Threw || last.first in raised) && last.second in raised)
                        || (attempted < n && c.requeue in raised)))
  {
    StopIsOneReason(c, n, 0);
  }

  /** The table after n deliveries, row by row. */
  lemma {:induction false} WorkedRow(rows: Outbox, picked: seq<RowId>, c: Conditions, n: nat, id: RowId)
    requires Known(rows, picked) && Distinct(picked) && n <= |picked| && id in rows
    ensures forall i: nat :: i < n && picked[i] == id ==>
              Worked(rows, picked, c, n)[id] == Attempt(rows[id], c.maxAttempts, c.trials(i)).row
    ensures id !in picked[..n] ==> Worked(rows, picked, c, n)[id] == rows[id]
  {
    if n > 0 {
      WorkedRow(rows, picked, c, n - 1, id);
      if id in picked[..n - 1] {
        assert id != picked[n - 1];
      }
      assert id !in picked[..n] ==> id !in picked[..n - 1] && id != picked[n - 1];
    }
  }

  /** The run holds the claimed rows it has not reached and those whose writes were lost. */
  ghost predicate HeldAfter(rows: Outbox, runId: RunId, picked: seq<RowId>, c: Conditions, n: nat) {
    && Known(rows, picked)
    && (forall i: nat :: i < |picked| ==> (Held(rows[picked[i]], runId) <==> i >= n || LostWrite(c.trials(i))))
    && (forall id :: id in rows && id !in picked ==> !Held(rows[id], runId))
  }

  lemma ClaimHolds(before: Outbox, runId: RunId, c: Conditions, picked: seq<RowId>)
    requires HeldIds(before, runId) == {} && MayClaim(before, runId, c, picked)
    ensures HeldAfter(ClaimedRows(before, runId, c, picked), runId, picked, c, 0) && Distinct(picked)
  {
    var rows := ClaimedRows(before, runId, c, picked);
    forall id | id in rows && id !in picked ensures !Held(rows[id], runId) {
      assert id !in HeldIds(before, runId);
    }
  }

  lemma {:induction false} WorkedKeepsHeld(rows: Outbox, runId: RunId, picked: seq<RowId>, c: Conditions, n: nat)
    requires HeldAfter(rows, runId, picked, c, 0) && Distinct(picked) && n <= |picked|
    ensures HeldAfter(Worked(rows, picked, c, n), runId, picked, c, n)
  {
    if n > 0 {
      WorkedKeepsHeld(rows, runId, picked, c, n - 1);
      HeldStep(Worked(rows, picked, c, n - 1), Worked(rows, picked, c, n), runId, picked, c, n);
    }
  }

  lemma HeldStep(before: Outbox, after: Outbox, runId: RunId, picked: seq<RowId>, c: Conditions, n: nat)
    requires 0 < n <= |picked| && Distinct(picked) && HeldAfter(before, runId, picked, c, n - 1)
    requires after == before[picked[n - 1] := Attempt(before[picked[n - 1]], c.maxAttempts, c.trials(n - 1)).row]
    ensures HeldAfter(after, runId, picked, c, n)
  {
    AttemptReleasesIff(before[picked[n - 1]], c.maxAttempts, c.trials(n - 1), runId);
  }

  lemma WorkedHolds(before: Outbox, runId: RunId, c: Conditions, picked: seq<RowId>, n: nat)
    requires HeldIds(before, runId) == {} && MayClaim(before, runId, c, picked) && n <= |picked|
    ensures Distinct(picked) && Known(ClaimedRows(before, runId, c, picked), picked)
    ensures HeldIds(Worked(ClaimedRows(before, runId, c, picked), picked, c, n), runId) == StillHeld(picked, c, n)
  {
    ClaimHolds(before, runId, c, picked);
    var rows := ClaimedRows(before, runId, c, picked);
    WorkedKeepsHeld(rows, runId, picked, c, n);
    HeldIdsAfter(Worked(rows, picked, c, n), runId, picked, c, n);
  }

  /** Exactly which rows stay in `processing`: none after a release, else those not attempted and the lost writes. */
  lemma FinalHeldIds(before: Outbox, runId: RunId, c: Conditions, picked: seq<RowId>)
    requires HeldIds(before, runId) == {} && MayClaim(before, runId, c, picked)
    ensures HeldIds(FinalRows(before, runId, c, picked), runId)
         == if IsReleased(c, |picked|) then {} else StillHeld(picked, c, AttemptedOf(c, |picked|))
  {
    WorkedHolds(before, runId, c, picked, AttemptedOf(c, |picked|));
    ReleaseFreesAll(Worked(ClaimedRows(before, runId, c, picked), picked, c, AttemptedOf(c, |picked|)), runId);
  }

  /** The final table row by row: claimed and attempted, claimed and not reached, not claimed. */
  lemma FinalRow(before: Outbox, runId: RunId, c: Conditions, picked: seq<RowId>, id: RowId)
    requires HeldIds(before, runId) == {} && MayClaim(before, runId, c, picked) && id in before
    ensures var start, after := ClaimedRows(before, runId, c, picked), FinalRows(before, runId, c, picked);
            var n, released := AttemptedOf(c, |picked|), IsReleased(c, |picked|);
            && after.Keys == before.Keys
            && (forall i: nat :: i < n && picked[i] == id ==>
                  var attempt := Attempt(start[id], c.maxAttempts, c.trials(i)).row;
                  after[id] == if released && LostWrite(c.trials(i)) then Released(attempt) else attempt)
            && (id in picked[n..] ==> after[id] == if released then Released(start[id]) else start[id])
            && (id !in picked ==> after[id] == Requeued(before, c.expired, runId)[id])
  {
    ClaimHolds(before, runId, c, picked);
    var start := ClaimedRows(before, runId, c, picked);
    var n := AttemptedOf(c, |picked|);
    WorkedRow(start, picked, c, n, id);
    WorkedKeepsHeld(start, runId, picked, c, n);
    if id in picked[n..] {
      var j: nat :| n <= j < |picked| && picked[j] == id;
      assert id !in picked[..n];
    }
  }

  /** Which rows the claim may take, and what every other row becomes. */
  lemma OthersSpared(before: Outbox, runId: RunId, c: Conditions, picked: seq<RowId>)
    requires HeldIds(before, runId) == {} && MayClaim(before, runId, c, picked)
    ensures var after := FinalRows(before, runId, c, picked);
            && after.Keys == before.Keys && (c.setupThrows ==> picked == [])
            && (forall id :: id in before && id in picked ==>
                  before[id].status == Pending || (before[id].status == Processing && id in c.expired))
            && (forall id :: id in before && id !in picked ==>
                  after[id] == if before[id].status == Processing && id in c.expired
                               then before[id].(status := Pending, owner := None) else before[id])
  {
    forall id | id in before ensures id in FinalRows(before, runId, c, picked) {
      FinalRow(before, runId, c, picked, id);
    }
    assert FinalRows(before, runId, c, picked).Keys == before.Keys;
    forall id | id in before
      ensures id in picked ==> before[id].status == Pending || (before[id].status == Processing && id in c.expired)
      ensures id !in picked ==>
                FinalRows(before, runId, c, picked)[id]
                == if before[id].status == Processing && id in c.expired
                   then before[id].(status := Pending, owner := None) else before[id]
    {
      UnclaimedRow(before, runId, c, picked, id);
    }
  }

  lemma UnclaimedRow(before: Outbox, runId: RunId, c: Conditions, picked: seq<RowId>, id: RowId)
    requires HeldIds(before, runId) == {} && MayClaim(before, runId, c, picked) && id in before
    ensures id in picked ==> before[id].status == Pending || (before[id].status == Processing && id in c.expired)
    ensures id !in picked ==>
              && id in FinalRows(before, runId, c, picked)
              && FinalRows(before, runId, c, picked)[id]
                 == if before[id].status == Processing && id in c.expired
                    then before[id].(status := Pending, owner := None) else before[id]
  {
    FinalRow(before, runId, c, picked, id);
    assert id !in HeldIds(before, runId);
    if id in picked {
      assert id in PendingIds(Requeued(before, c.expired, runId));
    }
  }

  /** What one delivery does to its row, in the failure-free cases; its age never changes. */
  ghost predicate Handled(was: Row, now: Row, trial: Trial, maxAttempts: int) {
    && now.createdAt == was.createdAt
    && was.attempts <= now.attempts <= was.attempts + 2
    && (trial.send == Accepted && trial.first == Fine ==>
          now == was.(status := Delivered, owner := None, attempts := was.attempts + 1))
    && ((trial.send == Refused && trial.first == Fine) || (trial.send == Threw && trial.second == Fine) ==>
          now == if was.attempts >= maxAttempts then was.(status := Failed, owner := None)
                 else was.(status := Pending, owner := None, attempts := was.attempts + 1))
  }

  lemma AttemptHandles(r: Row, maxAttempts: int, trial: Trial)
    ensures Handled(r, Attempt(r, maxAttempts, trial).row, trial, maxAttempts)
    ensures LostWrite(trial) ==> Handled(r, Released(Attempt(r, maxAttempts, trial).row), trial, maxAttempts)
  {
  }

  lemma StartRow(before: Outbox, runId: RunId, c: Conditions, picked: seq<RowId>, id: RowId)
    requires MayClaim(before, runId, c, picked) && id in picked && id in before
    ensures id in ClaimedRows(before, runId, c, picked)
    ensures ClaimedRows(before, runId, c, picked)[id] == before[id].(status := Processing, owner := Some(runId))
  {
  }

  /**
   * A row the claim took: one that was not reached ends as it was, but pending or still held; one that was
   * delivered keeps its age and is handled by its own delivery.
   */
  lemma ClaimedRow(before: Outbox, runId: RunId, c: Conditions, picked: seq<RowId>, i: nat)
    requires HeldIds(before, runId) == {} && MayClaim(before, runId, c, picked) && i < |picked| && picked[i] in before
    ensures picked[i] in FinalRows(before, runId, c, picked)
    ensures var was, now := before[picked[i]], FinalRows(before, runId, c, picked)[picked[i]];
            if i >= AttemptedOf(c, |picked|) then
              now == was.(status := if IsReleased(c, |picked|) then Pending else Processing,
                          owner := if IsReleased(c, |picked|) then None else Some(runId))
            else Handled(was.(status := Processing, owner := Some(runId)), now, c.trials(i), c.maxAttempts)
  {
    FinalRow(before, runId, c, picked, picked[i]);
    StartRow(before, runId, c, picked, picked[i]);
    AttemptHandles(ClaimedRows(before, runId, c, picked)[picked[i]], c.maxAttempts, c.trials(i));
    if i >= AttemptedOf(c, |picked|) {
      assert picked[AttemptedOf(c, |picked|)..][i - AttemptedOf(c, |picked|)] == picked[i];
    }
  }

  /** With n rows claimed: a release takes effect, or all of them are attempted and no write is lost. */
  ghost predicate NothingLeft(c: Conditions, n: nat) {
    IsReleased(c, n) || (AttemptedOf(c, n) == n && forall i: nat :: i < n ==> !LostWrite(c.trials(i)))
  }

  /** The pass leaves no row in `processing` exactly under a condition on the table and the failures it meets. */
  lemma NothingLeftIff(before: Outbox, runId: RunId, c: Conditions, picked: seq<RowId>)
    requires HeldIds(before, runId) == {} && MayClaim(before, runId, c, picked)
    ensures HeldIds(FinalRows(before, runId, c, picked), runId) == {} <==> NothingLeft(c, ClaimSize(before, runId, c))
  {
    FinalHeldIds(before, runId, c, picked);
    assert |picked| == ClaimSize(before, runId, c);
    NoneStillHeldIff(picked, c, AttemptedOf(c, |picked|));
  }

  lemma NoneStillHeldIff(picked: seq<RowId>, c: Conditions, n: nat)
    requires n <= |picked|
    ensures StillHeld(picked, c, n) == {} <==> n == |picked| && forall i: nat :: i < n ==> !LostWrite(c.trials(i))
  {
    if n < |picked| {
      assert n in HeldPositions(picked, c, n) && picked[n] in StillHeld(picked, c, n);
    } else if i: nat :| i < n && LostWrite(c.trials(i)) {
      assert i in HeldPositions(picked, c, n) && picked[i] in StillHeld(picked, c, n);
    }
  }

  /** If every call does what it should or raises, and the final cleanup works, nothing is left on any exit. */
  lemma NothingLeftWithoutSilentFailures(c: Conditions, n: nat)
    requires !c.claimed.AnsweredFalse? && !c.requeue.Silent? && TakesEffect(c.cleanup)
    requires forall i: nat :: i < n ==> !c.trials(i).first.Silent? && !c.trials(i).second.Silent?
    ensures NothingLeft(c, n)
  {
    if EarlyExit(c, n).None? {
      StopIsOneReason(c, n, 0);
      forall i: nat | i < n && !Escapes(c.trials(i)) ensures !LostWrite(c.trials(i)) {
      }
    }
  }

  /** The indices lo, lo + 1, ..., hi - 1. */
  ghost function Range(lo: nat, hi: nat): (r: set<nat>)
    requires lo <= hi
    ensures forall i: nat :: i in r <==> lo <= i < hi
    ensures |r| == hi - lo
    decreases hi - lo
  {
    if lo == hi then {} else {lo} + Range(lo + 1, hi)
  }

  ghost function HeldPositions(picked: seq<RowId>, c: Conditions, n: nat): set<nat>
    requires n <= |picked|
  {
    LostAmong(c.trials, n) + Range(n, |picked|)
  }

  /** The claimed rows the run still holds after n deliveries. */
  ghost function StillHeld(picked: seq<RowId>, c: Conditions, n: nat): set<RowId>
    requires n <= |picked|
  {
    Image(picked, HeldPositions(picked, c, n))
  }

  lemma HeldPositionIff(picked: seq<RowId>, c: Conditions, n: nat, i: nat)
    requires n <= |picked|
    ensures i in HeldPositions(picked, c, n) <==> i < |picked| && (i >= n || LostWrite(c.trials(i)))
  {
  }

  lemma HeldIdsAfter(rows: Outbox, runId: RunId, picked: seq<RowId>, c: Conditions, n: nat)
    requires HeldAfter(rows, runId, picked, c, n) && n <= |picked|
    ensures HeldIds(rows, runId) == StillHeld(picked, c, n)
  {
    forall id | id in HeldIds(rows, runId) ensures id in StillHeld(picked, c, n) {
      var i: nat :| i < |picked| && picked[i] == id;
      HeldPositionIff(picked, c, n, i);
    }
    forall id | id in StillHeld(picked, c, n) ensures id in HeldIds(rows, runId) {
      var i: nat :| i in HeldPositions(picked, c, n) && picked[i] == id;
      HeldPositionIff(picked, c, n, i);
    }
  }

  lemma HeldCount(picked: seq<RowId>, c: Conditions, n: nat)
    requires n <= |picked| && Distinct(picked)
    ensures |StillHeld(picked, c, n)| + n == |picked| + |LostAmong(c.trials, n)|
  {
    assert LostAmong(c.trials, n) !! Range(n, |picked|);
    ImageSize(picked, HeldPositions(picked, c, n));
  }

  lemma {:induction false} ImageSize(ids: seq<RowId>, at: set<nat>)
    requires Distinct(ids) && forall i :: i in at ==> i < |ids|
    ensures |Image(ids, at)| == |at|
    decreases |at|
  {
    if at != {} {
      var k :| k in at;
      ImageSize(ids, at - {k});
      assert Image(ids, at) == {ids[k]} + Image(ids, at - {k});
      assert ids[k] !in Image(ids, at - {k});
    }
  }
}
