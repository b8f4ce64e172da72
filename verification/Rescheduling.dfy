/**
  A whole execution of a migration request, and why a request that is scheduled
  again and again comes to an end.

  `ExecRequest` transfers, syncs the tape, and only then changes file states.
  If jobs were left over the request becomes new again: with its tape if it was
  suspended, without if the tape was full.  Without a tape the scheduler
  (`Library.PoolVerdict`) admits it only on a cartridge with room for its
  smallest waiting job.
 */
module Rescheduling {
  import opened JobTable
  import L = Library
  import opened Migration

  // What an execution does, in order
  datatype Action = Transfer(tape: string) | Sync(tape: string, ok: bool) | Release(tape: string) | Change(tape: string)

  datatype ReqState = New | Completed

  class Execution {
    const migration: Migration
    var log: seq<Action>
    var state: ReqState
    var keepsTape: bool

    constructor (migration: Migration)
      ensures this.migration == migration && log == []
    {
      this.migration, log, state, keepsTape := migration, [], New, true;
    }

    /** The part of Migration::execRequest that needs the tape. */
    method WithTape(repl: nat, tape: string, freeSpace: nat, syncOk: bool, transfer: seq<Outcome>)
      returns (suspended: bool, remaining: bool)
      modifies `log, migration.queue
      ensures migration.queue.rows == RowsAfterTape(old(migration.queue.rows), migration.reqNumber, repl, tape,
                                                    freeSpace, syncOk, transfer)
      ensures log == old(log) + [Transfer(tape), Sync(tape, syncOk), Release(tape)]
      ensures var p := Pass(migration.reqNumber, repl, tape, Resident, Transferred);
              && suspended == Interrupted(old(migration.queue.rows), p, freeSpace, transfer)
              && remaining == LeftOut(old(migration.queue.rows), p, freeSpace)
    {
      suspended, remaining := migration.ProcessFiles(repl, tape, Resident, Transferred, freeSpace, transfer);
      log := log + [Transfer(tape)];
      log := log + [Sync(tape, syncOk)];
      if !syncOk {
        migration.queue.Update(FailPremigrated(migration.reqNumber, tape, repl));
      }
      log := log + [Release(tape)];
    }

    /** The change of file states */
    method ChangeStates(repl: nat, tape: string, needsTape: bool, change: seq<Outcome>)
      modifies `log, migration.queue
      ensures migration.queue.rows == RowsAfterChange(old(migration.queue.rows), migration.reqNumber,
                                                      migration.targetState, repl, tape, needsTape, change)
      ensures log == old(log) + if needsTape || migration.targetState == Migrated then [Change(tape)] else []
    {
      if migration.targetState == Migrated {
        var from := if needsTape then Transferred else Premigrated;
        var _, _ := migration.ProcessFiles(repl, tape, from, Migrated, 0, change);
        log := log + [Change(tape)];
      } else if needsTape {
        var _, _ := migration.ProcessFiles(repl, tape, Transferred, Premigrated, 0, change);
        log := log + [Change(tape)];
      }
    }

    /** Both parts, if the sync does not fail in between */
    method TransferAndChange(repl: nat, tape: string, freeSpace: nat, syncOk: bool,
                             transfer: seq<Outcome>, change: seq<Outcome>)
      returns (suspended: bool, remaining: bool)
      modifies `log, migration.queue
      ensures migration.queue.rows == RowsAfter(old(migration.queue.rows), migration.reqNumber, migration.targetState,
                                                repl, tape, true, freeSpace, syncOk, transfer, change)
      ensures log == old(log) + LogOf(migration.targetState, tape, true, syncOk)
      ensures var p := Pass(migration.reqNumber, repl, tape, Resident, Transferred);
              && suspended == Interrupted(old(migration.queue.rows), p, freeSpace, transfer)
              && remaining == LeftOut(old(migration.queue.rows), p, freeSpace)
    {
      var failed := !syncOk;
      suspended, remaining := WithTape(repl, tape, freeSpace, syncOk, transfer);
      LogInOrder(old(log), migration.targetState, tape, syncOk);
      if !failed {
        ChangeStates(repl, tape, true, change);
      }
    }

    /** Migration::execRequest; `transfer` and `change` say how the single jobs end. */
    method ExecRequest(repl: nat, tape: string, needsTape: bool, freeSpace: nat, syncOk: bool,
                       transfer: seq<Outcome>, change: seq<Outcome>)
      modifies this, migration.queue
      ensures migration.queue.rows == RowsAfter(old(migration.queue.rows), migration.reqNumber, migration.targetState,
                                                repl, tape, needsTape, freeSpace, syncOk, transfer, change)
      ensures log == old(log) + LogOf(migration.targetState, tape, needsTape, syncOk)
      ensures SyncedBeforeChange(old(log)) && (needsTape <==> tape != "") ==> SyncedBeforeChange(log)
      ensures var p := Pass(migration.reqNumber, repl, tape, Resident, Transferred);
              && state == StateAfter(old(migration.queue.rows), p, needsTape, freeSpace, transfer)
              && keepsTape == (state == Completed || Interrupted(old(migration.queue.rows), p, freeSpace, transfer))
    {
      var suspended, remaining := false, false;
      if needsTape {
        suspended, remaining := TransferAndChange(repl, tape, freeSpace, syncOk, transfer, change);
      } else {
        ChangeStates(repl, tape, false, change);
      }
      UpdateRequest(suspended, remaining);
      LogStaysSynced(old(log), migration.targetState, tape, needsTape, syncOk);
    }

    /** UPDATE_REQUEST or UPDATE_REQUEST_RESET_TAPE */
    method UpdateRequest(suspended: bool, remaining: bool)
      modifies `state, `keepsTape
      ensures state == (if suspended || remaining then New else Completed)
      ensures keepsTape == (suspended || !remaining)
    {
      if suspended {
        state, keepsTape := New, true;
      } else if remaining {
        state, keepsTape := New, false;
      } else {
        state, keepsTape := Completed, true;
      }
    }
  }

  /** The transfer was interrupted by an operation of higher priority. */
  predicate Interrupted(rows: seq<Job>, p: Pass, free: nat, outcomes: seq<Outcome>) {
    var jobs := Jobs(Exec(rows, BeginStmt(p, free)), p);
    |outcomes| < |jobs| || Suspends in outcomes[..|jobs|]
  }

  /** What becomes of the request: neither the sync nor the change of states has a say in it. */
  function StateAfter(rows: seq<Job>, p: Pass, needsTape: bool, free: nat, transfer: seq<Outcome>): ReqState
    requires p.to == Transferred
  {
    if needsTape && (Interrupted(rows, p, free, transfer) || LeftOut(rows, p, free)) then New else Completed
  }

  function LogOf(target: JobState, tape: string, needsTape: bool, syncOk: bool): seq<Action> {
    (if needsTape then [Transfer(tape), Sync(tape, syncOk), Release(tape)] else [])
    + (if (needsTape ==> syncOk) && (needsTape || target == Migrated) then [Change(tape)] else [])
  }

  lemma LogInOrder(log: seq<Action>, target: JobState, tape: string, syncOk: bool)
    ensures var withTape := log + [Transfer(tape), Sync(tape, syncOk), Release(tape)];
            log + LogOf(target, tape, true, syncOk) == if syncOk then withTape + [Change(tape)] else withTape
  {
  }

  function RowsAfterTape(rows: seq<Job>, req: nat, repl: nat, tape: string, free: nat, syncOk: bool,
                         transfer: seq<Outcome>): seq<Job> {
    var transferred := AfterPass(rows, Pass(req, repl, tape, Resident, Transferred), free, transfer);
    if syncOk then transferred else Exec(transferred, FailPremigrated(req, tape, repl))
  }

  function RowsAfterChange(rows: seq<Job>, req: nat, target: JobState, repl: nat, tape: string, needsTape: bool,
                           change: seq<Outcome>): seq<Job> {
    if !needsTape && target != Migrated then rows
    else
      var from := if needsTape then Transferred else Premigrated;
      AfterPass(rows, Pass(req, repl, tape, from, if target == Migrated then Migrated else Premigrated), 0, change)
  }

  function RowsAfter(rows: seq<Job>, req: nat, target: JobState, repl: nat, tape: string, needsTape: bool, free: nat,
                     syncOk: bool, transfer: seq<Outcome>, change: seq<Outcome>): seq<Job> {
    if !needsTape then RowsAfterChange(rows, req, target, repl, tape, false, change)
    else
      var rows1 := RowsAfterTape(rows, req, repl, tape, free, syncOk, transfer);
      if syncOk then RowsAfterChange(rows1, req, target, repl, tape, true, change) else rows1
  }

  // ---------------------------------------------------------------- sync

  /** Whenever file states are changed for a tape, every data transfer to it that was before has been synced
      in between.  Without a tape nothing is transferred. */
  predicate SyncedBeforeChange(log: seq<Action>) {
    && (forall i :: 0 <= i < |log| ==> log[i] != Transfer(""))
    && (forall i, k :: 0 <= i < k < |log| && log[k].Change? && log[i] == Transfer(log[k].tape) ==> SyncBetween(log, i, k))
  }

  predicate SyncBetween(log: seq<Action>, i: nat, k: nat)
    requires i < k < |log| && log[k].Change?
  {
    exists j :: i < j < k && log[j] == Sync(log[k].tape, true)
  }

  /** One more execution keeps that, also after executions whose sync failed. */
  lemma LogStaysSynced(log: seq<Action>, target: JobState, tape: string, needsTape: bool, syncOk: bool)
    ensures SyncedBeforeChange(log) && (needsTape <==> tape != "")
            ==> SyncedBeforeChange(log + LogOf(target, tape, needsTape, syncOk))
  {
    if SyncedBeforeChange(log) && (needsTape <==> tape != "") {
      var all := log + LogOf(target, tape, needsTape, syncOk);
      forall i, k | 0 <= i < k < |all| && all[k].Change? && all[i] == Transfer(all[k].tape) ensures SyncBetween(all, i, k) {
        if k < |log| {
          assert SyncBetween(log, i, k);
          var j :| i < j < k && log[j] == Sync(log[k].tape, true);
          assert all[j] == log[j];
        } else {
          assert needsTape && all[|log| + 1] == Sync(tape, true);
        }
      }
    }
  }

  // One execution of a request: its tape, or the empty name, and how the sync ends
  datatype Run = Run(tape: string, syncOk: bool)

  function LogOfAll(target: JobState, runs: seq<Run>): seq<Action>
    decreases |runs|
  {
    if runs == [] then []
    else
      var last := runs[|runs| - 1];
      LogOfAll(target, runs[..|runs| - 1]) + LogOf(target, last.tape, last.tape != "", last.syncOk)
  }

  /** So in the log of all executions of a request, whatever fails in between: no file is stubbed for a tape
      to which something was transferred and not synced since. */
  lemma {:induction false} ChangeOnlyAfterSync(target: JobState, runs: seq<Run>)
    ensures SyncedBeforeChange(LogOfAll(target, runs))
    decreases |runs|
  {
    if runs != [] {
      var last := runs[|runs| - 1];
      ChangeOnlyAfterSync(target, runs[..|runs| - 1]);
      LogStaysSynced(LogOfAll(target, runs[..|runs| - 1]), target, last.tape, last.tape != "", last.syncOk);
    }
  }

  /** An execution whose sync fails.  The statement that should fail its jobs looks for premigrated ones: it
      changes a row exactly if that was premigrated on this tape before the execution and no failure named
      it.  The jobs of this execution are left alone, those that were reported done stay transferred, and
      what becomes of the request is the same as after a good sync. */
  lemma FailedSyncMissesItsJobs(rows: seq<Job>, target: JobState, p: Pass, free: nat,
                                transfer: seq<Outcome>, change: seq<Outcome>, i: nat)
    requires TransferPass(p) && i < |rows|
    ensures var transferred := AfterPass(rows, p, free, transfer);
            var after := RowsAfter(rows, p.req, target, p.repl, p.tape, true, free, false, transfer, change);
            var marked := Exec(rows, BeginStmt(p, free));
            var jobs := Jobs(marked, p);
            && (after[i] != transferred[i] <==>
                  IsSelected(rows[i], p.req, Premigrated, p.tape) && rows[i].repl == p.repl
                  && !exists k :: FailedAt(p, jobs, transfer, rows[i], k))
            && (Mine(marked, p, i) ==> after[i] == transferred[i])
            && (Mine(marked, p, i) && (exists k :: DoneAt(jobs, transfer, marked[i].inum, k))
                && !(exists k :: FailedAt(p, jobs, transfer, marked[i], k))
                ==> after[i] == marked[i].(state := Transferred))
    ensures Change(p.tape) !in LogOf(target, p.tape, true, false)
  {
    var transferred := AfterPass(rows, p, free, transfer);
    var after := RowsAfter(rows, p.req, target, p.repl, p.tape, true, free, false, transfer, change);
    assert after == Exec(transferred, FailPremigrated(p.req, p.tape, p.repl));
    PassResult(rows, p, free, transfer, i);
    ExecRow(rows, BeginStmt(p, free), i);
    ExecRow(transferred, FailPremigrated(p.req, p.tape, p.repl), i);
  }

  // ---------------------------------------------------------------- one pass makes progress

  function Waiting(rows: seq<Job>, req: nat, repl: nat): nat {
    if rows == [] then 0
    else (if rows[0].req == req && rows[0].repl == repl && rows[0].state == Resident then 1 else 0)
         + Waiting(rows[1..], req, repl)
  }

  /** No row of the replica is left over in the middle of a transfer. */
  predicate Calm(rows: seq<Job>, req: nat, repl: nat) {
    forall i :: 0 <= i < |rows| && rows[i].req == req && rows[i].repl == repl ==> rows[i].state != Transferring
  }

  predicate IsWaiting(j: Job, p: Pass) { j.req == p.req && j.repl == p.repl && j.state == Resident }

  lemma {:induction false} FewerWaiting(rows: seq<Job>, rows': seq<Job>, p: Pass)
    requires |rows| == |rows'|
    requires forall i :: 0 <= i < |rows| && IsWaiting(rows'[i], p) ==> IsWaiting(rows[i], p)
    ensures Waiting(rows', p.req, p.repl) <= Waiting(rows, p.req, p.repl)
    ensures (exists i :: 0 <= i < |rows| && IsWaiting(rows[i], p) && !IsWaiting(rows'[i], p)) ==>
            Waiting(rows', p.req, p.repl) < Waiting(rows, p.req, p.repl)
  {
    if rows != [] {
      assert IsWaiting(rows'[0], p) ==> IsWaiting(rows[0], p);
      forall i | 0 <= i < |rows[1..]| && IsWaiting(rows'[1..][i], p) ensures IsWaiting(rows[1..][i], p) {
        assert IsWaiting(rows'[i + 1], p);
      }
      FewerWaiting(rows[1..], rows'[1..], p);
      if i :| 0 <= i < |rows| && IsWaiting(rows[i], p) && !IsWaiting(rows'[i], p) {
        if i > 0 { assert IsWaiting(rows[1..][i - 1], p) && !IsWaiting(rows'[1..][i - 1], p); }
      }
    }
  }

  predicate TransferPass(p: Pass) { p.from == Resident && p.to == Transferred }

  /** Where a row of the table ends in a transfer. */
  lemma TransferredRow(rows: seq<Job>, p: Pass, free: nat, outcomes: seq<Outcome>, i: nat)
    requires TransferPass(p) && Calm(rows, p.req, p.repl) && i < |rows|
    ensures var after := AfterPass(rows, p, free, outcomes)[i];
            && (IsWaiting(after, p) ==> IsWaiting(rows[i], p))
            && (after.state == Transferring ==> after == rows[i])
            && after.req == rows[i].req && after.repl == rows[i].repl
  {
    PassResult(rows, p, free, outcomes, i);
    ExecRow(rows, BeginStmt(p, free), i);
  }

  lemma WaitingNeverGrows(rows: seq<Job>, p: Pass, free: nat, outcomes: seq<Outcome>)
    requires TransferPass(p) && Calm(rows, p.req, p.repl)
    ensures var after := AfterPass(rows, p, free, outcomes);
            Waiting(after, p.req, p.repl) <= Waiting(rows, p.req, p.repl) && Calm(after, p.req, p.repl)
  {
    var after := AfterPass(rows, p, free, outcomes);
    forall i | 0 <= i < |rows| ensures (IsWaiting(after[i], p) ==> IsWaiting(rows[i], p))
                                    && (after[i].state == Transferring ==> after[i] == rows[i])
                                    && after[i].req == rows[i].req && after[i].repl == rows[i].repl {
      TransferredRow(rows, p, free, outcomes, i);
    }
    FewerWaiting(rows, after, p);
  }

  /** All jobs of the transfer were worked on to their end. */
  predicate Finished(rows: seq<Job>, p: Pass, free: nat, outcomes: seq<Outcome>) {
    var jobs := Jobs(Exec(rows, BeginStmt(p, free)), p);
    |outcomes| >= |jobs| && forall k :: 0 <= k < |jobs| ==> outcomes[k] == Done || outcomes[k] == Fails
  }

  /** A taken job of a finished transfer does not wait any more. */
  lemma TakenIsGone(rows: seq<Job>, p: Pass, free: nat, outcomes: seq<Outcome>, i: nat)
    requires TransferPass(p) && Finished(rows, p, free, outcomes) && i < |rows|
    requires IsSelected(Exec(rows, BeginStmt(p, free))[i], p.req, Transferring, p.tape)
    requires IsWaiting(rows[i], p)
    ensures !IsWaiting(AfterPass(rows, p, free, outcomes)[i], p)
  {
    var marked := Exec(rows, BeginStmt(p, free));
    var jobs := Jobs(marked, p);
    PassResult(rows, p, free, outcomes, i);
    ExecRow(rows, BeginStmt(p, free), i);
    assert marked[i] in jobs;
    var k: nat :| k < |jobs| && jobs[k] == marked[i];
    if outcomes[k].Done? {
      assert DoneAt(jobs, outcomes, marked[i].inum, k);
    } else {
      assert FailedAt(p, jobs, outcomes, marked[i], k);
    }
  }

  /** The scheduler's admission: a job fits, or none waits (then the smallest size counts as 0). */
  predicate Admitted(rows: seq<Job>, p: Pass, free: nat) {
    (exists i :: 0 <= i < |rows| && IsWaiting(rows[i], p)) ==>
      exists i :: 0 <= i < |rows| && IsWaiting(rows[i], p) && rows[i].size <= free
  }

  /** Scheduler::smallestMigJob: the smallest waiting job, or 0 if none waits. */
  function SmallestMigJob(rows: seq<Job>, p: Pass): nat {
    if rows == [] then 0
    else
      var rest := SmallestMigJob(rows[1..], p);
      if !IsWaiting(rows[0], p) then rest
      else if Waiting(rows[1..], p.req, p.repl) == 0 || rows[0].size < rest then rows[0].size
      else rest
  }

  /** It is a waiting job, and none of the waiting jobs is smaller. */
  lemma {:induction false} SmallestWaits(rows: seq<Job>, p: Pass)
    ensures Waiting(rows, p.req, p.repl) == 0 ==> SmallestMigJob(rows, p) == 0
    ensures Waiting(rows, p.req, p.repl) > 0 <==> exists i :: 0 <= i < |rows| && IsWaiting(rows[i], p)
    ensures Waiting(rows, p.req, p.repl) > 0 ==>
            exists i :: 0 <= i < |rows| && IsWaiting(rows[i], p) && rows[i].size == SmallestMigJob(rows, p)
    ensures forall i :: 0 <= i < |rows| && IsWaiting(rows[i], p) ==> SmallestMigJob(rows, p) <= rows[i].size
  {
    if rows != [] {
      SmallestWaits(rows[1..], p);
      if i :| 0 <= i < |rows[1..]| && IsWaiting(rows[1..][i], p) && rows[1..][i].size == SmallestMigJob(rows[1..], p) {
        assert IsWaiting(rows[i + 1], p) && rows[i + 1].size == SmallestMigJob(rows[1..], p);
      }
      if i :| 0 <= i < |rows| && IsWaiting(rows[i], p) && i > 0 { assert IsWaiting(rows[1..][i - 1], p); }
      forall i | 0 <= i < |rows| && IsWaiting(rows[i], p) ensures SmallestMigJob(rows, p) <= rows[i].size {
        if i > 0 { assert IsWaiting(rows[1..][i - 1], p); }
      }
    }
  }

  /** When poolResAvail gives a cartridge to the request, a job fits on it: the same capacity that it
      compared with the smallest job is the free space of the transfer. */
  lemma SchedulerAdmits(lib: L.Lib, key: L.Key, members: seq<nat>, rows: seq<Job>, p: Pass)
    requires L.Known(lib, members) && L.MountedAreFree(lib)
    requires L.PoolVerdict(lib, key, members, SmallestMigJob(rows, p)).Run?
    ensures var c := L.PoolVerdict(lib, key, members, SmallestMigJob(rows, p)).c;
            c < |lib.carts| && Admitted(rows, p, 1048576 * lib.carts[c].cap)
  {
    L.PoolRunsIff(lib, key, members, SmallestMigJob(rows, p));
    SmallestWaits(rows, p);
  }

  /** The cartridge is mounted, not in use, and takes some waiting job, or no job waits. */
  predicate Takes(cart: L.Cart, rows: seq<Job>, p: Pass) {
    cart.state == L.Mounted && Admitted(rows, p, 1048576 * cart.cap)
  }

  /** The request runs exactly if some mounted cartridge of its pool takes one of its waiting jobs. */
  lemma SchedulerAdmitsIff(lib: L.Lib, key: L.Key, members: seq<nat>, rows: seq<Job>, p: Pass)
    requires L.Known(lib, members) && L.MountedAreFree(lib)
    ensures L.PoolVerdict(lib, key, members, SmallestMigJob(rows, p)).Run?
            <==> exists m :: 0 <= m < |members| && Takes(lib.carts[members[m]], rows, p)
  {
    L.PoolRunsIff(lib, key, members, SmallestMigJob(rows, p));
    SmallestWaits(rows, p);
    forall m | 0 <= m < |members|
      ensures L.MemberFits(lib, members, L.Mounted, SmallestMigJob(rows, p), m) <==> Takes(lib.carts[members[m]], rows, p)
    {
    }
  }

  lemma {:induction false} SomeTaken(rows: seq<Job>, st: Stmt, free: nat) returns (i: nat)
    requires Walk(st) && Pick(rows, st, free).found > 0
    ensures i < |rows| && Taken(rows[i], Pick(rows, st, free).rows[i], st)
    decreases |rows|
  {
    if Matches(rows[0], st) && free >= rows[0].size {
      i := 0;
    } else {
      i := SomeTaken(rows[1..], st, free);
      i := i + 1;
    }
  }

  /** A transfer that is admitted, finds something to do and is not interrupted makes the number of waiting
      jobs smaller. */
  lemma FinishedTransferProgresses(rows: seq<Job>, p: Pass, free: nat, outcomes: seq<Outcome>)
    requires TransferPass(p) && Calm(rows, p.req, p.repl) && Finished(rows, p, free, outcomes)
    requires exists i :: 0 <= i < |rows| && IsWaiting(rows[i], p) && rows[i].size <= free
    ensures Waiting(AfterPass(rows, p, free, outcomes), p.req, p.repl) < Waiting(rows, p.req, p.repl)
  {
    var st, after := BeginStmt(p, free), AfterPass(rows, p, free, outcomes);
    var w :| 0 <= w < |rows| && IsWaiting(rows[w], p) && rows[w].size <= free;
    assert Matches(rows[w], st);
    PickFindsIff(rows, st, free);
    var i := SomeTaken(rows, st, free);
    TakenIsGone(rows, p, free, outcomes, i);
    forall k | 0 <= k < |rows| && IsWaiting(after[k], p) ensures IsWaiting(rows[k], p) {
      TransferredRow(rows, p, free, outcomes, k);
    }
    FewerWaiting(rows, after, p);
  }

  /** A job was selected for the transfer and was not reached, or gave up for an operation of higher priority. */
  predicate WorkLeft(jobs: seq<Job>, outcomes: seq<Outcome>) {
    exists k :: 0 <= k < |jobs| && Left(outcomes, k)
  }

  predicate Left(outcomes: seq<Outcome>, k: nat) { k >= |outcomes| || outcomes[k] == Suspends }

  lemma WorkLeftIff(jobs: seq<Job>, outcomes: seq<Outcome>)
    ensures WorkLeft(jobs, outcomes) <==> |outcomes| < |jobs| || Suspends in outcomes[..|jobs|]
  {
    if |outcomes| < |jobs| {
      assert Left(outcomes, |outcomes|);
    } else {
      assert forall k :: 0 <= k < |jobs| ==> outcomes[..|jobs|][k] == outcomes[k];
      if Suspends in outcomes[..|jobs|] {
        var k :| 0 <= k < |jobs| && outcomes[..|jobs|][k] == Suspends;
        assert Left(outcomes, k);
      }
    }
  }

  /** After an execution with a tape the request is new exactly if work was left, or a waiting job did not fit
      and was not even taken; after one without a tape it is completed. */
  lemma CompletedIff(rows: seq<Job>, p: Pass, free: nat, outcomes: seq<Outcome>)
    requires TransferPass(p)
    ensures var marked := Exec(rows, SetTransferring(p.tape, p.req, Resident, p.repl, free));
            var jobs := Selected(marked, p.req, Transferring, p.tape);
            && (StateAfter(rows, p, true, free, outcomes) == New
                <==> WorkLeft(jobs, outcomes) || exists i :: 0 <= i < |rows| && IsWaiting(rows[i], p) && IsWaiting(marked[i], p))
            && (Interrupted(rows, p, free, outcomes) <==> WorkLeft(jobs, outcomes))
            && StateAfter(rows, p, false, free, outcomes) == Completed
  {
    var st := SetTransferring(p.tape, p.req, Resident, p.repl, free);
    var marked := Exec(rows, st);
    var jobs := Selected(marked, p.req, Transferring, p.tape);
    WorkLeftIff(jobs, outcomes);
    assert Jobs(marked, p) == jobs;
    PickRemainingIff(rows, st, free);
    forall i: nat | i < |rows|
      ensures LeftAt(rows, marked, st, i) <==> IsWaiting(rows[i], p) && IsWaiting(marked[i], p)
    {
      PickTakesOrLeaves(rows, st, free, i);
    }
    if i: nat :| LeftAt(rows, marked, st, i) { assert IsWaiting(marked[i], p); }
    if i :| 0 <= i < |rows| && IsWaiting(rows[i], p) && IsWaiting(marked[i], p) { assert LeftAt(rows, marked, st, i); }
  }

  /** When the request is completed no job of the replica waits. */
  lemma CompletedMeansNoneWaiting(rows: seq<Job>, p: Pass, free: nat, outcomes: seq<Outcome>)
    requires TransferPass(p) && Calm(rows, p.req, p.repl) && Finished(rows, p, free, outcomes)
    requires !LeftOut(rows, p, free)
    ensures forall i :: 0 <= i < |rows| ==> !IsWaiting(AfterPass(rows, p, free, outcomes)[i], p)
  {
    var st, after := BeginStmt(p, free), AfterPass(rows, p, free, outcomes);
    PickRemainingIff(rows, st, free);
    forall i | 0 <= i < |rows| ensures !IsWaiting(after[i], p) {
      TransferredRow(rows, p, free, outcomes, i);
      if IsWaiting(rows[i], p) {
        assert Matches(rows[i], st) && !LeftAt(rows, Pick(rows, st, free).rows, st, i);
        TakenIsGone(rows, p, free, outcomes, i);
      }
    }
  }

  // ---------------------------------------------------------------- the request comes to an end

  // One execution after which the request is new again
  datatype Round = Round(rows: seq<Job>, tape: string, free: nat, outcomes: seq<Outcome>)

  function PassOf(req: nat, repl: nat, r: Round): Pass { Pass(req, repl, r.tape, Resident, Transferred) }

  predicate Suspended(req: nat, repl: nat, r: Round) {
    Interrupted(r.rows, PassOf(req, repl, r), r.free, r.outcomes)
  }

  /** A chain of executions of one replica, none of which completed it.  `kept` says that the request still
      has the tape of an execution that was suspended; then nobody asks whether a job fits.  Between two
      executions other passes run, but none makes jobs of this replica wait again. */
  predicate Chain(req: nat, repl: nat, kept: bool, rounds: seq<Round>)
    decreases |rounds|
  {
    rounds == [] ||
    var r, p := rounds[0], PassOf(req, repl, rounds[0]);
    && Calm(r.rows, req, repl)
    && (kept || Admitted(r.rows, p, r.free))
    && (if Suspended(req, repl, r) then true
        else Finished(r.rows, p, r.free, r.outcomes) && LeftOut(r.rows, p, r.free))
    && (|rounds| > 1 ==> Waiting(rounds[1].rows, req, repl) <= Waiting(AfterPass(r.rows, p, r.free, r.outcomes), req, repl))
    && Chain(req, repl, Suspended(req, repl, r), rounds[1..])
  }

  function CountSuspended(req: nat, repl: nat, rounds: seq<Round>): nat {
    if rounds == [] then 0
    else (if Suspended(req, repl, rounds[0]) then 1 else 0) + CountSuspended(req, repl, rounds[1..])
  }

  lemma RoundProgress(req: nat, repl: nat, kept: bool, rounds: seq<Round>)
    requires rounds != [] && Chain(req, repl, kept, rounds)
    ensures var r, p := rounds[0], PassOf(req, repl, rounds[0]);
            var after := AfterPass(r.rows, p, r.free, r.outcomes);
            && Waiting(after, req, repl) <= Waiting(r.rows, req, repl)
            && (!kept && !Suspended(req, repl, r) ==> Waiting(after, req, repl) < Waiting(r.rows, req, repl))
  {
    var r, p := rounds[0], PassOf(req, repl, rounds[0]);
    WaitingNeverGrows(r.rows, p, r.free, r.outcomes);
    if !kept && !Suspended(req, repl, r) {
      var st := BeginStmt(p, r.free);
      PickRemainingIff(r.rows, st, r.free);
      var i: nat :| LeftAt(r.rows, Pick(r.rows, st, r.free).rows, st, i);
      assert IsWaiting(r.rows[i], p);
      FinishedTransferProgresses(r.rows, p, r.free, r.outcomes);
    }
  }

  /** Rescheduling terminates: without interruptions there are at most as many executions as jobs that
      waited at the start.  Each interruption allows two more: itself, and one on the kept tape. */
  lemma {:induction false} ReschedulingEnds(req: nat, repl: nat, kept: bool, rounds: seq<Round>)
    requires rounds != [] && Chain(req, repl, kept, rounds)
    ensures |rounds| <= Waiting(rounds[0].rows, req, repl) + 2 * CountSuspended(req, repl, rounds) + (if kept then 1 else 0)
    decreases |rounds|
  {
    RoundProgress(req, repl, kept, rounds);
    if |rounds| > 1 {
      ReschedulingEnds(req, repl, Suspended(req, repl, rounds[0]), rounds[1..]);
    }
  }

  /** On a kept tape an execution may take nothing at all: the rest of the tape may be too small. */
  lemma KeptTapeMayTakeNothing()
    ensures var p := Pass(1, 0, "TAPE01", Resident, Transferred);
            var rows := [Job(1, "file", 0, 1, 7, "", Resident)];
            && Chain(1, 0, true, [Round(rows, p.tape, 0, [])]) && !Chain(1, 0, false, [Round(rows, p.tape, 0, [])])
            && AfterPass(rows, p, 0, []) == rows && Waiting(rows, 1, 0) == 1
  {
    var p := Pass(1, 0, "TAPE01", Resident, Transferred);
    var rows := [Job(1, "file", 0, 1, 7, "", Resident)];
    var marked := Exec(rows, BeginStmt(p, 0));
    assert marked == rows && Jobs(marked, p) == [];
    PassResult(rows, p, 0, [], 0);
    assert IsWaiting(rows[0], p) && rows[0].size > 0;
    var rounds := [Round(rows, p.tape, 0, [])];
    assert PassOf(1, 0, rounds[0]) == p && !Admitted(rows, p, 0);
    assert Pick(rows, BeginStmt(p, 0), 0).total == 1;
    assert rounds[1..] == [];
  }
}
