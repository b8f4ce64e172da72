/**
  What the executions of one replica may rely on while the passes of all other
  replicas and requests run in between: `Replicas` and `Rescheduling` together.
 */
module RequestGuarantees {
  import opened JobTable
  import opened Migration
  import opened Replicas
  import opened Rescheduling

  // ---------------------------------------------------------------- after the last execution

  predicate OwnPass(p: Pass, req: nat, repl: nat) { p.req == req && p.repl == repl }

  /** Passes of other replicas and requests */
  predicate OthersOnly(run: seq<Event>, req: nat, repl: nat) {
    forall k :: 0 <= k < |run| ==> !OwnPass(run[k].pass, req, repl)
  }

  /** Another replica of the request could not change the state of the file. */
  predicate StubFailed(j: Job, run: seq<Event>) {
    exists k :: 0 <= k < |run| && run[k].st.FailStubbing? && Matches(j, run[k].st)
  }

  lemma StubFailedCons(j: Job, j': Job, run: seq<Event>)
    requires run != [] && j' == j.(state := j'.state)
    ensures StubFailed(j, run) <==> (run[0].st.FailStubbing? && Matches(j, run[0].st)) || StubFailed(j', run[1..])
  {
    if StubFailed(j', run[1..]) {
      var k :| 0 <= k < |run[1..]| && run[1..][k].st.FailStubbing? && Matches(j', run[1..][k].st);
      assert run[k + 1].st.FailStubbing? && Matches(j, run[k + 1].st);
    }
    if StubFailed(j, run) && !(run[0].st.FailStubbing? && Matches(j, run[0].st)) {
      var k :| 0 <= k < |run| && run[k].st.FailStubbing? && Matches(j, run[k].st);
      assert run[1..][k - 1].st.FailStubbing? && Matches(j', run[1..][k - 1].st);
    }
  }

  lemma OtherEventOnRow(rows: seq<Job>, e: Event, pools: seq<set<string>>, req: nat, repl: nat, i: nat)
    requires Disjoint(pools) && TapesInPools(rows, req, pools) && PoolEvent(e, req, pools) && !OwnPass(e.pass, req, repl)
    requires i < |rows| && rows[i].req == req && rows[i].repl == repl
    ensures Exec(rows, e.st)[i] == if e.st.FailStubbing? then Touch(rows[i], e.st) else rows[i]
  {
    if e.pass.req == req {
      OthersUntouched(rows, e.pass, e.st, pools, i);
    } else {
      ExecRow(rows, e.st, i);
    }
  }

  /** After the last execution of a replica its rows stay as they are for good, whatever passes the other
      replicas and requests run, unless another replica reports a failed stub of the same file. */
  lemma {:induction false} LeftForGood(rows: seq<Job>, run: seq<Event>, pools: seq<set<string>>, req: nat, repl: nat, i: nat)
    requires Disjoint(pools) && TapesInPools(rows, req, pools) && PoolRun(run, req, pools) && OthersOnly(run, req, repl)
    requires i < |rows| && rows[i].req == req && rows[i].repl == repl
    ensures ExecAll(rows, Stmts(run))[i] == if StubFailed(rows[i], run) then rows[i].(state := Failed) else rows[i]
    decreases |run|
  {
    if run != [] {
      var e, next := run[0], Exec(rows, run[0].st);
      assert PoolEvent(e, req, pools) && !OwnPass(e.pass, req, repl) && Stmts(run)[1..] == Stmts(run[1..]);
      OtherEventOnRow(rows, e, pools, req, repl, i);
      TapesStayInPools(rows, e.pass, e.st, pools, req);
      LeftForGood(next, run[1..], pools, req, repl, i);
      StubFailedCons(rows[i], next[i], run);
    }
  }

  lemma NoneWaitsAfterFailedSync(rows: seq<Job>, target: JobState, p: Pass, free: nat, transfer: seq<Outcome>,
                                 change: seq<Outcome>)
    requires TransferPass(p) && Calm(rows, p.req, p.repl) && Finished(rows, p, free, transfer) && !LeftOut(rows, p, free)
    ensures var after := RowsAfter(rows, p.req, target, p.repl, p.tape, true, free, false, transfer, change);
            && StateAfter(rows, p, true, free, transfer) == Completed
            && forall k :: 0 <= k < |after| ==> !IsWaiting(after[k], p)
  {
    var transferred := AfterPass(rows, p, free, transfer);
    var after := RowsAfter(rows, p.req, target, p.repl, p.tape, true, free, false, transfer, change);
    assert after == Exec(transferred, FailPremigrated(p.req, p.tape, p.repl));
    CompletedMeansNoneWaiting(rows, p, free, transfer);
    forall k | 0 <= k < |after| ensures !IsWaiting(after[k], p) {
      assert !IsWaiting(transferred[k], p);
      ExecRow(transferred, FailPremigrated(p.req, p.tape, p.repl), k);
    }
  }

  /** A sync that fails: no state is changed, and a job whose transfer was reported done is transferred, and
      neither failed nor in its target state, after whatever else happens, but for a stub that another replica
      could not make.  If the transfer came to its end and left nothing over, the request is completed, and no
      job waits any more for which it would be made new. */
  lemma FailedSyncIsForgotten(rows: seq<Job>, target: JobState, p: Pass, free: nat, transfer: seq<Outcome>,
                              change: seq<Outcome>, run: seq<Event>, pools: seq<set<string>>, i: nat)
    requires TransferPass(p) && i < |rows| && Mine(Exec(rows, BeginStmt(p, free)), p, i)
    requires var marked := Exec(rows, BeginStmt(p, free));
             var jobs := Jobs(marked, p);
             && marked[i].repl == p.repl
             && (exists k :: DoneAt(jobs, transfer, marked[i].inum, k))
             && !(exists k :: FailedAt(p, jobs, transfer, marked[i], k))
    requires var after := RowsAfter(rows, p.req, target, p.repl, p.tape, true, free, false, transfer, change);
             && Disjoint(pools) && TapesInPools(after, p.req, pools)
             && PoolRun(run, p.req, pools) && OthersOnly(run, p.req, p.repl)
    ensures var after := RowsAfter(rows, p.req, target, p.repl, p.tape, true, free, false, transfer, change);
            Calm(rows, p.req, p.repl) && Finished(rows, p, free, transfer) && !LeftOut(rows, p, free) ==>
              && StateAfter(rows, p, true, free, transfer) == Completed
              && forall k :: 0 <= k < |after| ==> !IsWaiting(after[k], p)
    ensures var after := RowsAfter(rows, p.req, target, p.repl, p.tape, true, free, false, transfer, change);
            ExecAll(after, Stmts(run))[i].state == if StubFailed(after[i], run) then Failed else Transferred
  {
    var after := RowsAfter(rows, p.req, target, p.repl, p.tape, true, free, false, transfer, change);
    FailedSyncMissesItsJobs(rows, target, p, free, transfer, change, i);
    assert after[i].req == p.req && after[i].repl == p.repl;
    LeftForGood(after, run, pools, p.req, p.repl, i);
    if Calm(rows, p.req, p.repl) && Finished(rows, p, free, transfer) && !LeftOut(rows, p, free) {
      NoneWaitsAfterFailedSync(rows, target, p, free, transfer, change);
    }
  }

  // ---------------------------------------------------------------- jobs that get there

  /** The work on one of the jobs with this inode number was reported done. */
  predicate ReportedDone(jobs: seq<Job>, outcomes: seq<Outcome>, inum: nat) {
    exists k: nat :: k < |jobs| && k < |outcomes| && outcomes[k] == Done && jobs[k].inum == inum
  }

  predicate ReportedFailed(jobs: seq<Job>, outcomes: seq<Outcome>, file: string) {
    exists k: nat :: k < |jobs| && k < |outcomes| && outcomes[k] == Fails && jobs[k].file == file
  }

  /** What the change of states, whose jobs are `jobs`, makes of a row in state `from` */
  function ChangedTo(row: Job, from: JobState, target: JobState, jobs: seq<Job>, change: seq<Outcome>): JobState {
    if ReportedFailed(jobs, change, row.file) then Failed
    else if ReportedDone(jobs, change, row.inum) then target
    else from
  }

  lemma DoneIsReported(jobs: seq<Job>, outcomes: seq<Outcome>, inum: nat)
    ensures (exists k :: DoneAt(jobs, outcomes, inum, k)) <==> ReportedDone(jobs, outcomes, inum)
  {
    if k: nat :| k < |jobs| && k < |outcomes| && outcomes[k] == Done && jobs[k].inum == inum {
      assert DoneAt(jobs, outcomes, inum, k);
    }
  }

  lemma FailureIsReported(p: Pass, jobs: seq<Job>, outcomes: seq<Outcome>, j: Job)
    requires j.req == p.req && (p.to == Transferred ==> j.repl == p.repl)
    ensures (exists k :: FailedAt(p, jobs, outcomes, j, k)) <==> ReportedFailed(jobs, outcomes, j.file)
  {
    if k: nat :| k < |jobs| && k < |outcomes| && outcomes[k] == Fails && jobs[k].file == j.file {
      assert FailedAt(p, jobs, outcomes, j, k);
    }
    if k: nat :| FailedAt(p, jobs, outcomes, j, k) {
      assert outcomes[k] == Fails && jobs[k].file == j.file;
    }
  }

  lemma ChangePassRow(rows: seq<Job>, p: Pass, change: seq<Outcome>, i: nat)
    requires Proper(p) && p.to != Transferred && i < |rows|
    requires rows[i].req == p.req && rows[i].repl == p.repl && rows[i].tape == p.tape && rows[i].state == p.from
    ensures var jobs := Selected(Exec(rows, SetChangeState(p.req, p.from, p.tape, p.repl)), p.req, ChangingFState, p.tape);
            AfterPass(rows, p, 0, change)[i] == rows[i].(state := ChangedTo(rows[i], p.from, p.to, jobs, change))
  {
    var marked := Exec(rows, SetChangeState(p.req, p.from, p.tape, p.repl));
    var jobs := Selected(marked, p.req, ChangingFState, p.tape);
    PassResult(rows, p, 0, change, i);
    ExecRow(rows, BeginStmt(p, 0), i);
    assert marked[i] == rows[i].(state := ChangingFState);
    FailureIsReported(p, jobs, change, marked[i]);
    DoneIsReported(jobs, change, marked[i].inum);
  }

  /** After a good sync the jobs that are transferred to this tape reach the target state if the change of
      states reports them, fail if it fails for their file, and else stay transferred. */
  lemma TransferredGetThere(rows: seq<Job>, req: nat, target: JobState, repl: nat, tape: string, free: nat,
                            transfer: seq<Outcome>, change: seq<Outcome>, i: nat)
    requires target == Migrated || target == Premigrated
    requires var row := AfterPass(rows, Pass(req, repl, tape, Resident, Transferred), free, transfer);
             i < |row| && row[i].req == req && row[i].repl == repl && row[i].tape == tape && row[i].state == Transferred
    ensures var transferred := AfterPass(rows, Pass(req, repl, tape, Resident, Transferred), free, transfer);
            var jobs := Selected(Exec(transferred, SetChangeState(req, Transferred, tape, repl)), req, ChangingFState, tape);
            RowsAfter(rows, req, target, repl, tape, true, free, true, transfer, change)[i]
            == transferred[i].(state := ChangedTo(transferred[i], Transferred, target, jobs, change))
  {
    var transferred := AfterPass(rows, Pass(req, repl, tape, Resident, Transferred), free, transfer);
    var p := Pass(req, repl, tape, Transferred, target);
    assert RowsAfter(rows, req, target, repl, tape, true, free, true, transfer, change) == AfterPass(transferred, p, 0, change);
    ChangePassRow(transferred, p, change, i);
  }

  /** Without a tape the same of the premigrated files of a request to migrate. */
  lemma PremigratedGetThere(rows: seq<Job>, req: nat, repl: nat, tape: string, free: nat, syncOk: bool,
                            transfer: seq<Outcome>, change: seq<Outcome>, i: nat)
    requires i < |rows| && rows[i].req == req && rows[i].repl == repl && rows[i].tape == tape && rows[i].state == Premigrated
    ensures var jobs := Selected(Exec(rows, SetChangeState(req, Premigrated, tape, repl)), req, ChangingFState, tape);
            RowsAfter(rows, req, Migrated, repl, tape, false, free, syncOk, transfer, change)[i]
            == rows[i].(state := ChangedTo(rows[i], Premigrated, Migrated, jobs, change))
  {
    var p := Pass(req, repl, tape, Premigrated, Migrated);
    assert RowsAfter(rows, req, Migrated, repl, tape, false, free, syncOk, transfer, change) == AfterPass(rows, p, 0, change);
    ChangePassRow(rows, p, change, i);
  }

  /** A waiting job, from one end of an execution to the other: if it is taken for the tape, its transfer and
      its change are reported done, nothing fails for its file and the sync is good, it ends on this tape in the
      target state. */
  lemma WaitingGetsThere(rows: seq<Job>, req: nat, target: JobState, repl: nat, tape: string, free: nat,
                         transfer: seq<Outcome>, change: seq<Outcome>, i: nat)
    requires (target == Migrated || target == Premigrated) && i < |rows| && rows[i].req == req && rows[i].repl == repl
    requires var marked := Exec(rows, SetTransferring(tape, req, Resident, repl, free));
             var jobs := Selected(marked, req, Transferring, tape);
             marked[i] == rows[i].(state := Transferring, tape := tape)
             && ReportedDone(jobs, transfer, rows[i].inum) && !ReportedFailed(jobs, transfer, rows[i].file)
    requires var transferred := AfterPass(rows, Pass(req, repl, tape, Resident, Transferred), free, transfer);
             var jobs := Selected(Exec(transferred, SetChangeState(req, Transferred, tape, repl)), req, ChangingFState, tape);
             ReportedDone(jobs, change, rows[i].inum) && !ReportedFailed(jobs, change, rows[i].file)
    ensures RowsAfter(rows, req, target, repl, tape, true, free, true, transfer, change)[i]
         == rows[i].(state := target, tape := tape)
  {
    TransferPassRow(rows, Pass(req, repl, tape, Resident, Transferred), free, transfer, i);
    TransferredGetThere(rows, req, target, repl, tape, free, transfer, change, i);
  }

  /** A transfer that fails for a file fails the job of its own replica; it touches no job of another replica
      or request on another tape. */
  lemma TransferFailsOwn(rows: seq<Job>, p: Pass, free: nat, transfer: seq<Outcome>, i: nat)
    requires TransferPass(p) && i < |rows|
    ensures (rows[i].req != p.req || rows[i].repl != p.repl) && rows[i].tape != p.tape ==>
              AfterPass(rows, p, free, transfer)[i] == rows[i]
    ensures var jobs := Selected(Exec(rows, SetTransferring(p.tape, p.req, Resident, p.repl, free)), p.req, Transferring, p.tape);
            rows[i].req == p.req && rows[i].repl == p.repl && ReportedFailed(jobs, transfer, rows[i].file) ==>
              AfterPass(rows, p, free, transfer)[i].state == Failed
  {
    var marked := Exec(rows, BeginStmt(p, free));
    PassResult(rows, p, free, transfer, i);
    ExecRow(rows, BeginStmt(p, free), i);
    if rows[i].req == p.req && rows[i].repl == p.repl {
      FailureIsReported(p, Jobs(marked, p), transfer, marked[i]);
    }
  }

  /** A change of states that fails for a file fails the jobs of all its replicas. */
  lemma ChangeFailsAll(rows: seq<Job>, p: Pass, change: seq<Outcome>, i: nat)
    requires Proper(p) && p.to != Transferred && i < |rows| && rows[i].req == p.req
    requires var jobs := Selected(Exec(rows, SetChangeState(p.req, p.from, p.tape, p.repl)), p.req, ChangingFState, p.tape);
             ReportedFailed(jobs, change, rows[i].file)
    ensures AfterPass(rows, p, 0, change)[i].state == Failed
  {
    var marked := Exec(rows, BeginStmt(p, 0));
    PassResult(rows, p, 0, change, i);
    ExecRow(rows, BeginStmt(p, 0), i);
    FailureIsReported(p, Jobs(marked, p), change, marked[i]);
  }

  lemma TransferPassRow(rows: seq<Job>, p: Pass, free: nat, transfer: seq<Outcome>, i: nat)
    requires TransferPass(p) && i < |rows| && rows[i].req == p.req && rows[i].repl == p.repl
    requires var marked := Exec(rows, SetTransferring(p.tape, p.req, Resident, p.repl, free));
             var jobs := Selected(marked, p.req, Transferring, p.tape);
             marked[i] == rows[i].(state := Transferring, tape := p.tape)
             && ReportedDone(jobs, transfer, rows[i].inum) && !ReportedFailed(jobs, transfer, rows[i].file)
    ensures AfterPass(rows, p, free, transfer)[i] == rows[i].(state := Transferred, tape := p.tape)
  {
    var marked := Exec(rows, SetTransferring(p.tape, p.req, Resident, p.repl, free));
    var jobs := Selected(marked, p.req, Transferring, p.tape);
    PassResult(rows, p, free, transfer, i);
    FailureIsReported(p, jobs, transfer, marked[i]);
    DoneIsReported(jobs, transfer, marked[i].inum);
  }

  // ---------------------------------------------------------------- premigrated files

  /** One file that has to be copied makes the whole request wait for tapes, and such an execution changes
      files only from transferred: a file of the request that is premigrated already, and so has no tape in its
      row, is never migrated, although that is what the request asks for.  It stays as it is, or fails with
      another job of its name.  If the target is premigrated it is there from the start. */
  lemma PremigratedIsLeft(rows: seq<Job>, target: JobState, p: Pass, free: nat, syncOk: bool, transfer: seq<Outcome>,
                          change: seq<Outcome>, i: nat)
    requires TransferPass(p) && i < |rows| && rows[i].state == Premigrated && rows[i].tape != p.tape
    requires target == Migrated || target == Premigrated
    ensures var after := RowsAfter(rows, p.req, target, p.repl, p.tape, true, free, syncOk, transfer, change);
            after[i] == rows[i] || after[i] == rows[i].(state := Failed)
  {
    var transferred := AfterPass(rows, p, free, transfer);
    NotOfPass(rows, p, free, transfer, i);
    if syncOk {
      var to := if target == Migrated then Migrated else Premigrated;
      var p' := Pass(p.req, p.repl, p.tape, Transferred, to);
      assert RowsAfter(rows, p.req, target, p.repl, p.tape, true, free, syncOk, transfer, change)
          == AfterPass(transferred, p', 0, change);
      NotOfPass(transferred, p', 0, change, i);
    } else {
      ExecRow(transferred, FailPremigrated(p.req, p.tape, p.repl), i);
    }
  }

  lemma NotOfPass(rows: seq<Job>, p: Pass, free: nat, outcomes: seq<Outcome>, i: nat)
    requires Proper(p) && i < |rows| && rows[i].tape != p.tape && rows[i].state != p.from
    ensures var after := AfterPass(rows, p, free, outcomes);
            after[i] == rows[i] || after[i] == rows[i].(state := Failed)
  {
    PassResult(rows, p, free, outcomes, i);
    ExecRow(rows, BeginStmt(p, free), i);
  }

  // ---------------------------------------------------------------- between two executions

  /** Not the transfer of this replica; its own change of states may run. */
  predicate BetweenRounds(e: Event, req: nat, repl: nat) {
    OwnPass(e.pass, req, repl) ==> e.pass.to != Transferred
  }

  /** Nothing that runs between two executions makes a job of the replica wait, or marks it for a transfer. */
  lemma EventBetween(rows: seq<Job>, e: Event, pools: seq<set<string>>, req: nat, repl: nat)
    requires Disjoint(pools) && TapesInPools(rows, req, pools) && PoolEvent(e, req, pools) && BetweenRounds(e, req, repl)
    requires Calm(rows, req, repl)
    ensures Waiting(Exec(rows, e.st), req, repl) <= Waiting(rows, req, repl) && Calm(Exec(rows, e.st), req, repl)
  {
    var after, p := Exec(rows, e.st), Pass(req, repl, "", Resident, Transferred);
    forall i | 0 <= i < |rows|
      ensures after[i].req == rows[i].req && after[i].repl == rows[i].repl
      ensures after[i].req == req && after[i].repl == repl ==>
                (after[i].state == Resident ==> rows[i].state == Resident) && after[i].state != Transferring
    {
      ExecRow(rows, e.st, i);
      if rows[i].req == req && rows[i].repl == repl && !OwnPass(e.pass, req, repl) {
        OtherEventOnRow(rows, e, pools, req, repl, i);
      }
    }
    FewerWaiting(rows, after, p);
  }

  predicate Between(run: seq<Event>, req: nat, repl: nat, pools: seq<set<string>>) {
    forall k :: 0 <= k < |run| ==> PoolEvent(run[k], req, pools) && BetweenRounds(run[k], req, repl)
  }

  lemma {:induction false} RunBetween(rows: seq<Job>, run: seq<Event>, pools: seq<set<string>>, req: nat, repl: nat)
    requires Disjoint(pools) && TapesInPools(rows, req, pools) && Between(run, req, repl, pools) && Calm(rows, req, repl)
    ensures var after := ExecAll(rows, Stmts(run));
            && Waiting(after, req, repl) <= Waiting(rows, req, repl) && Calm(after, req, repl)
            && TapesInPools(after, req, pools)
    decreases |run|
  {
    if run != [] {
      var e := run[0];
      assert PoolEvent(e, req, pools) && BetweenRounds(e, req, repl) && Stmts(run)[1..] == Stmts(run[1..]);
      EventBetween(rows, e, pools, req, repl);
      TapesStayInPools(rows, e.pass, e.st, pools, req);
      RunBetween(Exec(rows, e.st), run[1..], pools, req, repl);
    }
  }

  lemma {:induction false} FailsStayInPools(rows: seq<Job>, p: Pass, sts: seq<Stmt>, pools: seq<set<string>>)
    requires TapesInPools(rows, p.req, pools) && PassOfPool(p, pools) && Proper(p)
    requires forall k :: 0 <= k < |sts| ==> Issues(p, sts[k])
    ensures TapesInPools(ExecAll(rows, sts), p.req, pools)
    decreases |sts|
  {
    if sts != [] {
      assert Issues(p, sts[0]);
      TapesStayInPools(rows, p, sts[0], pools, p.req);
      FailsStayInPools(Exec(rows, sts[0]), p, sts[1..], pools);
    }
  }

  lemma {:induction false} FailsAreIssued(p: Pass, jobs: seq<Job>, outcomes: seq<Outcome>)
    ensures forall k :: 0 <= k < |FailsOf(p, jobs, outcomes)| ==> Issues(p, FailsOf(p, jobs, outcomes)[k])
    decreases |jobs|
  {
    if jobs != [] && outcomes != [] { FailsAreIssued(p, jobs[1..], outcomes[1..]); }
  }

  lemma PassStaysInPools(rows: seq<Job>, p: Pass, free: nat, outcomes: seq<Outcome>, pools: seq<set<string>>)
    requires TapesInPools(rows, p.req, pools) && PassOfPool(p, pools) && Proper(p)
    ensures TapesInPools(AfterPass(rows, p, free, outcomes), p.req, pools)
  {
    var marked := Exec(rows, BeginStmt(p, free));
    var jobs := Jobs(marked, p);
    TapesStayInPools(rows, p, BeginStmt(p, free), pools, p.req);
    FailsAreIssued(p, jobs, outcomes);
    FailsStayInPools(marked, p, FailsOf(p, jobs, outcomes), pools);
    var failed, done := ExecAll(marked, FailsOf(p, jobs, outcomes)), DoneOf(jobs, outcomes);
    TapesStayInPools(failed, p, SuccessStmt(p, done), pools, p.req);
    TapesStayInPools(Exec(failed, SuccessStmt(p, done)), p, ResetStmt(p), pools, p.req);
  }

  /** Executions of one replica, none of which completed it, and what runs after each of them until the next
      one: any statements of other passes, and of the replica's own changes of states. */
  predicate History(req: nat, repl: nat, kept: bool, rounds: seq<Round>, gaps: seq<seq<Event>>, pools: seq<set<string>>)
    decreases |rounds|
  {
    |gaps| == |rounds| && (rounds == [] ||
    var r, p := rounds[0], PassOf(req, repl, rounds[0]);
    && PassOfPool(p, pools) && Between(gaps[0], req, repl, pools)
    && (kept || Admitted(r.rows, p, r.free))
    && (Suspended(req, repl, r) || (Finished(r.rows, p, r.free, r.outcomes) && LeftOut(r.rows, p, r.free)))
    && (|rounds| > 1 ==> rounds[1].rows == ExecAll(AfterPass(r.rows, p, r.free, r.outcomes), Stmts(gaps[0])))
    && History(req, repl, Suspended(req, repl, r), rounds[1..], gaps[1..], pools))
  }

  /** Such a history is a chain as `ReschedulingEnds` asks for: what it says about the time between two
      executions follows from the isolation of replicas. */
  lemma {:induction false} HistoryIsChain(req: nat, repl: nat, kept: bool, rounds: seq<Round>, gaps: seq<seq<Event>>,
                                          pools: seq<set<string>>)
    requires Disjoint(pools) && History(req, repl, kept, rounds, gaps, pools)
    requires rounds != [] ==> TapesInPools(rounds[0].rows, req, pools) && Calm(rounds[0].rows, req, repl)
    ensures Chain(req, repl, kept, rounds)
    decreases |rounds|
  {
    if rounds != [] {
      var r, p := rounds[0], PassOf(req, repl, rounds[0]);
      var after := AfterPass(r.rows, p, r.free, r.outcomes);
      WaitingNeverGrows(r.rows, p, r.free, r.outcomes);
      PassStaysInPools(r.rows, p, r.free, r.outcomes, pools);
      RunBetween(after, gaps[0], pools, req, repl);
      if |rounds| > 1 { assert rounds[1..][0] == rounds[1]; }
      HistoryIsChain(req, repl, Suspended(req, repl, r), rounds[1..], gaps[1..], pools);
    }
  }

  /** So rescheduling ends whatever the other passes do in between. */
  lemma ReschedulingEndsAmongOthers(req: nat, repl: nat, rounds: seq<Round>, gaps: seq<seq<Event>>, pools: seq<set<string>>)
    requires Disjoint(pools) && rounds != [] && History(req, repl, false, rounds, gaps, pools)
    requires TapesInPools(rounds[0].rows, req, pools) && Calm(rounds[0].rows, req, repl)
    ensures |rounds| <= Waiting(rounds[0].rows, req, repl) + 2 * CountSuspended(req, repl, rounds)
  {
    HistoryIsChain(req, repl, false, rounds, gaps, pools);
    ReschedulingEnds(req, repl, false, rounds);
  }
}
