/**
  One pass of a migration over its jobs: the data transfer to one tape, or the
  state change after the sync.

  The pass marks its jobs, works on each of them, and settles the table from
  the list of inode numbers that were reported done.  While it works, its own
  failures and all statements of other passes may change the table in any
  order.
 */
module Migration {
  import opened JobTable

  datatype Pass = Pass(req: nat, repl: nat, tape: string, from: JobState, to: JobState)

  // How the work on one job ended.
  datatype Outcome = Done | Fails | Suspends | Skips

  function Busy(p: Pass): JobState { if p.to == Transferred then Transferring else ChangingFState }

  /** The passes that execRequest starts. */
  predicate Proper(p: Pass) {
    || (p.from == Resident && p.to == Transferred)
    || ((p.from == Transferred || p.from == Premigrated) && (p.to == Migrated || p.to == Premigrated) && p.from != p.to)
  }

  function BeginStmt(p: Pass, free: nat): Stmt {
    if p.to == Transferred then SetTransferring(p.tape, p.req, p.from, p.repl, free)
    else SetChangeState(p.req, p.from, p.tape, p.repl)
  }

  function FailStmt(p: Pass, file: string): Stmt {
    if p.to == Transferred then FailPremigration(p.req, file, p.repl) else FailStubbing(p.req, file)
  }

  function SuccessStmt(p: Pass, done: set<nat>): Stmt { JobSuccess(p.to, p.req, Busy(p), p.tape, done) }

  function ResetStmt(p: Pass): Stmt { SetState(p.from, p.req, Busy(p), p.tape) }

  // ---------------------------------------------------------------- the pass as a function

  function Jobs(rows: seq<Job>, p: Pass): seq<Job> { Selected(rows, p.req, Busy(p), p.tape) }

  /** The failures of the jobs that were reached. */
  function FailsOf(p: Pass, jobs: seq<Job>, outcomes: seq<Outcome>): seq<Stmt>
    decreases |jobs|
  {
    if jobs == [] || outcomes == [] then []
    else (if outcomes[0].Fails? then [FailStmt(p, jobs[0].file)] else []) + FailsOf(p, jobs[1..], outcomes[1..])
  }

  function DoneOf(jobs: seq<Job>, outcomes: seq<Outcome>): set<nat>
    decreases |jobs|
  {
    if jobs == [] || outcomes == [] then {}
    else (if outcomes[0].Done? then {jobs[0].inum} else {}) + DoneOf(jobs[1..], outcomes[1..])
  }

  function Settle(rows: seq<Job>, p: Pass, done: set<nat>): seq<Job> {
    Exec(Exec(rows, SuccessStmt(p, done)), ResetStmt(p))
  }

  function AfterPass(rows: seq<Job>, p: Pass, free: nat, outcomes: seq<Outcome>): seq<Job> {
    var marked := Exec(rows, BeginStmt(p, free));
    var jobs := Jobs(marked, p);
    Settle(ExecAll(marked, FailsOf(p, jobs, outcomes)), p, DoneOf(jobs, outcomes))
  }

  /** More jobs wait for this replica than were taken. */
  predicate LeftOut(rows: seq<Job>, p: Pass, free: nat)
    requires p.to == Transferred
  {
    var pick := Pick(rows, BeginStmt(p, free), free);
    pick.total > pick.found
  }

  class Migration {
    const queue: JobQueue
    const reqNumber: nat
    const targetState: JobState

    constructor (queue: JobQueue, reqNumber: nat, targetState: JobState)
      ensures this.queue == queue && this.reqNumber == reqNumber && this.targetState == targetState
    {
      this.queue, this.reqNumber, this.targetState := queue, reqNumber, targetState;
    }

    /** The loop over the jobs of a pass, with what transferData and changeFileState do to the table. */
    method WorkOn(p: Pass, jobs: seq<Job>, outcomes: seq<Outcome>) returns (inums: set<nat>, suspended: bool)
      modifies queue
      ensures queue.rows == ExecAll(old(queue.rows), FailsOf(p, jobs, outcomes)) && inums == DoneOf(jobs, outcomes)
      ensures suspended <==> p.to == Transferred && (|outcomes| < |jobs| || Suspends in outcomes[..|jobs|])
    {
      inums, suspended := {}, false;
      for k := 0 to |jobs|
        invariant k <= |outcomes|
        invariant ExecAll(queue.rows, FailsOf(p, jobs[k..], outcomes[k..]))
               == ExecAll(old(queue.rows), FailsOf(p, jobs, outcomes))
        invariant inums + DoneOf(jobs[k..], outcomes[k..]) == DoneOf(jobs, outcomes)
        invariant suspended <==> p.to == Transferred && Suspends in outcomes[..k]
      {
        if k >= |outcomes| {
          suspended := p.to == Transferred;
          break;
        }
        NextOutcome(queue.rows, p, jobs, outcomes, k);
        match outcomes[k] {
          case Done => inums := inums + {jobs[k].inum};
          case Fails => queue.Update(FailStmt(p, jobs[k].file));
          case Suspends => suspended := suspended || p.to == Transferred;
          case Skips =>
        }
      }
    }

    /** Migration::processFiles.  Jobs beyond `outcomes` are not reached: an operation of higher priority
        asked for the drive. */
    method ProcessFiles(repl: nat, tape: string, from: JobState, to: JobState, freeSpace: nat, outcomes: seq<Outcome>)
      returns (suspended: bool, remaining: bool)
      modifies queue
      ensures var p := Pass(reqNumber, repl, tape, from, to);
              var jobs := Jobs(Exec(old(queue.rows), BeginStmt(p, freeSpace)), p);
              && queue.rows == AfterPass(old(queue.rows), p, freeSpace, outcomes)
              && (suspended <==> to == Transferred && (|outcomes| < |jobs| || Suspends in outcomes[..|jobs|]))
              && (remaining <==> to == Transferred && LeftOut(old(queue.rows), p, freeSpace))
    {
      var p := Pass(reqNumber, repl, tape, from, to);
      var newState := if to == Transferred then Transferring else ChangingFState;
      suspended, remaining := false, false;
      if to == Transferred {
        var free, found, total := queue.UpdateFitting(SetTransferring(tape, reqNumber, from, repl, freeSpace));
        remaining := total > found;
      } else {
        queue.Update(SetChangeState(reqNumber, from, tape, repl));
      }
      var jobs := queue.Select(reqNumber, newState, tape);
      var inums;
      inums, suspended := WorkOn(p, jobs, outcomes);
      queue.Update(JobSuccess(to, reqNumber, newState, tape, inums));
      queue.Update(SetState(from, reqNumber, newState, tape));
    }
  }

  lemma NextOutcome(rows: seq<Job>, p: Pass, jobs: seq<Job>, outcomes: seq<Outcome>, k: nat)
    requires k < |jobs| && k < |outcomes|
    ensures ExecAll(rows, FailsOf(p, jobs[k..], outcomes[k..]))
         == ExecAll(if outcomes[k].Fails? then Exec(rows, FailStmt(p, jobs[k].file)) else rows,
                    FailsOf(p, jobs[k + 1..], outcomes[k + 1..]))
    ensures DoneOf(jobs[k..], outcomes[k..])
         == (if outcomes[k].Done? then {jobs[k].inum} else {}) + DoneOf(jobs[k + 1..], outcomes[k + 1..])
    ensures outcomes[..k + 1] == outcomes[..k] + [outcomes[k]]
  {
    assert jobs[k..][1..] == jobs[k + 1..] && outcomes[k..][1..] == outcomes[k + 1..];
    var rest := FailsOf(p, jobs[k + 1..], outcomes[k + 1..]);
    var st := FailStmt(p, jobs[k].file);
    assert ([st] + rest)[1..] == rest && [] + rest == rest;
  }

  // ---------------------------------------------------------------- any interleaving

  /** The statement may run while pass `p` works: it is a failure report, or it belongs to another
      request or another tape, or it only takes rows that wait to be transferred. */
  predicate MayInterleave(st: Stmt, p: Pass) {
    match st
    case SetTransferring(_, _, from, _, _) => from == Resident
    case SetChangeState(req, from, tape, _) => req != p.req || tape != p.tape
    case FailPremigrated(req, tape, _) => req != p.req || tape != p.tape
    case JobSuccess(_, req, _, tape, _) => req != p.req || tape != p.tape
    case SetState(_, req, _, tape) => req != p.req || tape != p.tape
    case RecallSuccess(_, req, tape, _) => req != p.req || tape != p.tape
    case _ => true
  }

  predicate IsFailure(st: Stmt) { st.FailPremigration? || st.FailStubbing? || st.FailJob? }

  /** Some failure report of the run names the row. */
  predicate Hit(j: Job, events: seq<Stmt>) {
    exists i :: 0 <= i < |events| && IsFailure(events[i]) && Matches(j, events[i])
  }

  /** While the pass works, its row can only become failed, and does so exactly if a failure names it. */
  lemma {:induction false} RowDuring(rows: seq<Job>, p: Pass, events: seq<Stmt>, i: nat)
    requires Proper(p) && i < |rows| && rows[i].req == p.req && rows[i].tape == p.tape
    requires rows[i].state == Busy(p) || rows[i].state == Failed
    requires forall k :: 0 <= k < |events| ==> MayInterleave(events[k], p)
    ensures ExecAll(rows, events)[i] == if Hit(rows[i], events) then rows[i].(state := Failed) else rows[i]
    decreases |events|
  {
    if events != [] {
      var st, next := events[0], Exec(rows, events[0]);
      assert MayInterleave(st, p);
      ExecRow(rows, st, i);
      assert next[i] == if IsFailure(st) && Matches(rows[i], st) then rows[i].(state := Failed) else rows[i];
      assert forall k :: 0 <= k < |events[1..]| ==> events[1..][k] == events[k + 1];
      RowDuring(next, p, events[1..], i);
      HitCons(rows[i], next[i], events);
    }
  }

  lemma HitCons(j: Job, j': Job, events: seq<Stmt>)
    requires events != [] && j' == j.(state := j'.state)
    ensures Hit(j, events) <==> (IsFailure(events[0]) && Matches(j, events[0])) || Hit(j', events[1..])
  {
    if Hit(j', events[1..]) {
      var i :| 0 <= i < |events[1..]| && IsFailure(events[1..][i]) && Matches(j', events[1..][i]);
      assert IsFailure(events[i + 1]) && Matches(j, events[i + 1]);
    }
    if Hit(j, events) && !(IsFailure(events[0]) && Matches(j, events[0])) {
      var i :| 0 <= i < |events| && IsFailure(events[i]) && Matches(j, events[i]);
      assert IsFailure(events[1..][i - 1]) && Matches(j', events[1..][i - 1]);
    }
  }

  lemma SettleRow(rows: seq<Job>, p: Pass, done: set<nat>, i: nat)
    requires Proper(p) && i < |rows|
    ensures var mine := rows[i].req == p.req && rows[i].tape == p.tape && rows[i].state == Busy(p);
            Settle(rows, p, done)[i] ==
            if mine then rows[i].(state := if rows[i].inum in done then p.to else p.from) else rows[i]
  {
  }

  /** The result of a pass, whatever runs beside it: each of its jobs is failed if a failure named it, else in
      the target state if its inode was reported, else back where it came from. */
  lemma PassOutcome(marked: seq<Job>, p: Pass, events: seq<Stmt>, done: set<nat>, i: nat)
    requires Proper(p) && i < |marked| && IsSelected(marked[i], p.req, Busy(p), p.tape)
    requires forall k :: 0 <= k < |events| ==> MayInterleave(events[k], p)
    ensures Settle(ExecAll(marked, events), p, done)[i]
         == marked[i].(state := if Hit(marked[i], events) then Failed else if marked[i].inum in done then p.to else p.from)
  {
    RowDuring(marked, p, events, i);
    SettleRow(ExecAll(marked, events), p, done, i);
  }

  /** And no row of the request on this tape is left in the intermediate state, even if others put it there. */
  lemma NothingLeftBusy(rows: seq<Job>, p: Pass, done: set<nat>, i: nat)
    requires Proper(p) && i < |rows|
    ensures !IsSelected(Settle(rows, p, done)[i], p.req, Busy(p), p.tape)
  {
    SettleRow(rows, p, done, i);
  }

  // ---------------------------------------------------------------- the pass as a whole

  predicate FailedAt(p: Pass, jobs: seq<Job>, outcomes: seq<Outcome>, j: Job, k: nat) {
    k < |jobs| && k < |outcomes| && outcomes[k].Fails? && Matches(j, FailStmt(p, jobs[k].file))
  }

  predicate DoneAt(jobs: seq<Job>, outcomes: seq<Outcome>, inum: nat, k: nat) {
    k < |jobs| && k < |outcomes| && outcomes[k].Done? && jobs[k].inum == inum
  }

  lemma {:induction false} FailsAreInterleaved(p: Pass, jobs: seq<Job>, outcomes: seq<Outcome>, i: nat)
    requires i < |FailsOf(p, jobs, outcomes)|
    ensures IsFailure(FailsOf(p, jobs, outcomes)[i]) && MayInterleave(FailsOf(p, jobs, outcomes)[i], p)
    decreases |jobs|
  {
    if !outcomes[0].Fails? {
      FailsAreInterleaved(p, jobs[1..], outcomes[1..], i);
    } else if i > 0 {
      FailsAreInterleaved(p, jobs[1..], outcomes[1..], i - 1);
    }
  }

  lemma {:induction false} HitIff(p: Pass, jobs: seq<Job>, outcomes: seq<Outcome>, j: Job)
    ensures Hit(j, FailsOf(p, jobs, outcomes)) <==> exists k :: FailedAt(p, jobs, outcomes, j, k)
    decreases |jobs|
  {
    if jobs != [] && outcomes != [] {
      var rest, fails := FailsOf(p, jobs[1..], outcomes[1..]), FailsOf(p, jobs, outcomes);
      HitIff(p, jobs[1..], outcomes[1..], j);
      if outcomes[0].Fails? {
        assert fails[0] == FailStmt(p, jobs[0].file) && fails[1..] == rest;
        HitCons(j, j, fails);
      } else {
        assert fails == rest;
      }
      FailedAtCons(p, jobs, outcomes, j);
    }
  }

  lemma FailedAtCons(p: Pass, jobs: seq<Job>, outcomes: seq<Outcome>, j: Job)
    requires jobs != [] && outcomes != []
    ensures (exists k :: FailedAt(p, jobs, outcomes, j, k))
            <==> FailedAt(p, jobs, outcomes, j, 0) || exists k :: FailedAt(p, jobs[1..], outcomes[1..], j, k)
  {
    if k: nat :| FailedAt(p, jobs, outcomes, j, k) && k > 0 {
      assert FailedAt(p, jobs[1..], outcomes[1..], j, k - 1);
    }
    if k: nat :| FailedAt(p, jobs[1..], outcomes[1..], j, k) {
      assert FailedAt(p, jobs, outcomes, j, k + 1);
    }
  }

  lemma {:induction false} InDoneIff(jobs: seq<Job>, outcomes: seq<Outcome>, inum: nat)
    ensures inum in DoneOf(jobs, outcomes) <==> exists k :: DoneAt(jobs, outcomes, inum, k)
    decreases |jobs|
  {
    if jobs != [] && outcomes != [] {
      InDoneIff(jobs[1..], outcomes[1..], inum);
      if k: nat :| DoneAt(jobs, outcomes, inum, k) && k > 0 {
        assert DoneAt(jobs[1..], outcomes[1..], inum, k - 1);
      }
      if k: nat :| DoneAt(jobs[1..], outcomes[1..], inum, k) {
        assert DoneAt(jobs, outcomes, inum, k + 1);
      }
      if outcomes[0].Done? && jobs[0].inum == inum { assert DoneAt(jobs, outcomes, inum, 0); }
    }
  }

  lemma {:induction false} FailuresOnlyFail(rows: seq<Job>, p: Pass, events: seq<Stmt>, i: nat)
    requires i < |rows| && forall k :: 0 <= k < |events| ==> IsFailure(events[k])
    ensures ExecAll(rows, events)[i] == if Hit(rows[i], events) then rows[i].(state := Failed) else rows[i]
    decreases |events|
  {
    if events != [] {
      var next := Exec(rows, events[0]);
      ExecRow(rows, events[0], i);
      FailuresOnlyFail(next, p, events[1..], i);
      HitCons(rows[i], next[i], events);
    }
  }

  /** A whole pass.  Its own jobs end as their outcomes say; a row that is not its job changes only if a
      state change of the same file failed. */
  lemma PassResult(rows: seq<Job>, p: Pass, free: nat, outcomes: seq<Outcome>, i: nat)
    requires Proper(p) && i < |rows|
    ensures var marked := Exec(rows, BeginStmt(p, free));
            var jobs := Jobs(marked, p);
            var failed := exists k :: FailedAt(p, jobs, outcomes, marked[i], k);
            var done := exists k :: DoneAt(jobs, outcomes, marked[i].inum, k);
            AfterPass(rows, p, free, outcomes)[i] ==
              if failed then marked[i].(state := Failed)
              else if !IsSelected(marked[i], p.req, Busy(p), p.tape) then marked[i]
              else marked[i].(state := if done then p.to else p.from)
  {
    var marked := Exec(rows, BeginStmt(p, free));
    var jobs := Jobs(marked, p);
    var fails, done := FailsOf(p, jobs, outcomes), DoneOf(jobs, outcomes);
    forall k | 0 <= k < |fails| ensures IsFailure(fails[k]) {
      FailsAreInterleaved(p, jobs, outcomes, k);
    }
    FailuresOnlyFail(marked, p, fails, i);
    SettleRow(ExecAll(marked, fails), p, done, i);
    HitIff(p, jobs, outcomes, marked[i]);
    InDoneIff(jobs, outcomes, marked[i].inum);
  }

  // ---------------------------------------------------------------- inode numbers

  predicate Mine(marked: seq<Job>, p: Pass, i: nat) {
    i < |marked| && IsSelected(marked[i], p.req, Busy(p), p.tape)
  }

  /** The jobs of the pass have different inode numbers. */
  predicate DistinctInodes(marked: seq<Job>, p: Pass) {
    forall i, k :: 0 <= i < k < |marked| && Mine(marked, p, i) && Mine(marked, p, k) ==> marked[i].inum != marked[k].inum
  }

  function InodesOf(marked: seq<Job>, done: set<nat>): set<nat> {
    set i | i in done && i < |marked| :: marked[i].inum
  }

  /** Exactly the jobs in `done` reach the target state, all others go back. */
  predicate Exact(marked: seq<Job>, p: Pass, done: set<nat>) {
    var after := Settle(marked, p, InodesOf(marked, done));
    forall i :: 0 <= i < |marked| && Mine(marked, p, i) ==> after[i].state == if i in done then p.to else p.from
  }

  predicate AllMine(marked: seq<Job>, p: Pass, done: set<nat>) {
    forall k :: k in done ==> Mine(marked, p, k)
  }

  lemma DistinctIsExact(marked: seq<Job>, p: Pass, done: set<nat>)
    requires Proper(p) && DistinctInodes(marked, p) && AllMine(marked, p, done)
    ensures Exact(marked, p, done)
  {
    forall i | 0 <= i < |marked| && Mine(marked, p, i)
      ensures Settle(marked, p, InodesOf(marked, done))[i].state == if i in done then p.to else p.from
    {
      SettleRow(marked, p, InodesOf(marked, done), i);
      if marked[i].inum in InodesOf(marked, done) {
        var k :| k in done && k < |marked| && marked[k].inum == marked[i].inum;
        assert Mine(marked, p, k);
      }
    }
  }

  lemma SameInodeIsNotExact(marked: seq<Job>, p: Pass, i: nat, k: nat)
    requires Proper(p) && i != k && Mine(marked, p, i) && Mine(marked, p, k) && marked[i].inum == marked[k].inum
    ensures AllMine(marked, p, {i}) && !Exact(marked, p, {i})
  {
    assert i in {i} && marked[i].inum in InodesOf(marked, {i});
    SettleRow(marked, p, InodesOf(marked, {i}), k);
  }

  /** SET_JOB_SUCCESS goes by inode number alone, without the file system: for every set of jobs that may be
      done the table comes out right, exactly when the inode numbers differ. */
  lemma ExactIffInodesDistinct(marked: seq<Job>, p: Pass)
    requires Proper(p)
    ensures DistinctInodes(marked, p) <==> forall done: set<nat> :: AllMine(marked, p, done) ==> Exact(marked, p, done)
  {
    if DistinctInodes(marked, p) {
      forall done: set<nat> | AllMine(marked, p, done) ensures Exact(marked, p, done) {
        DistinctIsExact(marked, p, done);
      }
    } else {
      var i, k :| 0 <= i < k < |marked| && Mine(marked, p, i) && Mine(marked, p, k) && marked[i].inum == marked[k].inum;
      SameInodeIsNotExact(marked, p, i, k);
    }
  }
}
