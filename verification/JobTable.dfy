/**
  The job queue as a sequence of rows, and the statements that change it.

  All statements but one decide row by row.  `SetTransferring` walks over the
  table with a running amount of free space (the SQL function FITS), so that
  whether a row is taken depends on the rows before it.
 */
module JobTable {

  datatype JobState = Resident | Premigrated | Migrated | Failed | Transferring | Transferred | ChangingFState
                    | RecallingMig | RecallingPremig

  datatype Job = Job(req: nat, file: string, repl: nat, size: nat, inum: nat, tape: string, state: JobState)

  datatype Stmt =
    | SetTransferring(tape: string, req: nat, from: JobState, repl: nat, free: nat)
    | SetChangeState(req: nat, from: JobState, tape: string, repl: nat)
    | FailPremigration(req: nat, file: string, repl: nat)
    | FailStubbing(req: nat, file: string)
    | FailPremigrated(req: nat, tape: string, repl: nat)
    // Migration: SET_JOB_SUCCESS; `busy` is the state the jobs had meanwhile
    | JobSuccess(to: JobState, req: nat, busy: JobState, tape: string, inums: set<nat>)
    // SelRecall: SET_RECALLING; both: RESET_JOB_STATE
    | SetState(to: JobState, req: nat, old_: JobState, tape: string)
    // SelRecall: FAIL_JOB and SET_JOB_SUCCESS
    | FailJob(file: string, req: nat, tape: string)
    | RecallSuccess(to: JobState, req: nat, tape: string, inums: set<nat>)

  // ---------------------------------------------------------------- row by row

  predicate Recalling(st: JobState) { st == RecallingMig || st == RecallingPremig }

  /** The WHERE clause; for `SetTransferring` without the condition on space. */
  predicate Matches(j: Job, st: Stmt) {
    match st
    case SetTransferring(_, req, from, repl, _) => j.req == req && j.state == from && j.repl == repl
    case SetChangeState(req, from, tape, repl) => j.req == req && j.state == from && j.tape == tape && j.repl == repl
    case FailPremigration(req, file, repl) => j.req == req && j.file == file && j.repl == repl
    case FailStubbing(req, file) => j.req == req && j.file == file
    case FailPremigrated(req, tape, repl) =>
      j.req == req && j.state == Premigrated && j.tape == tape && j.repl == repl
    case JobSuccess(_, req, busy, tape, inums) => j.req == req && j.state == busy && j.tape == tape && j.inum in inums
    case SetState(_, req, old_, tape) => j.req == req && j.state == old_ && j.tape == tape
    case FailJob(file, req, tape) => j.file == file && j.req == req && j.tape == tape
    case RecallSuccess(_, req, tape, inums) => j.req == req && j.tape == tape && Recalling(j.state) && j.inum in inums
  }

  /** The SET clause */
  function Set(j: Job, st: Stmt): Job {
    match st
    case SetTransferring(tape, _, _, _, _) => j.(state := Transferring, tape := tape)
    case SetChangeState(_, _, _, _) => j.(state := ChangingFState)
    case JobSuccess(to, _, _, _, _) => j.(state := to)
    case SetState(to, _, _, _) => j.(state := to)
    case RecallSuccess(to, _, _, _) => j.(state := to)
    case _ => j.(state := Failed)
  }

  function Touch(j: Job, st: Stmt): Job {
    if Matches(j, st) then Set(j, st) else j
  }

  /** A statement changes rows of its request only; one with a tape, a replica, a file or a list of inodes only
      rows of that; and it changes nothing of a row but its state, and the tape for a transfer. */
  lemma TouchesOnly(j: Job, st: Stmt)
    ensures Touch(j, st) != j ==>
      && j.req == st.req
      && (!st.SetTransferring? && !st.FailPremigration? && !st.FailStubbing? ==> j.tape == st.tape)
      && (st.SetTransferring? || st.SetChangeState? || st.FailPremigration? || st.FailPremigrated? ==> j.repl == st.repl)
      && (st.FailPremigration? || st.FailStubbing? || st.FailJob? ==> j.file == st.file)
      && (st.JobSuccess? || st.RecallSuccess? ==> j.inum in st.inums)
    ensures var after := Touch(j, st);
            after == j.(state := after.state, tape := if after != j && st.SetTransferring? then st.tape else j.tape)
  {
  }

  /** The failure reports: of a transfer for one replica of a file, of a state change for all of its replicas,
      of a recall for the file on one tape, and of a sync for the premigrated files on one tape. */
  lemma FailuresReach(j: Job, repl: nat)
    ensures Touch(j, FailPremigration(j.req, j.file, repl)).state == if j.repl == repl then Failed else j.state
    ensures Touch(j, FailStubbing(j.req, j.file)).state == Failed
    ensures Touch(j, FailJob(j.file, j.req, j.tape)).state == Failed
    ensures Touch(j, FailPremigrated(j.req, j.tape, repl)).state
         == if j.repl == repl && j.state == Premigrated then Failed else j.state
  {
  }

  function TouchAll(rows: seq<Job>, st: Stmt): (r: seq<Job>)
    ensures |r| == |rows| && forall i :: 0 <= i < |rows| ==> r[i] == Touch(rows[i], st)
  {
    if rows == [] then [] else [Touch(rows[0], st)] + TouchAll(rows[1..], st)
  }

  // ---------------------------------------------------------------- FITS

  datatype Picked = Picked(rows: seq<Job>, free: nat, found: nat, total: nat)

  /** The greedy walk: a matching row is taken if it fits into what is left. */
  function Pick(rows: seq<Job>, st: Stmt, free: nat): (p: Picked)
    requires st.SetTransferring?
    ensures |p.rows| == |rows|
    decreases |rows|
  {
    if rows == [] then Picked([], free, 0, 0)
    else if !Matches(rows[0], st) then
      var p := Pick(rows[1..], st, free);
      p.(rows := [rows[0]] + p.rows)
    else if free >= rows[0].size then
      var p := Pick(rows[1..], st, free - rows[0].size);
      Picked([Set(rows[0], st)] + p.rows, p.free, p.found + 1, p.total + 1)
    else
      var p := Pick(rows[1..], st, free);
      Picked([rows[0]] + p.rows, p.free, p.found, p.total + 1)
  }

  lemma PickStep(rows: seq<Job>, st: Stmt, free: nat, i: nat)
    requires st.SetTransferring? && i < |rows|
    ensures var taken := Matches(rows[i], st) && free >= rows[i].size;
            var rest := Pick(rows[i + 1..], st, if taken then free - rows[i].size else free);
            Pick(rows[i..], st, free) == Picked([if taken then Set(rows[i], st) else rows[i]] + rest.rows, rest.free,
                                                rest.found + (if taken then 1 else 0),
                                                rest.total + (if Matches(rows[i], st) then 1 else 0))
  {
    assert rows[i..][1..] == rows[i + 1..];
  }

  function Exec(rows: seq<Job>, st: Stmt): (r: seq<Job>)
    ensures |r| == |rows|
  {
    if st.SetTransferring? then Pick(rows, st, st.free).rows else TouchAll(rows, st)
  }

  function ExecAll(rows: seq<Job>, sts: seq<Stmt>): (r: seq<Job>)
    ensures |r| == |rows|
    decreases |sts|
  {
    if sts == [] then rows else ExecAll(Exec(rows, sts[0]), sts[1..])
  }

  // ---------------------------------------------------------------- what the walk picks

  /** The row was taken by the walk. */
  predicate Taken(before: Job, after: Job, st: Stmt) { Matches(before, st) && after == Set(before, st) }

  function TakenSize(rows: seq<Job>, rows': seq<Job>, st: Stmt): nat
    requires |rows'| == |rows|
  {
    if rows == [] then 0
    else (if Taken(rows[0], rows'[0], st) then rows[0].size else 0) + TakenSize(rows[1..], rows'[1..], st)
  }

  function CountTaken(rows: seq<Job>, rows': seq<Job>, st: Stmt): nat
    requires |rows'| == |rows|
  {
    if rows == [] then 0
    else (if Taken(rows[0], rows'[0], st) then 1 else 0) + CountTaken(rows[1..], rows'[1..], st)
  }

  function CountMatching(rows: seq<Job>, st: Stmt): nat {
    if rows == [] then 0 else (if Matches(rows[0], st) then 1 else 0) + CountMatching(rows[1..], st)
  }

  /** A walk that really changes what it takes. */
  predicate Walk(st: Stmt) { st.SetTransferring? && st.from != Transferring }

  /** Every row is either taken or left as it was. */
  lemma {:induction false} PickTakesOrLeaves(rows: seq<Job>, st: Stmt, free: nat, i: nat)
    requires Walk(st) && i < |rows|
    ensures var p := Pick(rows, st, free);
            p.rows[i] == rows[i] || Taken(rows[i], p.rows[i], st)
    decreases |rows|
  {
    if i > 0 {
      var rest := if Matches(rows[0], st) && free >= rows[0].size then free - rows[0].size else free;
      PickTakesOrLeaves(rows[1..], st, rest, i - 1);
    }
  }

  /** What is taken and what is left free add up to what was free, and the counters count. */
  lemma {:induction false} PickConserves(rows: seq<Job>, st: Stmt, free: nat)
    requires Walk(st)
    ensures var p := Pick(rows, st, free);
            && TakenSize(rows, p.rows, st) + p.free == free
            && p.found == CountTaken(rows, p.rows, st)
            && p.total == CountMatching(rows, st)
    decreases |rows|
  {
    if rows != [] {
      var taken := Matches(rows[0], st) && free >= rows[0].size;
      PickConserves(rows[1..], st, if taken then free - rows[0].size else free);
      var p := Pick(rows, st, free);
      assert p.rows[1..] == Pick(rows[1..], st, if taken then free - rows[0].size else free).rows;
    }
  }

  /** A matching row that was left out is larger than all the space that is left at the end. */
  lemma {:induction false} PickIsMaximal(rows: seq<Job>, st: Stmt, free: nat, i: nat)
    requires Walk(st) && i < |rows| && Matches(rows[i], st)
    ensures var p := Pick(rows, st, free);
            p.free <= free && (Taken(rows[i], p.rows[i], st) || rows[i].size > p.free)
    decreases |rows|
  {
    var rest := if Matches(rows[0], st) && free >= rows[0].size then free - rows[0].size else free;
    PickConserves(rows[1..], st, rest);
    if i > 0 { PickIsMaximal(rows[1..], st, rest, i - 1); }
  }

  /** Row `i` waits for the walk and is left out by it. */
  predicate LeftAt(rows: seq<Job>, after: seq<Job>, st: Stmt, i: nat) {
    i < |rows| && i < |after| && Matches(rows[i], st) && !Taken(rows[i], after[i], st)
  }

  lemma LeftCons(rows: seq<Job>, after: seq<Job>, st: Stmt)
    requires rows != [] && |after| == |rows|
    ensures (exists i :: LeftAt(rows, after, st, i))
            <==> LeftAt(rows, after, st, 0) || exists i :: LeftAt(rows[1..], after[1..], st, i)
  {
    if i: nat :| LeftAt(rows, after, st, i) && i > 0 { assert LeftAt(rows[1..], after[1..], st, i - 1); }
    if i: nat :| LeftAt(rows[1..], after[1..], st, i) { assert LeftAt(rows, after, st, i + 1); }
  }

  /** `remaining` is reported exactly when a matching row was left out. */
  lemma {:induction false} PickRemainingIff(rows: seq<Job>, st: Stmt, free: nat)
    requires Walk(st)
    ensures var p := Pick(rows, st, free);
            && p.found <= p.total
            && (p.total > p.found <==> exists i :: LeftAt(rows, p.rows, st, i))
    decreases |rows|
  {
    if rows != [] {
      var rest := if Matches(rows[0], st) && free >= rows[0].size then free - rows[0].size else free;
      var p := Pick(rows, st, free);
      PickRemainingIff(rows[1..], st, rest);
      assert p.rows[1..] == Pick(rows[1..], st, rest).rows;
      LeftCons(rows, p.rows, st);
    }
  }

  /** The walk takes nothing exactly when no matching row fits into the initial space. */
  lemma {:induction false} PickFindsIff(rows: seq<Job>, st: Stmt, free: nat)
    requires Walk(st)
    ensures Pick(rows, st, free).found > 0 <==>
            exists i :: 0 <= i < |rows| && Matches(rows[i], st) && rows[i].size <= free
    decreases |rows|
  {
    if rows != [] && !(Matches(rows[0], st) && free >= rows[0].size) {
      PickFindsIff(rows[1..], st, free);
      if Pick(rows[1..], st, free).found > 0 {
        var i :| 0 <= i < |rows[1..]| && Matches(rows[1..][i], st) && rows[1..][i].size <= free;
        assert Matches(rows[i + 1], st) && rows[i + 1].size <= free;
      }
      if exists i :: 0 <= i < |rows| && Matches(rows[i], st) && rows[i].size <= free {
        var i :| 0 <= i < |rows| && Matches(rows[i], st) && rows[i].size <= free;
        assert Matches(rows[1..][i - 1], st) && rows[1..][i - 1].size <= free;
      }
    }
  }

  // ---------------------------------------------------------------- statements in general

  /** Any statement leaves a row alone or does to it what its SET clause says. */
  lemma ExecRow(rows: seq<Job>, st: Stmt, i: nat)
    requires i < |rows| && (st.SetTransferring? ==> st.from != Transferring)
    ensures Exec(rows, st)[i] == rows[i] || (Matches(rows[i], st) && Exec(rows, st)[i] == Set(rows[i], st))
    ensures !st.SetTransferring? ==> Exec(rows, st)[i] == Touch(rows[i], st)
  {
    if st.SetTransferring? { PickTakesOrLeaves(rows, st, st.free, i); }
  }

  // ---------------------------------------------------------------- the table

  class JobQueue {
    var rows: seq<Job>

    /** An UPDATE statement that decides row by row. */
    method Update(st: Stmt)
      requires !st.SetTransferring?
      modifies this
      ensures rows == Exec(old(rows), st)
    {
      for i := 0 to |rows|
        invariant |rows| == |old(rows)|
        invariant forall k :: 0 <= k < i ==> rows[k] == Touch(old(rows)[k], st)
        invariant forall k :: i <= k < |rows| ==> rows[k] == old(rows)[k]
      {
        if Matches(rows[i], st) {
          rows := rows[i := Set(rows[i], st)];
        }
      }
    }

    /** SET_TRANSFERRING with DataBase::fits, which counts through pointers. */
    method UpdateFitting(st: Stmt) returns (free: nat, found: nat, total: nat)
      requires st.SetTransferring?
      modifies this
      ensures var p := Pick(old(rows), st, st.free);
              rows == p.rows && free == p.free && found == p.found && total == p.total
      ensures rows == Exec(old(rows), st)
    {
      free, found, total := st.free, 0, 0;
      ghost var p := Pick(rows, st, st.free);
      ghost var before, rest := rows, p;
      for i := 0 to |rows|
        invariant |rows| == |before| && rest == Pick(before[i..], st, free)
        invariant forall k :: i <= k < |rows| ==> rows[k] == before[k]
        invariant forall k :: 0 <= k < i ==> rows[k] == p.rows[k]
        invariant p.rows[i..] == rest.rows
        invariant p.free == rest.free && p.found == found + rest.found && p.total == total + rest.total
      {
        assert p.rows[i] == rest.rows[0] && p.rows[i + 1..] == rest.rows[1..];
        PickStep(before, st, free, i);
        if Matches(rows[i], st) {
          if free >= rows[i].size {
            free := free - rows[i].size;
            total := total + 1;
            found := found + 1;
            rows := rows[i := Set(rows[i], st)];
          } else {
            total := total + 1;
          }
        }
        rest := Pick(before[i + 1..], st, free);
      }
    }

    /** SELECT_JOBS */
    method Select(req: nat, state: JobState, tape: string) returns (jobs: seq<Job>)
      ensures jobs == Selected(rows, req, state, tape)
    {
      jobs := [];
      for i := 0 to |rows|
        invariant jobs + Selected(rows[i..], req, state, tape) == Selected(rows, req, state, tape)
      {
        ghost var rest := Selected(rows[i + 1..], req, state, tape);
        assert rows[i..][0] == rows[i] && rows[i..][1..] == rows[i + 1..];
        assert jobs + ([rows[i]] + rest) == (jobs + [rows[i]]) + rest;
        if rows[i].req == req && rows[i].state == state && rows[i].tape == tape {
          jobs := jobs + [rows[i]];
        }
      }
    }

    /** SelRecall: SELECT_JOBS, as positions in the table */
    method SelectRecalling(req: nat, tape: string) returns (ids: seq<nat>)
      ensures forall m :: 0 <= m < |ids| ==> ids[m] < |rows| && IsRecalling(rows[ids[m]], req, tape)
      ensures forall m, n :: 0 <= m < n < |ids| ==> ids[m] < ids[n]
      ensures forall i :: 0 <= i < |rows| && IsRecalling(rows[i], req, tape) ==> i in ids
    {
      ids := [];
      for i := 0 to |rows|
        invariant forall m :: 0 <= m < |ids| ==> ids[m] < i && IsRecalling(rows[ids[m]], req, tape)
        invariant forall m, n :: 0 <= m < n < |ids| ==> ids[m] < ids[n]
        invariant forall k :: 0 <= k < i && IsRecalling(rows[k], req, tape) ==> k in ids
      {
        if rows[i].req == req && rows[i].tape == tape && (rows[i].state == RecallingMig || rows[i].state == RecallingPremig) {
          ids := ids + [i];
        }
      }
    }
  }

  predicate IsSelected(j: Job, req: nat, state: JobState, tape: string) {
    j.req == req && j.state == state && j.tape == tape
  }

  function Selected(rows: seq<Job>, req: nat, state: JobState, tape: string): (jobs: seq<Job>)
    ensures forall j :: j in jobs <==> j in rows && IsSelected(j, req, state, tape)
  {
    if rows == [] then []
    else if IsSelected(rows[0], req, state, tape) then [rows[0]] + Selected(rows[1..], req, state, tape)
    else Selected(rows[1..], req, state, tape)
  }

  predicate IsRecalling(j: Job, req: nat, tape: string) {
    j.req == req && j.tape == tape && Recalling(j.state)
  }
}
