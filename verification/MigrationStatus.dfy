/**
  The progress counters of a migration request, which `transferData` and
  `changeFileState` bring up to date as each job ends.

  Passes of all replicas work side by side.  `rows` has the state that a job
  gets when the pass that works on it settles (`Migration.PassResult`): the one
  it came from as long as it is worked on, then the one that the work earned.
  A state change counts for all replicas of the file, but only the job that it
  was asked for changes its state; and a failed sync fails premigrated jobs
  without counting them.

  Files that need no tape are passed here by one replica at a time; such passes
  get into each other's way when they overlap, see `StubStatus`.
 */
module MigrationStatus {
  import opened JobTable
  import opened Migration
  import opened Status

  // `numRepl` is 0 for files that are premigrated already, without storage pools
  datatype Plan = Plan(req: nat, numRepl: nat, needsTape: bool, target: JobState)

  predicate Sound(p: Plan) {
    if p.needsTape then p.numRepl > 0 && (p.target == Migrated || p.target == Premigrated) else p.target == Migrated
  }

  /** The state from which files are changed to the target */
  function From(p: Plan): JobState { if p.needsTape then Transferred else Premigrated }

  function RowsPerFile(p: Plan): nat { if p.numRepl == 0 then 1 else p.numRepl }

  // How the work on a job ends; a transfer may also fail after it was counted as done.
  datatype End = Ends | Breaks | BreaksLate | GivesUp

  datatype Sys = Sys(
    rows: seq<Job>,
    counters: Counters,
    taken: map<nat, bool>,     // jobs that are worked on: whether for the transfer
    copies: map<string, nat>,  // the length of the tape list of each file
    changed: seq<string>,      // files whose state was changed
    broken: seq<string>,       // files whose state could not be changed
    late: nat,                 // transfers that failed after they were counted
    lost: multiset<string>)    // for each premigrated job that a failed sync met: its file

  datatype Step = Take(i: nat, transfer: bool, tape: string) | Work(i: nat, end: End) | FailSync(tape: string, repl: nat)

  function CopiesOf(s: Sys, file: string): nat { if file in s.copies then s.copies[file] else 0 }

  predicate Enabled(p: Plan, s: Sys, step: Step) {
    match step
    case Take(i, transfer, tape) =>
      && i < |s.rows| && s.rows[i].req == p.req && i !in s.taken
      && s.rows[i].state == (if transfer then Resident else From(p))
      && (if transfer then p.needsTape else s.rows[i].tape == tape)
      && (p.needsTape || forall k :: k in s.taken && k < |s.rows| ==> s.rows[k].repl == s.rows[i].repl)
    case Work(i, end) =>
      && i < |s.rows| && i in s.taken
      && (!s.taken[i] ==> end != BreaksLate
                          && (end == Ends && p.numRepl > 0 ==> CopiesOf(s, s.rows[i].file) == p.numRepl))
    case FailSync(_, repl) =>
      // the sync comes when the transfer of the replica has settled
      p.needsTape && forall k :: k in s.taken && k < |s.rows| ==> s.rows[k].repl != repl
  }

  // ---------------------------------------------------------------- counting

  function SucceededTimes(c: Counters, from: JobState, to: JobState, n: nat): Counters
    decreases n
  {
    if n == 0 then c else SucceededTimes(Succeeded(c, from, to), from, to, n - 1)
  }

  function FailTimes(c: Counters, from: JobState, n: nat): Counters
    decreases n
  {
    if n == 0 then c else FailTimes(Fail(c, from), from, n - 1)
  }

  /** The loops at the end of changeFileState */
  method CountChange(st: Status, p: Plan, done: bool)
    requires p.req in st.allStates
    modifies st
    ensures st.allStates == old(st.allStates)[p.req :=
              if done then SucceededTimes(old(st.allStates)[p.req], From(p), p.target, RowsPerFile(p))
              else FailTimes(old(st.allStates)[p.req], From(p), p.numRepl)]
  {
    ghost var c := st.allStates[p.req];
    if !done {
      for i := 0 to p.numRepl
        invariant p.req in st.allStates && st.allStates == old(st.allStates)[p.req := st.allStates[p.req]]
        invariant FailTimes(st.allStates[p.req], From(p), p.numRepl - i) == FailTimes(c, From(p), p.numRepl)
      {
        st.UpdateFailed(p.req, From(p));
      }
      return;
    }
    for i := 0 to RowsPerFile(p)
      invariant p.req in st.allStates && st.allStates == old(st.allStates)[p.req := st.allStates[p.req]]
      invariant SucceededTimes(st.allStates[p.req], From(p), p.target, RowsPerFile(p) - i)
             == SucceededTimes(c, From(p), p.target, RowsPerFile(p))
    {
      st.UpdateSuccess(p.req, From(p), p.target);
    }
  }

  lemma {:induction false} SucceededTimesMoves(c: Counters, from: JobState, to: JobState, n: nat)
    requires Plain(from) && Plain(to) && from != to
    ensures forall k: Class :: Get(SucceededTimes(c, from, to, n), k)
              == Get(c, k) - (if k == ClassOf(from) then n else 0) + (if k == ClassOf(to) then n else 0)
    decreases n
  {
    if n > 0 { SucceededTimesMoves(Succeeded(c, from, to), from, to, n - 1); }
  }

  lemma {:induction false} FailTimesMoves(c: Counters, from: JobState, n: nat)
    requires from == Transferred || from == Premigrated
    ensures forall k: Class :: Get(FailTimes(c, from, n), k)
              == Get(c, k) - (if k == CPremigrated && from == Premigrated then n else 0) + (if k == CFailed then n else 0)
    decreases n
  {
    if n > 0 { FailTimesMoves(Fail(c, from), from, n - 1); }
  }

  // ---------------------------------------------------------------- the steps

  /** The row changes unless a failure of another replica got there first. */
  function Moved(rows: seq<Job>, i: nat, from: JobState, to: JobState): (r: seq<Job>)
    requires i < |rows|
    ensures |r| == |rows|
  {
    if rows[i].state == from then rows[i := rows[i].(state := to)] else rows
  }

  function AfterTransfer(s: Sys, i: nat, end: End): Sys
    requires i < |s.rows|
  {
    var file, c := s.rows[i].file, s.counters;
    match end
    case Ends =>
      s.(rows := Moved(s.rows, i, Resident, Transferred), counters := Succeeded(c, Resident, Transferred),
         copies := s.copies[file := CopiesOf(s, file) + 1])
    case Breaks => s.(rows := Moved(s.rows, i, Resident, Failed), counters := Fail(c, Resident))
    case BreaksLate =>
      s.(rows := Moved(s.rows, i, Resident, Failed), counters := Fail(Succeeded(c, Resident, Transferred), Resident),
         late := s.late + 1)
    case GivesUp => s
  }

  function AfterChange(p: Plan, s: Sys, i: nat, end: End): Sys
    requires i < |s.rows|
  {
    var file := s.rows[i].file;
    match end
    case Ends =>
      s.(rows := Moved(s.rows, i, From(p), p.target), changed := s.changed + [file],
         counters := SucceededTimes(s.counters, From(p), p.target, RowsPerFile(p)))
    case Breaks =>
      s.(rows := Exec(s.rows, FailStubbing(p.req, file)), broken := s.broken + [file],
         counters := FailTimes(s.counters, From(p), p.numRepl))
    case _ => s
  }

  /** The files of the rows that a statement changes, one for each row */
  function FilesHit(rows: seq<Job>, st: Stmt): multiset<string> {
    if rows == [] then multiset{}
    else (if Matches(rows[0], st) then multiset{rows[0].file} else multiset{}) + FilesHit(rows[1..], st)
  }

  function Next(p: Plan, s: Sys, step: Step): Sys
    requires Enabled(p, s, step)
  {
    match step
    case Take(i, transfer, tape) =>
      s.(taken := s.taken[i := transfer], rows := if transfer then s.rows[i := s.rows[i].(tape := tape)] else s.rows)
    case Work(i, end) =>
      var s' := s.(taken := s.taken - {i});
      if s.taken[i] then AfterTransfer(s', i, end) else AfterChange(p, s', i, end)
    case FailSync(tape, repl) =>
      var st := FailPremigrated(p.req, tape, repl);
      s.(rows := Exec(s.rows, st), lost := s.lost + FilesHit(s.rows, st))
  }

  predicate ValidRun(p: Plan, s: Sys, steps: seq<Step>)
    decreases |steps|
  {
    steps == [] || (Enabled(p, s, steps[0]) && ValidRun(p, Next(p, s, steps[0]), steps[1..]))
  }

  function After(p: Plan, s: Sys, steps: seq<Step>): Sys
    requires ValidRun(p, s, steps)
    decreases |steps|
  {
    if steps == [] then s else After(p, Next(p, s, steps[0]), steps[1..])
  }

  /** The counters were just read from the job queue. */
  predicate Start(p: Plan, s: Sys) {
    Recounted(s.counters, s.rows, p.req) && s.taken == map[] && s.changed == [] && s.broken == []
    && s.late == 0 && s.lost == multiset{}
  }

  // ---------------------------------------------------------------- rows and classes

  function OfFile(rows: seq<Job>, req: nat, file: string, k: Class): nat {
    if rows == [] then 0
    else (if rows[0].req == req && rows[0].file == file && ClassOf(rows[0].state) == k then 1 else 0)
         + OfFile(rows[1..], req, file, k)
  }

  function RowsOf(rows: seq<Job>, req: nat, file: string): nat {
    if rows == [] then 0
    else (if rows[0].req == req && rows[0].file == file then 1 else 0) + RowsOf(rows[1..], req, file)
  }

  function In(st: JobState, k: Class): nat { if ClassOf(st) == k then 1 else 0 }

  lemma {:induction false} MovedCounts(rows: seq<Job>, i: nat, req: nat, to: JobState, file: string, k: Class)
    requires i < |rows| && rows[i].req == req
    ensures var r := rows[i := rows[i].(state := to)];
            && CountClass(r, req, k) == CountClass(rows, req, k) - In(rows[i].state, k) + In(to, k)
            && OfFile(r, req, file, k)
               == OfFile(rows, req, file, k) + (if rows[i].file == file then In(to, k) - In(rows[i].state, k) else 0)
            && RowsOf(r, req, file) == RowsOf(rows, req, file) && JobsOf(r, req) == JobsOf(rows, req)
  {
    var r := rows[i := rows[i].(state := to)];
    if i == 0 {
      assert r[1..] == rows[1..];
    } else {
      assert r[1..] == rows[1..][i - 1 := rows[i].(state := to)];
      MovedCounts(rows[1..], i - 1, req, to, file, k);
    }
  }

  /** FAIL_STUBBING fails all rows of the file. */
  lemma {:induction false} BrokenCounts(rows: seq<Job>, req: nat, file: string, k: Class)
    ensures var r := Exec(rows, FailStubbing(req, file));
            && CountClass(r, req, k) == CountClass(rows, req, k) - OfFile(rows, req, file, k)
                                        + (if k == CFailed then RowsOf(rows, req, file) else 0)
            && JobsOf(r, req) == JobsOf(rows, req)
  {
    if rows != [] {
      BrokenCounts(rows[1..], req, file, k);
      assert Exec(rows, FailStubbing(req, file))[1..] == Exec(rows[1..], FailStubbing(req, file));
    }
  }

  lemma {:induction false} BrokenRows(rows: seq<Job>, req: nat, file: string, other: string)
    ensures RowsOf(Exec(rows, FailStubbing(req, file)), req, other) == RowsOf(rows, req, other)
  {
    if rows != [] {
      BrokenRows(rows[1..], req, file, other);
      assert Exec(rows, FailStubbing(req, file))[1..] == Exec(rows[1..], FailStubbing(req, file));
    }
  }

  /** What a class gains when `n` premigrated rows fail */
  function Shift(k: Class, n: nat): int { if k == CFailed then n else if k == CPremigrated then 0 - n else 0 }

  lemma FirstHit(rows: seq<Job>, req: nat, tape: string, repl: nat)
    requires rows != []
    ensures var st := FailPremigrated(req, tape, repl);
            var r := Exec(rows, st);
            && r[1..] == Exec(rows[1..], st) && |r| == |rows|
            && (if Matches(rows[0], st) then
                  && rows[0].req == req && rows[0].state == Premigrated && r[0] == rows[0].(state := Failed)
                  && FilesHit(rows, st) == FilesHit(rows[1..], st)[rows[0].file := FilesHit(rows[1..], st)[rows[0].file] + 1]
                  && |FilesHit(rows, st)| == |FilesHit(rows[1..], st)| + 1
                else r[0] == rows[0] && FilesHit(rows, st) == FilesHit(rows[1..], st))
  {
  }

  /** A statement that fails premigrated rows */
  lemma {:induction false} FailSyncCounts(rows: seq<Job>, req: nat, tape: string, repl: nat, k: Class)
    ensures var st := FailPremigrated(req, tape, repl);
            && CountClass(Exec(rows, st), req, k) == CountClass(rows, req, k) + Shift(k, |FilesHit(rows, st)|)
            && JobsOf(Exec(rows, st), req) == JobsOf(rows, req)
  {
    if rows != [] {
      FailSyncCounts(rows[1..], req, tape, repl, k);
      FirstHit(rows, req, tape, repl);
    }
  }

  lemma {:induction false} FailSyncOfFile(rows: seq<Job>, req: nat, tape: string, repl: nat, file: string, k: Class)
    ensures var st := FailPremigrated(req, tape, repl);
            OfFile(Exec(rows, st), req, file, k) == OfFile(rows, req, file, k) + Shift(k, FilesHit(rows, st)[file])
  {
    if rows != [] {
      FailSyncOfFile(rows[1..], req, tape, repl, file, k);
      FirstHit(rows, req, tape, repl);
    }
  }

  lemma {:induction false} FailSyncRowsOf(rows: seq<Job>, req: nat, tape: string, repl: nat, file: string)
    ensures RowsOf(Exec(rows, FailPremigrated(req, tape, repl)), req, file) == RowsOf(rows, req, file)
  {
    if rows != [] {
      FailSyncRowsOf(rows[1..], req, tape, repl, file);
      FirstHit(rows, req, tape, repl);
    }
  }

  /** A row with its new tape counts as before. */
  lemma {:induction false} TapeCounts(rows: seq<Job>, i: nat, tape: string, req: nat, file: string, k: Class)
    requires i < |rows|
    ensures var r := rows[i := rows[i].(tape := tape)];
            && CountClass(r, req, k) == CountClass(rows, req, k) && OfFile(r, req, file, k) == OfFile(rows, req, file, k)
            && RowsOf(r, req, file) == RowsOf(rows, req, file) && JobsOf(r, req) == JobsOf(rows, req)
  {
    var r := rows[i := rows[i].(tape := tape)];
    if i == 0 {
      assert r[1..] == rows[1..];
    } else {
      assert r[1..] == rows[1..][i - 1 := rows[i].(tape := tape)];
      TapeCounts(rows[1..], i - 1, tape, req, file, k);
    }
  }

  predicate AllIn(rows: seq<Job>, req: nat, file: string, st: JobState) {
    forall i :: 0 <= i < |rows| && rows[i].req == req && rows[i].file == file ==> rows[i].state == st
  }

  lemma {:induction false} AllInCounts(rows: seq<Job>, req: nat, file: string, st: JobState, k: Class)
    requires AllIn(rows, req, file, st)
    ensures OfFile(rows, req, file, k) == if k == ClassOf(st) then RowsOf(rows, req, file) else 0
  {
    if rows != [] {
      assert forall i :: 0 <= i < |rows[1..]| ==> rows[1..][i] == rows[i + 1];
      AllInCounts(rows[1..], req, file, st, k);
    }
  }

  /** A row of a file counts there. */
  lemma {:induction false} RowCounts(rows: seq<Job>, i: nat)
    requires i < |rows|
    ensures OfFile(rows, rows[i].req, rows[i].file, ClassOf(rows[i].state)) > 0
    ensures RowsOf(rows, rows[i].req, rows[i].file) > 0
    ensures forall k: Class :: OfFile(rows, rows[i].req, rows[i].file, k)
              + (if k == ClassOf(rows[i].state) then 0 else 1) <= RowsOf(rows, rows[i].req, rows[i].file)
  {
    if i > 0 {
      RowCounts(rows[1..], i - 1);
    } else {
      forall k: Class ensures OfFile(rows[1..], rows[0].req, rows[0].file, k) <= RowsOf(rows[1..], rows[0].req, rows[0].file) {
        OfFileBounded(rows[1..], rows[0].req, rows[0].file, k);
      }
    }
  }

  lemma {:induction false} OfFileBounded(rows: seq<Job>, req: nat, file: string, k: Class)
    ensures OfFile(rows, req, file, k) <= RowsOf(rows, req, file)
  {
    if rows != [] { OfFileBounded(rows[1..], req, file, k); }
  }

  // ---------------------------------------------------------------- files that are copied to tape

  /** How far a counter is off, as long as no state change failed. */
  function Error(p: Plan, s: Sys, k: Class): int {
    var extra := (p.numRepl - 1) * |s.changed|;
    (if k == CResident then 0 - s.late
     else if k == CTransferred then s.late - extra
     else if k == ClassOf(p.target) then extra
     else 0) - Shift(k, |s.lost|)
  }

  predicate TakenOk(p: Plan, s: Sys) {
    forall i :: i in s.taken ==> i < |s.rows| && s.rows[i].req == p.req
  }

  predicate InPlace(p: Plan, s: Sys) {
    forall i :: i in s.taken && i < |s.rows| ==> s.rows[i].state == if s.taken[i] then Resident else From(p)
  }

  predicate Off(p: Plan, s: Sys) {
    forall k: Class :: Get(s.counters, k) == CountClass(s.rows, p.req, k) + Error(p, s, k)
  }

  predicate TapeInv(p: Plan, s: Sys) {
    && TakenOk(p, s)
    && Total(s.counters) == JobsOf(s.rows, p.req) + p.numRepl * |s.broken|
    && (s.broken == [] ==> Off(p, s) && InPlace(p, s))
  }

  lemma TotalIsSum(c: Counters)
    ensures Total(c) == Get(c, CResident) + Get(c, CTransferred) + Get(c, CPremigrated) + Get(c, CMigrated) + Get(c, CFailed)
  {
  }

  lemma SumKept(c: Counters, d: Counters, from: Class, to: Class, n: nat)
    requires from != to
    requires forall k: Class :: Get(d, k) == Get(c, k) - (if k == from then n else 0) + (if k == to then n else 0)
    ensures Total(d) == Total(c)
  {
    TotalIsSum(c);
    TotalIsSum(d);
  }

  lemma TakeKeeps(p: Plan, s: Sys, i: nat, transfer: bool, tape: string)
    requires Sound(p) && p.needsTape && TapeInv(p, s) && Enabled(p, s, Take(i, transfer, tape))
    ensures TapeInv(p, Next(p, s, Take(i, transfer, tape)))
  {
    var n := Next(p, s, Take(i, transfer, tape));
    TapeCounts(s.rows, i, tape, p.req, "", CResident);
    if s.broken == [] {
      forall k: Class ensures Get(n.counters, k) == CountClass(n.rows, p.req, k) + Error(p, n, k) {
        TapeCounts(s.rows, i, tape, p.req, "", k);
        assert Get(s.counters, k) == CountClass(s.rows, p.req, k) + Error(p, s, k);
      }
    }
  }

  lemma FailSyncIsOff(p: Plan, s: Sys, tape: string, repl: nat, k: Class)
    requires Off(p, s) && Enabled(p, s, FailSync(tape, repl))
    ensures var n := Next(p, s, FailSync(tape, repl)); Get(n.counters, k) == CountClass(n.rows, p.req, k) + Error(p, n, k)
  {
    FailSyncCounts(s.rows, p.req, tape, repl, k);
    assert Get(s.counters, k) == CountClass(s.rows, p.req, k) + Error(p, s, k);
  }

  /** The failed rows were not worked on, or else the statement does not match them. */
  lemma FailSyncInPlace(p: Plan, s: Sys, tape: string, repl: nat)
    requires p.needsTape && TakenOk(p, s) && InPlace(p, s) && Enabled(p, s, FailSync(tape, repl))
    ensures InPlace(p, Next(p, s, FailSync(tape, repl)))
  {
  }

  lemma FailSyncKeeps(p: Plan, s: Sys, tape: string, repl: nat)
    requires Sound(p) && p.needsTape && TapeInv(p, s) && Enabled(p, s, FailSync(tape, repl))
    ensures TapeInv(p, Next(p, s, FailSync(tape, repl)))
  {
    FailSyncCounts(s.rows, p.req, tape, repl, CResident);
    assert TakenOk(p, Next(p, s, FailSync(tape, repl)));
    if s.broken == [] {
      FailSyncInPlace(p, s, tape, repl);
      assert Off(p, Next(p, s, FailSync(tape, repl))) by {
        forall k: Class { FailSyncIsOff(p, s, tape, repl, k); }
      }
    }
  }

  lemma MovedRows(p: Plan, rows: seq<Job>, i: nat, from: JobState, to: JobState, k: Class)
    requires i < |rows| && rows[i].req == p.req
    ensures var r := Moved(rows, i, from, to);
            && (forall m :: 0 <= m < |rows| ==> r[m].req == rows[m].req && r[m].file == rows[m].file)
            && (forall m :: 0 <= m < |rows| && m != i ==> r[m] == rows[m])
            && JobsOf(r, p.req) == JobsOf(rows, p.req)
            && (rows[i].state == from ==> CountClass(r, p.req, k) == CountClass(rows, p.req, k) - In(from, k) + In(to, k))
            && (rows[i].state != from ==> r == rows)
  {
    MovedCounts(rows, i, p.req, to, rows[i].file, k);
  }

  /** What a job of a transfer does to the counters. */
  lemma TransferMoves(c: Counters)
    ensures forall k: Class :: Get(Succeeded(c, Resident, Transferred), k)
              == Get(c, k) - In(Resident, k) + In(Transferred, k)
    ensures forall k: Class :: Get(Fail(c, Resident), k) == Get(c, k) - In(Resident, k) + In(Failed, k)
    ensures Total(Succeeded(c, Resident, Transferred)) == Total(c) && Total(Fail(c, Resident)) == Total(c)
  {
  }

  lemma TransferIsOff(p: Plan, s: Sys, i: nat, end: End, k: Class)
    requires Sound(p) && p.needsTape && Off(p, s) && Enabled(p, s, Work(i, end)) && s.taken[i]
    requires s.rows[i].req == p.req && s.rows[i].state == Resident
    ensures var n := Next(p, s, Work(i, end)); Get(n.counters, k) == CountClass(n.rows, p.req, k) + Error(p, n, k)
  {
    var to := if end.Ends? then Transferred else Failed;
    TransferMoves(s.counters);
    TransferMoves(Succeeded(s.counters, Resident, Transferred));
    MovedRows(p, s.rows, i, Resident, to, k);
    assert Get(s.counters, k) == CountClass(s.rows, p.req, k) + Error(p, s, k);
  }

  lemma TransferKeeps(p: Plan, s: Sys, i: nat, end: End)
    requires Sound(p) && p.needsTape && TapeInv(p, s) && Enabled(p, s, Work(i, end)) && s.taken[i]
    ensures TapeInv(p, Next(p, s, Work(i, end)))
  {
    TransferMoves(s.counters);
    TransferMoves(Succeeded(s.counters, Resident, Transferred));
    MovedRows(p, s.rows, i, Resident, if end.Ends? then Transferred else Failed, CResident);
    if s.broken == [] {
      forall k: Class ensures var n := Next(p, s, Work(i, end)); Get(n.counters, k) == CountClass(n.rows, p.req, k) + Error(p, n, k) {
        TransferIsOff(p, s, i, end, k);
      }
    }
  }

  lemma ChangeEndsKeeps(p: Plan, s: Sys, i: nat)
    requires Sound(p) && p.needsTape && TapeInv(p, s) && Enabled(p, s, Work(i, Ends)) && !s.taken[i]
    ensures TapeInv(p, Next(p, s, Work(i, Ends)))
  {
    var n := Next(p, s, Work(i, Ends));
    SucceededTimesMoves(s.counters, Transferred, p.target, p.numRepl);
    SumKept(s.counters, n.counters, CTransferred, ClassOf(p.target), p.numRepl);
    MovedRows(p, s.rows, i, Transferred, p.target, CResident);
    if s.broken == [] {
      assert (p.numRepl - 1) * (|s.changed| + 1) == (p.numRepl - 1) * |s.changed| + p.numRepl - 1;
      forall k: Class ensures Get(n.counters, k) == CountClass(n.rows, p.req, k) + Error(p, n, k) {
        MovedRows(p, s.rows, i, Transferred, p.target, k);
        assert Get(s.counters, k) == CountClass(s.rows, p.req, k) + Error(p, s, k);
      }
    }
  }

  lemma ChangeBreaksKeeps(p: Plan, s: Sys, i: nat)
    requires Sound(p) && p.needsTape && TapeInv(p, s) && Enabled(p, s, Work(i, Breaks)) && !s.taken[i]
    ensures TapeInv(p, Next(p, s, Work(i, Breaks)))
  {
    var n := Next(p, s, Work(i, Breaks));
    FailTimesMoves(s.counters, Transferred, p.numRepl);
    TotalIsSum(s.counters);
    TotalIsSum(n.counters);
    BrokenCounts(s.rows, p.req, s.rows[i].file, CFailed);
    assert p.numRepl * (|s.broken| + 1) == p.numRepl * |s.broken| + p.numRepl;
  }

  lemma GivesUpKeeps(p: Plan, s: Sys, i: nat)
    requires TapeInv(p, s) && Enabled(p, s, Work(i, GivesUp)) && !s.taken[i]
    ensures TapeInv(p, Next(p, s, Work(i, GivesUp)))
  {
    var n := Next(p, s, Work(i, GivesUp));
    assert s.broken == [] ==> forall k: Class :: Error(p, n, k) == Error(p, s, k);
  }

  lemma TapeStepKeeps(p: Plan, s: Sys, step: Step)
    requires Sound(p) && p.needsTape && TapeInv(p, s) && Enabled(p, s, step)
    ensures TapeInv(p, Next(p, s, step))
  {
    match step
    case Take(i, transfer, tape) => TakeKeeps(p, s, i, transfer, tape);
    case FailSync(tape, repl) => FailSyncKeeps(p, s, tape, repl);
    case Work(i, end) =>
      if s.taken[i] {
        TransferKeeps(p, s, i, end);
      } else {
        match end
        case Ends => ChangeEndsKeeps(p, s, i);
        case Breaks => ChangeBreaksKeeps(p, s, i);
        case GivesUp => GivesUpKeeps(p, s, i);
      }
  }

  lemma {:induction false} RunsKeepTape(p: Plan, s: Sys, steps: seq<Step>)
    requires Sound(p) && p.needsTape && TapeInv(p, s) && ValidRun(p, s, steps)
    ensures TapeInv(p, After(p, s, steps))
    decreases |steps|
  {
    if steps != [] {
      TapeStepKeeps(p, s, steps[0]);
      RunsKeepTape(p, Next(p, s, steps[0]), steps[1..]);
    }
  }

  lemma RecountedTotal(c: Counters, rows: seq<Job>, req: nat)
    requires Recounted(c, rows, req)
    ensures Total(c) == JobsOf(rows, req)
  {
    TotalIsSum(c);
    ClassesSum(rows, req);
  }

  /** Files that are copied to tape: after any run of any number of replicas side by side the counters equal a
      recount exactly if no change of state failed, no transfer failed after it was counted, no failed sync met a
      premigrated job of its tape and replica, and there was one replica, or no change of state. */
  lemma CountersExactIff(p: Plan, s0: Sys, steps: seq<Step>)
    requires Sound(p) && p.needsTape && Start(p, s0) && ValidRun(p, s0, steps)
    ensures var s := After(p, s0, steps);
            Recounted(s.counters, s.rows, p.req)
            <==> s.broken == [] && s.late == 0 && s.lost == multiset{} && (p.numRepl == 1 || s.changed == [])
  {
    RecountedTotal(s0.counters, s0.rows, p.req);
    RunsKeepTape(p, s0, steps);
    RecountedIff(p, After(p, s0, steps));
  }

  lemma RecountedIff(p: Plan, s: Sys)
    requires Sound(p) && p.needsTape && TapeInv(p, s)
    ensures Recounted(s.counters, s.rows, p.req)
            <==> s.broken == [] && s.late == 0 && s.lost == multiset{} && (p.numRepl == 1 || s.changed == [])
  {
    if Recounted(s.counters, s.rows, p.req) {
      RecountedTotal(s.counters, s.rows, p.req);
      assert s.broken == [];
      assert Error(p, s, CFailed) == 0 && Error(p, s, CResident) == 0 && Error(p, s, ClassOf(p.target)) == 0;
      assert |s.lost| == 0;
    } else if s.broken == [] {
      var k: Class :| Get(s.counters, k) != CountClass(s.rows, p.req, k);
      assert Error(p, s, k) != 0;
    }
  }

  // ---------------------------------------------------------------- the rows of one file

  function Changes(s: Sys, file: string): nat { multiset(s.changed)[file] }

  /** The jobs of a file that begins resident, without a tape list */
  predicate FileInv(p: Plan, s: Sys, file: string) {
    && RowsOf(s.rows, p.req, file) == p.numRepl
    && OfFile(s.rows, p.req, file, ClassOf(p.target)) + s.lost[file] == Changes(s, file)
    && OfFile(s.rows, p.req, file, CTransferred) + Changes(s, file) == CopiesOf(s, file)
    && (Changes(s, file) > 0 ==> CopiesOf(s, file) == p.numRepl)
    && OfFile(s.rows, p.req, file, CFailed) >= s.lost[file]
    && (p.target == Migrated ==> OfFile(s.rows, p.req, file, CPremigrated) == 0)
  }

  lemma {:induction false} FileClassesSum(rows: seq<Job>, req: nat, file: string)
    ensures OfFile(rows, req, file, CResident) + OfFile(rows, req, file, CTransferred) + OfFile(rows, req, file, CPremigrated)
            + OfFile(rows, req, file, CMigrated) + OfFile(rows, req, file, CFailed) == RowsOf(rows, req, file)
  {
    if rows != [] { FileClassesSum(rows[1..], req, file); }
  }

  lemma FileTransferKeeps(p: Plan, s: Sys, i: nat, end: End, file: string)
    requires Sound(p) && p.needsTape && Enabled(p, s, Work(i, end)) && s.taken[i]
    requires s.rows[i].req == p.req && s.rows[i].state == Resident && FileInv(p, s, file)
    ensures FileInv(p, Next(p, s, Work(i, end)), file)
  {
    var to := if end.Ends? then Transferred else Failed;
    MovedCounts(s.rows, i, p.req, to, file, CTransferred);
    MovedCounts(s.rows, i, p.req, to, file, CFailed);
    MovedCounts(s.rows, i, p.req, to, file, CPremigrated);
    MovedCounts(s.rows, i, p.req, to, file, ClassOf(p.target));
    if s.rows[i].file == file {
      RowCounts(s.rows, i);
      FileClassesSum(s.rows, p.req, file);
    }
  }

  lemma FileChangeKeeps(p: Plan, s: Sys, i: nat, file: string)
    requires Sound(p) && p.needsTape && Enabled(p, s, Work(i, Ends)) && !s.taken[i]
    requires s.rows[i].req == p.req && s.rows[i].state == Transferred && FileInv(p, s, file)
    ensures FileInv(p, Next(p, s, Work(i, Ends)), file)
  {
    MovedCounts(s.rows, i, p.req, p.target, file, CTransferred);
    MovedCounts(s.rows, i, p.req, p.target, file, CFailed);
    MovedCounts(s.rows, i, p.req, p.target, file, CPremigrated);
    MovedCounts(s.rows, i, p.req, p.target, file, ClassOf(p.target));
    assert multiset(s.changed + [s.rows[i].file]) == multiset(s.changed) + multiset{s.rows[i].file};
  }

  lemma FileTakeKeeps(p: Plan, s: Sys, i: nat, transfer: bool, tape: string, file: string)
    requires Enabled(p, s, Take(i, transfer, tape)) && FileInv(p, s, file)
    ensures FileInv(p, Next(p, s, Take(i, transfer, tape)), file)
  {
    TapeCounts(s.rows, i, tape, p.req, file, CTransferred);
    TapeCounts(s.rows, i, tape, p.req, file, CFailed);
    TapeCounts(s.rows, i, tape, p.req, file, CPremigrated);
    TapeCounts(s.rows, i, tape, p.req, file, ClassOf(p.target));
  }

  lemma FileFailSyncKeeps(p: Plan, s: Sys, tape: string, repl: nat, file: string)
    requires Sound(p) && p.needsTape && Enabled(p, s, FailSync(tape, repl)) && FileInv(p, s, file)
    ensures FileInv(p, Next(p, s, FailSync(tape, repl)), file)
  {
    FailSyncOfFile(s.rows, p.req, tape, repl, file, CTransferred);
    FailSyncOfFile(s.rows, p.req, tape, repl, file, CFailed);
    FailSyncOfFile(s.rows, p.req, tape, repl, file, CPremigrated);
    FailSyncOfFile(s.rows, p.req, tape, repl, file, CMigrated);
    FailSyncRowsOf(s.rows, p.req, tape, repl, file);
  }

  lemma FileStepKeeps(p: Plan, s: Sys, step: Step, file: string)
    requires Sound(p) && p.needsTape && TapeInv(p, s) && Enabled(p, s, step)
    requires FileInv(p, s, file) && s.broken == [] == Next(p, s, step).broken
    ensures FileInv(p, Next(p, s, step), file)
  {
    if step.Work? && s.taken[step.i] {
      FileTransferKeeps(p, s, step.i, step.end, file);
    } else if step.Work? && step.end == Ends {
      FileChangeKeeps(p, s, step.i, file);
    } else if step.Take? {
      FileTakeKeeps(p, s, step.i, step.transfer, step.tape, file);
    } else if step.FailSync? {
      FileFailSyncKeeps(p, s, step.tape, step.repl, file);
    }
  }

  lemma BrokenStays(p: Plan, s: Sys, step: Step)
    requires Enabled(p, s, step) && s.broken != []
    ensures Next(p, s, step).broken != []
  {
  }

  lemma {:induction false} RunsKeepBroken(p: Plan, s: Sys, steps: seq<Step>)
    requires ValidRun(p, s, steps) && s.broken != []
    ensures After(p, s, steps).broken != []
    decreases |steps|
  {
    if steps != [] {
      BrokenStays(p, s, steps[0]);
      RunsKeepBroken(p, Next(p, s, steps[0]), steps[1..]);
    }
  }

  lemma {:induction false} RunsKeepFile(p: Plan, s: Sys, steps: seq<Step>, file: string)
    requires Sound(p) && p.needsTape && TapeInv(p, s) && FileInv(p, s, file) && ValidRun(p, s, steps)
    requires After(p, s, steps).broken == []
    ensures FileInv(p, After(p, s, steps), file)
    decreases |steps|
  {
    if s.broken != [] { RunsKeepBroken(p, s, steps); }
    if steps != [] {
      var n := Next(p, s, steps[0]);
      if n.broken != [] { RunsKeepBroken(p, n, steps[1..]); }
      TapeStepKeeps(p, s, steps[0]);
      FileStepKeeps(p, s, steps[0], file);
      RunsKeepFile(p, n, steps[1..], file);
    }
  }

  /** Each change of state takes one job of the file to the target state, whatever the number of replicas, and
      leaves the others transferred: of a file that was changed once, one of `numRepl`.  A job that a failed sync
      met is out of the target state again, and failed. */
  lemma OneRowPerChange(p: Plan, s0: Sys, steps: seq<Step>, file: string)
    requires Sound(p) && p.needsTape && Start(p, s0) && ValidRun(p, s0, steps) && After(p, s0, steps).broken == []
    requires AllIn(s0.rows, p.req, file, Resident) && RowsOf(s0.rows, p.req, file) == p.numRepl && CopiesOf(s0, file) == 0
    ensures var s := After(p, s0, steps);
            && OfFile(s.rows, p.req, file, ClassOf(p.target)) == Changes(s, file) - s.lost[file]
            && OfFile(s.rows, p.req, file, CFailed) >= s.lost[file]
            && (Changes(s, file) > 0 ==> OfFile(s.rows, p.req, file, CTransferred) == p.numRepl - Changes(s, file))
  {
    RecountedTotal(s0.counters, s0.rows, p.req);
    AllInCounts(s0.rows, p.req, file, Resident, CTransferred);
    AllInCounts(s0.rows, p.req, file, Resident, CFailed);
    AllInCounts(s0.rows, p.req, file, Resident, CPremigrated);
    AllInCounts(s0.rows, p.req, file, Resident, ClassOf(p.target));
    RunsKeepFile(p, s0, steps, file);
  }

  // ---------------------------------------------------------------- a sync that fails later

  function LateSyncSteps(i: nat, tape: string, repl: nat): seq<Step> {
    [Take(i, true, tape)] + ([Work(i, Ends)] + ([Take(i, false, tape)] + ([Work(i, Ends)] + ([FailSync(tape, repl)] + []))))
  }

  /** One replica, and files that are to be premigrated: a file is copied and changed, and then the sync of a
      later execution on the same tape fails.  No change and no transfer failed, and the counters are wrong. */
  lemma LateSyncMiscounts(p: Plan, s0: Sys, i: nat, tape: string)
    requires Sound(p) && p.needsTape && p.numRepl == 1 && p.target == Premigrated && Start(p, s0)
    requires i < |s0.rows| && s0.rows[i].req == p.req && s0.rows[i].state == Resident && CopiesOf(s0, s0.rows[i].file) == 0
    ensures var steps := LateSyncSteps(i, tape, s0.rows[i].repl);
            && ValidRun(p, s0, steps)
            && var s := After(p, s0, steps);
               && s.broken == [] && s.late == 0 && |s.rows| == |s0.rows| && s.rows[i].state == Failed
               && !Recounted(s.counters, s.rows, p.req)
  {
    var a, b, c, d := Take(i, true, tape), Work(i, Ends), Take(i, false, tape), Work(i, Ends);
    var e := FailSync(tape, s0.rows[i].repl);
    var s1 := Next(p, s0, a);
    var s2 := Next(p, s1, b);
    var s3 := Next(p, s2, c);
    var s4 := Next(p, s3, d);
    assert s4.rows[i] == s0.rows[i].(tape := tape, state := Premigrated);
    HitCounts(s4.rows, FailPremigrated(p.req, tape, s0.rows[i].repl), i);
    FirstStep(p, s4, e, []);
    FirstStep(p, s3, d, [e] + []);
    FirstStep(p, s2, c, [d] + ([e] + []));
    FirstStep(p, s1, b, [c] + ([d] + ([e] + [])));
    FirstStep(p, s0, a, [b] + ([c] + ([d] + ([e] + []))));
    CountersExactIff(p, s0, LateSyncSteps(i, tape, s0.rows[i].repl));
  }

  lemma FirstStep(p: Plan, s: Sys, step: Step, rest: seq<Step>)
    requires Enabled(p, s, step) && ValidRun(p, Next(p, s, step), rest)
    ensures ValidRun(p, s, [step] + rest) && After(p, s, [step] + rest) == After(p, Next(p, s, step), rest)
  {
    assert ([step] + rest)[1..] == rest;
  }

  lemma {:induction false} HitCounts(rows: seq<Job>, st: Stmt, i: nat)
    requires i < |rows| && Matches(rows[i], st)
    ensures FilesHit(rows, st) != multiset{}
  {
    if i == 0 {
      assert rows[0].file in FilesHit(rows, st);
    } else {
      HitCounts(rows[1..], st, i - 1);
      var f :| f in FilesHit(rows[1..], st);
      assert f in FilesHit(rows, st);
    }
  }

  // ---------------------------------------------------------------- files that are on tape already

  /** How many state changes failed of files of which one had failed before */
  function Again(q: seq<string>): nat {
    if q == [] then 0
    else Again(q[..|q| - 1]) + if q[|q| - 1] in q[..|q| - 1] then 1 else 0
  }

  lemma AgainMore(q: seq<string>, file: string)
    ensures Again(q + [file]) == Again(q) + if file in q then 1 else 0
  {
    assert (q + [file])[..|q|] == q;
  }

  predicate OneFile(a: Job, b: Job, req: nat) { a.req == req && b.req == req && a.file == b.file }

  predicate SameState(rows: seq<Job>, req: nat) {
    forall i, k :: 0 <= i < |rows| && 0 <= k < |rows| && OneFile(rows[i], rows[k], req) ==> rows[i].state == rows[k].state
  }

  /** addJob inserts one row for each replica. */
  ghost predicate Inserted(p: Plan, rows: seq<Job>) {
    forall file :: RowsOf(rows, p.req, file) > 0 ==> RowsOf(rows, p.req, file) == RowsPerFile(p)
  }

  /** No change was counted for more jobs, or fewer, than it changed. */
  predicate Exact(p: Plan, s: Sys) {
    && (p.numRepl <= 1 || s.changed == [])
    && (s.broken == [] || (p.numRepl >= 1 && Again(s.broken) == 0))
  }

  /** What the counters and the table say about migrated and failed jobs, compared with the beginning */
  predicate Bounds(p: Plan, s: Sys, c0: Counters) {
    var n := RowsPerFile(p);
    && s.counters.migrated == c0.migrated + n * |s.changed|
    && CountClass(s.rows, p.req, CMigrated) <= c0.migrated + |s.changed|
    && s.counters.failed == c0.failed + p.numRepl * |s.broken|
    && CountClass(s.rows, p.req, CFailed) + n * Again(s.broken) <= c0.failed + n * |s.broken|
    && CountClass(s.rows, p.req, CFailed) >= c0.failed + if s.broken == [] then 0 else 1
  }

  predicate TakenInPlace(p: Plan, s: Sys) {
    forall i :: i in s.taken && i < |s.rows| ==>
      !s.taken[i] && (s.rows[i].state == Premigrated
                      || (p.numRepl > 1 && s.rows[i].state == Failed && s.rows[i].file in s.broken))
  }

  ghost predicate NoTapeInv(p: Plan, s: Sys, c0: Counters) {
    && TakenOk(p, s) && TakenInPlace(p, s) && Inserted(p, s.rows) && Bounds(p, s, c0)
    && (forall file :: file in s.broken ==> AllIn(s.rows, p.req, file, Failed))
    && (s.changed == [] ==> SameState(s.rows, p.req))
    && (Exact(p, s) ==> Recounted(s.counters, s.rows, p.req))
  }

  lemma {:induction false} TwoRows(rows: seq<Job>, i: nat, k: nat)
    requires i < k < |rows| && rows[i].req == rows[k].req && rows[i].file == rows[k].file
    ensures RowsOf(rows, rows[i].req, rows[i].file) >= 2
  {
    if i > 0 { TwoRows(rows[1..], i - 1, k - 1); } else { RowCounts(rows[1..], k - 1); }
  }

  /** If the counters are still to be right after the change failed, all jobs of the file were premigrated. */
  lemma AllPremigrated(p: Plan, s: Sys, i: nat)
    requires i < |s.rows| && s.rows[i].req == p.req && s.rows[i].state == Premigrated && Inserted(p, s.rows)
    requires s.changed == [] ==> SameState(s.rows, p.req)
    requires p.numRepl <= 1 || s.changed == []
    ensures AllIn(s.rows, p.req, s.rows[i].file, Premigrated) && RowsOf(s.rows, p.req, s.rows[i].file) == RowsPerFile(p)
  {
    RowCounts(s.rows, i);
    forall k | 0 <= k < |s.rows| && s.rows[k].req == p.req && s.rows[k].file == s.rows[i].file
      ensures s.rows[k].state == Premigrated
    {
      if p.numRepl <= 1 && k != i { TwoRows(s.rows, if i < k then i else k, if i < k then k else i); }
    }
  }

  lemma NoTapeTake(p: Plan, s: Sys, i: nat, tape: string, c0: Counters)
    requires Sound(p) && !p.needsTape && NoTapeInv(p, s, c0) && Enabled(p, s, Take(i, false, tape))
    ensures NoTapeInv(p, Next(p, s, Take(i, false, tape)), c0)
  {
  }

  lemma EndsBounds(p: Plan, s: Sys, i: nat, c0: Counters)
    requires Sound(p) && !p.needsTape && Bounds(p, s, c0) && Enabled(p, s, Work(i, Ends)) && !s.taken[i]
    requires s.rows[i].req == p.req
    ensures Bounds(p, Next(p, s, Work(i, Ends)), c0)
  {
    var n := Next(p, s, Work(i, Ends));
    SucceededTimesMoves(s.counters, Premigrated, Migrated, RowsPerFile(p));
    assert n.counters.migrated == Get(n.counters, CMigrated) && n.counters.failed == Get(n.counters, CFailed);
    MovedRows(p, s.rows, i, Premigrated, Migrated, CMigrated);
    MovedRows(p, s.rows, i, Premigrated, Migrated, CFailed);
    assert RowsPerFile(p) * (|s.changed| + 1) == RowsPerFile(p) * |s.changed| + RowsPerFile(p);
  }

  lemma EndsExact(p: Plan, s: Sys, i: nat)
    requires Sound(p) && !p.needsTape && Enabled(p, s, Work(i, Ends)) && !s.taken[i] && s.rows[i].req == p.req
    requires s.rows[i].state == Premigrated && p.numRepl <= 1 && Recounted(s.counters, s.rows, p.req)
    ensures var n := Next(p, s, Work(i, Ends)); Recounted(n.counters, n.rows, p.req)
  {
    var n := Next(p, s, Work(i, Ends));
    SucceededTimesMoves(s.counters, Premigrated, Migrated, RowsPerFile(p));
    forall k: Class ensures Get(n.counters, k) == CountClass(n.rows, p.req, k) {
      MovedRows(p, s.rows, i, Premigrated, Migrated, k);
    }
  }

  lemma NoTapeEnds(p: Plan, s: Sys, i: nat, c0: Counters)
    requires Sound(p) && !p.needsTape && NoTapeInv(p, s, c0) && Enabled(p, s, Work(i, Ends)) && !s.taken[i]
    ensures NoTapeInv(p, Next(p, s, Work(i, Ends)), c0)
  {
    var n := Next(p, s, Work(i, Ends));
    EndsBounds(p, s, i, c0);
    MovedRows(p, s.rows, i, Premigrated, Migrated, CMigrated);
    forall f ensures RowsOf(n.rows, p.req, f) == RowsOf(s.rows, p.req, f) {
      if s.rows[i].state == Premigrated { MovedCounts(s.rows, i, p.req, Migrated, f, CMigrated); }
    }
    if Exact(p, n) { EndsExact(p, s, i); }
    forall file | file in n.broken ensures AllIn(n.rows, p.req, file, Failed) {
      assert AllIn(s.rows, p.req, file, Failed);
    }
  }

  lemma FailedAlready(rows: seq<Job>, req: nat, file: string)
    requires AllIn(rows, req, file, Failed)
    ensures Exec(rows, FailStubbing(req, file)) == rows
  {
  }

  /** The counters after a failed change, and the products in the bounds */
  lemma OneMoreBroken(p: Plan, s: Sys, i: nat)
    requires Sound(p) && !p.needsTape && Enabled(p, s, Work(i, Breaks)) && !s.taken[i]
    ensures var n := Next(p, s, Work(i, Breaks));
            && n.counters.migrated == s.counters.migrated && n.counters.failed == s.counters.failed + p.numRepl
            && p.numRepl * |n.broken| == p.numRepl * |s.broken| + p.numRepl
            && RowsPerFile(p) * |n.broken| == RowsPerFile(p) * |s.broken| + RowsPerFile(p)
            && Again(n.broken) == Again(s.broken) + (if s.rows[i].file in s.broken then 1 else 0)
            && n.rows == Exec(s.rows, FailStubbing(p.req, s.rows[i].file)) && n.changed == s.changed && |n.broken| > 0
  {
    var n := Next(p, s, Work(i, Breaks));
    FailTimesMoves(s.counters, Premigrated, p.numRepl);
    assert n.counters.migrated == Get(n.counters, CMigrated) && n.counters.failed == Get(n.counters, CFailed);
    AgainMore(s.broken, s.rows[i].file);
    Times(p.numRepl, |s.broken|);
    Times(RowsPerFile(p), |s.broken|);
  }

  lemma AgainBounds(p: Plan, s: Sys, i: nat, c0: Counters)
    requires Sound(p) && !p.needsTape && Bounds(p, s, c0) && Enabled(p, s, Work(i, Breaks)) && !s.taken[i]
    requires s.rows[i].file in s.broken && AllIn(s.rows, p.req, s.rows[i].file, Failed)
    ensures Bounds(p, Next(p, s, Work(i, Breaks)), c0)
  {
    OneMoreBroken(p, s, i);
    FailedAlready(s.rows, p.req, s.rows[i].file);
    Times(RowsPerFile(p), Again(s.broken));
  }

  lemma Times(n: nat, m: nat)
    ensures n * (m + 1) == n * m + n
  {
  }

  lemma NoTapeBreaksAgain(p: Plan, s: Sys, i: nat, c0: Counters)
    requires Sound(p) && !p.needsTape && NoTapeInv(p, s, c0) && Enabled(p, s, Work(i, Breaks)) && !s.taken[i]
    requires s.rows[i].file in s.broken
    ensures NoTapeInv(p, Next(p, s, Work(i, Breaks)), c0)
  {
    FailedAlready(s.rows, p.req, s.rows[i].file);
    AgainBounds(p, s, i, c0);
    AgainMore(s.broken, s.rows[i].file);
  }

  lemma BreaksBounds(p: Plan, s: Sys, i: nat, c0: Counters)
    requires Sound(p) && !p.needsTape && Bounds(p, s, c0) && Enabled(p, s, Work(i, Breaks)) && !s.taken[i]
    requires s.rows[i].req == p.req && s.rows[i].file !in s.broken && s.rows[i].state == Premigrated
    requires RowsOf(s.rows, p.req, s.rows[i].file) == RowsPerFile(p)
    ensures Bounds(p, Next(p, s, Work(i, Breaks)), c0)
  {
    var file := s.rows[i].file;
    OneMoreBroken(p, s, i);
    BrokenCounts(s.rows, p.req, file, CMigrated);
    BrokenCounts(s.rows, p.req, file, CFailed);
    RowCounts(s.rows, i);
  }

  lemma BreaksExact(p: Plan, s: Sys, i: nat)
    requires Sound(p) && !p.needsTape && Enabled(p, s, Work(i, Breaks)) && !s.taken[i] && s.rows[i].req == p.req
    requires s.rows[i].state == Premigrated && Inserted(p, s.rows) && Recounted(s.counters, s.rows, p.req)
    requires (s.changed == [] ==> SameState(s.rows, p.req)) && Exact(p, Next(p, s, Work(i, Breaks)))
    ensures var n := Next(p, s, Work(i, Breaks)); Recounted(n.counters, n.rows, p.req)
  {
    var n, file := Next(p, s, Work(i, Breaks)), s.rows[i].file;
    FailTimesMoves(s.counters, Premigrated, p.numRepl);
    AllPremigrated(p, s, i);
    forall k: Class ensures Get(n.counters, k) == CountClass(n.rows, p.req, k) {
      BrokenCounts(s.rows, p.req, file, k);
      AllInCounts(s.rows, p.req, file, Premigrated, k);
    }
  }

  /** What a failed change leaves of the rows */
  lemma BreaksRows(rows: seq<Job>, req: nat, file: string)
    ensures var r := Exec(rows, FailStubbing(req, file));
            && (forall f :: RowsOf(r, req, f) == RowsOf(rows, req, f)) && AllIn(r, req, file, Failed)
            && (forall f :: AllIn(rows, req, f, Failed) ==> AllIn(r, req, f, Failed))
            && (SameState(rows, req) ==> SameState(r, req))
  {
    forall f ensures RowsOf(Exec(rows, FailStubbing(req, file)), req, f) == RowsOf(rows, req, f) {
      BrokenRows(rows, req, file, f);
    }
  }

  lemma NoTapeBreaks(p: Plan, s: Sys, i: nat, c0: Counters)
    requires Sound(p) && !p.needsTape && NoTapeInv(p, s, c0) && Enabled(p, s, Work(i, Breaks)) && !s.taken[i]
    requires s.rows[i].file !in s.broken
    ensures NoTapeInv(p, Next(p, s, Work(i, Breaks)), c0)
  {
    var n, file := Next(p, s, Work(i, Breaks)), s.rows[i].file;
    RowCounts(s.rows, i);
    BreaksBounds(p, s, i, c0);
    BreaksRows(s.rows, p.req, file);
    AgainMore(s.broken, file);
    if Exact(p, n) { BreaksExact(p, s, i); }
    BreaksTaken(p, s, i);
  }

  lemma BreaksTaken(p: Plan, s: Sys, i: nat)
    requires TakenOk(p, s) && TakenInPlace(p, s) && Inserted(p, s.rows)
    requires Enabled(p, s, Work(i, Breaks)) && !s.taken[i]
    ensures TakenOk(p, Next(p, s, Work(i, Breaks))) && TakenInPlace(p, Next(p, s, Work(i, Breaks)))
  {
    var n, file := Next(p, s, Work(i, Breaks)), s.rows[i].file;
    forall k | k in n.taken && s.rows[k].file == file ensures p.numRepl > 1 {
      TwoRows(s.rows, if i < k then i else k, if i < k then k else i);
    }
    assert n.rows == Exec(s.rows, FailStubbing(p.req, file)) && n.taken == s.taken - {i};
  }

  lemma NoTapeStepKeeps(p: Plan, s: Sys, step: Step, c0: Counters)
    requires Sound(p) && !p.needsTape && NoTapeInv(p, s, c0) && Enabled(p, s, step)
    ensures NoTapeInv(p, Next(p, s, step), c0)
  {
    match step
    case Take(i, _, tape) => NoTapeTake(p, s, i, tape, c0);
    case Work(i, Ends) => NoTapeEnds(p, s, i, c0);
    case Work(i, Breaks) =>
      if s.rows[i].file in s.broken { NoTapeBreaksAgain(p, s, i, c0); } else { NoTapeBreaks(p, s, i, c0); }
    case Work(_, _) =>
  }

  lemma {:induction false} RunsKeepNoTape(p: Plan, s: Sys, steps: seq<Step>, c0: Counters)
    requires Sound(p) && !p.needsTape && NoTapeInv(p, s, c0) && ValidRun(p, s, steps)
    ensures NoTapeInv(p, After(p, s, steps), c0)
    decreases |steps|
  {
    if steps != [] {
      NoTapeStepKeeps(p, s, steps[0], c0);
      RunsKeepNoTape(p, Next(p, s, steps[0]), steps[1..], c0);
    }
  }

  /** Files that are premigrated already, passed by one replica after the other: after any run the counters equal a recount exactly if there is at most
      one replica or no file was changed, and no state change failed without replicas, or failed again of a file
      of which one had failed before. */
  lemma NoTapeExactIff(p: Plan, s0: Sys, steps: seq<Step>)
    requires Sound(p) && !p.needsTape && Start(p, s0) && ValidRun(p, s0, steps)
    requires Inserted(p, s0.rows) && SameState(s0.rows, p.req)
    ensures var s := After(p, s0, steps);
            Recounted(s.counters, s.rows, p.req) <==> Exact(p, s)
  {
    var s := After(p, s0, steps);
    assert Get(s0.counters, CMigrated) == s0.counters.migrated && Get(s0.counters, CFailed) == s0.counters.failed;
    RunsKeepNoTape(p, s0, steps, s0.counters);
    if Recounted(s.counters, s.rows, p.req) {
      assert Get(s.counters, CMigrated) == s.counters.migrated && Get(s.counters, CFailed) == s.counters.failed;
    }
  }

  // ---------------------------------------------------------------- passes and steps

  function EndOf(outcomes: seq<Outcome>, k: nat): End {
    if k >= |outcomes| then GivesUp
    else match outcomes[k]
         case Done => Ends
         case Fails => Breaks
         case _ => GivesUp
  }

  predicate JobsToldApart(jobs: seq<Job>) {
    forall a, b :: 0 <= a < b < |jobs| ==> jobs[a].file != jobs[b].file && jobs[a].inum != jobs[b].inum
  }

  /** When a pass has settled, each of its jobs is as the step of that job left it. */
  lemma PassIsWork(p: Plan, s: Sys, pass: Pass, free: nat, outcomes: seq<Outcome>, i: nat, k: nat)
    requires Sound(p) && Proper(pass) && pass.req == p.req && i in s.taken && Enabled(p, s, Work(i, EndOf(outcomes, k)))
    requires pass.from == s.rows[i].state == (if s.taken[i] then Resident else From(p))
    requires pass.to == (if s.taken[i] then Transferred else p.target) && pass.tape == s.rows[i].tape
    requires var marked := Exec(s.rows, BeginStmt(pass, free));
             var jobs := Jobs(marked, pass);
             && Mine(marked, pass, i) && marked[i].repl == pass.repl && k < |jobs| && jobs[k] == marked[i]
             && JobsToldApart(jobs)
    ensures AfterPass(s.rows, pass, free, outcomes)[i] == Next(p, s, Work(i, EndOf(outcomes, k))).rows[i]
  {
    var marked := Exec(s.rows, BeginStmt(pass, free));
    var jobs := Jobs(marked, pass);
    PassResult(s.rows, pass, free, outcomes, i);
    ExecRow(s.rows, BeginStmt(pass, free), i);
    OwnOutcome(pass, jobs, outcomes, k);
    if s.taken[i] { TakenState(p, s, i, EndOf(outcomes, k)); } else { ChangedState(p, s, i, EndOf(outcomes, k)); }
  }

  /** Among jobs that are told apart only the job's own outcome decides. */
  lemma OwnOutcome(pass: Pass, jobs: seq<Job>, outcomes: seq<Outcome>, k: nat)
    requires k < |jobs| && JobsToldApart(jobs) && jobs[k].req == pass.req && jobs[k].repl == pass.repl
    ensures (exists m :: FailedAt(pass, jobs, outcomes, jobs[k], m)) <==> k < |outcomes| && outcomes[k].Fails?
    ensures (exists m :: DoneAt(jobs, outcomes, jobs[k].inum, m)) <==> k < |outcomes| && outcomes[k].Done?
  {
    if m: nat :| FailedAt(pass, jobs, outcomes, jobs[k], m) { assert m == k; }
    if m: nat :| DoneAt(jobs, outcomes, jobs[k].inum, m) { assert m == k; }
    if k < |outcomes| {
      assert outcomes[k].Fails? ==> FailedAt(pass, jobs, outcomes, jobs[k], k);
      assert outcomes[k].Done? ==> DoneAt(jobs, outcomes, jobs[k].inum, k);
    }
  }

  lemma TakenState(p: Plan, s: Sys, i: nat, end: End)
    requires Enabled(p, s, Work(i, end)) && s.taken[i] && s.rows[i].state == Resident
    ensures Next(p, s, Work(i, end)).rows[i]
         == s.rows[i].(state := match end case Ends => Transferred case GivesUp => Resident case _ => Failed)
  {
  }

  lemma ChangedState(p: Plan, s: Sys, i: nat, end: End)
    requires Enabled(p, s, Work(i, end)) && !s.taken[i] && s.rows[i].state == From(p) && s.rows[i].req == p.req
    ensures Next(p, s, Work(i, end)).rows[i]
         == s.rows[i].(state := match end case Ends => p.target case GivesUp => From(p) case _ => Failed)
  {
  }
}
