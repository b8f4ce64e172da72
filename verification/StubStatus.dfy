/**
  The progress counters while files that are on tape already are stubbed, by
  passes of all replicas at the same time.

  Such passes have no tape to keep them apart: a pass selects whatever jobs of
  the request are marked, marks or no marks of its own, and the statements that
  settle it change the marked jobs of other passes too.  Each statement is a
  step, and `rows` is the table as it is.
 */
module StubStatus {
  import opened JobTable
  import opened Migration
  import opened MigrationStatus
  import opened Status

  datatype Phase =
    | Marked
    | Working(jobs: seq<Job>, inums: set<nat>)   // what is still to be done, and what was reported done
    | Settling                                   // successes are in the table, the rest is not yet reset

  datatype Sys = Sys(
    rows: seq<Job>,
    counters: Counters,
    passes: map<nat, Phase>,     // by replica
    changed: multiset<string>,   // files whose state was changed
    broken: multiset<string>)    // files whose state could not be changed

  datatype Step =
    | Mark(r: nat)
    | Select(r: nat)
    | DoJob(r: nat, k: nat, outcome: Outcome)
    | Succeed(r: nat)
    | Reset(r: nat)

  function PassOf(p: Plan, r: nat): Pass { Pass(p.req, r, "", Premigrated, Migrated) }

  predicate Enabled(p: Plan, s: Sys, step: Step) {
    match step
    case Mark(r) => r < RowsPerFile(p) && r !in s.passes
    case Select(r) => r in s.passes && s.passes[r].Marked?
    case DoJob(r, k, _) => r in s.passes && s.passes[r].Working? && k < |s.passes[r].jobs|
    case Succeed(r) => r in s.passes && s.passes[r].Working? && s.passes[r].jobs == []
    case Reset(r) => r in s.passes && s.passes[r].Settling?
  }

  function Without(jobs: seq<Job>, k: nat): seq<Job>
    requires k < |jobs|
  {
    jobs[..k] + jobs[k + 1..]
  }

  /** changeFileState and what it leaves */
  function Worked(p: Plan, s: Sys, r: nat, k: nat, outcome: Outcome): Sys
    requires Enabled(p, s, DoJob(r, k, outcome))
  {
    var Working(jobs, inums) := s.passes[r];
    var file, rest := jobs[k].file, Without(jobs, k);
    match outcome
    case Done =>
      s.(passes := s.passes[r := Working(rest, inums + {jobs[k].inum})], changed := s.changed + multiset{file},
         counters := SucceededTimes(s.counters, Premigrated, Migrated, RowsPerFile(p)))
    case Fails =>
      s.(passes := s.passes[r := Working(rest, inums)], broken := s.broken + multiset{file},
         rows := Exec(s.rows, FailStmt(PassOf(p, r), file)), counters := FailTimes(s.counters, Premigrated, p.numRepl))
    case _ => s.(passes := s.passes[r := Working(rest, inums)])
  }

  function Next(p: Plan, s: Sys, step: Step): Sys
    requires Enabled(p, s, step)
  {
    match step
    case Mark(r) => s.(passes := s.passes[r := Marked], rows := Exec(s.rows, BeginStmt(PassOf(p, r), 0)))
    case Select(r) => s.(passes := s.passes[r := Working(Jobs(s.rows, PassOf(p, r)), {})])
    case DoJob(r, k, outcome) => Worked(p, s, r, k, outcome)
    case Succeed(r) =>
      s.(passes := s.passes[r := Settling], rows := Exec(s.rows, SuccessStmt(PassOf(p, r), s.passes[r].inums)))
    case Reset(r) => s.(passes := s.passes - {r}, rows := Exec(s.rows, ResetStmt(PassOf(p, r))))
  }

  predicate ValidRun(p: Plan, s: Sys, steps: seq<Step>)
    decreases |steps|
  {
    steps == [] || (Enabled(p, s, steps[0]) && ValidRun(p, Next(p, s, steps[0]), steps[1..]))
  }

  function After(p: Plan, s: Sys, steps: seq<Step>): Sys
    requires ValidRun(p, s, steps)
    decreases |steps|
  {
    if steps == [] then s else After(p, Next(p, s, steps[0]), steps[1..])
  }

  /** No file of the request is resident, each has a job for each replica, and inode numbers tell files apart. */
  ghost predicate Start(p: Plan, s: Sys) {
    && Recounted(s.counters, s.rows, p.req) && s.passes == map[] && s.changed == multiset{} && s.broken == multiset{}
    && Inserted(p, s.rows)
    && (forall i :: 0 <= i < |s.rows| && s.rows[i].req == p.req ==>
          s.rows[i].state == Premigrated || s.rows[i].state == Migrated || s.rows[i].state == Failed)
    && (forall i, k :: 0 <= i < |s.rows| && 0 <= k < |s.rows| && SameInode(p, s.rows[i], s.rows[k]) ==>
          s.rows[i].file == s.rows[k].file)
  }

  predicate SameInode(p: Plan, a: Job, b: Job) { MayMove(p, a) && MayMove(p, b) && a.inum == b.inum }

  predicate MayMove(p: Plan, j: Job) { j.req == p.req && j.state == Premigrated }

  // ---------------------------------------------------------------- what holds in every state

  /** How a row comes from what it was at the start */
  predicate RowOk(p: Plan, a: Job, b: Job, s: Sys) {
    && b == a.(state := b.state)
    && (b.state != a.state ==>
          && a.req == p.req
          && (match b.state
              case ChangingFState => a.state == Premigrated
              case Migrated => a.state == Premigrated && s.changed[a.file] > 0
              case Failed => s.broken[a.file] > 0
              case _ => false))
  }

  /** A job that a pass works on was a premigrated row at the start. */
  predicate JobOk(p: Plan, rows0: seq<Job>, j: Job) {
    exists i :: 0 <= i < |rows0| && MayMove(p, rows0[i]) && rows0[i].file == j.file && rows0[i].inum == j.inum
  }

  predicate PassOk(p: Plan, rows0: seq<Job>, s: Sys, phase: Phase) {
    phase.Working? ==>
      && (forall j :: j in phase.jobs ==> JobOk(p, rows0, j))
      && (forall i :: 0 <= i < |rows0| && MayMove(p, rows0[i]) && rows0[i].inum in phase.inums ==> s.changed[rows0[i].file] > 0)
  }

  /** The sum of `m` over the files of all rows */
  function Weight(rows: seq<Job>, req: nat, m: multiset<string>): nat {
    if rows == [] then 0 else (if rows[0].req == req then m[rows[0].file] else 0) + Weight(rows[1..], req, m)
  }

  /** Changes and failures as the counters have them: once for each row of the file */
  predicate Counted(p: Plan, s0: Sys, s: Sys) {
    && s.counters.resident == s0.counters.resident && s.counters.transferred == s0.counters.transferred
    && s.counters.migrated == s0.counters.migrated + Weight(s0.rows, p.req, s.changed)
    && s.counters.failed == s0.counters.failed + (if p.numRepl == 0 then 0 else Weight(s0.rows, p.req, s.broken))
    && Total(s.counters) == Total(s0.counters)
  }

  predicate RowsOk(p: Plan, s0: Sys, s: Sys) {
    |s.rows| == |s0.rows| && forall i :: 0 <= i < |s.rows| ==> RowOk(p, s0.rows[i], s.rows[i], s)
  }

  ghost predicate Inv(p: Plan, s0: Sys, s: Sys) {
    RowsOk(p, s0, s) && Counted(p, s0, s) && forall r :: r in s.passes ==> PassOk(p, s0.rows, s, s.passes[r])
  }

  lemma {:induction false} WeightAdds(rows: seq<Job>, req: nat, m: multiset<string>, file: string)
    ensures Weight(rows, req, m + multiset{file}) == Weight(rows, req, m) + RowsOf(rows, req, file)
  {
    if rows != [] { WeightAdds(rows[1..], req, m, file); }
  }

  lemma {:induction false} NoWeight(rows: seq<Job>, req: nat)
    ensures Weight(rows, req, multiset{}) == 0
  {
    if rows != [] { NoWeight(rows[1..], req); }
  }

  lemma MarkKeeps(p: Plan, s0: Sys, s: Sys, r: nat)
    requires Inv(p, s0, s) && Enabled(p, s, Mark(r))
    ensures Inv(p, s0, Next(p, s, Mark(r)))
  {
    var n := Next(p, s, Mark(r));
    forall i | 0 <= i < |n.rows| ensures RowOk(p, s0.rows[i], n.rows[i], n) {
      assert RowOk(p, s0.rows[i], s.rows[i], s);
    }
  }

  lemma SelectKeeps(p: Plan, s0: Sys, s: Sys, r: nat)
    requires Start(p, s0) && Inv(p, s0, s) && Enabled(p, s, Select(r))
    ensures Inv(p, s0, Next(p, s, Select(r)))
  {
    var jobs := Jobs(s.rows, PassOf(p, r));
    forall j | j in jobs ensures JobOk(p, s0.rows, j) {
      var i :| 0 <= i < |s.rows| && s.rows[i] == j;
      assert RowOk(p, s0.rows[i], s.rows[i], s);
      assert MayMove(p, s0.rows[i]);
    }
  }

  lemma SucceedKeeps(p: Plan, s0: Sys, s: Sys, r: nat)
    requires Start(p, s0) && Inv(p, s0, s) && Enabled(p, s, Succeed(r))
    ensures Inv(p, s0, Next(p, s, Succeed(r)))
  {
    var n := Next(p, s, Succeed(r));
    assert PassOk(p, s0.rows, s, s.passes[r]);
    forall i | 0 <= i < |n.rows| ensures RowOk(p, s0.rows[i], n.rows[i], n) {
      assert RowOk(p, s0.rows[i], s.rows[i], s);
    }
  }

  lemma ResetKeeps(p: Plan, s0: Sys, s: Sys, r: nat)
    requires Start(p, s0) && Inv(p, s0, s) && Enabled(p, s, Reset(r))
    ensures Inv(p, s0, Next(p, s, Reset(r)))
  {
    var n := Next(p, s, Reset(r));
    forall i | 0 <= i < |n.rows| ensures RowOk(p, s0.rows[i], n.rows[i], n) {
      assert RowOk(p, s0.rows[i], s.rows[i], s);
    }
  }

  /** The job's file has as many rows as the counters move. */
  lemma JobHasRows(p: Plan, rows0: seq<Job>, j: Job)
    requires Inserted(p, rows0) && JobOk(p, rows0, j)
    ensures RowsOf(rows0, p.req, j.file) == RowsPerFile(p)
  {
    var i :| 0 <= i < |rows0| && MayMove(p, rows0[i]) && rows0[i].file == j.file && rows0[i].inum == j.inum;
    RowCounts(rows0, i);
  }

  lemma CountersMove(c: Counters, n: nat, m: nat)
    ensures var d := SucceededTimes(c, Premigrated, Migrated, n);
            && d.resident == c.resident && d.transferred == c.transferred && d.failed == c.failed
            && d.migrated == c.migrated + n && Total(d) == Total(c)
    ensures var d := FailTimes(c, Premigrated, m);
            && d.resident == c.resident && d.transferred == c.transferred && d.migrated == c.migrated
            && d.failed == c.failed + m && Total(d) == Total(c)
  {
    SucceededTimesMoves(c, Premigrated, Migrated, n);
    FailTimesMoves(c, Premigrated, m);
    SumKept(c, SucceededTimes(c, Premigrated, Migrated, n), CPremigrated, CMigrated, n);
    SumKept(c, FailTimes(c, Premigrated, m), CPremigrated, CFailed, m);
    var d, e := SucceededTimes(c, Premigrated, Migrated, n), FailTimes(c, Premigrated, m);
    assert Get(d, CResident) == d.resident && Get(d, CTransferred) == d.transferred && Get(d, CFailed) == d.failed;
    assert Get(e, CResident) == e.resident && Get(e, CTransferred) == e.transferred && Get(e, CMigrated) == e.migrated;
    assert Get(d, CMigrated) == d.migrated && Get(e, CFailed) == e.failed;
  }

  lemma WorkCounted(p: Plan, s0: Sys, s: Sys, r: nat, k: nat, outcome: Outcome)
    requires Start(p, s0) && Inv(p, s0, s) && Enabled(p, s, DoJob(r, k, outcome))
    ensures Counted(p, s0, Next(p, s, DoJob(r, k, outcome)))
  {
    var j := s.passes[r].jobs[k];
    assert PassOk(p, s0.rows, s, s.passes[r]) && j in s.passes[r].jobs;
    JobHasRows(p, s0.rows, j);
    CountersMove(s.counters, RowsPerFile(p), p.numRepl);
    WeightAdds(s0.rows, p.req, s.changed, j.file);
    WeightAdds(s0.rows, p.req, s.broken, j.file);
  }

  lemma WorkRows(p: Plan, s0: Sys, s: Sys, r: nat, k: nat, outcome: Outcome)
    requires RowsOk(p, s0, s) && Enabled(p, s, DoJob(r, k, outcome))
    ensures RowsOk(p, s0, Next(p, s, DoJob(r, k, outcome)))
  {
    var n := Next(p, s, DoJob(r, k, outcome));
    forall i | 0 <= i < |n.rows| ensures RowOk(p, s0.rows[i], n.rows[i], n) {
      assert RowOk(p, s0.rows[i], s.rows[i], s);
    }
  }

  lemma WorkPasses(p: Plan, s0: Sys, s: Sys, r: nat, k: nat, outcome: Outcome, q: nat)
    requires Start(p, s0) && Inv(p, s0, s) && Enabled(p, s, DoJob(r, k, outcome)) && q in s.passes
    ensures var n := Next(p, s, DoJob(r, k, outcome)); q in n.passes && PassOk(p, s0.rows, n, n.passes[q])
  {
    var n, j := Next(p, s, DoJob(r, k, outcome)), s.passes[r].jobs[k];
    assert PassOk(p, s0.rows, s, s.passes[q]) && PassOk(p, s0.rows, s, s.passes[r]);
    assert JobOk(p, s0.rows, j);
    if q == r {
      forall j' | j' in n.passes[r].jobs ensures j' in s.passes[r].jobs {
      }
      var m :| 0 <= m < |s0.rows| && MayMove(p, s0.rows[m]) && s0.rows[m].file == j.file && s0.rows[m].inum == j.inum;
      forall i | 0 <= i < |s0.rows| && MayMove(p, s0.rows[i]) && s0.rows[i].inum in n.passes[r].inums
        ensures n.changed[s0.rows[i].file] > 0
      {
        if s0.rows[i].inum == j.inum { assert s0.rows[i].file == s0.rows[m].file; }
      }
    }
  }

  lemma WorkKeeps(p: Plan, s0: Sys, s: Sys, r: nat, k: nat, outcome: Outcome)
    requires Start(p, s0) && Inv(p, s0, s) && Enabled(p, s, DoJob(r, k, outcome))
    ensures Inv(p, s0, Next(p, s, DoJob(r, k, outcome)))
  {
    var n := Next(p, s, DoJob(r, k, outcome));
    WorkCounted(p, s0, s, r, k, outcome);
    WorkRows(p, s0, s, r, k, outcome);
    forall q | q in n.passes ensures PassOk(p, s0.rows, n, n.passes[q]) {
      WorkPasses(p, s0, s, r, k, outcome, q);
    }
  }

  lemma StepKeeps(p: Plan, s0: Sys, s: Sys, step: Step)
    requires Start(p, s0) && Inv(p, s0, s) && Enabled(p, s, step)
    ensures Inv(p, s0, Next(p, s, step))
  {
    match step
    case Mark(r) => MarkKeeps(p, s0, s, r);
    case Select(r) => SelectKeeps(p, s0, s, r);
    case DoJob(r, k, outcome) => WorkKeeps(p, s0, s, r, k, outcome);
    case Succeed(r) => SucceedKeeps(p, s0, s, r);
    case Reset(r) => ResetKeeps(p, s0, s, r);
  }

  lemma {:induction false} RunsKeep(p: Plan, s0: Sys, s: Sys, steps: seq<Step>)
    requires Start(p, s0) && Inv(p, s0, s) && ValidRun(p, s, steps)
    ensures Inv(p, s0, After(p, s, steps))
    decreases |steps|
  {
    if steps != [] {
      StepKeeps(p, s0, s, steps[0]);
      RunsKeep(p, s0, Next(p, s, steps[0]), steps[1..]);
    }
  }

  // ---------------------------------------------------------------- the counters

  /** The row came into the class as often as `n` says: once, or never. */
  predicate Came(a: Job, b: Job, k: Class, n: nat) { In(b.state, k) == In(a.state, k) + n }

  /** The table has of the row what was counted for it. */
  predicate RowCounted(p: Plan, a: Job, b: Job, s: Sys) {
    Came(a, b, CMigrated, s.changed[b.file]) && Came(a, b, CFailed, if p.numRepl == 0 then 0 else s.broken[b.file])
  }

  /** If no row exceeds its share, the sums agree exactly if every row has its share. */
  lemma {:induction false} Shares(before: seq<Job>, after: seq<Job>, req: nat, k: Class, m: multiset<string>)
    requires |after| == |before|
    requires forall i :: 0 <= i < |after| ==> after[i].req == before[i].req && after[i].file == before[i].file
    requires forall i :: 0 <= i < |after| && before[i].req == req ==>
               In(after[i].state, k) <= In(before[i].state, k) + m[before[i].file]
    ensures CountClass(after, req, k) <= CountClass(before, req, k) + Weight(before, req, m)
    ensures CountClass(after, req, k) == CountClass(before, req, k) + Weight(before, req, m)
            <==> forall i :: 0 <= i < |after| && before[i].req == req ==> Came(before[i], after[i], k, m[before[i].file])
  {
    if before != [] {
      var b, a := before[1..], after[1..];
      assert forall i :: 0 <= i < |a| ==> a[i] == after[i + 1] && b[i] == before[i + 1];
      Shares(b, a, req, k, m);
      if forall i :: 0 <= i < |a| && b[i].req == req ==> Came(b[i], a[i], k, m[b[i].file]) {
        forall i | 0 < i < |after| && before[i].req == req ensures Came(before[i], after[i], k, m[before[i].file]) {
          assert a[i - 1] == after[i] && b[i - 1] == before[i];
        }
      } else {
        var i :| 0 <= i < |a| && b[i].req == req && !Came(b[i], a[i], k, m[b[i].file]);
        assert before[i + 1].req == req && !Came(before[i + 1], after[i + 1], k, m[before[i + 1].file]);
      }
    }
  }

  lemma {:induction false} SameJobsOf(before: seq<Job>, after: seq<Job>, req: nat)
    requires |after| == |before| && forall i :: 0 <= i < |after| ==> after[i].req == before[i].req
    ensures JobsOf(after, req) == JobsOf(before, req)
  {
    if before != [] { SameJobsOf(before[1..], after[1..], req); }
  }

  predicate AllCounted(p: Plan, s0: Sys, s: Sys)
    requires |s.rows| == |s0.rows|
  {
    forall i :: 0 <= i < |s.rows| && s0.rows[i].req == p.req ==> RowCounted(p, s0.rows[i], s.rows[i], s)
  }

  lemma MigratedShares(p: Plan, s0: Sys, s: Sys)
    requires Start(p, s0) && RowsOk(p, s0, s)
    ensures CountClass(s.rows, p.req, CMigrated) == CountClass(s0.rows, p.req, CMigrated) + Weight(s0.rows, p.req, s.changed)
            <==> forall i :: 0 <= i < |s.rows| && s0.rows[i].req == p.req ==>
                   Came(s0.rows[i], s.rows[i], CMigrated, s.changed[s0.rows[i].file])
  {
    forall i | 0 <= i < |s.rows|
      ensures s.rows[i].req == s0.rows[i].req && s.rows[i].file == s0.rows[i].file
      ensures s0.rows[i].req == p.req ==> In(s.rows[i].state, CMigrated) <= In(s0.rows[i].state, CMigrated) + s.changed[s0.rows[i].file]
    {
      assert RowOk(p, s0.rows[i], s.rows[i], s);
    }
    Shares(s0.rows, s.rows, p.req, CMigrated, s.changed);
  }

  lemma FailedShares(p: Plan, s0: Sys, s: Sys)
    requires Start(p, s0) && RowsOk(p, s0, s)
    ensures var broken := if p.numRepl == 0 then multiset{} else s.broken;
            CountClass(s.rows, p.req, CFailed) == CountClass(s0.rows, p.req, CFailed) + Weight(s0.rows, p.req, broken)
            <==> forall i :: 0 <= i < |s.rows| && s0.rows[i].req == p.req ==>
                   Came(s0.rows[i], s.rows[i], CFailed, broken[s0.rows[i].file])
  {
    forall i | 0 <= i < |s.rows|
      ensures s.rows[i].req == s0.rows[i].req && s.rows[i].file == s0.rows[i].file
      ensures s0.rows[i].req == p.req ==> In(s.rows[i].state, CFailed) <= In(s0.rows[i].state, CFailed) + s.broken[s0.rows[i].file]
      ensures s0.rows[i].req == p.req ==> In(s0.rows[i].state, CFailed) <= In(s.rows[i].state, CFailed)
    {
      assert RowOk(p, s0.rows[i], s.rows[i], s);
    }
    if p.numRepl == 0 {
      Shares(s.rows, s0.rows, p.req, CFailed, multiset{});
      NoWeight(s.rows, p.req);
      NoWeight(s0.rows, p.req);
      assert (forall i :: 0 <= i < |s.rows| && s.rows[i].req == p.req ==> Came(s.rows[i], s0.rows[i], CFailed, multiset{}[s.rows[i].file]))
        <==> (forall i :: 0 <= i < |s.rows| && s0.rows[i].req == p.req ==> Came(s0.rows[i], s.rows[i], CFailed, 0));
    } else {
      Shares(s0.rows, s.rows, p.req, CFailed, s.broken);
    }
  }

  /** Nothing of this touches jobs that are resident or transferred. */
  lemma OthersStay(p: Plan, s0: Sys, s: Sys, k: Class)
    requires Start(p, s0) && RowsOk(p, s0, s) && (k == CResident || k == CTransferred)
    ensures CountClass(s.rows, p.req, k) == CountClass(s0.rows, p.req, k)
  {
    forall i | 0 <= i < |s.rows|
      ensures s.rows[i].req == s0.rows[i].req && s.rows[i].file == s0.rows[i].file
      ensures s0.rows[i].req == p.req ==> Came(s0.rows[i], s.rows[i], k, 0)
    {
      assert RowOk(p, s0.rows[i], s.rows[i], s);
    }
    Shares(s0.rows, s.rows, p.req, k, multiset{});
    NoWeight(s0.rows, p.req);
  }

  lemma StartIsInv(p: Plan, s0: Sys)
    requires Start(p, s0)
    ensures Inv(p, s0, s0)
  {
    NoWeight(s0.rows, p.req);
  }

  /** In every state of every run, however the passes of the replicas overlap, the counters equal a recount
      exactly if every job came into the target state as often as the state of its file was changed, and failed
      as often as a change of its file failed: never, or once.  Without replicas failures are not counted. */
  lemma CountersExactIff(p: Plan, s0: Sys, steps: seq<Step>)
    requires Sound(p) && !p.needsTape && Start(p, s0) && ValidRun(p, s0, steps)
    ensures var s := After(p, s0, steps);
            |s.rows| == |s0.rows| && (Recounted(s.counters, s.rows, p.req) <==> AllCounted(p, s0, s))
  {
    var s := After(p, s0, steps);
    StartIsInv(p, s0);
    RunsKeep(p, s0, s0, steps);
    MigratedShares(p, s0, s);
    FailedShares(p, s0, s);
    OthersStay(p, s0, s, CResident);
    OthersStay(p, s0, s, CTransferred);
    TwoClassesDecide(p, s0, s);
    NoWeight(s0.rows, p.req);
    forall i | 0 <= i < |s.rows| ensures s.rows[i].file == s0.rows[i].file { assert RowOk(p, s0.rows[i], s.rows[i], s); }
  }

  /** The sums agree, so migrated and failed jobs decide. */
  lemma TwoClassesDecide(p: Plan, s0: Sys, s: Sys)
    requires Start(p, s0) && RowsOk(p, s0, s) && Counted(p, s0, s)
    requires CountClass(s.rows, p.req, CResident) == CountClass(s0.rows, p.req, CResident)
    requires CountClass(s.rows, p.req, CTransferred) == CountClass(s0.rows, p.req, CTransferred)
    ensures Recounted(s.counters, s.rows, p.req)
            <==> s.counters.migrated == CountClass(s.rows, p.req, CMigrated)
                 && s.counters.failed == CountClass(s.rows, p.req, CFailed)
    ensures s0.counters.migrated == CountClass(s0.rows, p.req, CMigrated)
    ensures s0.counters.failed == CountClass(s0.rows, p.req, CFailed)
  {
    forall i | 0 <= i < |s.rows| ensures s.rows[i].req == s0.rows[i].req { assert RowOk(p, s0.rows[i], s.rows[i], s); }
    SameJobsOf(s0.rows, s.rows, p.req);
    ClassesSum(s.rows, p.req);
    RecountedTotal(s0.counters, s0.rows, p.req);
    FiveClasses(s.counters, s.rows, p.req);
    FiveClasses(s0.counters, s0.rows, p.req);
  }

  lemma FiveClasses(c: Counters, rows: seq<Job>, req: nat)
    ensures Recounted(c, rows, req)
            <==> c.resident == CountClass(rows, req, CResident) && c.transferred == CountClass(rows, req, CTransferred)
                 && c.premigrated == CountClass(rows, req, CPremigrated) && c.migrated == CountClass(rows, req, CMigrated)
                 && c.failed == CountClass(rows, req, CFailed)
  {
    assert Get(c, CResident) == c.resident && Get(c, CTransferred) == c.transferred && Get(c, CPremigrated) == c.premigrated
        && Get(c, CMigrated) == c.migrated && Get(c, CFailed) == c.failed;
  }

  // ---------------------------------------------------------------- two replicas of one file

  predicate Leads(p: Plan, s: Sys, steps: seq<Step>, e: Sys) { ValidRun(p, s, steps) && After(p, s, steps) == e }

  lemma {:induction false} ThenOne(p: Plan, s: Sys, steps: seq<Step>, m: Sys, step: Step)
    requires Leads(p, s, steps, m) && Enabled(p, m, step)
    ensures Leads(p, s, steps + [step], Next(p, m, step))
    decreases |steps|
  {
    if steps == [] {
      assert [] + [step] == [step] && [step][1..] == [];
    } else {
      assert (steps + [step])[0] == steps[0] && (steps + [step])[1..] == steps[1..] + [step];
      ThenOne(p, Next(p, s, steps[0]), steps[1..], m, step);
    }
  }

  /** The rows of one file and two replicas */
  function Two(a: Job, x: JobState, y: JobState): seq<Job> { [a.(repl := 0, state := x), a.(repl := 1, state := y)] }

  predicate TwoReplicas(p: Plan, s: Sys, a: Job) {
    && p.numRepl == 2 && a.req == p.req && a.tape == "" && s.rows == Two(a, Premigrated, Premigrated)
    && s.passes == map[] && s.changed == multiset{} && s.broken == multiset{}
  }

  lemma TwoRowsExec(a: Job, x: JobState, y: JobState, st: Stmt)
    requires !st.SetTransferring?
    ensures Exec(Two(a, x, y), st) == [Touch(Two(a, x, y)[0], st), Touch(Two(a, x, y)[1], st)]
  {
    assert Two(a, x, y)[1..] == [Two(a, x, y)[1]];
  }

  function OnlyIf(mark: bool, x: JobState, from: JobState, to: JobState): JobState { if mark && x == from then to else x }

  lemma MarkTwo(p: Plan, a: Job, r: nat, x: JobState, y: JobState)
    requires a.req == p.req && a.tape == ""
    ensures Exec(Two(a, x, y), BeginStmt(PassOf(p, r), 0))
         == Two(a, OnlyIf(r == 0, x, Premigrated, ChangingFState), OnlyIf(r == 1, y, Premigrated, ChangingFState))
  {
    TwoRowsExec(a, x, y, BeginStmt(PassOf(p, r), 0));
  }

  lemma SucceedTwo(p: Plan, a: Job, r: nat, x: JobState, y: JobState, inums: set<nat>)
    requires a.req == p.req && a.tape == ""
    ensures var done := a.inum in inums;
            Exec(Two(a, x, y), SuccessStmt(PassOf(p, r), inums))
            == Two(a, OnlyIf(done, x, ChangingFState, Migrated), OnlyIf(done, y, ChangingFState, Migrated))
  {
    TwoRowsExec(a, x, y, SuccessStmt(PassOf(p, r), inums));
  }

  lemma ResetTwo(p: Plan, a: Job, r: nat, x: JobState, y: JobState)
    requires a.req == p.req && a.tape == ""
    ensures Exec(Two(a, x, y), ResetStmt(PassOf(p, r)))
         == Two(a, OnlyIf(true, x, ChangingFState, Premigrated), OnlyIf(true, y, ChangingFState, Premigrated))
  {
    TwoRowsExec(a, x, y, ResetStmt(PassOf(p, r)));
  }

  lemma SelectTwo(p: Plan, a: Job, r: nat, x: JobState, y: JobState)
    requires a.req == p.req && a.tape == ""
    ensures Jobs(Two(a, x, y), PassOf(p, r))
         == (if x == ChangingFState then [Two(a, x, y)[0]] else []) + (if y == ChangingFState then [Two(a, x, y)[1]] else [])
  {
    var rows := Two(a, x, y);
    assert rows[1..] == [rows[1]] && rows[1..][1..] == [];
    assert Selected(rows[1..], p.req, ChangingFState, "") == if y == ChangingFState then [rows[1]] else [];
  }

  /** The end of a pass with nothing left to do, as one group of steps */
  lemma SettleTwo(p: Plan, s0: Sys, before: seq<Step>, s: Sys, r: nat, a: Job, x: JobState, y: JobState, inums: set<nat>)
    returns (e: Sys)
    requires Leads(p, s0, before, s) && a.req == p.req && a.tape == "" && s.rows == Two(a, x, y)
    requires r in s.passes && s.passes[r] == Working([], inums)
    ensures Leads(p, s0, before + [Succeed(r)] + [Reset(r)], e)
    ensures var to := if a.inum in inums then Migrated else Premigrated;
            e == s.(passes := s.passes - {r}, rows := Two(a, OnlyIf(true, x, ChangingFState, to), OnlyIf(true, y, ChangingFState, to)))
  {
    var m := Next(p, s, Succeed(r));
    SucceedTwo(p, a, r, x, y, inums);
    ThenOne(p, s0, before, s, Succeed(r));
    var done := a.inum in inums;
    var x', y' := OnlyIf(done, x, ChangingFState, Migrated), OnlyIf(done, y, ChangingFState, Migrated);
    ResetTwo(p, a, r, x', y');
    ThenOne(p, s0, before + [Succeed(r)], m, Reset(r));
    e := Next(p, m, Reset(r));
    assert s.passes[r := Settling] - {r} == s.passes - {r};
  }

  lemma MarkRun(p: Plan, s0: Sys, before: seq<Step>, s: Sys, r: nat, a: Job, x: JobState, y: JobState) returns (e: Sys)
    requires Leads(p, s0, before, s) && a.req == p.req && a.tape == "" && s.rows == Two(a, x, y)
    requires r < RowsPerFile(p) && r !in s.passes
    ensures Leads(p, s0, before + [Mark(r)], e)
    ensures e == s.(passes := s.passes[r := Marked],
                    rows := Two(a, OnlyIf(r == 0, x, Premigrated, ChangingFState), OnlyIf(r == 1, y, Premigrated, ChangingFState)))
  {
    MarkTwo(p, a, r, x, y);
    ThenOne(p, s0, before, s, Mark(r));
    e := Next(p, s, Mark(r));
  }

  lemma SelectRun(p: Plan, s0: Sys, before: seq<Step>, s: Sys, r: nat, a: Job, x: JobState, y: JobState) returns (e: Sys)
    requires Leads(p, s0, before, s) && a.req == p.req && a.tape == "" && s.rows == Two(a, x, y)
    requires r in s.passes && s.passes[r] == Marked
    ensures Leads(p, s0, before + [Select(r)], e)
    ensures var jobs := (if x == ChangingFState then [Two(a, x, y)[0]] else []) + (if y == ChangingFState then [Two(a, x, y)[1]] else []);
            e == s.(passes := s.passes[r := Working(jobs, {})])
  {
    SelectTwo(p, a, r, x, y);
    ThenOne(p, s0, before, s, Select(r));
    e := Next(p, s, Select(r));
  }

  lemma JobRun(p: Plan, s0: Sys, before: seq<Step>, s: Sys, r: nat, j: Job, rest: seq<Job>, inums: set<nat>, done: bool)
    returns (e: Sys)
    requires Leads(p, s0, before, s) && r in s.passes && s.passes[r] == Working([j] + rest, inums)
    ensures Leads(p, s0, before + [DoJob(r, 0, if done then Done else Skips)], e)
    ensures e.rows == s.rows && e.broken == s.broken
    ensures e.passes == s.passes[r := Working(rest, if done then inums + {j.inum} else inums)]
    ensures e.changed == if done then s.changed + multiset{j.file} else s.changed
  {
    var step := DoJob(r, 0, if done then Done else Skips);
    assert Without([j] + rest, 0) == rest;
    ThenOne(p, s0, before, s, step);
    e := Next(p, s, step);
  }

  function ApartSteps(): seq<Step> {
    [] + [Mark(0)] + [Select(0)] + [DoJob(0, 0, Done)] + [Succeed(0)] + [Reset(0)]
    + [Mark(1)] + [Select(1)] + [DoJob(1, 0, Skips)] + [Succeed(1)] + [Reset(1)]
  }

  function OverlapSteps(): seq<Step> {
    [] + [Mark(0)] + [Mark(1)] + [Select(0)] + [DoJob(0, 0, Done)] + [DoJob(0, 0, Skips)] + [Succeed(0)] + [Reset(0)]
    + [Select(1)] + [Succeed(1)] + [Reset(1)]
  }

  /** One pass after the other: the second one finds nothing to do, and its job stays premigrated. */
  lemma ApartRun(p: Plan, s0: Sys, a: Job) returns (e: Sys)
    requires TwoReplicas(p, s0, a)
    ensures Leads(p, s0, ApartSteps(), e) && e.passes == map[] && e.rows == Two(a, Migrated, Premigrated)
    ensures e.changed == multiset{a.file} && e.broken == multiset{}
  {
    var s1 := MarkRun(p, s0, [], s0, 0, a, Premigrated, Premigrated);
    var s2 := SelectRun(p, s0, [] + [Mark(0)], s1, 0, a, ChangingFState, Premigrated);
    var j := a.(repl := 0, state := ChangingFState);
    assert s2.passes[0] == Working([j] + [], {});
    var first := [] + [Mark(0)] + [Select(0)];
    var s3 := JobRun(p, s0, first, s2, 0, j, [], {}, true);
    var s4 := SettleTwo(p, s0, first + [DoJob(0, 0, Done)], s3, 0, a, ChangingFState, Premigrated, {} + {j.inum});
    var half := first + [DoJob(0, 0, Done)] + [Succeed(0)] + [Reset(0)];
    assert s4.passes == map[];
    var s5 := MarkRun(p, s0, half, s4, 1, a, Migrated, Premigrated);
    var s6 := SelectRun(p, s0, half + [Mark(1)], s5, 1, a, Migrated, ChangingFState);
    var k := a.(repl := 1, state := ChangingFState);
    assert s6.passes[1] == Working([k] + [], {});
    var s7 := JobRun(p, s0, half + [Mark(1)] + [Select(1)], s6, 1, k, [], {}, false);
    e := SettleTwo(p, s0, half + [Mark(1)] + [Select(1)] + [DoJob(1, 0, Skips)], s7, 1, a, Migrated, ChangingFState, {});
    assert e.passes == map[];
  }

  /** Both jobs are marked when the first pass settles: it takes both of them to the target state. */
  lemma OverlapRun(p: Plan, s0: Sys, a: Job) returns (e: Sys)
    requires TwoReplicas(p, s0, a)
    ensures Leads(p, s0, OverlapSteps(), e) && e.passes == map[] && e.rows == Two(a, Migrated, Migrated)
    ensures e.changed == multiset{a.file} && e.broken == multiset{}
  {
    var s1 := MarkRun(p, s0, [], s0, 0, a, Premigrated, Premigrated);
    var s2 := MarkRun(p, s0, [] + [Mark(0)], s1, 1, a, ChangingFState, Premigrated);
    var first := [] + [Mark(0)] + [Mark(1)];
    var s3 := SelectRun(p, s0, first, s2, 0, a, ChangingFState, ChangingFState);
    var j, k := a.(repl := 0, state := ChangingFState), a.(repl := 1, state := ChangingFState);
    assert s3.passes[0] == Working([j] + [k], {});
    var s4 := JobRun(p, s0, first + [Select(0)], s3, 0, j, [k], {}, true);
    assert s4.passes[0] == Working([k] + [], {} + {j.inum});
    var s5 := JobRun(p, s0, first + [Select(0)] + [DoJob(0, 0, Done)], s4, 0, k, [], {} + {j.inum}, false);
    var worked := first + [Select(0)] + [DoJob(0, 0, Done)] + [DoJob(0, 0, Skips)];
    var s6 := SettleTwo(p, s0, worked, s5, 0, a, ChangingFState, ChangingFState, {} + {j.inum});
    var settled := worked + [Succeed(0)] + [Reset(0)];
    assert s6.passes == map[1 := Marked];
    var s7 := SelectRun(p, s0, settled, s6, 1, a, Migrated, Migrated);
    assert s7.passes[1] == Working([], {});
    e := SettleTwo(p, s0, settled + [Select(1)], s7, 1, a, Migrated, Migrated, {});
    assert e.passes == map[];
  }

  /** The same work on one file and two replicas: whether the counters are right at its end depends on whether
      the passes overlap. */
  lemma OverlapDecides(p: Plan, s0: Sys, a: Job)
    requires Sound(p) && !p.needsTape && Start(p, s0) && TwoReplicas(p, s0, a)
    ensures ValidRun(p, s0, ApartSteps()) && ValidRun(p, s0, OverlapSteps())
    ensures var e := After(p, s0, ApartSteps());
            e.passes == map[] && e.changed == multiset{a.file} && !Recounted(e.counters, e.rows, p.req)
    ensures var e := After(p, s0, OverlapSteps());
            e.passes == map[] && e.changed == multiset{a.file} && Recounted(e.counters, e.rows, p.req)
  {
    ApartIsWrong(p, s0, a);
    OverlapIsRight(p, s0, a);
  }

  lemma ApartIsWrong(p: Plan, s0: Sys, a: Job)
    requires Sound(p) && !p.needsTape && Start(p, s0) && TwoReplicas(p, s0, a)
    ensures ValidRun(p, s0, ApartSteps())
    ensures var e := After(p, s0, ApartSteps());
            e.passes == map[] && e.changed == multiset{a.file} && !Recounted(e.counters, e.rows, p.req)
  {
    var e := ApartRun(p, s0, a);
    ExactAt(p, s0, ApartSteps(), e);
    PremigratedIsNotCounted(p, s0, e, 1);
  }

  lemma OverlapIsRight(p: Plan, s0: Sys, a: Job)
    requires Sound(p) && !p.needsTape && Start(p, s0) && TwoReplicas(p, s0, a)
    ensures ValidRun(p, s0, OverlapSteps())
    ensures var e := After(p, s0, OverlapSteps());
            e.passes == map[] && e.changed == multiset{a.file} && Recounted(e.counters, e.rows, p.req)
  {
    var e := OverlapRun(p, s0, a);
    ExactAt(p, s0, OverlapSteps(), e);
    forall i | 0 <= i < |e.rows| ensures RowCounted(p, s0.rows[i], e.rows[i], e) {
      assert e.rows[i].state == Migrated && s0.rows[i].state == Premigrated;
    }
  }

  lemma ExactAt(p: Plan, s0: Sys, steps: seq<Step>, e: Sys)
    requires Sound(p) && !p.needsTape && Start(p, s0) && Leads(p, s0, steps, e)
    ensures |e.rows| == |s0.rows| && (Recounted(e.counters, e.rows, p.req) <==> AllCounted(p, s0, e))
  {
    CountersExactIff(p, s0, steps);
  }

  lemma PremigratedIsNotCounted(p: Plan, s0: Sys, e: Sys, i: nat)
    requires |e.rows| == |s0.rows| && i < |e.rows| && s0.rows[i].req == p.req
    requires e.rows[i].state == Premigrated && e.changed[e.rows[i].file] > 0
    ensures !AllCounted(p, s0, e)
  {
    assert !RowCounted(p, s0.rows[i], e.rows[i], e);
  }
}
