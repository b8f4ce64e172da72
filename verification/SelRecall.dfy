/**
  Selective recall: the jobs of one request, spread over several tapes, and the
  progress counters that are kept beside the job queue.

  Between the marking of a tape's jobs and the settling of the table a job that
  is done still shows as being recalled, while the counters already count it in
  its target state.  `Effective` is the state the counters believe in.
 */
module SelRecall {
  import opened Wrappers
  import opened JobTable
  import opened Status

  /** The state before the job was marked. */
  function Base(st: JobState): JobState {
    match st
    case RecallingMig => Migrated
    case RecallingPremig => Premigrated
    case _ => st
  }

  /** `done` has, for each tape that is being worked on, the inodes recalled so far. */
  type Progress = map<string, set<nat>>

  predicate IsDone(j: Job, done: Progress) { j.tape in done && j.inum in done[j.tape] }

  function Effective(j: Job, to: JobState, done: Progress): JobState {
    if Recalling(j.state) && IsDone(j, done) then to else Base(j.state)
  }

  function ClassIn(j: Job, req: nat, to: JobState, done: Progress): Option<Class> {
    if j.req == req then Some(ClassOf(Effective(j, to, done))) else None
  }

  function Classes(rows: seq<Job>, req: nat, to: JobState, done: Progress): (cs: seq<Option<Class>>)
    ensures |cs| == |rows| && forall i :: 0 <= i < |rows| ==> cs[i] == ClassIn(rows[i], req, to, done)
  {
    if rows == [] then [] else [ClassIn(rows[0], req, to, done)] + Classes(rows[1..], req, to, done)
  }

  function Count(cs: seq<Option<Class>>, k: Class): nat {
    if cs == [] then 0 else (if cs[0] == Some(k) then 1 else 0) + Count(cs[1..], k)
  }

  /** The counters are the recount of the effective states. */
  predicate Agree(c: Counters, rows: seq<Job>, req: nat, to: JobState, done: Progress) {
    forall k: Class :: Get(c, k) == Count(Classes(rows, req, to, done), k)
  }

  /** File names and inodes of the request are distinct on each tape. */
  predicate DistinctJobs(rows: seq<Job>, req: nat) {
    forall i, k :: 0 <= i < k < |rows| && rows[i].req == req && rows[k].req == req && rows[i].tape == rows[k].tape ==>
      rows[i].file != rows[k].file && rows[i].inum != rows[k].inum
  }

  /** A job that a recall to `to` can move. */
  predicate Movable(j: Job, req: nat, to: JobState) {
    j.req == req && (Base(j.state) == Migrated || Base(j.state) == Premigrated) && Base(j.state) != to
  }

  /** What two jobs of one tape must not share if the first can be moved */
  predicate ToldApart(j: Job, k: Job, req: nat, to: JobState) {
    Movable(j, req, to) && k.req == req && k.tape == j.tape ==>
      (k.state != Failed ==> k.file != j.file) && (Movable(k, req, to) ==> k.inum != j.inum)
  }

  /** On each tape a job that can be moved shares its file name with no job that is not failed already, and
      its inode number with no other job that can be moved. */
  predicate Tellable(rows: seq<Job>, req: nat, to: JobState) {
    forall i, k :: 0 <= i < |rows| && 0 <= k < |rows| && i != k ==> ToldApart(rows[i], rows[k], req, to)
  }

  lemma DistinctIsTellable(rows: seq<Job>, req: nat, to: JobState)
    requires DistinctJobs(rows, req)
    ensures Tellable(rows, req, to)
  {
    forall i, k | 0 <= i < |rows| && 0 <= k < |rows| && i != k ensures ToldApart(rows[i], rows[k], req, to) {
      if rows[i].req == req { SameTapeOther(rows, req, i, k); }
    }
  }

  predicate OnlyRunningRecall(rows: seq<Job>, req: nat, done: Progress) {
    forall i :: 0 <= i < |rows| && rows[i].req == req && Recalling(rows[i].state) ==> rows[i].tape in done
  }

  // ---------------------------------------------------------------- the statements of one tape

  function Mark(rows: seq<Job>, req: nat, tape: string): seq<Job> {
    Exec(Exec(rows, SetState(RecallingMig, req, Migrated, tape)), SetState(RecallingPremig, req, Premigrated, tape))
  }

  function Settle(rows: seq<Job>, req: nat, tape: string, to: JobState, inums: set<nat>): seq<Job> {
    Exec(Exec(Exec(rows, RecallSuccess(to, req, tape, inums)), SetState(Migrated, req, RecallingMig, tape)),
         SetState(Premigrated, req, RecallingPremig, tape))
  }

  predicate Target(to: JobState) { to == Resident || to == Premigrated }

  lemma MarkRow(rows: seq<Job>, req: nat, tape: string, i: nat)
    requires i < |rows|
    ensures var j := rows[i];
            Mark(rows, req, tape)[i] ==
            if j.req == req && j.tape == tape && j.state == Migrated then j.(state := RecallingMig)
            else if j.req == req && j.tape == tape && j.state == Premigrated then j.(state := RecallingPremig)
            else j
  {
  }

  lemma SettleRow(rows: seq<Job>, req: nat, tape: string, to: JobState, inums: set<nat>, i: nat)
    requires i < |rows| && Target(to)
    ensures var j := rows[i];
            Settle(rows, req, tape, to, inums)[i] ==
            if IsRecalling(j, req, tape) then j.(state := if j.inum in inums then to else Base(j.state)) else j
  {
  }

  // ---------------------------------------------------------------- several tapes at a time

  datatype Sys = Sys(rows: seq<Job>, counters: Counters, done: Progress)

  datatype Step =
    | Begin(tape: string)
    | Recalled(i: nat)
    | Failed_(i: nat)
    | End(tape: string)
    | Other(st: Stmt)

  /** Row `i` is a marked job of a tape that is being worked on, and it is its turn. */
  predicate Workable(s: Sys, req: nat, to: JobState, i: nat) {
    && i < |s.rows| && s.rows[i].req == req && Recalling(s.rows[i].state) && s.rows[i].tape in s.done
    && !IsDone(s.rows[i], s.done) && Base(s.rows[i].state) != to
  }

  predicate Enabled(s: Sys, req: nat, to: JobState, step: Step) {
    match step
    case Begin(tape) => tape !in s.done
    case Recalled(i) => Workable(s, req, to, i)
    case Failed_(i) => Workable(s, req, to, i)
    case End(tape) => tape in s.done
    case Other(st) => st.req != req && (st.SetTransferring? ==> st.from != Transferring)
  }

  function Next(s: Sys, req: nat, to: JobState, step: Step): Sys
    requires Enabled(s, req, to, step)
  {
    match step
    case Begin(tape) => s.(rows := Mark(s.rows, req, tape), done := s.done[tape := {}])
    case Recalled(i) =>
      var j := s.rows[i];
      s.(counters := Succeeded(s.counters, Base(j.state), to), done := s.done[j.tape := s.done[j.tape] + {j.inum}])
    case Failed_(i) =>
      var j := s.rows[i];
      s.(counters := Fail(s.counters, Base(j.state)), rows := Exec(s.rows, FailJob(j.file, req, j.tape)))
    case End(tape) => s.(rows := Settle(s.rows, req, tape, to, s.done[tape]), done := s.done - {tape})
    case Other(st) => s.(rows := Exec(s.rows, st))
  }

  predicate ValidRun(s: Sys, req: nat, to: JobState, steps: seq<Step>)
    decreases |steps|
  {
    steps == [] || (Enabled(s, req, to, steps[0]) && ValidRun(Next(s, req, to, steps[0]), req, to, steps[1..]))
  }

  function After(s: Sys, req: nat, to: JobState, steps: seq<Step>): Sys
    requires ValidRun(s, req, to, steps)
    decreases |steps|
  {
    if steps == [] then s else After(Next(s, req, to, steps[0]), req, to, steps[1..])
  }

  predicate Inv(s: Sys, req: nat, to: JobState) {
    && Agree(s.counters, s.rows, req, to, s.done)
    && Tellable(s.rows, req, to)
    && OnlyRunningRecall(s.rows, req, s.done)
  }

  // ---------------------------------------------------------------- counting

  lemma {:induction false} CountUpdate(cs: seq<Option<Class>>, i: nat, x: Option<Class>, k: Class)
    requires i < |cs|
    ensures Count(cs[i := x], k) == Count(cs, k) - (if cs[i] == Some(k) then 1 else 0) + (if x == Some(k) then 1 else 0)
  {
    if i == 0 {
      assert cs[i := x][1..] == cs[1..];
    } else {
      assert cs[i := x][1..] == cs[1..][i - 1 := x];
      CountUpdate(cs[1..], i - 1, x, k);
    }
  }

  lemma ClassesCons(rows: seq<Job>, req: nat, to: JobState)
    requires rows != []
    ensures Classes(rows, req, to, map[])[1..] == Classes(rows[1..], req, to, map[])
  {
  }

  lemma {:induction false} CountIsClass(rows: seq<Job>, req: nat, to: JobState, k: Class)
    requires forall i :: 0 <= i < |rows| && rows[i].req == req ==> !Recalling(rows[i].state)
    ensures Count(Classes(rows, req, to, map[]), k) == CountClass(rows, req, k)
  {
    if rows != [] {
      forall i | 0 <= i < |rows[1..]| && rows[1..][i].req == req ensures !Recalling(rows[1..][i].state) {
        assert rows[i + 1].req == req;
      }
      CountIsClass(rows[1..], req, to, k);
      ClassesCons(rows, req, to);
      assert Effective(rows[0], to, map[]) == Base(rows[0].state);
    }
  }

  /** One row changes its class and the counters follow. */
  lemma AgreeMoves(s: Sys, n: Sys, req: nat, to: JobState, i: nat, x: Class)
    requires Agree(s.counters, s.rows, req, to, s.done) && i < |s.rows| == |n.rows| && s.rows[i].req == req
    requires forall m :: 0 <= m < |s.rows| && m != i ==>
               ClassIn(n.rows[m], req, to, n.done) == ClassIn(s.rows[m], req, to, s.done)
    requires ClassIn(n.rows[i], req, to, n.done) == Some(x)
    requires var o := ClassIn(s.rows[i], req, to, s.done).value;
             forall k: Class :: Get(n.counters, k)
                             == Get(s.counters, k) - (if o == k then 1 else 0) + (if x == k then 1 else 0)
    ensures Agree(n.counters, n.rows, req, to, n.done)
  {
    var cs, ds := Classes(s.rows, req, to, s.done), Classes(n.rows, req, to, n.done);
    assert ds == cs[i := Some(x)];
    forall k: Class ensures Get(n.counters, k) == Count(ds, k) {
      CountUpdate(cs, i, Some(x), k);
    }
  }

  lemma AgreeStays(s: Sys, n: Sys, req: nat, to: JobState)
    requires Agree(s.counters, s.rows, req, to, s.done) && n.counters == s.counters && |n.rows| == |s.rows|
    requires forall m :: 0 <= m < |s.rows| ==> ClassIn(n.rows[m], req, to, n.done) == ClassIn(s.rows[m], req, to, s.done)
    ensures Agree(n.counters, n.rows, req, to, n.done)
  {
    assert Classes(n.rows, req, to, n.done) == Classes(s.rows, req, to, s.done);
  }

  // ---------------------------------------------------------------- every step keeps the invariant

  /** No job becomes movable, and none that was failed becomes another one. */
  predicate NothingNew(rows: seq<Job>, after: seq<Job>, req: nat, to: JobState) {
    |after| == |rows| && forall m :: 0 <= m < |rows| ==>
      && after[m] == rows[m].(state := after[m].state)
      && (Movable(after[m], req, to) ==> Movable(rows[m], req, to))
      && (after[m].req == req && after[m].state != Failed ==> rows[m].state != Failed)
  }

  lemma TellableStays(rows: seq<Job>, after: seq<Job>, req: nat, to: JobState)
    requires Tellable(rows, req, to) && NothingNew(rows, after, req, to)
    ensures Tellable(after, req, to)
  {
    forall i, k | 0 <= i < |rows| && 0 <= k < |rows| && i != k ensures ToldApart(after[i], after[k], req, to) {
      assert ToldApart(rows[i], rows[k], req, to);
    }
  }

  lemma MarkKeepsTellable(rows: seq<Job>, req: nat, to: JobState, tape: string)
    requires Tellable(rows, req, to)
    ensures Tellable(Mark(rows, req, tape), req, to)
  {
    var marked := Mark(rows, req, tape);
    forall m | 0 <= m < |rows|
      ensures marked[m] == rows[m].(state := marked[m].state) && Base(marked[m].state) == Base(rows[m].state)
    {
      MarkRow(rows, req, tape, m);
    }
    TellableStays(rows, marked, req, to);
  }

  lemma BeginKeeps(s: Sys, req: nat, to: JobState, tape: string)
    requires Inv(s, req, to) && Enabled(s, req, to, Begin(tape))
    ensures Inv(Next(s, req, to, Begin(tape)), req, to)
  {
    var n := Next(s, req, to, Begin(tape));
    forall m | 0 <= m < |s.rows|
      ensures ClassIn(n.rows[m], req, to, n.done) == ClassIn(s.rows[m], req, to, s.done)
      ensures n.rows[m].req == req && Recalling(n.rows[m].state) ==> n.rows[m].tape in n.done
    {
      MarkRow(s.rows, req, tape, m);
    }
    MarkKeepsTellable(s.rows, req, to, tape);
    AgreeStays(s, n, req, to);
  }

  lemma EndKeeps(s: Sys, req: nat, to: JobState, tape: string)
    requires Inv(s, req, to) && Enabled(s, req, to, End(tape)) && Target(to)
    ensures Inv(Next(s, req, to, End(tape)), req, to)
  {
    var n := Next(s, req, to, End(tape));
    forall m | 0 <= m < |s.rows|
      ensures ClassIn(n.rows[m], req, to, n.done) == ClassIn(s.rows[m], req, to, s.done)
      ensures n.rows[m] == s.rows[m].(state := n.rows[m].state)
      ensures Base(n.rows[m].state) == Base(s.rows[m].state) || Base(n.rows[m].state) == to
      ensures n.rows[m].state == Failed <==> s.rows[m].state == Failed
      ensures n.rows[m].req == req && Recalling(n.rows[m].state) ==> n.rows[m].tape in n.done
    {
      SettleRow(s.rows, req, tape, to, s.done[tape], m);
    }
    TellableStays(s.rows, n.rows, req, to);
    AgreeStays(s, n, req, to);
  }

  lemma RecalledKeeps(s: Sys, req: nat, to: JobState, i: nat)
    requires Inv(s, req, to) && Enabled(s, req, to, Recalled(i)) && Target(to)
    ensures Inv(Next(s, req, to, Recalled(i)), req, to)
  {
    var n := Next(s, req, to, Recalled(i));
    forall m | 0 <= m < |s.rows| && m != i
      ensures ClassIn(n.rows[m], req, to, n.done) == ClassIn(s.rows[m], req, to, s.done)
    {
      assert ToldApart(s.rows[i], s.rows[m], req, to);
    }
    AgreeMoves(s, n, req, to, i, ClassOf(to));
  }

  lemma SameTapeOther(rows: seq<Job>, req: nat, i: nat, m: nat)
    requires DistinctJobs(rows, req) && i < |rows| && m < |rows| && i != m && rows[i].req == req
    ensures rows[m].req == req && rows[m].tape == rows[i].tape ==>
            rows[m].file != rows[i].file && rows[m].inum != rows[i].inum
  {
    if i < m { assert rows[i].req == req; }
  }

  /** FAIL_JOB goes by file name; it changes one row. */
  lemma FailOneRow(rows: seq<Job>, req: nat, to: JobState, i: nat)
    requires Tellable(rows, req, to) && i < |rows| && Movable(rows[i], req, to)
    ensures Exec(rows, FailJob(rows[i].file, req, rows[i].tape)) == rows[i := rows[i].(state := Failed)]
  {
    var n := Exec(rows, FailJob(rows[i].file, req, rows[i].tape));
    forall m | 0 <= m < |rows| ensures n[m] == if m == i then rows[m].(state := Failed) else rows[m] {
      ExecRow(rows, FailJob(rows[i].file, req, rows[i].tape), m);
      if m != i { assert ToldApart(rows[i], rows[m], req, to); }
    }
  }

  lemma OneFailed(rows: seq<Job>, req: nat, to: JobState, i: nat)
    requires Tellable(rows, req, to) && i < |rows|
    ensures Tellable(rows[i := rows[i].(state := Failed)], req, to)
  {
    TellableStays(rows, rows[i := rows[i].(state := Failed)], req, to);
  }

  lemma FailedNext(s: Sys, req: nat, to: JobState, i: nat)
    requires Tellable(s.rows, req, to) && Enabled(s, req, to, Failed_(i))
    ensures Next(s, req, to, Failed_(i))
         == Sys(s.rows[i := s.rows[i].(state := Failed)], Fail(s.counters, Base(s.rows[i].state)), s.done)
  {
    FailOneRow(s.rows, req, to, i);
  }

  lemma FailedKeeps(s: Sys, req: nat, to: JobState, i: nat)
    requires Inv(s, req, to) && Enabled(s, req, to, Failed_(i))
    ensures Inv(Next(s, req, to, Failed_(i)), req, to)
  {
    var n := Sys(s.rows[i := s.rows[i].(state := Failed)], Fail(s.counters, Base(s.rows[i].state)), s.done);
    FailedNext(s, req, to, i);
    OneFailed(s.rows, req, to, i);
    AgreeMoves(s, n, req, to, i, CFailed);
    assert OnlyRunningRecall(n.rows, req, n.done);
  }

  lemma OtherKeeps(s: Sys, req: nat, to: JobState, st: Stmt)
    requires Inv(s, req, to) && Enabled(s, req, to, Other(st))
    ensures Inv(Next(s, req, to, Other(st)), req, to)
  {
    var n := Next(s, req, to, Other(st));
    forall m | 0 <= m < |s.rows| ensures n.rows[m] == s.rows[m] || (s.rows[m].req != req && n.rows[m].req != req) {
      ExecRow(s.rows, st, m);
    }
    assert Tellable(n.rows, req, to) by {
      forall a, b | 0 <= a < |s.rows| && 0 <= b < |s.rows| && a != b ensures ToldApart(n.rows[a], n.rows[b], req, to) {
        assert ToldApart(s.rows[a], s.rows[b], req, to);
      }
    }
    AgreeStays(s, n, req, to);
  }

  lemma StepKeeps(s: Sys, req: nat, to: JobState, step: Step)
    requires Inv(s, req, to) && Enabled(s, req, to, step) && Target(to)
    ensures Inv(Next(s, req, to, step), req, to)
  {
    match step
    case Begin(tape) => BeginKeeps(s, req, to, tape);
    case Recalled(i) => RecalledKeeps(s, req, to, i);
    case Failed_(i) => FailedKeeps(s, req, to, i);
    case End(tape) => EndKeeps(s, req, to, tape);
    case Other(st) => OtherKeeps(s, req, to, st);
  }

  lemma {:induction false} RunsKeep(s: Sys, req: nat, to: JobState, steps: seq<Step>)
    requires Inv(s, req, to) && ValidRun(s, req, to, steps) && Target(to)
    ensures Inv(After(s, req, to, steps), req, to)
    decreases |steps|
  {
    if steps != [] {
      StepKeeps(s, req, to, steps[0]);
      RunsKeep(Next(s, req, to, steps[0]), req, to, steps[1..]);
    }
  }

  // ---------------------------------------------------------------- the main result

  predicate Unmarked(rows: seq<Job>, req: nat) {
    forall i :: 0 <= i < |rows| && rows[i].req == req ==> !Recalling(rows[i].state)
  }

  /** Start: the counters are a recount and no job is marked. */
  predicate Start(s: Sys, req: nat) {
    s.done == map[] && Recounted(s.counters, s.rows, req) && Unmarked(s.rows, req)
  }

  /** Whenever no tape of the request is being worked on, the counters equal a recount of the job queue, and
      their sum is the number of jobs; whatever succeeded, failed, or was left, on however many tapes at a
      time, and whatever other requests did to the table. */
  lemma CountersAreARecount(s0: Sys, req: nat, to: JobState, steps: seq<Step>)
    requires Start(s0, req) && Tellable(s0.rows, req, to) && Target(to)
    requires ValidRun(s0, req, to, steps) && After(s0, req, to, steps).done == map[]
    ensures var s := After(s0, req, to, steps);
            Recounted(s.counters, s.rows, req) && Total(s.counters) == JobsOf(s.rows, req)
  {
    forall k: Class ensures Get(s0.counters, k) == Count(Classes(s0.rows, req, to, s0.done), k) {
      CountIsClass(s0.rows, req, to, k);
    }
    RunsKeep(s0, req, to, steps);
    var s := After(s0, req, to, steps);
    forall k: Class ensures Get(s.counters, k) == CountClass(s.rows, req, k) {
      CountIsClass(s.rows, req, to, k);
    }
    ClassesSum(s.rows, req);
    assert Get(s.counters, CResident) == s.counters.resident && Get(s.counters, CTransferred) == s.counters.transferred
        && Get(s.counters, CPremigrated) == s.counters.premigrated && Get(s.counters, CMigrated) == s.counters.migrated
        && Get(s.counters, CFailed) == s.counters.failed;
  }

  // ---------------------------------------------------------------- when exactly the counters stay right

  /** Rows of the request change only into class `x`. */
  predicate OnlyInto(rows: seq<Job>, after: seq<Job>, req: nat, x: Class) {
    |after| == |rows| && forall m :: 0 <= m < |rows| ==>
      after[m].req == rows[m].req && (rows[m].req == req ==> ClassOf(after[m].state) in {ClassOf(rows[m].state), x})
  }

  predicate MovedInto(rows: seq<Job>, after: seq<Job>, req: nat, x: Class, i: nat) {
    i < |rows| && i < |after| && rows[i].req == req && ClassOf(rows[i].state) != x && ClassOf(after[i].state) == x
  }

  lemma {:induction false} CountsGrow(rows: seq<Job>, after: seq<Job>, req: nat, x: Class)
    requires OnlyInto(rows, after, req, x)
    ensures CountClass(after, req, x) >= CountClass(rows, req, x)
  {
    if rows != [] { CountsGrow(rows[1..], after[1..], req, x); }
  }

  lemma {:induction false} CountsGrowByOne(rows: seq<Job>, after: seq<Job>, req: nat, x: Class, i: nat)
    requires OnlyInto(rows, after, req, x) && MovedInto(rows, after, req, x, i)
    ensures CountClass(after, req, x) >= CountClass(rows, req, x) + 1
  {
    if i == 0 {
      CountsGrow(rows[1..], after[1..], req, x);
    } else {
      CountsGrowByOne(rows[1..], after[1..], req, x, i - 1);
    }
  }

  lemma {:induction false} CountsGrowByTwo(rows: seq<Job>, after: seq<Job>, req: nat, x: Class, i: nat, k: nat)
    requires OnlyInto(rows, after, req, x) && i < k && MovedInto(rows, after, req, x, i) && MovedInto(rows, after, req, x, k)
    ensures CountClass(after, req, x) >= CountClass(rows, req, x) + 2
  {
    if i == 0 {
      CountsGrowByOne(rows[1..], after[1..], req, x, k - 1);
    } else {
      CountsGrowByTwo(rows[1..], after[1..], req, x, i - 1, k - 1);
    }
  }

  function OneJob(tape: string, step: Step): seq<Step> { [Begin(tape), step, End(tape)] }

  lemma ThreeSteps(s: Sys, req: nat, to: JobState, a: Step, b: Step, c: Step)
    requires Enabled(s, req, to, a) && Enabled(Next(s, req, to, a), req, to, b)
    requires Enabled(Next(Next(s, req, to, a), req, to, b), req, to, c)
    ensures ValidRun(s, req, to, [a, b, c])
    ensures After(s, req, to, [a, b, c]) == Next(Next(Next(s, req, to, a), req, to, b), req, to, c)
  {
    RunSnoc(s, req, to, [], a);
    RunSnoc(s, req, to, [a], b);
    RunSnoc(s, req, to, [a, b], c);
    assert [] + [a] == [a] && [a] + [b] == [a, b] && [a, b] + [c] == [a, b, c];
  }

  /** The table after one success or one failure on a tape */
  function OneJobRows(rows: seq<Job>, req: nat, to: JobState, j: Job, ok: bool): seq<Job> {
    var marked := Mark(rows, req, j.tape);
    if ok then Settle(marked, req, j.tape, to, {j.inum})
    else Settle(Exec(marked, FailJob(j.file, req, j.tape)), req, j.tape, to, {})
  }

  lemma OneJobBegin(s: Sys, req: nat, to: JobState, i: nat)
    requires Start(s, req) && i < |s.rows| && Movable(s.rows[i], req, to)
    ensures var s1 := Next(s, req, to, Begin(s.rows[i].tape));
            && Workable(s1, req, to, i) && s1.done == map[s.rows[i].tape := {}] && s1.counters == s.counters
            && s1.rows == Mark(s.rows, req, s.rows[i].tape)
            && s1.rows[i] == s.rows[i].(state := s1.rows[i].state) && Base(s1.rows[i].state) == s.rows[i].state
  {
    MarkRow(s.rows, req, s.rows[i].tape, i);
  }

  /** The run that works on one job of a tape and settles the table */
  lemma OneJobRun(s: Sys, req: nat, to: JobState, i: nat, ok: bool)
    requires Start(s, req) && Target(to) && i < |s.rows| && Movable(s.rows[i], req, to)
    ensures var j, step := s.rows[i], if ok then Recalled(i) else Failed_(i);
            && ValidRun(s, req, to, OneJob(j.tape, step))
            && After(s, req, to, OneJob(j.tape, step))
               == Sys(OneJobRows(s.rows, req, to, j, ok),
                      if ok then Succeeded(s.counters, j.state, to) else Fail(s.counters, j.state), map[])
  {
    var j, step := s.rows[i], if ok then Recalled(i) else Failed_(i);
    OneJobBegin(s, req, to, i);
    var s1 := Next(s, req, to, Begin(j.tape));
    var s2 := Next(s1, req, to, step);
    assert {} + {j.inum} == {j.inum};
    assert s2.done == map[j.tape := if ok then {j.inum} else {}];
    ThreeSteps(s, req, to, Begin(j.tape), step, End(j.tape));
    assert s2.done - {j.tape} == map[];
  }

  /** A row after one success or failure of job `j` */
  function RowAfter(r: Job, req: nat, to: JobState, j: Job, ok: bool): Job {
    if r.req != req || r.tape != j.tape then r
    else if ok then (if (r.state == Migrated || r.state == Premigrated) && r.inum == j.inum then r.(state := to) else r)
    else (if r.file == j.file then r.(state := Failed) else r)
  }

  /** The row as it was marked */
  function MarkedJob(r: Job, req: nat, tape: string): Job {
    if r.req == req && r.tape == tape && r.state == Migrated then r.(state := RecallingMig)
    else if r.req == req && r.tape == tape && r.state == Premigrated then r.(state := RecallingPremig)
    else r
  }

  lemma SuccessRow(marked: seq<Job>, r: Job, req: nat, to: JobState, j: Job, m: nat)
    requires Target(to) && m < |marked| && marked[m] == MarkedJob(r, req, j.tape) && (r.req == req ==> !Recalling(r.state))
    ensures Settle(marked, req, j.tape, to, {j.inum})[m] == RowAfter(r, req, to, j, true)
  {
    SettleRow(marked, req, j.tape, to, {j.inum}, m);
  }

  lemma FailureRow(failed: seq<Job>, r: Job, req: nat, to: JobState, j: Job, m: nat)
    requires Target(to) && m < |failed| && (r.req == req ==> !Recalling(r.state))
    requires failed[m] == Touch(MarkedJob(r, req, j.tape), FailJob(j.file, req, j.tape))
    ensures Settle(failed, req, j.tape, to, {})[m] == RowAfter(r, req, to, j, false)
  {
    SettleRow(failed, req, j.tape, to, {}, m);
  }

  lemma OneJobRow(rows: seq<Job>, req: nat, to: JobState, j: Job, ok: bool, m: nat)
    requires Target(to) && m < |rows| && Unmarked(rows, req)
    ensures OneJobRows(rows, req, to, j, ok)[m] == RowAfter(rows[m], req, to, j, ok)
  {
    var marked := Mark(rows, req, j.tape);
    MarkRow(rows, req, j.tape, m);
    if ok {
      SuccessRow(marked, rows[m], req, to, j, m);
    } else {
      var failed := Exec(marked, FailJob(j.file, req, j.tape));
      ExecRow(marked, FailJob(j.file, req, j.tape), m);
      FailureRow(failed, rows[m], req, to, j, m);
    }
  }

  /** A run on job `j` takes job `k` with it. */
  predicate Drags(j: Job, k: Job, req: nat, to: JobState, ok: bool) {
    && k.req == req && k.tape == j.tape
    && if ok then Movable(k, req, to) && k.inum == j.inum else k.state != Failed && k.file == j.file
  }

  function Goal(to: JobState, ok: bool): Class { if ok then ClassOf(to) else CFailed }

  lemma TwoMove(rows: seq<Job>, after: seq<Job>, req: nat, to: JobState, j: Job, ok: bool, i: nat, k: nat)
    requires Target(to) && Unmarked(rows, req) && i < |rows| && k < |rows| && i != k
    requires |after| == |rows| && forall m :: 0 <= m < |rows| ==> after[m] == RowAfter(rows[m], req, to, j, ok)
    requires Drags(j, rows[i], req, to, ok) && Drags(j, rows[k], req, to, ok)
    ensures CountClass(after, req, Goal(to, ok)) >= CountClass(rows, req, Goal(to, ok)) + 2
  {
    assert OnlyInto(rows, after, req, Goal(to, ok));
    assert MovedInto(rows, after, req, Goal(to, ok), i) && MovedInto(rows, after, req, Goal(to, ok), k);
    CountsGrowByTwo(rows, after, req, Goal(to, ok), if i < k then i else k, if i < k then k else i);
  }

  lemma CountedOnce(c: Counters, from: JobState, to: JobState, ok: bool)
    requires Target(to) && (from == Migrated || from == Premigrated) && from != to
    ensures Get(if ok then Succeeded(c, from, to) else Fail(c, from), Goal(to, ok)) == Get(c, Goal(to, ok)) + 1
  {
  }

  /** One success moves, and one failure fails, what it drags along, but it is counted once. */
  lemma Miscounts(s: Sys, req: nat, to: JobState, i: nat, k: nat, ok: bool)
    requires Start(s, req) && Target(to) && i < |s.rows| && k < |s.rows| && i != k
    requires Movable(s.rows[i], req, to) && Drags(s.rows[i], s.rows[k], req, to, ok)
    ensures var run := OneJob(s.rows[i].tape, if ok then Recalled(i) else Failed_(i));
            && ValidRun(s, req, to, run) && After(s, req, to, run).done == map[]
            && !Recounted(After(s, req, to, run).counters, After(s, req, to, run).rows, req)
  {
    var j, after := s.rows[i], OneJobRows(s.rows, req, to, s.rows[i], ok);
    OneJobRun(s, req, to, i, ok);
    forall m | 0 <= m < |s.rows| ensures after[m] == RowAfter(s.rows[m], req, to, j, ok) {
      OneJobRow(s.rows, req, to, j, ok, m);
    }
    TwoMove(s.rows, after, req, to, j, ok, i, k);
    CountedOnce(s.counters, j.state, to, ok);
    assert Get(s.counters, Goal(to, ok)) == CountClass(s.rows, req, Goal(to, ok));
  }

  /** The statements go by file name and by inode number: after every run the counters are a recount, exactly
      if these tell the jobs of each tape apart that a recall can move. */
  lemma CountersExactIff(s: Sys, req: nat, to: JobState)
    requires Start(s, req) && Target(to)
    ensures Tellable(s.rows, req, to) <==>
            forall steps :: ValidRun(s, req, to, steps) && After(s, req, to, steps).done == map[] ==>
              Recounted(After(s, req, to, steps).counters, After(s, req, to, steps).rows, req)
  {
    if Tellable(s.rows, req, to) {
      forall steps | ValidRun(s, req, to, steps) && After(s, req, to, steps).done == map[]
        ensures Recounted(After(s, req, to, steps).counters, After(s, req, to, steps).rows, req)
      {
        CountersAreARecount(s, req, to, steps);
      }
    } else {
      var i, k :| 0 <= i < |s.rows| && 0 <= k < |s.rows| && i != k && !ToldApart(s.rows[i], s.rows[k], req, to);
      if Movable(s.rows[k], req, to) && s.rows[k].inum == s.rows[i].inum {
        Miscounts(s, req, to, i, k, true);
      } else {
        Miscounts(s, req, to, i, k, false);
      }
    }
  }

  // ---------------------------------------------------------------- one tape, step by step

  lemma {:induction false} RunSnoc(s: Sys, req: nat, to: JobState, steps: seq<Step>, step: Step)
    requires ValidRun(s, req, to, steps) && Enabled(After(s, req, to, steps), req, to, step)
    ensures ValidRun(s, req, to, steps + [step])
    ensures After(s, req, to, steps + [step]) == Next(After(s, req, to, steps), req, to, step)
    decreases |steps|
  {
    if steps == [] {
      assert steps + [step] == [step] && [step][1..] == [];
    } else {
      assert (steps + [step])[1..] == steps[1..] + [step];
      RunSnoc(Next(s, req, to, steps[0]), req, to, steps[1..], step);
    }
  }

  /** Marking, work and settling put together */
  lemma WholeRun(s0: Sys, s1: Sys, s2: Sys, req: nat, to: JobState, tape: string, work: seq<Step>)
    requires Enabled(s0, req, to, Begin(tape)) && s1 == Next(s0, req, to, Begin(tape))
    requires ValidRun(s1, req, to, work) && s2 == After(s1, req, to, work) && Enabled(s2, req, to, End(tape))
    ensures var steps := [Begin(tape)] + (work + [End(tape)]);
            && ValidRun(s0, req, to, steps)
            && After(s0, req, to, steps) == Next(s2, req, to, End(tape))
  {
    RunSnoc(s1, req, to, work, End(tape));
    assert ([Begin(tape)] + (work + [End(tape)]))[1..] == work + [End(tape)];
  }

  lemma MarkKeepsDistinct(rows: seq<Job>, req: nat, tape: string)
    requires DistinctJobs(rows, req)
    ensures DistinctJobs(Mark(rows, req, tape), req)
  {
    var n := Mark(rows, req, tape);
    forall m | 0 <= m < |rows| ensures n[m] == rows[m].(state := n[m].state) {
      MarkRow(rows, req, tape, m);
    }
  }

  // The list of jobs of one call: the table after marking, the positions of the jobs, and how they will end
  datatype Work = Work(req: nat, tape: string, marked: seq<Job>, ids: seq<nat>, to: JobState, verdicts: seq<Option<bool>>)

  /** The positions of the marked jobs, all different. */
  predicate WorkOk(w: Work) {
    && |w.verdicts| == |w.ids| && DistinctJobs(w.marked, w.req)
    && (forall m :: 0 <= m < |w.ids| ==> w.ids[m] < |w.marked| && IsRecalling(w.marked[w.ids[m]], w.req, w.tape))
    && (forall m, n :: 0 <= m < n < |w.ids| ==> w.ids[m] < w.ids[n])
    && (forall m :: 0 <= m < |w.ids| && w.verdicts[m].Some? ==> Base(w.marked[w.ids[m]].state) != w.to)
  }

  function JobAt(w: Work, m: nat): Job
    requires WorkOk(w) && m < |w.ids|
  {
    w.marked[w.ids[m]]
  }

  /** Job `m` once its verdict was carried out. */
  predicate Carried(w: Work, m: nat, after: Job, inums: set<nat>)
    requires WorkOk(w) && m < |w.ids|
  {
    && (JobAt(w, m).inum in inums <==> w.verdicts[m] == Some(true))
    && after == if w.verdicts[m] == Some(false) then JobAt(w, m).(state := Failed) else JobAt(w, m)
  }

  /** The first `k` jobs have their verdicts, the others are as they were marked, and so is the rest of the table. */
  predicate Halfway(w: Work, k: nat, rows: seq<Job>, inums: set<nat>)
    requires WorkOk(w)
  {
    && |rows| == |w.marked| && k <= |w.ids|
    && (forall m :: 0 <= m < k ==> Carried(w, m, rows[w.ids[m]], inums))
    && (forall m :: k <= m < |w.ids| ==> rows[w.ids[m]] == JobAt(w, m) && JobAt(w, m).inum !in inums)
    && (forall i :: 0 <= i < |rows| && !IsRecalling(w.marked[i], w.req, w.tape) ==> rows[i] == w.marked[i])
  }

  lemma JobsDiffer(w: Work, m: nat, n: nat)
    requires WorkOk(w) && m < |w.ids| && n < |w.ids| && m != n
    ensures w.ids[m] != w.ids[n] && JobAt(w, m).inum != JobAt(w, n).inum && JobAt(w, m).file != JobAt(w, n).file
  {
    assert w.ids[m] != w.ids[n] by {
      if m < n { assert w.ids[m] < w.ids[n]; } else { assert w.ids[n] < w.ids[m]; }
    }
    assert IsRecalling(JobAt(w, m), w.req, w.tape) && IsRecalling(JobAt(w, n), w.req, w.tape);
    SameTapeOther(w.marked, w.req, w.ids[m], w.ids[n]);
  }

  /** The table and the list of inodes after job `k`. */
  function RowsAfterJob(w: Work, k: nat, rows: seq<Job>): seq<Job>
    requires WorkOk(w) && k < |w.ids| && |rows| == |w.marked|
  {
    if w.verdicts[k] == Some(false) then rows[w.ids[k] := JobAt(w, k).(state := Failed)] else rows
  }

  function InumsAfterJob(w: Work, k: nat, inums: set<nat>): set<nat>
    requires WorkOk(w) && k < |w.ids|
  {
    if w.verdicts[k] == Some(true) then inums + {JobAt(w, k).inum} else inums
  }

  lemma HalfwayNext(w: Work, k: nat, rows: seq<Job>, inums: set<nat>)
    requires WorkOk(w) && k < |w.ids| && Halfway(w, k, rows, inums)
    ensures Halfway(w, k + 1, RowsAfterJob(w, k, rows), InumsAfterJob(w, k, inums))
  {
    var rows', inums' := RowsAfterJob(w, k, rows), InumsAfterJob(w, k, inums);
    assert IsRecalling(JobAt(w, k), w.req, w.tape);
    forall m | 0 <= m < |w.ids| && m != k
      ensures rows'[w.ids[m]] == rows[w.ids[m]] && (JobAt(w, m).inum in inums' <==> JobAt(w, m).inum in inums)
    {
      JobsDiffer(w, m, k);
    }
    forall m | 0 <= m < k + 1 ensures Carried(w, m, rows'[w.ids[m]], inums') {
      if m < k { assert Carried(w, m, rows[w.ids[m]], inums); }
    }
  }

  lemma HalfwayDistinct(w: Work, k: nat, rows: seq<Job>, inums: set<nat>)
    requires WorkOk(w) && Halfway(w, k, rows, inums) && AllListed(w)
    ensures DistinctJobs(rows, w.req)
  {
    forall i | 0 <= i < |rows| ensures rows[i] == w.marked[i].(state := rows[i].state) {
      if IsRecalling(w.marked[i], w.req, w.tape) {
        var m :| 0 <= m < |w.ids| && w.ids[m] == i;
        if m < k { assert Carried(w, m, rows[w.ids[m]], inums); }
      }
    }
  }

  predicate AllListed(w: Work) {
    forall i :: 0 <= i < |w.marked| && IsRecalling(w.marked[i], w.req, w.tape) ==> i in w.ids
  }

  /** The positions of all marked jobs of the tape, in order. */
  predicate Listed(ids: seq<nat>, marked: seq<Job>, req: nat, tape: string) {
    && (forall m :: 0 <= m < |ids| ==> ids[m] < |marked| && IsRecalling(marked[ids[m]], req, tape))
    && (forall m, n :: 0 <= m < n < |ids| ==> ids[m] < ids[n])
    && (forall i :: 0 <= i < |marked| && IsRecalling(marked[i], req, tape) ==> i in ids)
  }

  /** How the work on job `k` of the list ends: not at all if there is nothing to do or a transparent recall
      came first, else with success or failure.  Without a tape a migrated file cannot be recalled. */
  function Verdict(job: Job, k: nat, toState: JobState, needsTape: bool, succeeded: nat -> bool, stop: nat): Option<bool> {
    if Base(job.state) == toState || (needsTape && k >= stop) then None
    else Some(succeeded(k) && (Base(job.state) != Migrated || needsTape))
  }

  function FinalState(job: Job, verdict: Option<bool>, toState: JobState): JobState {
    match verdict
    case None => Base(job.state)
    case Some(ok) => if ok then toState else Failed
  }

  /** A marked job that is not reached, or is in the target state already, is as before; one that can be recalled,
      which needs a tape if it was migrated, ends in the target state or failed, as its recall does; and any other
      is failed. */
  lemma MarkedJobEnds(job: Job, k: nat, to: JobState, needsTape: bool, succeeded: nat -> bool, stop: nat)
    requires job.state == RecallingMig || job.state == RecallingPremig
    ensures var final := FinalState(job, Verdict(job, k, to, needsTape, succeeded, stop), to);
            var was := if job.state == RecallingMig then Migrated else Premigrated;
            && ((needsTape && stop <= k) || was == to ==> final == was)
            && ((needsTape ==> k < stop) && was != to && to != Failed ==>
                  (final == to <==> succeeded(k) && (needsTape || was == Premigrated)) && (final != to <==> final == Failed))
  {
  }

  function PlanFor(req: nat, tape: string, marked: seq<Job>, ids: seq<nat>, to: JobState, needsTape: bool,
                   succeeded: nat -> bool, stop: nat): (w: Work)
    requires DistinctJobs(marked, req) && Listed(ids, marked, req, tape)
    ensures WorkOk(w) && AllListed(w) && |w.verdicts| == |ids|
    ensures forall m :: 0 <= m < |ids| ==> w.verdicts[m] == Verdict(marked[ids[m]], m, to, needsTape, succeeded, stop)
  {
    Work(req, tape, marked, ids, to,
         seq(|ids|, k requires 0 <= k < |ids| && ids[k] < |marked| => Verdict(marked[ids[k]], k, to, needsTape, succeeded, stop)))
  }

  /** Jobs that were not reached are as they were marked. */
  lemma RestUntouched(w: Work, k: nat, rows: seq<Job>, inums: set<nat>)
    requires WorkOk(w) && Halfway(w, k, rows, inums) && forall m :: k <= m < |w.ids| ==> w.verdicts[m].None?
    ensures Halfway(w, |w.ids|, rows, inums)
  {
    forall m | 0 <= m < |w.ids| ensures Carried(w, m, rows[w.ids[m]], inums) {
      if m < k { assert Carried(w, m, rows[w.ids[m]], inums); }
    }
  }

  lemma RowsSettled(w: Work, rows: seq<Job>, inums: set<nat>)
    requires WorkOk(w) && Target(w.to) && Halfway(w, |w.ids|, rows, inums) && AllListed(w)
    ensures var after := Settle(rows, w.req, w.tape, w.to, inums);
            && (forall m :: 0 <= m < |w.ids| ==>
                  after[w.ids[m]] == JobAt(w, m).(state := FinalState(JobAt(w, m), w.verdicts[m], w.to)))
            && (forall i :: 0 <= i < |rows| && i !in w.ids ==> after[i] == w.marked[i])
  {
    forall m | 0 <= m < |w.ids|
      ensures Settle(rows, w.req, w.tape, w.to, inums)[w.ids[m]]
           == JobAt(w, m).(state := FinalState(JobAt(w, m), w.verdicts[m], w.to))
    {
      SettledState(w, rows, inums, m);
    }
    forall i | 0 <= i < |rows| && i !in w.ids ensures Settle(rows, w.req, w.tape, w.to, inums)[i] == w.marked[i] {
      SettleRow(rows, w.req, w.tape, w.to, inums, i);
    }
  }

  lemma OthersUnmarked(rows: seq<Job>, w: Work)
    requires WorkOk(w) && AllListed(w) && w.marked == Mark(rows, w.req, w.tape)
    ensures forall i :: 0 <= i < |rows| && i !in w.ids ==> w.marked[i] == rows[i]
  {
    forall i | 0 <= i < |rows| && i !in w.ids ensures w.marked[i] == rows[i] {
      MarkRow(rows, w.req, w.tape, i);
    }
  }

  lemma SettledState(w: Work, rows: seq<Job>, inums: set<nat>, m: nat)
    requires WorkOk(w) && Target(w.to) && Halfway(w, |w.ids|, rows, inums) && m < |w.ids|
    ensures Settle(rows, w.req, w.tape, w.to, inums)[w.ids[m]]
         == JobAt(w, m).(state := FinalState(JobAt(w, m), w.verdicts[m], w.to))
  {
    assert Carried(w, m, rows[w.ids[m]], inums);
    assert IsRecalling(JobAt(w, m), w.req, w.tape);
    SettleRow(rows, w.req, w.tape, w.to, inums, w.ids[m]);
  }

  class SelRecall {
    const queue: JobQueue
    const status: Status
    const reqNumber: nat

    constructor (queue: JobQueue, status: Status, reqNumber: nat)
      ensures this.queue == queue && this.status == status && this.reqNumber == reqNumber
    {
      this.queue, this.status, this.reqNumber := queue, status, reqNumber;
    }

    /** The request as the transition system sees it, while `inums` of tape `tape` are done. */
    function View(done: Progress): Sys
      reads queue, status
      requires reqNumber in status.allStates
    {
      Sys(queue.rows, status.allStates[reqNumber], done)
    }

    /** One job was recalled, or its recall failed. */
    method Report(i: nat, tape: string, toState: JobState, succeeded: bool, inums: set<nat>) returns (inums': set<nat>)
      requires reqNumber in status.allStates && Workable(View(map[tape := inums]), reqNumber, toState, i)
      requires queue.rows[i].tape == tape
      modifies queue, status
      ensures reqNumber in status.allStates
      ensures View(map[tape := inums']) == Next(old(View(map[tape := inums])), reqNumber, toState,
                                                if succeeded then Recalled(i) else Failed_(i))
      ensures succeeded ==> inums' == inums + {old(queue.rows)[i].inum}
      ensures !succeeded ==> inums' == inums
    {
      var job := queue.rows[i];
      var state := if job.state == RecallingMig then Migrated else Premigrated;
      inums' := inums;
      if succeeded {
        inums' := inums + {job.inum};
        status.UpdateSuccess(reqNumber, state, toState);
        assert map[tape := inums][tape := inums'] == map[tape := inums'];
      } else {
        status.UpdateFailed(reqNumber, state);
        queue.Update(FailJob(job.file, reqNumber, tape));
      }
    }

    method MarkTape(tape: string) returns (ids: seq<nat>)
      requires reqNumber in status.allStates
      modifies queue
      ensures queue.rows == Mark(old(queue.rows), reqNumber, tape)
      ensures Listed(ids, queue.rows, reqNumber, tape)
    {
      queue.Update(SetState(RecallingMig, reqNumber, Migrated, tape));
      queue.Update(SetState(RecallingPremig, reqNumber, Premigrated, tape));
      ids := queue.SelectRecalling(reqNumber, tape);
    }

    method SettleTape(tape: string, toState: JobState, inums: set<nat>)
      modifies queue
      ensures queue.rows == Settle(old(queue.rows), reqNumber, tape, toState, inums)
    {
      queue.Update(RecallSuccess(toState, reqNumber, tape, inums));
      queue.Update(SetState(Migrated, reqNumber, RecallingMig, tape));
      queue.Update(SetState(Premigrated, reqNumber, RecallingPremig, tape));
    }

    /** The work on one job that is recalled or fails. */
    method WorkOne(w: Work, k: nat, ok: bool, inums: set<nat>) returns (inums': set<nat>)
      requires reqNumber in status.allStates && w.req == reqNumber && WorkOk(w) && AllListed(w)
      requires k < |w.ids| && Halfway(w, k, queue.rows, inums) && w.verdicts[k] == Some(ok)
      modifies queue, status
      ensures reqNumber in status.allStates && Halfway(w, k + 1, queue.rows, inums')
      ensures var step := if ok then Recalled(w.ids[k]) else Failed_(w.ids[k]);
              && Enabled(old(View(map[w.tape := inums])), reqNumber, w.to, step)
              && View(map[w.tape := inums']) == Next(old(View(map[w.tape := inums])), reqNumber, w.to, step)
    {
      HalfwayNext(w, k, queue.rows, inums);
      HalfwayDistinct(w, k, queue.rows, inums);
      DistinctIsTellable(queue.rows, reqNumber, w.to);
      FailOneRow(queue.rows, reqNumber, w.to, w.ids[k]);
      inums' := Report(w.ids[k], w.tape, w.to, ok, inums);
    }

    /** The loop over the marked jobs. */
    method WorkOnTape(w: Work, needsTape: bool, succeeded: nat -> bool, stop: nat)
      returns (inums: set<nat>, suspended: bool, ghost steps: seq<Step>)
      requires reqNumber in status.allStates && w.marked == queue.rows && w.req == reqNumber && WorkOk(w) && AllListed(w)
      requires forall m :: 0 <= m < |w.ids| ==>
                 w.verdicts[m] == Verdict(JobAt(w, m), m, w.to, needsTape, succeeded, stop)
      modifies queue, status
      ensures reqNumber in status.allStates && Halfway(w, |w.ids|, queue.rows, inums)
      ensures ValidRun(old(View(map[w.tape := {}])), reqNumber, w.to, steps)
      ensures View(map[w.tape := inums]) == After(old(View(map[w.tape := {}])), reqNumber, w.to, steps)
      ensures suspended <==> needsTape && exists m :: stop <= m < |w.ids| && Base(JobAt(w, m).state) != w.to
    {
      ghost var s1 := View(map[w.tape := {}]);
      inums, suspended, steps := {}, false, [];
      for k := 0 to |w.ids|
        invariant reqNumber in status.allStates && Halfway(w, k, queue.rows, inums)
        invariant ValidRun(s1, reqNumber, w.to, steps)
        invariant After(s1, reqNumber, w.to, steps) == View(map[w.tape := inums])
        invariant needsTape ==> forall m :: stop <= m < k ==> Base(JobAt(w, m).state) == w.to
      {
        var i := w.ids[k];
        var state := if w.marked[i].state == RecallingMig then Migrated else Premigrated;
        if state == w.to {
          HalfwayNext(w, k, queue.rows, inums);
          continue;
        }
        if needsTape && k >= stop {
          suspended := true;
          RestUntouched(w, k, queue.rows, inums);
          return;
        }
        var ok := succeeded(k) && (state != Migrated || needsTape);
        ghost var step := if ok then Recalled(i) else Failed_(i);
        inums := WorkOne(w, k, ok, inums);
        RunSnoc(s1, reqNumber, w.to, steps, step);
        steps := steps + [step];
      }
    }

    /** SelRecall::processFiles: `succeeded` says how the single recalls end, from job `stop` on a transparent
        recall wants the drive.  Each job ends as its verdict says, no other row changes, and the method is a
        run of the transition system. */
    method ProcessFiles(tape: string, toState: JobState, needsTape: bool, succeeded: nat -> bool, stop: nat)
      returns (suspended: bool, ids: seq<nat>, ghost steps: seq<Step>)
      requires reqNumber in status.allStates && DistinctJobs(queue.rows, reqNumber) && Target(toState)
      modifies queue, status
      ensures reqNumber in status.allStates
      ensures ValidRun(old(View(map[])), reqNumber, toState, steps)
      ensures View(map[]) == After(old(View(map[])), reqNumber, toState, steps)
      ensures |queue.rows| == |old(queue.rows)| && Listed(ids, Mark(old(queue.rows), reqNumber, tape), reqNumber, tape)
      ensures var marked := Mark(old(queue.rows), reqNumber, tape);
              && (forall k :: 0 <= k < |ids| ==>
                    var v := Verdict(marked[ids[k]], k, toState, needsTape, succeeded, stop);
                    queue.rows[ids[k]] == marked[ids[k]].(state := FinalState(marked[ids[k]], v, toState)))
              && (forall i :: 0 <= i < |marked| && i !in ids ==> queue.rows[i] == old(queue.rows)[i])
              && (suspended <==> needsTape && exists k :: stop <= k < |ids| && Base(marked[ids[k]].state) != toState)
    {
      ghost var s0 := View(map[]);
      MarkKeepsDistinct(queue.rows, reqNumber, tape);
      ids := MarkTape(tape);
      var marked := queue.rows;
      var w := PlanFor(reqNumber, tape, marked, ids, toState, needsTape, succeeded, stop);
      ghost var s1 := View(map[tape := {}]);
      assert s1 == Next(s0, reqNumber, toState, Begin(tape));
      var inums;
      ghost var work;
      inums, suspended, work := WorkOnTape(w, needsTape, succeeded, stop);
      ghost var worked := queue.rows;
      ghost var s2 := View(map[tape := inums]);
      SettleTape(tape, toState, inums);
      RowsSettled(w, worked, inums);
      OthersUnmarked(old(queue.rows), w);
      assert map[tape := inums] - {tape} == map[];
      assert View(map[]) == Next(s2, reqNumber, toState, End(tape));
      WholeRun(s0, s1, s2, reqNumber, toState, tape, work);
      steps := [Begin(tape)] + (work + [End(tape)]);
    }
  }
}
