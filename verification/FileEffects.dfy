/** What calls of the application do to its file, and that nothing else changes its times. */
module FileEffects {
  import opened Wrappers
  import opened FileAttributes
  import opened FileSafety
  import opened FileSteps
  import opened FilePrograms
  import opened FileRuns
  import opened FileGuarantees
  import opened FileScenarios

  // ---------------------------------------------------------------- truncations

  /** A truncation that neither waits nor fails leaves the first `size` bytes, or as many with zeros behind
      them, and nothing of the attributes: of a resident or premigrated file, and to nothing of any stub. */
  lemma TruncateTakesEffect(s: Sys, size: nat) returns (e: Sys)
    requires Inv(s) && Free(s) && Ready(s) && !(size > 0 && MustRecall(s.disk)) && !DropFails(s.disk)
    ensures Enabled(s, AppTruncate(size))
    ensures Leads(Next(s, AppTruncate(size)), Calls(|Next(s, AppTruncate(size)).pending|), e) && Free(e)
    ensures e.disk.data == e.logical == Resize(s.logical, size) && e.disk.mark.None?
  {
    var n := Next(s, AppTruncate(size));
    RunAll(n);
    e := Finished(n);
    assert Safe(s.disk, s.logical, s.recorded, s.tape);
    if |n.pending| == 1 {
      RunOfOne(n.disk, n.logical, n.recorded, n.tape, true, n.pending);
    } else {
      RunOfThree(n.disk, n.logical, n.recorded, n.tape, true, n.pending);
    }
  }

  /** The same for the variant by path, when its truncation lands with nothing in between. */
  lemma PathTruncateTakesEffect(s: Sys, size: nat) returns (m: Sys, e: Sys)
    requires Inv(s) && Free(s) && Ready(s) && !(size > 0 && MustRecall(s.disk)) && !DropFails(s.disk)
    ensures Enabled(s, PathTruncate(size))
    ensures Leads(Next(s, PathTruncate(size)), Calls(|Next(s, PathTruncate(size)).pending|), m)
    ensures Enabled(m, Land(|s.late|)) && e == Next(m, Land(|s.late|)) && Free(e)
    ensures e.disk.data == e.logical == Resize(s.logical, size) && e.disk.mark.None?
  {
    var n := Next(s, PathTruncate(size));
    assert n.late == s.late + [LateTruncate(size, false)];
    RunAll(n);
    m := Finished(n);
    DropEnds(s, n);
    e := Next(m, Land(|s.late|));
    LandNext(m, |s.late|);
  }

  lemma DropEnds(s: Sys, n: Sys)
    requires Inv(s) && Free(s) && Ready(s) && !DropFails(s.disk)
    requires n.disk == s.disk && n.logical == s.logical && n.pending == DropCalls(s.disk) && n.app
    ensures var m := Finished(n);
            && m.disk.mark.None? && m.disk.data == s.disk.data
            && m.logical == if MustRecall(s.disk) then [] else s.logical
    ensures !MustRecall(s.disk) ==> s.disk.data == s.logical
  {
    assert Safe(s.disk, s.logical, s.recorded, s.tape);
    if n.pending != [] {
      RunOfTwo(n.disk, n.logical, n.recorded, n.tape, true, n.pending);
    }
  }

  // ---------------------------------------------------------------- calls that wait for a recall

  /** What a call does that waited: the write, or the truncation, that was asked for */
  function Wanted(l: Late, bytes: Bytes): Bytes
    requires !l.LateCalls?
  {
    match l
    case LateWrite(offset, b) => WriteAt(bytes, offset, b)
    case LateTruncate(size, _) => Resize(bytes, size)
  }

  function LandSteps(l: Late, i: nat): seq<Step> {
    if l.LateTruncate? && !l.underLock then [Land(i)] else [Land(i)] + [DoCall]
  }

  lemma LandRun(s: Sys, i: nat) returns (e: Sys)
    requires Free(s) && i < |s.late| && !s.late[i].LateCalls? && s.disk.data == s.logical && StateOf(s.disk) == Resident
    ensures Leads(s, LandSteps(s.late[i], i), e) && Free(e)
    ensures e.disk.data == e.logical == Wanted(s.late[i], s.logical)
  {
    var n := Next(s, Land(i));
    LandNext(s, i);
    One(s, Land(i));
    e := n;
    if !(s.late[i].LateTruncate? && !s.late[i].underLock) {
      ThenOne(s, [Land(i)], n, DoCall);
      e := Next(n, DoCall);
    }
  }

  function RecalledSteps(step: Step, l: Bytes): seq<Step> { [step] + ([Recall([l], true)] + Calls(6)) }

  /** The call waits, and the file is recalled. */
  lemma WaitRun(s: Sys, step: Step, l: Late) returns (m: Sys)
    requires Inv(s) && Free(s) && StateOf(s.disk) == Migrated && Enabled(s, step) && Clean(s, step)
    requires Next(s, step) == Later(s.(clock := s.clock + 1), l)
    ensures Leads(s, RecalledSteps(step, s.logical), m)
    ensures Free(m) && m.disk.data == m.logical == s.logical && StateOf(m.disk) == Resident && m.late == s.late + [l]
  {
    var n := Next(s, step);
    StepKeeps(s, step);
    One(s, step);
    m := WholeRecall(n);
    Then(s, [step], n, [Recall([s.logical], true)] + Calls(6), m);
  }

  /** A write to a stub waits for the recall, and then writes what it was asked to write where it was asked to. */
  lemma BlockedWriteTakesEffect(s: Sys, offset: nat, bytes: Bytes) returns (e: Sys)
    requires Inv(s) && Free(s) && StateOf(s.disk) == Migrated
    ensures Leads(s, RecalledSteps(AppWrite(offset, bytes), s.logical) + ([Land(|s.late|)] + [DoCall]), e)
    ensures e.disk.data == e.logical == WriteAt(s.logical, offset, bytes)
  {
    var l := LateWrite(offset, bytes);
    var m := WaitRun(s, AppWrite(offset, bytes), l);
    e := LandRun(m, |s.late|);
    Then(s, RecalledSteps(AppWrite(offset, bytes), s.logical), m, LandSteps(l, |s.late|), e);
  }

  /** And so does a truncation of a stub to a size above zero, under the lock or by path. */
  lemma BlockedTruncateTakesEffect(s: Sys, size: nat, path: bool) returns (e: Sys)
    requires Inv(s) && Free(s) && StateOf(s.disk) == Migrated && size > 0
    ensures var step := if path then PathTruncate(size) else AppTruncate(size);
            Leads(s, RecalledSteps(step, s.logical) + ([Land(|s.late|)] + (if path then [] else [DoCall])), e)
    ensures e.disk.data == e.logical == Resize(s.logical, size)
  {
    var step := if path then PathTruncate(size) else AppTruncate(size);
    var l := LateTruncate(size, !path);
    var m := WaitRun(s, step, l);
    e := LandRun(m, |s.late|);
    assert LandSteps(l, |s.late|) == [Land(|s.late|)] + (if path then [] else [DoCall]);
    Then(s, RecalledSteps(step, s.logical), m, LandSteps(l, |s.late|), e);
  }

  // ---------------------------------------------------------------- times

  /** The first mark on a resident file holds the file's own size and times; a later one those of the mark
      before it. */
  lemma MarkIsOfTheFile(s: Sys, r: nat)
    requires Inv(s) && Enabled(s, Prepare(r)) && Clean(s, Prepare(r))
    ensures var d, m := s.disk, Next(s, Prepare(r)).disk.mark;
            && m.Some? && m.value.state == InMigration
            && (StateOf(d) == Resident ==> m.value.size == |s.logical| && m.value.times == d.times)
            && (StateOf(d) != Resident ==> m.value.size == d.mark.value.size && m.value.times == d.mark.value.times)
            && Next(s, Prepare(r)).disk.data == d.data && Next(s, Prepare(r)).disk.times == d.times
  {
    assert Safe(s.disk, s.logical, s.recorded, s.tape);
  }

  /** The file has times `t`: on disk while the disk counts, and in the mark from the first one on. */
  predicate TimesOk(d: Disk, t: Times) {
    (!OnTape(StateOf(d)) ==> d.times == t) && (StateOf(d) != Resident ==> d.mark.value.times == t)
  }

  predicate TimesRun(d: Disk, t: Times, calls: seq<Call>)
    decreases |calls|
  {
    TimesOk(d, t) && (calls != [] ==> TimesRun(Exec(d, calls[0]), t, calls[1..]))
  }

  /** Nobody writes to the file or truncates it, and no event comes for it while it is resident. */
  predicate Untouched(step: Step) {
    !step.AppWrite? && !step.AppTruncate? && !step.PathTruncate? && !step.Land? && !step.EventOnResident?
  }

  predicate UntouchedRun(steps: seq<Step>) { forall i :: 0 <= i < |steps| ==> Untouched(steps[i]) }

  lemma {:induction false} TimesRunAppend(d: Disk, t: Times, a: seq<Call>, b: seq<Call>)
    requires TimesRun(d, t, a) && TimesRun(ExecAll(d, a), t, b)
    ensures TimesRun(d, t, a + b)
    decreases |a|
  {
    if a == [] {
      assert a + b == b;
    } else {
      assert (a + b)[0] == a[0] && (a + b)[1..] == a[1..] + b;
      TimesRunAppend(Exec(d, a[0]), t, a[1..], b);
    }
  }

  lemma TimesOfTwo(d: Disk, t: Times, a: Call, b: Call)
    requires TimesOk(d, t) && TimesOk(Exec(d, a), t) && TimesOk(Exec(Exec(d, a), b), t)
    ensures TimesRun(d, t, [a, b]) && ExecAll(d, [a, b]) == Exec(Exec(d, a), b)
  {
    assert [a, b][1..] == [b] && [b][1..] == [];
    assert TimesRun(Exec(Exec(d, a), b), t, []);
    assert ExecAll(Exec(d, a), [b]) == Exec(Exec(d, a), b);
  }

  lemma TimesOfOne(d: Disk, t: Times, a: Call)
    requires TimesOk(d, t) && TimesOk(Exec(d, a), t)
    ensures TimesRun(d, t, [a]) && ExecAll(d, [a]) == Exec(d, a)
  {
    assert [a][1..] == [] && TimesRun(Exec(d, a), t, []);
  }

  /** The copy loop of a recall writes to a file whose times are in its mark. */
  lemma {:induction false} ChunksKeepTimes(d: Disk, t: Times, offset: nat, chunks: seq<Bytes>, now: nat)
    requires TimesOk(d, t) && StateOf(d) == InRecall
    ensures TimesRun(d, t, ChunkCalls(offset, chunks, now))
    ensures var e := ExecAll(d, ChunkCalls(offset, chunks, now)); e.mark == d.mark && TimesOk(e, t)
    decreases |chunks|
  {
    if chunks != [] {
      var p := ChunkCalls(offset, chunks, now);
      assert p[0] == Write(offset, chunks[0], now) && p[1..] == ChunkCalls(offset + |chunks[0]|, chunks[1..], now);
      ChunksKeepTimes(Exec(d, p[0]), t, offset + |chunks[0]|, chunks[1..], now);
    }
  }

  lemma FinishKeepsTimes(d: Disk, t: Times, m: Mark, toResident: bool, now: nat)
    requires TimesOk(d, t) && OnTape(StateOf(d)) && m.times == t && (!toResident ==> StateOf(d) != Resident)
    ensures TimesRun(d, t, FinishCalls(m, toResident, now))
  {
    if toResident {
      var a, b := SetTimes(m.times), SetMark(Mark(Resident, m.size, m.times, now));
      TimesOfTwo(d, t, a, b);
      TimesOfTwo(Exec(Exec(d, a), b), t, RemoveTapes, RemoveMark);
      TimesRunAppend(d, t, [a, b], [RemoveTapes, RemoveMark]);
    } else {
      TimesOfOne(d, t, SetMark(Mark(Premigrated, m.size, m.times, now)));
    }
  }

  lemma RecallKeepsTimes(d: Disk, t: Times, chunks: seq<Bytes>, toResident: bool, now: nat)
    requires TimesOk(d, t)
    ensures TimesRun(d, t, RecallCalls(d, chunks, toResident, now))
  {
    if GetMigState(d) == IsPremigrated {
      FinishKeepsTimes(d, t, d.mark.value, toResident, now);
    } else if GetMigState(d) == IsMigrated {
      var m, to := d.mark.value, toResident || |Flatten(chunks)| != d.mark.value.size;
      var mark, copy := SetMark(MarkFor(d, InRecall, now)), ChunkCalls(0, chunks, now);
      TimesOfOne(d, t, mark);
      var d1 := Exec(d, mark);
      ChunksKeepTimes(d1, t, 0, chunks, now);
      TimesRunAppend(d, t, [mark], copy);
      ExecAllAppend(d, [mark], copy);
      FinishKeepsTimes(ExecAll(d1, copy), t, m, to, now);
      TimesRunAppend(d, t, [mark] + copy, FinishCalls(m, to, now));
    }
  }

  lemma ChangeKeepsTimes(d: Disk, t: Times, numRepl: nat, toMigrated: bool, now: nat)
    requires TimesOk(d, t)
    ensures TimesRun(d, t, ChangeCalls(d, numRepl, toMigrated, now))
  {
    var p := ChangeCalls(d, numRepl, toMigrated, now);
    if p != [] && toMigrated {
      TimesOfTwo(d, t, p[0], p[1]);
      TimesOfOne(Exec(Exec(d, p[0]), p[1]), t, p[2]);
      TimesRunAppend(d, t, [p[0], p[1]], [p[2]]);
      assert p == [p[0], p[1]] + [p[2]];
    } else if p != [] {
      TimesOfOne(d, t, p[0]);
    }
  }

  lemma RecoverKeepsTimes(d: Disk, t: Times, now: nat)
    requires TimesOk(d, t) && Transient(StateOf(d))
    ensures TimesRun(d, t, RecoverCalls(d, now))
  {
    var p := RecoverCalls(d, now);
    TimesOfTwo(d, t, p[0], p[1]);
  }

  /** Programs that a step starts */
  lemma StartKeepsTimes(s: Sys, t: Times, step: Step)
    requires Inv(s) && Enabled(s, step) && Clean(s, step) && Untouched(step) && Free(s) && TimesOk(s.disk, t)
    requires step.Change? || step.ChangeNoTape? || step.Recall? || step.Recover?
    ensures TimesRun(Next(s, step).disk, t, Next(s, step).pending)
  {
    match step
    case Change(r, toMigrated) =>
      ChangeKeepsTimes(s.disk, t, |s.replicas|, toMigrated, s.clock + 1);
      ChangeNext(s, r, WithPhase(s, r, Over), toMigrated);
    case ChangeNoTape(numRepl) =>
      ChangeKeepsTimes(s.disk, t, numRepl, true, s.clock + 1);
      ChangeNoTapeNext(s, numRepl);
    case Recall(chunks, toResident) =>
      RecallKeepsTimes(s.disk, t, chunks, toResident, s.clock + 1);
      RecallNext(s, chunks, toResident);
    case Recover(i) =>
      RecoverKeepsTimes(s.disk, t, s.clock + 1);
      RecoverNext(s, i);
  }

  lemma StepKeepsTimes(s: Sys, t: Times, step: Step)
    requires Inv(s) && Enabled(s, step) && Clean(s, step) && Untouched(step) && TimesRun(s.disk, t, s.pending)
    ensures TimesRun(Next(s, step).disk, t, Next(s, step).pending)
  {
    match step
    case Change(_, _) => StartKeepsTimes(s, t, step);
    case ChangeNoTape(_) => StartKeepsTimes(s, t, step);
    case Recall(_, _) => StartKeepsTimes(s, t, step);
    case Recover(_) => StartKeepsTimes(s, t, step);
    case Prepare(r) => NotOnTapeYet(s, r); assert Safe(s.disk, s.logical, s.recorded, s.tape);
    case _ =>
  }

  lemma {:induction false} RunsKeepTimes(s: Sys, t: Times, steps: seq<Step>)
    requires Inv(s) && ValidRun(s, steps) && CleanRun(s, steps) && UntouchedRun(steps) && TimesRun(s.disk, t, s.pending)
    ensures TimesOk(After(s, steps).disk, t)
    decreases |steps|
  {
    if steps != [] {
      assert Untouched(steps[0]) && forall i :: 0 <= i < |steps[1..]| ==> steps[1..][i] == steps[i + 1];
      StepKeepsTimes(s, t, steps[0]);
      StepKeeps(s, steps[0]);
      RunsKeepTimes(Next(s, steps[0]), t, steps[1..]);
    }
  }

  /** From a resident file with its own times, through migrations, stubs, crashes, recovery and recalls, as long
      as nobody touches the file: whenever it is off tape again it has these times on disk, and meanwhile they
      are what stat reports. */
  lemma TimesSurvive(s0: Sys, before: seq<Step>, s: Sys, steps: seq<Step>)
    requires Reached(s0, before, s) && Free(s) && StateOf(s.disk) == Resident
    requires ValidRun(s, steps) && CleanRun(s, steps) && UntouchedRun(steps)
    ensures var e := After(s, steps);
            && StatTimes(e.disk) == s.disk.times
            && (StateOf(e.disk) == Resident ==> e.disk.times == s.disk.times)
  {
    ReachedInv(s0, before, s);
    RunsKeepTimes(s, s.disk.times, steps);
  }
}
