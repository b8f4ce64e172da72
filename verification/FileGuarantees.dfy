/** What the invariant of `FileSafety` means for users of the file system. */
module FileGuarantees {
  import opened Wrappers
  import opened FileAttributes
  import opened FileSafety
  import opened FileSteps
  import opened FilePrograms
  import opened FileRuns

  // ---------------------------------------------------------------- what users get

  /** The file after the service was started again and somebody looked at it. */
  function Restarted(d: Disk, now: nat): Disk {
    if Transient(StateOf(d)) then ExecAll(d, RecoverCalls(d, now)) else d
  }

  /** What reading the file yields after a restart: the disk, or the first listed tape. */
  function Readable(s: Sys): Bytes {
    var d := Restarted(s.disk, s.clock);
    if GetMigState(d) != IsMigrated then d.data
    else if Tapes(d) != [] && Tapes(d)[0] in s.tape then s.tape[Tapes(d)[0]].data
    else []
  }

  /** The state after a clean run from a file without attributes */
  predicate Reached(s0: Sys, steps: seq<Step>, s: Sys) {
    Init(s0) && ValidRun(s0, steps) && CleanRun(s0, steps) && s == After(s0, steps)
  }

  lemma ReachedInv(s0: Sys, steps: seq<Step>, s: Sys)
    requires Reached(s0, steps, s)
    ensures Inv(s)
  {
    InitInv(s0);
    CleanRunsKeep(s0, steps);
  }

  /** Wherever a clean run is cut, a crash, a restart and a recall give the file back. */
  lemma NoDataLoss(s0: Sys, steps: seq<Step>, s: Sys, lost: map<TapeId, Copy>)
    requires Reached(s0, steps, s) && Clean(s, Crash(lost))
    ensures Readable(Next(s, Crash(lost))) == s.logical
  {
    ReachedInv(s0, steps, s);
    CrashKeeps(s, lost);
    ReadableIsLogical(Next(s, Crash(lost)));
  }

  /** In the states where the disk counts it holds the file, in the others a listed tape does, one of the
      copies is synced, and the disk has at most a beginning of it. */
  lemma WhereTheDataIs(s0: Sys, steps: seq<Step>, s: Sys)
    requires Reached(s0, steps, s)
    ensures match StateOf(s.disk)
            case Resident => s.disk.data == s.logical
            case InMigration => s.disk.data == s.logical
            case Premigrated => s.disk.data == s.logical && Backed(s.disk, s.logical, s.tape)
            case Stubbing => (s.disk.data == s.logical || s.disk.data == []) && Backed(s.disk, s.logical, s.tape)
            case _ => s.disk.data <= s.logical && Backed(s.disk, s.logical, s.tape)
  {
    ReachedInv(s0, steps, s);
  }

  lemma ReadableIsLogical(s: Sys)
    requires Inv(s) && Free(s) && (StateOf(s.disk) == Stubbing ==> NeedsRecovery(s.disk, s.start))
    ensures Readable(s) == s.logical
  {
    if Transient(StateOf(s.disk)) {
      RecoverSafe(s.disk, s.logical, s.recorded, s.tape, s.clock);
      RunOfTwo(s.disk, s.logical, s.recorded, s.tape, false, RecoverCalls(s.disk, s.clock));
    }
  }

  /** The recall program really puts those bytes on disk, for any way the tape is read in pieces, and
      gives the file its recorded times and no attributes. */
  lemma RecallReadsBack(s0: Sys, steps: seq<Step>, s: Sys, chunks: seq<Bytes>, now: nat)
    requires Reached(s0, steps, s) && Free(s) && Enabled(s, Recall(chunks, true)) && GetMigState(s.disk) != IsResident
    ensures var e := ExecAll(s.disk, RecallCalls(s.disk, chunks, true, now));
            e == Disk(s.logical, s.recorded, None, None)
  {
    ReachedInv(s0, steps, s);
    RecallSafe(s.disk, s.logical, s.recorded, s.tape, chunks, true, now);
  }

  /** A read that does not have to wait finds the whole file on disk. */
  lemma UnblockedReadsSeeTheFile(s0: Sys, steps: seq<Step>, s: Sys)
    requires Reached(s0, steps, s) && Free(s) && Ready(s) && !MustRecall(s.disk)
    ensures s.disk.data == s.logical
  {
    ReachedInv(s0, steps, s);
  }

  /** FsObj::stat reports the size of the contents in every state, and in the states where the disk
      may be empty it reports the times recorded when the file was first marked, else those on disk. */
  lemma StatIsOriginal(s0: Sys, steps: seq<Step>, s: Sys)
    requires Reached(s0, steps, s)
    ensures StatSize(s.disk) == |s.logical|
    ensures StatTimes(s.disk) == if OnTape(StateOf(s.disk)) then s.recorded else s.disk.times
  {
    ReachedInv(s0, steps, s);
  }

  /** A clean step that begins and ends off the resident state leaves size and times in the attribute alone. */
  lemma MarkStays(s: Sys, step: Step)
    requires Inv(s) && Enabled(s, step) && Clean(s, step)
    requires StateOf(s.disk) != Resident && StateOf(Next(s, step).disk) != Resident
    ensures Inv(Next(s, step))
    ensures var m, m' := s.disk.mark.value, Next(s, step).disk.mark.value;
            m'.size == m.size && m'.times == m.times
  {
    StepKeeps(s, step);
    var n := Next(s, step);
    assert Safe(s.disk, s.logical, s.recorded, s.tape) && Safe(n.disk, n.logical, n.recorded, n.tape);
  }

  /** The file is not resident anywhere on the run. */
  predicate AwayRun(s: Sys, steps: seq<Step>)
    requires ValidRun(s, steps)
    decreases |steps|
  {
    StateOf(s.disk) != Resident && (steps == [] || AwayRun(Next(s, steps[0]), steps[1..]))
  }

  lemma {:induction false} MarkStaysOnRun(s: Sys, steps: seq<Step>)
    requires Inv(s) && ValidRun(s, steps) && CleanRun(s, steps) && AwayRun(s, steps)
    ensures var m, m' := s.disk.mark, After(s, steps).disk.mark;
            m.Some? && m'.Some? && m'.value.size == m.value.size && m'.value.times == m.value.times
    decreases |steps|
  {
    if steps != [] {
      MarkStays(s, steps[0]);
      MarkStaysOnRun(Next(s, steps[0]), steps[1..]);
    }
  }

  /** From the first mark to the recall that makes the file resident again, through crashes and recovery,
      the attribute keeps the size and the times that it got first. */
  lemma RecordedTimesStay(s0: Sys, before: seq<Step>, s: Sys, steps: seq<Step>)
    requires Reached(s0, before, s) && ValidRun(s, steps) && CleanRun(s, steps) && AwayRun(s, steps)
    ensures var m, m' := s.disk.mark, After(s, steps).disk.mark;
            m.Some? && m'.Some? && m'.value.size == m.value.size && m'.value.times == m.value.times
  {
    ReachedInv(s0, before, s);
    MarkStaysOnRun(s, steps);
  }

  /** Whatever the system itself takes from the disk is on a synced tape before. */
  lemma DiskEmptiedOnlyAfterSync(s0: Sys, steps: seq<Step>, s: Sys)
    requires Reached(s0, steps, s) && s.pending != [] && !s.app && Exec(s.disk, s.pending[0]).data != s.disk.data
    requires s.pending[0].Truncate?
    ensures exists t :: t in Tapes(s.disk) && t in s.tape && s.tape[t].synced && s.tape[t].data == s.logical
  {
    ReachedInv(s0, steps, s);
    var d1 := Exec(s.disk, s.pending[0]);
    assert SafeRun(d1, s.logical, s.recorded, s.tape, false, s.pending[1..]);
    assert Safe(s.disk, s.logical, s.recorded, s.tape) && Safe(d1, s.logical, s.recorded, s.tape);
  }

  // ---------------------------------------------------------------- crashes that come too early

  /** Some listed copy that holds the file cannot get lost. */
  predicate Held(d: Disk, l: Bytes, tape: map<TapeId, Copy>) {
    exists t :: t in Tapes(d) && t in tape && tape[t].synced && tape[t].data == l
  }

  /** The contents still exist, but a recall may read another copy. */
  predicate Kept(d: Disk, l: Bytes, tape: map<TapeId, Copy>) {
    if OnTape(StateOf(d)) then Held(d, l, tape) else d.data == l
  }

  predicate KeptRun(d: Disk, l: Bytes, tape: map<TapeId, Copy>, calls: seq<Call>)
    decreases |calls|
  {
    Kept(d, l, tape) && (calls != [] ==> KeptRun(Exec(d, calls[0]), l, tape, calls[1..]))
  }

  predicate KeptInv(s: Sys) {
    KeptRun(s.disk, s.logical, s.tape, s.pending) && (s.app ==> Free(s))
  }

  /** Before anybody recalls the file: crashes at any time, and recovery. */
  predicate RecoveryStep(s: Sys, step: Step) {
    step.Crash? || step.See? || step.Sync? || step.DoCall? || (step.Recover? && Clean(s, step))
  }

  predicate RecoveryRun(s: Sys, steps: seq<Step>)
    requires ValidRun(s, steps)
    decreases |steps|
  {
    steps == [] || (RecoveryStep(s, steps[0]) && RecoveryRun(Next(s, steps[0]), steps[1..]))
  }

  lemma {:induction false} KeptRunStays(d: Disk, l: Bytes, tape: map<TapeId, Copy>, tape': map<TapeId, Copy>,
                                        calls: seq<Call>)
    requires KeptRun(d, l, tape, calls)
    requires forall t :: t in tape && tape[t].synced ==> t in tape' && tape'[t] == tape[t]
    ensures KeptRun(d, l, tape', calls)
    decreases |calls|
  {
    if calls != [] { KeptRunStays(Exec(d, calls[0]), l, tape, tape', calls[1..]); }
  }

  lemma KeptRecovery(d: Disk, l: Bytes, tape: map<TapeId, Copy>, now: nat)
    requires Kept(d, l, tape) && Transient(StateOf(d))
    ensures KeptRun(d, l, tape, RecoverCalls(d, now))
  {
    var p := RecoverCalls(d, now);
    var d1 := Exec(d, p[0]);
    var d2 := Exec(d1, p[1]);
    assert p[1..] == [p[1]] && [p[1]][1..] == [];
    assert OnTape(StateOf(d)) ==> Tapes(d1) == Tapes(d) && Tapes(d2) == Tapes(d);
    assert KeptRun(d2, l, tape, []) && KeptRun(d1, l, tape, [p[1]]);
  }

  lemma KeptStep(s: Sys, step: Step)
    requires KeptInv(s) && Enabled(s, step) && RecoveryStep(s, step)
    ensures KeptInv(Next(s, step)) && Next(s, step).logical == s.logical
  {
    var n := Next(s, step);
    match step
    case Recover(i) => KeptRecovery(s.disk, s.logical, s.tape, s.clock + 1); RecoverNext(s, i);
    case Sync(t) => KeptRunStays(s.disk, s.logical, s.tape, n.tape, s.pending);
    case Crash(lost) => KeptRunStays(s.disk, s.logical, s.tape, n.tape, []);
    case _ =>
  }

  /** Wherever a clean run is cut, and whichever unsynced copies get lost: until somebody recalls the file,
      through any more crashes and recoveries, its contents are on disk or on a synced copy in its list. */
  lemma {:induction false} ContentsSurviveAnyCrash(s: Sys, steps: seq<Step>)
    requires KeptInv(s) && ValidRun(s, steps) && RecoveryRun(s, steps)
    ensures var e := After(s, steps);
            && e.logical == s.logical
            && (if OnTape(StateOf(e.disk)) then Held(e.disk, s.logical, e.tape) else e.disk.data == s.logical)
    decreases |steps|
  {
    if steps != [] {
      KeptStep(s, steps[0]);
      ContentsSurviveAnyCrash(Next(s, steps[0]), steps[1..]);
    }
  }

  lemma CrashLeavesContents(s0: Sys, before: seq<Step>, s: Sys, lost: map<TapeId, Copy>, steps: seq<Step>)
    requires Reached(s0, before, s)
    requires ValidRun(Next(s, Crash(lost)), steps) && RecoveryRun(Next(s, Crash(lost)), steps)
    ensures var e := After(Next(s, Crash(lost)), steps);
            if OnTape(StateOf(e.disk)) then Held(e.disk, s.logical, e.tape) else e.disk.data == s.logical
  {
    ReachedInv(s0, before, s);
    assert Safe(s.disk, s.logical, s.recorded, s.tape);
    assert Kept(s.disk, s.logical, s.tape);
    var n := Next(s, Crash(lost));
    KeptRunStays(s.disk, s.logical, s.tape, n.tape, []);
    assert KeptInv(n);
    ContentsSurviveAnyCrash(n, steps);
  }

  // ---------------------------------------------------------------- one replica

  predicate NoSetTapes(calls: seq<Call>) {
    forall i :: 0 <= i < |calls| ==> !calls[i].SetTapes?
  }

  /** With one replica a request a file that is on tape never has two copies. */
  ghost predicate SingleCopy(s: Sys) {
    && |s.replicas| <= 1 && NoSetTapes(s.pending)
    && (OnTape(StateOf(s.disk)) || MarksOnTape(s.pending) ==> |Tapes(s.disk)| <= 1)
  }

  predicate SingleReplica(step: Step) { step.StartRequest? ==> |step.rs| == 1 }

  /** Then the only listed tape is a synced one, and no crash needs to wait. */
  lemma SingleCopyIsSynced(s: Sys, lost: map<TapeId, Copy>)
    requires Inv(s) && SingleCopy(s)
    ensures Clean(s, Crash(lost))
  {
    if OnTape(StateOf(s.disk)) {
      assert Safe(s.disk, s.logical, s.recorded, s.tape);
    }
  }

  lemma RecallSetsNoTapes(d: Disk, chunks: seq<Bytes>, toResident: bool, now: nat)
    ensures NoSetTapes(RecallCalls(d, chunks, toResident, now))
  {
    var p := ChunkCalls(0, chunks, now);
    forall i | 0 <= i < |p| ensures p[i].Write? {
      ChunkCallsAreWrites(0, chunks, now, i);
    }
  }

  /** Only a program that a file on tape or with one listed tape enters can mark it on tape. */
  lemma MarkingNeedsCopy(s: Sys, step: Step)
    requires Inv(s) && SingleCopy(s) && Enabled(s, step) && Clean(s, step) && Starts(step)
    requires !OnTape(StateOf(s.disk)) && |Tapes(s.disk)| != 1
    ensures !MarksOnTape(Next(s, step).pending) && !OnTape(StateOf(Next(s, step).disk))
  {
    var p := Next(s, step).pending;
    assert forall i :: 0 <= i < |p| && p[i].SetMark? ==> p[i].mark.state == Resident;
  }

  lemma StartSetsNoTapes(s: Sys, step: Step)
    requires Enabled(s, step) && Clean(s, step) && Starts(step)
    ensures NoSetTapes(Next(s, step).pending)
  {
    if step.Recall? { RecallSetsNoTapes(s.disk, step.chunks, step.toResident, s.clock + 1); }
  }

  lemma StartKeepsSingle(s: Sys, step: Step)
    requires Inv(s) && SingleCopy(s) && Enabled(s, step) && Clean(s, step) && SingleReplica(step) && Starts(step)
    ensures SingleCopy(Next(s, step))
  {
    StartSetsNoTapes(s, step);
    if step.AddTape? {
      NotOnTapeYet(s, step.r);
    } else if !OnTape(StateOf(s.disk)) && |Tapes(s.disk)| != 1 {
      MarkingNeedsCopy(s, step);
    }
  }

  lemma SingleCopyStays(s: Sys, step: Step)
    requires Inv(s) && SingleCopy(s) && Enabled(s, step) && Clean(s, step) && SingleReplica(step)
    ensures SingleCopy(Next(s, step))
  {
    if step.DoCall? {
      DoCallAddsNoTape(s);
    } else if Starts(step) {
      StartKeepsSingle(s, step);
    }
  }

  lemma DoCallAddsNoTape(s: Sys)
    requires Inv(s) && SingleCopy(s) && Enabled(s, DoCall)
    ensures SingleCopy(Next(s, DoCall))
  {
    var n := Next(s, DoCall);
    assert forall i :: 0 <= i < |n.pending| ==> n.pending[i] == s.pending[i + 1];
    assert !s.pending[0].SetTapes?;
    if MarksOnTape(n.pending) {
      var i :| 0 <= i < |n.pending| && n.pending[i].SetMark? && OnTape(n.pending[i].mark.state);
      assert s.pending[i + 1] == n.pending[i];
    }
  }

  /** Clean but for crashes, which may come at any time. */
  predicate CleanButCrashes(s: Sys, steps: seq<Step>)
    requires ValidRun(s, steps)
    decreases |steps|
  {
    steps == [] || ((steps[0].Crash? || Clean(s, steps[0])) && CleanButCrashes(Next(s, steps[0]), steps[1..]))
  }

  /** Single-replica migrations survive every crash. */
  lemma {:induction false} NoDataLossWithOneReplica(s: Sys, steps: seq<Step>, lost: map<TapeId, Copy>)
    requires Inv(s) && SingleCopy(s) && ValidRun(s, steps) && CleanButCrashes(s, steps)
    requires forall i :: 0 <= i < |steps| ==> SingleReplica(steps[i])
    ensures var e := After(s, steps);
            Readable(Next(e, Crash(lost))) == e.logical
    decreases |steps|
  {
    if steps == [] {
      SingleCopyIsSynced(s, lost);
      CrashKeeps(s, lost);
      ReadableIsLogical(Next(s, Crash(lost)));
    } else {
      assert SingleReplica(steps[0]);
      SingleCopyIsSynced(s, lost);
      if steps[0].Crash? { SingleCopyIsSynced(s, steps[0].lost); }
      StepKeeps(s, steps[0]);
      SingleCopyStays(s, steps[0]);
      forall i | 0 <= i < |steps[1..]| ensures SingleReplica(steps[1..][i]) { assert SingleReplica(steps[i + 1]); }
      NoDataLossWithOneReplica(Next(s, steps[0]), steps[1..], lost);
    }
  }
}
