/** A whole recall can be cut anywhere, and every clean run keeps the invariant. */
module FileRuns {
  import opened FileAttributes
  import opened FileSafety
  import opened FileSteps
  import opened FilePrograms

  // ---------------------------------------------------------------- recall

  /** Writing the next piece of `l` over a file that holds a prefix of `l`. */
  lemma WritePrefix(data: Bytes, l: Bytes, offset: nat, bytes: Bytes)
    requires data <= l && offset <= |data| && offset + |bytes| <= |l| && l[offset..offset + |bytes|] == bytes
    ensures var data' := WriteAt(data, offset, bytes);
            data' <= l && |data'| == if offset + |bytes| <= |data| then |data| else offset + |bytes|
  {
    var data' := WriteAt(data, offset, bytes);
    if bytes != [] {
      assert forall k :: 0 <= k < |data'| ==> data'[k] == l[k];
    }
  }

  lemma WriteChunk(d: Disk, l: Bytes, rec: Times, tape: map<TapeId, Copy>, offset: nat, chunks: seq<Bytes>, now: nat)
    requires Safe(d, l, rec, tape) && StateOf(d) == InRecall && chunks != []
    requires offset <= |d.data| && l[offset..] == Flatten(chunks)
    ensures var d1 := Exec(d, Write(offset, chunks[0], now));
            && Safe(d1, l, rec, tape) && d1.mark == d.mark && d1.tapes == d.tapes
            && offset + |chunks[0]| <= |d1.data| && l[offset + |chunks[0]|..] == Flatten(chunks[1..])
  {
    var bytes := chunks[0];
    assert l[offset..][..|bytes|] == bytes && l[offset..][|bytes|..] == Flatten(chunks[1..]);
    WritePrefix(d.data, l, offset, bytes);
    assert Tapes(Exec(d, Write(offset, bytes, now))) == Tapes(d);
  }

  /** The copy loop of a recall keeps the file recoverable and completes it. */
  lemma {:induction false} ChunksSafe(d: Disk, l: Bytes, rec: Times, tape: map<TapeId, Copy>,
                                      offset: nat, chunks: seq<Bytes>, now: nat)
    requires Safe(d, l, rec, tape) && StateOf(d) == InRecall
    requires offset <= |d.data| && l[offset..] == Flatten(chunks)
    ensures SafeRun(d, l, rec, tape, false, ChunkCalls(offset, chunks, now))
    ensures var e := ExecAll(d, ChunkCalls(offset, chunks, now));
            e.data == l && e.mark == d.mark && e.tapes == d.tapes
    decreases |chunks|
  {
    if chunks == [] {
      assert |l[offset..]| == 0;
    } else {
      WriteChunk(d, l, rec, tape, offset, chunks, now);
      ChunksSafe(Exec(d, Write(offset, chunks[0], now)), l, rec, tape, offset + |chunks[0]|, chunks[1..], now);
    }
  }

  /** finishRecall and remAttribute, on a file whose contents are on disk again. */
  lemma FinishSafe(d: Disk, l: Bytes, rec: Times, tape: map<TapeId, Copy>, m: Mark, toResident: bool, now: nat)
    requires Safe(d, l, rec, tape) && OnTape(StateOf(d)) && d.data == l && m.size == |l| && m.times == rec
    ensures var p := FinishCalls(m, toResident, now);
            var e := ExecAll(d, p);
            && SafeRun(d, l, rec, tape, false, p)
            && e.data == l
            && (toResident ==> e.mark.None? && e.tapes.None? && e.times == rec)
            && (!toResident ==> StateOf(e) == Premigrated && e.tapes == d.tapes)
  {
    var p := FinishCalls(m, toResident, now);
    if toResident {
      var first, second := FinishMarkCalls(m, true, now), [RemoveTapes, RemoveMark];
      var d1 := Exec(d, first[0]);
      RunOfTwo(d, l, rec, tape, false, first);
      assert Tapes(d1) == Tapes(d);
      var d2 := ExecAll(d, first);
      RunOfTwo(d2, l, rec, tape, false, second);
      SafeRunAppend(d, l, rec, tape, first, second);
      ExecAllAppend(d, first, second);
    } else {
      RunOfOne(d, l, rec, tape, false, p);
      assert Tapes(Exec(d, p[0])) == Tapes(d);
    }
  }

  /** A whole recall: recoverable at every point, and at its end the disk holds the file again. */
  lemma RecallSafe(d: Disk, l: Bytes, rec: Times, tape: map<TapeId, Copy>, chunks: seq<Bytes>, toResident: bool, now: nat)
    requires Safe(d, l, rec, tape) && StateOf(d) != Stubbing
    requires GetMigState(d) == IsMigrated ==> Tapes(d)[0] in tape && Flatten(chunks) == tape[Tapes(d)[0]].data
    ensures var p := RecallCalls(d, chunks, toResident, now);
            var e := ExecAll(d, p);
            && SafeRun(d, l, rec, tape, false, p)
            && (GetMigState(d) == IsResident ==> p == [])
            && (GetMigState(d) != IsResident ==>
                 && e.data == l
                 && (toResident ==> e.mark.None? && e.tapes.None? && e.times == rec)
                 && (!toResident ==> StateOf(e) == Premigrated && e.tapes == d.tapes))
  {
    var p := RecallCalls(d, chunks, toResident, now);
    if GetMigState(d) == IsPremigrated {
      FinishSafe(d, l, rec, tape, d.mark.value, toResident, now);
    } else if GetMigState(d) == IsMigrated {
      var m := d.mark.value;
      var first, second := [SetMark(MarkFor(d, InRecall, now))], ChunkCalls(0, chunks, now);
      RunOfOne(d, l, rec, tape, false, first);
      var d1 := ExecAll(d, first);
      assert Tapes(d1) == Tapes(d) && Backed(d1, l, tape);
      assert l[0..] == l == Flatten(chunks);
      ChunksSafe(d1, l, rec, tape, 0, chunks, now);
      SafeRunAppend(d, l, rec, tape, first, second);
      ExecAllAppend(d, first, second);
      var d2 := ExecAll(d, first + second);
      assert Safe(d2, l, rec, tape) by { assert Tapes(d2) == Tapes(d1); }
      FinishSafe(d2, l, rec, tape, m, toResident, now);
      var third := FinishCalls(m, toResident, now);
      SafeRunAppend(d, l, rec, tape, first + second, third);
      ExecAllAppend(d, first + second, third);
      assert p == first + second + third;
    }
  }

  lemma {:induction false} ChunkCallsAreWrites(offset: nat, chunks: seq<Bytes>, now: nat, i: nat)
    requires i < |ChunkCalls(offset, chunks, now)|
    ensures ChunkCalls(offset, chunks, now)[i].Write?
    decreases |chunks|
  {
    if i > 0 { ChunkCallsAreWrites(offset + |chunks[0]|, chunks[1..], now, i - 1); }
  }

  lemma RecallMarks(d: Disk, chunks: seq<Bytes>, toResident: bool, start: nat, now: nat)
    requires start < now
    ensures MarksOfRun(RecallCalls(d, chunks, toResident, now), start, now)
  {
    if GetMigState(d) == IsMigrated {
      forall i | 0 <= i < |ChunkCalls(0, chunks, now)| ensures ChunkCalls(0, chunks, now)[i].Write? {
        ChunkCallsAreWrites(0, chunks, now, i);
      }
    }
  }

  /** A file that can be recalled has no replica that still copies, and after the recall either is
      premigrated or has lost its tape list. */
  lemma RecallReplicas(s: Sys, d: Disk)
    requires Inv(s) && Free(s) && OnTape(StateOf(s.disk))
    requires StateOf(d) == Premigrated || (StateOf(d) == Resident && d.tapes.None?)
    ensures ReplicasOk(d, s.logical, s.replicas, s.tape) && AllListed(s.replicas)
  {
  }

  lemma RecallReady(s: Sys, chunks: seq<Bytes>, toResident: bool)
    requires Inv(s) && Enabled(s, Recall(chunks, toResident)) && Free(s)
    ensures var p := RecallCalls(s.disk, chunks, toResident, s.clock + 1);
            && SafeRun(s.disk, s.logical, s.recorded, s.tape, false, p)
            && ReplicasOk(ExecAll(s.disk, p), FinalLogical(s.disk, s.logical, false, p), s.replicas, s.tape)
            && (p != [] ==> AllListed(s.replicas))
            && StubbingNeedsRecovery(ExecAll(s.disk, p), s.start)
  {
    var p := RecallCalls(s.disk, chunks, toResident, s.clock + 1);
    RecallSafe(s.disk, s.logical, s.recorded, s.tape, chunks, toResident, s.clock + 1);
    FinalLogicalSystem(s.disk, s.logical, p);
    if p != [] { RecallReplicas(s, ExecAll(s.disk, p)); }
  }

  lemma RecallNext(s: Sys, chunks: seq<Bytes>, toResident: bool)
    requires Enabled(s, Recall(chunks, toResident)) && Free(s)
    ensures Next(s, Recall(chunks, toResident))
         == Enter(s.(clock := s.clock + 1), RecallCalls(s.disk, chunks, toResident, s.clock + 1), false)
  {
  }

  lemma RecallKeeps(s: Sys, chunks: seq<Bytes>, toResident: bool)
    requires Inv(s) && Enabled(s, Recall(chunks, toResident)) && Free(s)
    ensures Inv(Next(s, Recall(chunks, toResident)))
  {
    RecallReady(s, chunks, toResident);
    RecallMarks(s.disk, chunks, toResident, s.start, s.clock + 1);
    EnterKeeps(s, RecallCalls(s.disk, chunks, toResident, s.clock + 1), false);
    RecallNext(s, chunks, toResident);
  }

  // ---------------------------------------------------------------- runs

  predicate ReplicaStep(step: Step) {
    step.StartRequest? || step.Open? || step.Prepare? || step.CopyChunk? || step.AddTape? || step.Suspend?
    || step.FailReplica? || step.SyncDone? || step.Change?
  }

  predicate AppStep(step: Step) {
    step.AppWrite? || step.AppTruncate? || step.PathTruncate? || step.Land?
  }

  lemma ReplicaStepKeeps(s: Sys, step: Step)
    requires Inv(s) && Enabled(s, step) && Clean(s, step) && ReplicaStep(step)
    ensures Inv(Next(s, step))
  {
    match step
    case StartRequest(rs) => StartRequestKeeps(s, rs);
    case Open(r, t) => OpenKeeps(s, r, t);
    case Prepare(r) => PrepareKeeps(s, r);
    case CopyChunk(r, n) => CopyChunkKeeps(s, r, n);
    case AddTape(r) => AddTapeKeeps(s, r);
    case Suspend(r) => LeaveKeeps(s, r, Waiting); Tick(WithPhase(s, r, Waiting));
    case FailReplica(r) => LeaveKeeps(s, r, Over); Tick(WithPhase(s, r, Over));
    case SyncDone(r) => SyncDoneKeeps(s, r);
    case Change(r, toMigrated) => ChangeKeeps(s, r, toMigrated);
  }

  lemma AppStepKeeps(s: Sys, step: Step)
    requires Inv(s) && Enabled(s, step) && Clean(s, step) && AppStep(step)
    ensures Inv(Next(s, step))
  {
    match step
    case AppWrite(offset, bytes) => AppWriteKeeps(s, offset, bytes);
    case AppTruncate(size) => AppTruncateKeeps(s, size);
    case PathTruncate(size) => PathTruncateKeeps(s, size);
    case Land(i) => LandKeeps(s, i);
  }

  lemma SeeKeeps(s: Sys)
    requires Inv(s) && Enabled(s, See)
    ensures Inv(Next(s, See))
  {
  }

  lemma StepKeeps(s: Sys, step: Step)
    requires Inv(s) && Enabled(s, step) && Clean(s, step)
    ensures Inv(Next(s, step))
  {
    if ReplicaStep(step) {
      ReplicaStepKeeps(s, step);
    } else if AppStep(step) {
      AppStepKeeps(s, step);
    } else {
      match step
      case Sync(t) => SyncKeeps(s, t);
      case ChangeNoTape(numRepl) => ChangeNoTapeKeeps(s, numRepl);
      case Recall(chunks, toResident) => RecallKeeps(s, chunks, toResident);
      case AbandonRecall => AbandonKeeps(s);
      case DoCall => DoCallKeeps(s);
      case Crash(lost) => CrashKeeps(s, lost);
      case EventOnResident => EventOnResidentKeeps(s);
      case See => SeeKeeps(s);
      case Recover(i) => RecoverKeeps(s, i);
    }
  }

  lemma Tick(s: Sys)
    requires Inv(s)
    ensures Inv(s.(clock := s.clock + 1))
  {
  }

  /** The invariant holds after every clean run. */
  lemma {:induction false} CleanRunsKeep(s: Sys, steps: seq<Step>)
    requires Inv(s) && ValidRun(s, steps) && CleanRun(s, steps)
    ensures Inv(After(s, steps))
    decreases |steps|
  {
    if steps != [] {
      StepKeeps(s, steps[0]);
      CleanRunsKeep(Next(s, steps[0]), steps[1..]);
    }
  }

  lemma InitInv(s: Sys)
    requires Init(s)
    ensures Inv(s)
  {
  }
}
