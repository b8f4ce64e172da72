/** More runs of `FileSafety` that lose data: an event, a truncation or a request without tape comes while
    somebody else has work to do on the file.  Each run is clean but for that one step. */
module FileInterference {
  import opened Wrappers
  import opened FileAttributes
  import opened FileSafety
  import opened FileSteps
  import opened FilePrograms
  import opened FileRuns
  import opened FileGuarantees
  import opened FileConditions
  import opened FileScenarios

  // ---------------------------------------------------------------- an event during a migration

  function EventThenStub(r: nat, offset: nat, bytes: Bytes): seq<Step> {
    WriteSteps(offset, bytes) + ([Change(r, true)] + Calls(3))
  }

  /** An event takes the mark of a file that is being migrated away.  The tape list stays, a write to the file,
      now a resident one, is let through, and the change of states makes a stub of the copies from before. */
  lemma EventInMigrationIsLost(s: Sys, r: nat, offset: nat, bytes: Bytes) returns (m: Sys, e: Sys)
    requires Inv(s) && Free(s) && Ready(s) && StateOf(s.disk) == InMigration && Enabled(s, EventOnResident)
    requires MayChange(s, r) && |Tapes(s.disk)| == |s.replicas|
    ensures Leads(Next(s, EventOnResident), Calls(|Next(s, EventOnResident).pending|), m)
    ensures LeadsCleanly(m, EventThenStub(r, offset, bytes), e)
    ensures StateOf(e.disk) == Migrated && e.logical == WriteAt(s.logical, offset, bytes) && Readable(e) == s.logical
  {
    EventEnds(s);
    ListComplete(s, r);
    m := Finished(Next(s, EventOnResident));
    e := WriteAndStub(m, r, offset, bytes);
  }

  lemma WriteAndStub(s: Sys, r: nat, offset: nat, bytes: Bytes) returns (e: Sys)
    requires Free(s) && Ready(s) && StateOf(s.disk) == Resident && MayChange(s, r) && |Tapes(s.disk)| == |s.replicas|
    ensures LeadsCleanly(s, EventThenStub(r, offset, bytes), e)
    ensures StateOf(e.disk) == Migrated && e.disk.tapes == s.disk.tapes && e.tape == s.tape
    ensures e.logical == WriteAt(s.logical, offset, bytes)
  {
    var m := WriteRun(s, offset, bytes);
    e := ChangeRun(m, r, true);
    Then(s, WriteSteps(offset, bytes), m, [Change(r, true)] + Calls(3), e);
  }

  // ---------------------------------------------------------------- a truncation during a migration

  function CopyOn(bytes: Bytes, n: nat): seq<Step> {
    WriteSteps(0, bytes) + ([CopyChunk(0, n)] + [AddTape(0)] + [SyncDone(0)]) + ([Change(0, true)] + Calls(3))
  }

  /** The replica has read a part, the file was rewritten, and the replica reads the rest. */
  lemma RestRun(s: Sys, t: TapeId) returns (e: Sys)
    requires Free(s) && StateOf(s.disk) == Resident && Tapes(s.disk) == []
    requires |s.replicas| == 1 && s.replicas[0] == Replica(t, Copying, false) && t in s.tape
    requires |s.tape[t].data| < |s.disk.data|
    ensures var done := |s.tape[t].data|;
            && LeadsCleanly(s, [CopyChunk(0, |s.disk.data| - done)] + [AddTape(0)] + [SyncDone(0)], e)
            && Tapes(e.disk) == [t] && e.disk.mark == s.disk.mark
            && e == s.(disk := e.disk, clock := e.clock, replicas := [Replica(t, Synced, true)],
                       tape := s.tape[t := Copy(s.tape[t].data + s.disk.data[done..], true)])
  {
    var copy := CopyChunk(0, |s.disk.data| - |s.tape[t].data|);
    var s1 := RestNext(s, t);
    One(s, copy);
    e := ListAndSync(s1, t);
    Then(s, [copy], s1, [AddTape(0)] + [SyncDone(0)], e);
    assert [copy] + ([AddTape(0)] + [SyncDone(0)]) == [copy] + [AddTape(0)] + [SyncDone(0)];
  }

  lemma ListAndSync(s: Sys, t: TapeId) returns (e: Sys)
    requires Free(s) && StateOf(s.disk) == Resident && Tapes(s.disk) == []
    requires |s.replicas| == 1 && s.replicas[0] == Replica(t, Copying, false) && t in s.tape
    requires |s.tape[t].data| >= |s.disk.data|
    ensures LeadsCleanly(s, [AddTape(0)] + [SyncDone(0)], e)
    ensures Tapes(e.disk) == [t] && e.disk.mark == s.disk.mark
    ensures e == s.(disk := e.disk, clock := e.clock, replicas := [Replica(t, Synced, true)],
                    tape := s.tape[t := Copy(s.tape[t].data, true)])
  {
    var m := Next(s, AddTape(0));
    One(s, AddTape(0));
    assert Tapes(m.disk) == [] + [t] == [t];
    e := Next(m, SyncDone(0));
    ThenOne(s, [AddTape(0)], m, SyncDone(0));
  }

  lemma RestNext(s: Sys, t: TapeId) returns (e: Sys)
    requires |s.replicas| == 1 && s.replicas[0] == Replica(t, Copying, false) && t in s.tape
    requires StateOf(s.disk) == Resident && |s.tape[t].data| < |s.disk.data|
    ensures var done := |s.tape[t].data|;
            && Enabled(s, CopyChunk(0, |s.disk.data| - done)) && e == Next(s, CopyChunk(0, |s.disk.data| - done))
            && e == s.(clock := s.clock + 1, tape := s.tape[t := Copy(s.tape[t].data + s.disk.data[done..], false)])
  {
    var done := |s.tape[t].data|;
    assert ReadAt(s.disk.data, done, |s.disk.data| - done) == s.disk.data[done..];
    e := Next(s, CopyChunk(0, |s.disk.data| - done));
  }

  lemma RewriteAndCopy(s: Sys, t: TapeId, bytes: Bytes) returns (e: Sys)
    requires Free(s) && Ready(s) && s.disk.mark.None? && Tapes(s.disk) == [] && |s.disk.data| == |s.logical| <= |bytes|
    requires s.replicas == [Replica(t, Copying, false)] && t in s.tape && |s.tape[t].data| < |bytes|
    ensures var part := s.tape[t].data;
            && LeadsCleanly(s, CopyOn(bytes, |bytes| - |part|), e)
            && StateOf(e.disk) == Migrated && e.logical == bytes && Readable(e) == part + bytes[|part|..]
  {
    var part := s.tape[t].data;
    var rest := [CopyChunk(0, |bytes| - |part|)] + [AddTape(0)] + [SyncDone(0)];
    var m1 := WriteRun(s, 0, bytes);
    assert m1.disk.data == bytes == m1.logical;
    var m2 := RestRun(m1, t);
    Then(s, WriteSteps(0, bytes), m1, rest, m2);
    e := ChangeRun(m2, 0, true);
    Then(s, WriteSteps(0, bytes) + rest, m2, [Change(0, true)] + Calls(3), e);
  }

  /** A truncation takes a file out of its migration, and the replica that has copied a part of it does not
      notice: the file is rewritten, the replica goes on, and the stub stands for a mixture that nobody wrote. */
  lemma TruncateInMigrationIsLost(s: Sys, size: nat, t: TapeId, bytes: Bytes) returns (m: Sys, e: Sys)
    requires Inv(s) && Free(s) && Ready(s) && StateOf(s.disk) == InMigration && Enabled(s, AppTruncate(size))
    requires s.replicas == [Replica(t, Copying, false)] && t in s.tape && |s.tape[t].data| < |bytes|
    requires size <= |bytes| && |s.logical| <= |bytes|
    ensures Leads(Next(s, AppTruncate(size)), Calls(|Next(s, AppTruncate(size)).pending|), m)
    ensures LeadsCleanly(m, CopyOn(bytes, |bytes| - |s.tape[t].data|), e)
    ensures StateOf(e.disk) == Migrated && e.logical == bytes && Readable(e) == s.tape[t].data + bytes[|s.tape[t].data|..]
    ensures Readable(e) != e.logical <==> !(s.tape[t].data <= bytes)
  {
    m := TruncatedRun(s, size);
    e := RewriteAndCopy(m, t, bytes);
    MixtureIff(s.tape[t].data, bytes);
  }

  lemma MixtureIff(part: Bytes, bytes: Bytes)
    requires |part| <= |bytes|
    ensures part + bytes[|part|..] == bytes <==> part <= bytes
  {
    assert bytes == bytes[..|part|] + bytes[|part|..];
  }

  lemma TruncatedRun(s: Sys, size: nat) returns (e: Sys)
    requires Inv(s) && Free(s) && Ready(s) && StateOf(s.disk) == InMigration && Enabled(s, AppTruncate(size))
    ensures var n := Next(s, AppTruncate(size)); LeadsCleanly(n, Calls(|n.pending|), e)
    ensures Free(e) && Ready(e) && e.disk.mark.None? && Tapes(e.disk) == []
    ensures e.replicas == s.replicas && e.tape == s.tape
    ensures |e.logical| == |e.disk.data| && (|e.disk.data| == |s.logical| || |e.disk.data| == size)
  {
    TruncateEnds(s, size);
    TruncatedSize(s, size);
    e := Finished(Next(s, AppTruncate(size)));
  }

  lemma TruncatedSize(s: Sys, size: nat)
    requires Inv(s) && Free(s) && Ready(s) && StateOf(s.disk) == InMigration && Enabled(s, AppTruncate(size))
    ensures var e := Finished(Next(s, AppTruncate(size)));
            |e.disk.data| == if s.disk.tapes.None? then |s.logical| else size
  {
    var n := Next(s, AppTruncate(size));
    assert Safe(s.disk, s.logical, s.recorded, s.tape);
    if s.disk.tapes.None? {
      RunOfOne(n.disk, n.logical, n.recorded, n.tape, true, n.pending);
    } else {
      RunOfThree(n.disk, n.logical, n.recorded, n.tape, true, n.pending);
    }
  }

  // ---------------------------------------------------------------- a truncation after half a recall

  function HalfRecallSteps(a: Bytes, b: Bytes): seq<Step> {
    [Recall([a, b], true)] + [DoCall] + [DoCall] + [AbandonRecall]
  }

  lemma TwoReads(d: Disk, a: Bytes, b: Bytes, now: nat)
    requires StateOf(d) == Migrated
    ensures var p := RecallCalls(d, [a, b], true, now);
            |p| >= 3 && p[0] == SetMark(MarkFor(d, InRecall, now)) && p[1] == Write(0, a, now) && p[2] == Write(|a|, b, now)
  {
    assert [a, b][1..] == [b];
    assert ChunkCalls(0, [a, b], now)[1..] == ChunkCalls(|a|, [b], now);
  }

  /** A recall that fails in its second read */
  lemma HalfRecall(s: Sys, n: nat) returns (e: Sys)
    requires Inv(s) && Free(s) && StateOf(s.disk) == Migrated && s.disk.data == [] && 0 < n < |s.logical|
    ensures LeadsCleanly(s, HalfRecallSteps(s.logical[..n], s.logical[n..]), e)
    ensures StateOf(e.disk) == InRecall && e.disk.data == s.logical[..n] && e.disk.tapes == s.disk.tapes && Free(e) && Ready(e)
    ensures e.logical == s.logical && e.tape == s.tape
  {
    var a, b := s.logical[..n], s.logical[n..];
    var step := Recall([a, b], true);
    FlattenTwo(a, b);
    assert Enabled(s, step) by {
      assert a + b == s.logical;
      assert Safe(s.disk, s.logical, s.recorded, s.tape) && Backed(s.disk, s.logical, s.tape);
    }
    var s1 := Next(s, step);
    RecallNext(s, [a, b], true);
    TwoReads(s.disk, a, b, s.clock + 1);
    One(s, step);
    e := TwoCallsThenFail(s1, a);
    Then(s, [step], s1, [DoCall] + [DoCall] + [AbandonRecall], e);
    assert [step] + ([DoCall] + [DoCall] + [AbandonRecall]) == HalfRecallSteps(a, b);
  }

  lemma TwoCallsThenFail(s: Sys, a: Bytes) returns (e: Sys)
    requires |s.pending| >= 3 && !s.app && s.locked && s.disk.data == [] && s.start <= s.clock
    requires s.pending[0].SetMark? && s.pending[0].mark.state == InRecall && s.start < s.pending[0].mark.changed
    requires s.pending[1].Write? && s.pending[1].offset == 0 && s.pending[1].bytes == a && s.pending[2].Write?
    ensures LeadsCleanly(s, [DoCall] + [DoCall] + [AbandonRecall], e)
    ensures StateOf(e.disk) == InRecall && e.disk.data == a && e.disk.tapes == s.disk.tapes && Free(e) && Ready(e)
    ensures e.logical == s.logical && e.tape == s.tape
  {
    var s2 := Next(s, DoCall);
    One(s, DoCall);
    var s3 := Next(s2, DoCall);
    ThenOne(s, [DoCall], s2, DoCall);
    e := Next(s3, AbandonRecall);
    ThenOne(s, [DoCall] + [DoCall], s3, AbandonRecall);
    assert WriteAt([], 0, a) == a;
  }

  lemma FlattenTwo(a: Bytes, b: Bytes)
    ensures Flatten([a, b]) == a + b
  {
    assert [a, b][1..] == [b] && [b][1..] == [];
    assert Flatten([b]) == b + [] == b;
  }

  function CutTruncateSteps(): seq<Step> { [AppTruncate(0)] + [DoCall] + [DoCall] + [Crash(map[])] }

  /** A recall failed after some bytes, and the application truncates the file to nothing.  Both attributes go
      first, and a crash then leaves the bytes that were recalled as the file, which it never was. */
  lemma PartOfRecallIsLeft(s: Sys, n: nat) returns (m: Sys, e: Sys)
    requires Inv(s) && Free(s) && StateOf(s.disk) == Migrated && s.disk.data == [] && 0 < n < |s.logical|
    ensures LeadsCleanly(s, HalfRecallSteps(s.logical[..n], s.logical[n..]), m) && m.logical == s.logical
    ensures Leads(m, CutTruncateSteps(), e)
    ensures StateOf(e.disk) == Resident && Tapes(e.disk) == [] && e.logical == [] && Readable(e) == s.logical[..n]
  {
    m := HalfRecall(s, n);
    assert Safe(s.disk, s.logical, s.recorded, s.tape) && Backed(s.disk, s.logical, s.tape);
    e := CutTruncate(m);
  }

  lemma CutTruncate(s: Sys) returns (e: Sys)
    requires Free(s) && Ready(s) && StateOf(s.disk) == InRecall && s.disk.tapes.Some?
    ensures Leads(s, CutTruncateSteps(), e)
    ensures StateOf(e.disk) == Resident && Tapes(e.disk) == [] && e.logical == [] && e.disk.data == s.disk.data
  {
    var s1 := Next(s, AppTruncate(0));
    One(s, AppTruncate(0));
    var s2 := Next(s1, DoCall);
    ThenOne(s, [AppTruncate(0)], s1, DoCall);
    var s3 := Next(s2, DoCall);
    ThenOne(s, [AppTruncate(0)] + [DoCall], s2, DoCall);
    e := Next(s3, Crash(map[]));
    ThenOne(s, [AppTruncate(0)] + [DoCall] + [DoCall], s3, Crash(map[]));
  }

  // ---------------------------------------------------------------- a stub request that comes late

  function RewriteSteps(offset: nat, bytes: Bytes): seq<Step> { [AppWrite(offset, bytes)] + Calls(3) }

  /** A write makes a premigrated file resident. */
  lemma RewriteRun(s: Sys, offset: nat, bytes: Bytes) returns (e: Sys)
    requires Inv(s) && Free(s) && StateOf(s.disk) == Premigrated
    ensures LeadsCleanly(s, RewriteSteps(offset, bytes), e)
    ensures Free(e) && e.disk.mark.None? && Tapes(e.disk) == [] && e.disk.data == e.logical
    ensures e.logical == WriteAt(s.logical, offset, bytes) && e.replicas == s.replicas
  {
    var n := Next(s, AppWrite(offset, bytes));
    One(s, AppWrite(offset, bytes));
    assert Safe(s.disk, s.logical, s.recorded, s.tape) && Backed(s.disk, s.logical, s.tape);
    RunAll(n);
    e := Finished(n);
    Then(s, [AppWrite(offset, bytes)], n, Calls(3), e);
    RunOfThree(n.disk, n.logical, n.recorded, n.tape, true, n.pending);
  }

  lemma NoTapeRun(s: Sys) returns (e: Sys)
    requires Free(s) && AllOver(s.replicas) && s.disk.mark.None? && Tapes(s.disk) == []
    ensures Leads(s, [ChangeNoTape(0)] + Calls(3), e)
    ensures StateOf(e.disk) == Migrated && Tapes(e.disk) == [] && Readable(e) == [] && e.logical == s.logical
  {
    var n := Next(s, ChangeNoTape(0));
    One(s, ChangeNoTape(0));
    ChangeEnds(s.disk, 0, true, s.clock + 1);
    RunAll(n);
    e := Finished(n);
    Then(s, [ChangeNoTape(0)], n, Calls(3), e);
    FinalLogicalSystem(n.disk, n.logical, n.pending);
  }

  /** A file was queued for stubbing while it was premigrated, and written to before its turn came: it is
      resident then, and is emptied all the same, with no tape to recall it from. */
  lemma LateStubbingLosesData(s: Sys, offset: nat, bytes: Bytes) returns (m: Sys, e: Sys)
    requires Inv(s) && Free(s) && StateOf(s.disk) == Premigrated && AllOver(s.replicas)
    ensures LeadsCleanly(s, RewriteSteps(offset, bytes), m)
    ensures m.disk.data == m.logical == WriteAt(s.logical, offset, bytes)
    ensures Leads(m, [ChangeNoTape(0)] + Calls(3), e)
    ensures StateOf(e.disk) == Migrated && Tapes(e.disk) == [] && Readable(e) == [] && e.logical == m.logical
  {
    m := RewriteRun(s, offset, bytes);
    e := NoTapeRun(m);
  }
}
