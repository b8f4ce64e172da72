/** Runs of `FileSafety` that reach the states in which data gets lost: each is clean up to one step that
    the code does not prevent. */
module FileScenarios {
  import opened Wrappers
  import opened FileAttributes
  import opened FileSafety
  import opened FileSteps
  import opened FilePrograms
  import opened FileRuns
  import opened FileGuarantees
  import opened FileConditions

  // ---------------------------------------------------------------- putting runs together

  /** A possible run, and where it ends */
  predicate Leads(s: Sys, steps: seq<Step>, e: Sys) { ValidRun(s, steps) && After(s, steps) == e }

  /** The same, and nothing was relied on in vain. */
  predicate LeadsCleanly(s: Sys, steps: seq<Step>, e: Sys) { Leads(s, steps, e) && CleanRun(s, steps) }

  lemma One(s: Sys, step: Step)
    requires Enabled(s, step)
    ensures Leads(s, [step], Next(s, step)) && (Clean(s, step) ==> LeadsCleanly(s, [step], Next(s, step)))
  {
    assert [step][1..] == [];
  }

  lemma {:induction false} Then(s: Sys, a: seq<Step>, m: Sys, b: seq<Step>, e: Sys)
    requires Leads(s, a, m) && Leads(m, b, e)
    ensures Leads(s, a + b, e)
    ensures LeadsCleanly(s, a, m) && LeadsCleanly(m, b, e) ==> LeadsCleanly(s, a + b, e)
    decreases |a|
  {
    if a == [] {
      assert a + b == b;
    } else {
      assert (a + b)[0] == a[0] && (a + b)[1..] == a[1..] + b;
      Then(Next(s, a[0]), a[1..], m, b, e);
    }
  }

  lemma ThenOne(s: Sys, a: seq<Step>, m: Sys, step: Step)
    requires Leads(s, a, m) && Enabled(m, step)
    ensures Leads(s, a + [step], Next(m, step))
    ensures LeadsCleanly(s, a, m) && Clean(m, step) ==> LeadsCleanly(s, a + [step], Next(m, step))
  {
    One(m, step);
    Then(s, a, m, [step], Next(m, step));
  }

  function Calls(n: nat): seq<Step> {
    if n == 0 then [] else [DoCall] + Calls(n - 1)
  }

  function Finished(s: Sys): Sys {
    s.(disk := ExecAll(s.disk, s.pending), logical := FinalLogical(s.disk, s.logical, s.app, s.pending),
       pending := [], clock := s.clock + |s.pending|)
  }

  /** A program runs to its end. */
  lemma {:induction false} RunAll(s: Sys)
    ensures LeadsCleanly(s, Calls(|s.pending|), Finished(s))
    decreases |s.pending|
  {
    if s.pending != [] {
      var n := Next(s, DoCall);
      RunAll(n);
      One(s, DoCall);
      Then(s, [DoCall], n, Calls(|n.pending|), Finished(n));
      assert Finished(n) == Finished(s);
    }
  }

  // ---------------------------------------------------------------- parts of a migration

  const WAITING := Replica("", Waiting, false)

  /** A file that can be copied in one piece, and a replica that nothing hinders to copy it to tape `t` */
  predicate CanCopy(s: Sys, r: nat, t: TapeId) {
    && Free(s) && InPhase(s, r, Waiting) && s.disk.data != []
    && (StateOf(s.disk) == Resident || (StateOf(s.disk) == InMigration && s.disk.mark.value.size == |s.disk.data|))
    && forall j :: 0 <= j < |s.replicas| && j != r && Holds(s.replicas[j]) ==> s.replicas[j].tape != t
  }

  function CopySteps(r: nat, t: TapeId, n: nat): seq<Step> { [Open(r, t), Prepare(r)] + [CopyChunk(r, n), AddTape(r)] }

  /** The replica copied the file and is in its tape list; nothing else changed. */
  predicate Copied(s: Sys, r: nat, t: TapeId, e: Sys)
    requires r < |s.replicas|
  {
    && e.disk.data == s.disk.data && StateOf(e.disk) == InMigration && e.disk.mark.value.size == |s.disk.data|
    && Tapes(e.disk) == Tapes(s.disk) + [t]
    && e == s.(disk := e.disk, recorded := e.recorded, clock := e.clock, tape := s.tape[t := Copy(s.disk.data, false)],
               replicas := s.replicas[r := Replica(t, Listed, true)])
    && s.clock <= e.clock && s.start < e.disk.mark.value.changed
  }

  lemma Marked(s: Sys, r: nat, t: TapeId)
    requires CanCopy(s, r, t) && s.start <= s.clock
    ensures Enabled(s, Open(r, t)) && Enabled(Next(s, Open(r, t)), Prepare(r))
    ensures var e := Next(Next(s, Open(r, t)), Prepare(r));
            && LeadsCleanly(s, [Open(r, t), Prepare(r)], e)
            && e.disk == s.disk.(mark := e.disk.mark) && StateOf(e.disk) == InMigration
            && e.disk.mark.value.size == |s.disk.data| && s.start < e.disk.mark.value.changed
            && e == s.(disk := e.disk, recorded := e.recorded, clock := s.clock + 2, tape := s.tape[t := Copy([], false)],
                       replicas := s.replicas[r := Replica(t, Copying, false)])
  {
    var m := Next(s, Open(r, t));
    One(s, Open(r, t));
    ThenOne(s, [Open(r, t)], m, Prepare(r));
    assert m.replicas[r := Replica(t, Copying, false)] == s.replicas[r := Replica(t, Copying, false)];
  }

  lemma Read(s: Sys, r: nat, t: TapeId)
    requires Free(s) && InPhase(s, r, Copying) && s.replicas[r].tape == t && t in s.tape && s.tape[t].data == []
    requires StateOf(s.disk) == InMigration && s.disk.mark.value.size == |s.disk.data| > 0
    ensures Enabled(s, CopyChunk(r, |s.disk.data|)) && Enabled(Next(s, CopyChunk(r, |s.disk.data|)), AddTape(r))
    ensures var e := Next(Next(s, CopyChunk(r, |s.disk.data|)), AddTape(r));
            && LeadsCleanly(s, [CopyChunk(r, |s.disk.data|), AddTape(r)], e)
            && Tapes(e.disk) == Tapes(s.disk) + [t]
            && e == s.(disk := s.disk.(tapes := e.disk.tapes), clock := s.clock + 2,
                       tape := s.tape[t := Copy(s.disk.data, false)], replicas := s.replicas[r := Replica(t, Listed, true)])
  {
    var n := |s.disk.data|;
    var m := Next(s, CopyChunk(r, n));
    assert s.disk.data[0..n] == s.disk.data && m.tape[t].data == s.disk.data;
    One(s, CopyChunk(r, n));
    ThenOne(s, [CopyChunk(r, n)], m, AddTape(r));
  }

  lemma CopyRun(s: Sys, r: nat, t: TapeId) returns (e: Sys)
    requires CanCopy(s, r, t) && s.start <= s.clock
    ensures LeadsCleanly(s, CopySteps(r, t, |s.disk.data|), e) && Copied(s, r, t, e)
  {
    Marked(s, r, t);
    var m := Next(Next(s, Open(r, t)), Prepare(r));
    Read(m, r, t);
    e := Next(Next(m, CopyChunk(r, |s.disk.data|)), AddTape(r));
    Then(s, [Open(r, t), Prepare(r)], m, [CopyChunk(r, |s.disk.data|), AddTape(r)], e);
    assert m.replicas[r := Replica(t, Listed, true)] == s.replicas[r := Replica(t, Listed, true)];
    assert m.tape[t := Copy(s.disk.data, false)] == s.tape[t := Copy(s.disk.data, false)];
  }

  /** The state change of a replica that finds the tape list complete, to its end */
  lemma ChangeRun(s: Sys, r: nat, toMigrated: bool) returns (e: Sys)
    requires Free(s) && MayChange(s, r) && GetMigState(s.disk) == IsResident && |Tapes(s.disk)| == |s.replicas|
    ensures LeadsCleanly(s, [Change(r, toMigrated)] + Calls(if toMigrated then 3 else 1), e)
    ensures StateOf(e.disk) == (if toMigrated then Migrated else Premigrated)
    ensures e.disk.data == (if toMigrated then [] else s.disk.data) && e.disk.tapes == s.disk.tapes
    ensures e == s.(disk := e.disk, app := false, locked := true, clock := e.clock,
                    replicas := s.replicas[r := s.replicas[r].(phase := Over)])
  {
    var n := Next(s, Change(r, toMigrated));
    One(s, Change(r, toMigrated));
    RunAll(n);
    e := Finished(n);
    Then(s, [Change(r, toMigrated)], n, Calls(|n.pending|), e);
    FinalLogicalSystem(n.disk, n.logical, n.pending);
    ChangeEnds(s.disk, |s.replicas|, toMigrated, s.clock + 1);
  }

  lemma ChangeEnds(d: Disk, numRepl: nat, toMigrated: bool, now: nat)
    requires GetMigState(d) == IsResident && (numRepl == 0 || |Tapes(d)| == numRepl)
    ensures var p := ChangeCalls(d, numRepl, toMigrated, now);
            && |p| == (if toMigrated then 3 else 1)
            && StateOf(ExecAll(d, p)) == (if toMigrated then Migrated else Premigrated)
            && ExecAll(d, p).data == (if toMigrated then [] else d.data) && ExecAll(d, p).tapes == d.tapes
  {
    var p := ChangeCalls(d, numRepl, toMigrated, now);
    if toMigrated { RunOfThree(d, [], d.times, map[], false, p); } else { RunOfOne(d, [], d.times, map[], false, p); }
  }

  // ---------------------------------------------------------------- a stub with an unsynced first copy

  function TwoCopiesSteps(a: TapeId, b: TapeId, n: nat): seq<Step> {
    [StartRequest([WAITING, WAITING])] + CopySteps(0, a, n) + CopySteps(1, b, n)
  }

  lemma TwoCopiesRun(s: Sys, a: TapeId, b: TapeId) returns (e: Sys)
    requires Init(s) && s.disk.data != [] && a != b
    ensures LeadsCleanly(s, TwoCopiesSteps(a, b, |s.disk.data|), e)
    ensures Free(e) && StateOf(e.disk) == InMigration && Tapes(e.disk) == [a, b] && e.logical == s.logical
    ensures e.replicas == [Replica(a, Listed, true), Replica(b, Listed, true)]
    ensures e.tape == s.tape[a := Copy(s.disk.data, false)][b := Copy(s.disk.data, false)]
  {
    var n, start := |s.disk.data|, StartRequest([WAITING, WAITING]);
    var s1 := Next(s, start);
    One(s, start);
    var s2 := CopyRun(s1, 0, a);
    Then(s, [start], s1, CopySteps(0, a, n), s2);
    e := CopyRun(s2, 1, b);
    Then(s, [start] + CopySteps(0, a, n), s2, CopySteps(1, b, n), e);
    assert Tapes(e.disk) == [] + [a] + [b] == [a, b];
  }

  function UnsyncedStubSteps(a: TapeId, b: TapeId, n: nat): seq<Step> {
    TwoCopiesSteps(a, b, n) + [SyncDone(1)] + ([Change(1, true)] + Calls(3))
  }

  /** Two replicas copy a file, the second one syncs its tape first and completes the list: a clean run to a
      stub that is read from a tape nobody synced, and a crash that loses the file. */
  lemma UnsyncedStubIsReached(s: Sys, a: TapeId, b: TapeId)
    requires Init(s) && s.disk.data != [] && a != b
    ensures var run := UnsyncedStubSteps(a, b, |s.logical|);
            && ValidRun(s, run) && CleanRun(s, run)
            && var e := After(s, run);
               && StateOf(e.disk) == Migrated && Tapes(e.disk) == [a, b] && !FirstTapeSynced(e.disk, e.tape)
               && e.logical == s.logical != Readable(Next(e, Crash(map[a := Copy([], false)])))
  {
    var first := TwoCopiesSteps(a, b, |s.logical|);
    var m := TwoCopiesRun(s, a, b);
    ThenOne(s, first, m, SyncDone(1));
    var m' := Next(m, SyncDone(1));
    var e := ChangeRun(m', 1, true);
    Then(s, first + [SyncDone(1)], m', [Change(1, true)] + Calls(3), e);
    CrashCanEmptyStub(e);
  }

  // ---------------------------------------------------------------- a left-over tape list

  function OneReplicaSteps(t: TapeId, n: nat, toMigrated: bool): seq<Step> {
    [StartRequest([WAITING])] + CopySteps(0, t, n) + [SyncDone(0)]
    + ([Change(0, toMigrated)] + Calls(if toMigrated then 3 else 1))
  }

  /** A whole migration with one replica */
  lemma OneReplicaRun(s: Sys, t: TapeId, toMigrated: bool) returns (e: Sys)
    requires Free(s) && StateOf(s.disk) == Resident && Tapes(s.disk) == [] && AllOver(s.replicas) && s.disk.data != []
    requires s.start <= s.clock
    ensures LeadsCleanly(s, OneReplicaSteps(t, |s.disk.data|, toMigrated), e)
    ensures StateOf(e.disk) == (if toMigrated then Migrated else Premigrated) && Tapes(e.disk) == [t]
    ensures e.disk.data == (if toMigrated then [] else s.disk.data)
    ensures e == s.(disk := e.disk, recorded := e.recorded, app := false, locked := true, clock := e.clock,
                    tape := s.tape[t := Copy(s.disk.data, true)], replicas := [Replica(t, Over, true)])
  {
    var n := |s.disk.data|;
    var s1 := Next(s, StartRequest([WAITING]));
    One(s, StartRequest([WAITING]));
    var s2 := CopyRun(s1, 0, t);
    Then(s, [StartRequest([WAITING])], s1, CopySteps(0, t, n), s2);
    ThenOne(s, [StartRequest([WAITING])] + CopySteps(0, t, n), s2, SyncDone(0));
    var s3 := Next(s2, SyncDone(0));
    e := ChangeRun(s3, 0, toMigrated);
    Then(s, [StartRequest([WAITING])] + CopySteps(0, t, n) + [SyncDone(0)], s3,
         [Change(0, toMigrated)] + Calls(if toMigrated then 3 else 1), e);
    assert s3.tape == s.tape[t := Copy(s.disk.data, true)];
  }

  function CutWriteSteps(offset: nat, bytes: Bytes): seq<Step> { [AppWrite(offset, bytes)] + [DoCall] + [Crash(map[])] }

  /** A write to a premigrated file, cut by a crash behind its first call */
  lemma CutWriteRun(s: Sys, offset: nat, bytes: Bytes) returns (e: Sys)
    requires Free(s) && StateOf(s.disk) == Premigrated && s.disk.tapes.Some?
    ensures LeadsCleanly(s, CutWriteSteps(offset, bytes), e)
    ensures e.disk == s.disk.(mark := None) && e.logical == s.logical && Free(e) && e.replicas == []
  {
    var s1 := Next(s, AppWrite(offset, bytes));
    One(s, AppWrite(offset, bytes));
    assert s1.pending[0] == RemoveMark;
    var s2 := Next(s1, DoCall);
    ThenOne(s, [AppWrite(offset, bytes)], s1, DoCall);
    e := Next(s2, Crash(map[]));
    ThenOne(s, [AppWrite(offset, bytes)] + [DoCall], s2, Crash(map[]));
  }

  /** write_buf drops the state attribute before the tape list: a crash between the two leaves a resident
      file with a tape list. */
  lemma LeftOverIsReached(s: Sys, t: TapeId, offset: nat, bytes: Bytes)
    requires Init(s) && s.disk.data != []
    ensures var run := OneReplicaSteps(t, |s.logical|, false) + CutWriteSteps(offset, bytes);
            && ValidRun(s, run) && CleanRun(s, run)
            && var e := After(s, run);
               && StateOf(e.disk) == Resident && Tapes(e.disk) == [t] && Free(e) && Ready(e) && e.replicas == []
               && e.disk.data == e.logical == s.logical
  {
    var m := OneReplicaRun(s, t, false);
    var e := CutWriteRun(m, offset, bytes);
    Then(s, OneReplicaSteps(t, |s.logical|, false), m, CutWriteSteps(offset, bytes), e);
  }

  /** Names that are longer than `t`, each one longer than the one before */
  function Fresh(t: TapeId, i: nat): TapeId { seq(|t| + 1 + i, _ => 'x') }

  function FreshCopies(t: TapeId, i: nat, m: nat, n: nat): seq<Step>
    requires i <= m
    decreases m - i
  {
    if i == m then [] else CopySteps(i, Fresh(t, i), n) + FreshCopies(t, i + 1, m, n)
  }

  /** Replica `m` has opened the first tape of a left-over list, the first `i` of the replicas before it are
      copied and listed, and the list will be complete when all of them are. */
  predicate HalfCopied(s: Sys, t: TapeId, i: nat, m: nat) {
    && Free(s) && i <= m < |s.replicas| && s.disk.data != [] && s.start <= s.clock
    && (StateOf(s.disk) == Resident || (StateOf(s.disk) == InMigration && s.disk.mark.value.size == |s.disk.data|))
    && |Tapes(s.disk)| + (m - i) == |s.replicas| && Tapes(s.disk) != [] && Tapes(s.disk)[0] == t
    && t in s.tape && s.tape[t].data == []
    && (forall j :: 0 <= j < i ==> s.replicas[j] == Replica(Fresh(t, j), Listed, true) && Fresh(t, j) in s.tape)
    && (forall j :: i <= j < |s.replicas| && j != m ==> s.replicas[j].phase == Waiting && !s.replicas[j].listed)
    && s.replicas[m] == Replica(t, Opened, false)
  }

  lemma {:induction false} FreshCopiesRun(s: Sys, t: TapeId, i: nat, m: nat) returns (e: Sys)
    requires HalfCopied(s, t, i, m)
    ensures LeadsCleanly(s, FreshCopies(t, i, m, |s.disk.data|), e)
    ensures HalfCopied(e, t, m, m) && e.logical == s.logical
    decreases m - i
  {
    if i == m {
      e := s;
    } else {
      var n := |s.disk.data|;
      var s1 := CopyRun(s, i, Fresh(t, i));
      e := FreshCopiesRun(s1, t, i + 1, m);
      Then(s, CopySteps(i, Fresh(t, i), n), s1, FreshCopies(t, i + 1, m, n), e);
    }
  }

  lemma LastChange(s: Sys, t: TapeId, m: nat) returns (e: Sys)
    requires HalfCopied(s, t, m, m) && m > 0
    ensures LeadsCleanly(s, [SyncDone(0)] + ([Change(0, true)] + Calls(3)), e)
    ensures Free(e) && StateOf(e.disk) == Migrated && Readable(e) == [] && e.logical == s.logical
  {
    var n := Next(s, SyncDone(0));
    One(s, SyncDone(0));
    e := ChangeRun(n, 0, true);
    Then(s, [SyncDone(0)], n, [Change(0, true)] + Calls(3), e);
  }

  function ShortListSteps(t: TapeId, m: nat, n: nat): seq<Step> {
    [Open(m, t)] + FreshCopies(t, 0, m, n) + [SyncDone(0)] + ([Change(0, true)] + Calls(3))
  }

  /** A left-over list that is shorter than the number of replicas: the last replica opens its first tape
      anew, the others complete the list and stub the file, and a recall reads nothing. */
  lemma ShortListRun(s: Sys) returns (e: Sys)
    requires Free(s) && s.disk.data != [] && s.disk.data == s.logical && s.start <= s.clock
    requires StateOf(s.disk) == Resident || (StateOf(s.disk) == InMigration && s.disk.mark.value.size == |s.disk.data|)
    requires 0 < |Tapes(s.disk)| < |s.replicas|
    requires forall j :: 0 <= j < |s.replicas| ==> s.replicas[j].phase == Waiting && !s.replicas[j].listed
    ensures LeadsCleanly(s, ShortListSteps(Tapes(s.disk)[0], |s.replicas| - |Tapes(s.disk)|, |s.disk.data|), e)
    ensures Free(e) && StateOf(e.disk) == Migrated && Readable(e) == [] != e.logical
  {
    var t, m, n := Tapes(s.disk)[0], |s.replicas| - |Tapes(s.disk)|, |s.disk.data|;
    var s1 := Next(s, Open(m, t));
    One(s, Open(m, t));
    var s2 := FreshCopiesRun(s1, t, 0, m);
    Then(s, [Open(m, t)], s1, FreshCopies(t, 0, m, n), s2);
    e := LastChange(s2, t, m);
    Then(s, [Open(m, t)] + FreshCopies(t, 0, m, n), s2, [SyncDone(0)] + ([Change(0, true)] + Calls(3)), e);
    assert [Open(m, t)] + FreshCopies(t, 0, m, n) + ([SyncDone(0)] + ([Change(0, true)] + Calls(3)))
        == ShortListSteps(t, m, n);
  }

  /** A clean run from here loses the file. */
  ghost predicate MayLose(s: Sys) {
    exists steps: seq<Step> :: ValidRun(s, steps) && CleanRun(s, steps) && var e := After(s, steps);
      Free(e) && (StateOf(e.disk) == Stubbing ==> NeedsRecovery(e.disk, e.start)) && Readable(e) != e.logical
  }

  lemma CannotLose(s: Sys)
    requires Inv(s)
    ensures !MayLose(s)
  {
    forall steps: seq<Step> | ValidRun(s, steps) && CleanRun(s, steps) && Free(After(s, steps))
      && (StateOf(After(s, steps).disk) == Stubbing ==> NeedsRecovery(After(s, steps).disk, After(s, steps).start))
      ensures Readable(After(s, steps)) == After(s, steps).logical
    {
      CleanRunsKeep(s, steps);
      ReadableIsLogical(After(s, steps));
    }
  }

  lemma LosesBy(s: Sys, steps: seq<Step>, e: Sys)
    requires LeadsCleanly(s, steps, e) && Free(e) && StateOf(e.disk) == Migrated && Readable(e) != e.logical
    ensures MayLose(s)
  {
    assert After(s, steps) == e;
  }

  function WriteSteps(offset: nat, bytes: Bytes): seq<Step> { [AppWrite(offset, bytes)] + [DoCall] }

  lemma WriteRun(s: Sys, offset: nat, bytes: Bytes) returns (e: Sys)
    requires Free(s) && Ready(s) && StateOf(s.disk) == Resident
    ensures LeadsCleanly(s, WriteSteps(offset, bytes), e)
    ensures e.disk.data == WriteAt(s.disk.data, offset, bytes) && e.logical == WriteAt(s.logical, offset, bytes)
    ensures e == s.(disk := s.disk.(data := e.disk.data, times := e.disk.times), logical := e.logical,
                    app := true, locked := true, clock := e.clock) && s.clock <= e.clock
  {
    var m := Next(s, AppWrite(offset, bytes));
    One(s, AppWrite(offset, bytes));
    assert m.pending == [Write(offset, bytes, m.clock)];
    e := Next(m, DoCall);
    ThenOne(s, [AppWrite(offset, bytes)], m, DoCall);
  }

  lemma ShortListLoses(s: Sys, rs: seq<Replica>)
    requires Inv(s) && Free(s) && Enabled(s, StartRequest(rs)) && StateOf(s.disk) == Resident
    requires 0 < |Tapes(s.disk)| < |rs|
    ensures MayLose(Next(s, StartRequest(rs)))
  {
    // a write makes sure that there is something to lose
    var s1 := Next(s, StartRequest(rs));
    var m := WriteRun(s1, 0, [1]);
    var e := ShortListRun(m);
    var steps := ShortListSteps(Tapes(m.disk)[0], |m.replicas| - |Tapes(m.disk)|, |m.disk.data|);
    Then(s1, WriteSteps(0, [1]), m, steps, e);
    LosesBy(s1, WriteSteps(0, [1]) + steps, e);
  }

  lemma ShortListLosesMarked(s: Sys, rs: seq<Replica>)
    requires Inv(s) && Free(s) && Enabled(s, StartRequest(rs)) && StateOf(s.disk) == InMigration && s.logical != []
    requires 0 < |Tapes(s.disk)| < |rs|
    ensures MayLose(Next(s, StartRequest(rs)))
  {
    var s1 := Next(s, StartRequest(rs));
    assert Safe(s.disk, s.logical, s.recorded, s.tape);
    var e := ShortListRun(s1);
    LosesBy(s1, ShortListSteps(Tapes(s1.disk)[0], |s1.replicas| - |Tapes(s1.disk)|, |s1.disk.data|), e);
  }

  /** A request for `n` replicas on a file with a left-over tape list, be it resident or left in migration by
      an earlier request: a clean run from there can lose the file exactly if the list names at least one
      tape and fewer than `n`. */
  lemma LeftOverLossIff(s: Sys, rs: seq<Replica>)
    requires Inv(s) && Free(s) && Enabled(s, StartRequest(rs)) && (StateOf(s.disk) == Resident || s.logical != [])
    ensures MayLose(Next(s, StartRequest(rs))) <==> 0 < |Tapes(s.disk)| < |rs|
  {
    if 0 < |Tapes(s.disk)| < |rs| {
      if StateOf(s.disk) == Resident { ShortListLoses(s, rs); } else { ShortListLosesMarked(s, rs); }
    } else {
      StartRequestKeeps(s, rs);
      CannotLose(Next(s, StartRequest(rs)));
    }
  }

  // ---------------------------------------------------------------- an application at the wrong moment

  /** A write that comes after the copies were made and before the stub is lost. */
  lemma WriteInMigrationIsLost(s: Sys, r: nat, offset: nat, bytes: Bytes)
    requires Inv(s) && Free(s) && Ready(s) && StateOf(s.disk) == InMigration
    requires MayChange(s, r) && |Tapes(s.disk)| == |s.replicas|
    ensures var run := WriteSteps(offset, bytes) + ([Change(r, true)] + Calls(3));
            && ValidRun(s, run)
            && var e := After(s, run);
               StateOf(e.disk) == Migrated && e.logical == WriteAt(s.logical, offset, bytes) && Readable(e) == s.logical
  {
    var n := Next(s, AppWrite(offset, bytes));
    ListComplete(s, r);
    WriteEnters(s, offset, bytes);
    One(s, AppWrite(offset, bytes));
    ThenOne(s, [AppWrite(offset, bytes)], n, DoCall);
    var m := Next(n, DoCall);
    var e := ChangeRun(m, r, true);
    Then(s, WriteSteps(offset, bytes), m, [Change(r, true)] + Calls(3), e);
  }

  lemma TruncateEnds(s: Sys, size: nat)
    requires Inv(s) && Free(s) && Ready(s) && StateOf(s.disk) == InMigration
    ensures Enabled(s, AppTruncate(size))
    ensures var n := Next(s, AppTruncate(size));
            var e := Finished(n);
            && LeadsCleanly(n, Calls(|n.pending|), e) && Free(e)
            && e.disk.mark.None? && Tapes(e.disk) == [] && e.disk.data == e.logical
            && e == s.(disk := e.disk, logical := e.logical, pending := [], app := true, locked := true, clock := e.clock)
            && s.clock <= e.clock
  {
    var n := Next(s, AppTruncate(size));
    RunAll(n);
    assert Safe(s.disk, s.logical, s.recorded, s.tape);
    if |n.pending| == 1 {
      RunOfOne(n.disk, n.logical, n.recorded, n.tape, true, n.pending);
    } else {
      RunOfThree(n.disk, n.logical, n.recorded, n.tape, true, n.pending);
    }
  }

  /** An event that finds a file in migration does what it does to a resident one. */
  lemma EventEnds(s: Sys)
    requires Inv(s) && Free(s) && Ready(s) && StateOf(s.disk) == InMigration
    ensures Enabled(s, EventOnResident)
    ensures var n := Next(s, EventOnResident);
            var e := Finished(n);
            && LeadsCleanly(n, Calls(|n.pending|), e) && Free(e)
            && StateOf(e.disk) == Resident && e.disk.tapes == s.disk.tapes && e.disk.data == e.logical == s.logical
            && e.disk.mark.Some? && e.disk.mark.value.changed == s.clock + 1
            && e == s.(disk := e.disk, pending := [], app := false, locked := false, clock := e.clock)
            && s.clock < e.clock
  {
    var n := Next(s, EventOnResident);
    RunAll(n);
    assert Safe(s.disk, s.logical, s.recorded, s.tape);
    EventNext(s);
    RunOfTwo(n.disk, n.logical, n.recorded, n.tape, false, n.pending);
  }

  /** It takes the mark away, and keeps the invariant exactly if no replica has begun to copy. */
  lemma EventInMigrationKeepsIff(s: Sys)
    requires Inv(s) && Free(s) && Ready(s) && StateOf(s.disk) == InMigration && Enabled(s, EventOnResident)
    ensures Inv(Finished(Next(s, EventOnResident))) <==>
              forall i :: 0 <= i < |s.replicas| ==> s.replicas[i].phase != Copying && !s.replicas[i].listed
  {
    var e, rs := Finished(Next(s, EventOnResident)), s.replicas;
    EventEnds(s);
    if InTransfer(s.disk, s.logical, rs, s.tape) {
      forall i | 0 <= i < |rs| && rs[i].phase != Copying && !rs[i].listed ensures ReplicaOk(rs[i], e.disk, e.logical, s.tape) {
        assert ReplicaOk(rs[i], s.disk, s.logical, s.tape);
      }
      if forall i :: 0 <= i < |rs| ==> rs[i].phase != Copying && !rs[i].listed {
        assert InTransfer(e.disk, e.logical, rs, s.tape);
      } else if AllListed(rs) {
        assert ReplicaOk(rs[0], s.disk, s.logical, s.tape);
      }
    }
  }

  /** A truncation takes a file out of its migration while the replicas go on.  That keeps the invariant
      exactly if none of them has begun to copy, or all of them are finished. */
  lemma TruncateInMigrationKeepsIff(s: Sys, size: nat)
    requires Inv(s) && Free(s) && Ready(s) && StateOf(s.disk) == InMigration && Enabled(s, AppTruncate(size))
    ensures Inv(Finished(Next(s, AppTruncate(size)))) <==>
              AllListed(s.replicas)
              || forall i :: 0 <= i < |s.replicas| ==> s.replicas[i].phase != Copying && !s.replicas[i].listed
  {
    var e, rs := Finished(Next(s, AppTruncate(size))), s.replicas;
    TruncateEnds(s, size);
    if InTransfer(s.disk, s.logical, rs, s.tape) {
      forall i | 0 <= i < |rs| && rs[i].phase != Copying && !rs[i].listed ensures ReplicaOk(rs[i], e.disk, e.logical, s.tape) {
        assert ReplicaOk(rs[i], s.disk, s.logical, s.tape);
      }
      if forall i :: 0 <= i < |rs| ==> rs[i].phase != Copying && !rs[i].listed {
        CountListedNone(rs);
        assert InTransfer(e.disk, e.logical, rs, s.tape);
      }
    }
  }

  /** A write that waited for a recall lands without another look at the state.  On a file that was
      stubbed again meanwhile it is lost. */
  lemma LandingOnStubIsLost(s: Sys, i: nat)
    requires Inv(s) && Free(s) && StateOf(s.disk) == Migrated && i < |s.late| && s.late[i].LateWrite?
    ensures var run := [Land(i)] + [DoCall];
            && ValidRun(s, run)
            && var e := After(s, run);
               && StateOf(e.disk) == Migrated && e.logical == WriteAt(s.logical, s.late[i].offset, s.late[i].bytes)
               && Readable(e) == s.logical
  {
    var n := Next(s, Land(i));
    LandNext(s, i);
    One(s, Land(i));
    ThenOne(s, [Land(i)], n, DoCall);
    assert Tapes(Next(n, DoCall).disk) == Tapes(s.disk);
  }

  lemma NoTapeStart(s: Sys)
    requires Free(s) && StateOf(s.disk) == Premigrated && AllOver(s.replicas)
    ensures Enabled(s, ChangeNoTape(0)) && Clean(s, ChangeNoTape(0))
    ensures var n := Next(s, ChangeNoTape(0));
            && n.disk == s.disk && !n.app && n.logical == s.logical && |n.pending| == 3
            && ExecAll(s.disk, n.pending).data == [] && StateOf(ExecAll(s.disk, n.pending)) == Migrated
  {
    RunOfThree(s.disk, [], s.disk.times, map[], false, StubCalls(s.disk, s.clock + 1));
  }

  /** A read takes its bytes only after it has given the lock back.  If a premigrated file is stubbed in
      between, it finds an empty file. */
  lemma LateReadSeesNothing(s: Sys)
    requires Inv(s) && Free(s) && StateOf(s.disk) == Premigrated && AllOver(s.replicas)
    ensures var run := [ChangeNoTape(0)] + Calls(3);
            && ValidRun(s, run) && CleanRun(s, run)
            && var e := After(s, run);
               e.disk.data == [] && e.logical == s.logical && StateOf(e.disk) == Migrated
  {
    var n := Next(s, ChangeNoTape(0));
    NoTapeStart(s);
    One(s, ChangeNoTape(0));
    RunAll(n);
    Then(s, [ChangeNoTape(0)], n, Calls(3), Finished(n));
    FinalLogicalSystem(n.disk, n.logical, n.pending);
  }

  function DropSteps(size: nat): seq<Step> { [PathTruncate(size)] + Calls(2) }

  /** The path variant of truncate, up to where it gives its locks back */
  lemma DropRun(s: Sys, size: nat) returns (e: Sys)
    requires Free(s) && StateOf(s.disk) == Premigrated && s.disk.tapes.Some?
    ensures LeadsCleanly(s, DropSteps(size), e)
    ensures e == s.(disk := s.disk.(mark := None, tapes := None), app := true, locked := true, clock := e.clock,
                    late := s.late + [LateTruncate(size, false)])
    ensures s.clock <= e.clock
  {
    var n := Next(s, PathTruncate(size));
    One(s, PathTruncate(size));
    assert n.pending == [RemoveMark, RemoveTapes];
    RunAll(n);
    e := Finished(n);
    Then(s, [PathTruncate(size)], n, Calls(2), e);
    RunOfTwo(n.disk, n.logical, n.recorded, n.tape, true, n.pending);
  }

  /** ltfsdm_truncate truncates after it has given both locks back.  If the file goes through a whole
      migration in between, the truncation lands on the stub and the next recall brings back everything. */
  lemma TruncateAfterUnlockIsLost(s: Sys, size: nat, t: TapeId)
    requires Inv(s) && Free(s) && StateOf(s.disk) == Premigrated && AllOver(s.replicas) && s.logical != []
    ensures var clean := DropSteps(size) + OneReplicaSteps(t, |s.logical|, true);
            && ValidRun(s, clean) && CleanRun(s, clean)
            && var m := After(s, clean);
               && Enabled(m, Land(|s.late|)) && StateOf(m.disk) == Migrated
               && var e := Next(m, Land(|s.late|));
                  StateOf(e.disk) == Migrated && e.logical == Resize(s.logical, size) && Readable(e) == s.logical
  {
    var s1 := DropRun(s, size);
    var m := OneReplicaRun(s1, t, true);
    Then(s, DropSteps(size), s1, OneReplicaSteps(t, |s.logical|, true), m);
    LandsOnStub(m, |s.late|, size);
  }

  lemma LandsOnStub(s: Sys, i: nat, size: nat)
    requires Free(s) && StateOf(s.disk) == Migrated && i < |s.late| && s.late[i] == LateTruncate(size, false)
    ensures Enabled(s, Land(i))
    ensures var e := Next(s, Land(i));
            && StateOf(e.disk) == Migrated && Tapes(e.disk) == Tapes(s.disk) && e.tape == s.tape
            && e.logical == Resize(s.logical, size)
  {
    LandNext(s, i);
  }

  // ---------------------------------------------------------------- recovery from a state that is over

  function RecoverSteps(i: nat): seq<Step> { [Recover(i)] + Calls(2) }

  /** Recovery of a file in recall, decided on when that still was its state */
  lemma RecoverRun(s: Sys, i: nat) returns (e: Sys)
    requires Free(s) && i < |s.seen| && s.seen[i] == InRecall
    ensures Leads(s, RecoverSteps(i), e) && (Clean(s, Recover(i)) ==> LeadsCleanly(s, RecoverSteps(i), e))
    ensures StateOf(e.disk) == Migrated && e.disk.data == [] && e.disk.tapes == s.disk.tapes
    ensures StateOf(s.disk) != Resident ==>
              MarkedTimes(e.disk) == MarkedTimes(s.disk) && e.disk.mark.value.size == s.disk.mark.value.size
    ensures e == s.(disk := e.disk, seen := Without(s.seen, i), app := false, locked := false, clock := e.clock)
    ensures s.clock <= e.clock
  {
    var n := Next(s, Recover(i));
    One(s, Recover(i));
    RunAll(n);
    e := Finished(n);
    Then(s, [Recover(i)], n, Calls(2), e);
    RunOfTwo(n.disk, n.logical, n.recorded, n.tape, false, n.pending);
    FinalLogicalSystem(n.disk, n.logical, n.pending);
  }

  /** A whole recall that reads its tape in one piece; what it overtakes is left behind. */
  lemma WholeRecall(s: Sys) returns (e: Sys)
    requires Inv(s) && CanLock(s) && StateOf(s.disk) == Migrated
    ensures Leads(s, [Recall([s.logical], true)] + Calls(6), e)
    ensures Free(s) ==> LeadsCleanly(s, [Recall([s.logical], true)] + Calls(6), e)
    ensures e.disk.data == s.logical && e.disk.mark.None? && e.disk.tapes.None?
    ensures Free(e) && e.logical == s.logical && e.seen == s.seen && e.tape == s.tape
    ensures e.late == if Free(s) then s.late else s.late + [LateCalls(s.pending)]
  {
    var step := Recall([s.logical], true);
    var p := RecallCalls(s.disk, [s.logical], true, s.clock + 1);
    assert Flatten([s.logical]) == s.logical + Flatten([]) == s.logical;
    RecallSafe(s.disk, s.logical, s.recorded, s.tape, [s.logical], true, s.clock + 1);
    OneChunk(s.logical, s.clock + 1);
    var n := Next(s, step);
    assert n.pending == p && |p| == 6;
    One(s, step);
    RunAll(n);
    e := Finished(n);
    Then(s, [step], n, Calls(6), e);
    FinalLogicalSystem(n.disk, n.logical, n.pending);
  }

  lemma OneChunk(bytes: Bytes, now: nat)
    ensures ChunkCalls(0, [bytes], now) == [Write(0, bytes, now)]
  {
    assert [bytes][1..] == [];
  }

  function LookSteps(): seq<Step> { [See] + [See] }

  /** Two users look at a file whose recall was cut by a crash. */
  lemma LookRun(s: Sys) returns (e: Sys)
    requires Inv(s) && Free(s) && StateOf(s.disk) == InRecall && NeedsRecovery(s.disk, s.start)
    ensures LeadsCleanly(s, LookSteps(), e) && Inv(e)
    ensures e == s.(seen := s.seen + [InRecall] + [InRecall], clock := e.clock)
  {
    var m := Next(s, See);
    One(s, See);
    ThenOne(s, [See], m, See);
    e := Next(m, See);
    CleanRunsKeep(s, LookSteps());
  }

  function BackSteps(i: nat, l: Bytes): seq<Step> { RecoverSteps(i) + ([Recall([l], true)] + Calls(6)) }

  /** The first recovery, and a recall */
  lemma BackRun(s: Sys, i: nat) returns (e: Sys)
    requires Inv(s) && Free(s) && StateOf(s.disk) == InRecall && NeedsRecovery(s.disk, s.start)
    requires i < |s.seen| && s.seen[i] == InRecall
    ensures LeadsCleanly(s, BackSteps(i, s.logical), e)
    ensures e.disk.data == s.logical && e.disk.mark.None? && e.disk.tapes.None?
    ensures Free(e) && e.logical == s.logical && e.seen == Without(s.seen, i)
  {
    var m := RecoverRun(s, i);
    CleanRunsKeep(s, RecoverSteps(i));
    e := WholeRecall(m);
    Then(s, RecoverSteps(i), m, [Recall([s.logical], true)] + Calls(6), e);
  }

  /** Two users look at a file whose recall was cut by a crash, and both decide to recover it.  The first
      recovery and a recall put the file back; the second recovery then empties it and marks it migrated,
      without any tape to recall it from. */
  lemma StaleRecoveryLosesData(s: Sys)
    requires Inv(s) && Free(s) && StateOf(s.disk) == InRecall && NeedsRecovery(s.disk, s.start)
    ensures var i := |s.seen|;
            var clean := LookSteps() + BackSteps(i, s.logical);
            && ValidRun(s, clean) && CleanRun(s, clean)
            && var m := After(s, clean);
               && m.disk.data == m.logical == s.logical && ValidRun(m, RecoverSteps(i))
               && var e := After(m, RecoverSteps(i));
                  StateOf(e.disk) == Migrated && Tapes(e.disk) == [] && e.disk.data == [] && e.logical == s.logical
  {
    var s1 := LookRun(s);
    var m := BackRun(s1, |s.seen|);
    Then(s, LookSteps(), s1, BackSteps(|s.seen|, s.logical), m);
    var e := RecoverRun(m, |s.seen|);
  }

  function HalfSteps(i: nat): seq<Step> { [See] + [Recover(i)] + [DoCall] }

  /** A recovery of which only the first call was made */
  lemma HalfRecovery(s: Sys) returns (e: Sys)
    requires Inv(s) && Free(s) && StateOf(s.disk) == InRecall && NeedsRecovery(s.disk, s.start)
    ensures LeadsCleanly(s, HalfSteps(|s.seen|), e)
    ensures StateOf(e.disk) == Migrated && CanLock(e) && e.logical == s.logical && e.late == s.late
    ensures |e.pending| == 1 && e.pending[0].Truncate? && e.pending[0].size == 0
  {
    var i := |s.seen|;
    var m := Next(s, See);
    One(s, See);
    ThenOne(s, [See], m, Recover(i));
    RecoverNext(m, i);
    var n := Next(m, Recover(i));
    ThenOne(s, [See] + [Recover(i)], n, DoCall);
    e := Next(n, DoCall);
  }

  /** What the overtaken recovery has still to do */
  lemma LateTruncation(s: Sys, i: nat)
    requires i < |s.late| && s.late[i].LateCalls? && |s.late[i].calls| == 1 && StateOf(s.disk) == Resident
    requires s.late[i].calls[0].Truncate? && s.late[i].calls[0].size == 0
    ensures Enabled(s, Land(i))
    ensures var e := Next(s, Land(i));
            StateOf(e.disk) == Resident && e.disk.data == [] && e.logical == s.logical
  {
  }

  /** Recovery has no lock: a recall of the file that it has just marked may overtake its second call.  When
      that comes it empties the file that was recalled. */
  lemma OvertakenRecoveryLosesData(s: Sys)
    requires Inv(s) && Free(s) && StateOf(s.disk) == InRecall && NeedsRecovery(s.disk, s.start)
    ensures var run := HalfSteps(|s.seen|) + ([Recall([s.logical], true)] + Calls(6));
            && ValidRun(s, run)
            && var m := After(s, run);
               && m.disk.data == m.logical == s.logical && Enabled(m, Land(|s.late|))
               && var e := Next(m, Land(|s.late|));
                  StateOf(e.disk) == Resident && e.disk.data == [] && e.logical == s.logical
  {
    var h := HalfRecovery(s);
    CleanRunsKeep(s, HalfSteps(|s.seen|));
    var m := WholeRecall(h);
    Then(s, HalfSteps(|s.seen|), h, [Recall([s.logical], true)] + Calls(6), m);
    LateTruncation(m, |s.late|);
  }
}
