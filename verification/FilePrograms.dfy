/** The programs of `FileAttributes` can be cut anywhere: each is safe before and after every call. */
module FilePrograms {
  import opened Wrappers
  import opened FileAttributes
  import opened FileSafety
  import opened FileSteps

  /** Entering a program keeps the invariant if the program is safe and ends well. */
  lemma EnterKeeps(s: Sys, program: seq<Call>, app: bool)
    requires Inv(s) && Free(s)
    requires SafeRun(s.disk, s.logical, s.recorded, s.tape, app, program)
    requires ReplicasOk(ExecAll(s.disk, program), FinalLogical(s.disk, s.logical, app, program), s.replicas, s.tape)
    requires MarksOnTape(program) ==> AllListed(s.replicas)
    requires program != [] ==> NobodyCopies(s.replicas)
    requires MarksOfRun(program, s.start, s.clock + 1)
    requires StubbingNeedsRecovery(ExecAll(s.disk, program), s.start)
    ensures Inv(Enter(s.(clock := s.clock + 1), program, app))
    ensures !app ==> Inv(EnterUnlocked(s.(clock := s.clock + 1), program))
  {
  }

  lemma RunOfOne(d: Disk, l: Bytes, rec: Times, tape: map<TapeId, Copy>, app: bool, p: seq<Call>)
    requires |p| == 1
    ensures var d1, l1 := Exec(d, p[0]), EffectIf(app, p[0], d, l);
            && (SafeRun(d, l, rec, tape, app, p) <==> Safe(d, l, rec, tape) && Safe(d1, l1, rec, tape))
            && ExecAll(d, p) == d1 && FinalLogical(d, l, app, p) == l1
  {
    assert p[1..] == [];
  }

  lemma RunOfTwo(d: Disk, l: Bytes, rec: Times, tape: map<TapeId, Copy>, app: bool, p: seq<Call>)
    requires |p| == 2
    ensures var d1, l1 := Exec(d, p[0]), EffectIf(app, p[0], d, l);
            var d2, l2 := Exec(d1, p[1]), EffectIf(app, p[1], d1, l1);
            && (SafeRun(d, l, rec, tape, app, p) <==>
                Safe(d, l, rec, tape) && Safe(d1, l1, rec, tape) && Safe(d2, l2, rec, tape))
            && ExecAll(d, p) == d2 && FinalLogical(d, l, app, p) == l2
  {
    RunOfOne(Exec(d, p[0]), EffectIf(app, p[0], d, l), rec, tape, app, p[1..]);
  }

  lemma RunOfThree(d: Disk, l: Bytes, rec: Times, tape: map<TapeId, Copy>, app: bool, p: seq<Call>)
    requires |p| == 3
    ensures var d1, l1 := Exec(d, p[0]), EffectIf(app, p[0], d, l);
            var d2, l2 := Exec(d1, p[1]), EffectIf(app, p[1], d1, l1);
            var d3, l3 := Exec(d2, p[2]), EffectIf(app, p[2], d2, l2);
            && (SafeRun(d, l, rec, tape, app, p) <==>
                Safe(d, l, rec, tape) && Safe(d1, l1, rec, tape) && Safe(d2, l2, rec, tape) && Safe(d3, l3, rec, tape))
            && ExecAll(d, p) == d3 && FinalLogical(d, l, app, p) == l3
  {
    RunOfTwo(Exec(d, p[0]), EffectIf(app, p[0], d, l), rec, tape, app, p[1..]);
  }

  // ---------------------------------------------------------------- recovery

  /** recoverState: safe at every point, and it leaves no transient state. */
  lemma RecoverSafe(d: Disk, l: Bytes, rec: Times, tape: map<TapeId, Copy>, now: nat)
    requires Safe(d, l, rec, tape) && Transient(StateOf(d))
    ensures SafeRun(d, l, rec, tape, false, RecoverCalls(d, now))
    ensures !Transient(StateOf(ExecAll(d, RecoverCalls(d, now))))
    ensures GetMigState(d) == IsResident ==> ExecAll(d, RecoverCalls(d, now)) == d.(mark := None, tapes := None)
  {
    RunOfTwo(d, l, rec, tape, false, RecoverCalls(d, now));
  }

  lemma RecoverKeeps(s: Sys, i: nat)
    requires Inv(s) && Enabled(s, Recover(i)) && Clean(s, Recover(i))
    ensures Inv(Next(s, Recover(i)))
  {
    var now := s.clock + 1;
    RecoverSafe(s.disk, s.logical, s.recorded, s.tape, now);
    FinalLogicalSystem(s.disk, s.logical, RecoverCalls(s.disk, now));
    EnterKeeps(s, RecoverCalls(s.disk, now), false);
    RecoverNext(s, i);
  }

  lemma RecoverNext(s: Sys, i: nat)
    requires Enabled(s, Recover(i)) && Free(s) && s.seen[i] == StateOf(s.disk)
    ensures Next(s, Recover(i))
         == EnterUnlocked(s.(clock := s.clock + 1), RecoverCalls(s.disk, s.clock + 1)).(seen := Without(s.seen, i))
  {
  }

  /** A recovery that is itself cut by a crash after `k` calls and started again ends where one
      undisturbed recovery ends.  Only a stub that was marked migrated and not yet emptied keeps the bytes
      that it had: it needs no second recovery. */
  lemma RecoverTwice(d: Disk, now: nat, later: nat, k: nat)
    requires Transient(StateOf(d)) && k <= |RecoverCalls(d, now)|
    ensures var once := ExecAll(d, RecoverCalls(d, now));
            var cut := ExecAll(d, RecoverCalls(d, now)[..k]);
            var twice := if Transient(StateOf(cut)) then ExecAll(cut, RecoverCalls(cut, later)) else cut;
            && StateOf(twice) == StateOf(once) && !Transient(StateOf(twice)) && twice.tapes == once.tapes
            && StatSize(twice) == StatSize(once) && MarkedTimes(twice) == MarkedTimes(once)
            && (GetMigState(d) == IsResident ==> twice == once)
            && twice.data == if GetMigState(d) != IsResident && k == 1 then d.data else once.data
  {
    var p, any := RecoverCalls(d, now), map[];
    RunOfTwo(d, [], d.times, any, false, p);
    assert p[..0] == [] && p[..2] == p;
    if k == 1 { RunOfOne(d, [], d.times, any, false, p[..1]); }
    var cut := ExecAll(d, p[..k]);
    if Transient(StateOf(cut)) { RunOfTwo(cut, [], d.times, any, false, RecoverCalls(cut, later)); }
  }

  // ---------------------------------------------------------------- state changes

  lemma StubSafe(d: Disk, l: Bytes, rec: Times, tape: map<TapeId, Copy>, now: nat)
    requires Safe(d, l, rec, tape) && Recorded(d, l, rec) && Backed(d, l, tape)
    requires StateOf(d) == InMigration || StateOf(d) == Premigrated || StateOf(d) == Stubbing
    ensures SafeRun(d, l, rec, tape, false, StubCalls(d, now))
    ensures StateOf(ExecAll(d, StubCalls(d, now))) == Migrated
  {
    var p := StubCalls(d, now);
    RunOfThree(d, l, rec, tape, false, p);
    var d1 := Exec(d, p[0]);
    assert forall e: Disk :: e.tapes == d.tapes ==> Backed(e, l, tape);
    assert Resize(d1.data, 0) == [];
  }

  /** The whole of changeFileState on a file that has its copies. */
  lemma ChangeSafe(d: Disk, l: Bytes, rec: Times, tape: map<TapeId, Copy>, numRepl: nat, toMigrated: bool, now: nat)
    requires Safe(d, l, rec, tape)
    requires ChangeCalls(d, numRepl, toMigrated, now) != [] ==> StateOf(d) != Resident && Backed(d, l, tape)
    ensures SafeRun(d, l, rec, tape, false, ChangeCalls(d, numRepl, toMigrated, now))
    ensures ChangeCalls(d, numRepl, toMigrated, now) != []
            ==> StateOf(ExecAll(d, ChangeCalls(d, numRepl, toMigrated, now))) == if toMigrated then Migrated else Premigrated
  {
    var p := ChangeCalls(d, numRepl, toMigrated, now);
    if p != [] {
      if toMigrated {
        StubSafe(d, l, rec, tape, now);
      } else {
        RunOfOne(d, l, rec, tape, false, p);
        assert Tapes(Exec(d, p[0])) == Tapes(d) && Backed(Exec(d, p[0]), l, tape);
      }
    }
  }

  lemma ChangeEntry(s: Sys, numRepl: nat, toMigrated: bool)
    requires Inv(s) && Free(s)
    requires ChangeCalls(s.disk, numRepl, toMigrated, s.clock + 1) != []
             ==> StateOf(s.disk) != Resident && Backed(s.disk, s.logical, s.tape) && AllListed(s.replicas)
    ensures Inv(Enter(s.(clock := s.clock + 1), ChangeCalls(s.disk, numRepl, toMigrated, s.clock + 1), false))
  {
    var p := ChangeCalls(s.disk, numRepl, toMigrated, s.clock + 1);
    ChangeSafe(s.disk, s.logical, s.recorded, s.tape, numRepl, toMigrated, s.clock + 1);
    FinalLogicalSystem(s.disk, s.logical, p);
    EnterKeeps(s, p, false);
  }

  /** When a replica that synced its tape finds the tape list complete, all replicas were copied and
      the tape it has just synced is one of the listed ones. */
  lemma ListComplete(s: Sys, r: nat)
    requires Inv(s) && Free(s) && MayChange(s, r) && |Tapes(s.disk)| == |s.replicas|
    ensures StateOf(s.disk) != Resident && Backed(s.disk, s.logical, s.tape) && AllListed(s.replicas)
  {
    var d, l := s.disk, s.logical;
    if InTransfer(d, l, s.replicas, s.tape) {
      assert ReplicaOk(s.replicas[r], d, l, s.tape);
      CountListedSome(s.replicas, r);
      assert Exact(d, s.replicas);
      forall i | 0 <= i < |s.replicas| ensures ReplicaOk(s.replicas[i], d, l, s.tape) && s.replicas[i].listed {
        CountListedAll(s.replicas, i);
      }
      assert ListedBy(s.replicas, Tapes(d)[0]);
      assert s.replicas[r].tape in Tapes(d) && s.tape[s.replicas[r].tape].synced;
    } else {
      assert OnTape(StateOf(d));
    }
  }

  lemma ChangeNext(s: Sys, r: nat, m: Sys, toMigrated: bool)
    requires Enabled(s, Change(r, toMigrated)) && Free(s) && m == WithPhase(s, r, Over)
    ensures Next(s, Change(r, toMigrated))
         == Enter(m.(clock := m.clock + 1), ChangeCalls(m.disk, |s.replicas|, toMigrated, m.clock + 1), false)
  {
  }

  /** A state change that does anything finds the copies in order. */
  ghost predicate MayEnterChange(s: Sys, numRepl: nat, toMigrated: bool) {
    && Inv(s) && Free(s)
    && (ChangeCalls(s.disk, numRepl, toMigrated, s.clock + 1) != [] ==>
          StateOf(s.disk) != Resident && Backed(s.disk, s.logical, s.tape) && AllListed(s.replicas))
  }

  lemma ChangeReady(s: Sys, r: nat, toMigrated: bool)
    requires Inv(s) && Enabled(s, Change(r, toMigrated)) && Free(s)
    ensures MayEnterChange(WithPhase(s, r, Over), |s.replicas|, toMigrated)
  {
    LeaveKeeps(s, r, Over);
    if ChangeCalls(s.disk, |s.replicas|, toMigrated, s.clock + 1) != [] { ListComplete(s, r); }
  }

  lemma ChangeLands(s: Sys, m: Sys, r: nat, toMigrated: bool)
    requires Enabled(s, Change(r, toMigrated)) && Free(s)
    requires m == WithPhase(s, r, Over) && MayEnterChange(m, |s.replicas|, toMigrated)
    ensures Inv(Next(s, Change(r, toMigrated)))
  {
    ChangeEntry(m, |s.replicas|, toMigrated);
    ChangeNext(s, r, m, toMigrated);
  }

  lemma ChangeKeeps(s: Sys, r: nat, toMigrated: bool)
    requires Inv(s) && Enabled(s, Change(r, toMigrated)) && Free(s)
    ensures Inv(Next(s, Change(r, toMigrated)))
  {
    ChangeReady(s, r, toMigrated);
    ChangeLands(s, WithPhase(s, r, Over), r, toMigrated);
  }

  lemma ChangeNoTapeNext(s: Sys, numRepl: nat)
    requires Enabled(s, ChangeNoTape(numRepl))
    ensures Next(s, ChangeNoTape(numRepl))
         == Enter(s.(clock := s.clock + 1), ChangeCalls(s.disk, numRepl, true, s.clock + 1), false)
  {
  }

  lemma ChangeNoTapeKeeps(s: Sys, numRepl: nat)
    requires Inv(s) && Enabled(s, ChangeNoTape(numRepl)) && Clean(s, ChangeNoTape(numRepl))
    ensures Inv(Next(s, ChangeNoTape(numRepl)))
  {
    ChangeEntry(s, numRepl, true);
    ChangeNoTapeNext(s, numRepl);
  }

  // ---------------------------------------------------------------- application

  predicate ChangesBytes(c: Call) { c.Write? || c.Truncate? }

  /** What an application's program looks like: it works on a file that is on disk, or it first drops
      both attributes. */
  predicate AppProgram(d: Disk, p: seq<Call>) {
    || p == []
    || (|p| == 1 && StateOf(d) == Resident && ChangesBytes(p[0]))
    || (|p| == 1 && d.tapes.None? && p[0].RemoveMark?)
    || (|p| == 2 && p[0].RemoveMark? && p[1].RemoveTapes?)
    || (|p| == 3 && p[0].RemoveMark? && p[1].RemoveTapes? && ChangesBytes(p[2]))
  }

  /** A program of an application, and for the path variant of truncate the part under the lock */
  lemma AppKeeps(s: Sys, p: seq<Call>)
    requires Inv(s) && Free(s) && !NeedsRecovery(s.disk, s.start)
    requires StateOf(s.disk) != InMigration && AppProgram(s.disk, p)
    requires p != [] && MustRecall(s.disk) ==> s.disk.data == []
    ensures Inv(Enter(s.(clock := s.clock + 1), p, true))
  {
    AppSafe(s, p);
    AppReplicas(s, ExecAll(s.disk, p), FinalLogical(s.disk, s.logical, true, p));
    EnterKeeps(s, p, true);
  }

  lemma AppSafe(s: Sys, p: seq<Call>)
    requires Inv(s) && Free(s) && !NeedsRecovery(s.disk, s.start)
    requires StateOf(s.disk) != InMigration && AppProgram(s.disk, p)
    requires p != [] && MustRecall(s.disk) ==> s.disk.data == []
    ensures SafeRun(s.disk, s.logical, s.recorded, s.tape, true, p)
    ensures var d := ExecAll(s.disk, p);
            || p == []
            || (StateOf(d) == Resident && (d.tapes == s.disk.tapes || d.tapes.None?)
                && (OnTape(StateOf(s.disk)) ==> d.tapes.None?))
  {
    if |p| == 1 {
      RunOfOne(s.disk, s.logical, s.recorded, s.tape, true, p);
    } else if |p| == 2 {
      RunOfTwo(s.disk, s.logical, s.recorded, s.tape, true, p);
    } else if |p| == 3 {
      RunOfThree(s.disk, s.logical, s.recorded, s.tape, true, p);
    }
  }

  lemma AppReplicas(s: Sys, d: Disk, l: Bytes)
    requires Inv(s) && Free(s) && !NeedsRecovery(s.disk, s.start) && StateOf(s.disk) != InMigration
    requires || (d == s.disk && l == s.logical)
             || (StateOf(d) == Resident && (d.tapes == s.disk.tapes || d.tapes.None?)
                 && (OnTape(StateOf(s.disk)) ==> d.tapes.None?))
    ensures ReplicasOk(d, l, s.replicas, s.tape) && NobodyCopies(s.replicas)
  {
    var rs := s.replicas;
    if InTransfer(s.disk, s.logical, rs, s.tape) {
      forall i | 0 <= i < |rs| ensures ReplicaOk(rs[i], d, l, s.tape) && !rs[i].listed && rs[i].phase != Copying {
        assert ReplicaOk(rs[i], s.disk, s.logical, s.tape);
      }
      CountListedNone(rs);
      assert InTransfer(d, l, rs, s.tape);
    }
  }

  lemma LaterKeeps(s: Sys, l: Late)
    requires Inv(s)
    ensures Inv(Later(s, l)) && Inv(Later(s.(clock := s.clock + 1), l))
  {
  }

  lemma AppWriteNext(s: Sys, offset: nat, bytes: Bytes)
    requires Enabled(s, AppWrite(offset, bytes)) && (StateOf(s.disk) == Resident || StateOf(s.disk) == Premigrated)
    ensures var p := WriteCalls(s.disk, offset, bytes, s.clock + 1);
            Next(s, AppWrite(offset, bytes)) == Enter(s.(clock := s.clock + 1), p, true) && AppProgram(s.disk, p)
  {
  }

  lemma AppWriteKeeps(s: Sys, offset: nat, bytes: Bytes)
    requires Inv(s) && Enabled(s, AppWrite(offset, bytes)) && Clean(s, AppWrite(offset, bytes))
    ensures Inv(Next(s, AppWrite(offset, bytes)))
  {
    if MustRecall(s.disk) {
      LaterKeeps(s, LateWrite(offset, bytes));
    } else {
      AppWriteNext(s, offset, bytes);
      AppKeeps(s, WriteCalls(s.disk, offset, bytes, s.clock + 1));
    }
  }

  lemma AppTruncateNext(s: Sys, size: nat)
    requires Enabled(s, AppTruncate(size)) && StateOf(s.disk) != InMigration && (size > 0 ==> !MustRecall(s.disk))
    ensures var p := TruncateCalls(s.disk, size, s.clock + 1);
            && Next(s, AppTruncate(size)) == Enter(s.(clock := s.clock + 1), p, true)
            && AppProgram(s.disk, p)
  {
  }

  lemma AppTruncateKeeps(s: Sys, size: nat)
    requires Inv(s) && Enabled(s, AppTruncate(size)) && Clean(s, AppTruncate(size))
    ensures Inv(Next(s, AppTruncate(size)))
  {
    if size > 0 && MustRecall(s.disk) {
      LaterKeeps(s, LateTruncate(size, true));
    } else {
      AppTruncateNext(s, size);
      AppKeeps(s, TruncateCalls(s.disk, size, s.clock + 1));
    }
  }

  lemma PathTruncateKeeps(s: Sys, size: nat)
    requires Inv(s) && Enabled(s, PathTruncate(size)) && Clean(s, PathTruncate(size))
    ensures Inv(Next(s, PathTruncate(size)))
  {
    var l := LateTruncate(size, false);
    if size > 0 && MustRecall(s.disk) {
      LaterKeeps(s, l);
    } else {
      AppKeeps(s, DropCalls(s.disk));
      LaterKeeps(Enter(s.(clock := s.clock + 1), DropCalls(s.disk), true), l);
    }
  }

  lemma WithoutKeeps(s: Sys, i: nat)
    requires Inv(s) && i < |s.late|
    ensures Inv(s.(late := Without(s.late, i)))
  {
  }

  lemma CallKeeps(s: Sys, c: Call)
    requires Inv(s) && Free(s) && StateOf(s.disk) == Resident && ChangesBytes(c)
    ensures Inv(Enter(s.(clock := s.clock + 1), [c], true))
  {
    AppKeeps(s, [c]);
  }

  /** Running one call in the same step makes no difference. */
  lemma TruncateAtOnce(s: Sys, n: nat)
    requires Inv(s) && Free(s) && StateOf(s.disk) == Resident
    ensures Inv(s.(clock := s.clock + 1, disk := Exec(s.disk, Truncate(n, s.clock + 1)), logical := Resize(s.logical, n)))
  {
    CallKeeps(s, Truncate(n, s.clock + 1));
    DoCallKeeps(Enter(s.(clock := s.clock + 1), [Truncate(n, s.clock + 1)], true));
  }

  function LandedCall(l: Late, now: nat): Call
    requires !l.LateCalls?
  {
    match l
    case LateWrite(o, b) => Write(o, b, now)
    case LateTruncate(n, _) => Truncate(n, now)
  }

  predicate AtOnce(l: Late) { l.LateTruncate? && !l.underLock }

  lemma LandNext(s: Sys, i: nat)
    requires Enabled(s, Land(i)) && !s.late[i].LateCalls?
    ensures var m, c := s.(late := Without(s.late, i)), LandedCall(s.late[i], s.clock + 1);
            Next(s, Land(i)) ==
              if AtOnce(s.late[i]) then
                m.(clock := m.clock + 1, disk := Exec(m.disk, c), logical := Resize(m.logical, c.size))
              else Enter(m.(clock := m.clock + 1), [c], true)
  {
  }

  lemma LandReady(s: Sys, i: nat)
    requires Inv(s) && Enabled(s, Land(i)) && Clean(s, Land(i))
    ensures var m := s.(late := Without(s.late, i));
            Inv(Enter(m.(clock := m.clock + 1), [LandedCall(s.late[i], m.clock + 1)], true))
  {
    WithoutKeeps(s, i);
    CallKeeps(s.(late := Without(s.late, i)), LandedCall(s.late[i], s.clock + 1));
  }

  lemma AtOnceKeeps(s: Sys, i: nat)
    requires Inv(s) && Enabled(s, Land(i)) && Clean(s, Land(i)) && AtOnce(s.late[i])
    ensures Inv(Next(s, Land(i)))
  {
    WithoutKeeps(s, i);
    TruncateAtOnce(s.(late := Without(s.late, i)), s.late[i].size);
    LandNext(s, i);
  }

  /** Landing where the file is resident; a truncation without the lock is one call and over. */
  lemma LandKeeps(s: Sys, i: nat)
    requires Inv(s) && Enabled(s, Land(i)) && Clean(s, Land(i))
    ensures Inv(Next(s, Land(i)))
  {
    if AtOnce(s.late[i]) {
      AtOnceKeeps(s, i);
    } else {
      LandReady(s, i);
      LandNext(s, i);
    }
  }

  // ---------------------------------------------------------------- an event for a resident file

  lemma EventNext(s: Sys)
    requires Enabled(s, EventOnResident)
    ensures Next(s, EventOnResident)
         == EnterUnlocked(s.(clock := s.clock + 1), FinishRecallCalls(s.disk, true, s.clock + 1))
  {
  }

  lemma EventOnResidentKeeps(s: Sys)
    requires Inv(s) && Enabled(s, EventOnResident) && Clean(s, EventOnResident)
    ensures Inv(Next(s, EventOnResident))
  {
    var p := FinishRecallCalls(s.disk, true, s.clock + 1);
    RunOfTwo(s.disk, s.logical, s.recorded, s.tape, false, p);
    AppReplicas(s, ExecAll(s.disk, p), s.logical);
    FinalLogicalSystem(s.disk, s.logical, p);
    EnterKeeps(s, p, false);
    EventNext(s);
  }
}
