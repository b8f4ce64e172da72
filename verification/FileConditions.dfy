/** When exactly a call that does not check what it relies on is safe. */
module FileConditions {
  import opened FileAttributes
  import opened FileSafety
  import opened FileSteps
  import opened FilePrograms
  import opened FileRuns
  import opened FileGuarantees

  // ---------------------------------------------------------------- the system

  /** preparePremigration does not look at the state.  It is safe exactly when the disk still has all
      bytes of the file: on every resident or premigrated file, and on a stub only if the stub is complete. */
  lemma PrepareSafeIff(d: Disk, l: Bytes, rec: Times, tape: map<TapeId, Copy>, now: nat)
    requires Safe(d, l, rec, tape)
    ensures var m := MarkFor(d, InMigration, now);
            Safe(Exec(d, SetMark(m)), l, m.times, tape) <==> (StateOf(d) == Resident || |d.data| == d.mark.value.size)
  {
    if OnTape(StateOf(d)) && |d.data| == |l| { assert d.data <= l ==> d.data == l; }
  }

  /** changeFileState without replica count (premigrated files, no pool given) does not look whether the
      file still is premigrated.  On a file without tape list it is safe exactly when it does not report
      resident. */
  lemma ChangeWithoutCountSafeIff(d: Disk, l: Bytes, rec: Times, tape: map<TapeId, Copy>, now: nat)
    requires Safe(d, l, rec, tape) && (GetMigState(d) == IsResident ==> Tapes(d) == [])
    ensures SafeRun(d, l, MarkFor(d, Stubbing, now).times, tape, false, ChangeCalls(d, 0, true, now))
            <==> GetMigState(d) != IsResident
  {
    var p := ChangeCalls(d, 0, true, now);
    if GetMigState(d) == IsResident {
      RunOfThree(d, l, MarkFor(d, Stubbing, now).times, tape, false, p);
      assert Tapes(Exec(d, p[0])) == [];
    } else {
      ChangeSafe(d, l, rec, tape, 0, true, now);
    }
  }

  /** A crash finds a stub with an unsynced first copy: whatever may be left of unsynced copies, the
      file is readable afterwards exactly when the first listed tape was synced. */
  lemma CrashOfStubSafeIff(s: Sys)
    requires Inv(s) && (StateOf(s.disk) == Migrated || StateOf(s.disk) == InRecall || StateOf(s.disk) == Stubbing)
    requires s.logical != []
    ensures (forall lost: map<TapeId, Copy> :: Readable(Next(s, Crash(lost))) == s.logical)
            <==> FirstTapeSynced(s.disk, s.tape)
  {
    if FirstTapeSynced(s.disk, s.tape) {
      forall lost: map<TapeId, Copy> ensures Readable(Next(s, Crash(lost))) == s.logical {
        CrashKeeps(s, lost);
        ReadableIsLogical(Next(s, Crash(lost)));
      }
    } else {
      CrashCanEmptyStub(s);
    }
  }

  lemma CrashCanEmptyStub(s: Sys)
    requires StateOf(s.disk) == Migrated || StateOf(s.disk) == InRecall || StateOf(s.disk) == Stubbing
    requires Tapes(s.disk) != [] && !FirstTapeSynced(s.disk, s.tape)
    ensures Readable(Next(s, Crash(map[Tapes(s.disk)[0] := Copy([], false)]))) == []
  {
    var e := Next(s, Crash(map[Tapes(s.disk)[0] := Copy([], false)]));
    assert e.disk == s.disk && e.tape[Tapes(s.disk)[0]].data == [];
    if Transient(StateOf(e.disk)) {
      RunOfTwo(e.disk, s.logical, s.recorded, e.tape, false, RecoverCalls(e.disk, e.clock));
    }
  }

  /** getattr recovers from the state that it has read, without the lock.  If that was the state of a
      migration it is safe exactly while the file is not on tape, else exactly while it still is, or while
      its tape list names a good copy.  Without a tape list the state of the file decides. */
  lemma StaleRecoverySafeIff(st: MigState, d: Disk, l: Bytes, rec: Times, tape: map<TapeId, Copy>, now: nat)
    requires Safe(d, l, rec, tape) && Transient(st)
    ensures SafeRun(d, l, MarkFor(d, Migrated, now).times, tape, false, RecoverCallsOf(st, d, now))
            <==> if st == InMigration then !OnTape(StateOf(d)) else OnTape(StateOf(d)) || Backed(d, l, tape)
    ensures Tapes(d) == [] ==>
            (SafeRun(d, l, MarkFor(d, Migrated, now).times, tape, false, RecoverCallsOf(st, d, now)) <==> st == InMigration)
  {
    var p, times := RecoverCallsOf(st, d, now), MarkFor(d, Migrated, now).times;
    RunOfTwo(d, l, times, tape, false, p);
    var d1 := Exec(d, p[0]);
    var d2 := Exec(d1, p[1]);
    if st == InMigration {
      assert Tapes(d1) == [];
    } else {
      assert Tapes(d1) == Tapes(d) && Tapes(d2) == Tapes(d) && d2.data == [];
      assert Backed(d1, l, tape) <==> Backed(d, l, tape);
    }
  }

  /** The disk has as many bytes as the file. */
  predicate WholeOnDisk(d: Disk) { |d.data| == StatSize(d) }

  /** A call that the system decided on earlier and that is made late, without the lock.  A mark for a stub
      is harmless exactly if it says what the mark of a file on tape says, or describes the file on disk and
      the tape list names a good copy. */
  lemma OvertakenCallSafeIff(d: Disk, l: Bytes, rec: Times, tape: map<TapeId, Copy>, c: Call)
    requires Safe(d, l, rec, tape) && !c.Write? && !c.SetTapes? && (c.Truncate? ==> c.size == 0)
    requires c.SetMark? ==> c.mark.state == Resident || c.mark.state == Migrated
    ensures Safe(Exec(d, c), l, rec, tape) <==>
              match c
              case SetMark(m) =>
                if m.state == Resident then WholeOnDisk(d)
                else if OnTape(StateOf(d)) then m.size == d.mark.value.size && m.times == d.mark.value.times
                else m.size == |d.data| && m.times == rec && Backed(d, l, tape)
              case RemoveMark => WholeOnDisk(d)
              case RemoveTapes => !OnTape(StateOf(d))
              case Truncate(_, _) => StatSize(d) == 0 || (OnTape(StateOf(d)) && StateOf(d) != Premigrated)
              case _ => true
  {
    var e := Exec(d, c);
    assert d.data <= l && StatSize(d) == |l|;
    if c.RemoveTapes? {
      assert Tapes(e) == [];
    } else {
      assert Tapes(e) == Tapes(d) && (Backed(e, l, tape) <==> Backed(d, l, tape));
    }
  }

  /** An event for a resident file runs finishRecall on it.  Contents stay, the times become those of the
      attribute, the epoch if there is none, and the state attribute that it sets makes the next truncation
      fail exactly if there is no tape list. */
  lemma EventOnResidentFile(d: Disk, now: nat)
    requires StateOf(d) == Resident
    ensures var e := ExecAll(d, FinishRecallCalls(d, true, now));
            && StateOf(e) == Resident && e.data == d.data && e.tapes == d.tapes
            && e.times == (if d.mark.None? then EPOCH else d.mark.value.times)
            && (DropFails(e) <==> d.tapes.None?)
  {
    RunOfTwo(d, d.data, d.times, map[], false, FinishRecallCalls(d, true, now));
  }

  // ---------------------------------------------------------------- the application

  /** From the end of what is on disk up to `end` the file has only zeros, as a hole would read. */
  predicate ZerosBefore(d: Disk, l: Bytes, end: nat) {
    forall i :: |d.data| <= i < end && i < |l| ==> l[i] == 0
  }

  /** The write stays within the file and writes what is there. */
  predicate SameBytes(l: Bytes, offset: nat, bytes: Bytes) {
    offset + |bytes| <= |l| && l[offset..offset + |bytes|] == bytes
  }

  /** A write that does no harm to a file on tape: it writes what is there, and leaves no hole that reads
      otherwise; while the file is being stubbed it must not leave a part of it. */
  predicate HarmlessWrite(d: Disk, l: Bytes, offset: nat, bytes: Bytes) {
    && SameBytes(l, offset, bytes) && ZerosBefore(d, l, offset)
    && (StateOf(d) == Stubbing ==> WholeOnDisk(d) || offset + |bytes| == |l|)
  }

  /** A write or truncation lands on whatever the file is like: always right on a resident file, in a
      migration if it keeps the recorded size, and once the file is on tape only if it changes nothing. */
  lemma LandSafeIff(d: Disk, l: Bytes, rec: Times, tape: map<TapeId, Copy>, c: Call)
    requires Safe(d, l, rec, tape) && ChangesBytes(c)
    ensures Safe(Exec(d, c), Effect(c, d, l), rec, tape) <==>
              match c
              case Write(offset, bytes, _) =>
                || StateOf(d) == Resident || bytes == []
                || (StateOf(d) == InMigration && offset + |bytes| <= d.mark.value.size)
                || (OnTape(StateOf(d)) && HarmlessWrite(d, l, offset, bytes))
              case Truncate(size, _) =>
                || StateOf(d) == Resident
                || (size == d.mark.value.size && (OnTape(StateOf(d)) ==> ZerosBefore(d, l, size)))
              case _ => true
  {
    var d', l' := Exec(d, c), Effect(c, d, l);
    assert Tapes(d') == Tapes(d) && d.data <= l;
    if OnTape(StateOf(d)) {
      assert Backed(d, l, tape) && (Backed(d', l', tape) <==> l' == l);
      if c.Write? {
        SameAfterWrite(l, c.offset, c.bytes);
        if c.bytes != [] && SameBytes(l, c.offset, c.bytes) { PartAfterWrite(d, l, c.offset, c.bytes); }
      } else if c.size == |l| {
        PartAfterResize(d, l, c.size);
      }
    }
  }

  lemma SameAfterWrite(l: Bytes, offset: nat, bytes: Bytes)
    ensures WriteAt(l, offset, bytes) == l <==> bytes == [] || SameBytes(l, offset, bytes)
  {
    if bytes != [] {
      var r := WriteAt(l, offset, bytes);
      assert r[offset..offset + |bytes|] == bytes;
      if offset + |bytes| <= |l| {
        assert r[..offset] == l[..offset] && r[offset + |bytes|..] == l[offset + |bytes|..];
        assert l == l[..offset] + l[offset..offset + |bytes|] + l[offset + |bytes|..];
      }
    }
  }

  lemma {:induction false} ZeroBytes(n: nat)
    ensures forall i :: 0 <= i < n ==> Zeros(n)[i] == 0
  {
    if n > 0 { ZeroBytes(n - 1); }
  }

  lemma PartAfterResize(d: Disk, l: Bytes, size: nat)
    requires d.data <= l && size == |l|
    ensures Resize(d.data, size) == l <==> ZerosBefore(d, l, size)
    ensures Resize(d.data, size) <= l <==> ZerosBefore(d, l, size)
  {
    ZeroBytes(size - |d.data|);
  }

  lemma PartAfterWrite(d: Disk, l: Bytes, offset: nat, bytes: Bytes)
    requires d.data <= l && SameBytes(l, offset, bytes) && bytes != []
    ensures var r := WriteAt(d.data, offset, bytes);
            && (r <= l <==> ZerosBefore(d, l, offset))
            && (r == l <==> ZerosBefore(d, l, offset) && (|d.data| == |l| || offset + |bytes| == |l|))
  {
    var r, end := WriteAt(d.data, offset, bytes), offset + |bytes|;
    if offset > |d.data| { ZeroBytes(offset - |d.data|); }
    forall i | 0 <= i < |r| ensures r[i] == l[i] || |d.data| <= i < offset {
      if offset <= i < end {
        assert r[i] == bytes[i - offset] == l[offset..end][i - offset];
      }
    }
    assert forall i :: |d.data| <= i < offset ==> r[i] == 0;
  }

  /** A truncation drops the state attribute first.  Unless the file is being stubbed, which needs the lock,
      that is safe exactly if the file is no stub, or a stub of which nothing was recalled yet. */
  lemma TruncateSafeIff(d: Disk, l: Bytes, rec: Times, tape: map<TapeId, Copy>, size: nat, now: nat)
    requires Safe(d, l, rec, tape) && StateOf(d) != Stubbing && (size > 0 ==> !MustRecall(d))
    ensures SafeRun(d, l, rec, tape, true, TruncateCalls(d, size, now)) <==> (MustRecall(d) ==> d.data == [])
  {
    var p := TruncateCalls(d, size, now);
    if |p| == 1 {
      RunOfOne(d, l, rec, tape, true, p);
    } else {
      RunOfThree(d, l, rec, tape, true, p);
    }
  }

  lemma WriteEnters(s: Sys, offset: nat, bytes: Bytes)
    requires Free(s) && Ready(s) && StateOf(s.disk) == InMigration
    ensures Enabled(s, AppWrite(offset, bytes)) && Enabled(Next(s, AppWrite(offset, bytes)), DoCall)
    ensures var n := Next(Next(s, AppWrite(offset, bytes)), DoCall);
            && n.disk == Exec(s.disk, Write(offset, bytes, s.clock + 1)) && n.logical == WriteAt(s.logical, offset, bytes)
            && n == s.(disk := n.disk, logical := n.logical, pending := [], app := true, locked := true,
                       clock := s.clock + 2)
  {
  }

  /** Every copy that was begun is a beginning of `l`. */
  predicate CopiesFit(rs: seq<Replica>, tape: map<TapeId, Copy>, l: Bytes) {
    forall i :: 0 <= i < |rs| && Holds(rs[i]) ==> rs[i].tape in tape && tape[rs[i].tape].data <= l
  }

  lemma FitOfReplica(rep: Replica, d: Disk, d': Disk, l: Bytes, l': Bytes, tape: map<TapeId, Copy>)
    requires ReplicaOk(rep, d, l, tape) && |l'| == |l| && StateOf(d) == StateOf(d') && Tapes(d') == Tapes(d)
    ensures ReplicaOk(rep, d', l', tape) <==> (Holds(rep) ==> tape[rep.tape].data <= l')
  {
  }

  /** A write to a file in migration keeps the invariant exactly if it keeps the size and changes nothing
      that was copied before. */
  lemma WriteInMigrationKeepsIff(s: Sys, offset: nat, bytes: Bytes)
    requires Inv(s) && Free(s) && Ready(s) && StateOf(s.disk) == InMigration
    requires Enabled(s, AppWrite(offset, bytes)) && Enabled(Next(s, AppWrite(offset, bytes)), DoCall)
    ensures var n := Next(Next(s, AppWrite(offset, bytes)), DoCall);
            Inv(n) <==> |n.logical| == |s.logical| && CopiesFit(s.replicas, s.tape, n.logical)
  {
    var n := Next(Next(s, AppWrite(offset, bytes)), DoCall);
    var d, d', rs := s.disk, n.disk, s.replicas;
    WriteEnters(s, offset, bytes);
    assert Safe(d, s.logical, s.recorded, s.tape) && n.disk.data == n.logical;
    assert ReplicasOk(d, s.logical, rs, s.tape);
    if rs != [] && |n.logical| == |s.logical| {
      forall i | 0 <= i < |rs|
        ensures ReplicaOk(rs[i], d', n.logical, s.tape) <==> (Holds(rs[i]) ==> s.tape[rs[i].tape].data <= n.logical)
      {
        FitOfReplica(rs[i], d, d', s.logical, n.logical, s.tape);
      }
    }
  }

  /** A read that gave its lock back takes its bytes from whatever is on disk then.  They are right exactly
      if it asks for nothing, for something behind the end, or for bytes that are on disk. */
  lemma LateReadRightIff(d: Disk, l: Bytes, rec: Times, tape: map<TapeId, Copy>, offset: nat, n: nat)
    requires Safe(d, l, rec, tape)
    ensures ReadAt(d.data, offset, n) == ReadAt(l, offset, n)
            <==> n == 0 || offset >= |l| || (if offset + n <= |l| then offset + n else |l|) <= |d.data|
  {
    assert d.data <= l;
    var end := if offset + n <= |l| then offset + n else |l|;
    assert |ReadAt(l, offset, n)| == if offset >= |l| then 0 else end - offset;
    if end <= |d.data| && offset < |l| { assert d.data[offset..end] == l[offset..end]; }
  }
}
