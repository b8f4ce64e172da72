/**
  What each program of the connector leaves of a file, whatever the file was
  like before: bytes, times and both attributes.
 */
module FileResults {
  import opened Wrappers
  import opened FileAttributes
  import opened FileSafety
  import opened FilePrograms
  import opened FileRuns
  import opened FileGuarantees

  lemma TwoCalls(d: Disk, a: Call, b: Call)
    ensures ExecAll(d, [a, b]) == Exec(Exec(d, a), b)
  {
    assert [a, b][1..] == [b] && ExecAll(Exec(d, a), [b]) == Exec(Exec(d, a), b);
  }

  lemma ThreeCalls(d: Disk, a: Call, b: Call, c: Call)
    ensures ExecAll(d, [a, b, c]) == Exec(Exec(Exec(d, a), b), c)
  {
    assert [a, b, c][1..] == [b, c];
    TwoCalls(Exec(d, a), b, c);
  }

  lemma {:induction false} ZerosAre(n: nat)
    ensures forall i :: 0 <= i < n ==> Zeros(n)[i] == 0
  {
    if n > 0 { ZerosAre(n - 1); }
  }

  /** A truncation keeps every byte below the size; what it adds reads as zero. */
  lemma ResizeBytes(data: Bytes, size: nat, i: nat)
    requires i < size
    ensures Resize(data, size)[i] == if i < |data| then data[i] else 0
  {
    if size > |data| { ZerosAre(size - |data|); }
  }

  /** A write puts its bytes at the offset and keeps every other byte; a hole before the offset reads as zero,
      and the file grows only as far as the write reaches. */
  lemma WriteBytes(data: Bytes, offset: nat, bytes: Bytes, i: nat)
    requires i < |WriteAt(data, offset, bytes)|
    ensures WriteAt(data, offset, bytes)[i] ==
            if offset <= i < offset + |bytes| then bytes[i - offset] else if i < |data| then data[i] else 0
    ensures |WriteAt(data, offset, bytes)| == if bytes == [] || offset + |bytes| <= |data| then |data| else offset + |bytes|
  {
    if bytes != [] && i < offset { ResizeBytes(data, offset, i); }
  }

  /** A read takes as many bytes as were asked for and are there, from the offset on. */
  lemma ReadBytes(data: Bytes, offset: nat, n: nat, i: nat)
    ensures |ReadAt(data, offset, n)| == if offset >= |data| then 0 else if n < |data| - offset then n else |data| - offset
    ensures i < |ReadAt(data, offset, n)| ==> ReadAt(data, offset, n)[i] == data[offset + i]
  {
  }

  /** The mark says of the file what the one before it said, or what the disk says if there was none that counts. */
  predicate MarkSays(d: Disk, e: Disk, st: MigState) {
    && e.mark.Some? && e.mark.value.state == st
    && (if d.mark.Some? && d.mark.value.state != Resident
        then e.mark.value.size == d.mark.value.size && e.mark.value.times == d.mark.value.times
        else e.mark.value.size == |d.data| && e.mark.value.times == d.times)
  }

  /** Recovery gives a file that never got to tape its plain form, and makes an empty stub of one that is on
      tape, with the tape list that it had. */
  lemma RecoverLeaves(st: MigState, d: Disk, now: nat)
    ensures var e := ExecAll(d, RecoverCallsOf(st, d, now));
            match st
            case Resident => e == Disk(d.data, d.times, None, None)
            case InMigration => e == Disk(d.data, d.times, None, None)
            case Stubbing => e.data == [] && e.tapes == d.tapes && MarkSays(d, e, Migrated)
            case InRecall => e.data == [] && e.tapes == d.tapes && MarkSays(d, e, Migrated)
            case _ => e == d
  {
    var p := RecoverCallsOf(st, d, now);
    if p != [] { TwoCalls(d, p[0], p[1]); }
  }

  /** The change of a state: an empty stub, or the file with a premigrated mark; nothing if the file is on its
      way there already, or copies are missing. */
  lemma ChangeLeaves(d: Disk, numRepl: nat, toMigrated: bool, now: nat)
    ensures var e := ExecAll(d, ChangeCalls(d, numRepl, toMigrated, now));
            var st := if d.mark.Some? then d.mark.value.state else Resident;
            if st == Migrated || st == InRecall || ((st == Premigrated || st == Stubbing) && !toMigrated)
               || (numRepl != 0 && |Tapes(d)| != numRepl) then e == d
            else if toMigrated then e.data == [] && e.tapes == d.tapes && MarkSays(d, e, Migrated)
            else e.data == d.data && e.times == d.times && e.tapes == d.tapes && MarkSays(d, e, Premigrated)
  {
    var p := ChangeCalls(d, numRepl, toMigrated, now);
    if |p| == 3 {
      ThreeCalls(d, p[0], p[1], p[2]);
    } else if p != [] {
      assert p[1..] == [];
    }
  }

  /** A write to a file that does not wait: a premigrated one loses both attributes, and the write fails after
      the first one if there is no second. */
  lemma WriteLeaves(d: Disk, offset: nat, bytes: Bytes, now: nat)
    requires !MustRecall(d)
    ensures var e := ExecAll(d, WriteCalls(d, offset, bytes, now));
            var premigrated := d.mark.Some? && d.mark.value.state == Premigrated;
            if premigrated && d.tapes.None? then e == d.(mark := None)
            else e == Disk(WriteAt(d.data, offset, bytes), Times(d.times.atime, now),
                           if premigrated then None else d.mark, if premigrated then None else d.tapes)
  {
    var p := WriteCalls(d, offset, bytes, now);
    if |p| == 3 { ThreeCalls(d, p[0], p[1], p[2]); } else { assert p[1..] == []; }
  }

  /** What a truncation does to the attributes before it truncates */
  lemma DropLeaves(d: Disk)
    ensures ExecAll(d, DropCalls(d)) == if d.mark.None? then d else d.(mark := None, tapes := None)
  {
    var p := DropCalls(d);
    if |p| == 2 { TwoCalls(d, p[0], p[1]); } else if |p| == 1 { assert p[1..] == []; }
  }

  /** A truncation under the lock: it fails without truncating if a mark has no tape list beside it, else the
      file has the new size and a new modification time, and a file with attributes has lost both. */
  lemma TruncateLeaves(d: Disk, size: nat, now: nat)
    requires size > 0 ==> !MustRecall(d)
    ensures ExecAll(d, TruncateCalls(d, size, now)) ==
            if d.mark.Some? && d.tapes.None? then d.(mark := None)
            else Disk(Resize(d.data, size), Times(d.times.atime, now), None, if d.mark.Some? then None else d.tapes)
  {
    DropLeaves(d);
    ExecAllAppend(d, DropCalls(d), [Truncate(size, now)]);
    assert [Truncate(size, now)][1..] == [];
  }

  /** The copy loop of a recall puts the bytes that it read from the tape over the beginning of the file. */
  lemma {:induction false} ChunksLeave(d: Disk, offset: nat, chunks: seq<Bytes>, now: nat)
    requires offset <= |d.data| && |d.data| <= offset + |Flatten(chunks)|
    ensures var e := ExecAll(d, ChunkCalls(offset, chunks, now));
            e.data == d.data[..offset] + Flatten(chunks) && e.mark == d.mark && e.tapes == d.tapes
    decreases |chunks|
  {
    if chunks == [] {
      assert d.data[..offset] == d.data;
    } else {
      var p := ChunkCalls(offset, chunks, now);
      var d1 := Exec(d, Write(offset, chunks[0], now));
      assert p[1..] == ChunkCalls(offset + |chunks[0]|, chunks[1..], now);
      WriteLeavesPrefix(d.data, offset, chunks[0]);
      ChunksLeave(d1, offset + |chunks[0]|, chunks[1..], now);
      assert d.data[..offset] + chunks[0] + Flatten(chunks[1..]) == d.data[..offset] + (chunks[0] + Flatten(chunks[1..]));
    }
  }

  lemma WriteLeavesPrefix(data: Bytes, offset: nat, bytes: Bytes)
    requires offset <= |data|
    ensures var r := WriteAt(data, offset, bytes);
            && r[..offset] == data[..offset] && offset + |bytes| <= |r|
            && r[..offset + |bytes|] == data[..offset] + bytes
            && |r| == if offset + |bytes| > |data| then offset + |bytes| else |data|
  {
    var r := WriteAt(data, offset, bytes);
    if bytes != [] {
      assert Resize(data, offset) == data[..offset];
      assert r[..offset + |bytes|] == data[..offset] + bytes;
    }
  }

  lemma FinishLeaves(d: Disk, m: Mark, toResident: bool, now: nat)
    ensures var e := ExecAll(d, FinishCalls(m, toResident, now));
            if toResident then e == Disk(d.data, m.times, None, None)
            else e.data == d.data && e.tapes == d.tapes && e.mark == Some(Mark(Premigrated, m.size, m.times, now))
  {
    var p := FinishCalls(m, toResident, now);
    if toResident {
      ExecAllAppend(d, FinishMarkCalls(m, true, now), [RemoveTapes, RemoveMark]);
      var q := FinishMarkCalls(m, true, now);
      TwoCalls(d, q[0], q[1]);
      TwoCalls(ExecAll(d, q), RemoveTapes, RemoveMark);
    } else {
      assert p[1..] == [];
    }
  }

  /** A recall of a stub, or of a part of it: the file has the bytes that were read, and either its recorded
      times and no attributes, or a premigrated mark.  The first comes also about, asked for or not, if the tape
      had another number of bytes than the mark. */
  lemma RecallLeaves(d: Disk, chunks: seq<Bytes>, toResident: bool, now: nat)
    requires StateOf(d) == Migrated || StateOf(d) == InRecall ==> |d.data| <= |Flatten(chunks)|
    ensures var e := ExecAll(d, RecallCalls(d, chunks, toResident, now));
            match StateOf(d)
            case Resident => e == d
            case InMigration => e == d
            case Migrated => Recalled(d, e, Flatten(chunks), toResident || |Flatten(chunks)| != d.mark.value.size)
            case InRecall => Recalled(d, e, Flatten(chunks), toResident || |Flatten(chunks)| != d.mark.value.size)
            case _ => Recalled(d, e, d.data, toResident)
  {
    match StateOf(d)
    case Resident =>
    case InMigration =>
    case Premigrated => FinishLeaves(d, d.mark.value, toResident, now);
    case Stubbing => FinishLeaves(d, d.mark.value, toResident, now);
    case _ =>
      var m := d.mark.value;
      var mark, copy := [SetMark(MarkFor(d, InRecall, now))], ChunkCalls(0, chunks, now);
      var finish := FinishCalls(m, toResident || |Flatten(chunks)| != m.size, now);
      assert RecallCalls(d, chunks, toResident, now) == mark + copy + finish;
      ExecAllAppend(d, mark + copy, finish);
      ExecAllAppend(d, mark, copy);
      assert mark[1..] == [];
      var d1 := ExecAll(d, mark);
      ChunksLeave(d1, 0, chunks, now);
      assert [] + Flatten(chunks) == Flatten(chunks);
      FinishLeaves(ExecAll(d1, copy), m, toResident || |Flatten(chunks)| != m.size, now);
  }

  predicate Recalled(d: Disk, e: Disk, bytes: Bytes, resident: bool)
    requires d.mark.Some?
  {
    if resident then e == Disk(bytes, d.mark.value.times, None, None)
    else e.data == bytes && e.tapes == d.tapes && e.mark.Some? && e.mark.value.state == Premigrated
         && e.mark.value.size == d.mark.value.size && e.mark.value.times == d.mark.value.times
  }

  /** finishRecall on any file */
  lemma FinishRecallLeaves(d: Disk, toResident: bool, now: nat)
    ensures var e := ExecAll(d, FinishRecallCalls(d, toResident, now));
            && e.data == d.data && e.tapes == d.tapes
            && (toResident ==> e.mark.Some? && e.mark.value.state == Resident
                               && e.times == if d.mark.Some? then d.mark.value.times else Times(0, 0))
            && (!toResident ==> e.times == d.times && MarkSays(d, e, Premigrated))
  {
    var p := FinishRecallCalls(d, toResident, now);
    if toResident { TwoCalls(d, p[0], p[1]); } else { assert p[1..] == []; }
  }

  /** FsObj reports a file as resident until its mark says that it is premigrated, and as migrated while its
      bytes have to come from tape; a file that is being stubbed still counts as premigrated. */
  lemma ReportedState(d: Disk)
    ensures GetMigState(d) == IsResident <==> d.mark.None? || d.mark.value.state in {Resident, InMigration}
    ensures GetMigState(d) == IsPremigrated <==> d.mark.Some? && d.mark.value.state in {Premigrated, Stubbing}
    ensures GetMigState(d) == IsMigrated <==> MustRecall(d)
  {
  }

  /** After a crash every file that was left in between is recovered at the next look; nothing that this service
      run has marked is.  A mark as old as the service itself counts as old. */
  lemma RecoveryIsDue(s0: Sys, steps: seq<Step>, s: Sys, lost: map<TapeId, Copy>)
    requires Reached(s0, steps, s)
    ensures var n := Next(s, Crash(lost));
            Transient(StateOf(n.disk)) ==> NeedsRecovery(n.disk, n.start) && Enabled(n, See)
    ensures s.disk.mark.Some? && s.disk.mark.value.changed > s.start ==> !NeedsRecovery(s.disk, s.start)
    ensures s.disk.mark.Some? && s.disk.mark.value.changed == s.start ==>
              (NeedsRecovery(s.disk, s.start) <==> Transient(StateOf(s.disk)))
  {
    ReachedInv(s0, steps, s);
  }
}
