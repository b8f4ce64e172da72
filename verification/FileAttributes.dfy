/**
  One file of a managed file system as the overlay sees it: bytes and times on
  disk and the two extended attributes (migration state, list of tapes).

  Every operation of the connector is a short program of system calls.  The
  programs are functions (`StubCalls`, `RecoverCalls`, ...); the class `FsObj`
  holds the state that the connector updates in place and logs each call, so
  that the contracts say which program a method runs and which state it leaves.
  A crash may cut such a program after any call; `FileSafety` builds on that.
 */
module FileAttributes {
  import opened Wrappers

  newtype Byte = b: int | 0 <= b < 256
  type Bytes = seq<Byte>
  type TapeId = string

  // FuseFS::mig_state_attr_t::state_num
  datatype MigState = Resident | InMigration | Premigrated | Stubbing | Migrated | InRecall

  // The three states an FsObj reports (FsObj::file_state)
  datatype FileState = IsResident | IsPremigrated | IsMigrated

  datatype Times = Times(atime: int, mtime: int)

  // The migration state attribute
  datatype Mark = Mark(state: MigState, size: nat, times: Times, changed: nat)

  datatype Disk = Disk(data: Bytes, times: Times, mark: Option<Mark>, tapes: Option<seq<TapeId>>)

  datatype Call =
    | SetMark(mark: Mark)
    | RemoveMark
    | SetTapes(tapes: seq<TapeId>)
    | RemoveTapes
    | Truncate(size: nat, now: nat)
    | Write(offset: nat, bytes: Bytes, now: nat)
    | SetTimes(times: Times)

  // ---------------------------------------------------------------- system calls

  function Zeros(n: nat): (r: Bytes)
    ensures |r| == n
  {
    if n == 0 then [] else Zeros(n - 1) + [0]
  }

  /** ftruncate: cut, or extend with zeros. */
  function Resize(data: Bytes, size: nat): (r: Bytes)
    ensures |r| == size
  {
    if size <= |data| then data[..size] else data + Zeros(size - |data|)
  }

  /** pwrite: overwrite in place, a hole before the offset reads as zeros. */
  function WriteAt(data: Bytes, offset: nat, bytes: Bytes): Bytes {
    if bytes == [] then data
    else Resize(data, offset) + bytes + (if offset + |bytes| <= |data| then data[offset + |bytes|..] else [])
  }

  function Exec(d: Disk, c: Call): Disk {
    match c
    case SetMark(m) => d.(mark := Some(m))
    case RemoveMark => d.(mark := None)
    case SetTapes(ts) => d.(tapes := Some(ts))
    case RemoveTapes => d.(tapes := None)
    case Truncate(n, now) => d.(data := Resize(d.data, n), times := Times(d.times.atime, now))
    case Write(o, b, now) => d.(data := WriteAt(d.data, o, b), times := Times(d.times.atime, now))
    case SetTimes(t) => d.(times := t)
  }

  function ExecAll(d: Disk, calls: seq<Call>): Disk
    decreases |calls|
  {
    if calls == [] then d else ExecAll(Exec(d, calls[0]), calls[1..])
  }

  lemma {:induction false} ExecAllAppend(d: Disk, a: seq<Call>, b: seq<Call>)
    ensures ExecAll(d, a + b) == ExecAll(ExecAll(d, a), b)
    decreases |a|
  {
    if a == [] {
      assert a + b == b;
    } else {
      assert (a + b)[0] == a[0] && (a + b)[1..] == a[1..] + b;
      ExecAllAppend(Exec(d, a[0]), a[1..], b);
    }
  }

  // ---------------------------------------------------------------- reading the attributes

  /** getMigInfoAt: a file without the attribute reads as resident. */
  function StateOf(d: Disk): MigState {
    if d.mark.Some? then d.mark.value.state else Resident
  }

  function Tapes(d: Disk): seq<TapeId> {
    if d.tapes.Some? then d.tapes.value else []
  }

  /** FsObj::getMigState */
  function GetMigState(d: Disk): FileState {
    match StateOf(d)
    case Resident => IsResident
    case InMigration => IsResident
    case Migrated => IsMigrated
    case InRecall => IsMigrated
    case Premigrated => IsPremigrated
    case Stubbing => IsPremigrated
  }

  /** FsObj::stat: size and times come from the attribute once the file is at least premigrated. */
  function StatSize(d: Disk): nat {
    if StateOf(d) != Resident && StateOf(d) != InMigration then d.mark.value.size else |d.data|
  }

  function StatTimes(d: Disk): Times {
    if StateOf(d) != Resident && StateOf(d) != InMigration then d.mark.value.times else d.times
  }

  /** ltfsdm_getattr: what `stat` on a path of the overlay reports; every state but resident hides the disk. */
  function GetattrSize(d: Disk): nat {
    if StateOf(d) != Resident then d.mark.value.size else |d.data|
  }

  function GetattrTimes(d: Disk): Times {
    if StateOf(d) != Resident then d.mark.value.times else d.times
  }

  predicate Transient(st: MigState) {
    st == InMigration || st == Stubbing || st == InRecall
  }

  /** needsRecovery: a transient state that was set before this start of the service. */
  predicate NeedsRecovery(d: Disk, start: nat) {
    d.mark.Some? && Transient(d.mark.value.state) && !(start < d.mark.value.changed)
  }

  // ---------------------------------------------------------------- programs

  /** The attribute that setMigInfoAt writes: size and times are taken anew only from a resident file. */
  function MarkFor(d: Disk, st: MigState, now: nat): Mark {
    if StateOf(d) != Resident then Mark(st, d.mark.value.size, d.mark.value.times, now)
    else Mark(st, |d.data|, d.times, now)
  }

  /** prepareStubbing followed by stub */
  function StubCalls(d: Disk, now: nat): seq<Call> {
    var m := MarkFor(d, Stubbing, now);
    [SetMark(m), Truncate(0, now), SetMark(m.(state := Migrated))]
  }

  /** changeFileState: either nothing to do, or stub, or only mark premigrated. */
  function ChangeCalls(d: Disk, numRepl: nat, toMigrated: bool, now: nat): seq<Call> {
    if GetMigState(d).IsMigrated? then []
    else if GetMigState(d).IsPremigrated? && !toMigrated then []
    else if numRepl != 0 && |Tapes(d)| != numRepl then []
    else if toMigrated then StubCalls(d, now)
    else [SetMark(MarkFor(d, Premigrated, now))]
  }

  /** recoverState goes by the state `st` that getattr has read, whatever the file is like by now. */
  function RecoverCallsOf(st: MigState, d: Disk, now: nat): seq<Call> {
    match st
    case InMigration => [RemoveTapes, RemoveMark]
    case Resident => [RemoveTapes, RemoveMark]
    case Stubbing => [SetMark(MarkFor(d, Migrated, now)), Truncate(0, now)]
    case InRecall => [SetMark(MarkFor(d, Migrated, now)), Truncate(0, now)]
    case _ => []
  }

  function RecoverCalls(d: Disk, now: nat): seq<Call> { RecoverCallsOf(StateOf(d), d, now) }

  function Flatten(chunks: seq<Bytes>): Bytes {
    if chunks == [] then [] else chunks[0] + Flatten(chunks[1..])
  }

  function ChunkCalls(offset: nat, chunks: seq<Bytes>, now: nat): seq<Call>
    decreases |chunks|
  {
    if chunks == [] then []
    else [Write(offset, chunks[0], now)] + ChunkCalls(offset + |chunks[0]|, chunks[1..], now)
  }

  const EPOCH := Times(0, 0)

  /** The times in the attribute; without it they read as zero. */
  function MarkedTimes(d: Disk): Times {
    if d.mark.Some? then d.mark.value.times else EPOCH
  }

  /** finishRecall on any file */
  function FinishRecallCalls(d: Disk, toResident: bool, now: nat): seq<Call> {
    if toResident then
      [SetTimes(MarkedTimes(d)), SetMark(MarkFor(Exec(d, SetTimes(MarkedTimes(d))), Resident, now))]
    else [SetMark(MarkFor(d, Premigrated, now))]
  }

  function FinishMarkCalls(m: Mark, toResident: bool, now: nat): seq<Call> {
    if toResident then [SetTimes(m.times), SetMark(Mark(Resident, m.size, m.times, now))]
    else [SetMark(Mark(Premigrated, m.size, m.times, now))]
  }

  /** finishRecall, and remAttribute when the target is resident */
  function FinishCalls(m: Mark, toResident: bool, now: nat): seq<Call> {
    FinishMarkCalls(m, toResident, now) + (if toResident then [RemoveTapes, RemoveMark] else [])
  }

  /** prepareRecall and the copy loop */
  function CopyBackCalls(d: Disk, chunks: seq<Bytes>, now: nat): seq<Call> {
    [SetMark(MarkFor(d, InRecall, now))] + ChunkCalls(0, chunks, now)
  }

  /** SelRecall::recall and TransRecall::recall: `chunks` are the successive reads from tape. */
  function RecallCalls(d: Disk, chunks: seq<Bytes>, toResident: bool, now: nat): seq<Call> {
    match GetMigState(d)
    case IsResident => []
    case IsPremigrated => FinishCalls(d.mark.value, toResident, now)
    case IsMigrated =>
      var to := toResident || |Flatten(chunks)| != d.mark.value.size;
      CopyBackCalls(d, chunks, now) + FinishCalls(d.mark.value, to, now)
  }

  /** write_buf and truncate have to wait for a recall first. */
  predicate MustRecall(d: Disk) {
    StateOf(d) == Migrated || StateOf(d) == InRecall
  }

  function WriteCalls(d: Disk, offset: nat, bytes: Bytes, now: nat): seq<Call>
    requires !MustRecall(d)
  {
    if StateOf(d) != Premigrated then [Write(offset, bytes, now)]
    else if d.tapes.None? then [RemoveMark]
    else [RemoveMark, RemoveTapes, Write(offset, bytes, now)]
  }

  /** A truncation drops both attributes first; without the second one the call fails there. */
  function DropCalls(d: Disk): seq<Call> {
    if d.mark.None? then [] else if d.tapes.None? then [RemoveMark] else [RemoveMark, RemoveTapes]
  }

  predicate DropFails(d: Disk) { d.mark.Some? && d.tapes.None? }

  /** ltfsdm_ftruncate keeps the lock until the end. */
  function TruncateCalls(d: Disk, size: nat, now: nat): seq<Call>
    requires size > 0 ==> !MustRecall(d)
  {
    if DropFails(d) then DropCalls(d) else DropCalls(d) + [Truncate(size, now)]
  }

  // ---------------------------------------------------------------- the connector's object

  class FsObj {
    var data: Bytes
    var times: Times
    var mark: Option<Mark>
    var tapes: Option<seq<TapeId>>
    ghost var origin: Disk
    ghost var calls: seq<Call>

    function Contents(): Disk
      reads this
    {
      Disk(data, times, mark, tapes)
    }

    /** The state is what the logged calls made of the original file. */
    ghost predicate Valid()
      reads this
    {
      Contents() == ExecAll(origin, calls)
    }

    /** The method ran exactly the calls of `program`. */
    twostate predicate Ran(program: seq<Call>)
      reads this
    {
      Valid() && origin == old(origin) && calls == old(calls) + program
    }

    /** One system call, and its effect. */
    twostate predicate Did(c: Call)
      reads this
    {
      Ran([c]) && Contents() == Exec(old(Contents()), c)
    }

    constructor (d: Disk)
      ensures Valid() && Contents() == origin == d && calls == []
    {
      data, times, mark, tapes, origin, calls := d.data, d.times, d.mark, d.tapes, d, [];
    }

    // -- the system calls

    method FSetMark(m: Mark)
      requires Valid()
      modifies this
      ensures Did(SetMark(m))
    {
      mark := Some(m);
      ExecAllAppend(origin, calls, [SetMark(m)]);
      calls := calls + [SetMark(m)];
    }

    method FRemoveMark()
      requires Valid()
      modifies this
      ensures Did(RemoveMark)
    {
      mark := None;
      ExecAllAppend(origin, calls, [RemoveMark]);
      calls := calls + [RemoveMark];
    }

    method FSetTapes(ts: seq<TapeId>)
      requires Valid()
      modifies this
      ensures Did(SetTapes(ts))
    {
      tapes := Some(ts);
      ExecAllAppend(origin, calls, [SetTapes(ts)]);
      calls := calls + [SetTapes(ts)];
    }

    method FRemoveTapes()
      requires Valid()
      modifies this
      ensures Did(RemoveTapes)
    {
      tapes := None;
      ExecAllAppend(origin, calls, [RemoveTapes]);
      calls := calls + [RemoveTapes];
    }

    method FTruncate(size: nat, now: nat)
      requires Valid()
      modifies this
      ensures Did(Truncate(size, now))
    {
      data := Resize(data, size);
      times := Times(times.atime, now);
      ExecAllAppend(origin, calls, [Truncate(size, now)]);
      calls := calls + [Truncate(size, now)];
    }

    method FWrite(offset: nat, bytes: Bytes, now: nat)
      requires Valid()
      modifies this
      ensures Did(Write(offset, bytes, now))
    {
      data := WriteAt(data, offset, bytes);
      times := Times(times.atime, now);
      ExecAllAppend(origin, calls, [Write(offset, bytes, now)]);
      calls := calls + [Write(offset, bytes, now)];
    }

    method FUtimens(t: Times)
      requires Valid()
      modifies this
      ensures Did(SetTimes(t))
    {
      times := t;
      ExecAllAppend(origin, calls, [SetTimes(t)]);
      calls := calls + [SetTimes(t)];
    }

    // -- FuseFS and FsObj

    method SetMigInfoAt(st: MigState, now: nat)
      requires Valid()
      modifies this
      ensures Did(SetMark(MarkFor(old(Contents()), st, now)))
      ensures mark.Some? && mark.value.state == st && mark.value.changed == now
      ensures old(StateOf(Contents())) == Resident ==> mark.value.size == |old(data)| && mark.value.times == old(times)
      ensures old(StateOf(Contents())) != Resident ==>
                mark.value.size == old(mark).value.size && mark.value.times == old(mark).value.times
    {
      var size, stamp := |data|, times;
      if mark.Some? && mark.value.state != Resident {
        size, stamp := mark.value.size, mark.value.times;
      }
      FSetMark(Mark(st, size, stamp, now));
    }

    method AddTapeAttr(t: TapeId)
      requires Valid()
      modifies this
      ensures Did(SetTapes(Tapes(old(Contents())) + [t]))
    {
      var attr := if tapes.Some? then tapes.value else [];
      FSetTapes(attr + [t]);
    }

    method RemAttribute()
      requires Valid()
      modifies this
      ensures Ran([RemoveTapes, RemoveMark])
    {
      FRemoveTapes();
      FRemoveMark();
    }

    method Stub(now: nat)
      requires Valid()
      modifies this
      ensures Ran([Truncate(0, now), SetMark(MarkFor(Exec(old(Contents()), Truncate(0, now)), Migrated, now))])
    {
      FTruncate(0, now);
      SetMigInfoAt(Migrated, now);
    }

    method FinishRecall(toResident: bool, now: nat)
      requires Valid()
      modifies this
      ensures Ran(FinishRecallCalls(old(Contents()), toResident, now))
      ensures old(StateOf(Contents())) != Resident ==> Ran(FinishMarkCalls(old(mark).value, toResident, now))
    {
      if !toResident {
        SetMigInfoAt(Premigrated, now);
      } else {
        FUtimens(if mark.Some? then mark.value.times else EPOCH);
        SetMigInfoAt(Resident, now);
      }
    }

    /** finishRecall followed, for a resident target, by remAttribute */
    method Finish(toResident: bool, now: nat)
      requires Valid() && mark.Some? && mark.value.state != Resident
      modifies this
      ensures Ran(FinishCalls(old(mark).value, toResident, now))
    {
      FinishRecall(toResident, now);
      if toResident { RemAttribute(); }
    }

    /** Migration::changeFileState; `reported` says that the inode went into the success list. */
    method ChangeFileState(numRepl: nat, toMigrated: bool, now: nat) returns (reported: bool)
      requires Valid()
      modifies this
      ensures Ran(ChangeCalls(old(Contents()), numRepl, toMigrated, now))
      ensures reported <==> ChangeCalls(old(Contents()), numRepl, toMigrated, now) != []
    {
      reported := false;
      var state := GetMigState(Contents());
      if state == IsMigrated { return; }
      if state == IsPremigrated && !toMigrated { return; }
      if numRepl != 0 && |Tapes(Contents())| != numRepl { return; }
      if toMigrated {
        SetMigInfoAt(Stubbing, now);
        Stub(now);
      } else {
        SetMigInfoAt(Premigrated, now);
      }
      reported := true;
    }

    /** FuseFS::recoverState with the state that getattr has read; the switch asserts that it is one of these. */
    method RecoverState(state: MigState, now: nat)
      requires Valid() && (Transient(state) || state == Resident)
      modifies this
      ensures Ran(RecoverCallsOf(state, old(Contents()), now))
    {
      if state == InMigration || state == Resident {
        FRemoveTapes();
        FRemoveMark();
      } else {
        SetMigInfoAt(Migrated, now);
        FTruncate(0, now);
      }
    }

    /** The read/write loop of a recall: the successive reads go to increasing offsets. */
    method CopyFromTape(chunks: seq<Bytes>, now: nat)
      requires Valid()
      modifies this
      ensures Ran(ChunkCalls(0, chunks, now))
      ensures mark == old(mark) && tapes == old(tapes)
    {
      var i, offset: nat := 0, 0;
      ghost var rest := ChunkCalls(0, chunks, now);
      while i < |chunks|
        invariant i <= |chunks|
        invariant rest == ChunkCalls(offset, chunks[i..], now)
        invariant Valid() && origin == old(origin)
        invariant calls + rest == old(calls) + ChunkCalls(0, chunks, now)
        invariant mark == old(mark) && tapes == old(tapes)
      {
        NextChunk(offset, chunks, i, now);
        FWrite(offset, chunks[i], now);
        rest := rest[1..];
        offset := offset + |chunks[i]|;
        i := i + 1;
      }
    }

    /** prepareRecall and the copy loop */
    method CopyBack(chunks: seq<Bytes>, now: nat)
      requires Valid() && mark.Some? && mark.value.state != Resident
      modifies this
      ensures Ran(CopyBackCalls(old(Contents()), chunks, now))
      ensures mark == Some(Mark(InRecall, old(mark).value.size, old(mark).value.times, now))
    {
      SetMigInfoAt(InRecall, now);
      CopyFromTape(chunks, now);
    }

    /** SelRecall::recall and TransRecall::recall without an I/O error. */
    method Recall(chunks: seq<Bytes>, toResident: bool, now: nat)
      requires Valid()
      modifies this
      ensures Ran(RecallCalls(old(Contents()), chunks, toResident, now))
    {
      var state := GetMigState(Contents());
      if state == IsResident { return; }
      if state == IsPremigrated {
        Finish(toResident, now);
      } else {
        var to := toResident || |Flatten(chunks)| != mark.value.size;
        CopyBack(chunks, now);
        Finish(to, now);
      }
    }

    /** FuseFS::ltfsdm_write_buf; a blocked write continues as `FWrite` once the recall has been answered. */
    method WriteBuf(offset: nat, bytes: Bytes, now: nat) returns (blocked: bool)
      requires Valid()
      modifies this
      ensures blocked <==> MustRecall(old(Contents()))
      ensures Ran(if blocked then [] else WriteCalls(old(Contents()), offset, bytes, now))
      ensures !blocked && !(old(StateOf(Contents())) == Premigrated && old(tapes).None?) ==>
                data == WriteAt(old(data), offset, bytes)
    {
      blocked := MustRecall(Contents());
      if blocked { return; }
      if StateOf(Contents()) == Premigrated {
        FRemoveMark();
        if tapes.None? { return; }
        FRemoveTapes();
      }
      FWrite(offset, bytes, now);
    }

    /** FuseFS::ltfsdm_read_buf: it only decides whether the read has to wait for a recall; the bytes are
        taken from the disk after the lock is given back. */
    method ReadBuf() returns (blocked: bool)
      requires Valid()
      ensures blocked <==> StateOf(Contents()) == Migrated || StateOf(Contents()) == InRecall
    {
      blocked := mark.Some? && (mark.value.state == Migrated || mark.value.state == InRecall);
    }

    /** The attribute part of both truncations: whether the call has to wait for a recall, or fails. */
    method DropAttributes(size: nat) returns (blocked: bool, failed: bool)
      requires Valid()
      modifies this
      ensures blocked <==> size > 0 && MustRecall(old(Contents()))
      ensures failed <==> !blocked && DropFails(old(Contents()))
      ensures Ran(if blocked then [] else DropCalls(old(Contents())))
      ensures data == old(data) && times == old(times) && (!blocked ==> mark.None?)
    {
      blocked, failed := size > 0 && MustRecall(Contents()), false;
      if !blocked && mark.Some? {
        FRemoveMark();
        if tapes.None? { return false, true; }
        FRemoveTapes();
      }
    }

    /** FuseFS::ltfsdm_ftruncate: truncates under the lock that it took for the attributes. */
    method FtruncateFile(size: nat, now: nat) returns (blocked: bool)
      requires Valid()
      modifies this
      ensures blocked <==> size > 0 && MustRecall(old(Contents()))
      ensures Ran(if blocked then [] else TruncateCalls(old(Contents()), size, now))
      ensures !blocked && !DropFails(old(Contents())) ==> data == Resize(old(data), size) && mark.None?
    {
      var failed;
      blocked, failed := DropAttributes(size);
      if !blocked && !failed { FTruncate(size, now); }
    }

    /** FuseFS::ltfsdm_truncate, up to where it gives both locks back.  The truncation itself, if `later`,
        is a call of its own (`FTruncate`) on whatever the file is like then. */
    method TruncateFile(size: nat) returns (blocked: bool, later: bool)
      requires Valid()
      modifies this
      ensures blocked <==> size > 0 && MustRecall(old(Contents()))
      ensures later <==> blocked || !DropFails(old(Contents()))
      ensures Ran(if blocked then [] else DropCalls(old(Contents())))
    {
      var failed;
      blocked, failed := DropAttributes(size);
      later := !failed;
    }
  }

  lemma NextChunk(offset: nat, chunks: seq<Bytes>, i: nat, now: nat)
    requires i < |chunks|
    ensures var rest := ChunkCalls(offset, chunks[i..], now);
            && rest != [] && rest[0] == Write(offset, chunks[i], now)
            && rest[1..] == ChunkCalls(offset + |chunks[i]|, chunks[i + 1..], now)
  {
    assert chunks[i..][0] == chunks[i] && chunks[i..][1..] == chunks[i + 1..];
  }
}
