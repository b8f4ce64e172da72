/** Every step of `FileSafety` keeps the invariant, one lemma a step. */
module FileSteps {
  import opened FileAttributes
  import opened FileSafety

  ghost function FinalDisk(s: Sys): Disk { ExecAll(s.disk, s.pending) }

  ghost function FinalBytes(s: Sys): Bytes { FinalLogical(s.disk, s.logical, s.app, s.pending) }

  /** While some replica still has to copy, the file cannot be on its way to tape-only. */
  lemma NotOnTapeYet(s: Sys, r: nat)
    requires Inv(s) && r < |s.replicas|
    requires s.replicas[r].phase == Waiting || Transferring(s.replicas[r])
    ensures !OnTape(StateOf(s.disk)) && !MarksOnTape(s.pending)
    ensures InTransfer(FinalDisk(s), FinalBytes(s), s.replicas, s.tape)
  {
  }

  // ---------------------------------------------------------------- steps without the lock

  lemma OpenKeeps(s: Sys, r: nat, t: TapeId)
    requires Inv(s) && Enabled(s, Open(r, t))
    ensures Inv(Next(s, Open(r, t)))
  {
    var n := Next(s, Open(r, t));
    NotOnTapeYet(s, r);
    SafeRunOffTape(s.disk, s.logical, s.recorded, s.tape, n.tape, s.app, s.pending);
    var d, l := FinalDisk(s), FinalBytes(s);
    CountListedUpdate(s.replicas, r, Replica(t, Opened, false));
    assert ReplicaOk(s.replicas[r], d, l, s.tape);
    if Exact(d, s.replicas) {
      forall u | u in Tapes(d) ensures ListedBy(n.replicas, u) {
        var i :| 0 <= i < |s.replicas| && s.replicas[i].listed && s.replicas[i].tape == u;
        assert n.replicas[i] == s.replicas[i];
      }
    }
    forall i | 0 <= i < |n.replicas| ensures ReplicaOk(n.replicas[i], d, l, n.tape) {
      assert ReplicaOk(s.replicas[i], d, l, s.tape);
    }
    assert InTransfer(d, l, n.replicas, n.tape);
  }

  lemma CopyChunkKeeps(s: Sys, r: nat, k: nat)
    requires Inv(s) && Enabled(s, CopyChunk(r, k))
    ensures Inv(Next(s, CopyChunk(r, k)))
  {
    var n := Next(s, CopyChunk(r, k));
    NotOnTapeYet(s, r);
    assert s.pending == [];
    SafeRunOffTape(s.disk, s.logical, s.recorded, s.tape, n.tape, s.app, s.pending);
    var d, l, t := s.disk, s.logical, s.replicas[r].tape;
    assert ReplicaOk(s.replicas[r], d, l, s.tape);
    forall i | 0 <= i < |n.replicas| ensures ReplicaOk(n.replicas[i], d, l, n.tape) {
      assert ReplicaOk(s.replicas[i], d, l, s.tape);
    }
    assert InTransfer(d, l, n.replicas, n.tape);
  }

  lemma ReplaceReplica(d: Disk, l: Bytes, rs: seq<Replica>, tape: map<TapeId, Copy>, r: nat, rep: Replica)
    requires InTransfer(d, l, rs, tape) && r < |rs|
    requires rep.tape == rs[r].tape && rep.listed == rs[r].listed && (Holds(rep) ==> Holds(rs[r]))
    requires ReplicaOk(rep, d, l, tape)
    ensures InTransfer(d, l, rs[r := rep], tape)
  {
    CountListedUpdate(rs, r, rep);
    if Exact(d, rs) {
      forall u | u in Tapes(d) ensures ListedBy(rs[r := rep], u) {
        var i :| 0 <= i < |rs| && rs[i].listed && rs[i].tape == u;
        assert rs[r := rep][i].listed && rs[r := rep][i].tape == u;
      }
    }
  }

  /** Leaving the copy, for now or for good. */
  lemma LeaveKeeps(s: Sys, r: nat, p: Phase)
    requires Inv(s) && r < |s.replicas|
    requires p == Over || (p == Waiting && s.replicas[r].phase == Copying)
    ensures Inv(WithPhase(s, r, p))
  {
    var d, l, rep := FinalDisk(s), FinalBytes(s), s.replicas[r].(phase := p);
    if p == Waiting { NotOnTapeYet(s, r); }
    if InTransfer(d, l, s.replicas, s.tape) {
      assert ReplicaOk(s.replicas[r], d, l, s.tape);
      ReplaceReplica(d, l, s.replicas, s.tape, r, rep);
    }
  }

  lemma SyncKeeps(s: Sys, t: TapeId)
    requires Inv(s) && Enabled(s, Sync(t))
    ensures Inv(Next(s, Sync(t)))
  {
    var n := Next(s, Sync(t));
    SafeRunSynced(s.disk, s.logical, s.recorded, s.tape, n.tape, s.app, s.pending);
    var d, l := FinalDisk(s), FinalBytes(s);
    if InTransfer(d, l, s.replicas, s.tape) {
      forall i | 0 <= i < |n.replicas| ensures ReplicaOk(n.replicas[i], d, l, n.tape) {
        assert ReplicaOk(s.replicas[i], d, l, s.tape);
      }
      assert InTransfer(d, l, n.replicas, n.tape);
    }
  }

  lemma SyncedKeeps(s: Sys, r: nat)
    requires Inv(s) && InPhase(s, r, Listed) && HasCopy(s, r) && s.tape[s.replicas[r].tape].synced
    ensures Inv(WithPhase(s, r, Synced))
  {
    var d, l, rep := FinalDisk(s), FinalBytes(s), s.replicas[r].(phase := Synced);
    if InTransfer(d, l, s.replicas, s.tape) {
      assert ReplicaOk(s.replicas[r], d, l, s.tape);
      ReplaceReplica(d, l, s.replicas, s.tape, r, rep);
    }
  }

  lemma SyncDoneNext(s: Sys, r: nat)
    requires Enabled(s, SyncDone(r))
    ensures Next(s, SyncDone(r)) == WithPhase(Next(s, Sync(s.replicas[r].tape)), r, Synced)
  {
  }

  lemma SyncDoneKeeps(s: Sys, r: nat)
    requires Inv(s) && Enabled(s, SyncDone(r))
    ensures Inv(Next(s, SyncDone(r)))
  {
    SyncKeeps(s, s.replicas[r].tape);
    SyncedKeeps(Next(s, Sync(s.replicas[r].tape)), r);
    SyncDoneNext(s, r);
  }

  // ---------------------------------------------------------------- single calls under the lock

  lemma StartRequestKeeps(s: Sys, rs: seq<Replica>)
    requires Inv(s) && Enabled(s, StartRequest(rs)) && Clean(s, StartRequest(rs))
    ensures Inv(Next(s, StartRequest(rs)))
  {
    CountListedNone(rs);
    assert InTransfer(s.disk, s.logical, rs, s.tape);
  }

  lemma PrepareTransfer(d: Disk, l: Bytes, rs: seq<Replica>, tape: map<TapeId, Copy>, r: nat, m: Mark)
    requires InTransfer(d, l, rs, tape) && r < |rs| && rs[r].phase == Opened && m.state == InMigration
    ensures InTransfer(Exec(d, SetMark(m)), l, rs[r := rs[r].(phase := Copying)], tape)
  {
    var e, rs' := Exec(d, SetMark(m)), rs[r := rs[r].(phase := Copying)];
    CountListedUpdate(rs, r, rs'[r]);
    forall i | 0 <= i < |rs'| ensures ReplicaOk(rs'[i], e, l, tape) {
      assert ReplicaOk(rs[i], d, l, tape);
    }
    if Exact(e, rs') {
      forall u | u in Tapes(e) ensures ListedBy(rs', u) {
        var i :| 0 <= i < |rs| && rs[i].listed && rs[i].tape == u;
        assert rs'[i].listed && rs'[i].tape == u;
      }
    }
  }

  lemma PrepareKeeps(s: Sys, r: nat)
    requires Inv(s) && Enabled(s, Prepare(r)) && Free(s)
    ensures Inv(Next(s, Prepare(r)))
  {
    NotOnTapeYet(s, r);
    PrepareTransfer(s.disk, s.logical, s.replicas, s.tape, r, MarkFor(s.disk, InMigration, s.clock + 1));
  }

  lemma AddTapeKeeps(s: Sys, r: nat)
    requires Inv(s) && Enabled(s, AddTape(r)) && Free(s)
    ensures Inv(Next(s, AddTape(r)))
  {
    var n := Next(s, AddTape(r));
    var t := s.replicas[r].tape;
    NotOnTapeYet(s, r);
    CountListedUpdate(s.replicas, r, n.replicas[r]);
    assert ReplicaOk(s.replicas[r], s.disk, s.logical, s.tape);
    assert s.tape[t].data == s.logical;
    forall i | 0 <= i < |n.replicas| ensures ReplicaOk(n.replicas[i], n.disk, n.logical, n.tape) {
      assert ReplicaOk(s.replicas[i], s.disk, s.logical, s.tape);
    }
    if Exact(n.disk, n.replicas) {
      forall u | u in Tapes(n.disk) ensures ListedBy(n.replicas, u) {
        if u == t {
          assert n.replicas[r].listed && n.replicas[r].tape == u;
        } else {
          var i :| 0 <= i < |s.replicas| && s.replicas[i].listed && s.replicas[i].tape == u;
          assert n.replicas[i].listed && n.replicas[i].tape == u;
        }
      }
    }
    assert InTransfer(n.disk, n.logical, n.replicas, n.tape);
  }

  lemma CrashKeeps(s: Sys, lost: map<TapeId, Copy>)
    requires Inv(s) && Clean(s, Crash(lost))
    ensures Inv(Next(s, Crash(lost)))
  {
  }

  lemma AbandonKeeps(s: Sys)
    requires Inv(s) && Enabled(s, AbandonRecall)
    ensures Inv(Next(s, AbandonRecall))
  {
  }

  lemma DoCallKeeps(s: Sys)
    requires Inv(s) && Enabled(s, DoCall)
    ensures Inv(Next(s, DoCall))
  {
    var n := Next(s, DoCall);
    assert forall i :: 0 <= i < |n.pending| ==> n.pending[i] == s.pending[i + 1];
    assert s.pending[0].SetMark? ==> s.start < s.pending[0].mark.changed <= s.clock;
    if MarksOnTape(n.pending) {
      var i :| 0 <= i < |n.pending| && n.pending[i].SetMark? && OnTape(n.pending[i].mark.state);
      assert s.pending[i + 1] == n.pending[i];
    }
  }
}
