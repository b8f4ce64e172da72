/** Every step of `DriveSharing` keeps the invariant. */
module DriveSteps {
  import opened Wrappers
  import opened Library
  import opened DriveSharing

  /** A job changes or comes in. */
  lemma PutJob(lib: Lib, lib': Lib, jobs: map<nat, Job>, id: nat, job: Job)
    requires JobsOk(lib, jobs) && JobOk(lib', job)
    requires forall i :: i in jobs && i != id ==> JobOk(lib', jobs[i]) && Compatible(jobs[i], job)
    ensures JobsOk(lib', jobs[id := job])
  {
  }

  lemma DropJob(lib: Lib, lib': Lib, jobs: map<nat, Job>, id: nat)
    requires JobsOk(lib, jobs)
    requires forall i :: i in jobs && i != id ==> JobOk(lib', jobs[i])
    ensures JobsOk(lib', jobs - {id})
  {
  }

  /** Holders that stay keep cartridges and drives accounted for. */
  lemma CartsStay(s: Sys, s': Sys, c: nat)
    requires Inv(s) && |s'.lib.carts| == |s.lib.carts| && |s'.lib.drives| == |s.lib.drives|
    requires forall x :: 0 <= x < |s.lib.carts| && x != c ==> s'.lib.carts[x] == s.lib.carts[x]
    requires forall d :: 0 <= d < |s.lib.drives| && s'.lib.drives[d].busy && !s.lib.drives[d].busy ==>
               forall x :: 0 <= x < |s.lib.carts| && MountedIn(s.lib, x, d) ==> x == c
    requires forall i :: i in s.jobs && Running(s.jobs[i]) && s.jobs[i].c != c ==>
               i in s'.jobs && Running(s'.jobs[i]) && s'.jobs[i].c == s.jobs[i].c
    ensures forall x :: 0 <= x < |s.lib.carts| && x != c ==> CartOk(s', x)
  {
    forall x | 0 <= x < |s.lib.carts| && x != c ensures CartOk(s', x) {
      assert CartOk(s, x);
      if HeldCart(s, x) {
        var i :| i in s.jobs && Running(s.jobs[i]) && s.jobs[i].c == x;
        assert i in s'.jobs && Running(s'.jobs[i]) && s'.jobs[i].c == x;
      }
      if s.lib.carts[x].state == Mounted { assert MountedIn(s.lib, x, s.lib.carts[x].at.d); }
    }
  }

  lemma DrivesStay(s: Sys, s': Sys, d: nat)
    requires Inv(s) && |s'.lib.drives| == |s.lib.drives|
    requires forall x :: 0 <= x < |s.lib.drives| && x != d ==>
               s'.lib.drives[x].busy == s.lib.drives[x].busy && s'.lib.drives[x].moveReq == s.lib.drives[x].moveReq
    requires forall i :: i in s.jobs && s.jobs[i].d != d ==>
               && i in s'.jobs && s'.jobs[i].d == s.jobs[i].d && Running(s'.jobs[i]) == Running(s.jobs[i])
               && (s.jobs[i].Move? ==> s'.jobs[i].Move? && s'.jobs[i].key == s.jobs[i].key)
    ensures forall x :: 0 <= x < |s.lib.drives| && x != d ==> DriveOk(s', x)
  {
    forall x | 0 <= x < |s.lib.drives| && x != d ensures DriveOk(s', x) {
      assert DriveOk(s, x);
      if s.lib.drives[x].busy {
        var i :| i in s.jobs && Running(s.jobs[i]) && s.jobs[i].d == x;
        assert i in s'.jobs && Running(s'.jobs[i]) && s'.jobs[i].d == x;
      }
      if s.lib.drives[x].moveReq.Some? {
        var i :| i in s.jobs && s.jobs[i].Move? && s.jobs[i].d == x && s.jobs[i].key == s.lib.drives[x].moveReq.value;
        assert i in s'.jobs && s'.jobs[i].Move? && s'.jobs[i].d == x;
      }
    }
  }

  // ---------------------------------------------------------------- rows

  lemma RunKeeps(s: Sys, d: nat, c: nat, id: nat)
    requires Inv(s) && id !in s.jobs && d < |s.lib.drives| && MountedIn(s.lib, c, d) && !s.lib.drives[d].busy
    ensures Inv(Sys(MadeUse(s.lib, d, c), s.jobs[id := Data(d, c)]))
  {
    var s' := Sys(MadeUse(s.lib, d, c), s.jobs[id := Data(d, c)]);
    forall i | i in s.jobs ensures JobOk(s'.lib, s.jobs[i]) && Compatible(s.jobs[i], Data(d, c)) {
      assert JobOk(s.lib, s.jobs[i]);
    }
    PutJob(s.lib, s'.lib, s.jobs, id, Data(d, c));
    forall x | 0 <= x < |s.lib.carts| && MountedIn(s.lib, x, d) ensures x == c {
      assert s.lib.carts[x].at == s.lib.carts[c].at;
    }
    CartsStay(s, s', c);
    DrivesStay(s, s', d);
    assert DriveOk(s, d);
    assert HeldCart(s', c) && HeldDrive(s', d) by { assert s'.jobs[id] == Data(d, c); }
    if s.lib.drives[d].moveReq.Some? {
      var i :| i in s.jobs && s.jobs[i].Move? && s.jobs[i].d == d && s.jobs[i].key == s.lib.drives[d].moveReq.value;
      assert s'.jobs[i] == s.jobs[i];
    }
  }

  /** An idle drive without a mounted cartridge is empty. */
  lemma IdleUnloadedIsEmpty(s: Sys, d: nat)
    requires Inv(s) && d < |s.lib.drives| && !s.lib.drives[d].busy && !Loaded(s.lib, d)
    ensures EmptyDrive(s.lib, d)
  {
    forall c | 0 <= c < |s.lib.carts| ensures s.lib.carts[c].at != InDrive(d) {
      assert CartOk(s, c) && !MountedIn(s.lib, c, d);
      if HeldCart(s, c) {
        var i :| i in s.jobs && Running(s.jobs[i]) && s.jobs[i].c == c;
        assert JobOk(s.lib, s.jobs[i]);
      }
    }
  }

  lemma SendKeeps(s: Sys, key: Key, v: Verdict, id: nat)
    requires Inv(s) && id !in s.jobs && Sends(s.lib, key, v) && SensibleMove(s.lib, key, v)
    requires v.AskMount? ==> !MountUnderWay(s, v.c)
    ensures Inv(Sys(SetDrive(s.lib, v.d, s.lib.drives[v.d].(moveReq := Some(key))),
                    s.jobs[id := Move(v.d, v.c, v.AskMount?, key, Sent)]))
  {
    var job := Move(v.d, v.c, v.AskMount?, key, Sent);
    var s' := Sys(SetDrive(s.lib, v.d, s.lib.drives[v.d].(moveReq := Some(key))), s.jobs[id := job]);
    assert s.lib.drives[v.d].moveReq.None?;
    if v.AskMount? {
      IdleUnloadedIsEmpty(s, v.d);
      assert CartOk(s, v.c);
    }
    forall i | i in s.jobs ensures JobOk(s'.lib, s.jobs[i]) && Compatible(s.jobs[i], job) {
      assert JobOk(s.lib, s.jobs[i]);
      assert EmptyDrive(s.lib, s.jobs[i].d) ==> EmptyDrive(s'.lib, s.jobs[i].d);
    }
    assert EmptyDrive(s.lib, v.d) ==> EmptyDrive(s'.lib, v.d);
    PutJob(s.lib, s'.lib, s.jobs, id, job);
    CartsStay(s, s', |s.lib.carts|);
    DrivesStay(s, s', v.d);
    assert MoveUnderWay(s', v.d, key) by { assert s'.jobs[id] == job; }
  }

  /** Marks that have nothing to do with who holds what. */
  lemma MarksKeep(s: Sys, lib': Lib)
    requires Inv(s) && |lib'.drives| == |s.lib.drives| && |lib'.carts| == |s.lib.carts|
    requires forall d :: 0 <= d < |lib'.drives| ==>
               lib'.drives[d].busy == s.lib.drives[d].busy && lib'.drives[d].moveReq == s.lib.drives[d].moveReq
    requires forall c :: 0 <= c < |lib'.carts| ==>
               lib'.carts[c].state == s.lib.carts[c].state && lib'.carts[c].at == s.lib.carts[c].at
    ensures Inv(Sys(lib', s.jobs))
  {
    var s' := Sys(lib', s.jobs);
    forall i | i in s.jobs ensures JobOk(lib', s.jobs[i]) {
      assert JobOk(s.lib, s.jobs[i]);
      assert EmptyDrive(s.lib, s.jobs[i].d) ==> EmptyDrive(lib', s.jobs[i].d);
    }
    forall c | 0 <= c < |lib'.carts| ensures CartOk(s', c) {
      assert CartOk(s, c);
      assert HeldCart(s, c) ==> HeldCart(s', c);
    }
    forall d | 0 <= d < |lib'.drives| ensures DriveOk(s', d) {
      assert DriveOk(s, d);
      assert HeldDrive(s, d) ==> HeldDrive(s', d);
      assert forall key :: MoveUnderWay(s, d, key) ==> MoveUnderWay(s', d, key);
    }
  }

  // ---------------------------------------------------------------- movers

  lemma AddRequestKeeps(s: Sys, id: nat)
    requires Inv(s) && Enabled(s, AddRequest(id))
    ensures Inv(Next(s, AddRequest(id)))
  {
    var s' := Next(s, AddRequest(id));
    assert JobOk(s.lib, s.jobs[id]);
    forall i | i in s.jobs && i != id ensures Compatible(s.jobs[i], s'.jobs[id]) {
      assert Compatible(s.jobs[i], s.jobs[id]);
    }
    PutJob(s.lib, s.lib, s.jobs, id, s'.jobs[id]);
    CartsStay(s, s', |s.lib.carts|);
    DrivesStay(s, s', |s.lib.drives|);
  }

  /** A mover advances: its cartridge changes state, its drive may become busy, nothing moves yet. */
  lemma AdvanceJobs(s: Sys, lib': Lib, id: nat, p: Phase)
    requires Inv(s) && id in s.jobs && s.jobs[id].Move? && JobOk(lib', s.jobs[id].(phase := p))
    requires |lib'.drives| == |s.lib.drives| && |lib'.carts| == |s.lib.carts|
    requires var j := s.jobs[id];
             && (Running(j) || !s.lib.drives[j.d].busy) && (Running(j) || j.mount || MountedIn(s.lib, j.c, j.d))
             && (forall d :: 0 <= d < |lib'.drives| && d != j.d ==> lib'.drives[d] == s.lib.drives[d])
             && (forall c :: 0 <= c < |lib'.carts| && c != j.c ==> lib'.carts[c] == s.lib.carts[c])
             && lib'.carts[j.c].at == s.lib.carts[j.c].at
             && lib'.drives[j.d].busy && lib'.drives[j.d].moveReq == s.lib.drives[j.d].moveReq
    ensures JobsOk(lib', s.jobs[id := s.jobs[id].(phase := p)])
  {
    var j := s.jobs[id];
    forall i | i in s.jobs && i != id ensures JobOk(lib', s.jobs[i]) && Compatible(s.jobs[i], j.(phase := p)) {
      assert Compatible(s.jobs[i], j) && JobOk(s.lib, s.jobs[i]) && JobOk(s.lib, j);
      assert EmptyDrive(s.lib, s.jobs[i].d) ==> EmptyDrive(lib', s.jobs[i].d);
    }
    PutJob(s.lib, lib', s.jobs, id, j.(phase := p));
  }

  lemma SameEmpty(lib: Lib, lib': Lib, d: nat)
    requires |lib'.carts| == |lib.carts| && forall c :: 0 <= c < |lib.carts| ==> lib'.carts[c].at == lib.carts[c].at
    ensures EmptyDrive(lib, d) ==> EmptyDrive(lib', d)
  {
  }

  lemma ClaimKeeps(s: Sys, id: nat)
    requires Inv(s) && Enabled(s, MoveRow(id)) && MoveReady(s.lib, s.jobs[id].mount, s.jobs[id].d, s.jobs[id].c)
    ensures Inv(Next(s, MoveRow(id)))
  {
    var s', j := Next(s, MoveRow(id)), s.jobs[id];
    assert JobOk(s.lib, j);
    SameEmpty(s.lib, s'.lib, j.d);
    AdvanceJobs(s, s'.lib, id, Claimed);
    forall x | 0 <= x < |s.lib.carts| && MountedIn(s.lib, x, j.d) ensures x == j.c {
      assert !j.mount;
    }
    CartsStay(s, s', j.c);
    DrivesStay(s, s', j.d);
    assert s'.jobs[id] == j.(phase := Claimed);
    assert HeldCart(s', j.c) && HeldDrive(s', j.d) && MoveUnderWay(s', j.d, j.key);
  }

  lemma BeginKeeps(s: Sys, id: nat)
    requires Inv(s) && Enabled(s, BeginMove(id))
    ensures Inv(Next(s, BeginMove(id)))
  {
    var s', j := Next(s, BeginMove(id)), s.jobs[id];
    assert JobOk(s.lib, j);
    SameEmpty(s.lib, s'.lib, j.d);
    AdvanceJobs(s, s'.lib, id, InMotion);
    CartsStay(s, s', j.c);
    DrivesStay(s, s', |s.lib.drives|);
    assert s'.jobs[id] == j.(phase := InMotion);
    assert HeldCart(s', j.c);
  }

  lemma EndMountKeeps(s: Sys, id: nat)
    requires Inv(s) && Enabled(s, EndMove(id)) && s.jobs[id].mount
    ensures Inv(Next(s, EndMove(id)))
  {
    var s', j := Next(s, EndMove(id)), s.jobs[id];
    assert JobOk(s.lib, j);
    forall i | i in s.jobs && i != id ensures JobOk(s'.lib, s.jobs[i]) {
      assert Compatible(s.jobs[i], j) && JobOk(s.lib, s.jobs[i]);
      assert EmptyDrive(s.lib, s.jobs[i].d) && s.jobs[i].d != j.d ==> EmptyDrive(s'.lib, s.jobs[i].d);
    }
    DropJob(s.lib, s'.lib, s.jobs, id);
    CartsStay(s, s', j.c);
    forall i | i in s.jobs && s.jobs[i].d != j.d ensures i in s'.jobs && s'.jobs[i] == s.jobs[i] {
    }
    DrivesStay(s, s', j.d);
  }

  lemma OthersOkAfterUnmount(s: Sys, id: nat, i: nat)
    requires Inv(s) && Enabled(s, EndMove(id)) && !s.jobs[id].mount && i in s.jobs && i != id
    ensures JobOk(Next(s, EndMove(id)).lib, s.jobs[i])
  {
    assert JobOk(s.lib, s.jobs[id]) && JobOk(s.lib, s.jobs[i]) && Compatible(s.jobs[i], s.jobs[id]);
    assert EmptyDrive(s.lib, s.jobs[i].d) ==> EmptyDrive(Next(s, EndMove(id)).lib, s.jobs[i].d);
  }

  lemma EndUnmountKeeps(s: Sys, id: nat)
    requires Inv(s) && Enabled(s, EndMove(id)) && !s.jobs[id].mount
    ensures Inv(Next(s, EndMove(id)))
  {
    var s', j := Next(s, EndMove(id)), s.jobs[id];
    assert JobOk(s.lib, j);
    forall i | i in s.jobs && i != id ensures JobOk(s'.lib, s.jobs[i]) {
      OthersOkAfterUnmount(s, id, i);
    }
    DropJob(s.lib, s'.lib, s.jobs, id);
    CartsStay(s, s', j.c);
    DrivesStay(s, s', j.d);
  }

  lemma OthersOkAfterData(s: Sys, id: nat, clear: bool, i: nat)
    requires Inv(s) && Enabled(s, EndData(id, clear)) && i in s.jobs && i != id
    ensures JobOk(Next(s, EndData(id, clear)).lib, s.jobs[i])
  {
    assert JobOk(s.lib, s.jobs[id]) && JobOk(s.lib, s.jobs[i]) && Compatible(s.jobs[i], s.jobs[id]);
    SameEmpty(s.lib, Next(s, EndData(id, clear)).lib, s.jobs[i].d);
  }

  lemma JobsOkAfterData(s: Sys, id: nat, clear: bool)
    requires Inv(s) && Enabled(s, EndData(id, clear))
    ensures JobsOk(Next(s, EndData(id, clear)).lib, Next(s, EndData(id, clear)).jobs) && JobOk(s.lib, s.jobs[id])
  {
    var s' := Next(s, EndData(id, clear));
    assert JobOk(s.lib, s.jobs[id]);
    forall i | i in s.jobs && i != id ensures JobOk(s'.lib, s.jobs[i]) {
      OthersOkAfterData(s, id, clear, i);
    }
    DropJob(s.lib, s'.lib, s.jobs, id);
  }

  lemma DriveAfterData(s: Sys, id: nat, clear: bool)
    requires Inv(s) && Enabled(s, EndData(id, clear)) && JobOk(s.lib, s.jobs[id])
    ensures DriveOk(Next(s, EndData(id, clear)), s.jobs[id].d)
  {
    var s', j := Next(s, EndData(id, clear)), s.jobs[id];
    assert DriveOk(s, j.d);
    if s.lib.drives[j.d].moveReq.Some? {
      var i :| i in s.jobs && s.jobs[i].Move? && s.jobs[i].d == j.d && s.jobs[i].key == s.lib.drives[j.d].moveReq.value;
      assert i in s'.jobs && s'.jobs[i] == s.jobs[i];
    }
  }

  lemma EndDataKeeps(s: Sys, id: nat, clear: bool)
    requires Inv(s) && Enabled(s, EndData(id, clear))
    ensures Inv(Next(s, EndData(id, clear)))
  {
    var s', j := Next(s, EndData(id, clear)), s.jobs[id];
    JobsOkAfterData(s, id, clear);
    CartsStay(s, s', j.c);
    assert forall i :: i in s.jobs && s.jobs[i].d != j.d ==> i in s'.jobs;
    DrivesStay(s, s', j.d);
    DriveAfterData(s, id, clear);
  }
}
