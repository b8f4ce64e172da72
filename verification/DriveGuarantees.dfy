/** What the invariant of `DriveSharing` gives the users of drives, and when it is lost. */
module DriveGuarantees {
  import opened Wrappers
  import opened Library
  import opened DriveSharing
  import opened DriveSteps

  // ---------------------------------------------------------------- all runs

  lemma InventoryIsInit(numDrives: nat, found: seq<(Place, nat)>)
    requires forall i :: 0 <= i < |found| && found[i].0.InDrive? ==> found[i].0.d < numDrives
    requires forall i, j :: 0 <= i < j < |found| && found[i].0.InDrive? ==> found[i].0 != found[j].0
    ensures Init(Sys(Fresh(numDrives, found), map[]))
  {
  }

  lemma InitInv(s: Sys)
    requires Init(s)
    ensures Inv(s)
  {
    assert forall c :: 0 <= c < |s.lib.carts| ==> InitCart(s.lib, s.lib.carts[c]);
  }

  lemma RowKeeps(s: Sys, step: Step)
    requires Inv(s) && RowStep(step) && Enabled(s, step) && FreshMount(s, step)
    ensures Inv(Next(s, step))
  {
    var v, key, op, id := RowVerdict(s, step), step.key, RowOp(step), step.id;
    RowMoves(s, step);
    if v.Run? {
      RunKeeps(s, v.d, v.c, id);
    } else if Sends(s.lib, key, v) {
      SendKeeps(s, key, v, id);
      var sent := Sys(SetDrive(s.lib, v.d, s.lib.drives[v.d].(moveReq := Some(key))),
                      s.jobs[id := Move(v.d, v.c, v.AskMount?, key, Sent)]);
      MarksKeep(sent, Applied(s.lib, key, op, v));
    } else {
      MarksKeep(s, Applied(s.lib, key, op, v));
    }
  }

  lemma StepKeeps(s: Sys, step: Step)
    requires Inv(s) && Enabled(s, step) && FreshMount(s, step)
    ensures Inv(Next(s, step))
  {
    match step
    case AddRequest(id) => AddRequestKeeps(s, id);
    case MoveRow(id) =>
      if MoveReady(s.lib, s.jobs[id].mount, s.jobs[id].d, s.jobs[id].c) { ClaimKeeps(s, id); }
    case BeginMove(id) => BeginKeeps(s, id);
    case EndMove(id) => if s.jobs[id].mount { EndMountKeeps(s, id); } else { EndUnmountKeeps(s, id); }
    case EndData(id, clear) => EndDataKeeps(s, id, clear);
    case _ => RowKeeps(s, step);
  }

  lemma {:induction false} RunsKeep(s: Sys, steps: seq<Step>)
    requires Inv(s) && ValidRun(s, steps) && FreshRun(s, steps)
    ensures Inv(After(s, steps))
    decreases |steps|
  {
    if steps != [] {
      StepKeeps(s, steps[0]);
      RunsKeep(Next(s, steps[0]), steps[1..]);
    }
  }

  // ---------------------------------------------------------------- exclusive use

  /** No two jobs that run at the same time share a drive or a cartridge. */
  predicate Exclusive(s: Sys) {
    forall i, j :: i in s.jobs && j in s.jobs && i != j && Running(s.jobs[i]) && Running(s.jobs[j]) ==>
      s.jobs[i].d != s.jobs[j].d && s.jobs[i].c != s.jobs[j].c
  }

  /** A cartridge that counts as mounted sits in a drive of its own, and that drive is not busy. */
  predicate MountedAlone(lib: Lib) {
    && MountedAreFree(lib)
    && forall c, x :: 0 <= c < |lib.carts| && 0 <= x < |lib.carts| && c != x && lib.carts[c].state == Mounted ==>
         lib.carts[x].at != lib.carts[c].at
  }

  /** A drive is busy exactly while a job runs on it. */
  predicate BusyMeansHeld(s: Sys) {
    forall d :: 0 <= d < |s.lib.drives| ==> (s.lib.drives[d].busy <==> HeldDrive(s, d))
  }

  lemma InvExclusive(s: Sys)
    requires Inv(s)
    ensures Exclusive(s) && MountedAlone(s.lib) && BusyMeansHeld(s)
  {
    forall i, j | i in s.jobs && j in s.jobs && i != j ensures Compatible(s.jobs[i], s.jobs[j]) {
    }
    forall c | 0 <= c < |s.lib.carts| && s.lib.carts[c].state == Mounted
      ensures s.lib.carts[c].at.InDrive? && s.lib.carts[c].at.d < |s.lib.drives| && !s.lib.drives[s.lib.carts[c].at.d].busy
    {
      assert CartOk(s, c);
    }
    forall d | 0 <= d < |s.lib.drives| ensures s.lib.drives[d].busy <==> HeldDrive(s, d) {
      assert DriveOk(s, d);
      if HeldDrive(s, d) {
        var i :| i in s.jobs && Running(s.jobs[i]) && s.jobs[i].d == d;
        assert JobOk(s.lib, s.jobs[i]);
      }
    }
  }

  /** The main result: in every run from an inventory that never asks for a second mount of a cartridge. */
  lemma DrivesAndTapesAreExclusive(s0: Sys, steps: seq<Step>)
    requires Init(s0) && ValidRun(s0, steps) && FreshRun(s0, steps)
    ensures var s := After(s0, steps);
            Exclusive(s) && MountedAlone(s.lib) && BusyMeansHeld(s)
  {
    InitInv(s0);
    RunsKeep(s0, steps);
    InvExclusive(After(s0, steps));
  }

  /** No assert of the scheduler, of mount or of unmount can fail. */
  lemma AssertsHold(s0: Sys, steps: seq<Step>, step: Step)
    requires Init(s0) && ValidRun(s0, steps) && FreshRun(s0, steps) && Possible(After(s0, steps), step)
    ensures Asserted(After(s0, steps), step)
  {
    InitInv(s0);
    RunsKeep(s0, steps);
    var s := After(s0, steps);
    InvExclusive(s);
    if step.EndMove? { assert JobOk(s.lib, s.jobs[step.id]); }
  }

  /** A migration or recall finds its cartridge in its drive as long as it runs, which it asserts. */
  lemma DataJobHasItsDrive(s0: Sys, steps: seq<Step>, id: nat)
    requires Init(s0) && ValidRun(s0, steps) && FreshRun(s0, steps)
    requires id in After(s0, steps).jobs && After(s0, steps).jobs[id].Data?
    ensures var s := After(s0, steps);
            var j := s.jobs[id];
            && Bounded(s.lib, j) && s.lib.drives[j.d].busy
            && s.lib.carts[j.c].at == InDrive(j.d) && s.lib.carts[j.c].state == InUse
            && forall c :: 0 <= c < |s.lib.carts| && s.lib.carts[c].at == InDrive(j.d) ==> c == j.c
  {
    InitInv(s0);
    RunsKeep(s0, steps);
    var s := After(s0, steps);
    assert JobOk(s.lib, s.jobs[id]);
    forall c | 0 <= c < |s.lib.carts| && s.lib.carts[c].at == InDrive(s.jobs[id].d) ensures c == s.jobs[id].c {
      OnlyCartInDrive(s.lib, c, s.jobs[id].c);
    }
  }

  // ---------------------------------------------------------------- move requests

  /** At most one outstanding move for a drive and at most one for a request; a drive's move request is
      set exactly while its move is outstanding, and names the request that wanted it. */
  lemma OneMovePerDriveAndRequest(s0: Sys, steps: seq<Step>, d: nat, key: Key)
    requires Init(s0) && ValidRun(s0, steps) && FreshRun(s0, steps) && d < |After(s0, steps).lib.drives|
    ensures var s := After(s0, steps);
            && (s.lib.drives[d].moveReq == Some(key) <==> MoveUnderWay(s, d, key))
            && (forall i, j :: i in s.jobs && j in s.jobs && i != j && s.jobs[i].Move? && s.jobs[j].Move? ==>
                  s.jobs[i].d != s.jobs[j].d && s.jobs[i].key != s.jobs[j].key)
  {
    InitInv(s0);
    RunsKeep(s0, steps);
    var s := After(s0, steps);
    assert DriveOk(s, d);
    forall i, j | i in s.jobs && j in s.jobs && i != j ensures Compatible(s.jobs[i], s.jobs[j]) {
    }
    if MoveUnderWay(s, d, key) {
      var i :| i in s.jobs && s.jobs[i].Move? && s.jobs[i].d == d && s.jobs[i].key == key;
      assert JobOk(s.lib, s.jobs[i]);
    }
  }

  /** No outstanding move becomes pointless: a queued mount can start at once, a queued unmount as soon
      as no data transfer uses the cartridge it takes away. */
  lemma QueuedMovesStaySensible(s: Sys, id: nat)
    requires Inv(s) && InPhase(s, id, Queued)
    ensures var j := s.jobs[id];
            && Bounded(s.lib, j)
            && (j.mount ==> MoveReady(s.lib, true, j.d, j.c) && s.lib.carts[j.c].state == Unmounted)
            && (!j.mount ==> (MoveReady(s.lib, false, j.d, j.c)
                              <==> !exists i :: i in s.jobs && s.jobs[i] == Data(j.d, j.c)))
  {
    var j := s.jobs[id];
    assert JobOk(s.lib, j) && DriveOk(s, j.d) && CartOk(s, j.c);
    forall i | i in s.jobs && Running(s.jobs[i]) && (s.jobs[i].d == j.d || s.jobs[i].c == j.c)
      ensures !j.mount && s.jobs[i] == Data(j.d, j.c) && s.lib.drives[j.d].busy
    {
      RunningBesideQueued(s, id, i);
    }
    if HeldCart(s, j.c) {
      var i :| i in s.jobs && Running(s.jobs[i]) && s.jobs[i].c == j.c;
    }
  }

  /** Only a data transfer can use the drive or cartridge of a queued move, and the move is an unmount then. */
  lemma RunningBesideQueued(s: Sys, id: nat, i: nat)
    requires Inv(s) && InPhase(s, id, Queued) && i in s.jobs && Running(s.jobs[i])
    requires s.jobs[i].d == s.jobs[id].d || s.jobs[i].c == s.jobs[id].c
    ensures !s.jobs[id].mount && s.jobs[i] == Data(s.jobs[id].d, s.jobs[id].c) && s.lib.drives[s.jobs[id].d].busy
  {
    assert JobOk(s.lib, s.jobs[id]) && JobOk(s.lib, s.jobs[i]) && Compatible(s.jobs[i], s.jobs[id]);
    OnlyCartInDrive(s.lib, s.jobs[i].c, s.jobs[id].c);
  }

  lemma OnlyCartInDrive(lib: Lib, a: nat, b: nat)
    requires OneCartPerDrive(lib) && a < |lib.carts| && b < |lib.carts|
    ensures lib.carts[a].at.InDrive? && lib.carts[a].at == lib.carts[b].at ==> a == b
  {
  }

  // ---------------------------------------------------------------- the hypothesis

  /** With one drive no second mount can be asked for. */
  lemma OneDriveIsFresh(s: Sys, step: Step)
    requires Inv(s) && |s.lib.drives| == 1 && Enabled(s, step)
    ensures FreshMount(s, step)
  {
    if RowStep(step) {
      RowMoves(s, step);
      var v := RowVerdict(s, step);
      forall i | i in s.jobs && s.jobs[i].Move? ensures s.lib.drives[0].moveReq.Some? {
        assert JobOk(s.lib, s.jobs[i]);
      }
      if v.AskMount? && Sends(s.lib, step.key, v) && MountUnderWay(s, v.c) {
        assert false;
      }
    }
  }

  lemma {:induction false} OneDriveRunsKeep(s: Sys, steps: seq<Step>)
    requires Inv(s) && |s.lib.drives| == 1 && ValidRun(s, steps)
    ensures Inv(After(s, steps))
    decreases |steps|
  {
    if steps != [] {
      OneDriveIsFresh(s, steps[0]);
      StepKeeps(s, steps[0]);
      OneDriveRunsKeep(Next(s, steps[0]), steps[1..]);
    }
  }

  /** A library with one drive needs no hypothesis. */
  lemma OneDriveIsExclusive(s0: Sys, steps: seq<Step>)
    requires Init(s0) && |s0.lib.drives| == 1 && ValidRun(s0, steps)
    ensures var s := After(s0, steps);
            Exclusive(s) && MountedAlone(s.lib) && BusyMeansHeld(s)
  {
    InitInv(s0);
    OneDriveRunsKeep(s0, steps);
    InvExclusive(After(s0, steps));
  }

  // ---------------------------------------------------------------- without it

  lemma RunCons(s: Sys, step: Step, rest: seq<Step>)
    requires Enabled(s, step) && ValidRun(Next(s, step), rest)
    ensures ValidRun(s, [step] + rest) && After(s, [step] + rest) == After(Next(s, step), rest)
  {
    assert ([step] + rest)[1..] == rest;
  }

  /** Two queued mounts of one cartridge, each with an idle and empty drive, both start. */
  lemma BothStart(s: Sys, i: nat, j: nat)
    requires InPhase(s, i, Queued) && InPhase(s, j, Queued)
    requires s.jobs[i].mount && s.jobs[j].mount && s.jobs[i].d != s.jobs[j].d && s.jobs[i].c == s.jobs[j].c
    requires Bounded(s.lib, s.jobs[i]) && Bounded(s.lib, s.jobs[j])
    requires MoveReady(s.lib, true, s.jobs[i].d, s.jobs[i].c) && MoveReady(s.lib, true, s.jobs[j].d, s.jobs[j].c)
    ensures ValidRun(s, [MoveRow(i)] + [MoveRow(j)])
    ensures !Exclusive(After(s, [MoveRow(i)] + [MoveRow(j)]))
  {
    var s1 := Next(s, MoveRow(i));
    assert forall c :: 0 <= c < |s.lib.carts| && MountedIn(s1.lib, c, s.jobs[j].d) ==> MountedIn(s.lib, c, s.jobs[j].d);
    var s2 := Next(s1, MoveRow(j));
    RunCons(s1, MoveRow(j), []);
    assert [MoveRow(j)] + [] == [MoveRow(j)];
    RunCons(s, MoveRow(i), [MoveRow(j)]);
    assert Running(s2.jobs[i]) && Running(s2.jobs[j]) && s2.jobs[i].c == s2.jobs[j].c;
  }

  lemma UnstartedMountIdle(s: Sys, i: nat)
    requires Inv(s) && i in s.jobs && s.jobs[i].Move? && s.jobs[i].mount && !Running(s.jobs[i])
    ensures Bounded(s.lib, s.jobs[i]) && !s.lib.drives[s.jobs[i].d].busy
  {
    assert JobOk(s.lib, s.jobs[i]) && DriveOk(s, s.jobs[i].d);
    forall k | k in s.jobs && Running(s.jobs[k]) ensures s.jobs[k].d != s.jobs[i].d {
      assert JobOk(s.lib, s.jobs[k]) && Compatible(s.jobs[k], s.jobs[i]);
    }
  }

  /** The step that asks for a second mount leaves two mounts of one cartridge. */
  lemma SecondMountSent(s: Sys, step: Step, i: nat)
    requires Inv(s) && RowStep(step) && Enabled(s, step) && RowVerdict(s, step).AskMount?
    requires Sends(s.lib, step.key, RowVerdict(s, step))
    requires i in s.jobs && s.jobs[i].Move? && s.jobs[i].mount && s.jobs[i].c == RowVerdict(s, step).c
    ensures var v, n := RowVerdict(s, step), Next(s, step);
            && step.id != i && n.jobs == s.jobs[step.id := Move(v.d, v.c, true, step.key, Sent)]
            && Bounded(n.lib, n.jobs[step.id]) && Bounded(n.lib, n.jobs[i]) && v.d != n.jobs[i].d
            && (InPhase(s, i, Sent) || InPhase(s, i, Queued))
            && MoveReady(n.lib, true, v.d, v.c) && MoveReady(n.lib, true, n.jobs[i].d, v.c)
  {
    var v, n, j := RowVerdict(s, step), Next(s, step), s.jobs[i];
    RowMoves(s, step);
    assert JobOk(s.lib, j) && CartOk(s, v.c) && DriveOk(s, j.d);
    UnstartedMountIdle(s, i);
    assert forall c, d :: 0 <= c < |s.lib.carts| ==> MountedIn(n.lib, c, d) == MountedIn(s.lib, c, d);
  }

  /** Whenever the hypothesis fails, exclusive use can be lost: both mounts can start, and then two
      drives are busy for one cartridge. */
  lemma SecondMountBreaks(s: Sys, step: Step) returns (rest: seq<Step>)
    requires Inv(s) && Enabled(s, step) && !FreshMount(s, step)
    ensures ValidRun(s, [step] + rest) && !Exclusive(After(s, [step] + rest))
  {
    var v := RowVerdict(s, step);
    var i :| i in s.jobs && s.jobs[i].Move? && s.jobs[i].mount && s.jobs[i].c == v.c;
    SecondMountSent(s, step, i);
    var s1 := Next(s, step);
    var s2 := Next(s1, AddRequest(step.id));
    var both := [MoveRow(i)] + [MoveRow(step.id)];
    if InPhase(s, i, Queued) {
      BothStart(s2, i, step.id);
      RunCons(s1, AddRequest(step.id), both);
      rest := [AddRequest(step.id)] + both;
    } else {
      var s3 := Next(s2, AddRequest(i));
      BothStart(s3, i, step.id);
      RunCons(s2, AddRequest(i), both);
      RunCons(s1, AddRequest(step.id), [AddRequest(i)] + both);
      rest := [AddRequest(step.id)] + ([AddRequest(i)] + both);
    }
    RunCons(s, step, rest);
  }

  /** So a step keeps exclusive use, now and in all that may follow, only if it does not ask for a second
      mount; and if no step does, nothing is ever lost. */
  lemma FreshMountIff(s: Sys, step: Step)
    requires Inv(s) && Enabled(s, step)
    ensures FreshMount(s, step) <==> Inv(Next(s, step))
    ensures !FreshMount(s, step) ==> exists rest :: ValidRun(s, [step] + rest) && !Exclusive(After(s, [step] + rest))
  {
    if FreshMount(s, step) {
      StepKeeps(s, step);
    } else {
      var v := RowVerdict(s, step);
      var i :| i in s.jobs && s.jobs[i].Move? && s.jobs[i].mount && s.jobs[i].c == v.c;
      SecondMountSent(s, step, i);
      assert !Compatible(Next(s, step).jobs[i], Next(s, step).jobs[step.id]);
      var rest := SecondMountBreaks(s, step);
    }
  }

  // ---------------------------------------------------------------- two drives

  /** Two empty drives, one cartridge on the shelf. */
  function TwoDrives(): Sys {
    Sys(Lib([Drive(false, None, OpNoop), Drive(false, None, OpNoop)], [Cart(Unmounted, OnShelf, false, 0)]), map[])
  }

  /** A selective and a transparent recall of the same tape. */
  function FirstRow(): Step { TapeRow(Key(1, ""), OpSelRecall, 0, 10) }

  function SecondRow(): Step { TapeRow(Key(2, ""), OpTraRecall, 0, 11) }

  lemma TwoRecallsMountTwice()
    ensures Init(TwoDrives()) && Enabled(TwoDrives(), FirstRow()) && FreshMount(TwoDrives(), FirstRow())
    ensures var s := Next(TwoDrives(), FirstRow());
            Inv(s) && Enabled(s, SecondRow()) && !FreshMount(s, SecondRow())
  {
    var s0 := TwoDrives();
    var v := RowVerdict(s0, FirstRow());
    assert Suits(s0.lib, Key(1, ""), false, 0);
    assert v == AskMount(0, 0);
    InitInv(s0);
    StepKeeps(s0, FirstRow());
    var s := Next(s0, FirstRow());
    assert !Suits(s.lib, Key(2, ""), false, 0) && Suits(s.lib, Key(2, ""), false, 1);
    assert RowVerdict(s, SecondRow()) == AskMount(1, 0);
    assert s.jobs[10] == Move(0, 0, true, Key(1, ""), Sent);
  }

  /** Nothing but two recalls of one tape at the same time is needed to take two drives for it. */
  lemma TwoDrivesAreNotEnough()
    ensures exists steps :: ValidRun(TwoDrives(), steps) && !Exclusive(After(TwoDrives(), steps))
  {
    TwoRecallsMountTwice();
    var rest := SecondMountBreaks(Next(TwoDrives(), FirstRow()), SecondRow());
    RunCons(TwoDrives(), FirstRow(), [SecondRow()] + rest);
    assert ValidRun(TwoDrives(), [FirstRow()] + ([SecondRow()] + rest));
  }
}
