/**
  What scheduler, movers and tape library do together for one request, from the
  first look at its row to the job that works on the tape.
 */
module DriveEffects {
  import opened Wrappers
  import opened Library
  import opened DriveSharing
  import opened DriveGuarantees

  function MoveSteps(id: nat): seq<Step> { [AddRequest(id), MoveRow(id), BeginMove(id), EndMove(id)] }

  lemma OneStep(s: Sys, step: Step)
    requires Enabled(s, step)
    ensures ValidRun(s, [step]) && After(s, [step]) == Next(s, step)
  {
    assert [step][1..] == [];
  }

  /** The row of a move is let go exactly if nobody uses the drive and, for a mount, it has no mounted cartridge,
      for an unmount, its cartridge is mounted there; else nothing happens. */
  lemma MoveStartsIff(s: Sys, id: nat)
    requires Enabled(s, MoveRow(id))
    ensures var d, c := s.jobs[id].d, s.jobs[id].c;
            Next(s, MoveRow(id)) == s <==>
            || s.lib.drives[d].busy
            || (if s.jobs[id].mount then HasMounted(s.lib, d)
                else s.lib.carts[c].at != InDrive(d) || s.lib.carts[c].state != Mounted)
  {
    var d := s.jobs[id].d;
    assert MoveReady(s.lib, s.jobs[id].mount, d, s.jobs[id].c) ==> Next(s, MoveRow(id)).jobs[id].phase == Claimed;
    LoadedIff(s.lib, d);
  }

  /** The cartridge of the move is mounted in the drive, or is back on the shelf, and the drive is free for
      anybody; nothing else of the library has changed, and the move is gone. */
  function Moved(s: Sys, id: nat): Sys
    requires InPhase(s, id, Sent) && Bounded(s.lib, s.jobs[id])
  {
    var d, c, mount := s.jobs[id].d, s.jobs[id].c, s.jobs[id].mount;
    Sys(Lib(s.lib.drives[d := s.lib.drives[d].(moveReq := None)],
            s.lib.carts[c := if mount then s.lib.carts[c].(state := Mounted, at := InDrive(d))
                             else s.lib.carts[c].(state := Unmounted, at := OnShelf)]),
        s.jobs - {id})
  }

  /** A move that was sent into a drive that nobody uses runs to its end, and anything that is possible then can
      follow: a mounted cartridge leaves the drive, or one from the shelf gets into it. */
  lemma MoveTakesEffect(s: Sys, id: nat, rest: seq<Step>)
    requires InPhase(s, id, Sent) && Bounded(s.lib, s.jobs[id]) && !s.lib.drives[s.jobs[id].d].busy
    requires if s.jobs[id].mount then !HasMounted(s.lib, s.jobs[id].d)
             else s.lib.carts[s.jobs[id].c].at == InDrive(s.jobs[id].d) && s.lib.carts[s.jobs[id].c].state == Mounted
    requires ValidRun(Moved(s, id), rest)
    ensures ValidRun(s, MoveSteps(id) + rest) && After(s, MoveSteps(id) + rest) == After(Moved(s, id), rest)
  {
    var j := s.jobs[id];
    LoadedIff(s.lib, j.d);
    var s1 := Next(s, AddRequest(id));
    assert MoveReady(s1.lib, j.mount, j.d, j.c);
    var s2 := Next(s1, MoveRow(id));
    var s3 := Next(s2, BeginMove(id));
    assert Next(s3, EndMove(id)).jobs == s.jobs - {id};
    assert Next(s3, EndMove(id)) == Moved(s, id);
    RunCons(s3, EndMove(id), rest);
    RunCons(s2, BeginMove(id), [EndMove(id)] + rest);
    RunCons(s1, MoveRow(id), [BeginMove(id)] + ([EndMove(id)] + rest));
    RunCons(s, AddRequest(id), [MoveRow(id)] + ([BeginMove(id)] + ([EndMove(id)] + rest)));
    assert MoveSteps(id) + rest == [AddRequest(id)] + ([MoveRow(id)] + ([BeginMove(id)] + ([EndMove(id)] + rest)));
  }

  /** A recall whose tape is on the shelf, when an empty drive can be had: the tape is mounted there, and the
      recall runs with it.  No other drive and no other cartridge is touched. */
  lemma MountGetsTheTape(s: Sys, key: Key, op: Op, t: nat, move: nat, job: nat) returns (d: nat)
    requires t < |s.lib.carts| && s.lib.carts[t].state == Unmounted && MountedAreFree(s.lib)
    requires DriveFor(s.lib, key, false) && !RequestExists(s.lib, key) && move !in s.jobs && job !in s.jobs
    ensures var steps := [TapeRow(key, op, t, move)] + (MoveSteps(move) + [TapeRow(key, op, t, job)]);
            && ValidRun(s, steps)
            && d < |s.lib.drives| && !s.lib.drives[d].busy && s.lib.drives[d].moveReq == None && !HasMounted(s.lib, d)
            && After(s, steps) == Sys(Lib(s.lib.drives[d := s.lib.drives[d].(busy := true)],
                                          s.lib.carts[t := s.lib.carts[t].(state := InUse, at := InDrive(d))]),
                                      s.jobs[job := Data(d, t)])
  {
    var ask := TapeRow(key, op, t, move);
    TapeMountsIff(s.lib, key, op, t);
    var v := TapeVerdict(s.lib, key, op, t);
    d := v.d;
    TapeMoves(s.lib, key, op, t);
    LoadedIff(s.lib, d);
    var s1 := Next(s, ask);
    assert s1.lib.carts == s.lib.carts && s1.jobs[move] == Move(d, t, true, key, Sent);
    var s2 := Moved(s1, move);
    assert s2.jobs == s.jobs && s2.lib.drives == s.lib.drives;
    TapeRunsIff(s2.lib, key, op, t);
    OneStep(s2, TapeRow(key, op, t, job));
    MoveTakesEffect(s1, move, [TapeRow(key, op, t, job)]);
    RunCons(s, ask, MoveSteps(move) + [TapeRow(key, op, t, job)]);
  }

  /** A migration that cannot run, when an empty drive can be had and a cartridge of its pool on the shelf has
      room for its smallest job: such a cartridge is mounted there, and the migration runs with it. */
  lemma MountGetsAMember(s: Sys, key: Key, members: seq<nat>, need: nat, move: nat, job: nat) returns (d: nat, c: nat)
    requires Known(s.lib, members) && MountedAreFree(s.lib) && !CanRun(s.lib, members, need)
    requires Mountable(s.lib, members, need) && DriveFor(s.lib, key, false) && !RequestExists(s.lib, key)
    requires move !in s.jobs && job !in s.jobs
    ensures var steps := [PoolRow(key, members, need, move)] + (MoveSteps(move) + [PoolRow(key, members, need, job)]);
            && ValidRun(s, steps)
            && d < |s.lib.drives| && !s.lib.drives[d].busy && s.lib.drives[d].moveReq == None && !HasMounted(s.lib, d)
            && c in members && c < |s.lib.carts| && s.lib.carts[c].state == Unmounted && 1048576 * s.lib.carts[c].cap >= need
            && After(s, steps) == Sys(Lib(s.lib.drives[d := s.lib.drives[d].(busy := true)],
                                          s.lib.carts[c := s.lib.carts[c].(state := InUse, at := InDrive(d))]),
                                      s.jobs[job := Data(d, c)])
  {
    var ask := PoolRow(key, members, need, move);
    PoolAsksIff(s.lib, key, members, need);
    PoolMoves(s.lib, key, members, need);
    var v := PoolVerdict(s.lib, key, members, need);
    d, c := v.d, v.c;
    LoadedIff(s.lib, d);
    var s1 := Next(s, ask);
    assert s1.lib.carts == s.lib.carts && s1.jobs[move] == Move(d, c, true, key, Sent);
    var s2 := Moved(s1, move);
    assert s2.jobs == s.jobs && s2.lib.drives == s.lib.drives;
    OnlyMember(s.lib, s2.lib, key, members, need, c);
    OneStep(s2, PoolRow(key, members, need, job));
    MoveTakesEffect(s1, move, [PoolRow(key, members, need, job)]);
    RunCons(s, ask, MoveSteps(move) + [PoolRow(key, members, need, job)]);
  }

  lemma OnlyMember(lib: Lib, n: Lib, key: Key, members: seq<nat>, need: nat, c: nat)
    requires Known(lib, members) && Known(n, members) && MountedAreFree(n) && !CanRun(lib, members, need)
    requires c in members && c < |lib.carts| && n.carts == lib.carts[c := n.carts[c]]
    requires n.carts[c].state == Mounted && Room(n.carts[c], need)
    ensures PoolVerdict(n, key, members, need).Run? && PoolVerdict(n, key, members, need).c == c
    ensures n.carts[c].at == InDrive(PoolVerdict(n, key, members, need).d)
  {
    var i :| 0 <= i < |members| && members[i] == c;
    assert MemberFits(n, members, Mounted, need, i);
    assert forall k :: 0 <= k < |members| && members[k] != c ==>
      MemberFits(n, members, Mounted, need, k) == MemberFits(lib, members, Mounted, need, k);
  }

  /** A recall whose tape is on the shelf, when there is no empty drive but one with an idle cartridge: that
      cartridge goes back to the shelf, and its drive can be had. */
  lemma UnmountMakesRoom(s: Sys, key: Key, op: Op, t: nat, id: nat) returns (m: Sys, d: nat, c: nat)
    requires t < |s.lib.carts| && s.lib.carts[t].state == Unmounted && MountedAreFree(s.lib) && OneCartPerDrive(s.lib)
    requires DriveFor(s.lib, key, true) && !DriveFor(s.lib, key, false) && !RequestExists(s.lib, key) && id !in s.jobs
    ensures d < |s.lib.drives| && !s.lib.drives[d].busy && s.lib.drives[d].moveReq == None
    ensures c < |s.lib.carts| && c != t && s.lib.carts[c].at == InDrive(d) && s.lib.carts[c].state == Mounted
    ensures m == s.(lib := s.lib.(carts := s.lib.carts[c := s.lib.carts[c].(state := Unmounted, at := OnShelf)]
                                                      [t := s.lib.carts[t].(requested := false)]))
    ensures forall rest :: ValidRun(m, rest) ==>
              var steps := [TapeRow(key, op, t, id)] + (MoveSteps(id) + rest);
              ValidRun(s, steps) && After(s, steps) == After(m, rest)
  {
    TapeUnmountsIff(s.lib, key, op, t);
    TapeMoves(s.lib, key, op, t);
    var v := TapeVerdict(s.lib, key, op, t);
    d, c := v.d, v.c;
    var s1 := Next(s, TapeRow(key, op, t, id));
    assert s1.jobs[id] == Move(d, c, false, key, Sent);
    m := Moved(s1, id);
    assert m.jobs == s.jobs && m.lib.drives == s.lib.drives;
    forall rest | ValidRun(m, rest)
      ensures var steps := [TapeRow(key, op, t, id)] + (MoveSteps(id) + rest);
              ValidRun(s, steps) && After(s, steps) == After(m, rest)
    {
      MoveTakesEffect(s1, id, rest);
      RunCons(s, TapeRow(key, op, t, id), MoveSteps(id) + rest);
    }
  }

  /** Another drive that could be had has the cartridge that kept it from being empty before. */
  lemma StillTaken(lib: Lib, key: Key, d: nat, c: nat, t: nat)
    requires d < |lib.drives| && !lib.drives[d].busy && lib.drives[d].moveReq == None && !DriveFor(lib, key, false)
    requires c < |lib.carts| && t < |lib.carts| && lib.carts[c].at != InDrive(d)
    ensures HasMounted(lib.(carts := lib.carts[c := lib.carts[c].(state := Unmounted, at := OnShelf)]
                                              [t := lib.carts[t].(requested := false)]), d)
  {
    assert HasMounted(lib, d);
    var b :| 0 <= b < |lib.carts| && lib.carts[b].at == InDrive(d) && lib.carts[b].state == Mounted;
    var n := lib.(carts := lib.carts[c := lib.carts[c].(state := Unmounted, at := OnShelf)]
                                    [t := lib.carts[t].(requested := false)]);
    assert n.carts[b].at == InDrive(d) && n.carts[b].state == Mounted;
  }

  /** The recall then gets that drive, with its own tape in the place of the other one. */
  lemma ExchangeGetsTheTape(s: Sys, key: Key, op: Op, t: nat, unmount: nat, move: nat, job: nat) returns (d: nat, c: nat)
    requires t < |s.lib.carts| && s.lib.carts[t].state == Unmounted && MountedAreFree(s.lib) && OneCartPerDrive(s.lib)
    requires DriveFor(s.lib, key, true) && !DriveFor(s.lib, key, false) && !RequestExists(s.lib, key)
    requires unmount !in s.jobs && move !in s.jobs && job !in s.jobs
    ensures var steps := [TapeRow(key, op, t, unmount)]
                         + (MoveSteps(unmount) + ([TapeRow(key, op, t, move)] + (MoveSteps(move) + [TapeRow(key, op, t, job)])));
            && ValidRun(s, steps)
            && d < |s.lib.drives| && !s.lib.drives[d].busy && s.lib.drives[d].moveReq == None
            && c < |s.lib.carts| && c != t && s.lib.carts[c].at == InDrive(d) && s.lib.carts[c].state == Mounted
            && After(s, steps) == Sys(Lib(s.lib.drives[d := s.lib.drives[d].(busy := true)],
                                          s.lib.carts[c := s.lib.carts[c].(state := Unmounted, at := OnShelf)]
                                                     [t := s.lib.carts[t].(state := InUse, at := InDrive(d), requested := false)]),
                                      s.jobs[job := Data(d, t)])
  {
    var free: nat, m: Sys;
    m, free, c := UnmountMakesRoom(s, key, op, t, unmount);
    assert DriveFor(m.lib, key, false) by {
      assert !m.lib.drives[free].busy && ForNobodyElse(m.lib.drives[free], key);
      assert !HasMounted(m.lib, free);
    }
    d := MountGetsTheTape(m, key, op, t, move, job);
    if d != free { StillTaken(s.lib, key, d, c, t); }
    var rest := [TapeRow(key, op, t, move)] + (MoveSteps(move) + [TapeRow(key, op, t, job)]);
    assert ValidRun(m, rest);
  }
}
