/**
  The scheduler's loops over drives and cartridges.

  The row of the request queue that is being looked at sits in `op`, `reqNum`,
  `pool`, `tapeId` and `driveId`; the loops overwrite the last two.  `sent`
  collects the movers that were put on their way.  Each method is proved to
  compute the verdict of `Library` and to apply exactly that verdict.
 */
module Scheduler {
  import opened Wrappers
  import opened Library

  // A mover: `mount` or unmount of cartridge `c` in drive `d`
  datatype Order = Order(mount: bool, d: nat, c: nat, key: Key)

  function Orders(lib: Lib, key: Key, v: Verdict): seq<Order> {
    if Sends(lib, key, v) then [Order(v.AskMount?, v.d, v.c, key)] else []
  }

  /** The mover that a recall sends: at most one, none while one is on its way for it, into a drive that it can
      have; and it is sent to mount its tape exactly if that is on the shelf and such a drive is empty. */
  lemma TapeOrders(lib: Lib, key: Key, op: Op, t: nat)
    requires t < |lib.carts| && MountedAreFree(lib)
    ensures var orders := Orders(lib, key, TapeVerdict(lib, key, op, t));
            && |orders| <= 1
            && (orders != [] ==> !RequestExists(lib, key) && OrderFits(lib, orders[0]) && orders[0].key == key)
            && (orders != [] && orders[0].mount ==> orders[0].c == t)
            && ((exists d :: orders == [Order(true, d, t, key)])
                <==> lib.carts[t].state == Unmounted && DriveFor(lib, key, false) && !RequestExists(lib, key))
  {
    TapeMoves(lib, key, op, t);
    TapeMountsIff(lib, key, op, t);
    var v := TapeVerdict(lib, key, op, t);
    if Asks(v) { LoadedIff(lib, v.d); }
    if v.AskMount? && !RequestExists(lib, key) { assert Orders(lib, key, v) == [Order(true, v.d, t, key)]; }
  }

  /** The order makes sense: an unmounted cartridge goes into an empty drive, a mounted one out of its own. */
  predicate OrderFits(lib: Lib, o: Order) {
    && o.d < |lib.drives| && o.c < |lib.carts| && !lib.drives[o.d].busy
    && (if o.mount then lib.carts[o.c].state == Unmounted && !HasMounted(lib, o.d)
        else lib.carts[o.c].state == Mounted && lib.carts[o.c].at == InDrive(o.d))
  }

  class Scheduler {
    var drives: seq<Drive>
    var carts: seq<Cart>
    var op: Op
    var reqNum: nat
    var pool: string
    var tapeId: nat
    var driveId: nat
    var sent: seq<Order>

    function View(): Lib
      reads this
    {
      Lib(drives, carts)
    }

    function RowKey(): Key
      reads this
    {
      Key(reqNum, pool)
    }

    /** The row is for a recall or a migration. */
    predicate DataRow()
      reads this
    {
      op == OpTraRecall || op == OpSelRecall || op == OpMigration
    }

    /** The row stays what it is, and verdict `v` was carried out. */
    twostate predicate Did(v: Verdict)
      reads this
    {
      && op == old(op) && reqNum == old(reqNum) && pool == old(pool)
      && Fits(old(View()), v)
      && View() == Applied(old(View()), RowKey(), op, v)
      && sent == old(sent) + Orders(old(View()), RowKey(), v)
      && (v.Run? ==> driveId == v.d && tapeId == v.c)
    }

    /** Scheduler::makeUse */
    method MakeUse(d: nat, c: nat)
      requires d < |drives| && c < |carts|
      modifies `drives, `carts
      ensures View() == MadeUse(old(View()), d, c)
    {
      drives := drives[d := drives[d].(busy := true)];
      carts := carts[c := carts[c].(state := InUse)];
    }

    /** Scheduler::driveIsUsable */
    method DriveIsUsable(d: nat) returns (usable: bool)
      requires d < |drives|
      ensures usable == Usable(drives[d], RowKey())
    {
      var moveReq := drives[d].moveReq;
      if drives[d].busy { return false; }
      if moveReq.Some? && !(moveReq.value.num == reqNum && moveReq.value.pool == pool) { return false; }
      return true;
    }

    /** LTFSDMInventory::requestExists */
    method RequestExists() returns (exists_: bool)
      ensures exists_ == Library.RequestExists(View(), RowKey())
    {
      for d := 0 to |drives|
        invariant forall e :: 0 <= e < d ==> drives[e].moveReq != Some(RowKey())
      {
        if drives[d].moveReq == Some(Key(reqNum, pool)) { return true; }
      }
      return false;
    }

    /** The mounted cartridge of a drive, as the loops over all cartridges look for it. */
    method FindMounted(d: nat) returns (c: Option<nat>)
      ensures c == FirstMounted(View(), d, 0)
      ensures c.Some? <==> Loaded(View(), d)
    {
      for i := 0 to |carts|
        invariant FirstMounted(View(), d, 0) == FirstMounted(View(), d, i)
      {
        if carts[i].at == InDrive(d) && carts[i].state == Mounted { return Some(i); }
      }
      return None;
    }

    /** Scheduler::moveTape */
    method MoveTape(d: nat, c: nat, mount: bool)
      requires d < |drives| && c < |carts| && DataRow()
      modifies `drives, `sent
      ensures var v := if mount then AskMount(d, c) else AskUnmount(d, c);
              Did(v)
    {
      if op == OpMount || op == OpMove || op == OpUnmount { return; }
      var already := RequestExists();
      if already { return; }
      drives := drives[d := drives[d].(moveReq := Some(RowKey()))];
      sent := sent + [Order(mount, d, c, RowKey())];
    }

    /** The first loop of poolResAvail: take a mounted cartridge, or see whether there is an unmounted one. */
    method TakeMounted(members: seq<nat>, minFileSize: nat) returns (found: bool, unmountedExists: bool)
      requires Known(View(), members) && MountedAreFree(View())
      modifies `drives, `carts, `tapeId, `driveId
      ensures found == FirstMember(old(View()), members, Mounted, minFileSize, 0).Some?
      ensures found ==> var c := members[FirstMember(old(View()), members, Mounted, minFileSize, 0).value];
                        Did(Run(old(carts)[c].at.d, c))
      ensures !found ==> View() == old(View()) && (unmountedExists <==> SomeUnmounted(View(), members))
    {
      unmountedExists := false;
      for i := 0 to |members|
        invariant View() == old(View())
        invariant FirstMember(View(), members, Mounted, minFileSize, 0)
               == FirstMember(View(), members, Mounted, minFileSize, i)
        invariant unmountedExists <==> exists j :: 0 <= j < i && carts[members[j]].state == Unmounted
      {
        var cart := carts[members[i]];
        if cart.state == Mounted {
          tapeId := members[i];
          found := false;
          for d := 0 to |drives|
            invariant View() == old(View()) && tapeId == members[i] && !found
            invariant forall e :: 0 <= e < d ==> !(cart.at == InDrive(e) && Room(cart, minFileSize))
          {
            if cart.at == InDrive(d) && MEGABYTE * cart.cap >= minFileSize {
              assert !drives[d].busy;
              driveId := d;
              MakeUse(d, tapeId);
              return true, unmountedExists;
            }
          }
          assert found || MEGABYTE * cart.cap < minFileSize;
        } else if cart.state == Unmounted {
          unmountedExists := true;
        }
      }
      found := false;
    }

    /** The second loop: mount a cartridge of the pool in the first empty drive. */
    method MountMember(members: seq<nat>, minFileSize: nat) returns (done: bool)
      requires Known(View(), members) && DataRow()
      modifies `drives, `sent
      ensures var empty := FirstDrive(old(View()), RowKey(), false, 0);
              var fit := FirstMember(old(View()), members, Unmounted, minFileSize, 0);
              && (done <==> empty.Some? && fit.Some?)
              && (done ==> Did(AskMount(empty.value, members[fit.value])))
              && (!done ==> View() == old(View()) && sent == old(sent))
    {
      for d := 0 to |drives|
        invariant View() == old(View()) && sent == old(sent)
        invariant FirstMember(View(), members, Unmounted, minFileSize, 0).Some? ==>
                  FirstDrive(View(), RowKey(), false, 0) == FirstDrive(View(), RowKey(), false, d)
      {
        var usable := DriveIsUsable(d);
        if !usable { continue; }
        var mounted := FindMounted(d);
        if mounted.None? {
          for i := 0 to |members|
            invariant View() == old(View()) && sent == old(sent)
            invariant FirstMember(View(), members, Unmounted, minFileSize, 0)
                   == FirstMember(View(), members, Unmounted, minFileSize, i)
          {
            var cart := carts[members[i]];
            if cart.state == Unmounted && MEGABYTE * cart.cap >= minFileSize {
              MoveTape(d, members[i], true);
              return true;
            }
          }
        }
      }
      return false;
    }

    /** The last loop: empty the first drive that has an unused cartridge. */
    method UnmountSome() returns (done: bool)
      requires DataRow()
      modifies `drives, `sent
      ensures var loaded := FirstDrive(old(View()), RowKey(), true, 0);
              && (done <==> loaded.Some?)
              && (done ==> FirstMounted(old(View()), loaded.value, 0).Some?
                           && Did(AskUnmount(loaded.value, FirstMounted(old(View()), loaded.value, 0).value)))
              && (!done ==> View() == old(View()) && sent == old(sent))
    {
      for d := 0 to |drives|
        invariant View() == old(View()) && sent == old(sent)
        invariant FirstDrive(View(), RowKey(), true, 0) == FirstDrive(View(), RowKey(), true, d)
      {
        var usable := DriveIsUsable(d);
        if !usable { continue; }
        var mounted := FindMounted(d);
        if mounted.Some? {
          MoveTape(d, mounted.value, false);
          return true;
        }
      }
      return false;
    }

    /** Scheduler::poolResAvail */
    method PoolResAvail(members: seq<nat>, minFileSize: nat) returns (avail: bool)
      requires Known(View(), members) && MountedAreFree(View()) && DataRow() && pool != ""
      modifies this
      ensures var v := PoolVerdict(old(View()), RowKey(), members, minFileSize);
              Did(v) && avail == v.Run?
    {
      var unmountedExists, done;
      avail, unmountedExists := TakeMounted(members, minFileSize);
      if avail { return true; }
      if !unmountedExists { return false; }
      done := MountMember(members, minFileSize);
      if done { return false; }
      var under := RequestExists();
      if under { return false; }
      done := UnmountSome();
      return false;
    }

    /** The loop that looks for the drive of a mounted cartridge; it asserts that it finds one, and that one free. */
    method TakeWanted()
      requires tapeId < |carts| && MountedAreFree(View()) && carts[tapeId].state == Mounted
      modifies `drives, `carts, `driveId
      ensures Did(Run(old(carts)[tapeId].at.d, tapeId))
    {
      var found := false;
      for d := 0 to |drives|
        invariant View() == old(View()) && !found
        invariant forall e :: 0 <= e < d ==> carts[tapeId].at != InDrive(e)
      {
        if carts[tapeId].at == InDrive(d) {
          assert !drives[d].busy;
          driveId := d;
          MakeUse(d, tapeId);
          return;
        }
      }
      assert false;
    }

    /** The loop that looks for a tape to unmount; the wanted cartridge then is no longer requested. */
    method UnmountForWanted() returns (done: bool)
      requires tapeId < |carts| && DataRow()
      modifies `drives, `carts, `sent
      ensures var loaded := FirstDrive(old(View()), RowKey(), true, 0);
              && (done <==> loaded.Some?)
              && (done ==> FirstMounted(old(View()), loaded.value, 0).Some?
                           && Did(AskUnmountFor(loaded.value, FirstMounted(old(View()), loaded.value, 0).value, tapeId)))
              && (!done ==> View() == old(View()) && sent == old(sent))
    {
      done := UnmountSome();
      if done {
        carts := carts[tapeId := carts[tapeId].(requested := false)];
      }
    }

    /** Scheduler::tapeResAvail */
    method TapeResAvail() returns (avail: bool)
      requires tapeId < |carts| && MountedAreFree(View()) && DataRow()
      modifies this
      ensures var v := TapeVerdict(old(View()), RowKey(), op, old(tapeId));
              Did(v) && avail == v.Run? && tapeId == old(tapeId)
    {
      if carts[tapeId].state == Moving || carts[tapeId].state == InUse { return false; }
      if carts[tapeId].state == Mounted {
        TakeWanted();
        return true;
      }
      var done := MountWanted();
      if done { return false; }
      done := UnmountForWanted();
      if done { return false; }
      if carts[tapeId].requested { return false; }
      SuspendSome();
      return false;
    }

    /** The loop that looks for a free drive for the wanted cartridge. */
    method MountWanted() returns (done: bool)
      requires tapeId < |carts| && DataRow()
      modifies `drives, `sent
      ensures var empty := FirstDrive(old(View()), RowKey(), false, 0);
              && (done <==> empty.Some? && carts[tapeId].state == Unmounted)
              && (done ==> Did(AskMount(empty.value, tapeId)))
              && (!done ==> View() == old(View()) && sent == old(sent))
    {
      for d := 0 to |drives|
        invariant View() == old(View()) && sent == old(sent)
        invariant carts[tapeId].state == Unmounted ==>
                  FirstDrive(View(), RowKey(), false, 0) == FirstDrive(View(), RowKey(), false, d)
      {
        var usable := DriveIsUsable(d);
        if !usable { continue; }
        var mounted := FindMounted(d);
        if mounted.None? && carts[tapeId].state == Unmounted {
          MoveTape(d, tapeId, true);
          return true;
        }
      }
      return false;
    }

    /** The loop that suspends an operation of lower priority. */
    method SuspendSome()
      requires tapeId < |carts|
      modifies `drives, `carts
      ensures var victim := FirstToSuspend(old(View()), op, 0);
              if victim.Some? then Did(Suspend(victim.value, tapeId)) else View() == old(View())
    {
      for d := 0 to |drives|
        invariant View() == old(View())
        invariant FirstToSuspend(View(), op, 0) == FirstToSuspend(View(), op, d)
      {
        if Rank(op) < Rank(drives[d].toUnblock) {
          SetToUnblock(d);
          carts := carts[tapeId := carts[tapeId].(requested := true)];
          return;
        }
      }
    }

    /** LTFSDMDrive::setToUnblock: only a higher priority replaces the one that is set. */
    method SetToUnblock(d: nat)
      requires d < |drives|
      modifies `drives
      ensures var lower := Rank(op) < Rank(old(drives)[d].toUnblock);
              drives == if lower then old(drives)[d := old(drives)[d].(toUnblock := op)] else old(drives)
    {
      if Rank(op) < Rank(drives[d].toUnblock) {
        drives := drives[d := drives[d].(toUnblock := op)];
      }
    }

    /** LTFSDMInventory::inventorize: nothing while a drive is busy, else both lists are filled anew. */
    method Inventorize(numDrives: nat, found: seq<(Place, nat)>) returns (done: bool)
      modifies `drives, `carts
      ensures done <==> forall d :: 0 <= d < |old(drives)| ==> !old(drives)[d].busy
      ensures !done ==> View() == old(View())
      ensures done ==> View() == Fresh(numDrives, found)
    {
      for d := 0 to |drives|
        invariant forall e :: 0 <= e < d ==> !drives[e].busy
      {
        if drives[d].busy { return false; }
      }
      drives, carts := [], [];
      for d := 0 to numDrives
        invariant carts == []
        invariant |drives| == d && forall e :: 0 <= e < d ==> drives[e] == Drive(false, None, OpNoop)
      {
        drives := drives + [Drive(false, None, OpNoop)];
      }
      for i := 0 to |found|
        invariant drives == Fresh(numDrives, found).drives
        invariant |carts| == i && forall j :: 0 <= j < i ==> carts[j] == FreshCart(numDrives, found[j])
      {
        var cart := Cart(Unmounted, found[i].0, false, found[i].1);
        for d := 0 to |drives|
          invariant cart == Cart(Unmounted, found[i].0, false, found[i].1)
          invariant forall e :: 0 <= e < d ==> found[i].0 != InDrive(e)
        {
          if found[i].0 == InDrive(d) {
            cart := cart.(state := Mounted);
            break;
          }
        }
        carts := carts + [cart];
      }
      return true;
    }

    /** Scheduler::resAvailTapeMove */
    method ResAvailTapeMove() returns (avail: bool)
      requires driveId < |drives| && tapeId < |carts|
      requires op == OpMount || op == OpMove || op == OpUnmount
      modifies this
      ensures avail == MoveReady(old(View()), old(op) != OpUnmount, old(driveId), old(tapeId))
      ensures Did(if avail then Run(old(driveId), old(tapeId)) else Wait)
    {
      if drives[driveId].busy { return false; }
      if op == OpMount || op == OpMove {
        var mounted := FindMounted(driveId);
        if mounted.Some? { return false; }
      } else {
        if carts[tapeId].at != InDrive(driveId) || carts[tapeId].state != Mounted { return false; }
      }
      MakeUse(driveId, tapeId);
      return true;
    }

    // -- the movers and the end of a data transfer

    /** TapeMover::execRequest with LTFSDMInventory::mount and LTFSDMInventory::unmount, when the tape
        library succeeds.  The requirements are the asserts of the code. */
    method ExecMover(d: nat, c: nat, mount: bool)
      requires d < |drives| && c < |carts| && drives[d].busy
      requires !mount ==> carts[c].at == InDrive(d)
      modifies `drives, `carts
      ensures View() == if mount then MountDone(old(View()), d, c) else UnmountDone(old(View()), d, c)
    {
      carts := carts[c := carts[c].(state := Moving)];
      assert drives[d].busy && carts[c].state == Moving;
      if mount {
        carts := carts[c := carts[c].(at := InDrive(d))];
        carts := carts[c := carts[c].(state := Mounted)];
      } else {
        assert carts[c].at == InDrive(d);
        carts := carts[c := carts[c].(at := OnShelf)];
        carts := carts[c := carts[c].(state := Unmounted)];
      }
      drives := drives[d := drives[d].(busy := false)];
      drives := drives[d := drives[d].(moveReq := None)];
    }

    /** The block at the end of the tape part of Migration, SelRecall and TransRecall. */
    method Release(d: nat, c: nat, clear: bool)
      requires d < |drives| && c < |carts|
      modifies `drives, `carts
      ensures View() == Released(old(View()), d, c, clear)
    {
      if carts[c].state == InUse {
        carts := carts[c := carts[c].(state := Mounted)];
      }
      drives := drives[d := drives[d].(busy := false)];
      if clear {
        drives := drives[d := drives[d].(toUnblock := OpNoop)];
      }
    }
  }
}
