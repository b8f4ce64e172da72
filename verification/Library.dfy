/**
  What the scheduler sees of the tape library: drives and cartridges, and what
  it decides for one row of the request queue.

  A drive is named by its position in the inventory's list and so is a
  cartridge.  A cartridge in the slot of drive `d` is at `InDrive(d)`.  The
  verdicts below are what `Scheduler` computes with nested loops.
 */
module Library {
  import opened Wrappers

  // DataBase::operation, in its order
  datatype Op = OpMount | OpMove | OpTraRecall | OpSelRecall | OpMigration | OpFormat | OpCheck | OpUnmount | OpNoop

  function Rank(op: Op): nat {
    match op
    case OpMount => 0
    case OpMove => 1
    case OpTraRecall => 2
    case OpSelRecall => 3
    case OpMigration => 4
    case OpFormat => 5
    case OpCheck => 6
    case OpUnmount => 7
    case OpNoop => 8
  }

  // Which request a drive is being prepared for
  datatype Key = Key(num: nat, pool: string)

  datatype Drive = Drive(busy: bool, moveReq: Option<Key>, toUnblock: Op)

  datatype CartState = InUse | Mounted | Moving | Unmounted | Unknown

  datatype Place = InDrive(d: nat) | OnShelf

  datatype Cart = Cart(state: CartState, at: Place, requested: bool, cap: nat)

  datatype Lib = Lib(drives: seq<Drive>, carts: seq<Cart>)

  const MEGABYTE := 1024 * 1024

  // ---------------------------------------------------------------- questions about the library

  /** Scheduler::driveIsUsable */
  predicate Usable(drive: Drive, key: Key) {
    !drive.busy && (drive.moveReq.None? || drive.moveReq.value == key)
  }

  predicate MountedIn(lib: Lib, c: nat, d: nat) {
    c < |lib.carts| && lib.carts[c].at == InDrive(d) && lib.carts[c].state == Mounted
  }

  /** Drive `d` has a cartridge that is mounted and not in use. */
  predicate Loaded(lib: Lib, d: nat) {
    exists c :: 0 <= c < |lib.carts| && MountedIn(lib, c, d)
  }

  /** LTFSDMInventory::requestExists */
  predicate RequestExists(lib: Lib, key: Key) {
    exists d :: 0 <= d < |lib.drives| && lib.drives[d].moveReq == Some(key)
  }

  predicate Room(cart: Cart, need: nat) { MEGABYTE * cart.cap >= need }

  /** What the asserts of the scheduler rely on. */
  predicate MountedAreFree(lib: Lib) {
    forall c :: 0 <= c < |lib.carts| && lib.carts[c].state == Mounted ==>
      lib.carts[c].at.InDrive? && lib.carts[c].at.d < |lib.drives| && !lib.drives[lib.carts[c].at.d].busy
  }

  /** The pool lists cartridges of the inventory. */
  predicate Known(lib: Lib, members: seq<nat>) {
    forall i :: 0 <= i < |members| ==> members[i] < |lib.carts|
  }

  // ---------------------------------------------------------------- searches

  predicate Suits(lib: Lib, key: Key, loaded: bool, d: nat)
    requires d < |lib.drives|
  {
    Usable(lib.drives[d], key) && Loaded(lib, d) == loaded
  }

  /** The first usable drive, from `from` on, that is loaded or is not. */
  function FirstDrive(lib: Lib, key: Key, loaded: bool, from: nat): (r: Option<nat>)
    requires from <= |lib.drives|
    ensures r.Some? ==> from <= r.value < |lib.drives| && Suits(lib, key, loaded, r.value)
                        && forall d :: from <= d < r.value ==> !Suits(lib, key, loaded, d)
    ensures r.None? ==> forall d :: from <= d < |lib.drives| ==> !Suits(lib, key, loaded, d)
    decreases |lib.drives| - from
  {
    if from == |lib.drives| then None
    else if Suits(lib, key, loaded, from) then Some(from)
    else FirstDrive(lib, key, loaded, from + 1)
  }

  function FirstMounted(lib: Lib, d: nat, from: nat): (r: Option<nat>)
    requires from <= |lib.carts|
    ensures r.Some? ==> from <= r.value && MountedIn(lib, r.value, d)
                        && forall c :: from <= c < r.value ==> !MountedIn(lib, c, d)
    ensures r.None? ==> forall c :: from <= c < |lib.carts| ==> !MountedIn(lib, c, d)
    decreases |lib.carts| - from
  {
    if from == |lib.carts| then None
    else if MountedIn(lib, from, d) then Some(from)
    else FirstMounted(lib, d, from + 1)
  }

  predicate MemberFits(lib: Lib, members: seq<nat>, st: CartState, need: nat, i: nat)
    requires Known(lib, members) && i < |members|
  {
    lib.carts[members[i]].state == st && Room(lib.carts[members[i]], need)
  }

  /** The first cartridge of a pool, from position `from` on, in state `st` with room for `need` bytes. */
  function FirstMember(lib: Lib, members: seq<nat>, st: CartState, need: nat, from: nat): (r: Option<nat>)
    requires Known(lib, members) && from <= |members|
    ensures r.Some? ==> from <= r.value < |members| && MemberFits(lib, members, st, need, r.value)
                        && forall i :: from <= i < r.value ==> !MemberFits(lib, members, st, need, i)
    ensures r.None? ==> forall i :: from <= i < |members| ==> !MemberFits(lib, members, st, need, i)
    decreases |members| - from
  {
    if from == |members| then None
    else if MemberFits(lib, members, st, need, from) then Some(from)
    else FirstMember(lib, members, st, need, from + 1)
  }

  function FirstToSuspend(lib: Lib, op: Op, from: nat): (r: Option<nat>)
    requires from <= |lib.drives|
    ensures r.Some? ==> from <= r.value < |lib.drives| && Rank(op) < Rank(lib.drives[r.value].toUnblock)
                        && forall d :: from <= d < r.value ==> Rank(op) >= Rank(lib.drives[d].toUnblock)
    ensures r.None? ==> forall d :: from <= d < |lib.drives| ==> Rank(op) >= Rank(lib.drives[d].toUnblock)
    decreases |lib.drives| - from
  {
    if from == |lib.drives| then None
    else if Rank(op) < Rank(lib.drives[from].toUnblock) then Some(from)
    else FirstToSuspend(lib, op, from + 1)
  }

  // ---------------------------------------------------------------- verdicts

  datatype Verdict =
    | Run(d: nat, c: nat)                     // drive and cartridge are taken for the request
    | AskMount(d: nat, c: nat)                // Scheduler::moveTape is called
    | AskUnmount(d: nat, c: nat)
    | AskUnmountFor(d: nat, c: nat, t: nat)   // and the wanted cartridge is no longer requested
    | Suspend(d: nat, t: nat)
    | Wait

  predicate SomeUnmounted(lib: Lib, members: seq<nat>)
    requires Known(lib, members)
  {
    exists i :: 0 <= i < |members| && lib.carts[members[i]].state == Unmounted
  }

  /** Scheduler::poolResAvail */
  function PoolVerdict(lib: Lib, key: Key, members: seq<nat>, need: nat): Verdict
    requires Known(lib, members) && MountedAreFree(lib)
  {
    var run := FirstMember(lib, members, Mounted, need, 0);
    var fit := FirstMember(lib, members, Unmounted, need, 0);
    var empty := FirstDrive(lib, key, false, 0);
    var loaded := FirstDrive(lib, key, true, 0);
    if run.Some? then Run(lib.carts[members[run.value]].at.d, members[run.value])
    else if !SomeUnmounted(lib, members) then Wait
    else if empty.Some? && fit.Some? then AskMount(empty.value, members[fit.value])
    else if RequestExists(lib, key) then Wait
    else if loaded.Some? then AskUnmount(loaded.value, FirstMounted(lib, loaded.value, 0).value)
    else Wait
  }

  /** Scheduler::tapeResAvail */
  function TapeVerdict(lib: Lib, key: Key, op: Op, t: nat): Verdict
    requires t < |lib.carts| && MountedAreFree(lib)
  {
    var cart := lib.carts[t];
    var empty := FirstDrive(lib, key, false, 0);
    var loaded := FirstDrive(lib, key, true, 0);
    var victim := FirstToSuspend(lib, op, 0);
    if cart.state == Moving || cart.state == InUse then Wait
    else if cart.state == Mounted then Run(cart.at.d, t)
    else if empty.Some? && cart.state == Unmounted then AskMount(empty.value, t)
    else if loaded.Some? then AskUnmountFor(loaded.value, FirstMounted(lib, loaded.value, 0).value, t)
    else if cart.requested then Wait
    else if victim.Some? then Suspend(victim.value, t)
    else Wait
  }

  /** Scheduler::resAvailTapeMove: drive and cartridge can be taken for the move. */
  predicate MoveReady(lib: Lib, mount: bool, d: nat, c: nat)
    requires d < |lib.drives| && c < |lib.carts|
  {
    && !lib.drives[d].busy
    && (if mount then !Loaded(lib, d) else MountedIn(lib, c, d))
  }

  // ---------------------------------------------------------------- effects

  function SetDrive(lib: Lib, d: nat, drive: Drive): Lib
    requires d < |lib.drives|
  {
    lib.(drives := lib.drives[d := drive])
  }

  function SetCart(lib: Lib, c: nat, cart: Cart): Lib
    requires c < |lib.carts|
  {
    lib.(carts := lib.carts[c := cart])
  }

  /** Scheduler::makeUse */
  function MadeUse(lib: Lib, d: nat, c: nat): Lib
    requires d < |lib.drives| && c < |lib.carts|
  {
    SetCart(SetDrive(lib, d, lib.drives[d].(busy := true)), c, lib.carts[c].(state := InUse))
  }

  /** The end of LTFSDMInventory::mount, once the tape library has done its part. */
  function MountDone(lib: Lib, d: nat, c: nat): Lib
    requires d < |lib.drives| && c < |lib.carts|
  {
    SetCart(SetDrive(lib, d, lib.drives[d].(busy := false, moveReq := None)), c,
            lib.carts[c].(state := Mounted, at := InDrive(d)))
  }

  /** The end of LTFSDMInventory::unmount */
  function UnmountDone(lib: Lib, d: nat, c: nat): Lib
    requires d < |lib.drives| && c < |lib.carts|
  {
    SetCart(SetDrive(lib, d, lib.drives[d].(busy := false, moveReq := None)), c,
            lib.carts[c].(state := Unmounted, at := OnShelf))
  }

  /** How a migration or recall gives its drive and cartridge back; a transparent recall does not clear
      the priority threshold of the drive. */
  function Released(lib: Lib, d: nat, c: nat, clear: bool): Lib
    requires d < |lib.drives| && c < |lib.carts|
  {
    var drive := lib.drives[d].(busy := false, toUnblock := if clear then OpNoop else lib.drives[d].toUnblock);
    var cart := lib.carts[c].(state := if lib.carts[c].state == InUse then Mounted else lib.carts[c].state);
    SetCart(SetDrive(lib, d, drive), c, cart)
  }

  predicate Fits(lib: Lib, v: Verdict) {
    match v
    case Run(d, c) => d < |lib.drives| && c < |lib.carts|
    case AskMount(d, c) => d < |lib.drives| && c < |lib.carts|
    case AskUnmount(d, c) => d < |lib.drives| && c < |lib.carts|
    case AskUnmountFor(d, c, t) => d < |lib.drives| && c < |lib.carts| && t < |lib.carts|
    case Suspend(d, t) => d < |lib.drives| && t < |lib.carts|
    case Wait => true
  }

  predicate Asks(v: Verdict) { v.AskMount? || v.AskUnmount? || v.AskUnmountFor? }

  /** Scheduler::moveTape really sends a mover on its way, unless the request has one already. */
  predicate Sends(lib: Lib, key: Key, v: Verdict) { Asks(v) && !RequestExists(lib, key) }

  /** The library after the row was looked at. */
  function Applied(lib: Lib, key: Key, op: Op, v: Verdict): Lib
    requires Fits(lib, v)
  {
    var lib1 := if Sends(lib, key, v) then SetDrive(lib, v.d, lib.drives[v.d].(moveReq := Some(key))) else lib;
    match v
    case Run(d, c) => MadeUse(lib, d, c)
    case AskUnmountFor(d, c, t) => SetCart(lib1, t, lib1.carts[t].(requested := false))
    case Suspend(d, t) =>
      SetCart(SetDrive(lib, d, lib.drives[d].(toUnblock := op)), t, lib.carts[t].(requested := true))
    case _ => lib1
  }

  // ---------------------------------------------------------------- a fresh inventory

  function FreshCart(numDrives: nat, found: (Place, nat)): Cart {
    Cart(if found.0.InDrive? && found.0.d < numDrives then Mounted else Unmounted, found.0, false, found.1)
  }

  /** What an inventory makes of the places and free capacities that the tape library reports. */
  function Fresh(numDrives: nat, found: seq<(Place, nat)>): Lib {
    Lib(seq(numDrives, i => Drive(false, None, OpNoop)),
        seq(|found|, i requires 0 <= i < |found| => FreshCart(numDrives, found[i])))
  }

  // ---------------------------------------------------------------- what the verdicts promise

  /** A migration gets a tape exactly when a cartridge of its pool is mounted, not in use, and has room for
      its smallest file; it then gets such a cartridge and the drive it sits in, and nobody uses that drive. */
  lemma PoolRunsIff(lib: Lib, key: Key, members: seq<nat>, need: nat)
    requires Known(lib, members) && MountedAreFree(lib)
    ensures var v := PoolVerdict(lib, key, members, need);
            && (v.Run? <==> exists i :: 0 <= i < |members| && MemberFits(lib, members, Mounted, need, i))
            && (v.Run? ==> v.c in members && MountedIn(lib, v.c, v.d) && Room(lib.carts[v.c], need)
                           && v.d < |lib.drives| && !lib.drives[v.d].busy)
  {
    var run := FirstMember(lib, members, Mounted, need, 0);
    if run.Some? { assert members[run.value] in members; }
  }

  /** A recall gets its tape exactly when the cartridge is mounted and not in use. */
  lemma TapeRunsIff(lib: Lib, key: Key, op: Op, t: nat)
    requires t < |lib.carts| && MountedAreFree(lib)
    ensures var v := TapeVerdict(lib, key, op, t);
            && (v.Run? <==> lib.carts[t].state == Mounted)
            && (v.Run? ==> v.c == t && MountedIn(lib, t, v.d) && v.d < |lib.drives| && !lib.drives[v.d].busy)
  {
  }

  /** A move is asked for only if it makes sense: a mount brings an unmounted cartridge of the pool, or the
      wanted one, to a drive without a mounted cartridge; an unmount takes a mounted, unused cartridge out of
      the drive it is in; and the drive is neither busy nor being prepared for another request. */
  predicate SensibleMove(lib: Lib, key: Key, v: Verdict)
    requires Asks(v)
  {
    && v.d < |lib.drives| && v.c < |lib.carts| && Usable(lib.drives[v.d], key)
    && (v.AskMount? ==> lib.carts[v.c].state == Unmounted && !Loaded(lib, v.d))
    && (!v.AskMount? ==> MountedIn(lib, v.c, v.d))
  }

  lemma FirstMountedExists(lib: Lib, d: nat)
    requires Loaded(lib, d)
    ensures FirstMounted(lib, d, 0).Some?
  {
  }

  lemma PoolMoves(lib: Lib, key: Key, members: seq<nat>, need: nat)
    requires Known(lib, members) && MountedAreFree(lib)
    ensures var v := PoolVerdict(lib, key, members, need);
            && Fits(lib, v)
            && (Asks(v) ==> SensibleMove(lib, key, v))
            && (v.AskMount? ==> v.c in members && Room(lib.carts[v.c], need))
            && (v.AskUnmount? ==> !RequestExists(lib, key))
  {
    PoolRunsIff(lib, key, members, need);
    var fit := FirstMember(lib, members, Unmounted, need, 0);
    if fit.Some? { assert members[fit.value] in members; }
    var loaded := FirstDrive(lib, key, true, 0);
    if loaded.Some? { FirstMountedExists(lib, loaded.value); }
  }

  lemma TapeMoves(lib: Lib, key: Key, op: Op, t: nat)
    requires t < |lib.carts| && MountedAreFree(lib)
    ensures var v := TapeVerdict(lib, key, op, t);
            && Fits(lib, v)
            && (Asks(v) ==> SensibleMove(lib, key, v))
            && (v.AskMount? ==> v.c == t)
  {
    TapeRunsIff(lib, key, op, t);
    var loaded := FirstDrive(lib, key, true, 0);
    if loaded.Some? { FirstMountedExists(lib, loaded.value); }
  }

  /** A migration waits without asking for anything only if every cartridge it could use is taken, or no
      drive can be had, or its own move is still under way. */
  lemma PoolWaitsOnlyIf(lib: Lib, key: Key, members: seq<nat>, need: nat)
    requires Known(lib, members) && MountedAreFree(lib)
    requires PoolVerdict(lib, key, members, need) == Wait
    ensures || (forall i :: 0 <= i < |members| ==> lib.carts[members[i]].state != Unmounted)
            || RequestExists(lib, key)
            || ((forall d :: 0 <= d < |lib.drives| && Usable(lib.drives[d], key) ==> !Loaded(lib, d))
                && ((forall d :: 0 <= d < |lib.drives| ==> !Usable(lib.drives[d], key))
                    || (forall i :: 0 <= i < |members| ==> !MemberFits(lib, members, Unmounted, need, i))))
  {
    assert FirstDrive(lib, key, true, 0).None? ==>
      forall d :: 0 <= d < |lib.drives| && Usable(lib.drives[d], key) ==> Suits(lib, key, Loaded(lib, d), d);
  }

  /** Suspending lowers the threshold of exactly one drive, and a cartridge asks for it once. */
  lemma SuspendOnce(lib: Lib, key: Key, op: Op, t: nat)
    requires t < |lib.carts| && MountedAreFree(lib) && TapeVerdict(lib, key, op, t).Suspend?
    ensures var v := TapeVerdict(lib, key, op, t);
            var after := Applied(lib, key, op, v);
            && v.t == t && Rank(op) < Rank(lib.drives[v.d].toUnblock)
            && after.drives == lib.drives[v.d := lib.drives[v.d].(toUnblock := op)]
            && TapeVerdict(after, key, op, t) == Wait
  {
    var v := TapeVerdict(lib, key, op, t);
    var after := Applied(lib, key, op, v);
    assert forall d :: 0 <= d < |lib.drives| ==> Usable(after.drives[d], key) == Usable(lib.drives[d], key);
    forall d | 0 <= d < |lib.drives| ensures Suits(after, key, true, d) == Suits(lib, key, true, d) {
      assert forall c :: 0 <= c < |lib.carts| ==> MountedIn(after, c, d) == MountedIn(lib, c, d);
    }
    forall d | 0 <= d < |lib.drives| ensures Suits(after, key, false, d) == Suits(lib, key, false, d) {
      assert forall c :: 0 <= c < |lib.carts| ==> MountedIn(after, c, d) == MountedIn(lib, c, d);
    }
  }

  // ---------------------------------------------------------------- when exactly something is asked for

  /** Some drive can be had for the request that has, or does not have, a mounted cartridge: nobody uses the
      drive, and it is being prepared for nobody or for this request. */
  predicate DriveFor(lib: Lib, key: Key, loaded: bool) {
    exists d :: 0 <= d < |lib.drives| && !lib.drives[d].busy && ForNobodyElse(lib.drives[d], key)
                && HasMounted(lib, d) == loaded
  }

  predicate ForNobodyElse(drive: Drive, key: Key) { drive.moveReq == None || drive.moveReq == Some(key) }

  predicate HasMounted(lib: Lib, d: nat) {
    exists c :: 0 <= c < |lib.carts| && lib.carts[c].at == InDrive(d) && lib.carts[c].state == Mounted
  }

  predicate LowerExists(lib: Lib, op: Op) {
    exists d :: 0 <= d < |lib.drives| && Rank(op) < Rank(lib.drives[d].toUnblock)
  }

  lemma LoadedIff(lib: Lib, d: nat)
    ensures Loaded(lib, d) <==> HasMounted(lib, d)
  {
    if HasMounted(lib, d) {
      var c :| 0 <= c < |lib.carts| && lib.carts[c].at == InDrive(d) && lib.carts[c].state == Mounted;
      assert MountedIn(lib, c, d);
    }
  }

  lemma FirstDriveIff(lib: Lib, key: Key, loaded: bool)
    ensures FirstDrive(lib, key, loaded, 0).Some? <==> DriveFor(lib, key, loaded)
  {
    var r := FirstDrive(lib, key, loaded, 0);
    forall d | 0 <= d < |lib.drives| ensures Loaded(lib, d) <==> HasMounted(lib, d) {
      LoadedIff(lib, d);
    }
    if r.Some? {
      assert Suits(lib, key, loaded, r.value) && ForNobodyElse(lib.drives[r.value], key);
    } else if DriveFor(lib, key, loaded) {
      var d :| 0 <= d < |lib.drives| && !lib.drives[d].busy && ForNobodyElse(lib.drives[d], key)
               && HasMounted(lib, d) == loaded;
      assert Suits(lib, key, loaded, d);
    }
  }

  /** The wanted cartridge is not mounted, and nobody is moving or using it. */
  predicate Idle(cart: Cart) { cart.state != Moving && cart.state != InUse && cart.state != Mounted }

  /** A recall asks for a mount exactly if its cartridge is unmounted and an empty drive can be had, ... */
  lemma TapeMountsIff(lib: Lib, key: Key, op: Op, t: nat)
    requires t < |lib.carts| && MountedAreFree(lib)
    ensures TapeVerdict(lib, key, op, t).AskMount? <==> lib.carts[t].state == Unmounted && DriveFor(lib, key, false)
  {
    FirstDriveIff(lib, key, false);
  }

  /** ... for an unmount exactly if it cannot ask for that, and a drive can be had whose cartridge is idle, ... */
  lemma TapeUnmountsIff(lib: Lib, key: Key, op: Op, t: nat)
    requires t < |lib.carts| && MountedAreFree(lib)
    ensures TapeVerdict(lib, key, op, t).AskUnmountFor?
            <==> Idle(lib.carts[t]) && DriveFor(lib, key, true) && !(lib.carts[t].state == Unmounted && DriveFor(lib, key, false))
  {
    FirstDriveIff(lib, key, false);
    FirstDriveIff(lib, key, true);
  }

  /** ... for the suspension of an operation exactly if no drive can be had, it has not asked before, and some
      drive works at a lower priority, ... */
  lemma TapeSuspendsIff(lib: Lib, key: Key, op: Op, t: nat)
    requires t < |lib.carts| && MountedAreFree(lib)
    ensures TapeVerdict(lib, key, op, t).Suspend?
            <==> Idle(lib.carts[t]) && !DriveFor(lib, key, true) && !(lib.carts[t].state == Unmounted && DriveFor(lib, key, false))
                 && !lib.carts[t].requested && LowerExists(lib, op)
  {
    FirstDriveIff(lib, key, false);
    FirstDriveIff(lib, key, true);
    var r := FirstToSuspend(lib, op, 0);
  }

  /** ... and waits exactly if the cartridge is moving or in use, or no drive can be had and it has asked for a
      suspension before or nothing of a lower priority is at work. */
  lemma TapeWaitsIff(lib: Lib, key: Key, op: Op, t: nat)
    requires t < |lib.carts| && MountedAreFree(lib)
    ensures TapeVerdict(lib, key, op, t) == Wait
            <==> || lib.carts[t].state == Moving || lib.carts[t].state == InUse
                 || (Idle(lib.carts[t]) && !DriveFor(lib, key, true)
                     && !(lib.carts[t].state == Unmounted && DriveFor(lib, key, false))
                     && (lib.carts[t].requested || !LowerExists(lib, op)))
  {
    FirstDriveIff(lib, key, false);
    FirstDriveIff(lib, key, true);
    var r := FirstToSuspend(lib, op, 0);
  }

  predicate Mountable(lib: Lib, members: seq<nat>, need: nat)
    requires Known(lib, members)
  {
    exists i :: 0 <= i < |members| && MemberFits(lib, members, Unmounted, need, i)
  }

  predicate CanRun(lib: Lib, members: seq<nat>, need: nat)
    requires Known(lib, members)
  {
    exists i :: 0 <= i < |members| && MemberFits(lib, members, Mounted, need, i)
  }

  /** A migration that cannot run asks for a mount exactly if an unmounted cartridge of its pool has room and an
      empty drive can be had; for an unmount exactly if it cannot ask for that, its pool has an unmounted
      cartridge, no move of its own is under way, and a drive can be had whose cartridge is idle; else it waits. */
  lemma PoolAsksIff(lib: Lib, key: Key, members: seq<nat>, need: nat)
    requires Known(lib, members) && MountedAreFree(lib)
    ensures var v := PoolVerdict(lib, key, members, need);
            var mount := !CanRun(lib, members, need) && Mountable(lib, members, need) && DriveFor(lib, key, false);
            && (v.AskMount? <==> mount)
            && (v.AskUnmount? <==> !mount && !CanRun(lib, members, need) && SomeUnmounted(lib, members)
                                   && !RequestExists(lib, key) && DriveFor(lib, key, true))
            && (v.Run? || v.AskMount? || v.AskUnmount? || v == Wait)
  {
    PoolRunsIff(lib, key, members, need);
    FirstDriveIff(lib, key, false);
    FirstDriveIff(lib, key, true);
    var fit := FirstMember(lib, members, Unmounted, need, 0);
    if fit.Some? { assert MemberFits(lib, members, Unmounted, need, fit.value); }
  }

  // ---------------------------------------------------------------- priorities

  /** Moves come before recalls, transparent recalls before selective ones, and recalls before migrations. */
  lemma Priorities()
    ensures Rank(OpMount) < Rank(OpMove) < Rank(OpTraRecall) < Rank(OpSelRecall) < Rank(OpMigration)
    ensures forall op :: op != OpNoop ==> Rank(op) < Rank(OpNoop)
    ensures forall a, b :: Rank(a) == Rank(b) ==> a == b
  {
  }

  /** A recall that suspends a drive stops the migration that works there, which goes on as long as the
      threshold is not before its own priority; and a migration never stops a recall. */
  lemma SuspensionStopsMigration(lib: Lib, key: Key, op: Op, t: nat)
    requires t < |lib.carts| && MountedAreFree(lib) && TapeVerdict(lib, key, op, t).Suspend?
    ensures var v := TapeVerdict(lib, key, op, t);
            var threshold := Applied(lib, key, op, v).drives[v.d].toUnblock;
            && (op == OpTraRecall || op == OpSelRecall ==> Rank(threshold) < Rank(OpMigration))
            && (op == OpMigration ==> Rank(threshold) >= Rank(OpSelRecall) && Rank(threshold) >= Rank(OpTraRecall))
  {
    SuspendOnce(lib, key, op, t);
  }

  /** A drive that a migration or a selective recall gave back is free, its cartridge mounted, and any request
      can suspend what runs there next, whatever threshold was set before; a transparent recall leaves the
      threshold, so that only a request of a higher priority can.  Nothing else of the library has changed. */
  lemma ReleasedCanBeSuspended(lib: Lib, d: nat, c: nat, clear: bool, op: Op)
    requires d < |lib.drives| && c < |lib.carts|
    ensures var after := Released(lib, d, c, clear);
            && !after.drives[d].busy && after.drives[d].moveReq == lib.drives[d].moveReq
            && (Rank(op) < Rank(after.drives[d].toUnblock)
                <==> (clear && op != OpNoop) || Rank(op) < Rank(lib.drives[d].toUnblock))
            && after.carts == lib.carts[c := lib.carts[c].(state := after.carts[c].state)]
            && (lib.carts[c].state == InUse ==> after.carts[c].state == Mounted)
            && (lib.carts[c].state != InUse ==> after.carts[c].state == lib.carts[c].state)
            && after.drives == lib.drives[d := after.drives[d]]
  {
    Priorities();
  }

  /** After a fresh inventory a migration runs exactly if a cartridge of its pool was reported in a drive, with
      as much free capacity as its smallest job needs; any request could suspend any drive. */
  lemma FreshRunsIff(numDrives: nat, found: seq<(Place, nat)>, key: Key, members: seq<nat>, need: nat, op: Op)
    requires Known(Fresh(numDrives, found), members) && MountedAreFree(Fresh(numDrives, found))
    ensures var lib := Fresh(numDrives, found);
            PoolVerdict(lib, key, members, need).Run?
            <==> exists i :: 0 <= i < |members| && ReportedWithRoom(numDrives, found[members[i]], need)
    ensures op != OpNoop ==> forall d :: 0 <= d < numDrives ==> Rank(op) < Rank(Fresh(numDrives, found).drives[d].toUnblock)
  {
    var lib := Fresh(numDrives, found);
    PoolRunsIff(lib, key, members, need);
    assert forall i :: 0 <= i < |members| ==>
      (MemberFits(lib, members, Mounted, need, i) <==> ReportedWithRoom(numDrives, found[members[i]], need));
  }

  predicate ReportedWithRoom(numDrives: nat, found: (Place, nat), need: nat) {
    found.0.InDrive? && found.0.d < numDrives && 1048576 * found.1 >= need
  }
}
