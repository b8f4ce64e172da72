/**
  Nobody gets a drive or a cartridge that somebody else uses.

  The scheduler looks at one row of the request queue at a time; movers and data
  transfers end whenever they like.  `Inv` describes all states that can be
  reached as long as no mount is asked for a cartridge that another outstanding
  mount already names (`FreshMount`); the code does not check that.  With one
  drive it cannot happen; with two it can, and then two drives are taken for one
  cartridge.
 */
module DriveSharing {
  import opened Wrappers
  import opened Library

  // A mover that was sent, has its row in the request queue, was let go by the scheduler, or moves the tape.
  datatype Phase = Sent | Queued | Claimed | InMotion

  datatype Job =
    | Data(d: nat, c: nat)
    | Move(d: nat, c: nat, mount: bool, key: Key, phase: Phase)

  datatype Sys = Sys(lib: Lib, jobs: map<nat, Job>)

  datatype Step =
    | PoolRow(key: Key, members: seq<nat>, need: nat, id: nat)
    | TapeRow(key: Key, op: Op, t: nat, id: nat)
    | AddRequest(id: nat)
    | MoveRow(id: nat)
    | BeginMove(id: nat)
    | EndMove(id: nat)
    | EndData(id: nat, clear: bool)

  /** The job holds its drive and its cartridge. */
  predicate Running(j: Job) { j.Data? || j.phase == Claimed || j.phase == InMotion }

  predicate InPhase(s: Sys, id: nat, p: Phase) { id in s.jobs && s.jobs[id].Move? && s.jobs[id].phase == p }

  predicate Bounded(lib: Lib, j: Job) { j.d < |lib.drives| && j.c < |lib.carts| }

  predicate Possible(s: Sys, step: Step) {
    match step
    case PoolRow(key, members, need, id) => id !in s.jobs && Known(s.lib, members)
    case TapeRow(key, op, t, id) => id !in s.jobs && t < |s.lib.carts|
    case AddRequest(id) => InPhase(s, id, Sent)
    case MoveRow(id) => InPhase(s, id, Queued) && Bounded(s.lib, s.jobs[id])
    case BeginMove(id) => InPhase(s, id, Claimed) && Bounded(s.lib, s.jobs[id])
    case EndMove(id) => InPhase(s, id, InMotion) && Bounded(s.lib, s.jobs[id])
    case EndData(id, clear) => id in s.jobs && s.jobs[id].Data? && Bounded(s.lib, s.jobs[id])
  }

  /** The asserts that the code evaluates in this step. */
  predicate Asserted(s: Sys, step: Step)
    requires Possible(s, step)
  {
    match step
    case PoolRow(_, _, _, _) => MountedAreFree(s.lib)
    case TapeRow(_, _, _, _) => MountedAreFree(s.lib)
    case EndMove(id) =>
      var j := s.jobs[id];
      && s.lib.drives[j.d].busy && s.lib.carts[j.c].state == Moving
      && (!j.mount ==> s.lib.carts[j.c].at == InDrive(j.d))
    case _ => true
  }

  predicate Enabled(s: Sys, step: Step) { Possible(s, step) && Asserted(s, step) }

  predicate RowStep(step: Step) { step.PoolRow? || step.TapeRow? }

  function RowOp(step: Step): Op
    requires RowStep(step)
  {
    if step.PoolRow? then OpMigration else step.op
  }

  function RowVerdict(s: Sys, step: Step): Verdict
    requires RowStep(step) && Enabled(s, step)
  {
    match step
    case PoolRow(key, members, need, id) => PoolVerdict(s.lib, key, members, need)
    case TapeRow(key, op, t, id) => TapeVerdict(s.lib, key, op, t)
  }

  lemma RowMoves(s: Sys, step: Step)
    requires RowStep(step) && Enabled(s, step)
    ensures var v := RowVerdict(s, step);
            && Fits(s.lib, v)
            && (Asks(v) ==> SensibleMove(s.lib, step.key, v))
            && (v.Run? ==> MountedIn(s.lib, v.c, v.d) && !s.lib.drives[v.d].busy)
  {
    match step
    case PoolRow(key, members, need, id) => PoolMoves(s.lib, key, members, need); PoolRunsIff(s.lib, key, members, need);
    case TapeRow(key, op, t, id) => TapeMoves(s.lib, key, op, t); TapeRunsIff(s.lib, key, op, t);
  }

  function AfterRow(s: Sys, key: Key, op: Op, v: Verdict, id: nat): Sys
    requires Fits(s.lib, v)
  {
    Sys(Applied(s.lib, key, op, v),
        if v.Run? then s.jobs[id := Data(v.d, v.c)]
        else if Sends(s.lib, key, v) then s.jobs[id := Move(v.d, v.c, v.AskMount?, key, Sent)]
        else s.jobs)
  }

  function WithPhase(s: Sys, id: nat, p: Phase): Sys
    requires id in s.jobs && s.jobs[id].Move?
  {
    s.(jobs := s.jobs[id := s.jobs[id].(phase := p)])
  }

  function Next(s: Sys, step: Step): Sys
    requires Enabled(s, step)
  {
    match step
    case AddRequest(id) => WithPhase(s, id, Queued)
    case MoveRow(id) =>
      var j := s.jobs[id];
      if MoveReady(s.lib, j.mount, j.d, j.c) then WithPhase(s, id, Claimed).(lib := MadeUse(s.lib, j.d, j.c)) else s
    case BeginMove(id) =>
      var j := s.jobs[id];
      WithPhase(s, id, InMotion).(lib := SetCart(s.lib, j.c, s.lib.carts[j.c].(state := Moving)))
    case EndMove(id) =>
      var j := s.jobs[id];
      Sys(if j.mount then MountDone(s.lib, j.d, j.c) else UnmountDone(s.lib, j.d, j.c), s.jobs - {id})
    case EndData(id, clear) => Sys(Released(s.lib, s.jobs[id].d, s.jobs[id].c, clear), s.jobs - {id})
    case _ => RowMoves(s, step); AfterRow(s, step.key, RowOp(step), RowVerdict(s, step), step.id)
  }

  predicate ValidRun(s: Sys, steps: seq<Step>)
    decreases |steps|
  {
    steps == [] || (Enabled(s, steps[0]) && ValidRun(Next(s, steps[0]), steps[1..]))
  }

  function After(s: Sys, steps: seq<Step>): Sys
    requires ValidRun(s, steps)
    decreases |steps|
  {
    if steps == [] then s else After(Next(s, steps[0]), steps[1..])
  }

  /** The state after an inventory. */
  predicate Init(s: Sys) {
    && s.jobs == map[]
    && (forall d :: 0 <= d < |s.lib.drives| ==> !s.lib.drives[d].busy && s.lib.drives[d].moveReq.None?)
    && (forall c :: 0 <= c < |s.lib.carts| ==> InitCart(s.lib, s.lib.carts[c]))
    && OneCartPerDrive(s.lib)
  }

  predicate InitCart(lib: Lib, cart: Cart) {
    if cart.at.InDrive? then cart.at.d < |lib.drives| && cart.state == Mounted else cart.state == Unmounted
  }

  /** Some outstanding mount already names this cartridge. */
  predicate MountUnderWay(s: Sys, c: nat) {
    exists i :: i in s.jobs && s.jobs[i].Move? && s.jobs[i].mount && s.jobs[i].c == c
  }

  /** What the code relies on: it does not send a second mount for a cartridge. */
  predicate FreshMount(s: Sys, step: Step)
    requires Enabled(s, step)
  {
    RowStep(step) ==>
      var v := RowVerdict(s, step);
      v.AskMount? && Sends(s.lib, step.key, v) ==> !MountUnderWay(s, v.c)
  }

  predicate FreshRun(s: Sys, steps: seq<Step>)
    requires ValidRun(s, steps)
    decreases |steps|
  {
    steps == [] || (FreshMount(s, steps[0]) && FreshRun(Next(s, steps[0]), steps[1..]))
  }

  // ---------------------------------------------------------------- the invariant

  predicate OneCartPerDrive(lib: Lib) {
    forall a, b :: 0 <= a < b < |lib.carts| && lib.carts[a].at.InDrive? ==> lib.carts[a].at != lib.carts[b].at
  }

  predicate EmptyDrive(lib: Lib, d: nat) {
    forall c :: 0 <= c < |lib.carts| ==> lib.carts[c].at != InDrive(d)
  }

  predicate HeldCart(s: Sys, c: nat) {
    exists i :: i in s.jobs && Running(s.jobs[i]) && s.jobs[i].c == c
  }

  predicate HeldDrive(s: Sys, d: nat) {
    exists i :: i in s.jobs && Running(s.jobs[i]) && s.jobs[i].d == d
  }

  predicate MoveUnderWay(s: Sys, d: nat, key: Key) {
    exists i :: i in s.jobs && s.jobs[i].Move? && s.jobs[i].d == d && s.jobs[i].key == key
  }

  predicate CartOk(s: Sys, c: nat)
    requires c < |s.lib.carts|
  {
    var cart := s.lib.carts[c];
    && (cart.at.InDrive? ==> cart.at.d < |s.lib.drives|)
    && match cart.state
       case Mounted => cart.at.InDrive? && !s.lib.drives[cart.at.d].busy
       case InUse => HeldCart(s, c)
       case Moving => HeldCart(s, c)
       case _ => cart.at == OnShelf
  }

  predicate DriveOk(s: Sys, d: nat)
    requires d < |s.lib.drives|
  {
    && (s.lib.drives[d].busy ==> HeldDrive(s, d))
    && (s.lib.drives[d].moveReq.Some? ==> MoveUnderWay(s, d, s.lib.drives[d].moveReq.value))
  }

  predicate JobOk(lib: Lib, j: Job) {
    && Bounded(lib, j)
    && (Running(j) ==> lib.drives[j.d].busy)
    && match j
       case Data(d, c) => lib.carts[c].state == InUse && lib.carts[c].at == InDrive(d)
       case Move(d, c, mount, key, phase) =>
         && lib.drives[d].moveReq == Some(key)
         && (phase == Claimed ==> lib.carts[c].state == InUse)
         && (phase == InMotion ==> lib.carts[c].state == Moving)
         && (if mount then (Running(j) || lib.carts[c].state == Unmounted) && lib.carts[c].at == OnShelf && EmptyDrive(lib, d)
             else lib.carts[c].at == InDrive(d))
  }

  predicate Compatible(a: Job, b: Job) {
    && (Running(a) && Running(b) ==> a.d != b.d && a.c != b.c)
    && (a.Move? && b.Move? ==> a.d != b.d && a.key != b.key && (a.mount && b.mount ==> a.c != b.c))
  }

  predicate JobsOk(lib: Lib, jobs: map<nat, Job>) {
    && (forall i :: i in jobs ==> JobOk(lib, jobs[i]))
    && (forall i, j :: i in jobs && j in jobs && i != j ==> Compatible(jobs[i], jobs[j]))
  }

  predicate Inv(s: Sys) {
    && JobsOk(s.lib, s.jobs)
    && OneCartPerDrive(s.lib)
    && (forall c :: 0 <= c < |s.lib.carts| ==> CartOk(s, c))
    && (forall d :: 0 <= d < |s.lib.drives| ==> DriveOk(s, d))
  }
}
