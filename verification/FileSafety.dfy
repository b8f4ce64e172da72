/**
  No file loses data.

  The life of one file: replicas of a migration request that transfer it to
  tape side by side, state changes, recalls, application writes and truncates,
  syncs of tapes, crashes and recovery.  Operations that hold the per-file lock
  are programs of system calls (see `FileAttributes`) that run one call at a
  time, so a crash may fall between any two calls; the copy loops and the syncs
  need no lock and interleave freely.  Recovery takes no lock either, and the
  truncation by path gives its lock back before it truncates: what such an
  operation has still to do may be overtaken by others (`late`).

  `Enabled` is what the code lets happen.  `Clean` lists, step by step, what the
  code relies on without checking it.  `Inv` holds in every state of every clean
  run, and from such a state, whenever the crash comes, recovery and recall
  bring back exactly the bytes that the application wrote.
 */
module FileSafety {
  import opened Wrappers
  import opened FileAttributes

  datatype Copy = Copy(data: Bytes, synced: bool)

  // Where one replica of a migration request is.
  datatype Phase = Waiting | Opened | Copying | Listed | Synced | Over

  datatype Replica = Replica(tape: TapeId, phase: Phase, listed: bool)

  // What an operation without the lock has still to do
  datatype Late =
    | LateWrite(offset: nat, bytes: Bytes)       // waits for a recall
    | LateTruncate(size: nat, underLock: bool)   // waits for a recall, or gave its lock back already
    | LateCalls(calls: seq<Call>)                // rest of an overtaken program

  datatype Sys = Sys(
    disk: Disk,
    tape: map<TapeId, Copy>,      // the copy of this file on each tape
    logical: Bytes,               // what the application wrote
    recorded: Times,              // the times of the file when it was first marked
    replicas: seq<Replica>,
    pending: seq<Call>,           // rest of the program that is running
    app: bool,                    // that program belongs to the application
    locked: bool,                 // that program holds the lock
    late: seq<Late>,
    seen: seq<MigState>,          // states that getattr has read and will recover from
    start: nat,                   // when the service was started
    clock: nat)

  datatype Step =
    | StartRequest(rs: seq<Replica>)
    | Open(r: nat, t: TapeId)
    | Prepare(r: nat)
    | CopyChunk(r: nat, n: nat)
    | AddTape(r: nat)
    | Suspend(r: nat)
    | FailReplica(r: nat)
    | Sync(t: TapeId)
    | SyncDone(r: nat)
    | Change(r: nat, toMigrated: bool)
    | ChangeNoTape(numRepl: nat)
    | Recall(chunks: seq<Bytes>, toResident: bool)
    | AbandonRecall
    | EventOnResident
    | DoCall
    | AppWrite(offset: nat, bytes: Bytes)
    | AppTruncate(size: nat)
    | PathTruncate(size: nat)
    | Land(i: nat)
    | Crash(lost: map<TapeId, Copy>)
    | See
    | Recover(i: nat)

  // ---------------------------------------------------------------- the transition system

  predicate Free(s: Sys) { s.pending == [] }

  predicate CanLock(s: Sys) { Free(s) || !s.locked }

  /** Operations that come in by path run getattr first, and getattr recovers the file. */
  predicate Ready(s: Sys) { CanLock(s) && !NeedsRecovery(s.disk, s.start) }

  predicate AllOver(rs: seq<Replica>) { forall i :: 0 <= i < |rs| ==> rs[i].phase == Over }

  predicate InPhase(s: Sys, r: nat, p: Phase) { r < |s.replicas| && s.replicas[r].phase == p }

  predicate HasCopy(s: Sys, r: nat) { r < |s.replicas| && s.replicas[r].tape in s.tape }

  predicate Transferring(rep: Replica) { rep.phase == Opened || rep.phase == Copying }

  /** The replica uses its tape for this file. */
  predicate Holds(rep: Replica) { Transferring(rep) || rep.listed }

  /** Its tape was synced; the state change may be tried again when the request is scheduled again. */
  predicate MayChange(s: Sys, r: nat) {
    || InPhase(s, r, Synced)
    || (InPhase(s, r, Over) && s.replicas[r].listed && HasCopy(s, r) && s.tape[s.replicas[r].tape].synced)
  }

  predicate MayLand(s: Sys, l: Late) {
    match l
    case LateWrite(_, _) => CanLock(s)
    case LateTruncate(_, underLock) => if underLock then CanLock(s) else Free(s) || !s.app
    case LateCalls(calls) => calls != []
  }

  predicate Enabled(s: Sys, step: Step) {
    match step
    case StartRequest(rs) =>
      && Ready(s) && GetMigState(s.disk) == IsResident && AllOver(s.replicas) && rs != []
      && forall i :: 0 <= i < |rs| ==> rs[i].phase == Waiting && !rs[i].listed
    case Open(r, t) =>
      // the pools of a request are disjoint
      && InPhase(s, r, Waiting)
      && forall j :: 0 <= j < |s.replicas| && j != r && Holds(s.replicas[j]) ==> s.replicas[j].tape != t
    case Prepare(r) => CanLock(s) && InPhase(s, r, Opened)
    case CopyChunk(r, n) =>
      InPhase(s, r, Copying) && HasCopy(s, r) && n > 0 && |s.tape[s.replicas[r].tape].data| + n <= GetattrSize(s.disk)
    case AddTape(r) =>
      CanLock(s) && InPhase(s, r, Copying) && HasCopy(s, r) && |s.tape[s.replicas[r].tape].data| >= GetattrSize(s.disk)
    case Suspend(r) => InPhase(s, r, Copying) && HasCopy(s, r) && s.tape[s.replicas[r].tape].data == []
    case FailReplica(r) => r < |s.replicas|
    case Sync(t) => t in s.tape
    case SyncDone(r) => InPhase(s, r, Listed) && HasCopy(s, r)
    case Change(r, toMigrated) => CanLock(s) && MayChange(s, r)
    case ChangeNoTape(numRepl) => Ready(s) && AllOver(s.replicas)
    case Recall(chunks, toResident) =>
      Ready(s) && (GetMigState(s.disk) == IsMigrated ==>
        Tapes(s.disk) != [] && Tapes(s.disk)[0] in s.tape && Flatten(chunks) == s.tape[Tapes(s.disk)[0]].data)
    case AbandonRecall =>
      !Free(s) && s.pending[0].Write? && s.locked && !s.app && StateOf(s.disk) == InRecall
    case EventOnResident => GetMigState(s.disk) == IsResident
    case DoCall => !Free(s)
    case AppWrite(_, _) => Ready(s)
    case AppTruncate(_) => Ready(s)
    case PathTruncate(_) => Ready(s)
    case Land(i) => i < |s.late| && MayLand(s, s.late[i])
    case Crash(_) => true
    case See => NeedsRecovery(s.disk, s.start)
    case Recover(i) => i < |s.seen|
  }

  function WithPhase(s: Sys, r: nat, p: Phase): Sys
    requires r < |s.replicas|
  {
    s.(replicas := s.replicas[r := s.replicas[r].(phase := p)])
  }

  function Later(s: Sys, l: Late): Sys { s.(late := s.late + [l]) }

  /** A program under the lock; it overtakes one that runs without. */
  function Enter(s: Sys, program: seq<Call>, app: bool): Sys {
    (if Free(s) then s else Later(s, LateCalls(s.pending))).(pending := program, app := app, locked := true)
  }

  /** A program that asks for no lock runs beside whatever else is running. */
  function EnterUnlocked(s: Sys, program: seq<Call>): Sys {
    if Free(s) then s.(pending := program, app := false, locked := false) else Later(s, LateCalls(program))
  }

  function Without<T>(q: seq<T>, i: nat): seq<T>
    requires i < |q|
  {
    q[..i] + q[i + 1..]
  }

  /** What a call of the application does to the contents that it asked for.  The first call of a
      truncation of a stub, which is one to nothing, takes its contents away. */
  function Effect(c: Call, d: Disk, l: Bytes): Bytes {
    match c
    case Write(o, b, _) => WriteAt(l, o, b)
    case Truncate(n, _) => Resize(l, n)
    case RemoveMark => if MustRecall(d) then [] else l
    case _ => l
  }

  function EffectIf(app: bool, c: Call, d: Disk, l: Bytes): Bytes {
    if app then Effect(c, d, l) else l
  }

  function ReadAt(data: Bytes, offset: nat, n: nat): Bytes {
    if offset >= |data| then [] else if offset + n <= |data| then data[offset..offset + n] else data[offset..]
  }

  function Landed(s: Sys, i: nat, now: nat): Sys
    requires i < |s.late| && MayLand(s, s.late[i])
  {
    match s.late[i]
    case LateWrite(o, b) => Enter(s.(late := Without(s.late, i)), [Write(o, b, now)], true)
    case LateTruncate(n, true) => Enter(s.(late := Without(s.late, i)), [Truncate(n, now)], true)
    case LateTruncate(n, false) =>
      s.(late := Without(s.late, i), disk := Exec(s.disk, Truncate(n, now)), logical := Resize(s.logical, n))
    case LateCalls(calls) => s.(late := s.late[i := LateCalls(calls[1..])], disk := Exec(s.disk, calls[0]))
  }

  function PathTruncated(s: Sys, size: nat): Sys {
    if size > 0 && MustRecall(s.disk) then Later(s, LateTruncate(size, false))
    else if DropFails(s.disk) then Enter(s, DropCalls(s.disk), true)
    else Later(Enter(s, DropCalls(s.disk), true), LateTruncate(size, false))
  }

  function Next(s0: Sys, step: Step): Sys
    requires Enabled(s0, step)
  {
    var now := s0.clock + 1;
    var s := s0.(clock := now);
    match step
    case StartRequest(rs) => s.(replicas := rs)
    case Open(r, t) =>
      s.(tape := s.tape[t := Copy([], false)], replicas := s.replicas[r := Replica(t, Opened, false)])
    case Prepare(r) =>
      var m := MarkFor(s.disk, InMigration, now);
      WithPhase(s, r, Copying).(disk := Exec(s.disk, SetMark(m)), recorded := m.times)
    case CopyChunk(r, n) =>
      var t := s.replicas[r].tape;
      s.(tape := s.tape[t := Copy(s.tape[t].data + ReadAt(s.disk.data, |s.tape[t].data|, n), false)])
    case AddTape(r) =>
      s.(disk := Exec(s.disk, SetTapes(Tapes(s.disk) + [s.replicas[r].tape])),
         replicas := s.replicas[r := Replica(s.replicas[r].tape, Listed, true)])
    case Suspend(r) => WithPhase(s, r, Waiting)
    case FailReplica(r) => WithPhase(s, r, Over)
    case Sync(t) => s.(tape := s.tape[t := s.tape[t].(synced := true)])
    case SyncDone(r) =>
      var t := s.replicas[r].tape;
      WithPhase(s, r, Synced).(tape := s.tape[t := s.tape[t].(synced := true)])
    case Change(r, toMigrated) =>
      Enter(WithPhase(s, r, Over), ChangeCalls(s.disk, |s.replicas|, toMigrated, now), false)
    case ChangeNoTape(numRepl) => Enter(s, ChangeCalls(s.disk, numRepl, true, now), false)
    case Recall(chunks, toResident) => Enter(s, RecallCalls(s.disk, chunks, toResident, now), false)
    case AbandonRecall => s.(pending := [])
    case EventOnResident => EnterUnlocked(s, FinishRecallCalls(s.disk, true, now))
    case DoCall =>
      s.(disk := Exec(s.disk, s.pending[0]),
         logical := EffectIf(s.app, s.pending[0], s.disk, s.logical),
         pending := s.pending[1..])
    case AppWrite(offset, bytes) =>
      if MustRecall(s.disk) then Later(s, LateWrite(offset, bytes))
      else Enter(s, WriteCalls(s.disk, offset, bytes, now), true)
    case AppTruncate(size) =>
      if size > 0 && MustRecall(s.disk) then Later(s, LateTruncate(size, true))
      else Enter(s, TruncateCalls(s.disk, size, now), true)
    case PathTruncate(size) => PathTruncated(s, size)
    case Land(i) => Landed(s, i, now)
    case Crash(lost) =>
      // synced copies survive, of the others anything or nothing may be left
      s.(pending := [], late := [], seen := [], replicas := [], start := now,
         tape := lost + (map t | t in s.tape && s.tape[t].synced :: s.tape[t]))
    case See => s.(seen := s.seen + [StateOf(s.disk)])
    case Recover(i) =>
      EnterUnlocked(s.(seen := Without(s.seen, i)), RecoverCallsOf(s.seen[i], s.disk, now))
  }

  predicate OnTape(st: MigState) {
    st == Premigrated || st == Stubbing || st == Migrated || st == InRecall
  }

  predicate FirstTapeSynced(d: Disk, tape: map<TapeId, Copy>) {
    Tapes(d) != [] && Tapes(d)[0] in tape && tape[Tapes(d)[0]].synced
  }

  /** Steps that take the lock or begin a program without it */
  predicate Starts(step: Step) {
    step.Prepare? || step.AddTape? || step.Change? || step.ChangeNoTape? || step.Recall? || step.EventOnResident?
    || step.AppWrite? || step.AppTruncate? || step.PathTruncate? || step.Land? || step.Recover? || step.StartRequest?
  }

  /** What the code relies on and does not check. */
  predicate Clean(s: Sys, step: Step) {
    // nobody gets in between the calls of a program, with or without the lock
    && (Starts(step) ==> Free(s))
    && match step
       // a tape list that was left over names no tape, or as many as the request has replicas
       case StartRequest(rs) => Tapes(s.disk) == [] || |rs| <= |Tapes(s.disk)|
       // the application leaves a file alone while it is being migrated, and truncates to nothing
       // only stubs of which nothing was recalled
       case AppWrite(_, _) => StateOf(s.disk) != InMigration
       case AppTruncate(size) => StateOf(s.disk) != InMigration && (size == 0 && MustRecall(s.disk) ==> s.disk.data == [])
       case PathTruncate(size) => StateOf(s.disk) != InMigration && (size == 0 && MustRecall(s.disk) ==> s.disk.data == [])
       // what waited for a recall, or gave its lock back, finds the file resident
       case Land(i) => i < |s.late| && !s.late[i].LateCalls? && StateOf(s.disk) == Resident
       // a file queued as premigrated has not been changed in the meantime
       case ChangeNoTape(_) => GetMigState(s.disk) != IsResident
       // the tape that a recall will read is synced before the system crashes
       case Crash(_) => OnTape(StateOf(s.disk)) ==> FirstTapeSynced(s.disk, s.tape)
       // a file is recovered from the state that it is in
       case Recover(i) => i < |s.seen| && NeedsRecovery(s.disk, s.start) && s.seen[i] == StateOf(s.disk)
       // nobody migrates a file for which an application waited
       case EventOnResident => StateOf(s.disk) == Resident
       case _ => true
  }

  predicate Init(s: Sys) {
    && s.disk.mark.None? && s.disk.tapes.None? && s.disk.data == s.logical
    && s.replicas == [] && s.pending == [] && s.late == [] && s.seen == [] && s.start <= s.clock
  }

  /** All steps of the run are possible, one after the other. */
  predicate ValidRun(s: Sys, steps: seq<Step>)
    decreases |steps|
  {
    steps == [] || (Enabled(s, steps[0]) && ValidRun(Next(s, steps[0]), steps[1..]))
  }

  predicate CleanRun(s: Sys, steps: seq<Step>)
    requires ValidRun(s, steps)
    decreases |steps|
  {
    steps == [] || (Clean(s, steps[0]) && CleanRun(Next(s, steps[0]), steps[1..]))
  }

  function After(s: Sys, steps: seq<Step>): Sys
    requires ValidRun(s, steps)
    decreases |steps|
  {
    if steps == [] then s else After(Next(s, steps[0]), steps[1..])
  }

  // ---------------------------------------------------------------- the invariant

  /** The copy that a recall reads holds the file, and some listed copy that holds it cannot get lost. */
  ghost predicate Backed(d: Disk, l: Bytes, tape: map<TapeId, Copy>) {
    && Tapes(d) != []
    && Tapes(d)[0] in tape && tape[Tapes(d)[0]].data == l
    && exists t :: t in Tapes(d) && t in tape && tape[t].synced && tape[t].data == l
  }

  predicate Recorded(d: Disk, l: Bytes, rec: Times) {
    d.mark.Some? && d.mark.value.size == |l| && d.mark.value.times == rec
  }

  /** If the system stops here, nothing is lost. */
  ghost predicate Safe(d: Disk, l: Bytes, rec: Times, tape: map<TapeId, Copy>) {
    match StateOf(d)
    case Resident => d.data == l
    case InMigration => d.data == l && Recorded(d, l, rec)
    case Premigrated => d.data == l && Recorded(d, l, rec) && Backed(d, l, tape)
    case Stubbing => (d.data == l || d.data == []) && Recorded(d, l, rec) && Backed(d, l, tape)
    case _ => d.data <= l && Recorded(d, l, rec) && Backed(d, l, tape)
  }

  /** Before and after every call of a program. */
  ghost predicate SafeRun(d: Disk, l: Bytes, rec: Times, tape: map<TapeId, Copy>, app: bool, calls: seq<Call>)
    decreases |calls|
  {
    && Safe(d, l, rec, tape)
    && (calls != [] ==>
          SafeRun(Exec(d, calls[0]), EffectIf(app, calls[0], d, l), rec, tape, app, calls[1..]))
  }

  function FinalLogical(d: Disk, l: Bytes, app: bool, calls: seq<Call>): Bytes
    decreases |calls|
  {
    if calls == [] then l
    else FinalLogical(Exec(d, calls[0]), EffectIf(app, calls[0], d, l), app, calls[1..])
  }

  function CountListed(rs: seq<Replica>): (n: nat)
    ensures n <= |rs|
  {
    if rs == [] then 0 else (if rs[0].listed then 1 else 0) + CountListed(rs[1..])
  }

  predicate AllListed(rs: seq<Replica>) {
    forall i :: 0 <= i < |rs| ==> rs[i].listed && rs[i].phase != Waiting && rs[i].phase != Opened && rs[i].phase != Copying
  }

  /** One replica while the request is still transferring data. */
  ghost predicate ReplicaOk(rep: Replica, d: Disk, l: Bytes, tape: map<TapeId, Copy>) {
    && (rep.listed <==> rep.phase == Listed || rep.phase == Synced || (rep.phase == Over && rep.listed))
    && (rep.listed ==> rep.tape in Tapes(d) && rep.tape in tape && tape[rep.tape].data == l)
    && (rep.phase == Synced ==> rep.tape in tape && tape[rep.tape].synced)
    && (Transferring(rep) ==> rep.tape in tape && tape[rep.tape].data <= l)
    && (rep.phase == Opened ==> tape[rep.tape].data == [])
    && (rep.phase == Copying || rep.listed ==> StateOf(d) == InMigration)
  }

  predicate ListedBy(rs: seq<Replica>, t: TapeId) {
    exists i :: 0 <= i < |rs| && rs[i].listed && rs[i].tape == t
  }

  /** The tape list names as many tapes as replicas finished copying. */
  predicate Exact(d: Disk, rs: seq<Replica>) { |Tapes(d)| == CountListed(rs) }

  /** The request still transfers data: the tape list names exactly the replicas that finished copying, or
      it has so many old entries that it never gets as long as the number of replicas. */
  ghost predicate InTransfer(d: Disk, l: Bytes, rs: seq<Replica>, tape: map<TapeId, Copy>) {
    && !OnTape(StateOf(d))
    && (Exact(d, rs) || CountListed(rs) + |rs| <= |Tapes(d)|)
    && (Exact(d, rs) ==> forall t :: t in Tapes(d) ==> ListedBy(rs, t))
    && (forall i :: 0 <= i < |rs| ==> ReplicaOk(rs[i], d, l, tape))
    && (forall i, j :: 0 <= i < j < |rs| && Holds(rs[i]) && Holds(rs[j]) ==> rs[i].tape != rs[j].tape)
  }

  /** All replicas were copied and the file left the migration. */
  ghost predicate Settled(d: Disk, rs: seq<Replica>) {
    AllListed(rs) && StateOf(d) != InMigration && (StateOf(d) == Resident ==> Tapes(d) == [])
  }

  ghost predicate ReplicasOk(d: Disk, l: Bytes, rs: seq<Replica>, tape: map<TapeId, Copy>) {
    rs == [] || InTransfer(d, l, rs, tape) || Settled(d, rs)
  }

  predicate MarksOnTape(calls: seq<Call>) {
    exists i :: 0 <= i < |calls| && calls[i].SetMark? && OnTape(calls[i].mark.state)
  }

  /** Every mark of the program carries a time of this service run. */
  predicate MarksOfRun(calls: seq<Call>, start: nat, clock: nat) {
    forall i :: 0 <= i < |calls| && calls[i].SetMark? ==> start < calls[i].mark.changed <= clock
  }

  /** A file that nobody is working on is in state stubbing only if a crash left it there. */
  predicate StubbingNeedsRecovery(d: Disk, start: nat) {
    StateOf(d) == Stubbing ==> NeedsRecovery(d, start)
  }

  predicate NobodyCopies(rs: seq<Replica>) {
    forall i :: 0 <= i < |rs| ==> rs[i].phase != Copying
  }

  ghost predicate Inv(s: Sys) {
    && SafeRun(s.disk, s.logical, s.recorded, s.tape, s.app, s.pending)
    && ReplicasOk(ExecAll(s.disk, s.pending), FinalLogical(s.disk, s.logical, s.app, s.pending), s.replicas, s.tape)
    && (OnTape(StateOf(s.disk)) || MarksOnTape(s.pending) ==> AllListed(s.replicas))
    && (s.pending != [] ==> NobodyCopies(s.replicas))
    && s.start <= s.clock && MarksOfRun(s.pending, s.start, s.clock)
    && (s.disk.mark.Some? ==> s.disk.mark.value.changed <= s.clock)
    && (NeedsRecovery(s.disk, s.start) ==> s.replicas == [])
    && StubbingNeedsRecovery(ExecAll(s.disk, s.pending), s.start)
  }

  // ---------------------------------------------------------------- small facts

  lemma {:induction false} CountListedUpdate(rs: seq<Replica>, r: nat, rep: Replica)
    requires r < |rs|
    ensures CountListed(rs[r := rep]) ==
            CountListed(rs) + (if rep.listed then 1 else 0) - (if rs[r].listed then 1 else 0)
  {
    if r == 0 {
      assert rs[r := rep][1..] == rs[1..];
    } else {
      assert rs[r := rep][1..] == rs[1..][r - 1 := rep];
      CountListedUpdate(rs[1..], r - 1, rep);
    }
  }

  lemma {:induction false} CountListedAll(rs: seq<Replica>, i: nat)
    requires CountListed(rs) == |rs| && i < |rs|
    ensures rs[i].listed
  {
    if i > 0 { CountListedAll(rs[1..], i - 1); }
  }

  lemma {:induction false} CountListedSome(rs: seq<Replica>, i: nat)
    requires i < |rs| && rs[i].listed
    ensures CountListed(rs) > 0
  {
    if i > 0 { CountListedSome(rs[1..], i - 1); }
  }

  lemma {:induction false} CountListedNone(rs: seq<Replica>)
    requires forall i :: 0 <= i < |rs| ==> !rs[i].listed
    ensures CountListed(rs) == 0
  {
    if rs != [] { CountListedNone(rs[1..]); }
  }

  /** Syncing a tape cannot harm. */
  lemma {:induction false} SafeRunSynced(d: Disk, l: Bytes, rec: Times, tape: map<TapeId, Copy>, tape': map<TapeId, Copy>,
                                         app: bool, calls: seq<Call>)
    requires SafeRun(d, l, rec, tape, app, calls)
    requires forall t :: t in tape ==> t in tape' && tape'[t].data == tape[t].data && (tape[t].synced ==> tape'[t].synced)
    ensures SafeRun(d, l, rec, tape', app, calls)
    decreases |calls|
  {
    if calls != [] {
      SafeRunSynced(Exec(d, calls[0]), EffectIf(app, calls[0], d, l), rec, tape, tape', app, calls[1..]);
    }
  }

  /** A program on a file that never leaves the disk does not care about tapes. */
  lemma {:induction false} SafeRunOffTape(d: Disk, l: Bytes, rec: Times,
                                          tape: map<TapeId, Copy>, tape': map<TapeId, Copy>, app: bool, calls: seq<Call>)
    requires SafeRun(d, l, rec, tape, app, calls)
    requires !OnTape(StateOf(d)) && !MarksOnTape(calls)
    ensures SafeRun(d, l, rec, tape', app, calls)
    decreases |calls|
  {
    if calls != [] {
      assert !(calls[0].SetMark? && OnTape(calls[0].mark.state));
      assert forall i :: 0 <= i < |calls[1..]| ==> calls[1..][i] == calls[i + 1];
      SafeRunOffTape(Exec(d, calls[0]), EffectIf(app, calls[0], d, l), rec, tape, tape', app, calls[1..]);
    }
  }

  lemma {:induction false} SafeRunAppend(d: Disk, l: Bytes, rec: Times, tape: map<TapeId, Copy>, a: seq<Call>, b: seq<Call>)
    requires SafeRun(d, l, rec, tape, false, a)
    requires SafeRun(ExecAll(d, a), l, rec, tape, false, b)
    ensures SafeRun(d, l, rec, tape, false, a + b)
    decreases |a|
  {
    if a == [] {
      assert a + b == b;
    } else {
      assert (a + b)[0] == a[0] && (a + b)[1..] == a[1..] + b;
      SafeRunAppend(Exec(d, a[0]), l, rec, tape, a[1..], b);
    }
  }

  lemma {:induction false} FinalLogicalSystem(d: Disk, l: Bytes, calls: seq<Call>)
    ensures FinalLogical(d, l, false, calls) == l
    decreases |calls|
  {
    if calls != [] { FinalLogicalSystem(Exec(d, calls[0]), l, calls[1..]); }
  }
}
