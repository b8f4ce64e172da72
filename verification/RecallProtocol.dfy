/**
  Transparent recalls: every read or write of a migrated file is an event that
  blocks an application until it is answered.

  Events for one tape share one request.  The receiving thread looks at the file
  of an event: it answers the event at once if the file is resident or cannot be
  read, else it passes it on to a worker.  The worker looks again, inserts a job,
  checks whether there is a request, and then announces the job: it makes the
  request new, or adds one.
  An execution marks and selects jobs, recalls them, deletes them, answers
  their events, gives the tape back, counts what is left, and makes the request
  new or deletes it.  Once the tape is given back the next execution for the
  same tape may start beside it.
 */
module RecallProtocol {

  type Event = nat
  type Tape = string

  // What the attributes of a file on tape say
  datatype Attr = Attr(regular: bool, migrated: bool, tape: Tape)

  // What a look at a file finds; a file without the attributes counts as resident
  datatype File = Unreadable | OffTape(regular: bool) | OnTape(attr: Attr)

  // What was in memory, where a worker goes on although it could not read the attributes
  datatype Garbage = Garbage(state: JobState, tape: Tape)

  // `Other`: a state that no statement looks for
  datatype JobState = Migrated | Premigrated | RecallingMig | RecallingPremig | Other

  datatype Job = Job(tape: Tape, state: JobState)

  datatype ReqState = New | InProgress

  datatype Phase =
    | Started
    | MarkedMig                     // migrated files are set to recalling
    | Marked                        // premigrated ones too
    | Working(jobs: set<Event>)     // the jobs that were selected
    | Answering(jobs: set<Event>)   // deleted from the queue, not yet answered
    | Freed
    | Counted(remaining: bool)

  datatype Exec = Exec(tape: Tape, phase: Phase)

  // A job that was inserted: its tape, and the tape for which a request would be added
  datatype Note = Note(tape: Tape, newTape: Tape)

  // A request that has the number of one tape and the name of another
  datatype Stray = Stray(owner: Tape, tape: Tape)

  datatype Sys = Sys(
    arrived: set<Event>,
    unseen: set<Event>,              // not yet looked at
    waiting: map<Event, Attr>,      // passed on to a worker, and what the first look found
    rows: map<Event, Job>,
    unannounced: map<Event, Note>,  // job inserted, request not yet touched
    checked: map<Event, bool>,      // of these: whether a request was found
    requests: map<Tape, ReqState>,
    strays: set<Stray>,
    execs: map<nat, Exec>,
    answered: seq<Event>)

  datatype Step =
    | Arrive(e: Event)
    | Look(e: Event, file: File)
    | AddJob(e: Event, file: File, garbage: Garbage)
    | CheckRequest(e: Event)
    | Announce(e: Event)
    | Schedule(tape: Tape, x: nat)
    | MarkMigrated(x: nat)
    | MarkPremigrated(x: nat)
    | Select(x: nat)
    | Delete(x: nat)
    | Answer(x: nat, e: Event)
    | Free(x: nat)
    | Count(x: nat)
    | Conclude(x: nat)
    | DropStray(stray: Stray)

  predicate Recalling(st: JobState) { st == RecallingMig || st == RecallingPremig }

  /** The execution has the tape. */
  predicate Holds(p: Phase) { !p.Freed? && !p.Counted? }

  predicate At(s: Sys, x: nat, p: Phase) { x in s.execs && s.execs[x].phase == p }

  predicate TapeFree(s: Sys, tape: Tape) {
    forall x :: x in s.execs && s.execs[x].tape == tape ==> !Holds(s.execs[x].phase)
  }

  predicate Enabled(s: Sys, step: Step) {
    match step
    case Arrive(e) => e !in s.arrived
    case Look(e, _) => e in s.unseen
    case AddJob(e, _, _) => e in s.waiting
    case CheckRequest(e) => e in s.unannounced && e !in s.checked
    case Announce(e) => e in s.unannounced && e in s.checked
    case Schedule(tape, x) => tape in s.requests && s.requests[tape] == New && x !in s.execs && TapeFree(s, tape)
    case MarkMigrated(x) => At(s, x, Started)
    case MarkPremigrated(x) => At(s, x, MarkedMig)
    case Select(x) => At(s, x, Marked)
    case Delete(x) => x in s.execs && s.execs[x].phase.Working?
    case Answer(x, e) => x in s.execs && s.execs[x].phase.Answering? && e in s.execs[x].phase.jobs
    case Free(x) => At(s, x, Answering({}))
    case Count(x) => At(s, x, Freed)
    case Conclude(x) => x in s.execs && s.execs[x].phase.Counted?
    case DropStray(stray) => stray in s.strays
  }

  function SetPhase(s: Sys, x: nat, p: Phase): Sys
    requires x in s.execs
  {
    s.(execs := s.execs[x := s.execs[x].(phase := p)])
  }

  /** SET_RECALLING for one of the two states */
  function MarkRows(rows: map<Event, Job>, tape: Tape, from: JobState, to: JobState): map<Event, Job> {
    map e | e in rows :: if rows[e].tape == tape && rows[e].state == from then rows[e].(state := to) else rows[e]
  }

  function RecallingRows(rows: map<Event, Job>, tape: Tape): set<Event> {
    set e | e in rows && rows[e].tape == tape && Recalling(rows[e].state)
  }

  predicate SomeRow(rows: map<Event, Job>, tape: Tape) {
    exists e :: e in rows && rows[e].tape == tape
  }

  /** CHECK_REQUEST_EXISTS goes by the number alone. */
  predicate HasRequest(s: Sys, tape: Tape) {
    tape in s.requests || exists stray :: stray in s.strays && stray.owner == tape
  }

  function Inserted(s: Sys, e: Event, state: JobState, newTape: Tape): Sys
    requires e in s.waiting
  {
    var tape := s.waiting[e].tape;
    s.(waiting := s.waiting - {e}, rows := s.rows[e := Job(tape, state)], unannounced := s.unannounced[e := Note(tape, newTape)])
  }

  function StateOf(a: Attr): JobState { if a.migrated then Migrated else Premigrated }

  /** What a worker does with an event: it drops it if the file is not a regular one, answers it if the file
      is resident, and goes on after an error. */
  function Worked(s: Sys, e: Event, file: File, garbage: Garbage): Sys
    requires e in s.waiting
  {
    match file
    case Unreadable => Inserted(s, e, garbage.state, garbage.tape)
    case OffTape(regular) =>
      if regular then s.(waiting := s.waiting - {e}, answered := s.answered + [e]) else s.(waiting := s.waiting - {e})
    case OnTape(a) =>
      if a.regular then Inserted(s, e, StateOf(a), a.tape) else s.(waiting := s.waiting - {e})
  }

  /** CHANGE_REQUEST_TO_NEW, which changes nothing if the request is gone meanwhile, or ADD_REQUEST, which
      makes no difference if somebody else has added one. */
  function Announced(s: Sys, note: Note, found: bool): Sys {
    if found then (if note.tape in s.requests then s.(requests := s.requests[note.tape := New]) else s)
    else if note.newTape == note.tape then s.(requests := s.requests[note.tape := New])
    else s.(strays := s.strays + {Stray(note.tape, note.newTape)})
  }

  function Next(s: Sys, step: Step): Sys
    requires Enabled(s, step)
  {
    match step
    case Arrive(e) => s.(arrived := s.arrived + {e}, unseen := s.unseen + {e})
    case Look(e, file) =>
      if file.OnTape? then s.(unseen := s.unseen - {e}, waiting := s.waiting[e := file.attr])
      else s.(unseen := s.unseen - {e}, answered := s.answered + [e])
    case AddJob(e, file, garbage) => Worked(s, e, file, garbage)
    case CheckRequest(e) => s.(checked := s.checked[e := HasRequest(s, s.unannounced[e].tape)])
    case Announce(e) =>
      Announced(s, s.unannounced[e], s.checked[e]).(unannounced := s.unannounced - {e}, checked := s.checked - {e})
    case Schedule(tape, x) => s.(requests := s.requests[tape := InProgress], execs := s.execs[x := Exec(tape, Started)])
    case MarkMigrated(x) =>
      SetPhase(s, x, MarkedMig).(rows := MarkRows(s.rows, s.execs[x].tape, Migrated, RecallingMig))
    case MarkPremigrated(x) =>
      SetPhase(s, x, Marked).(rows := MarkRows(s.rows, s.execs[x].tape, Premigrated, RecallingPremig))
    case Select(x) => SetPhase(s, x, Working(RecallingRows(s.rows, s.execs[x].tape)))
    case Delete(x) =>
      SetPhase(s, x, Answering(s.execs[x].phase.jobs)).(rows := s.rows - RecallingRows(s.rows, s.execs[x].tape))
    case Answer(x, e) =>
      SetPhase(s, x, Answering(s.execs[x].phase.jobs - {e})).(answered := s.answered + [e])
    case Free(x) => SetPhase(s, x, Freed)
    case Count(x) => SetPhase(s, x, Counted(SomeRow(s.rows, s.execs[x].tape)))
    case Conclude(x) =>
      var tape := s.execs[x].tape;
      // CHANGE_REQUEST_TO_NEW changes nothing if the request is gone
      s.(execs := s.execs - {x},
         requests := if !s.execs[x].phase.remaining then s.requests - {tape}
                     else if tape in s.requests then s.requests[tape := New]
                     else s.requests)
    case DropStray(stray) =>
      // its execution finds no job of that number and tape
      s.(strays := s.strays - {stray})
  }

  predicate ValidRun(s: Sys, steps: seq<Step>)
    decreases |steps|
  {
    steps == [] || (Enabled(s, steps[0]) && ValidRun(Next(s, steps[0]), steps[1..]))
  }

  function After(s: Sys, steps: seq<Step>): Sys
    requires ValidRun(s, steps)
    decreases |steps|
  {
    if steps == [] then s else After(Next(s, steps[0]), steps[1..])
  }

  predicate Init(s: Sys) {
    s == Sys({}, {}, map[], map[], map[], map[], map[], {}, map[], [])
  }

  /** An execution has counted no jobs for the tape and is about to delete the request. */
  predicate AboutToDelete(s: Sys, tape: Tape) {
    exists x :: x in s.execs && s.execs[x] == Exec(tape, Counted(false))
  }

  /** The second look at a file finds a regular, readable file, and if it still is on tape, on the same one. */
  predicate StillGood(file: File, first: Attr) {
    match file
    case Unreadable => false
    case OffTape(regular) => regular
    case OnTape(a) => a.regular && a.tape == first.tape
  }

  /** What the code relies on: between the two looks a file stays good, and nobody looks for the request of a
      job, or touches it, between the count and the deletion. */
  predicate Undisturbed(s: Sys, step: Step) {
    match step
    case AddJob(e, file, _) => e in s.waiting ==> StillGood(file, s.waiting[e])
    case CheckRequest(e) =>
      e in s.rows && e in s.unannounced && s.unannounced[e].tape in s.requests ==> !AboutToDelete(s, s.rows[e].tape)
    case Announce(e) => e in s.rows ==> !AboutToDelete(s, s.rows[e].tape)
    case _ => true
  }

  predicate UndisturbedRun(s: Sys, steps: seq<Step>)
    requires ValidRun(s, steps)
    decreases |steps|
  {
    steps == [] || (Undisturbed(s, steps[0]) && UndisturbedRun(Next(s, steps[0]), steps[1..]))
  }

  // ---------------------------------------------------------------- the invariant

  /** Some execution will still look at the jobs of the tape, or has seen some and will say so. */
  predicate Attended(s: Sys, tape: Tape) {
    exists x :: x in s.execs && s.execs[x].tape == tape && s.execs[x].phase != Counted(false)
  }

  /** The job will be recalled: it is going to be announced, or its request is new, or an execution that has
      not yet finished its count belongs to the request. */
  predicate Safe(s: Sys, e: Event)
    requires e in s.rows
  {
    var tape := s.rows[e].tape;
    e in s.unannounced || (tape in s.requests && (s.requests[tape] == New || Attended(s, tape)))
  }

  /** Where an event is: at most one of these. */
  predicate Unanswered(s: Sys, x: nat, e: Event) {
    x in s.execs && s.execs[x].phase.Answering? && e in s.execs[x].phase.jobs
  }

  ghost predicate Places(s: Sys, e: Event) {
    && !(e in s.waiting && e in s.rows) && (e in s.unseen ==> e !in s.waiting && e !in s.rows)
    && (e in s.answered ==> e !in s.unseen && e !in s.waiting && e !in s.rows)
    && (forall x :: Unanswered(s, x, e) ==> e !in s.unseen && e !in s.waiting && e !in s.rows && e !in s.answered)
    && (forall x, y :: Unanswered(s, x, e) && Unanswered(s, y, e) ==> x == y)
  }

  ghost predicate SomewherePlace(s: Sys, e: Event) {
    e in s.unseen || e in s.waiting || e in s.rows || e in s.answered || exists x :: Unanswered(s, x, e)
  }

  predicate NoneTwice(es: seq<Event>) {
    forall i, j :: 0 <= i < j < |es| ==> es[i] != es[j]
  }

  predicate OneHolder(execs: map<nat, Exec>) {
    forall x, y :: x in execs && y in execs && x != y && execs[x].tape == execs[y].tape ==>
      !(Holds(execs[x].phase) && Holds(execs[y].phase))
  }

  /** Marked jobs are those of the execution that has their tape. */
  predicate MarkedRow(s: Sys, e: Event)
    requires e in s.rows
  {
    Recalling(s.rows[e].state) ==>
      exists x :: x in s.execs && s.execs[x].tape == s.rows[e].tape && MarkedBy(s.execs[x].phase, e)
  }

  predicate MarkedBy(p: Phase, e: Event) {
    p == MarkedMig || p == Marked || (p.Working? && e in p.jobs)
  }

  predicate SelectedOk(s: Sys, x: nat)
    requires x in s.execs
  {
    s.execs[x].phase.Working? ==> s.execs[x].phase.jobs == RecallingRows(s.rows, s.execs[x].tape)
  }

  /** Who found a request will find it again when he announces his job. */
  predicate Promised(s: Sys, e: Event)
    requires e in s.rows
  {
    e in s.unannounced ==>
      && s.unannounced[e].tape == s.rows[e].tape
      && (e in s.checked && s.checked[e] ==> s.rows[e].tape in s.requests && !AboutToDelete(s, s.rows[e].tape))
  }

  /** Jobs and requests */
  predicate JobsInv(s: Sys) {
    && (forall e :: e in s.rows ==> Safe(s, e) && MarkedRow(s, e))
    && (forall e :: e in s.rows ==> Promised(s, e) && s.rows[e].state != Other)
    && (forall e :: e in s.rows && AboutToDelete(s, s.rows[e].tape) ==> e in s.unannounced)
    && s.strays == {} && (forall e :: e in s.unannounced ==> s.unannounced[e].newTape == s.unannounced[e].tape)
    && OneHolder(s.execs)
    && (forall x :: x in s.execs ==> SelectedOk(s, x))
  }

  /** Events */
  ghost predicate EventsInv(s: Sys) {
    && (forall e :: e in s.arrived <==> SomewherePlace(s, e))
    && (forall e :: Places(s, e))
    && (forall e :: e in s.checked ==> e in s.unannounced)
    && (forall e :: e in s.unannounced ==> e in s.arrived && e !in s.unseen && e !in s.waiting)
    && NoneTwice(s.answered)
  }

  ghost predicate Inv(s: Sys) { JobsInv(s) && EventsInv(s) }
}
