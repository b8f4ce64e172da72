/**
  Which events of `RecallProtocol` can still be answered, and by which runs.

  `Answerable` says it of a state, for any run at all; on undisturbed runs every
  event stays answerable.
 */
module RecallReach {
  import opened RecallProtocol
  import opened RecallSteps

  // ---------------------------------------------------------------- what holds on every run

  function Jobs(p: Phase): set<Event> {
    if p.Working? || p.Answering? then p.jobs else {}
  }

  /** No job was made of the event, and nobody answered it. */
  predicate Early(s: Sys, e: Event) {
    e !in s.rows && e !in s.answered && forall x :: x in s.execs ==> e !in Jobs(s.execs[x].phase)
  }

  /** True in every state of every run, disturbed or not */
  ghost predicate Shape(s: Sys) {
    && OneHolder(s.execs)
    && (forall e :: e in s.unseen ==> e in s.arrived && e !in s.waiting && Early(s, e))
    && (forall e :: e in s.waiting ==> e in s.arrived && Early(s, e))
    && (forall e :: e in s.unannounced ==> e in s.arrived)
    && (forall e :: e in s.rows || e in s.answered ==> e in s.arrived)
    && (forall x, e :: x in s.execs && e in Jobs(s.execs[x].phase) ==> e in s.arrived)
    && (forall e :: e in s.checked ==> e in s.unannounced)
  }

  lemma StepKeepsHolder(s: Sys, step: Step)
    requires OneHolder(s.execs) && Enabled(s, step)
    ensures OneHolder(Next(s, step).execs)
  {
    var n := Next(s, step).execs;
    forall x, y | x in n && y in n && x != y && n[x].tape == n[y].tape ensures !(Holds(n[x].phase) && Holds(n[y].phase)) {
      assert x in s.execs ==> n[x].tape == s.execs[x].tape;
      assert y in s.execs ==> n[y].tape == s.execs[y].tape;
    }
  }

  predicate OfExec(step: Step) {
    step.MarkMigrated? || step.MarkPremigrated? || step.Select? || step.Delete? || step.Answer? || step.Free?
    || step.Count? || step.Conclude?
  }

  /** What an execution has to do with events comes from the job queue, and goes to the answers. */
  lemma ExecEvents(s: Sys, step: Step)
    requires Enabled(s, step) && OfExec(step)
    ensures var n := Next(s, step);
            && n.arrived == s.arrived && n.unseen == s.unseen && n.waiting == s.waiting && n.strays == s.strays
            && n.unannounced == s.unannounced && n.checked == s.checked
            && (forall e :: e in n.rows ==> e in s.rows && n.rows[e].tape == s.rows[e].tape)
            && (forall x :: x in n.execs ==> x in s.execs && n.execs[x].tape == s.execs[x].tape)
            && (forall x :: x in n.execs ==> Jobs(n.execs[x].phase) <= Jobs(s.execs[x].phase) + s.rows.Keys)
  {
  }

  lemma ExecAnswers(s: Sys, step: Step, e: Event)
    requires Enabled(s, step) && OfExec(step)
    ensures e in Next(s, step).answered <==>
            e in s.answered || (step.Answer? && step.e == e)
  {
  }

  lemma ExecKeepsShape(s: Sys, step: Step)
    requires Shape(s) && Enabled(s, step) && OfExec(step)
    ensures Shape(Next(s, step))
  {
    var n := Next(s, step);
    StepKeepsHolder(s, step);
    ExecEvents(s, step);
    forall e ensures e in n.answered <==> e in s.answered || (step.Answer? && step.e == e) {
      ExecAnswers(s, step, e);
    }
    assert step.Answer? ==> step.e in Jobs(s.execs[step.x].phase);
    forall e | e in n.unseen || e in n.waiting ensures Early(n, e) {
      assert Early(s, e);
      forall x | x in n.execs ensures e !in Jobs(n.execs[x].phase) { assert e !in Jobs(s.execs[x].phase); }
    }
    forall x, e | x in n.execs && e in Jobs(n.execs[x].phase) ensures e in n.arrived {
      assert e in Jobs(s.execs[x].phase) || e in s.rows;
    }
  }

  /** The other steps: no execution gets jobs, and at most one event gets a row or an answer. */
  predicate OfRequest(step: Step) { step.CheckRequest? || step.Announce? || step.Schedule? || step.DropStray? }

  lemma RequestEvents(s: Sys, step: Step)
    requires Enabled(s, step) && OfRequest(step)
    ensures var n := Next(s, step);
            && n.arrived == s.arrived && n.unseen == s.unseen && n.waiting == s.waiting && n.rows == s.rows
            && n.answered == s.answered
            && (forall x :: x in s.execs ==> x in n.execs && n.execs[x] == s.execs[x])
            && (forall x :: x in n.execs ==> x in s.execs || n.execs[x].phase == Started)
  {
  }

  lemma RequestNotes(s: Sys, step: Step)
    requires Enabled(s, step) && OfRequest(step)
    ensures var n := Next(s, step);
            && (forall e :: e in n.unannounced ==> e in s.unannounced)
            && (forall e :: e in n.checked ==> e in s.checked || e in s.unannounced)
            && ((forall e :: e in s.checked ==> e in s.unannounced) ==> forall e :: e in n.checked ==> e in n.unannounced)
  {
  }

  lemma RequestKeepsShape(s: Sys, step: Step)
    requires Shape(s) && Enabled(s, step) && OfRequest(step)
    ensures Shape(Next(s, step))
  {
    var n := Next(s, step);
    StepKeepsHolder(s, step);
    RequestEvents(s, step);
    RequestNotes(s, step);
    forall e | e in n.unseen || e in n.waiting ensures Early(n, e) {
      assert Early(s, e);
    }
  }

  lemma ArriveKeepsShape(s: Sys, e0: Event)
    requires Shape(s) && Enabled(s, Arrive(e0))
    ensures Shape(Next(s, Arrive(e0)))
  {
    var n := Next(s, Arrive(e0));
    forall e | e in n.unseen || e in n.waiting ensures Early(n, e) {
      assert e != e0 ==> Early(s, e);
      assert e == e0 ==> forall x :: x in s.execs ==> e !in Jobs(s.execs[x].phase);
    }
  }

  lemma LookKeepsShape(s: Sys, e0: Event, file: File)
    requires Shape(s) && Enabled(s, Look(e0, file))
    ensures Shape(Next(s, Look(e0, file)))
  {
    var n := Next(s, Look(e0, file));
    LookMoves(s, e0, file);
    forall e | e in n.unseen || e in n.waiting ensures Early(n, e) {
      assert Early(s, e);
    }
  }

  /** What a worker leaves of an event */
  lemma WorkedEvents(s: Sys, e0: Event, file: File, garbage: Garbage)
    requires e0 in s.waiting
    ensures var n := Worked(s, e0, file, garbage);
            && n.arrived == s.arrived && n.unseen == s.unseen && n.waiting == s.waiting - {e0} && n.execs == s.execs
            && n.checked == s.checked && n.strays == s.strays
            && (forall e :: e in n.rows ==> e in s.rows || e == e0)
            && (forall e :: e in s.unannounced ==> e in n.unannounced)
            && (forall e :: e in n.unannounced ==> e in s.unannounced || e == e0)
            && (forall e :: e in s.rows && e != e0 ==> e in n.rows && n.rows[e] == s.rows[e])
  {
    match file
    case Unreadable =>
    case OffTape(_) =>
    case OnTape(_) =>
  }

  lemma AddJobKeepsShape(s: Sys, e0: Event, file: File, garbage: Garbage)
    requires Shape(s) && Enabled(s, AddJob(e0, file, garbage))
    ensures Shape(Next(s, AddJob(e0, file, garbage)))
  {
    var n := Next(s, AddJob(e0, file, garbage));
    WorkedMoves(s, e0, file, garbage);
    WorkedEvents(s, e0, file, garbage);
    forall e | e in n.unseen || e in n.waiting ensures Early(n, e) {
      assert Early(s, e) && e != e0;
    }
  }

  lemma StepKeepsShape(s: Sys, step: Step)
    requires Shape(s) && Enabled(s, step)
    ensures Shape(Next(s, step))
  {
    match step
    case Arrive(e) => ArriveKeepsShape(s, e);
    case Look(e, file) => LookKeepsShape(s, e, file);
    case AddJob(e, file, garbage) => AddJobKeepsShape(s, e, file, garbage);
    case _ => if OfExec(step) { ExecKeepsShape(s, step); } else { RequestKeepsShape(s, step); }
  }

  lemma {:induction false} RunsKeepShape(s: Sys, steps: seq<Step>)
    requires Shape(s) && ValidRun(s, steps)
    ensures Shape(After(s, steps))
    decreases |steps|
  {
    if steps != [] {
      StepKeepsShape(s, steps[0]);
      RunsKeepShape(Next(s, steps[0]), steps[1..]);
    }
  }

  lemma InitShape(s: Sys)
    requires Init(s)
    ensures Shape(s)
  {
  }

  // ---------------------------------------------------------------- who still has an event

  /** The execution has the event among those that it will answer. */
  predicate Held(s: Sys, x: nat, e: Event) { x in s.execs && e in Jobs(s.execs[x].phase) }

  /** An execution has selected jobs of the tape and will delete what is marked. */
  predicate BeingDeleted(s: Sys, tape: Tape) {
    exists x :: x in s.execs && s.execs[x].tape == tape && s.execs[x].phase.Working?
  }

  /** A state that some execution will select; a marked job that came too late for the present one is deleted
      unseen. */
  predicate WillBeSelected(s: Sys, tape: Tape, state: JobState) {
    state != Other && (Recalling(state) ==> !BeingDeleted(s, tape))
  }

  ghost predicate Answerable(s: Sys, e: Event) {
    || e in s.unseen || e in s.waiting || e in s.answered || (exists x :: Held(s, x, e))
    || (e in s.rows && WillBeSelected(s, s.rows[e].tape, s.rows[e].state))
  }

  ghost predicate Lost(s: Sys, e: Event) { e in s.arrived && !Answerable(s, e) }

  /** Nobody gets such an event back. */
  lemma LostStays(s: Sys, e: Event, step: Step)
    requires Shape(s) && Lost(s, e) && Enabled(s, step)
    ensures Lost(Next(s, step), e)
  {
    assert forall x :: !Held(s, x, e);
    if OfExec(step) {
      LostByExec(s, e, step);
    } else {
      LostByOthers(s, e, step);
    }
  }

  lemma LostByOthers(s: Sys, e: Event, step: Step)
    requires Lost(s, e) && Enabled(s, step) && !OfExec(step) && forall x :: !Held(s, x, e)
    ensures Lost(Next(s, step), e)
  {
    var n := Next(s, step);
    OthersLeaveLost(s, e, step);
    forall x ensures !Held(n, x, e) {
      assert Held(n, x, e) ==> Held(s, x, e);
    }
    if e in n.rows && s.rows[e].state != Other {
      var y :| y in s.execs && s.execs[y].tape == s.rows[e].tape && s.execs[y].phase.Working?;
      assert y in n.execs && n.execs[y] == s.execs[y];
    }
  }

  lemma OthersLeaveLost(s: Sys, e: Event, step: Step)
    requires Lost(s, e) && Enabled(s, step) && !OfExec(step)
    ensures var n := Next(s, step);
            && e in n.arrived && e !in n.unseen && e !in n.waiting && e !in n.answered
            && (e in n.rows ==> e in s.rows && n.rows[e] == s.rows[e])
            && (forall x :: x in s.execs ==> x in n.execs && n.execs[x] == s.execs[x])
            && (forall x :: x in n.execs ==> x in s.execs || n.execs[x].phase == Started)
  {
    match step
    case Arrive(_) =>
    case Look(e0, file) => LookMoves(s, e0, file);
    case AddJob(e0, file, garbage) => WorkedMoves(s, e0, file, garbage); WorkedEvents(s, e0, file, garbage);
    case _ => RequestEvents(s, step);
  }

  lemma LostByExec(s: Sys, e: Event, step: Step)
    requires Shape(s) && Lost(s, e) && Enabled(s, step) && OfExec(step) && forall x :: !Held(s, x, e)
    ensures Lost(Next(s, step), e)
  {
    var n := Next(s, step);
    ExecEvents(s, step);
    ExecAnswers(s, step, e);
    assert step.Answer? ==> Held(s, step.x, step.e);
    forall x ensures !Held(n, x, e) {
      if Held(n, x, e) { LostIsNotSelected(s, e, step, x); }
    }
    if e in n.rows { LostRow(s, e, step); }
  }

  lemma LostIsNotSelected(s: Sys, e: Event, step: Step, x: nat)
    requires Shape(s) && Lost(s, e) && Enabled(s, step) && OfExec(step) && forall y :: !Held(s, y, e)
    ensures !Held(Next(s, step), x, e)
  {
    ExecEvents(s, step);
    if step.Select? && step.x == x {
      if e in s.rows && s.rows[e].tape == s.execs[x].tape && Recalling(s.rows[e].state) {
        var y :| y in s.execs && s.execs[y].tape == s.rows[e].tape && s.execs[y].phase.Working?;
        assert x != y && Holds(s.execs[x].phase) && Holds(s.execs[y].phase);
      }
    } else if x in s.execs {
      assert !Held(s, x, e);
    }
  }

  lemma LostRow(s: Sys, e: Event, step: Step)
    requires Shape(s) && Lost(s, e) && Enabled(s, step) && OfExec(step) && e in Next(s, step).rows
    ensures var n := Next(s, step);
            !WillBeSelected(n, n.rows[e].tape, n.rows[e].state)
  {
    var n := Next(s, step);
    ExecEvents(s, step);
    assert s.rows[e].state == Other || Recalling(s.rows[e].state);
    assert n.rows[e] == s.rows[e];
    if s.rows[e].state != Other {
      var y :| y in s.execs && s.execs[y].tape == s.rows[e].tape && s.execs[y].phase.Working?;
      assert step != Delete(y);
      assert y in n.execs && n.execs[y] == s.execs[y];
    }
  }

  lemma {:induction false} LostForGood(s: Sys, e: Event, steps: seq<Step>)
    requires Shape(s) && Lost(s, e) && ValidRun(s, steps)
    ensures e !in After(s, steps).answered
    decreases |steps|
  {
    if steps != [] {
      LostStays(s, e, steps[0]);
      StepKeepsShape(s, steps[0]);
      LostForGood(Next(s, steps[0]), e, steps[1..]);
    }
  }

  // ---------------------------------------------------------------- putting runs together

  // What a run keeps to: nothing, or it is undisturbed, without new events, and the file of one event does not change
  datatype Rules = AnyRun | SteadyRun(e: Event, file: File)

  predicate Sees(step: Step, e: Event, file: File) {
    (step.Look? || step.AddJob?) && step.e == e ==> step.file == file
  }

  predicate Allowed(s: Sys, step: Step, rules: Rules) {
    rules.SteadyRun? ==> Undisturbed(s, step) && !step.Arrive? && Sees(step, rules.e, rules.file)
  }

  predicate AllowedRun(s: Sys, steps: seq<Step>, rules: Rules)
    requires ValidRun(s, steps)
    decreases |steps|
  {
    steps == [] || (Allowed(s, steps[0], rules) && AllowedRun(Next(s, steps[0]), steps[1..], rules))
  }

  ghost predicate Leads(s: Sys, steps: seq<Step>, n: Sys, rules: Rules) {
    ValidRun(s, steps) && AllowedRun(s, steps, rules) && After(s, steps) == n
  }

  ghost predicate CanReach(s: Sys, n: Sys, rules: Rules) { exists steps :: Leads(s, steps, n, rules) }

  lemma Stay(s: Sys, rules: Rules)
    ensures CanReach(s, s, rules)
  {
    assert Leads(s, [], s, rules);
  }

  lemma RunCons(s: Sys, step: Step, rest: seq<Step>)
    requires Enabled(s, step) && ValidRun(Next(s, step), rest)
    ensures ValidRun(s, [step] + rest) && After(s, [step] + rest) == After(Next(s, step), rest)
    ensures forall rules :: Allowed(s, step, rules) && AllowedRun(Next(s, step), rest, rules) ==> AllowedRun(s, [step] + rest, rules)
  {
    assert ([step] + rest)[1..] == rest;
  }

  lemma One(s: Sys, step: Step, rules: Rules)
    requires Enabled(s, step) && Allowed(s, step, rules)
    ensures CanReach(s, Next(s, step), rules)
  {
    var n := Next(s, step);
    assert AllowedRun(n, [], rules);
    RunCons(s, step, []);
    assert Leads(s, [step] + [], n, rules);
  }

  lemma {:induction false} LeadsOn(s: Sys, a: seq<Step>, m: Sys, b: seq<Step>, n: Sys, rules: Rules)
    requires Leads(s, a, m, rules) && Leads(m, b, n, rules)
    ensures Leads(s, a + b, n, rules)
    decreases |a|
  {
    if a == [] {
      assert a + b == b;
    } else {
      LeadsOn(Next(s, a[0]), a[1..], m, b, n, rules);
      RunCons(s, a[0], a[1..] + b);
      assert [a[0]] + (a[1..] + b) == a + b;
    }
  }

  lemma Then(s: Sys, m: Sys, n: Sys, rules: Rules)
    requires CanReach(s, m, rules) && CanReach(m, n, rules)
    ensures CanReach(s, n, rules)
  {
    var a :| Leads(s, a, m, rules);
    var b :| Leads(m, b, n, rules);
    LeadsOn(s, a, m, b, n, rules);
  }

  lemma {:induction false} AllowedIsUndisturbed(s: Sys, steps: seq<Step>, rules: Rules)
    requires ValidRun(s, steps) && AllowedRun(s, steps, rules) && rules.SteadyRun?
    ensures UndisturbedRun(s, steps)
    decreases |steps|
  {
    if steps != [] { AllowedIsUndisturbed(Next(s, steps[0]), steps[1..], rules); }
  }

  lemma ReachKeepsInv(s: Sys, n: Sys, rules: Rules)
    requires Inv(s) && CanReach(s, n, rules) && rules.SteadyRun?
    ensures Inv(n)
  {
    var steps :| Leads(s, steps, n, rules);
    AllowedIsUndisturbed(s, steps, rules);
    RunsKeep(s, steps);
  }

  // ---------------------------------------------------------------- an execution comes to its end

  /** How many kinds of steps the execution still has before it */
  function Rank(p: Phase): nat {
    match p
    case Started => 7
    case MarkedMig => 6
    case Marked => 5
    case Working(_) => 4
    case Answering(_) => 3
    case Freed => 2
    case Counted(_) => 1
  }

  function ToAnswer(p: Phase): set<Event> { if p.Answering? then p.jobs else {} }

  /** The next step of an execution; while there is something to answer it answers `e`. */
  function StepOf(p: Phase, x: nat, e: Event): Step {
    match p
    case Started => MarkMigrated(x)
    case MarkedMig => MarkPremigrated(x)
    case Marked => Select(x)
    case Working(_) => Delete(x)
    case Answering(jobs) => if jobs == {} then Free(x) else Answer(x, e)
    case Freed => Count(x)
    case Counted(_) => Conclude(x)
  }

  /** The execution gets on with its work, or answers `e`. */
  predicate GetsOn(p: Phase, p': Phase, e: Event) {
    Rank(p') < Rank(p) || (Rank(p') == Rank(p) && ToAnswer(p') == ToAnswer(p) - {e} && e in ToAnswer(p))
  }

  /** What an execution does not touch */
  predicate SameEvents(s: Sys, n: Sys) {
    n.arrived == s.arrived && n.unseen == s.unseen && n.waiting == s.waiting && n.strays == s.strays
  }

  lemma ExecStep(s: Sys, x: nat, e: Event)
    requires x in s.execs && (ToAnswer(s.execs[x].phase) != {} ==> e in ToAnswer(s.execs[x].phase))
    ensures var p := s.execs[x].phase;
            && Enabled(s, StepOf(p, x, e))
            && var n := Next(s, StepOf(p, x, e));
               && SameEvents(s, n)
               && (if p.Counted? then n.execs == s.execs - {x}
                   else x in n.execs && GetsOn(p, n.execs[x].phase, e)
                        && n.execs == s.execs[x := s.execs[x].(phase := n.execs[x].phase)])
  {
    var p := s.execs[x].phase;
    assert p.Answering? && p.jobs == {} ==> p == Answering({});
    ExecEvents(s, StepOf(p, x, e));
    ExecPhase(s, x, e);
  }

  lemma ExecPhase(s: Sys, x: nat, e: Event)
    requires x in s.execs && Enabled(s, StepOf(s.execs[x].phase, x, e))
    ensures var p, n := s.execs[x].phase, Next(s, StepOf(s.execs[x].phase, x, e));
            if p.Counted? then n.execs == s.execs - {x}
            else x in n.execs && GetsOn(p, n.execs[x].phase, e)
                 && n.execs == s.execs[x := s.execs[x].(phase := n.execs[x].phase)]
  {
    if Rank(s.execs[x].phase) > 3 { PhaseBefore(s, x, e); } else { PhaseAfter(s, x, e); }
  }

  lemma PhaseBefore(s: Sys, x: nat, e: Event)
    requires x in s.execs && Enabled(s, StepOf(s.execs[x].phase, x, e)) && Rank(s.execs[x].phase) > 3
    ensures var p, n := s.execs[x].phase, Next(s, StepOf(s.execs[x].phase, x, e));
            x in n.execs && Rank(n.execs[x].phase) < Rank(p)
            && n.execs == s.execs[x := s.execs[x].(phase := n.execs[x].phase)]
  {
    match s.execs[x].phase
    case Started => assert Next(s, MarkMigrated(x)).execs == SetPhase(s, x, MarkedMig).execs;
    case MarkedMig => assert Next(s, MarkPremigrated(x)).execs == SetPhase(s, x, Marked).execs;
    case Marked => assert Next(s, Select(x)).execs == SetPhase(s, x, Working(RecallingRows(s.rows, s.execs[x].tape))).execs;
    case Working(jobs) => assert Next(s, Delete(x)).execs == SetPhase(s, x, Answering(jobs)).execs;
  }

  lemma PhaseAfter(s: Sys, x: nat, e: Event)
    requires x in s.execs && Enabled(s, StepOf(s.execs[x].phase, x, e)) && Rank(s.execs[x].phase) <= 3
    ensures var p, n := s.execs[x].phase, Next(s, StepOf(s.execs[x].phase, x, e));
            if p.Counted? then n.execs == s.execs - {x}
            else x in n.execs && GetsOn(p, n.execs[x].phase, e)
                 && n.execs == s.execs[x := s.execs[x].(phase := n.execs[x].phase)]
  {
  }

  /** Nothing that an execution does takes an event out of reach. */
  lemma ExecStepKeeps(s: Sys, step: Step, e: Event)
    requires Shape(s) && Enabled(s, step) && OfExec(step) && Answerable(s, e)
    ensures Answerable(Next(s, step), e)
  {
    ExecEvents(s, step);
    ExecAnswers(s, step, e);
    if y :| Held(s, y, e) {
      HeldStays(s, step, e, y);
    } else if e in s.rows && WillBeSelected(s, s.rows[e].tape, s.rows[e].state) {
      SelectableStays(s, step, e);
    }
  }

  lemma HeldStays(s: Sys, step: Step, e: Event, y: nat)
    requires Enabled(s, step) && OfExec(step) && Held(s, y, e)
    ensures Held(Next(s, step), y, e) || (step.Answer? && step.e == e)
  {
    var n := Next(s, step);
    assert y != step.x ==> y in n.execs && n.execs[y] == s.execs[y];
  }

  lemma SelectableStays(s: Sys, step: Step, e: Event)
    requires Shape(s) && Enabled(s, step) && OfExec(step) && forall y :: !Held(s, y, e)
    requires e in s.rows && WillBeSelected(s, s.rows[e].tape, s.rows[e].state)
    ensures var n := Next(s, step);
            Held(n, step.x, e) || (e in n.rows && WillBeSelected(n, n.rows[e].tape, n.rows[e].state))
  {
    var n, tape := Next(s, step), s.rows[e].tape;
    assert step.Delete? && s.execs[step.x].tape == tape ==> BeingDeleted(s, tape);
    if BeingDeleted(n, tape) {
      var y :| y in n.execs && n.execs[y].tape == tape && n.execs[y].phase.Working?;
      MarkedBefore(s, step, e, y);
    }
  }

  /** If an execution has selected jobs after the step, the event is among them, or was not marked in the step. */
  lemma MarkedBefore(s: Sys, step: Step, e: Event, y: nat)
    requires Shape(s) && Enabled(s, step) && OfExec(step) && e in s.rows && WillBeSelected(s, s.rows[e].tape, s.rows[e].state)
    requires var n := Next(s, step);
             y in n.execs && n.execs[y].tape == s.rows[e].tape && n.execs[y].phase.Working?
    ensures var n := Next(s, step);
            Held(n, step.x, e) || (e in n.rows && !Recalling(n.rows[e].state) && n.rows[e].state != Other)
  {
    var n, tape := Next(s, step), s.rows[e].tape;
    if y != step.x {
      assert y in s.execs && s.execs[y] == n.execs[y] && BeingDeleted(s, tape);
      assert s.execs[step.x].tape == tape ==> !Holds(s.execs[step.x].phase);
    }
  }

  lemma ExecOnce(s: Sys, x: nat, rules: Rules) returns (n: Sys, e0: Event)
    requires Shape(s) && x in s.execs
    ensures CanReach(s, n, rules) && Shape(n) && SameEvents(s, n)
    ensures forall e :: Answerable(s, e) ==> Answerable(n, e)
    ensures var p := s.execs[x].phase;
            if p.Counted? then n.execs == s.execs - {x}
            else x in n.execs && GetsOn(p, n.execs[x].phase, e0)
                 && n.execs == s.execs[x := s.execs[x].(phase := n.execs[x].phase)]
  {
    var p := s.execs[x].phase;
    e0 := 0;
    if ToAnswer(p) != {} { e0 :| e0 in ToAnswer(p); }
    ExecStep(s, x, e0);
    n := Next(s, StepOf(p, x, e0));
    StepIsExec(p, x, e0);
    ExecRuns(s, StepOf(p, x, e0), rules);
  }

  lemma StepIsExec(p: Phase, x: nat, e: Event)
    ensures OfExec(StepOf(p, x, e))
  {
  }

  lemma ExecRuns(s: Sys, step: Step, rules: Rules)
    requires Shape(s) && Enabled(s, step) && OfExec(step)
    ensures CanReach(s, Next(s, step), rules) && Shape(Next(s, step))
    ensures forall e :: Answerable(s, e) ==> Answerable(Next(s, step), e)
  {
    One(s, step, rules);
    ExecKeepsShape(s, step);
    forall e | Answerable(s, e) ensures Answerable(Next(s, step), e) {
      ExecStepKeeps(s, step, e);
    }
  }

  /** Whatever an execution is doing, it comes to its end. */
  lemma {:induction false} FinishExec(s: Sys, x: nat, rules: Rules) returns (n: Sys)
    requires Shape(s) && x in s.execs
    ensures CanReach(s, n, rules) && Shape(n) && n.execs == s.execs - {x} && SameEvents(s, n)
    ensures forall e :: Answerable(s, e) ==> Answerable(n, e)
    decreases Rank(s.execs[x].phase), |ToAnswer(s.execs[x].phase)|
  {
    var e0;
    n, e0 := ExecOnce(s, x, rules);
    if !s.execs[x].phase.Counted? {
      var m := n;
      n := FinishExec(m, x, rules);
      Then(s, m, n, rules);
    }
  }

  lemma {:induction false} FinishAll(s: Sys, rules: Rules) returns (n: Sys)
    requires Shape(s)
    ensures CanReach(s, n, rules) && Shape(n) && n.execs == map[] && SameEvents(s, n)
    ensures forall e :: Answerable(s, e) ==> Answerable(n, e)
    decreases |s.execs|
  {
    if s.execs == map[] {
      Stay(s, rules);
      n := s;
    } else {
      var x :| x in s.execs;
      assert |s.execs - {x}| < |s.execs|;
      var m := FinishExec(s, x, rules);
      n := FinishAll(m, rules);
      Then(s, m, n, rules);
    }
  }

  /** The execution has the job before it, or has its event to answer. */
  predicate Ahead(s: Sys, x: nat, e: Event) {
    x in s.execs &&
    match s.execs[x].phase
    case Started => e in s.rows && s.rows[e].tape == s.execs[x].tape && s.rows[e].state != Other
    case MarkedMig =>
      e in s.rows && s.rows[e].tape == s.execs[x].tape && s.rows[e].state != Other && s.rows[e].state != Migrated
    case Marked => e in s.rows && s.rows[e].tape == s.execs[x].tape && Recalling(s.rows[e].state)
    case Working(jobs) => e in jobs
    case Answering(jobs) => e in jobs
    case _ => false
  }

  lemma {:induction false} Pursue(s: Sys, x: nat, e: Event, rules: Rules) returns (n: Sys)
    requires Ahead(s, x, e)
    ensures CanReach(s, n, rules) && e in n.answered
    decreases Rank(s.execs[x].phase)
  {
    var p := s.execs[x].phase;
    ExecStep(s, x, e);
    One(s, StepOf(p, x, e), rules);
    n := Next(s, StepOf(p, x, e));
    if !p.Answering? {
      var m := n;
      n := Pursue(m, x, e, rules);
      Then(s, m, n, rules);
    }
  }

  /** With no execution at work, and the request new */
  lemma RecallNow(s: Sys, e: Event, rules: Rules) returns (n: Sys)
    requires s.execs == map[] && e in s.rows && s.rows[e].state != Other
    requires s.rows[e].tape in s.requests && s.requests[s.rows[e].tape] == New
    ensures CanReach(s, n, rules) && e in n.answered
  {
    var step := Schedule(s.rows[e].tape, 0);
    One(s, step, rules);
    n := Pursue(Next(s, step), 0, e, rules);
    Then(s, Next(s, step), n, rules);
  }
}
