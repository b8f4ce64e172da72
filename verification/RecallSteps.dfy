/** Every step of `RecallProtocol` keeps the invariant. */
module RecallSteps {
  import opened RecallProtocol

  // ---------------------------------------------------------------- jobs and requests

  /** Whoever touches neither jobs nor requests nor executions keeps them in order. */
  lemma SameJobs(s: Sys, n: Sys)
    requires JobsInv(s)
    requires n.rows == s.rows && n.unannounced == s.unannounced && n.checked == s.checked
    requires n.requests == s.requests && n.strays == s.strays && n.execs == s.execs
    ensures JobsInv(n)
  {
    assert forall t :: AboutToDelete(n, t) <==> AboutToDelete(s, t);
    forall e | e in n.rows ensures Safe(n, e) && MarkedRow(n, e) && Promised(n, e) {
      assert Safe(s, e) && MarkedRow(s, e) && Promised(s, e);
      assert Attended(s, s.rows[e].tape) ==> Attended(n, s.rows[e].tape);
    }
    forall x | x in n.execs ensures SelectedOk(n, x) {
      assert SelectedOk(s, x);
    }
  }

  lemma FirstStepsKeepJobs(s: Sys, step: Step)
    requires JobsInv(s) && Enabled(s, step) && (step.Arrive? || step.Look?)
    ensures JobsInv(Next(s, step))
  {
    SameJobs(s, Next(s, step));
  }

  lemma InsertKeepsJobs(s: Sys, e0: Event, state: JobState)
    requires JobsInv(s) && e0 in s.waiting && e0 !in s.rows && e0 !in s.checked && (state == Migrated || state == Premigrated)
    ensures JobsInv(Inserted(s, e0, state, s.waiting[e0].tape))
  {
    var n := Inserted(s, e0, state, s.waiting[e0].tape);
    forall e | e in n.rows ensures Safe(n, e) && MarkedRow(n, e) && Promised(n, e) {
      if e != e0 {
        assert Safe(s, e) && MarkedRow(s, e) && Promised(s, e);
        assert Attended(s, s.rows[e].tape) ==> Attended(n, s.rows[e].tape);
      }
    }
    assert forall t :: AboutToDelete(n, t) ==> AboutToDelete(s, t);
    forall x | x in n.execs ensures SelectedOk(n, x) {
      assert SelectedOk(s, x);
      assert RecallingRows(n.rows, n.execs[x].tape) == RecallingRows(s.rows, n.execs[x].tape);
    }
  }

  lemma AddJobKeepsJobs(s: Sys, e0: Event, file: File, garbage: Garbage)
    requires JobsInv(s) && Enabled(s, AddJob(e0, file, garbage)) && e0 !in s.rows && e0 !in s.checked
    requires Undisturbed(s, AddJob(e0, file, garbage))
    ensures JobsInv(Next(s, AddJob(e0, file, garbage)))
  {
    if file.OnTape? {
      InsertKeepsJobs(s, e0, StateOf(file.attr));
    } else {
      SameJobs(s, Next(s, AddJob(e0, file, garbage)));
    }
  }

  lemma CheckKeepsJobs(s: Sys, e0: Event)
    requires JobsInv(s) && Enabled(s, CheckRequest(e0)) && Undisturbed(s, CheckRequest(e0))
    ensures JobsInv(Next(s, CheckRequest(e0)))
  {
    var n := Next(s, CheckRequest(e0));
    assert forall t :: AboutToDelete(n, t) ==> AboutToDelete(s, t);
    forall e | e in n.rows ensures Safe(n, e) && MarkedRow(n, e) && Promised(n, e) {
      assert Safe(s, e) && MarkedRow(s, e) && Promised(s, e);
      assert Attended(s, s.rows[e].tape) ==> Attended(n, s.rows[e].tape);
    }
    forall x | x in n.execs ensures SelectedOk(n, x) {
      assert SelectedOk(s, x);
    }
  }

  lemma AnnounceKeepsJobs(s: Sys, e0: Event)
    requires JobsInv(s) && Enabled(s, Announce(e0)) && Undisturbed(s, Announce(e0))
    ensures JobsInv(Next(s, Announce(e0)))
  {
    var n := Next(s, Announce(e0));
    assert forall t :: AboutToDelete(n, t) ==> AboutToDelete(s, t);
    forall e | e in n.rows ensures Safe(n, e) && MarkedRow(n, e) && Promised(n, e) {
      assert Safe(s, e) && MarkedRow(s, e) && Promised(s, e);
      assert Attended(s, s.rows[e].tape) ==> Attended(n, s.rows[e].tape);
    }
    forall x | x in n.execs ensures SelectedOk(n, x) {
      assert SelectedOk(s, x);
    }
  }

  lemma ScheduleKeepsJobs(s: Sys, tape: Tape, x0: nat)
    requires JobsInv(s) && Enabled(s, Schedule(tape, x0))
    ensures JobsInv(Next(s, Schedule(tape, x0)))
  {
    var n := Next(s, Schedule(tape, x0));
    assert n.execs[x0] == Exec(tape, Started);
    forall t | AboutToDelete(n, t) ensures AboutToDelete(s, t) {
      var x :| x in n.execs && n.execs[x] == Exec(t, Counted(false));
      assert x in s.execs;
    }
    forall e | e in n.rows ensures Safe(n, e) && MarkedRow(n, e) && Promised(n, e) {
      assert Safe(s, e) && MarkedRow(s, e) && Promised(s, e);
      ExecStays(s, n, x0, s.rows[e].tape);
      if Recalling(s.rows[e].state) {
        var x :| x in s.execs && s.execs[x].tape == s.rows[e].tape && MarkedBy(s.execs[x].phase, e);
        assert x in n.execs && n.execs[x] == s.execs[x];
      }
    }
    forall x | x in n.execs ensures SelectedOk(n, x) {
      if x != x0 { assert SelectedOk(s, x); }
    }
  }

  lemma ExecStays(s: Sys, n: Sys, x0: nat, tape: Tape)
    requires x0 !in s.execs && forall x :: x in s.execs ==> x in n.execs && n.execs[x] == s.execs[x]
    ensures Attended(s, tape) ==> Attended(n, tape)
  {
    if Attended(s, tape) {
      var x :| x in s.execs && s.execs[x].tape == tape && s.execs[x].phase != Counted(false);
      assert x in n.execs && n.execs[x] == s.execs[x];
    }
  }

  /** An execution goes on; the jobs it marked stay accounted for. */
  lemma PhaseKeepsOthers(s: Sys, n: Sys, x0: nat, p: Phase)
    requires JobsInv(s) && x0 in s.execs && n.execs == s.execs[x0 := s.execs[x0].(phase := p)]
    requires Holds(p) ==> Holds(s.execs[x0].phase)
    requires p == Counted(false) ==> forall e :: e in s.rows ==> s.rows[e].tape != s.execs[x0].tape
    requires !s.execs[x0].phase.Counted?
    requires n.requests == s.requests && n.unannounced == s.unannounced && n.checked == s.checked
    requires forall e :: e in n.rows ==>
               e in s.rows && n.rows[e].tape == s.rows[e].tape && (n.rows[e].state == Other ==> s.rows[e].state == Other)
    ensures OneHolder(n.execs)
    ensures forall e :: e in n.rows ==> Safe(n, e) && Promised(n, e) && n.rows[e].state != Other
    ensures forall e :: e in n.rows && AboutToDelete(n, n.rows[e].tape) ==> e in n.unannounced
  {
    forall x, y | x in n.execs && y in n.execs && x != y && n.execs[x].tape == n.execs[y].tape
      ensures !(Holds(n.execs[x].phase) && Holds(n.execs[y].phase))
    {
      assert x in s.execs && y in s.execs && s.execs[x].tape == s.execs[y].tape;
    }
    forall e | e in n.rows ensures Safe(n, e) && Promised(n, e) {
      var tape := s.rows[e].tape;
      assert Safe(s, e) && Promised(s, e);
      if AboutToDelete(n, tape) {
        var x :| x in n.execs && n.execs[x] == Exec(tape, Counted(false));
        assert x != x0 ==> x in s.execs && s.execs[x] == Exec(tape, Counted(false));
      }
      if Attended(s, tape) {
        var x :| x in s.execs && s.execs[x].tape == tape && s.execs[x].phase != Counted(false);
        assert x in n.execs && n.execs[x].tape == tape && n.execs[x].phase != Counted(false);
      }
    }
    forall e | e in n.rows && AboutToDelete(n, n.rows[e].tape) ensures e in n.unannounced {
      var x :| x in n.execs && n.execs[x] == Exec(n.rows[e].tape, Counted(false));
      if x != x0 { assert x in s.execs && s.execs[x] == Exec(s.rows[e].tape, Counted(false)); }
    }
  }

  /** A job that another execution marked. */
  lemma MarkedElsewhere(s: Sys, n: Sys, x0: nat, e: Event)
    requires JobsInv(s) && x0 in s.execs && e in s.rows && e in n.rows && n.rows[e] == s.rows[e]
    requires s.rows[e].tape != s.execs[x0].tape
    requires forall x :: x in s.execs && x != x0 ==> x in n.execs && n.execs[x] == s.execs[x]
    ensures MarkedRow(n, e)
  {
    assert MarkedRow(s, e);
    if Recalling(s.rows[e].state) {
      var x :| x in s.execs && s.execs[x].tape == s.rows[e].tape && MarkedBy(s.execs[x].phase, e);
      assert n.execs[x] == s.execs[x];
    }
  }

  /** What another execution selected is still what is marked on its tape. */
  lemma SelectedElsewhere(s: Sys, n: Sys, x0: nat, x: nat)
    requires JobsInv(s) && x0 in s.execs && x in s.execs && x != x0 && x in n.execs && n.execs[x] == s.execs[x]
    requires Holds(s.execs[x0].phase)
    requires forall e :: (e in s.rows && s.rows[e].tape != s.execs[x0].tape)
                         <==> (e in n.rows && n.rows[e].tape != s.execs[x0].tape)
    requires forall e :: e in s.rows && s.rows[e].tape != s.execs[x0].tape ==> n.rows[e] == s.rows[e]
    ensures SelectedOk(n, x)
  {
    assert SelectedOk(s, x);
    if s.execs[x].tape != s.execs[x0].tape {
      assert RecallingRows(n.rows, s.execs[x].tape) == RecallingRows(s.rows, s.execs[x].tape);
    }
  }

  lemma MarkKeepsJobs(s: Sys, step: Step)
    requires JobsInv(s) && Enabled(s, step) && (step.MarkMigrated? || step.MarkPremigrated?)
    ensures JobsInv(Next(s, step))
  {
    var n, x0 := Next(s, step), step.x;
    PhaseKeepsOthers(s, n, x0, n.execs[x0].phase);
    forall e | e in n.rows ensures MarkedRow(n, e) {
      if s.rows[e].tape != s.execs[x0].tape {
        MarkedElsewhere(s, n, x0, e);
      } else {
        assert MarkedBy(n.execs[x0].phase, e);
      }
    }
    forall x | x in n.execs ensures SelectedOk(n, x) {
      if x != x0 { SelectedElsewhere(s, n, x0, x); }
    }
  }

  lemma SelectKeepsJobs(s: Sys, x0: nat)
    requires JobsInv(s) && Enabled(s, Select(x0))
    ensures JobsInv(Next(s, Select(x0)))
  {
    var n := Next(s, Select(x0));
    PhaseKeepsOthers(s, n, x0, n.execs[x0].phase);
    forall e | e in n.rows ensures MarkedRow(n, e) {
      if s.rows[e].tape != s.execs[x0].tape {
        MarkedElsewhere(s, n, x0, e);
      } else if Recalling(s.rows[e].state) {
        assert MarkedBy(n.execs[x0].phase, e);
      }
    }
    forall x | x in n.execs ensures SelectedOk(n, x) {
      if x != x0 { SelectedElsewhere(s, n, x0, x); }
    }
  }

  lemma DeleteKeepsJobs(s: Sys, x0: nat)
    requires JobsInv(s) && Enabled(s, Delete(x0))
    ensures JobsInv(Next(s, Delete(x0)))
  {
    var n := Next(s, Delete(x0));
    PhaseKeepsOthers(s, n, x0, n.execs[x0].phase);
    forall e | e in n.rows ensures MarkedRow(n, e) {
      if s.rows[e].tape != s.execs[x0].tape { MarkedElsewhere(s, n, x0, e); }
    }
    forall x | x in n.execs ensures SelectedOk(n, x) {
      if x != x0 { SelectedElsewhere(s, n, x0, x); }
    }
  }

  /** The later steps of an execution: it has no marked jobs any more. */
  lemma LaterKeepsJobs(s: Sys, step: Step)
    requires JobsInv(s) && Enabled(s, step) && (step.Answer? || step.Free? || step.Count?)
    ensures JobsInv(Next(s, step))
  {
    var n, x0 := Next(s, step), step.x;
    PhaseKeepsOthers(s, n, x0, n.execs[x0].phase);
    forall e | e in n.rows ensures MarkedRow(n, e) {
      assert MarkedRow(s, e);
      if Recalling(s.rows[e].state) {
        var x :| x in s.execs && s.execs[x].tape == s.rows[e].tape && MarkedBy(s.execs[x].phase, e);
        assert n.execs[x] == s.execs[x];
      }
    }
    forall x | x in n.execs ensures SelectedOk(n, x) {
      assert SelectedOk(s, x);
    }
  }

  lemma ConcludeKeepsJobs(s: Sys, x0: nat)
    requires JobsInv(s) && Enabled(s, Conclude(x0))
    ensures JobsInv(Next(s, Conclude(x0)))
  {
    var n, t := Next(s, Conclude(x0)), s.execs[x0].tape;
    forall tape | AboutToDelete(n, tape) ensures AboutToDelete(s, tape) {
      var x :| x in n.execs && n.execs[x] == Exec(tape, Counted(false));
      assert x in s.execs;
    }
    forall e | e in n.rows ensures Safe(n, e) && MarkedRow(n, e) && Promised(n, e) {
      var tape := s.rows[e].tape;
      assert Safe(s, e) && MarkedRow(s, e) && Promised(s, e);
      if tape == t && !s.execs[x0].phase.remaining { assert AboutToDelete(s, tape); }
      if Attended(s, tape) && tape != t {
        var x :| x in s.execs && s.execs[x].tape == tape && s.execs[x].phase != Counted(false);
        assert x in n.execs && n.execs[x] == s.execs[x];
      }
      if Recalling(s.rows[e].state) {
        var x :| x in s.execs && s.execs[x].tape == tape && MarkedBy(s.execs[x].phase, e);
        assert x in n.execs && n.execs[x] == s.execs[x];
      }
    }
    forall e | e in n.rows && AboutToDelete(n, n.rows[e].tape) ensures e in n.unannounced {
      var x :| x in n.execs && n.execs[x] == Exec(n.rows[e].tape, Counted(false));
      assert x in s.execs && AboutToDelete(s, s.rows[e].tape);
    }
    forall x | x in n.execs ensures SelectedOk(n, x) {
      assert SelectedOk(s, x);
    }
  }

  lemma JobsKeep(s: Sys, step: Step)
    requires Inv(s) && Enabled(s, step) && Undisturbed(s, step)
    ensures JobsInv(Next(s, step))
  {
    match step
    case AddJob(e, file, garbage) => assert Places(s, e); AddJobKeepsJobs(s, e, file, garbage);
    case CheckRequest(e) => CheckKeepsJobs(s, e);
    case Announce(e) => AnnounceKeepsJobs(s, e);
    case Schedule(tape, x) => ScheduleKeepsJobs(s, tape, x);
    case MarkMigrated(x) => MarkKeepsJobs(s, step);
    case MarkPremigrated(x) => MarkKeepsJobs(s, step);
    case Select(x) => SelectKeepsJobs(s, x);
    case Delete(x) => DeleteKeepsJobs(s, x);
    case Conclude(x) => ConcludeKeepsJobs(s, x);
    case Arrive(_) => FirstStepsKeepJobs(s, step);
    case Look(_, _) => FirstStepsKeepJobs(s, step);
    case _ => LaterKeepsJobs(s, step);
  }

  // ---------------------------------------------------------------- events

  /** Steps that move no event. */
  predicate MovesNothing(step: Step) {
    !step.Arrive? && !step.Look? && !step.AddJob? && !step.Delete? && !step.Answer?
  }

  lemma QuietKeepsEvents(s: Sys, step: Step)
    requires Inv(s) && Enabled(s, step) && MovesNothing(step)
    ensures EventsInv(Next(s, step))
  {
    var n := Next(s, step);
    assert forall x, e :: Unanswered(n, x, e) <==> Unanswered(s, x, e);
    forall e ensures Places(n, e) && (e in n.arrived <==> SomewherePlace(n, e)) {
      assert Places(s, e) && (e in s.arrived <==> SomewherePlace(s, e));
      assert e in n.rows <==> e in s.rows;
    }
  }

  /** One event moves from where it was to another place; nothing else does. */
  ghost predicate Moves(s: Sys, n: Sys, e0: Event) {
    && n.execs == s.execs
    && (forall e :: e != e0 ==> (e in n.arrived <==> e in s.arrived) && (e in n.unseen <==> e in s.unseen))
    && (forall e :: e != e0 ==> (e in n.waiting <==> e in s.waiting) && (e in n.rows <==> e in s.rows))
    && (forall e :: e != e0 ==> (e in n.answered <==> e in s.answered))
  }

  lemma MoveKeepsPlaces(s: Sys, n: Sys, e0: Event)
    requires EventsInv(s) && Moves(s, n, e0) && e0 in n.arrived && (forall x :: !Unanswered(s, x, e0))
    requires e0 in n.unseen ==> e0 !in n.waiting && e0 !in n.rows && e0 !in n.answered
    requires e0 in n.waiting ==> e0 !in n.rows && e0 !in n.answered
    requires e0 in n.rows ==> e0 !in n.answered
    requires e0 in n.unseen || e0 in n.waiting || e0 in n.rows || e0 in n.answered
    ensures forall e :: Places(n, e) && (e in n.arrived <==> SomewherePlace(n, e))
  {
    assert forall x, e :: Unanswered(n, x, e) <==> Unanswered(s, x, e);
    forall e ensures Places(n, e) && (e in n.arrived <==> SomewherePlace(n, e)) {
      assert Places(s, e) && (e in s.arrived <==> SomewherePlace(s, e));
    }
  }

  lemma WorkedMoves(s: Sys, e0: Event, file: File, garbage: Garbage)
    requires e0 in s.waiting
    ensures Moves(s, Worked(s, e0, file, garbage), e0)
  {
    var n := Worked(s, e0, file, garbage);
    assert n.answered == s.answered || n.answered == s.answered + [e0];
    forall e | e != e0 ensures e in n.answered <==> e in s.answered {
    }
  }

  lemma ArriveKeepsEvents(s: Sys, e: Event)
    requires Inv(s) && Enabled(s, Arrive(e))
    ensures EventsInv(Next(s, Arrive(e)))
  {
    assert Places(s, e) && !SomewherePlace(s, e);
    MoveKeepsPlaces(s, Next(s, Arrive(e)), e);
  }

  lemma LookKeepsEvents(s: Sys, e: Event, file: File)
    requires Inv(s) && Enabled(s, Look(e, file))
    ensures EventsInv(Next(s, Look(e, file)))
  {
    assert Places(s, e) && SomewherePlace(s, e);
    LookMoves(s, e, file);
    MoveKeepsPlaces(s, Next(s, Look(e, file)), e);
  }

  lemma LookMoves(s: Sys, e0: Event, file: File)
    requires Enabled(s, Look(e0, file))
    ensures Moves(s, Next(s, Look(e0, file)), e0)
  {
    var n := Next(s, Look(e0, file));
    assert n.answered == s.answered || n.answered == s.answered + [e0];
  }

  lemma AddJobKeepsEvents(s: Sys, e: Event, file: File, garbage: Garbage)
    requires Inv(s) && Enabled(s, AddJob(e, file, garbage)) && Undisturbed(s, AddJob(e, file, garbage))
    ensures EventsInv(Next(s, AddJob(e, file, garbage)))
  {
    assert Places(s, e) && (e in s.arrived <==> SomewherePlace(s, e));
    WorkedMoves(s, e, file, garbage);
    MoveKeepsPlaces(s, Next(s, AddJob(e, file, garbage)), e);
  }

  lemma DeleteKeepsEvents(s: Sys, x0: nat)
    requires Inv(s) && Enabled(s, Delete(x0))
    ensures EventsInv(Next(s, Delete(x0)))
  {
    var n, gone := Next(s, Delete(x0)), RecallingRows(s.rows, s.execs[x0].tape);
    assert SelectedOk(s, x0);
    assert forall x, e :: Unanswered(n, x, e) <==> Unanswered(s, x, e) || (x == x0 && e in gone);
    forall e ensures Places(n, e) && (e in n.arrived <==> SomewherePlace(n, e)) {
      assert Places(s, e) && (e in s.arrived <==> SomewherePlace(s, e));
      if e in gone { assert Unanswered(n, x0, e); }
    }
  }

  lemma AnswerKeepsEvents(s: Sys, x0: nat, e0: Event)
    requires Inv(s) && Enabled(s, Answer(x0, e0))
    ensures EventsInv(Next(s, Answer(x0, e0)))
  {
    var n := Next(s, Answer(x0, e0));
    assert Unanswered(s, x0, e0) && Places(s, e0);
    forall x, e ensures Unanswered(n, x, e) <==> Unanswered(s, x, e) && e != e0 {
      if Unanswered(s, x, e0) { assert x == x0; }
    }
    forall e ensures Places(n, e) && (e in n.arrived <==> SomewherePlace(n, e)) {
      assert Places(s, e) && (e in s.arrived <==> SomewherePlace(s, e));
    }
  }

  lemma StepKeeps(s: Sys, step: Step)
    requires Inv(s) && Enabled(s, step) && Undisturbed(s, step)
    ensures Inv(Next(s, step))
  {
    JobsKeep(s, step);
    match step
    case Arrive(e) => ArriveKeepsEvents(s, e);
    case Look(e, file) => LookKeepsEvents(s, e, file);
    case AddJob(e, file, garbage) => AddJobKeepsEvents(s, e, file, garbage);
    case Delete(x) => DeleteKeepsEvents(s, x);
    case Answer(x, e) => AnswerKeepsEvents(s, x, e);
    case _ => QuietKeepsEvents(s, step);
  }

  lemma InitInv(s: Sys)
    requires Init(s)
    ensures Inv(s)
  {
  }

  lemma {:induction false} RunsKeep(s: Sys, steps: seq<Step>)
    requires Inv(s) && ValidRun(s, steps) && UndisturbedRun(s, steps)
    ensures Inv(After(s, steps))
    decreases |steps|
  {
    if steps != [] {
      StepKeeps(s, steps[0]);
      RunsKeep(Next(s, steps[0]), steps[1..]);
    }
  }
}
