/** What the invariant of `RecallProtocol` means for blocked applications. */
module RecallGuarantees {
  import opened RecallProtocol
  import opened RecallSteps
  import opened RecallReach

  /** No job is forgotten: in every state of every undisturbed run, each job is about to be announced, or its
      request is new, or an execution of the request has not yet finished its count. */
  lemma NoJobIsStranded(s0: Sys, steps: seq<Step>, e: Event)
    requires Init(s0) && ValidRun(s0, steps) && UndisturbedRun(s0, steps) && e in After(s0, steps).rows
    ensures Safe(After(s0, steps), e)
  {
    InitInv(s0);
    RunsKeep(s0, steps);
  }

  /** Every event is answered at most once, and is unanswered exactly as long as somebody still has it. */
  lemma AnsweredOnce(s0: Sys, steps: seq<Step>, e: Event)
    requires Init(s0) && ValidRun(s0, steps) && UndisturbedRun(s0, steps)
    ensures var s := After(s0, steps);
            && NoneTwice(s.answered)
            && (e in s.answered <==> e in s.arrived && e !in s.unseen && e !in s.waiting && e !in s.rows
                                     && !exists x :: Unanswered(s, x, e))
  {
    InitInv(s0);
    RunsKeep(s0, steps);
    var s := After(s0, steps);
    assert Places(s, e) && (e in s.arrived <==> SomewherePlace(s, e));
  }

  lemma SomebodyIsThere(s: Sys, e: Event)
    requires Inv(s) && e in s.rows
    ensures e in s.unannounced || s.execs.Keys != {} || exists t :: t in s.requests && s.requests[t] == New
  {
    assert Safe(s, e);
    if Attended(s, s.rows[e].tape) {
      var x :| x in s.execs && s.execs[x].tape == s.rows[e].tape && s.execs[x].phase != Counted(false);
      assert x in s.execs.Keys;
    }
  }

  /** When all threads are done and no request is new, every event has been answered, exactly once. */
  lemma QuietMeansAllAnswered(s0: Sys, steps: seq<Step>, e: Event)
    requires Init(s0) && ValidRun(s0, steps) && UndisturbedRun(s0, steps)
    requires var s := After(s0, steps);
             && s.unseen == {} && s.waiting == map[] && s.unannounced == map[] && s.execs == map[]
             && forall t :: t in s.requests ==> s.requests[t] != New
    ensures var s := After(s0, steps);
            s.rows == map[] && NoneTwice(s.answered) && (e in s.answered <==> e in s.arrived)
  {
    InitInv(s0);
    RunsKeep(s0, steps);
    var s := After(s0, steps);
    forall f ensures f !in s.rows {
      if f in s.rows { SomebodyIsThere(s, f); }
    }
    assert s.rows.Keys == {};
    AnsweredOnce(s0, steps, e);
  }

  /** The deletion takes exactly the jobs that were selected; a job that came later stays. */
  lemma DeleteTakesTheSelected(s0: Sys, steps: seq<Step>, x: nat, e: Event)
    requires Init(s0) && ValidRun(s0, steps) && UndisturbedRun(s0, steps) && Enabled(After(s0, steps), Delete(x))
    ensures var s := After(s0, steps);
            var n := Next(s, Delete(x));
            && (e in s.execs[x].phase.jobs ==> e in s.rows && e !in n.rows)
            && (e in s.rows && e !in s.execs[x].phase.jobs ==> e in n.rows && n.rows[e] == s.rows[e])
  {
    InitInv(s0);
    RunsKeep(s0, steps);
    assert SelectedOk(After(s0, steps), x);
  }

  // ---------------------------------------------------------------- every event can be answered

  lemma AnnounceNow(s: Sys, e: Event, rules: Rules) returns (n: Sys)
    requires Inv(s) && s.execs == map[] && e in s.rows && e in s.unannounced && e in s.checked && rules.SteadyRun?
    ensures CanReach(s, n, rules) && e in n.answered
  {
    assert Promised(s, e);
    One(s, Announce(e), rules);
    n := RecallNow(Next(s, Announce(e)), e, rules);
    Then(s, Next(s, Announce(e)), n, rules);
  }

  /** With no execution at work: the job is announced, if that is still to be done, and recalled. */
  lemma RowNow(s: Sys, e: Event, rules: Rules) returns (n: Sys)
    requires Inv(s) && s.execs == map[] && e in s.rows && rules.SteadyRun?
    ensures CanReach(s, n, rules) && e in n.answered
  {
    assert Safe(s, e) && !Attended(s, s.rows[e].tape);
    if e !in s.unannounced {
      n := RecallNow(s, e, rules);
    } else if e in s.checked {
      n := AnnounceNow(s, e, rules);
    } else {
      One(s, CheckRequest(e), rules);
      StepKeeps(s, CheckRequest(e));
      n := AnnounceNow(Next(s, CheckRequest(e)), e, rules);
      Then(s, Next(s, CheckRequest(e)), n, rules);
    }
  }

  /** The file of the event stays what it is: what the first look found, if that was, and a regular one if it
      is on tape. */
  predicate Steady(s: Sys, e: Event, file: File) {
    && (file.OnTape? ==> file.attr.regular)
    && (e in s.waiting ==> file == OnTape(s.waiting[e]))
  }

  lemma WaitingNow(s: Sys, rules: Rules) returns (n: Sys)
    requires Inv(s) && s.execs == map[] && rules.SteadyRun? && rules.e in s.waiting && Steady(s, rules.e, rules.file)
    ensures CanReach(s, n, rules) && rules.e in n.answered
  {
    var step := AddJob(rules.e, rules.file, Garbage(Other, ""));
    One(s, step, rules);
    StepKeeps(s, step);
    n := RowNow(Next(s, step), rules.e, rules);
    Then(s, Next(s, step), n, rules);
  }

  lemma UnseenNow(s: Sys, rules: Rules) returns (n: Sys)
    requires Inv(s) && s.execs == map[] && rules.SteadyRun? && rules.e in s.unseen && Steady(s, rules.e, rules.file)
    ensures CanReach(s, n, rules) && rules.e in n.answered
  {
    var step := Look(rules.e, rules.file);
    One(s, step, rules);
    if rules.file.OnTape? {
      StepKeeps(s, step);
      n := WaitingNow(Next(s, step), rules);
      Then(s, Next(s, step), n, rules);
    } else {
      n := Next(s, step);
    }
  }

  lemma EventNow(s: Sys, rules: Rules) returns (n: Sys)
    requires Inv(s) && s.execs == map[] && rules.SteadyRun? && rules.e in s.arrived && Steady(s, rules.e, rules.file)
    ensures CanReach(s, n, rules) && rules.e in n.answered
  {
    assert SomewherePlace(s, rules.e);
    if rules.e in s.answered {
      Stay(s, rules);
      n := s;
    } else if rules.e in s.rows {
      n := RowNow(s, rules.e, rules);
    } else if rules.e in s.waiting {
      n := WaitingNow(s, rules);
    } else {
      n := UnseenNow(s, rules);
    }
  }

  /** No event is ever out of reach: from every state of every undisturbed run, whatever its file is like as
      long as it stays that way, there is an undisturbed run, without any new event coming in, after which it
      has been answered. */
  lemma EveryEventCanBeAnswered(s0: Sys, before: seq<Step>, e: Event, file: File)
    requires Init(s0) && ValidRun(s0, before) && UndisturbedRun(s0, before) && e in After(s0, before).arrived
    requires Steady(After(s0, before), e, file)
    ensures exists n :: CanReach(After(s0, before), n, SteadyRun(e, file)) && e in n.answered
  {
    var s, rules := After(s0, before), SteadyRun(e, file);
    InitInv(s0);
    RunsKeep(s0, before);
    InitShape(s0);
    RunsKeepShape(s0, before);
    var m := FinishAll(s, rules);
    ReachKeepsInv(s, m, rules);
    var n := EventNow(m, rules);
    Then(s, m, n, rules);
  }

  // ---------------------------------------------------------------- which events can be answered at all

  ghost predicate CanAnswer(s: Sys, e: Event) { exists n :: CanReach(s, n, AnyRun) && e in n.answered }

  lemma {:induction false} DropAll(s: Sys)
    ensures CanReach(s, s.(strays := {}), AnyRun)
    decreases |s.strays|
  {
    if s.strays == {} {
      Stay(s, AnyRun);
    } else {
      var stray :| stray in s.strays;
      assert |s.strays - {stray}| < |s.strays|;
      var n := Next(s, DropStray(stray));
      One(s, DropStray(stray), AnyRun);
      DropAll(n);
      Then(s, n, s.(strays := {}), AnyRun);
    }
  }

  function NewAttr(tape: Tape): Attr { Attr(true, true, tape) }

  /** Another event for the tape comes in, up to where its job is inserted. */
  lemma NewJob(s: Sys, e0: Event, tape: Tape) returns (n: Sys)
    requires Shape(s) && e0 !in s.arrived
    ensures CanReach(s, n, AnyRun) && e0 !in n.checked
    ensures n.rows == s.rows[e0 := Job(tape, Migrated)] && n.requests == s.requests && n.execs == s.execs
    ensures n.strays == s.strays && n.unannounced == s.unannounced[e0 := Note(tape, tape)] && n.answered == s.answered
  {
    var file := OnTape(NewAttr(tape));
    var s1 := Next(s, Arrive(e0));
    var s2 := Next(s1, Look(e0, file));
    n := Next(s2, AddJob(e0, file, Garbage(Other, "")));
    One(s, Arrive(e0), AnyRun);
    One(s1, Look(e0, file), AnyRun);
    One(s2, AddJob(e0, file, Garbage(Other, "")), AnyRun);
    Then(s, s1, s2, AnyRun);
    Then(s, s2, n, AnyRun);
  }

  /** It makes the request of the tape new. */
  lemma NewRequest(s: Sys, e0: Event, tape: Tape) returns (n: Sys)
    requires e0 in s.unannounced && s.unannounced[e0] == Note(tape, tape) && e0 !in s.checked && s.strays == {}
    ensures CanReach(s, n, AnyRun) && tape in n.requests && n.requests[tape] == New
    ensures n.rows == s.rows && n.execs == s.execs
  {
    var s1 := Next(s, CheckRequest(e0));
    n := Next(s1, Announce(e0));
    One(s, CheckRequest(e0), AnyRun);
    One(s1, Announce(e0), AnyRun);
    Then(s, s1, n, AnyRun);
  }

  lemma RowAny(s: Sys, e: Event) returns (n: Sys)
    requires Shape(s) && s.execs == map[] && s.strays == {} && e in s.rows && s.rows[e].state != Other
    ensures CanReach(s, n, AnyRun) && e in n.answered
  {
    var tape := s.rows[e].tape;
    if tape in s.requests && s.requests[tape] == New {
      n := RecallNow(s, e, AnyRun);
    } else {
      var e0 := Above(s.arrived);
      var s1 := NewJob(s, e0, tape);
      var s2 := NewRequest(s1, e0, tape);
      assert s2.rows[e] == s.rows[e];
      n := RecallNow(s2, e, AnyRun);
      Then(s1, s2, n, AnyRun);
      Then(s, s1, n, AnyRun);
    }
  }

  ghost function Above(xs: set<nat>): (m: nat)
    ensures forall x :: x in xs ==> x < m
    decreases |xs|
  {
    if xs == {} then 0
    else
      var x: nat :| x in xs;
      var m := Above(xs - {x});
      assert forall y :: y in xs ==> y == x || y in xs - {x};
      if x < m then m else x + 1
  }

  lemma AnswerableCanBeAnswered(s: Sys, e: Event)
    requires Shape(s) && Answerable(s, e)
    ensures CanAnswer(s, e)
  {
    var n: Sys;
    if e in s.unseen {
      One(s, Look(e, Unreadable), AnyRun);
      n := Next(s, Look(e, Unreadable));
    } else if e in s.waiting {
      One(s, AddJob(e, OffTape(true), Garbage(Other, "")), AnyRun);
      n := Next(s, AddJob(e, OffTape(true), Garbage(Other, "")));
    } else {
      var m := FinishAll(s, AnyRun);
      assert forall x :: !Held(m, x, e);
      n := m;
      if e !in m.answered {
        DropAll(m);
        n := RowAny(m.(strays := {}), e);
        Then(m, m.(strays := {}), n, AnyRun);
        Then(s, m, n, AnyRun);
      }
    }
  }

  /** Whatever happened before, disturbances and all: an event can still be answered on some run exactly if it
      is before its second look, an execution has it, or it has a row that an execution will select. */
  lemma CanBeAnsweredIff(s0: Sys, before: seq<Step>, e: Event)
    requires Init(s0) && ValidRun(s0, before) && e in After(s0, before).arrived
    ensures CanAnswer(After(s0, before), e) <==> Answerable(After(s0, before), e)
  {
    var s := After(s0, before);
    InitShape(s0);
    RunsKeepShape(s0, before);
    if Answerable(s, e) {
      AnswerableCanBeAnswered(s, e);
    } else {
      forall n | CanReach(s, n, AnyRun) ensures e !in n.answered {
        var steps :| Leads(s, steps, n, AnyRun);
        LostForGood(s, e, steps);
      }
    }
  }

  /** The first look loses nothing: it answers the event, or passes it on and leaves it within reach.  The
      second look decides: the event can be answered exactly if the look finds a regular file, or fails and
      the row gets a state that an execution will select. */
  lemma SecondLookDecides(s0: Sys, before: seq<Step>, e: Event, file: File, garbage: Garbage)
    requires Init(s0) && ValidRun(s0, before)
    ensures var s := After(s0, before);
            && (e in s.unseen ==>
                 (e in Next(s, Look(e, file)).answered <==> !file.OnTape?) && CanAnswer(Next(s, Look(e, file)), e))
            && (e in s.waiting ==>
                 (CanAnswer(Next(s, AddJob(e, file, garbage)), e) <==>
                    match file
                    case Unreadable => WillBeSelected(s, s.waiting[e].tape, garbage.state)
                    case OffTape(regular) => regular
                    case OnTape(attr) => attr.regular))
  {
    var s := After(s0, before);
    InitShape(s0);
    RunsKeepShape(s0, before);
    if e in s.unseen {
      StepKeepsShape(s, Look(e, file));
      AnswerableCanBeAnswered(Next(s, Look(e, file)), e);
    }
    if e in s.waiting {
      AddJobLeaves(s, e, file, garbage);
      AfterStep(s0, before, AddJob(e, file, garbage));
      CanBeAnsweredIff(s0, before + [AddJob(e, file, garbage)], e);
    }
  }

  lemma {:induction false} AfterStep(s: Sys, before: seq<Step>, step: Step)
    requires ValidRun(s, before) && Enabled(After(s, before), step)
    ensures ValidRun(s, before + [step]) && After(s, before + [step]) == Next(After(s, before), step)
    decreases |before|
  {
    if before == [] {
      assert before + [step] == [step] && [step][1..] == [];
    } else {
      assert (before + [step])[0] == before[0] && (before + [step])[1..] == before[1..] + [step];
      AfterStep(Next(s, before[0]), before[1..], step);
    }
  }

  lemma AddJobLeaves(s: Sys, e: Event, file: File, garbage: Garbage)
    requires Shape(s) && e in s.waiting
    ensures var n := Next(s, AddJob(e, file, garbage));
            && e in n.arrived
            && (Answerable(n, e) <==>
                  match file
                  case Unreadable => WillBeSelected(s, s.waiting[e].tape, garbage.state)
                  case OffTape(regular) => regular
                  case OnTape(attr) => attr.regular)
  {
    var n := Next(s, AddJob(e, file, garbage));
    assert Early(s, e);
    assert forall x :: Held(n, x, e) <==> Held(s, x, e);
    assert forall t :: BeingDeleted(n, t) <==> BeingDeleted(s, t);
  }

  // ---------------------------------------------------------------- between count and deletion

  /** The job has neither request nor anybody who is going to announce it. */
  predicate Stranded(s: Sys, e: Event) {
    e in s.rows && e !in s.unannounced && s.rows[e].tape !in s.requests
  }

  lemma RunTwo(s: Sys, a: Step, b: Step)
    requires Enabled(s, a) && Enabled(Next(s, a), b)
    ensures ValidRun(s, [a, b]) && After(s, [a, b]) == Next(Next(s, a), b)
  {
    RunCons(Next(s, a), b, []);
    RunCons(s, a, [b]);
    assert [b] + [] == [b] && [a] + [b] == [a, b];
  }

  lemma RunThree(s: Sys, a: Step, b: Step, c: Step)
    requires Enabled(s, a) && Enabled(Next(s, a), b) && Enabled(Next(Next(s, a), b), c)
    ensures ValidRun(s, [a, b, c]) && After(s, [a, b, c]) == Next(Next(Next(s, a), b), c)
  {
    RunTwo(Next(s, a), b, c);
    RunCons(s, a, [b, c]);
    assert [a] + [b, c] == [a, b, c];
  }

  /** Count and deletion are two statements.  An announcement in between is safe exactly if no execution has
      counted nothing for its tape: otherwise the request that it made new is deleted at once. */
  lemma AnnounceSafeIff(s: Sys, e: Event)
    requires Inv(s) && Enabled(s, Announce(e))
    ensures Undisturbed(s, Announce(e)) <==> Inv(Next(s, Announce(e)))
    ensures !Undisturbed(s, Announce(e)) ==>
            exists x :: ValidRun(s, [Announce(e), Conclude(x)]) && Stranded(After(s, [Announce(e), Conclude(x)]), e)
  {
    var n := Next(s, Announce(e));
    if Undisturbed(s, Announce(e)) {
      StepKeeps(s, Announce(e));
    } else {
      var tape := s.rows[e].tape;
      var x :| x in s.execs && s.execs[x] == Exec(tape, Counted(false));
      assert AboutToDelete(n, tape) by { assert n.execs[x] == Exec(tape, Counted(false)); }
      assert e in n.rows && e !in n.unannounced;
      RunTwo(s, Announce(e), Conclude(x));
    }
  }

  /** The look for the request and the statement that follows are two as well.  A look is safe exactly if the
      request that it finds is not about to be deleted: otherwise the job is announced to a request that is gone. */
  lemma CheckSafeIff(s: Sys, e: Event)
    requires Inv(s) && Enabled(s, CheckRequest(e))
    ensures Undisturbed(s, CheckRequest(e)) <==> Inv(Next(s, CheckRequest(e)))
    ensures !Undisturbed(s, CheckRequest(e)) ==>
            exists x :: ValidRun(s, [CheckRequest(e), Conclude(x), Announce(e)])
                        && Stranded(After(s, [CheckRequest(e), Conclude(x), Announce(e)]), e)
  {
    var n := Next(s, CheckRequest(e));
    if Undisturbed(s, CheckRequest(e)) {
      StepKeeps(s, CheckRequest(e));
    } else {
      assert Promised(s, e);
      var tape := s.rows[e].tape;
      var x :| x in s.execs && s.execs[x] == Exec(tape, Counted(false));
      assert AboutToDelete(n, tape) by { assert n.execs[x] == Exec(tape, Counted(false)); }
      assert !Promised(n, e);
      RunThree(s, CheckRequest(e), Conclude(x), Announce(e));
    }
  }

  // ---------------------------------------------------------------- events that nobody answers

  /** Another look than the first one: the file was found on tape, and now is not regular or cannot be read. */
  lemma SecondLookLoses(s0: Sys, e: Event, first: Attr, file: File, garbage: Garbage)
    requires Init(s0)
    requires match file
             case Unreadable => garbage.state == Other
             case OffTape(regular) => !regular
             case OnTape(attr) => !attr.regular
    ensures var run := [Arrive(e), Look(e, OnTape(first)), AddJob(e, file, garbage)];
            ValidRun(s0, run) && Lost(After(s0, run), e)
  {
    var run := [Arrive(e), Look(e, OnTape(first)), AddJob(e, file, garbage)];
    RunThree(s0, run[0], run[1], run[2]);
    RunTwo(s0, run[0], run[1]);
    InitShape(s0);
    RunsKeepShape(s0, [run[0], run[1]]);
    AddJobLeaves(Next(Next(s0, run[0]), run[1]), e, file, garbage);
  }

  /** The receiving thread found a regular file on tape, the worker finds something that is not a regular
      file: it drops the event, and on no run is it answered. */
  lemma IrregularIsNeverAnswered(s0: Sys, e: Event, first: Attr, file: File, garbage: Garbage, steps: seq<Step>)
    requires Init(s0) && first.regular && ((file.OffTape? && !file.regular) || (file.OnTape? && !file.attr.regular))
    ensures var run := [Arrive(e), Look(e, OnTape(first)), AddJob(e, file, garbage)];
            && ValidRun(s0, run) && file != OnTape(first)
            && (ValidRun(After(s0, run), steps) ==> e !in After(After(s0, run), steps).answered)
  {
    var run := [Arrive(e), Look(e, OnTape(first)), AddJob(e, file, garbage)];
    SecondLookLoses(s0, e, first, file, garbage);
    InitShape(s0);
    RunsKeepShape(s0, run);
    if ValidRun(After(s0, run), steps) { LostForGood(After(s0, run), e, steps); }
  }

  /** The receiving thread found a file on tape, the worker cannot read it and inserts a job all the same,
      with a state that no statement looks for: on no run is the event answered, and its job stays. */
  lemma UnreadableIsNeverAnswered(s0: Sys, e: Event, first: Attr, tape: Tape, steps: seq<Step>)
    requires Init(s0)
    ensures var run := [Arrive(e), Look(e, OnTape(first)), AddJob(e, Unreadable, Garbage(Other, tape))];
            && ValidRun(s0, run)
            && (ValidRun(After(s0, run), steps) ==>
                 var n := After(After(s0, run), steps);
                 e !in n.answered && e in n.rows && n.rows[e] == Job(first.tape, Other))
  {
    var run := [Arrive(e), Look(e, OnTape(first)), AddJob(e, Unreadable, Garbage(Other, tape))];
    SecondLookLoses(s0, e, first, Unreadable, Garbage(Other, tape));
    RunThree(s0, run[0], run[1], run[2]);
    InitShape(s0);
    RunsKeepShape(s0, run);
    if ValidRun(After(s0, run), steps) {
      LostForGood(After(s0, run), e, steps);
      OtherStays(After(s0, run), e, first.tape, steps);
    }
  }

  lemma {:induction false} OtherStays(s: Sys, e: Event, tape: Tape, steps: seq<Step>)
    requires Shape(s) && Lost(s, e) && e in s.rows && s.rows[e] == Job(tape, Other) && ValidRun(s, steps)
    ensures e in After(s, steps).rows && After(s, steps).rows[e] == Job(tape, Other)
    decreases |steps|
  {
    if steps != [] {
      OtherStep(s, e, steps[0]);
      LostStays(s, e, steps[0]);
      StepKeepsShape(s, steps[0]);
      OtherStays(Next(s, steps[0]), e, tape, steps[1..]);
    }
  }

  lemma OtherStep(s: Sys, e: Event, step: Step)
    requires Lost(s, e) && e in s.rows && s.rows[e].state == Other && Enabled(s, step)
    ensures e in Next(s, step).rows && Next(s, step).rows[e] == s.rows[e]
  {
    if step.AddJob? { WorkedEvents(s, step.e, step.file, step.garbage); }
  }
}
