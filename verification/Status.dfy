/**
  The progress counters of a request.  They are read from the job queue once and
  then kept up to date by hand.
 */
module Status {
  import opened JobTable

  datatype Counters = Counters(resident: int, transferred: int, premigrated: int, migrated: int, failed: int)

  const ZERO := Counters(0, 0, 0, 0, 0)

  datatype Class = CResident | CTransferred | CPremigrated | CMigrated | CFailed

  /** Under which counter a job state is shown. */
  function ClassOf(st: JobState): Class {
    match st
    case Resident => CResident
    case Transferring => CResident
    case Transferred => CTransferred
    case Premigrated => CPremigrated
    case ChangingFState => CPremigrated
    case RecallingPremig => CPremigrated
    case Migrated => CMigrated
    case RecallingMig => CMigrated
    case Failed => CFailed
  }

  function Get(c: Counters, k: Class): int {
    match k
    case CResident => c.resident
    case CTransferred => c.transferred
    case CPremigrated => c.premigrated
    case CMigrated => c.migrated
    case CFailed => c.failed
  }

  function Put(c: Counters, k: Class, n: int): Counters {
    match k
    case CResident => c.(resident := n)
    case CTransferred => c.(transferred := n)
    case CPremigrated => c.(premigrated := n)
    case CMigrated => c.(migrated := n)
    case CFailed => c.(failed := n)
  }

  /** The states that the updates know by name; a job in any other state is not counted down or up. */
  predicate Plain(st: JobState) { st == Resident || st == Transferred || st == Premigrated || st == Migrated }

  function Succeeded(c: Counters, from: JobState, to: JobState): Counters {
    var down := if Plain(from) then Put(c, ClassOf(from), Get(c, ClassOf(from)) - 1) else c;
    if Plain(to) then Put(down, ClassOf(to), Get(down, ClassOf(to)) + 1) else down
  }

  /** updateFailed does not know the state TRANSFERRED. */
  function Fail(c: Counters, from: JobState): Counters {
    var down := if Plain(from) && from != Transferred then Put(c, ClassOf(from), Get(c, ClassOf(from)) - 1) else c;
    down.(failed := down.failed + 1)
  }

  /** Which counters go down and up when the work on a job ends */
  lemma CountersMove(c: Counters)
    ensures Succeeded(c, Resident, Transferred) == c.(resident := c.resident - 1, transferred := c.transferred + 1)
    ensures Succeeded(c, Transferred, Premigrated) == c.(transferred := c.transferred - 1, premigrated := c.premigrated + 1)
    ensures Succeeded(c, Transferred, Migrated) == c.(transferred := c.transferred - 1, migrated := c.migrated + 1)
    ensures Succeeded(c, Premigrated, Migrated) == c.(premigrated := c.premigrated - 1, migrated := c.migrated + 1)
    ensures Succeeded(c, Premigrated, Resident) == c.(premigrated := c.premigrated - 1, resident := c.resident + 1)
    ensures Succeeded(c, Migrated, Premigrated) == c.(migrated := c.migrated - 1, premigrated := c.premigrated + 1)
    ensures Succeeded(c, Migrated, Resident) == c.(migrated := c.migrated - 1, resident := c.resident + 1)
    ensures Fail(c, Resident) == c.(resident := c.resident - 1, failed := c.failed + 1)
    ensures Fail(c, Transferred) == c.(failed := c.failed + 1)
    ensures Fail(c, Premigrated) == c.(premigrated := c.premigrated - 1, failed := c.failed + 1)
    ensures Fail(c, Migrated) == c.(migrated := c.migrated - 1, failed := c.failed + 1)
  {
  }

  /** A job that is marked for a transfer or a recall is still shown where it was; one that is marked for the
      change of its state is shown as premigrated; and no two of the five final states share a counter. */
  lemma MarkedJobsShow(j: Job, st: Stmt)
    ensures st.SetTransferring? && st.from == Resident && Matches(j, st) ==> ClassOf(Set(j, st).state) == ClassOf(j.state)
    ensures (&& st.SetState? && Recalling(st.to) && Matches(j, st)
             && st.old_ == (if st.to == RecallingMig then Migrated else Premigrated)) ==>
              ClassOf(Set(j, st).state) == ClassOf(j.state)
    ensures st.SetChangeState? && Matches(j, st) ==> ClassOf(Set(j, st).state) == ClassOf(Premigrated)
    ensures forall a, b :: (Plain(a) || a == Failed) && (Plain(b) || b == Failed) && a != b ==> ClassOf(a) != ClassOf(b)
  {
  }

  // ---------------------------------------------------------------- the initial count

  function CountState(rows: seq<Job>, req: nat, st: JobState): nat {
    if rows == [] then 0 else (if rows[0].req == req && rows[0].state == st then 1 else 0) + CountState(rows[1..], req, st)
  }

  function CountClass(rows: seq<Job>, req: nat, k: Class): nat {
    if rows == [] then 0
    else (if rows[0].req == req && ClassOf(rows[0].state) == k then 1 else 0) + CountClass(rows[1..], req, k)
  }

  function Total(c: Counters): int { c.resident + c.transferred + c.premigrated + c.migrated + c.failed }

  function JobsOf(rows: seq<Job>, req: nat): nat {
    if rows == [] then 0 else (if rows[0].req == req then 1 else 0) + JobsOf(rows[1..], req)
  }

  lemma {:induction false} ClassesSum(rows: seq<Job>, req: nat)
    ensures CountClass(rows, req, CResident) + CountClass(rows, req, CTransferred) + CountClass(rows, req, CPremigrated)
            + CountClass(rows, req, CMigrated) + CountClass(rows, req, CFailed) == JobsOf(rows, req)
  {
    if rows != [] { ClassesSum(rows[1..], req); }
  }

  /** A grouped count of the job queue: each state that occurs once, with the number of its jobs. */
  predicate GroupsOf(groups: seq<(JobState, nat)>, rows: seq<Job>, req: nat) {
    && (forall g :: 0 <= g < |groups| ==> groups[g].1 == CountState(rows, req, groups[g].0) && groups[g].1 > 0)
    && (forall g, h :: 0 <= g < h < |groups| ==> groups[g].0 != groups[h].0)
    && (forall st :: CountState(rows, req, st) > 0 ==> exists g :: 0 <= g < |groups| && groups[g].0 == st)
  }

  /** Status::add assigns: of two states under the same counter the later one wins. */
  function Assigned(groups: seq<(JobState, nat)>, c: Counters): Counters
    decreases |groups|
  {
    if groups == [] then c else Assigned(groups[1..], Put(c, ClassOf(groups[0].0), groups[0].1))
  }

  class Status {
    var allStates: map<nat, Counters>

    method Add(req: nat, groups: seq<(JobState, nat)>)
      modifies this
      ensures allStates == if req in old(allStates) then old(allStates) else old(allStates)[req := Assigned(groups, ZERO)]
    {
      if req in allStates { return; }
      var state := ZERO;
      for g := 0 to |groups|
        invariant Assigned(groups[g..], state) == Assigned(groups, ZERO)
        invariant allStates == old(allStates)
      {
        assert groups[g..][1..] == groups[g + 1..];
        var num := groups[g].1;
        match groups[g].0 {
          case Resident | Transferring => state := state.(resident := num);
          case Transferred => state := state.(transferred := num);
          case Premigrated | ChangingFState | RecallingPremig => state := state.(premigrated := num);
          case Migrated | RecallingMig => state := state.(migrated := num);
          case Failed => state := state.(failed := num);
        }
      }
      allStates := allStates[req := state];
    }

    method UpdateSuccess(req: nat, from: JobState, to: JobState)
      requires req in allStates
      modifies this
      ensures allStates == old(allStates)[req := Succeeded(old(allStates)[req], from, to)]
    {
      var state := allStates[req];
      match from {
        case Resident => state := state.(resident := state.resident - 1);
        case Transferred => state := state.(transferred := state.transferred - 1);
        case Premigrated => state := state.(premigrated := state.premigrated - 1);
        case Migrated => state := state.(migrated := state.migrated - 1);
        case _ =>
      }
      match to {
        case Resident => state := state.(resident := state.resident + 1);
        case Transferred => state := state.(transferred := state.transferred + 1);
        case Premigrated => state := state.(premigrated := state.premigrated + 1);
        case Migrated => state := state.(migrated := state.migrated + 1);
        case _ =>
      }
      allStates := allStates[req := state];
    }

    method UpdateFailed(req: nat, from: JobState)
      requires req in allStates
      modifies this
      ensures allStates == old(allStates)[req := Fail(old(allStates)[req], from)]
    {
      var state := allStates[req];
      match from {
        case Resident => state := state.(resident := state.resident - 1);
        case Premigrated => state := state.(premigrated := state.premigrated - 1);
        case Migrated => state := state.(migrated := state.migrated - 1);
        case _ =>
      }
      state := state.(failed := state.failed + 1);
      allStates := allStates[req := state];
    }
  }

  // ---------------------------------------------------------------- when the initial count is right

  /** Jobs in two states that share a counter. */
  predicate Shared(rows: seq<Job>, req: nat, a: JobState, b: JobState) {
    a != b && ClassOf(a) == ClassOf(b) && CountState(rows, req, a) > 0 && CountState(rows, req, b) > 0
  }

  /** Every counter is the number of jobs it stands for. */
  predicate Recounted(c: Counters, rows: seq<Job>, req: nat) {
    forall k: Class :: Get(c, k) == CountClass(rows, req, k)
  }

  lemma {:induction false} CountClassSplits(rows: seq<Job>, req: nat)
    ensures CountClass(rows, req, CResident) == CountState(rows, req, Resident) + CountState(rows, req, Transferring)
    ensures CountClass(rows, req, CTransferred) == CountState(rows, req, Transferred)
    ensures CountClass(rows, req, CPremigrated) == CountState(rows, req, Premigrated)
              + CountState(rows, req, ChangingFState) + CountState(rows, req, RecallingPremig)
    ensures CountClass(rows, req, CMigrated) == CountState(rows, req, Migrated) + CountState(rows, req, RecallingMig)
    ensures CountClass(rows, req, CFailed) == CountState(rows, req, Failed)
  {
    if rows != [] { CountClassSplits(rows[1..], req); }
  }

  /** Which states each counter stands for */
  lemma RecountIs(c: Counters, rows: seq<Job>, req: nat)
    ensures Recounted(c, rows, req) <==>
            c == Counters(CountState(rows, req, Resident) + CountState(rows, req, Transferring),
                          CountState(rows, req, Transferred),
                          CountState(rows, req, Premigrated) + CountState(rows, req, ChangingFState)
                            + CountState(rows, req, RecallingPremig),
                          CountState(rows, req, Migrated) + CountState(rows, req, RecallingMig),
                          CountState(rows, req, Failed))
  {
    CountClassSplits(rows, req);
    if Recounted(c, rows, req) {
      assert Get(c, CResident) == CountClass(rows, req, CResident) && Get(c, CTransferred) == CountClass(rows, req, CTransferred);
      assert Get(c, CPremigrated) == CountClass(rows, req, CPremigrated) && Get(c, CMigrated) == CountClass(rows, req, CMigrated);
      assert Get(c, CFailed) == CountClass(rows, req, CFailed);
    }
  }

  predicate LastOf(groups: seq<(JobState, nat)>, k: Class, g: nat) {
    g < |groups| && ClassOf(groups[g].0) == k && forall h :: g < h < |groups| ==> ClassOf(groups[h].0) != k
  }

  lemma {:induction false} AssignedGets(groups: seq<(JobState, nat)>, c: Counters, k: Class)
    ensures Get(Assigned(groups, c), k) == Get(c, k) || exists g: nat :: LastOf(groups, k, g)
    ensures forall g: nat :: LastOf(groups, k, g) ==> Get(Assigned(groups, c), k) == groups[g].1
    decreases |groups|
  {
    if groups != [] {
      var rest, c1 := groups[1..], Put(c, ClassOf(groups[0].0), groups[0].1);
      assert forall h :: 0 <= h < |rest| ==> rest[h] == groups[h + 1];
      AssignedGets(rest, c1, k);
      if g: nat :| LastOf(rest, k, g) { assert LastOf(groups, k, g + 1); }
      forall g: nat | LastOf(groups, k, g) ensures Get(Assigned(groups, c), k) == groups[g].1 {
        if g > 0 {
          assert LastOf(rest, k, g - 1);
        } else {
          forall h: nat ensures !LastOf(rest, k, h) { if h < |rest| { assert ClassOf(groups[h + 1].0) != k; } }
        }
      }
      if ClassOf(groups[0].0) == k && !exists g: nat :: LastOf(rest, k, g) {
        NoLastMeansNone(rest, k);
        forall h | 0 < h < |groups| ensures ClassOf(groups[h].0) != k { assert ClassOf(rest[h - 1].0) != k; }
        assert LastOf(groups, k, 0);
      }
    }
  }

  lemma {:induction false} NoLastMeansNone(groups: seq<(JobState, nat)>, k: Class)
    requires !exists g: nat :: LastOf(groups, k, g)
    ensures forall h :: 0 <= h < |groups| ==> ClassOf(groups[h].0) != k
    decreases |groups|
  {
    if groups != [] {
      var last := |groups| - 1;
      assert !LastOf(groups, k, last);
      var init := groups[..last];
      forall g: nat ensures !LastOf(init, k, g) {
        if LastOf(init, k, g) { assert LastOf(groups, k, g); }
      }
      NoLastMeansNone(init, k);
      forall h | 0 <= h < |groups| ensures ClassOf(groups[h].0) != k {
        if h < last { assert init[h] == groups[h]; }
      }
    }
  }

  /** The initial count is right exactly if no counter has jobs in two of its states.  So `add` has to come
      before any job is marked as being worked on. */
  lemma AddIsRecountIff(groups: seq<(JobState, nat)>, rows: seq<Job>, req: nat)
    requires GroupsOf(groups, rows, req)
    ensures Recounted(Assigned(groups, ZERO), rows, req) <==> forall a, b :: !Shared(rows, req, a, b)
  {
    CountClassSplits(rows, req);
    var c := Assigned(groups, ZERO);
    if forall a, b :: !Shared(rows, req, a, b) {
      forall k: Class ensures Get(c, k) == CountClass(rows, req, k) {
        OneStateOfClass(groups, rows, req, k);
      }
    } else {
      var a, b :| Shared(rows, req, a, b);
      TwoStatesOfClass(groups, rows, req, a, b);
    }
  }

  lemma OneStateOfClass(groups: seq<(JobState, nat)>, rows: seq<Job>, req: nat, k: Class)
    requires GroupsOf(groups, rows, req) && forall a, b :: !Shared(rows, req, a, b)
    ensures Get(Assigned(groups, ZERO), k) == CountClass(rows, req, k)
  {
    AssignedGets(groups, ZERO, k);
    if g: nat :| LastOf(groups, k, g) {
      var a := groups[g].0;
      forall b: JobState ensures b != a && ClassOf(b) == k ==> CountState(rows, req, b) == 0 {
        assert !Shared(rows, req, a, b);
      }
      OnlyState(rows, req, a);
    } else {
      NoLastMeansNone(groups, k);
      NoState(rows, req, k);
    }
  }

  lemma OnlyState(rows: seq<Job>, req: nat, a: JobState)
    requires forall b: JobState :: b != a && ClassOf(b) == ClassOf(a) ==> CountState(rows, req, b) == 0
    ensures CountClass(rows, req, ClassOf(a)) == CountState(rows, req, a)
  {
    CountClassSplits(rows, req);
  }

  lemma NoState(rows: seq<Job>, req: nat, k: Class)
    requires forall b: JobState :: ClassOf(b) == k ==> CountState(rows, req, b) == 0
    ensures CountClass(rows, req, k) == 0
  {
    CountClassSplits(rows, req);
  }

  lemma {:induction false} TwoStatesAddUp(rows: seq<Job>, req: nat, a: JobState, b: JobState)
    requires a != b && ClassOf(a) == ClassOf(b)
    ensures CountState(rows, req, a) + CountState(rows, req, b) <= CountClass(rows, req, ClassOf(a))
  {
    if rows != [] { TwoStatesAddUp(rows[1..], req, a, b); }
  }

  lemma TwoStatesOfClass(groups: seq<(JobState, nat)>, rows: seq<Job>, req: nat, a: JobState, b: JobState)
    requires GroupsOf(groups, rows, req) && Shared(rows, req, a, b)
    ensures Get(Assigned(groups, ZERO), ClassOf(a)) < CountClass(rows, req, ClassOf(a))
  {
    var k := ClassOf(a);
    AssignedGets(groups, ZERO, k);
    if !exists g: nat :: LastOf(groups, k, g) { NoLastMeansNone(groups, k); }
    var g: nat :| LastOf(groups, k, g);
    var last := groups[g].0;
    TwoStatesAddUp(rows, req, last, if last == a then b else a);
  }
}
