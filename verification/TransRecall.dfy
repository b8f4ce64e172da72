/**
  The statements of a transparent recall as loops over the tables, and their
  meaning in `RecallProtocol`.

  The request number of a tape is fixed once a first event for the tape has come
  in, so all jobs of a tape carry the same number.
 */
module TransRecall {
  import opened RecallProtocol

  datatype Row = Row(e: Event, req: nat, tape: Tape, state: JobState)

  datatype Request = Request(num: nat, tape: Tape, state: ReqState)

  datatype Response = Response(e: Event, succeeded: bool)

  // What the receiving thread does with an event: nothing, an answer after finishRecall or without it, or it
  // passes the event on with its request number
  datatype Received = Ignored | Answered(finishRecall: bool) | PassedOn(req: nat, tape: Tape)

  /** addJob inserts a row after a look that finds a regular file on tape, and after one that fails. */
  predicate Inserts(file: File) { file.Unreadable? || (file.OnTape? && file.attr.regular) }

  /** The state that goes into the row */
  function RowState(file: File, garbage: Garbage): JobState {
    if file.OnTape? then StateOf(file.attr) else garbage.state
  }

  /** The tape under which a request is added */
  function RequestTape(file: File, garbage: Garbage): Tape {
    if file.OnTape? then file.attr.tape else garbage.tape
  }

  // ---------------------------------------------------------------- the statements as functions

  predicate Of(r: Row, req: nat, tape: Tape) { r.req == req && r.tape == tape }

  function MarkRow(r: Row, req: nat, tape: Tape, from: JobState, to: JobState): Row {
    if Of(r, req, tape) && r.state == from then r.(state := to) else r
  }

  predicate ToRecall(r: Row, req: nat, tape: Tape) { Of(r, req, tape) && Recalling(r.state) }

  function Chosen(rows: seq<Row>, req: nat, tape: Tape): seq<Row> {
    if rows == [] then []
    else (if ToRecall(rows[0], req, tape) then [rows[0]] else []) + Chosen(rows[1..], req, tape)
  }

  function Kept(rows: seq<Row>, req: nat, tape: Tape): seq<Row> {
    if rows == [] then []
    else (if ToRecall(rows[0], req, tape) then [] else [rows[0]]) + Kept(rows[1..], req, tape)
  }

  function CountOf(rows: seq<Row>, req: nat, tape: Tape): nat {
    if rows == [] then 0 else (if Of(rows[0], req, tape) then 1 else 0) + CountOf(rows[1..], req, tape)
  }

  function Responses(jobs: seq<Row>, outcomes: seq<bool>): seq<Response>
    requires |outcomes| >= |jobs|
  {
    if jobs == [] then [] else [Response(jobs[0].e, outcomes[0])] + Responses(jobs[1..], outcomes[1..])
  }

  // ---------------------------------------------------------------- the loops

  class TransRecall {
    var rows: seq<Row>
    var requests: seq<Request>
    var responses: seq<Response>
    var reqmap: map<Tape, nat>
    var globalReqNumber: nat

    /** The numbers given to tapes are different, and new numbers are larger. */
    predicate Numbered()
      reads this
    {
      && DistinctNumbers(reqmap)
      && forall t :: t in reqmap ==> reqmap[t] <= globalReqNumber
    }

    /** TransRecall::run: the first event for a tape gives it a number, which it keeps. */
    method NumberFor(tape: Tape) returns (req: nat)
      requires Numbered()
      modifies `reqmap, `globalReqNumber
      ensures Numbered() && tape in reqmap && req == reqmap[tape]
      ensures forall t :: t in old(reqmap) ==> t in reqmap && reqmap[t] == old(reqmap)[t]
    {
      if tape !in reqmap {
        globalReqNumber := globalReqNumber + 1;
        reqmap := reqmap[tape := globalReqNumber];
      }
      return reqmap[tape];
    }

    /** The loop of TransRecall::run, for one event; an event that ends the connection, or has no inode number,
        is passed over. */
    method Receive(e: Event, connected: bool, terminate: bool, inum: nat, file: File) returns (r: Received)
      requires Numbered()
      modifies `reqmap, `globalReqNumber, `responses
      ensures Numbered() && forall t :: t in old(reqmap) ==> t in reqmap && reqmap[t] == old(reqmap)[t]
      ensures r.Ignored? <==> !connected || (!terminate && inum == 0)
      ensures r.PassedOn? <==> connected && !terminate && inum != 0 && file.OnTape?
      ensures r.PassedOn? ==> r.tape == file.attr.tape && r.tape in reqmap && r.req == reqmap[r.tape]
      ensures r.Answered? ==> (r.finishRecall <==> !terminate && file.OffTape?)
      ensures responses == old(responses) + if r.Answered? then [Response(e, r.finishRecall)] else []
    {
      if !connected { return Ignored; }
      if terminate {
        responses := responses + [Response(e, false)];
        return Answered(false);
      }
      if inum == 0 { return Ignored; }
      match file
      case OffTape(_) =>
        responses := responses + [Response(e, true)];
        return Answered(true);
      case Unreadable =>
        responses := responses + [Response(e, false)];
        return Answered(false);
      case OnTape(attr) =>
        var req := NumberFor(attr.tape);
        return PassedOn(req, attr.tape);
    }

    /** SET_RECALLING */
    method SetRecalling(req: nat, tape: Tape, from: JobState, to: JobState)
      modifies `rows
      ensures |rows| == |old(rows)|
      ensures forall i :: 0 <= i < |rows| ==> rows[i] == MarkRow(old(rows)[i], req, tape, from, to)
    {
      for i := 0 to |rows|
        invariant |rows| == |old(rows)|
        invariant forall k :: 0 <= k < i ==> rows[k] == MarkRow(old(rows)[k], req, tape, from, to)
        invariant forall k :: i <= k < |rows| ==> rows[k] == old(rows)[k]
      {
        if rows[i].req == req && rows[i].tape == tape && rows[i].state == from {
          rows := rows[i := rows[i].(state := to)];
        }
      }
    }

    /** SELECT_JOBS */
    method SelectJobs(req: nat, tape: Tape) returns (jobs: seq<Row>)
      ensures jobs == Chosen(rows, req, tape)
    {
      jobs := [];
      for i := 0 to |rows|
        invariant jobs + Chosen(rows[i..], req, tape) == Chosen(rows, req, tape)
      {
        assert rows[i..][0] == rows[i] && rows[i..][1..] == rows[i + 1..];
        if rows[i].req == req && rows[i].tape == tape && Recalling(rows[i].state) {
          jobs := jobs + [rows[i]];
        }
      }
    }

    /** DELETE_JOBS */
    method DeleteJobs(req: nat, tape: Tape)
      modifies `rows
      ensures rows == Kept(old(rows), req, tape)
    {
      var kept := [];
      for i := 0 to |rows|
        invariant rows == old(rows)
        invariant kept + Kept(rows[i..], req, tape) == Kept(rows, req, tape)
      {
        KeptStep(rows, req, tape, i);
        if rows[i].req == req && rows[i].tape == tape && Recalling(rows[i].state) { continue; }
        ghost var rest := Kept(rows[i + 1..], req, tape);
        assert kept + ([rows[i]] + rest) == (kept + [rows[i]]) + rest;
        kept := kept + [rows[i]];
      }
      rows := kept;
    }

    /** COUNT_REMAINING_JOBS */
    method CountRemaining(req: nat, tape: Tape) returns (remaining: nat)
      ensures remaining == CountOf(rows, req, tape)
    {
      remaining := 0;
      for i := 0 to |rows|
        invariant remaining + CountOf(rows[i..], req, tape) == CountOf(rows, req, tape)
      {
        assert rows[i..][1..] == rows[i + 1..];
        if rows[i].req == req && rows[i].tape == tape { remaining := remaining + 1; }
      }
    }

    /** TransRecall::processFiles; `succeeded` says how the single recalls end. */
    method ProcessFiles(req: nat, tape: Tape, succeeded: seq<bool>)
      requires |succeeded| >= |rows|
      modifies `rows, `responses
      ensures rows == Kept(MarkedBoth(old(rows), req, tape), req, tape)
      ensures |Chosen(MarkedBoth(old(rows), req, tape), req, tape)| <= |succeeded|
      ensures responses == old(responses) + Responses(Chosen(MarkedBoth(old(rows), req, tape), req, tape), succeeded)
    {
      SetRecalling(req, tape, Migrated, RecallingMig);
      SetRecalling(req, tape, Premigrated, RecallingPremig);
      assert rows == MarkedBoth(old(rows), req, tape);
      var jobs := SelectJobs(req, tape);
      ChosenIsShorter(rows, req, tape);
      var resplist := RecallAll(jobs, succeeded);
      DeleteJobs(req, tape);
      RespondAll(resplist);
    }

    /** The loop over the selected jobs: a result for each. */
    method RecallAll(jobs: seq<Row>, succeeded: seq<bool>) returns (resplist: seq<Response>)
      requires |succeeded| >= |jobs|
      ensures resplist == Responses(jobs, succeeded)
    {
      resplist := [];
      for i := 0 to |jobs|
        invariant resplist + Responses(jobs[i..], succeeded[i..]) == Responses(jobs, succeeded)
      {
        assert jobs[i..][1..] == jobs[i + 1..] && succeeded[i..][1..] == succeeded[i + 1..];
        resplist := resplist + [Response(jobs[i].e, succeeded[i])];
      }
    }

    method RespondAll(resplist: seq<Response>)
      modifies `responses
      ensures responses == old(responses) + resplist
    {
      for i := 0 to |resplist|
        invariant responses == old(responses) + resplist[..i]
      {
        responses := responses + [resplist[i]];
      }
    }

    /** CHANGE_REQUEST_TO_NEW */
    method ChangeRequestToNew(req: nat, tape: Tape)
      modifies `requests
      ensures requests == RequestsNew(old(requests), req, tape)
    {
      for i := 0 to |requests|
        invariant |requests| == |old(requests)|
        invariant forall k :: 0 <= k < i ==> requests[k] == RequestNew(old(requests)[k], req, tape)
        invariant forall k :: i <= k < |requests| ==> requests[k] == old(requests)[k]
      {
        if requests[i].num == req && requests[i].tape == tape {
          requests := requests[i := requests[i].(state := New)];
        }
      }
    }

    /** DELETE_REQUEST */
    method DeleteRequest(req: nat, tape: Tape)
      modifies `requests
      ensures requests == RequestsWithout(old(requests), req, tape)
    {
      var kept := [];
      for i := 0 to |requests|
        invariant kept + RequestsWithout(requests[i..], req, tape) == RequestsWithout(requests, req, tape)
      {
        assert requests[i..][0] == requests[i] && requests[i..][1..] == requests[i + 1..];
        if !(requests[i].num == req && requests[i].tape == tape) { kept := kept + [requests[i]]; }
      }
      requests := kept;
    }

    /** CHECK_REQUEST_EXISTS */
    method CheckRequestExists(req: nat) returns (reqExists: bool)
      ensures reqExists <==> HasNumber(requests, req)
    {
      reqExists := false;
      for i := 0 to |requests|
        invariant reqExists <==> exists k :: 0 <= k < i && requests[k].num == req
      {
        if requests[i].num == req { reqExists := true; }
      }
    }

    /** The tail of TransRecall::addJob: make the request new, or add one, as the look at the queue said. */
    method AnnounceJob(req: nat, tape: Tape, newTape: Tape, reqExists: bool)
      modifies `requests
      ensures requests == Announcement(old(requests), req, tape, newTape, reqExists)
    {
      if reqExists {
        ChangeRequestToNew(req, tape);
      } else {
        requests := requests + [Request(req, newTape, New)];
      }
    }

    /** The end of TransRecall::execRequest */
    method Conclude(req: nat, tape: Tape, remaining: nat)
      modifies `requests
      ensures requests == if remaining > 0 then RequestsNew(old(requests), req, tape)
                          else RequestsWithout(old(requests), req, tape)
    {
      if remaining > 0 {
        ChangeRequestToNew(req, tape);
      } else {
        DeleteRequest(req, tape);
      }
    }

    /** TransRecall::addJob, with nobody else at work between its statements; `tape` is from the first look. */
    method AddJob(e: Event, req: nat, tape: Tape, file: File, garbage: Garbage)
      modifies this
      ensures responses == old(responses) + (if file == OffTape(true) then [Response(e, true)] else [])
      ensures !Inserts(file) ==> rows == old(rows) && requests == old(requests)
      ensures Inserts(file) ==>
                && rows == old(rows) + [Row(e, req, tape, RowState(file, garbage))]
                && requests == Announcement(old(requests), req, tape, RequestTape(file, garbage), HasNumber(old(requests), req))
      ensures Inserts(file) && file.OnTape? ==>
                |rows| > 0 && rows[|rows| - 1].state == if file.attr.migrated then Migrated else Premigrated
      ensures reqmap == old(reqmap) && globalReqNumber == old(globalReqNumber)
    {
      if file.OffTape? {
        if file.regular { responses := responses + [Response(e, true)]; }
        return;
      }
      if file.OnTape? && !file.attr.regular { return; }
      rows := rows + [Row(e, req, tape, RowState(file, garbage))];
      var reqExists := CheckRequestExists(req);
      AnnounceJob(req, tape, RequestTape(file, garbage), reqExists);
    }

    /** TransRecall::execRequest, with nobody else at work */
    method ExecRequest(req: nat, tape: Tape, succeeded: seq<bool>)
      requires |succeeded| >= |rows|
      modifies this
      ensures var marked := MarkedBoth(old(rows), req, tape);
              && rows == Kept(marked, req, tape)
              && |Chosen(marked, req, tape)| <= |succeeded|
              && responses == old(responses) + Responses(Chosen(marked, req, tape), succeeded)
              && requests == if CountOf(rows, req, tape) > 0 then RequestsNew(old(requests), req, tape)
                             else RequestsWithout(old(requests), req, tape)
    {
      ProcessFiles(req, tape, succeeded);
      var remaining := CountRemaining(req, tape);
      Conclude(req, tape, remaining);
    }
  }

  lemma KeptStep(rows: seq<Row>, req: nat, tape: Tape, i: nat)
    requires i < |rows|
    ensures Kept(rows[i..], req, tape)
         == (if ToRecall(rows[i], req, tape) then [] else [rows[i]]) + Kept(rows[i + 1..], req, tape)
  {
    assert rows[i..][1..] == rows[i + 1..];
  }

  function RequestNew(r: Request, req: nat, tape: Tape): Request {
    if r.num == req && r.tape == tape then r.(state := New) else r
  }

  function RequestsNew(rs: seq<Request>, req: nat, tape: Tape): (q: seq<Request>)
    ensures |q| == |rs| && forall i :: 0 <= i < |rs| ==> q[i] == RequestNew(rs[i], req, tape)
  {
    if rs == [] then [] else [RequestNew(rs[0], req, tape)] + RequestsNew(rs[1..], req, tape)
  }

  function RequestsWithout(rs: seq<Request>, req: nat, tape: Tape): seq<Request> {
    if rs == [] then []
    else (if rs[0].num == req && rs[0].tape == tape then [] else [rs[0]]) + RequestsWithout(rs[1..], req, tape)
  }

  predicate HasNumber(rs: seq<Request>, req: nat) { exists k :: 0 <= k < |rs| && rs[k].num == req }

  function Announcement(rs: seq<Request>, req: nat, tape: Tape, newTape: Tape, reqExists: bool): seq<Request> {
    if reqExists then RequestsNew(rs, req, tape) else rs + [Request(req, newTape, New)]
  }

  function MarkAll(rows: seq<Row>, req: nat, tape: Tape, from: JobState, to: JobState): (r: seq<Row>)
    ensures |r| == |rows| && forall i :: 0 <= i < |rows| ==> r[i] == MarkRow(rows[i], req, tape, from, to)
  {
    if rows == [] then [] else [MarkRow(rows[0], req, tape, from, to)] + MarkAll(rows[1..], req, tape, from, to)
  }

  function MarkedBoth(rows: seq<Row>, req: nat, tape: Tape): (r: seq<Row>)
    ensures |r| == |rows|
  {
    MarkAll(MarkAll(rows, req, tape, Migrated, RecallingMig), req, tape, Premigrated, RecallingPremig)
  }

  lemma {:induction false} ChosenIsShorter(rows: seq<Row>, req: nat, tape: Tape)
    ensures |Chosen(rows, req, tape)| <= |rows|
  {
    if rows != [] { ChosenIsShorter(rows[1..], req, tape); }
  }

  function CountOther(rows: seq<Row>, req: nat, tape: Tape): nat {
    if rows == [] then 0
    else (if Of(rows[0], req, tape) && rows[0].state == Other then 1 else 0) + CountOther(rows[1..], req, tape)
  }

  /** An execution with nobody else at work recalls every job of its tape whose attributes could be read: all
      of them have been marked, so what is left to count are the others. */
  lemma {:induction false} OnlyUnreadableRemain(rows: seq<Row>, req: nat, tape: Tape)
    ensures CountOf(Kept(MarkedBoth(rows, req, tape), req, tape), req, tape) == CountOther(rows, req, tape)
  {
    if rows != [] {
      OnlyUnreadableRemain(rows[1..], req, tape);
      var once := MarkAll(rows, req, tape, Migrated, RecallingMig);
      assert once[1..] == MarkAll(rows[1..], req, tape, Migrated, RecallingMig);
      var marked := MarkedBoth(rows, req, tape);
      assert marked[1..] == MarkedBoth(rows[1..], req, tape);
      var kept := Kept(marked, req, tape);
      if ToRecall(marked[0], req, tape) {
        assert kept == Kept(marked[1..], req, tape);
      } else {
        assert kept[1..] == Kept(marked[1..], req, tape);
        assert marked[0] == MarkRow(once[0], req, tape, Premigrated, RecallingPremig);
      }
    }
  }

  // ---------------------------------------------------------------- meaning in the protocol

  predicate DistinctNumbers(reqmap: map<Tape, nat>) {
    forall t, u :: t in reqmap && u in reqmap && t != u ==> reqmap[t] != reqmap[u]
  }

  /** The request has the number of its tape. */
  predicate Own(r: Request, reqmap: map<Tape, nat>) { r.tape in reqmap && reqmap[r.tape] == r.num }

  /** The requests that carry the number of another tape than theirs */
  function Strays(rs: seq<Request>, reqmap: map<Tape, nat>): set<Stray> {
    set i, t | 0 <= i < |rs| && t in reqmap && reqmap[t] == rs[i].num && rs[i].tape != t :: Stray(t, rs[i].tape)
  }

  lemma StrayAt(rs: seq<Request>, reqmap: map<Tape, nat>, i: nat, t: Tape)
    requires i < |rs| && t in reqmap && reqmap[t] == rs[i].num && rs[i].tape != t
    ensures Strays(rs, reqmap) != {}
  {
    assert Stray(t, rs[i].tape) in Strays(rs, reqmap);
  }

  /** Rows carry the numbers of their tapes: a number then stands for one tape.  So it does for requests, if
      none of them was added under the name of another tape. */
  lemma NumbersStandForTapes(rows: seq<Row>, requests: seq<Request>, reqmap: map<Tape, nat>, tape: Tape)
    requires DistinctNumbers(reqmap) && tape in reqmap
    requires forall i :: 0 <= i < |rows| ==> rows[i].tape in reqmap && rows[i].req == reqmap[rows[i].tape]
    requires forall i :: 0 <= i < |requests| ==> exists t :: t in reqmap && reqmap[t] == requests[i].num
    ensures NumberOfTape(rows, reqmap[tape], tape)
    ensures Strays(requests, reqmap) == {} ==> NumbersFixTapes(requests, reqmap[tape], tape)
  {
    if Strays(requests, reqmap) == {} {
      forall i | 0 <= i < |requests| ensures requests[i].num == reqmap[tape] <==> requests[i].tape == tape {
        var t :| t in reqmap && reqmap[t] == requests[i].num;
        if requests[i].tape != t { StrayAt(requests, reqmap, i, t); }
      }
    }
  }

  predicate OneRowPerEvent(rows: seq<Row>) {
    forall i, j :: 0 <= i < j < |rows| ==> rows[i].e != rows[j].e
  }

  /** The number belongs to the tape. */
  predicate NumberOfTape(rows: seq<Row>, req: nat, tape: Tape) {
    forall i :: 0 <= i < |rows| ==> (rows[i].req == req <==> rows[i].tape == tape)
  }

  /** The table as the protocol sees it */
  function Table(rows: seq<Row>): map<Event, Job> {
    if rows == [] then map[] else Table(rows[1..])[rows[0].e := Job(rows[0].tape, rows[0].state)]
  }

  lemma {:induction false} TableHas(rows: seq<Row>, e: Event)
    requires OneRowPerEvent(rows)
    ensures e in Table(rows) <==> exists i :: 0 <= i < |rows| && rows[i].e == e
    ensures forall i :: 0 <= i < |rows| && rows[i].e == e ==> Table(rows)[e] == Job(rows[i].tape, rows[i].state)
  {
    if rows != [] {
      var rest := rows[1..];
      assert forall i :: 0 <= i < |rest| ==> rest[i] == rows[i + 1];
      TableHas(rest, e);
      if e in Table(rest) {
        var i :| 0 <= i < |rest| && rest[i].e == e;
        assert rows[i + 1].e == e;
      }
      if i :| 0 <= i < |rows| && rows[i].e == e && i > 0 { assert rest[i - 1].e == e; }
      forall i | 0 <= i < |rows| && rows[i].e == e ensures Table(rows)[e] == Job(rows[i].tape, rows[i].state) {
        if i > 0 { assert rest[i - 1].e == e && rows[0].e != e; }
      }
    }
  }

  lemma MarkRowsPut(t: map<Event, Job>, e: Event, j: Job, tape: Tape, from: JobState, to: JobState)
    ensures MarkRows(t[e := j], tape, from, to)
         == MarkRows(t, tape, from, to)[e := if j.tape == tape && j.state == from then j.(state := to) else j]
  {
  }

  /** The marking loop is the protocol's marking step. */
  lemma {:induction false} MarkIsProtocolMark(rows: seq<Row>, req: nat, tape: Tape, from: JobState, to: JobState)
    requires NumberOfTape(rows, req, tape)
    ensures Table(MarkAll(rows, req, tape, from, to)) == MarkRows(Table(rows), tape, from, to)
  {
    if rows != [] {
      var rest := rows[1..];
      NumberOfRest(rows, req, tape);
      MarkIsProtocolMark(rest, req, tape, from, to);
      MarkRowsPut(Table(rest), rows[0].e, Job(rows[0].tape, rows[0].state), tape, from, to);
      MarkedTable(rows, req, tape, from, to);
    }
  }

  lemma NumberOfRest(rows: seq<Row>, req: nat, tape: Tape)
    requires rows != [] && NumberOfTape(rows, req, tape)
    ensures NumberOfTape(rows[1..], req, tape)
  {
    assert forall i :: 0 <= i < |rows[1..]| ==> rows[1..][i] == rows[i + 1];
  }

  lemma MarkedTable(rows: seq<Row>, req: nat, tape: Tape, from: JobState, to: JobState)
    requires rows != []
    ensures var m := MarkRow(rows[0], req, tape, from, to);
            Table(MarkAll(rows, req, tape, from, to))
            == Table(MarkAll(rows[1..], req, tape, from, to))[m.e := Job(m.tape, m.state)]
  {
    var marked := MarkAll(rows, req, tape, from, to);
    assert marked[1..] == MarkAll(rows[1..], req, tape, from, to);
  }

  lemma {:induction false} ChosenHas(rows: seq<Row>, req: nat, tape: Tape)
    ensures forall r :: r in Chosen(rows, req, tape) <==> r in rows && ToRecall(r, req, tape)
    ensures forall r :: r in Kept(rows, req, tape) <==> r in rows && !ToRecall(r, req, tape)
    ensures OneRowPerEvent(rows) ==> OneRowPerEvent(Kept(rows, req, tape)) && OneRowPerEvent(Chosen(rows, req, tape))
  {
    if rows != [] {
      ChosenHas(rows[1..], req, tape);
      assert forall i :: 0 <= i < |rows[1..]| ==> rows[1..][i] == rows[i + 1];
      if OneRowPerEvent(rows) {
        assert OneRowPerEvent(rows[1..]);
        forall r | r in rows[1..] ensures r.e != rows[0].e {
          var i :| 0 <= i < |rows[1..]| && rows[1..][i] == r;
          assert rows[i + 1] == r;
        }
        ConsDistinct(rows[0], Kept(rows[1..], req, tape));
        ConsDistinct(rows[0], Chosen(rows[1..], req, tape));
      }
    }
  }

  lemma ConsDistinct(r: Row, rest: seq<Row>)
    requires OneRowPerEvent(rest) && forall q :: q in rest ==> q.e != r.e
    ensures OneRowPerEvent([r] + rest)
  {
  }

  /** A job that an execution takes: it is one of its request and tape, and its file can be recalled. */
  predicate Recallable(r: Row, req: nat, tape: Tape) {
    r.req == req && r.tape == tape && r.state in {Migrated, Premigrated, RecallingMig, RecallingPremig}
  }

  lemma MarkedRow(rows: seq<Row>, req: nat, tape: Tape, i: nat)
    requires i < |rows|
    ensures var m := MarkedBoth(rows, req, tape)[i];
            && m == rows[i].(state := m.state)
            && (m.state == if Recallable(rows[i], req, tape)
                           then if rows[i].state in {Migrated, RecallingMig} then RecallingMig else RecallingPremig
                           else rows[i].state)
            && (ToRecall(m, req, tape) <==> Recallable(rows[i], req, tape))
  {
  }

  /** What an execution with nobody else at work does to the table: it takes all jobs of its request and tape
      whose files can be recalled, and no other, ... */
  lemma ExecutionLeaves(rows: seq<Row>, req: nat, tape: Tape, r: Row)
    ensures r in Kept(MarkedBoth(rows, req, tape), req, tape) <==> r in rows && !Recallable(r, req, tape)
  {
    var marked := MarkedBoth(rows, req, tape);
    ChosenHas(marked, req, tape);
    if r in Kept(marked, req, tape) {
      var i :| 0 <= i < |marked| && marked[i] == r;
      MarkedRow(rows, req, tape, i);
    }
    if r in rows && !Recallable(r, req, tape) {
      var i :| 0 <= i < |rows| && rows[i] == r;
      MarkedRow(rows, req, tape, i);
      assert marked[i] in marked;
    }
  }

  predicate HasRecallable(rows: seq<Row>, req: nat, tape: Tape, e: Event) {
    exists i :: 0 <= i < |rows| && Recallable(rows[i], req, tape) && rows[i].e == e
  }

  /** ... and their events are answered, and no other. */
  lemma ExecutionAnswers(rows: seq<Row>, req: nat, tape: Tape, e: Event)
    ensures (exists q :: q in Chosen(MarkedBoth(rows, req, tape), req, tape) && q.e == e) <==> HasRecallable(rows, req, tape, e)
  {
    var marked := MarkedBoth(rows, req, tape);
    ChosenHas(marked, req, tape);
    if q :| q in Chosen(marked, req, tape) && q.e == e {
      var i :| 0 <= i < |marked| && marked[i] == q;
      MarkedRow(rows, req, tape, i);
    }
    if i :| 0 <= i < |rows| && Recallable(rows[i], req, tape) && rows[i].e == e {
      MarkedRow(rows, req, tape, i);
      assert marked[i] in Chosen(marked, req, tape);
    }
  }

  /** And to the requests: its own is new exactly if a job of it is left, whatever its state, and gone if not;
      every other one is as before. */
  lemma {:induction false} RequestAfter(rs: seq<Request>, rows: seq<Row>, req: nat, tape: Tape, r: Request)
    ensures CountOf(rows, req, tape) > 0 <==> exists q :: q in rows && q.req == req && q.tape == tape
    ensures r in RequestsNew(rs, req, tape) <==>
            (r in rs && !(r.num == req && r.tape == tape))
            || (r == Request(req, tape, New) && exists q :: q in rs && q.num == req && q.tape == tape)
    ensures r in RequestsWithout(rs, req, tape) <==> r in rs && !(r.num == req && r.tape == tape)
    decreases |rs| + |rows|
  {
    if rows != [] {
      RequestAfter(rs, rows[1..], req, tape, r);
      if q :| q in rows && q.req == req && q.tape == tape && q != rows[0] { assert q in rows[1..]; }
    } else if rs != [] {
      RequestAfter(rs[1..], rows, req, tape, r);
      assert rs == [rs[0]] + rs[1..];
      if q :| q in rs && q.num == req && q.tape == tape && q != rs[0] { assert q in rs[1..]; }
    }
  }

  /** The selection is the protocol's: the events of the chosen rows are the recalling rows of the tape. */
  lemma SelectIsProtocolSelect(rows: seq<Row>, req: nat, tape: Tape, e: Event)
    requires OneRowPerEvent(rows) && NumberOfTape(rows, req, tape)
    ensures (exists r :: r in Chosen(rows, req, tape) && r.e == e) <==> e in RecallingRows(Table(rows), tape)
  {
    ChosenHas(rows, req, tape);
    TableHas(rows, e);
    if e in RecallingRows(Table(rows), tape) {
      var i :| 0 <= i < |rows| && rows[i].e == e;
      assert rows[i] in Chosen(rows, req, tape);
    }
    if r :| r in Chosen(rows, req, tape) && r.e == e {
      var i :| 0 <= i < |rows| && rows[i] == r;
    }
  }

  /** The deletion is the protocol's. */
  lemma DeleteIsProtocolDelete(rows: seq<Row>, req: nat, tape: Tape)
    requires OneRowPerEvent(rows) && NumberOfTape(rows, req, tape)
    ensures Table(Kept(rows, req, tape)) == Table(rows) - RecallingRows(Table(rows), tape)
  {
    var kept := Kept(rows, req, tape);
    ChosenHas(rows, req, tape);
    forall e ensures e in Table(kept) <==> e in Table(rows) && e !in RecallingRows(Table(rows), tape) {
      KeptRow(rows, req, tape, e);
    }
    forall e | e in Table(kept) ensures Table(kept)[e] == Table(rows)[e] {
      KeptRow(rows, req, tape, e);
    }
  }

  lemma KeptRow(rows: seq<Row>, req: nat, tape: Tape, e: Event)
    requires OneRowPerEvent(rows) && NumberOfTape(rows, req, tape)
    ensures var kept := Kept(rows, req, tape);
            && (e in Table(kept) <==> e in Table(rows) && e !in RecallingRows(Table(rows), tape))
            && (e in Table(kept) ==> Table(kept)[e] == Table(rows)[e])
  {
    var kept := Kept(rows, req, tape);
    ChosenHas(rows, req, tape);
    TableHas(rows, e);
    TableHas(kept, e);
    if e in Table(kept) {
      var k :| 0 <= k < |kept| && kept[k].e == e;
      assert kept[k] in rows;
      var i :| 0 <= i < |rows| && rows[i] == kept[k];
    }
    if e in Table(rows) && e !in RecallingRows(Table(rows), tape) {
      var i :| 0 <= i < |rows| && rows[i].e == e;
      assert rows[i] in kept;
      var k :| 0 <= k < |kept| && kept[k] == rows[i];
    }
  }

  /** The count is positive exactly if the protocol sees a row of the tape. */
  lemma {:induction false} CountIsProtocolCount(rows: seq<Row>, req: nat, tape: Tape)
    requires OneRowPerEvent(rows) && NumberOfTape(rows, req, tape)
    ensures CountOf(rows, req, tape) > 0 <==> SomeRow(Table(rows), tape)
  {
    if rows != [] {
      var rest := rows[1..];
      assert forall i :: 0 <= i < |rest| ==> rest[i] == rows[i + 1];
      CountIsProtocolCount(rest, req, tape);
      TableHas(rest, rows[0].e);
      assert forall e :: e in Table(rest) ==> Table(rows)[e] == Table(rest)[e];
      if rows[0].tape == tape { assert Table(rows)[rows[0].e].tape == tape; }
    }
  }

  /** One answer for each job, in the order of the jobs, with its own outcome. */
  lemma {:induction false} ResponsesMatch(jobs: seq<Row>, outcomes: seq<bool>, i: nat)
    requires |outcomes| >= |jobs| && i < |jobs|
    ensures |Responses(jobs, outcomes)| == |jobs| && Responses(jobs, outcomes)[i] == Response(jobs[i].e, outcomes[i])
  {
    if i > 0 {
      ResponsesMatch(jobs[1..], outcomes[1..], i - 1);
    } else if |jobs| > 1 {
      ResponsesMatch(jobs[1..], outcomes[1..], 0);
    }
  }

  /** Whatever the second look finds: row, announcement and answer are those of the protocol. */
  lemma WorkIsProtocolWork(rows: seq<Row>, s: Sys, e: Event, req: nat, file: File, garbage: Garbage)
    requires e in s.waiting && s.rows == Table(rows) && OneRowPerEvent(rows) && e !in Table(rows)
    ensures var tape, n := s.waiting[e].tape, Worked(s, e, file, garbage);
            var q := if Inserts(file) then rows + [Row(e, req, tape, RowState(file, garbage))] else rows;
            && OneRowPerEvent(q) && Table(q) == n.rows
            && n.unannounced == (if Inserts(file) then s.unannounced[e := Note(tape, RequestTape(file, garbage))] else s.unannounced)
            && n.answered == s.answered + (if file == OffTape(true) then [e] else [])
  {
    if Inserts(file) {
      TableHas(rows, e);
      TableAppend(rows, Row(e, req, s.waiting[e].tape, RowState(file, garbage)));
    }
  }

  lemma {:induction false} TableAppend(rows: seq<Row>, r: Row)
    requires forall i :: 0 <= i < |rows| ==> rows[i].e != r.e
    ensures Table(rows + [r]) == Table(rows)[r.e := Job(r.tape, r.state)]
  {
    if rows == [] {
      assert rows + [r] == [r] && [r][1..] == [];
    } else {
      TableAppend(rows[1..], r);
      assert (rows + [r])[1..] == rows[1..] + [r];
    }
  }

  /** The requests as the protocol sees them: those that have the number of their tape.  Two threads that find
      none both add one; the tape's request is new as long as one of its rows is. */
  function RequestTable(rs: seq<Request>, reqmap: map<Tape, nat>): map<Tape, ReqState> {
    if rs == [] then map[]
    else
      var rest := RequestTable(rs[1..], reqmap);
      if !Own(rs[0], reqmap) then rest
      else rest[rs[0].tape := if rs[0].tape in rest && rest[rs[0].tape] == New then New else rs[0].state]
  }

  predicate NumbersFixTapes(rs: seq<Request>, req: nat, tape: Tape) {
    forall i :: 0 <= i < |rs| ==> (rs[i].num == req <==> rs[i].tape == tape)
  }

  lemma {:induction false} RequestTableHas(rs: seq<Request>, reqmap: map<Tape, nat>, t: Tape)
    ensures t in RequestTable(rs, reqmap) <==> exists i :: 0 <= i < |rs| && rs[i].tape == t && Own(rs[i], reqmap)
  {
    if rs != [] {
      RequestTableHas(rs[1..], reqmap, t);
      assert forall i :: 0 <= i < |rs[1..]| ==> rs[1..][i] == rs[i + 1];
      if i :| 0 <= i < |rs| && rs[i].tape == t && Own(rs[i], reqmap) && i > 0 { assert rs[1..][i - 1].tape == t; }
    }
  }

  /** Making a tape's request new is the protocol's step, and nothing if it is gone. */
  lemma {:induction false} NewIsProtocolNew(rs: seq<Request>, reqmap: map<Tape, nat>, tape: Tape)
    requires tape in reqmap
    ensures var t, q := RequestTable(rs, reqmap), RequestsNew(rs, reqmap[tape], tape);
            && RequestTable(q, reqmap) == (if tape in t then t[tape := New] else t)
            && Strays(q, reqmap) == Strays(rs, reqmap)
  {
    if rs != [] {
      NewIsProtocolNew(rs[1..], reqmap, tape);
      assert RequestsNew(rs, reqmap[tape], tape)[1..] == RequestsNew(rs[1..], reqmap[tape], tape);
    }
    SameStrays(rs, RequestsNew(rs, reqmap[tape], tape), reqmap);
  }

  lemma SameStrays(rs: seq<Request>, q: seq<Request>, reqmap: map<Tape, nat>)
    requires |q| == |rs| && forall i :: 0 <= i < |rs| ==> q[i].num == rs[i].num && q[i].tape == rs[i].tape
    ensures Strays(q, reqmap) == Strays(rs, reqmap)
  {
  }

  /** Deleting a tape's request is the protocol's step; a request of another number or name stays. */
  lemma {:induction false} WithoutIsProtocolDelete(rs: seq<Request>, reqmap: map<Tape, nat>, tape: Tape)
    requires DistinctNumbers(reqmap) && tape in reqmap
    ensures var q := RequestsWithout(rs, reqmap[tape], tape);
            && RequestTable(q, reqmap) == RequestTable(rs, reqmap) - {tape}
            && Strays(q, reqmap) == Strays(rs, reqmap)
  {
    if rs != [] {
      var rest, t := rs[1..], RequestTable(rs, reqmap);
      WithoutIsProtocolDelete(rest, reqmap, tape);
      var q := RequestsWithout(rs, reqmap[tape], tape);
      StraysOfFirst(rs, reqmap);
      if rs[0].num == reqmap[tape] && rs[0].tape == tape {
        assert q == RequestsWithout(rest, reqmap[tape], tape);
        assert t - {tape} == RequestTable(rest, reqmap) - {tape};
        NoStray(rs[0], reqmap);
      } else {
        assert q == [rs[0]] + RequestsWithout(rest, reqmap[tape], tape) && q[1..] == RequestsWithout(rest, reqmap[tape], tape);
        StraysOfFirst(q, reqmap);
        if Own(rs[0], reqmap) { assert rs[0].tape != tape; }
      }
    }
  }

  lemma StraysOfFirst(rs: seq<Request>, reqmap: map<Tape, nat>)
    requires rs != []
    ensures Strays(rs, reqmap) == Strays([rs[0]], reqmap) + Strays(rs[1..], reqmap)
  {
    forall stray ensures stray in Strays(rs, reqmap) <==> stray in Strays([rs[0]], reqmap) || stray in Strays(rs[1..], reqmap) {
      if stray in Strays(rs, reqmap) {
        var i :| 0 <= i < |rs| && stray.owner in reqmap && reqmap[stray.owner] == rs[i].num && rs[i].tape == stray.tape
                 && stray.tape != stray.owner;
        if i == 0 { assert [rs[0]][0] == rs[i]; } else { assert rs[1..][i - 1] == rs[i]; }
      }
      if stray in Strays([rs[0]], reqmap) {
        assert [rs[0]][0] == rs[0];
      } else if stray in Strays(rs[1..], reqmap) {
        var i :| 0 <= i < |rs[1..]| && reqmap[stray.owner] == rs[1..][i].num && rs[1..][i].tape == stray.tape;
        assert rs[1..][i] == rs[i + 1];
      }
    }
  }

  lemma NoStray(r: Request, reqmap: map<Tape, nat>)
    requires DistinctNumbers(reqmap) && Own(r, reqmap)
    ensures Strays([r], reqmap) == {}
  {
  }

  /** The look finds a request exactly if the protocol sees one: it goes by the number, and finds strays too. */
  lemma CheckIsProtocolCheck(rs: seq<Request>, reqmap: map<Tape, nat>, s: Sys, tape: Tape)
    requires tape in reqmap && s.requests == RequestTable(rs, reqmap) && s.strays == Strays(rs, reqmap)
    ensures HasNumber(rs, reqmap[tape]) <==> HasRequest(s, tape)
  {
    RequestTableHas(rs, reqmap, tape);
    if k: nat :| k < |rs| && rs[k].num == reqmap[tape] {
      if rs[k].tape == tape { assert Own(rs[k], reqmap); } else { assert Stray(tape, rs[k].tape) in s.strays; }
    }
  }

  lemma {:induction false} AppendedRequest(rs: seq<Request>, reqmap: map<Tape, nat>, r: Request)
    requires r.state == New
    ensures RequestTable(rs + [r], reqmap)
         == if Own(r, reqmap) then RequestTable(rs, reqmap)[r.tape := New] else RequestTable(rs, reqmap)
    ensures Strays(rs + [r], reqmap) == Strays(rs, reqmap) + Strays([r], reqmap)
  {
    if rs == [] {
      assert rs + [r] == [r] && [r][1..] == [];
    } else {
      AppendedRequest(rs[1..], reqmap, r);
      assert (rs + [r])[1..] == rs[1..] + [r] && (rs + [r])[0] == rs[0];
      StraysOfFirst(rs, reqmap);
      StraysOfFirst(rs + [r], reqmap);
    }
  }

  /** Making the request new or adding one is the protocol's announcement, also if the request that was seen
      is gone, one was added meanwhile, or it is added under the name of another tape. */
  lemma AnnounceIsProtocolAnnounce(rs: seq<Request>, reqmap: map<Tape, nat>, s: Sys, tape: Tape, newTape: Tape, reqExists: bool)
    requires DistinctNumbers(reqmap) && tape in reqmap
    requires s.requests == RequestTable(rs, reqmap) && s.strays == Strays(rs, reqmap)
    ensures var q, n := Announcement(rs, reqmap[tape], tape, newTape, reqExists), Announced(s, Note(tape, newTape), reqExists);
            RequestTable(q, reqmap) == n.requests && Strays(q, reqmap) == n.strays
  {
    if reqExists {
      NewIsProtocolNew(rs, reqmap, tape);
    } else {
      var r := Request(reqmap[tape], newTape, New);
      AppendedRequest(rs, reqmap, r);
      if newTape == tape {
        NoStray(r, reqmap);
      } else {
        assert !Own(r, reqmap);
        assert Strays([r], reqmap) == {Stray(tape, newTape)} by { assert [r][0] == r; }
      }
    }
  }
}
