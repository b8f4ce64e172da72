/**
  Passes of different replicas do not disturb each other.

  A migration request has one replica for each of its pools, and each replica
  works on its own tapes.  Three of the statements of a pass go by request and
  tape and do not look at the replica number.  That is enough as long as the
  pass has a tape: pools are disjoint.  A pass without tape (all files were
  premigrated before) has no such protection.
 */
module Replicas {
  import ConfigFile
  import Configuration
  import opened JobTable
  import opened Migration

  /** A statement that pass `p` issues. */
  predicate Issues(p: Pass, st: Stmt) {
    || (p.to == Transferred && st.SetTransferring? && st == SetTransferring(p.tape, p.req, p.from, p.repl, st.free))
    || (p.to != Transferred && st == SetChangeState(p.req, p.from, p.tape, p.repl))
    || (st.FailPremigration? && st == FailPremigration(p.req, st.file, p.repl))
    || (st.FailStubbing? && st.req == p.req)
    || (st.JobSuccess? && st == SuccessStmt(p, st.inums))
    || st == ResetStmt(p)
    || st == FailPremigrated(p.req, p.tape, p.repl)
  }

  predicate Disjoint(pools: seq<set<string>>) {
    && (forall r, q :: 0 <= r < q < |pools| ==> pools[r] !! pools[q])
    && (forall r :: 0 <= r < |pools| ==> "" !in pools[r])
  }

  /** The pools of a request are different pools of a configuration that grew from an empty one. */
  lemma RequestPoolsAreDisjoint(ops: seq<Configuration.Op>, names: seq<string>)
    requires var c := Configuration.ChangedAll(ConfigFile.EMPTY, ops);
             && (forall r :: 0 <= r < |names| ==> names[r] in c.pools && "" !in c.pools[names[r]])
             && (forall r, q :: 0 <= r < q < |names| ==> names[r] != names[q])
    ensures var c := Configuration.ChangedAll(ConfigFile.EMPTY, ops);
            Disjoint(seq(|names|, r requires 0 <= r < |names| => c.pools[names[r]]))
  {
    Configuration.GrownConfigsAreConsistent(ConfigFile.EMPTY, ops);
  }

  /** The tape of a job is of the pool of its replica. */
  predicate TapesInPools(rows: seq<Job>, req: nat, pools: seq<set<string>>) {
    forall i :: 0 <= i < |rows| && rows[i].req == req && rows[i].tape != "" ==>
      rows[i].repl < |pools| && rows[i].tape in pools[rows[i].repl]
  }

  predicate PassOfPool(p: Pass, pools: seq<set<string>>) {
    p.repl < |pools| && p.tape in pools[p.repl]
  }

  /** A statement of a pass with a tape leaves the rows of all other replicas alone, but for the one that
      reports a failed stub. */
  lemma OthersUntouched(rows: seq<Job>, p: Pass, st: Stmt, pools: seq<set<string>>, i: nat)
    requires Disjoint(pools) && TapesInPools(rows, p.req, pools) && PassOfPool(p, pools)
    requires Proper(p) && Issues(p, st) && i < |rows| && (rows[i].req != p.req || rows[i].repl != p.repl)
    ensures Exec(rows, st)[i] == if st.FailStubbing? then Touch(rows[i], st) else rows[i]
  {
    ExecRow(rows, st, i);
  }

  lemma TapesStayInPools(rows: seq<Job>, p: Pass, st: Stmt, pools: seq<set<string>>, req: nat)
    requires TapesInPools(rows, req, pools) && (p.req == req ==> PassOfPool(p, pools)) && Proper(p) && Issues(p, st)
    ensures TapesInPools(Exec(rows, st), req, pools)
  {
    forall i | 0 <= i < |rows| && Exec(rows, st)[i].req == req && Exec(rows, st)[i].tape != ""
      ensures Exec(rows, st)[i].repl < |pools| && Exec(rows, st)[i].tape in pools[Exec(rows, st)[i].repl]
    {
      ExecRow(rows, st, i);
    }
  }

  // ---------------------------------------------------------------- whole runs

  /** The rows of one replica */
  function Of(rows: seq<Job>, req: nat, repl: nat): seq<Job> {
    if rows == [] then []
    else if rows[0].req == req && rows[0].repl == repl then [rows[0]] + Of(rows[1..], req, repl)
    else Of(rows[1..], req, repl)
  }

  lemma {:induction false} PickOf(rows: seq<Job>, st: Stmt, free: nat, req: nat, repl: nat)
    requires st.SetTransferring?
    ensures Of(Pick(rows, st, free).rows, req, repl)
         == if st.req == req && st.repl == repl then Pick(Of(rows, req, repl), st, free).rows else Of(rows, req, repl)
    decreases |rows|
  {
    if rows != [] {
      var taken := Matches(rows[0], st) && free >= rows[0].size;
      var rest := if taken then free - rows[0].size else free;
      PickOf(rows[1..], st, rest, req, repl);
      var r := Pick(rows, st, free).rows;
      assert r == [if taken then Set(rows[0], st) else rows[0]] + Pick(rows[1..], st, rest).rows;
      assert r[1..] == Pick(rows[1..], st, rest).rows;
      var mine := Of(rows, req, repl);
      if rows[0].req == req && rows[0].repl == repl { assert mine[1..] == Of(rows[1..], req, repl); }
    }
  }

  lemma {:induction false} TouchOf(rows: seq<Job>, st: Stmt, req: nat, repl: nat)
    ensures Of(TouchAll(rows, st), req, repl) == TouchAll(Of(rows, req, repl), st)
  {
    if rows != [] {
      TouchOf(rows[1..], st, req, repl);
      assert TouchAll(rows, st)[1..] == TouchAll(rows[1..], st);
      var mine := Of(rows, req, repl);
      if rows[0].req == req && rows[0].repl == repl { assert mine[1..] == Of(rows[1..], req, repl); }
    }
  }

  lemma {:induction false} PickNothing(rows: seq<Job>, st: Stmt, free: nat)
    requires st.SetTransferring? && forall j :: j in rows ==> !Matches(j, st)
    ensures Pick(rows, st, free).rows == rows
    decreases |rows|
  {
    if rows != [] { PickNothing(rows[1..], st, free); }
  }

  lemma {:induction false} OfIsOfReplica(rows: seq<Job>, req: nat, repl: nat)
    ensures forall j :: j in Of(rows, req, repl) ==> j in rows && j.req == req && j.repl == repl
  {
    if rows != [] { OfIsOfReplica(rows[1..], req, repl); }
  }

  /** Every statement works on each replica as if its rows were the whole table, also the greedy one. */
  lemma ExecOf(rows: seq<Job>, st: Stmt, req: nat, repl: nat)
    ensures Of(Exec(rows, st), req, repl) == Exec(Of(rows, req, repl), st)
  {
    if st.SetTransferring? {
      PickOf(rows, st, st.free, req, repl);
      if st.req != req || st.repl != repl {
        OfIsOfReplica(rows, req, repl);
        PickNothing(Of(rows, req, repl), st, st.free);
      }
    } else {
      TouchOf(rows, st, req, repl);
    }
  }

  datatype Event = Event(pass: Pass, st: Stmt)

  /** The passes of the request have tapes of their own pools; other requests may do what they like. */
  predicate PoolRun(run: seq<Event>, req: nat, pools: seq<set<string>>) {
    forall i :: 0 <= i < |run| ==> PoolEvent(run[i], req, pools)
  }

  predicate PoolEvent(e: Event, req: nat, pools: seq<set<string>>) {
    Proper(e.pass) && Issues(e.pass, e.st) && (e.pass.req == req ==> PassOfPool(e.pass, pools))
  }

  /** The statement is for the replica: its own, or the report of a failed stub. */
  predicate Concerns(e: Event, req: nat, repl: nat) {
    (e.pass.req == req && e.pass.repl == repl) || e.st.FailStubbing?
  }

  function Stmts(run: seq<Event>): seq<Stmt> {
    if run == [] then [] else [run[0].st] + Stmts(run[1..])
  }

  function Own(run: seq<Event>, req: nat, repl: nat): seq<Stmt> {
    if run == [] then []
    else (if Concerns(run[0], req, repl) then [run[0].st] else []) + Own(run[1..], req, repl)
  }

  lemma ForeignIsNothing(mine: seq<Job>, e: Event, pools: seq<set<string>>, req: nat, repl: nat)
    requires Disjoint(pools) && TapesInPools(mine, req, pools) && forall j :: j in mine ==> j.req == req && j.repl == repl
    requires PoolEvent(e, req, pools) && !Concerns(e, req, repl)
    ensures Exec(mine, e.st) == mine
  {
    forall i | 0 <= i < |mine| ensures Exec(mine, e.st)[i] == mine[i] {
      assert mine[i] in mine;
      if e.pass.req == req {
        OthersUntouched(mine, e.pass, e.st, pools, i);
      } else {
        ExecRow(mine, e.st, i);
      }
    }
  }

  /** Replicas are isolated: whatever the interleaving of the passes of all replicas and requests, the rows
      of one replica end as if only its own statements, and the reports of failed stubs, had run. */
  lemma {:induction false} ReplicasAreIsolated(rows: seq<Job>, run: seq<Event>, pools: seq<set<string>>, req: nat, repl: nat)
    requires Disjoint(pools) && TapesInPools(rows, req, pools) && PoolRun(run, req, pools)
    ensures Of(ExecAll(rows, Stmts(run)), req, repl) == ExecAll(Of(rows, req, repl), Own(run, req, repl))
    decreases |run|
  {
    if run != [] {
      var e, rest := run[0], run[1..];
      var next := Exec(rows, e.st);
      assert PoolEvent(e, req, pools);
      assert Stmts(run)[1..] == Stmts(rest);
      TapesStayInPools(rows, e.pass, e.st, pools, req);
      ReplicasAreIsolated(next, rest, pools, req, repl);
      ExecOf(rows, e.st, req, repl);
      var mine, own := Of(rows, req, repl), Own(run, req, repl);
      OfIsOfReplica(rows, req, repl);
      if Concerns(e, req, repl) {
        assert own[0] == e.st && own[1..] == Own(rest, req, repl);
      } else {
        OfTapesInPools(rows, req, repl, pools);
        ForeignIsNothing(mine, e, pools, req, repl);
        assert own == Own(rest, req, repl);
      }
    }
  }

  lemma OfTapesInPools(rows: seq<Job>, req: nat, repl: nat, pools: seq<set<string>>)
    requires TapesInPools(rows, req, pools)
    ensures TapesInPools(Of(rows, req, repl), req, pools)
  {
    OfIsOfReplica(rows, req, repl);
    var mine := Of(rows, req, repl);
    forall i | 0 <= i < |mine| && mine[i].tape != "" ensures mine[i].repl < |pools| && mine[i].tape in pools[mine[i].repl] {
      assert mine[i] in rows;
    }
  }

  // ---------------------------------------------------------------- without a tape

  /** The statements of the pass, other than a report of a failed stub, leave all other replicas alone. */
  ghost predicate Isolated(p: Pass, pools: seq<set<string>>) {
    forall rows: seq<Job>, st, i |
      TapesInPools(rows, p.req, pools) && Issues(p, st) && !st.FailStubbing? && 0 <= i < |rows|
      && rows[i].req == p.req && rows[i].repl != p.repl :: Exec(rows, st)[i] == rows[i]
  }

  /** A pass is isolated exactly when it has a tape. */
  lemma IsolatedIff(p: Pass, pools: seq<set<string>>)
    requires Disjoint(pools) && Proper(p) && p.repl < |pools| && (p.tape == "" || p.tape in pools[p.repl])
    ensures Isolated(p, pools) <==> p.tape != ""
  {
    if p.tape != "" {
      forall rows: seq<Job>, st, i |
        TapesInPools(rows, p.req, pools) && Issues(p, st) && !st.FailStubbing? && 0 <= i < |rows|
        && rows[i].req == p.req && rows[i].repl != p.repl
        ensures Exec(rows, st)[i] == rows[i]
      {
        OthersUntouched(rows, p, st, pools, i);
      }
    } else {
      // another replica's pass without tape has marked its job; the reset takes the mark away
      var other := Job(p.req, "file", p.repl + 1, 0, 0, "", Busy(p));
      var rows := [other];
      assert TapesInPools(rows, p.req, pools) && Issues(p, ResetStmt(p));
      assert Exec(rows, ResetStmt(p))[0] == other.(state := p.from) != other;
    }
  }
}
