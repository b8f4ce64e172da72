/**
  How the client hands file names to the server: in batches of at most
  MAX_OBJECTS_SEND input lines.  The batch that comes up short carries an empty
  name as end marker.
 */
module Batching {
  import opened Wrappers

  const MAX_OBJECTS_SEND: nat := 100000

  // A line of the input, and the canonical name of the file if there is one
  datatype Input = Input(line: string, canonical: Option<string>)

  type Batch = seq<string>

  /** A canonical name is an absolute path. */
  predicate Proper(inputs: seq<Input>) {
    forall i :: 0 <= i < |inputs| && inputs[i].canonical.Some? ==> inputs[i].canonical.value != ""
  }

  /** The names of all files that exist, in the order of the input */
  function Names(inputs: seq<Input>): seq<string> {
    if inputs == [] then []
    else (match inputs[0].canonical case Some(n) => [n] case None => []) + Names(inputs[1..])
  }

  lemma {:induction false} NamesAppend(a: seq<Input>, b: seq<Input>)
    ensures Names(a + b) == Names(a) + Names(b)
  {
    if a == [] {
      assert a + b == b;
    } else {
      assert (a + b)[1..] == a[1..] + b;
      NamesAppend(a[1..], b);
    }
  }

  /** A file that exists is sent under its canonical name, and a line without a file under none. */
  lemma NamesOne(line: string, name: string)
    ensures Names([Input(line, Some(name))]) == [name] && Names([Input(line, None)]) == []
  {
    assert [Input(line, Some(name))][1..] == [] && [Input(line, None)][1..] == [];
  }

  lemma {:induction false} NamesNotEmpty(inputs: seq<Input>)
    requires Proper(inputs)
    ensures "" !in Names(inputs)
  {
    if inputs != [] {
      assert Proper(inputs[1..]) by { assert forall i :: 0 <= i < |inputs[1..]| ==> inputs[1..][i] == inputs[i + 1]; }
      NamesNotEmpty(inputs[1..]);
    }
  }

  /** The loop that fills one batch; a line without a file is reported and takes its place in the count. */
  method FillBatch(inputs: seq<Input>, first: nat) returns (batch: Batch, lines: nat, missing: bool)
    requires first <= |inputs|
    ensures lines == if |inputs| - first < MAX_OBJECTS_SEND then |inputs| - first else MAX_OBJECTS_SEND
    ensures batch == Names(inputs[first..first + lines])
    ensures missing <==> exists k :: first <= k < first + lines && inputs[k].canonical.None?
  {
    batch, lines, missing := [], 0, false;
    while lines < MAX_OBJECTS_SEND && first + lines < |inputs|
      invariant first + lines <= |inputs| && lines <= MAX_OBJECTS_SEND
      invariant batch == Names(inputs[first..first + lines])
      invariant missing <==> exists k :: first <= k < first + lines && inputs[k].canonical.None?
    {
      NamesSnoc(inputs, first, first + lines);
      match inputs[first + lines].canonical {
        case Some(name) => batch := batch + [name];
        case None => missing := true;
      }
      lines := lines + 1;
    }
  }

  /** LTFSDMCommand::sendObjects: the batches that are sent. */
  method SendObjects(inputs: seq<Input>) returns (sent: seq<Batch>, count: nat, notAllExist: bool)
    ensures IsBatching(sent, inputs)
    ensures count == |Names(inputs)|
    ensures notAllExist <==> exists i :: 0 <= i < |inputs| && inputs[i].canonical.None?
  {
    sent, count, notAllExist := [], 0, false;
    var next, cont := 0, true;
    while cont
      invariant next <= |inputs|
      invariant cont ==> next == |sent| * MAX_OBJECTS_SEND && FullBatches(sent, inputs, |sent|)
      invariant !cont ==> next == |inputs| && IsBatching(sent, inputs)
      invariant count == |Names(inputs[..next])|
      invariant notAllExist <==> exists i :: 0 <= i < next && inputs[i].canonical.None?
      decreases cont, |inputs| - next
    {
      var batch, i, missing := FillBatch(inputs, next);
      count := count + |batch|;
      notAllExist := notAllExist || missing;
      NamesTo(inputs, next, next + i);
      if i < MAX_OBJECTS_SEND {
        cont := false;
        batch := batch + [""];
        LastBatch(sent, inputs, batch, next);
      } else {
        NextBatch(sent, inputs, batch, next);
      }
      next := next + i;
      sent := sent + [batch];
    }
    assert inputs[..|inputs|] == inputs;
  }

  lemma NamesTo(inputs: seq<Input>, next: nat, to: nat)
    requires next <= to <= |inputs|
    ensures Names(inputs[..to]) == Names(inputs[..next]) + Names(inputs[next..to])
  {
    assert inputs[..to] == inputs[..next] + inputs[next..to];
    NamesAppend(inputs[..next], inputs[next..to]);
  }

  lemma NextBatch(sent: seq<Batch>, inputs: seq<Input>, batch: Batch, next: nat)
    requires next == |sent| * MAX_OBJECTS_SEND && FullBatches(sent, inputs, |sent|)
    requires next + MAX_OBJECTS_SEND <= |inputs| && batch == Names(inputs[next..next + MAX_OBJECTS_SEND])
    ensures FullBatches(sent + [batch], inputs, |sent| + 1)
  {
    forall k | 0 <= k < |sent| + 1 ensures FullBatch((sent + [batch])[k], inputs, k) {
      if k < |sent| { assert FullBatch(sent[k], inputs, k); }
    }
  }

  lemma LastBatch(sent: seq<Batch>, inputs: seq<Input>, batch: Batch, next: nat)
    requires next == |sent| * MAX_OBJECTS_SEND && FullBatches(sent, inputs, |sent|)
    requires next <= |inputs| < next + MAX_OBJECTS_SEND && batch == Names(inputs[next..|inputs|]) + [""]
    ensures IsBatching(sent + [batch], inputs)
  {
    forall k | 0 <= k < |sent| ensures FullBatch((sent + [batch])[k], inputs, k) {
      assert FullBatch(sent[k], inputs, k);
    }
    assert inputs[next..|inputs|] == inputs[next..];
  }

  lemma NamesSnoc(inputs: seq<Input>, first: nat, next: nat)
    requires first <= next < |inputs|
    ensures Names(inputs[first..next + 1])
         == Names(inputs[first..next]) + (match inputs[next].canonical case Some(n) => [n] case None => [])
  {
    assert inputs[first..next + 1] == inputs[first..next] + [inputs[next]];
    NamesAppend(inputs[first..next], [inputs[next]]);
  }

  predicate FullBatches(sent: seq<Batch>, inputs: seq<Input>, n: nat) {
    && n <= |sent| && n * MAX_OBJECTS_SEND <= |inputs|
    && forall k :: 0 <= k < n ==> FullBatch(sent[k], inputs, k)
  }

  predicate FullBatch(batch: Batch, inputs: seq<Input>, k: nat) {
    (k + 1) * MAX_OBJECTS_SEND <= |inputs|
    && batch == Names(inputs[k * MAX_OBJECTS_SEND..(k + 1) * MAX_OBJECTS_SEND])
  }

  /** Full batches of input lines, then what is left, fewer than a batch and maybe nothing, with the marker. */
  predicate IsBatching(sent: seq<Batch>, inputs: seq<Input>) {
    && |sent| == |inputs| / MAX_OBJECTS_SEND + 1
    && FullBatches(sent, inputs, |sent| - 1)
    && sent[|sent| - 1] == Names(inputs[(|sent| - 1) * MAX_OBJECTS_SEND..]) + [""]
  }

  /** One batch for every 100000 lines, and the last one. */
  lemma BatchCount(sent: seq<Batch>, inputs: seq<Input>)
    requires IsBatching(sent, inputs)
    ensures |sent| == |inputs| / 100000 + 1
  {
  }

  // ---------------------------------------------------------------- the server

  function NamesUpToAll(batch: Batch): seq<string> {
    if batch == [] then [] else (if batch[0] != "" then [batch[0]] else []) + NamesUpToAll(batch[1..])
  }

  /** MessageParser::getObjects on the batches that arrive: the jobs it adds, and how many batches it takes. */
  function Serve(batches: seq<Batch>): (seq<string>, nat) {
    if batches == [] then ([], 0)
    else if "" in batches[0] then (NamesUpToAll(batches[0]), 1)
    else var rest := Serve(batches[1..]); (NamesUpToAll(batches[0]) + rest.0, rest.1 + 1)
  }

  /** The loop over the names of one message */
  method AddJobs(batch: Batch) returns (jobs: seq<string>, end: bool)
    ensures jobs == NamesUpToAll(batch) && (end <==> "" in batch)
  {
    jobs, end := [], false;
    for j := 0 to |batch|
      invariant end <==> "" in batch[..j]
      invariant jobs + NamesUpToAll(batch[j..]) == NamesUpToAll(batch)
    {
      assert batch[j..][1..] == batch[j + 1..] && batch[..j + 1] == batch[..j] + [batch[j]];
      if batch[j] != "" {
        jobs := jobs + [batch[j]];
      } else {
        end := true;
      }
    }
    assert batch[..|batch|] == batch;
  }

  method GetObjects(batches: seq<Batch>) returns (jobs: seq<string>, taken: nat)
    ensures jobs == Serve(batches).0 && taken == Serve(batches).1 && taken <= |batches|
  {
    jobs, taken := [], 0;
    var cont := true;
    while cont && taken < |batches|
      invariant taken <= |batches|
      invariant cont ==> jobs + Serve(batches[taken..]).0 == Serve(batches).0
                         && taken + Serve(batches[taken..]).1 == Serve(batches).1
      invariant !cont ==> jobs == Serve(batches).0 && taken == Serve(batches).1
      decreases |batches| - taken
    {
      ghost var rest := batches[taken..];
      assert rest[0] == batches[taken] && rest[1..] == batches[taken + 1..];
      var added, end := AddJobs(batches[taken]);
      assert (jobs + added) + Serve(rest[1..]).0 == jobs + (added + Serve(rest[1..]).0);
      jobs := jobs + added;
      cont := !end;
      taken := taken + 1;
    }
  }

  lemma {:induction false} AllNames(batch: Batch)
    requires "" !in batch
    ensures NamesUpToAll(batch) == batch && NamesUpToAll(batch + [""]) == batch
  {
    if batch != [] {
      AllNames(batch[1..]);
      assert (batch + [""])[1..] == batch[1..] + [""];
    } else {
      assert batch + [""] == [""];
    }
  }

  lemma PartIsProper(inputs: seq<Input>, from: nat, to: nat)
    requires Proper(inputs) && from <= to <= |inputs|
    ensures "" !in Names(inputs[from..to])
  {
    assert forall i :: 0 <= i < to - from ==> inputs[from..to][i] == inputs[from + i];
    NamesNotEmpty(inputs[from..to]);
  }

  /** What the server makes of the batches from number `k` on. */
  lemma {:induction false} ServeFrom(sent: seq<Batch>, inputs: seq<Input>, k: nat)
    requires Proper(inputs) && IsBatching(sent, inputs) && k < |sent|
    ensures k * MAX_OBJECTS_SEND <= |inputs|
    ensures Serve(sent[k..]) == (Names(inputs[k * MAX_OBJECTS_SEND..]), |sent| - k)
    decreases |sent| - k
  {
    var at, n := k * MAX_OBJECTS_SEND, |sent| - 1;
    assert sent[k..][1..] == sent[k + 1..];
    if k == n {
      assert inputs[at..|inputs|] == inputs[at..];
      PartIsProper(inputs, at, |inputs|);
      AllNames(Names(inputs[at..]));
    } else {
      var to := (k + 1) * MAX_OBJECTS_SEND;
      assert FullBatch(sent[k], inputs, k);
      ServeFull(sent[k], inputs, at, to);
      ServeFrom(sent, inputs, k + 1);
    }
  }

  lemma ServeFull(batch: Batch, inputs: seq<Input>, at: nat, to: nat)
    requires Proper(inputs) && at <= to <= |inputs| && batch == Names(inputs[at..to])
    ensures "" !in batch && NamesUpToAll(batch) == batch
    ensures Names(inputs[at..]) == batch + Names(inputs[to..])
  {
    PartIsProper(inputs, at, to);
    AllNames(batch);
    assert inputs[at..] == inputs[at..to] + inputs[to..];
    NamesAppend(inputs[at..to], inputs[to..]);
  }

  /** For every input, of any length, the server adds one job for each file that exists, in the order of the
      input, and both sides stop after the same batch. */
  lemma TransferIsLossless(sent: seq<Batch>, inputs: seq<Input>)
    requires Proper(inputs) && IsBatching(sent, inputs)
    ensures Serve(sent) == (Names(inputs), |sent|)
  {
    ServeFrom(sent, inputs, 0);
    assert sent[0..] == sent && inputs[0..] == inputs;
  }

  /** There is exactly one end marker: the last name of the last batch. */
  lemma OneEndMarker(sent: seq<Batch>, inputs: seq<Input>, k: nat, j: nat)
    requires Proper(inputs) && IsBatching(sent, inputs) && k < |sent| && j < |sent[k]|
    ensures sent[k][j] == "" <==> k == |sent| - 1 && j == |sent[k]| - 1
  {
    var n := |sent| - 1;
    if k < n {
      assert FullBatch(sent[k], inputs, k);
      PartIsProper(inputs, k * MAX_OBJECTS_SEND, (k + 1) * MAX_OBJECTS_SEND);
      assert sent[k][j] in sent[k];
    } else {
      var at := n * MAX_OBJECTS_SEND;
      assert inputs[at..|inputs|] == inputs[at..];
      PartIsProper(inputs, at, |inputs|);
      var names := Names(inputs[at..]);
      if j < |names| { assert sent[k][j] == names[j] && names[j] in names; }
    }
  }
}
