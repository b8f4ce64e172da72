/**
  The copy loop of a migration: the file is read piece by piece while others may
  change it, and after every piece its modification time is compared with the
  one that was recorded when the job was queued.

  The file was marked before the first look.  From then on a look through the
  overlay reports the recorded time, whatever is written meanwhile: the loop
  cannot see a write, and what ends up on tape may be a version of the file that
  never existed.
 */
module CopyLoop {
  import opened Wrappers
  import opened FileAttributes
  import opened FileSafety

  // The file when a piece is read, and at the look after it
  datatype Round = Round(read: Disk, look: Disk)

  datatype Outcome = Copied | Refused | Running

  /** What `stat` on the path reports as the modification time */
  function Look(d: Disk): int { GetattrTimes(d).mtime }

  function PieceSize(got: nat, size: nat, bufferSize: nat): nat {
    if got >= size then 0 else if size - got > bufferSize then bufferSize else size - got
  }

  function Piece(d: Disk, got: nat, size: nat, bufferSize: nat): (r: Bytes)
    ensures got <= size ==> got + |r| <= size
  {
    ReadAt(d.data, got, PieceSize(got, size, bufferSize))
  }

  /** The bytes after the first `k` reads */
  function Taken(rounds: seq<Round>, size: nat, bufferSize: nat, k: nat): (r: Bytes)
    requires k <= |rounds|
    ensures |r| <= size
  {
    if k == 0 then []
    else
      var before := Taken(rounds, size, bufferSize, k - 1);
      before + Piece(rounds[k - 1].read, |before|, size, bufferSize)
  }

  predicate LooksFine(first: Disk, rounds: seq<Round>, queued: int, k: nat)
    requires k <= |rounds|
  {
    Look(first) == queued && forall i :: 0 <= i < k ==> Look(rounds[i].look) == queued
  }

  /** How the loop ends after `k` rounds: it goes on until it has as many bytes as the first look reported,
      or a look shows another time; or it is still running after all the given rounds. */
  predicate Ends(first: Disk, rounds: seq<Round>, queued: int, bufferSize: nat, k: nat, outcome: Outcome) {
    var size := GetattrSize(first);
    && k <= |rounds|
    && (forall i :: 0 <= i < k ==> |Taken(rounds, size, bufferSize, i)| < size)
    && (k > 0 ==> LooksFine(first, rounds, queued, k - 1))
    && match outcome
       case Refused => !LooksFine(first, rounds, queued, k)
       case Copied => LooksFine(first, rounds, queued, k) && |Taken(rounds, size, bufferSize, k)| == size
       case Running => LooksFine(first, rounds, queued, k) && |Taken(rounds, size, bufferSize, k)| < size && k == |rounds|
  }

  /** Migration::transferData between preparePremigration and addTapeAttr */
  method TransferData(first: Disk, rounds: seq<Round>, queued: int, bufferSize: nat)
    returns (copied: Bytes, k: nat, outcome: Outcome)
    ensures Ends(first, rounds, queued, bufferSize, k, outcome)
    ensures copied == Taken(rounds, GetattrSize(first), bufferSize, k)
  {
    copied, k := [], 0;
    if Look(first) != queued { return copied, k, Refused; }
    var size: nat, offset: nat := GetattrSize(first), 0;
    while offset < size
      invariant offset == |copied| && k <= |rounds|
      invariant copied == Taken(rounds, size, bufferSize, k)
      invariant LooksFine(first, rounds, queued, k)
      invariant forall i :: 0 <= i < k ==> |Taken(rounds, size, bufferSize, i)| < size
      decreases |rounds| - k
    {
      if k == |rounds| { return copied, k, Running; }
      var rest := size - offset;
      var chunk := ReadAt(rounds[k].read.data, offset, if rest > bufferSize then bufferSize else rest);
      copied := copied + chunk;
      offset := offset + |chunk|;
      k := k + 1;
      assert forall i :: 0 <= i < k ==> |Taken(rounds, size, bufferSize, i)| < size;
      if Look(rounds[k - 1].look) != queued { return copied, k, Refused; }
    }
    outcome := Copied;
  }

  // ---------------------------------------------------------------- what a look can see

  /** `e` is what some writes of applications make of `d`. */
  ghost predicate Rewritten(d: Disk, e: Disk) {
    exists writes: seq<Call> :: (forall i :: 0 <= i < |writes| ==> writes[i].Write?) && ExecAll(d, writes) == e
  }

  /** While the loop runs nobody but applications changes the file, and they only write. */
  ghost predicate OnlyWrites(first: Disk, rounds: seq<Round>)
    decreases |rounds|
  {
    rounds == [] || (Rewritten(first, rounds[0].read) && Rewritten(rounds[0].read, rounds[0].look)
                     && OnlyWrites(rounds[0].look, rounds[1..]))
  }

  lemma {:induction false} WritesKeepMark(d: Disk, writes: seq<Call>)
    requires forall i :: 0 <= i < |writes| ==> writes[i].Write?
    ensures ExecAll(d, writes).mark == d.mark
    decreases |writes|
  {
    if writes != [] { WritesKeepMark(Exec(d, writes[0]), writes[1..]); }
  }

  lemma RewrittenKeepsMark(d: Disk, e: Disk)
    requires Rewritten(d, e)
    ensures e.mark == d.mark
  {
    var writes: seq<Call> :| (forall i :: 0 <= i < |writes| ==> writes[i].Write?) && ExecAll(d, writes) == e;
    WritesKeepMark(d, writes);
  }

  /** write_buf on a file in migration is such a write. */
  lemma WriteBufRewrites(d: Disk, offset: nat, bytes: Bytes, now: nat)
    requires StateOf(d) == InMigration
    ensures Rewritten(d, ExecAll(d, WriteCalls(d, offset, bytes, now)))
  {
    var writes := WriteCalls(d, offset, bytes, now);
    assert forall i :: 0 <= i < |writes| ==> writes[i].Write?;
  }

  /** Writes to a file in migration change nothing that a look reports. */
  lemma {:induction false} LooksCannotSeeWrites(first: Disk, rounds: seq<Round>, i: nat)
    requires OnlyWrites(first, rounds) && StateOf(first) == InMigration && i < |rounds|
    ensures Look(rounds[i].look) == Look(first) == MarkedTimes(first).mtime
    ensures GetattrSize(rounds[i].look) == GetattrSize(first)
    decreases i
  {
    RewrittenKeepsMark(first, rounds[0].read);
    RewrittenKeepsMark(rounds[0].read, rounds[0].look);
    if i > 0 { LooksCannotSeeWrites(rounds[0].look, rounds[1..], i - 1); }
  }

  /** So whatever is written during the copy, it is refused exactly if the time recorded with the mark is
      not the queued one, and then at the first look. */
  lemma RefusedIff(first: Disk, rounds: seq<Round>, queued: int, bufferSize: nat, k: nat, outcome: Outcome)
    requires OnlyWrites(first, rounds) && StateOf(first) == InMigration
    requires Ends(first, rounds, queued, bufferSize, k, outcome)
    ensures outcome == Refused <==> MarkedTimes(first).mtime != queued
    ensures outcome == Refused ==> k == 0
  {
    forall i | 0 <= i < k ensures Look(rounds[i].look) == Look(first) {
      LooksCannotSeeWrites(first, rounds, i);
    }
  }

  // ---------------------------------------------------------------- one version or several

  /** The piece that round `i` read is what version `v` has there. */
  predicate PieceOf(rounds: seq<Round>, size: nat, bufferSize: nat, i: nat, v: Bytes)
    requires i < |rounds|
  {
    var offset := |Taken(rounds, size, bufferSize, i)|;
    offset <= |v| && Piece(rounds[i].read, offset, size, bufferSize) <= v[offset..]
  }

  lemma {:induction false} TakenIsPrefixIff(rounds: seq<Round>, size: nat, bufferSize: nat, k: nat, v: Bytes)
    requires k <= |rounds|
    ensures Taken(rounds, size, bufferSize, k) <= v <==> forall i :: 0 <= i < k ==> PieceOf(rounds, size, bufferSize, i, v)
    decreases k
  {
    if k > 0 {
      TakenIsPrefixIff(rounds, size, bufferSize, k - 1, v);
      var before := Taken(rounds, size, bufferSize, k - 1);
      ConcatPrefixIff(before, Piece(rounds[k - 1].read, |before|, size, bufferSize), v);
      assert before <= v && PieceOf(rounds, size, bufferSize, k - 1, v) <==> Taken(rounds, size, bufferSize, k) <= v;
    }
  }

  lemma ConcatPrefixIff(a: Bytes, b: Bytes, v: Bytes)
    ensures a + b <= v <==> a <= v && b <= v[|a|..]
  {
    if a + b <= v {
      assert a == v[..|a + b|][..|a|] && b == v[..|a + b|][|a|..] == v[|a|..][..|b|];
    }
  }

  /** A finished copy is version `v` of the file exactly if `v` has the size that was recorded and every
      piece, at the moment when it was read, was what `v` has there. */
  lemma OneVersionIff(first: Disk, rounds: seq<Round>, queued: int, bufferSize: nat, k: nat, v: Bytes)
    requires Ends(first, rounds, queued, bufferSize, k, Copied)
    ensures var size := GetattrSize(first);
            Taken(rounds, size, bufferSize, k) == v
            <==> |v| == size && forall i :: 0 <= i < k ==> PieceOf(rounds, size, bufferSize, i, v)
  {
    TakenIsPrefixIff(rounds, GetattrSize(first), bufferSize, k, v);
  }

  /** How far `k` reads get if none is short */
  function Reach(size: nat, bufferSize: nat, k: nat): (n: nat)
    ensures n <= size
  {
    if k == 0 then 0 else Reach(size, bufferSize, k - 1) + PieceSize(Reach(size, bufferSize, k - 1), size, bufferSize)
  }

  lemma WholePiece(d: Disk, got: nat, bufferSize: nat)
    requires got <= |d.data|
    ensures var end := got + PieceSize(got, |d.data|, bufferSize);
            end <= |d.data| && Piece(d, got, |d.data|, bufferSize) == d.data[got..end]
  {
  }

  lemma Join(v: Bytes, mid: nat, end: nat)
    requires mid <= end <= |v|
    ensures |v[..mid]| == mid && v[..mid] + v[mid..end] == v[..end]
  {
  }

  lemma {:induction false} TakenOfOne(rounds: seq<Round>, size: nat, bufferSize: nat, k: nat, v: Bytes)
    requires k <= |rounds| && |v| == size && forall i :: 0 <= i < k ==> rounds[i].read.data == v
    ensures Taken(rounds, size, bufferSize, k) == v[..Reach(size, bufferSize, k)]
    decreases k
  {
    if k > 0 {
      TakenOfOne(rounds, size, bufferSize, k - 1, v);
      var mid, end := Reach(size, bufferSize, k - 1), Reach(size, bufferSize, k);
      WholePiece(rounds[k - 1].read, mid, bufferSize);
      Join(v, mid, end);
    }
  }

  lemma Extend(v: Bytes, w: Bytes, cut: nat, mid: nat, end: nat)
    requires cut <= mid <= end <= |w| == |v|
    ensures |v[..cut] + w[cut..mid]| == mid && v[..cut] + w[cut..mid] + w[mid..end] == v[..cut] + w[cut..end]
  {
  }

  lemma {:induction false} TakenOfTwo(rounds: seq<Round>, size: nat, bufferSize: nat, a: nat, k: nat, v: Bytes, w: Bytes)
    requires a <= k <= |rounds| && |v| == |w| == size
    requires forall i :: 0 <= i < k ==> rounds[i].read.data == if i < a then v else w
    ensures var cut, end := Reach(size, bufferSize, a), Reach(size, bufferSize, k);
            cut <= end && Taken(rounds, size, bufferSize, k) == v[..cut] + w[cut..end]
    decreases k
  {
    if k == a {
      TakenOfOne(rounds, size, bufferSize, k, v);
    } else {
      TakenOfTwo(rounds, size, bufferSize, a, k - 1, v, w);
      var cut, mid, end := Reach(size, bufferSize, a), Reach(size, bufferSize, k - 1), Reach(size, bufferSize, k);
      WholePiece(rounds[k - 1].read, mid, bufferSize);
      Extend(v, w, cut, mid, end);
    }
  }

  /** A file that is overwritten once during the copy, between two reads: the tape gets the old bytes up to
      what was read before and the new ones from there on.  That is the old version exactly if the write
      changed nothing behind that point, and the new one exactly if it changed nothing before it. */
  lemma TornCopyIff(first: Disk, rounds: seq<Round>, queued: int, bufferSize: nat, a: nat, k: nat, v: Bytes, w: Bytes)
    requires Ends(first, rounds, queued, bufferSize, k, Copied) && a <= k && |v| == |w| == GetattrSize(first)
    requires forall i :: 0 <= i < k ==> rounds[i].read.data == if i < a then v else w
    ensures var copied, cut := Taken(rounds, |v|, bufferSize, k), Reach(|v|, bufferSize, a);
            && copied == v[..cut] + w[cut..]
            && (copied == v <==> v[cut..] == w[cut..])
            && (copied == w <==> v[..cut] == w[..cut])
  {
    TakenOfTwo(rounds, |v|, bufferSize, a, k, v, w);
    Halves(v, w, Reach(|v|, bufferSize, a));
  }

  lemma Halves(v: Bytes, w: Bytes, cut: nat)
    requires cut <= |v| == |w|
    ensures v[..cut] + w[cut..] == v <==> v[cut..] == w[cut..]
    ensures v[..cut] + w[cut..] == w <==> v[..cut] == w[..cut]
  {
    var mix := v[..cut] + w[cut..];
    assert mix[..cut] == v[..cut] && mix[cut..] == w[cut..];
    assert v == v[..cut] + v[cut..] && w == w[..cut] + w[cut..];
  }

  lemma OneWrite(d: Disk, bytes: Bytes, now: nat)
    requires StateOf(d) == InMigration && |bytes| == |d.data|
    ensures ExecAll(d, WriteCalls(d, 0, bytes, now)).data == bytes
  {
    var p := WriteCalls(d, 0, bytes, now);
    assert p == [Write(0, bytes, now)] && p[1..] == [];
    assert [] + bytes + [] == bytes;
  }

  lemma TornBytes(d: Disk, e: Disk)
    requires d.data == [1, 2] && e.data == [8, 9]
    ensures var rounds := [Round(d, d), Round(e, e)];
            Taken(rounds, 2, 1, 0) == [] && Taken(rounds, 2, 1, 1) == [1] && Taken(rounds, 2, 1, 2) == [1, 9]
  {
    var rounds := [Round(d, d), Round(e, e)];
    assert Taken(rounds, 2, 1, 1) == [] + [1];
    assert Taken(rounds, 2, 1, 2) == [1] + [9];
  }

  lemma BetweenRounds(d: Disk, e: Disk)
    requires Rewritten(d, e)
    ensures OnlyWrites(d, [Round(d, d), Round(e, e)])
  {
    var rounds := [Round(d, d), Round(e, e)];
    assert ExecAll(d, []) == d && ExecAll(e, []) == e;
    assert rounds[1..] == [Round(e, e)] && rounds[1..][1..] == [];
    assert OnlyWrites(e, []) && OnlyWrites(d, rounds[1..]);
  }

  /** A version that never existed: the file is 1, 2, an application overwrites it with 8, 9 after the first
      byte was read, no look shows it, and the tape gets 1, 9. */
  lemma TornCopy()
    ensures var d := Disk([1, 2], Times(3, 4), Some(Mark(InMigration, 2, Times(3, 4), 5)), None);
            var e := ExecAll(d, WriteCalls(d, 0, [8, 9], 6));
            var rounds := [Round(d, d), Round(e, e)];
            && e.data == [8, 9] && OnlyWrites(d, rounds)
            && Ends(d, rounds, 4, 1, 2, Copied) && Taken(rounds, 2, 1, 2) == [1, 9]
  {
    var d := Disk([1, 2], Times(3, 4), Some(Mark(InMigration, 2, Times(3, 4), 5)), None);
    var e := ExecAll(d, WriteCalls(d, 0, [8, 9], 6));
    OneWrite(d, [8, 9], 6);
    TornBytes(d, e);
    WriteBufRewrites(d, 0, [8, 9], 6);
    RewrittenKeepsMark(d, e);
    BetweenRounds(d, e);
  }

  // ---------------------------------------------------------------- does it end

  lemma {:induction false} TakenGrows(rounds: seq<Round>, size: nat, bufferSize: nat, length: nat, k: nat)
    requires k <= |rounds| && bufferSize > 0 && forall i :: 0 <= i < |rounds| ==> |rounds[i].read.data| == length
    ensures var taken := Taken(rounds, size, bufferSize, k);
            |taken| <= length && (|taken| < size && |taken| < length ==> k <= |taken|)
    decreases k
  {
    if k > 0 { TakenGrows(rounds, size, bufferSize, length, k - 1); }
  }

  /** On a file of constant length, with all looks fine, the loop ends exactly if the file is at least as
      long as its recorded size.  Else reads yield nothing and it goes round for ever. */
  lemma LoopEndsIff(first: Disk, rounds: seq<Round>, queued: int, bufferSize: nat, k: nat, outcome: Outcome, length: nat)
    requires bufferSize > 0 && Ends(first, rounds, queued, bufferSize, k, outcome)
    requires |rounds| > GetattrSize(first) && LooksFine(first, rounds, queued, |rounds|)
    requires forall i :: 0 <= i < |rounds| ==> |rounds[i].read.data| == length
    ensures outcome != Running <==> GetattrSize(first) <= length
  {
    TakenGrows(rounds, GetattrSize(first), bufferSize, length, k);
  }
}
