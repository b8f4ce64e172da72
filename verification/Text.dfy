/** Splitting text at a delimiter, as std::getline and std::string::find do. */
module Text {
  import opened Wrappers

  /** Every piece followed by the delimiter */
  function Terminate(pieces: seq<string>, d: char): string {
    if pieces == [] then [] else pieces[0] + [d] + Terminate(pieces[1..], d)
  }

  function Find(s: string, d: char): (i: nat)
    ensures i <= |s| && (i < |s| ==> s[i] == d) && forall k :: 0 <= k < i ==> s[k] != d
  {
    if s == [] || s[0] == d then 0 else 1 + Find(s[1..], d)
  }

  /** std::getline: the next piece and what is left, or nothing at the end */
  function GetLine(s: string, d: char): Option<(string, string)> {
    if s == [] then None
    else
      var i := Find(s, d);
      if i == |s| then Some((s, [])) else Some((s[..i], s[i + 1..]))
  }

  function Split(s: string, d: char): seq<string>
    decreases |s|
  {
    match GetLine(s, d)
    case None => []
    case Some(p) => [p.0] + Split(p.1, d)
  }

  lemma FindFirst(a: string, d: char, b: string)
    requires d !in a
    ensures Find(a + [d] + b, d) == |a|
  {
    var s := a + [d] + b;
    assert forall k :: 0 <= k < |a| ==> s[k] == a[k];
    assert s[|a|] == d;
  }

  lemma SplitFirst(a: string, d: char, b: string)
    requires d !in a
    ensures Split(a + [d] + b, d) == [a] + Split(b, d)
  {
    FindFirst(a, d, b);
    var s := a + [d] + b;
    assert s[..|a|] == a && s[|a| + 1..] == b;
  }

  lemma {:induction false} SplitTerminated(pieces: seq<string>, d: char)
    requires forall i :: 0 <= i < |pieces| ==> d !in pieces[i]
    ensures Split(Terminate(pieces, d), d) == pieces
  {
    if pieces != [] {
      SplitTerminated(pieces[1..], d);
      SplitFirst(pieces[0], d, Terminate(pieces[1..], d));
    }
  }
}
