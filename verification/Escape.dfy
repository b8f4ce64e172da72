/**
  Escaping of names in the configuration file and in SQL statements.

  The encoder replaces some characters, the backslash among them, by a backslash
  and four digits.  The decoder works in place, from the right to the left: it
  looks for the last backslash at or before `pos`, replaces the code there by
  its character, and goes one position back.  `pos` is unsigned: one back from
  position 0 is the largest number, and the search starts again at the end.
 */
module Escape {
  import opened Wrappers

  type Codes = map<char, string>

  const NPOS: nat := 0xFFFF_FFFF_FFFF_FFFF

  const CONFIG_CODES: Codes := map[' ' := "\\0040", '\\' := "\\0134", '\n' := "\\0012"]
  const SQL_CODES: Codes := map['\'' := "\\0047", '\\' := "\\0134"]

  ghost predicate ValidCode(codes: Codes, code: string) {
    && |code| == 5 && code[0] == '\\'
    && forall i :: 1 <= i < 5 ==> code[i] != '\\' && code[i] !in codes
  }

  /** Every code is a backslash and four plain characters, no two are the same, and the backslash has one. */
  ghost predicate Valid(codes: Codes) {
    && '\\' in codes
    && (forall c :: c in codes ==> ValidCode(codes, codes[c]))
    && (forall c, d :: c in codes && d in codes && codes[c] == codes[d] ==> c == d)
  }

  lemma CodesAreValid()
    ensures Valid(CONFIG_CODES) && Valid(SQL_CODES)
  {
    assert CONFIG_CODES[' '][3] == '4' && CONFIG_CODES['\\'][3] == '3' && CONFIG_CODES['\n'][3] == '1';
    assert SQL_CODES['\''][3] == '4' && SQL_CODES['\\'][3] == '3';
  }

  // ---------------------------------------------------------------- encode

  function EncodeChar(codes: Codes, c: char): string {
    if c in codes then codes[c] else [c]
  }

  function Encode(codes: Codes, s: string): string {
    if s == [] then [] else Encode(codes, s[..|s| - 1]) + EncodeChar(codes, s[|s| - 1])
  }

  method EncodeLoop(codes: Codes, s: string) returns (enc: string)
    ensures enc == Encode(codes, s)
  {
    enc := [];
    for i := 0 to |s|
      invariant enc == Encode(codes, s[..i])
    {
      assert s[..i + 1][..i] == s[..i];
      if s[i] in codes {
        enc := enc + codes[s[i]];
      } else {
        enc := enc + [s[i]];
      }
    }
    assert s[..|s|] == s;
  }

  // ---------------------------------------------------------------- decode

  /** std::string::rfind of a backslash: the last one at or before `pos`. */
  function RFind(s: string, pos: nat): (r: Option<nat>)
    ensures r.Some? ==> r.value <= pos && r.value < |s| && s[r.value] == '\\'
                        && forall i :: r.value < i <= pos && i < |s| ==> s[i] != '\\'
    ensures r.None? ==> forall i :: 0 <= i <= pos && i < |s| ==> s[i] != '\\'
    decreases if pos < |s| then pos else |s|
  {
    if |s| == 0 then None
    else if pos >= |s| then RFind(s, |s| - 1)
    else if s[pos] == '\\' then Some(pos)
    else if pos == 0 then None
    else RFind(s, pos - 1)
  }

  /** The character whose code stands at `p`. */
  ghost predicate CodeAt(codes: Codes, s: string, p: nat, c: char) {
    c in codes && p + 5 <= |s| && s[p..p + 5] == codes[c]
  }

  ghost predicate SomeCodeAt(codes: Codes, s: string, p: nat) {
    exists c :: CodeAt(codes, s, p, c)
  }

  ghost function CharAt(codes: Codes, s: string, p: nat): (c: char)
    requires SomeCodeAt(codes, s, p)
    ensures CodeAt(codes, s, p, c)
  {
    var c :| CodeAt(codes, s, p, c);
    c
  }

  function Replaced(s: string, p: nat, c: char): (r: string)
    requires p + 5 <= |s|
    ensures |r| == |s| - 4
  {
    s[..p] + [c] + s[p + 5..]
  }

  /** `pos--` on an unsigned number */
  function Back(pos: nat): nat { if pos == 0 then NPOS else pos - 1 }

  /** The decoder's loop from a string and a position; None stands for the exception.  Each round that does
      not throw makes the string four characters shorter. */
  ghost function DecodeFrom(codes: Codes, s: string, pos: nat): Option<string>
    decreases |s|
  {
    match RFind(s, pos)
    case None => Some(s)
    case Some(p) =>
      if SomeCodeAt(codes, s, p) then DecodeFrom(codes, Replaced(s, p, CharAt(codes, s, p)), Back(p)) else None
  }

  ghost function Decode(codes: Codes, s: string): Option<string> { DecodeFrom(codes, s, |s|) }

  /** The chain of comparisons in the loop */
  method Compare(codes: Codes, s: string, p: nat) returns (r: Option<char>)
    requires Valid(codes)
    ensures r.Some? <==> SomeCodeAt(codes, s, p)
    ensures r.Some? ==> r.value == CharAt(codes, s, p)
  {
    var left := codes.Keys;
    while left != {}
      invariant left <= codes.Keys
      invariant forall c :: c in codes && c !in left ==> !CodeAt(codes, s, p, c)
      decreases |left|
    {
      var c :| c in left;
      if p + 5 <= |s| && s[p..p + 5] == codes[c] {
        assert CodeAt(codes, s, p, c);
        return Some(c);
      }
      left := left - {c};
    }
    return None;
  }

  method DecodeLoop(codes: Codes, s0: string) returns (r: Option<string>)
    requires Valid(codes)
    ensures r == Decode(codes, s0)
  {
    var s: string := s0;
    var pos: nat := |s0|;
    while true
      invariant DecodeFrom(codes, s, pos) == Decode(codes, s0)
      decreases |s|
    {
      var p := RFind(s, pos);
      if p.None? { return Some(s); }
      var c := Compare(codes, s, p.value);
      if c.None? { return None; }
      s := s[..p.value] + [c.value] + s[p.value + 5..];
      pos := if p.value == 0 then NPOS else p.value - 1;
    }
  }

  // ---------------------------------------------------------------- round trip

  lemma CharOfCode(codes: Codes, s: string, p: nat, c: char)
    requires Valid(codes) && CodeAt(codes, s, p, c)
    ensures SomeCodeAt(codes, s, p) && CharAt(codes, s, p) == c
  {
    var d := CharAt(codes, s, p);
    assert codes[d] == s[p..p + 5] == codes[c];
  }

  /** Decoding can only shorten, and does if there is a backslash in reach. */
  lemma {:induction false} DecodeShortens(codes: Codes, s: string, pos: nat)
    ensures var r := DecodeFrom(codes, s, pos);
            r.Some? ==> |r.value| <= |s| && (RFind(s, pos).Some? ==> |r.value| < |s|)
    decreases |s|
  {
    match RFind(s, pos)
    case None =>
    case Some(p) =>
      if SomeCodeAt(codes, s, p) { DecodeShortens(codes, Replaced(s, p, CharAt(codes, s, p)), Back(p)); }
  }

  lemma DecodeStep(codes: Codes, s: string, pos: nat, p: nat, c: char)
    requires Valid(codes) && RFind(s, pos) == Some(p) && CodeAt(codes, s, p, c)
    ensures DecodeFrom(codes, s, pos) == DecodeFrom(codes, Replaced(s, p, c), Back(p))
  {
    CharOfCode(codes, s, p, c);
  }

  lemma DecodePasses(codes: Codes, s: string, pos: nat)
    requires pos < |s| && s[pos] != '\\'
    ensures DecodeFrom(codes, s, pos) == if pos == 0 then Some(s) else DecodeFrom(codes, s, pos - 1)
  {
    assert RFind(s, pos) == if pos == 0 then None else RFind(s, pos - 1);
  }

  lemma Middle(x: string, y: string, z: string)
    ensures var s := x + y + z;
            && |s| == |x| + |y| + |z| && s[..|x|] == x && s[|x|..|x| + |y|] == y && s[|x| + |y|..] == z
  {
  }

  lemma LastInMiddle(x: string, y: string, z: string)
    requires y != [] && y[0] == '\\' && forall i :: 1 <= i < |y| ==> y[i] != '\\'
    ensures RFind(x + y + z, |x| + |y| - 1) == Some(|x|)
  {
    var s := x + y + z;
    assert s[|x|] == y[0];
    forall i | |x| < i <= |x| + |y| - 1 ensures s[i] != '\\' {
      assert s[i] == y[i - |x|];
    }
  }

  lemma CodeIsFound(codes: Codes, enc: string, c: char, b: string)
    requires Valid(codes) && c in codes
    ensures var s := enc + codes[c] + b;
            && RFind(s, |enc| + 4) == Some(|enc|) && CodeAt(codes, s, |enc|, c)
            && Replaced(s, |enc|, c) == enc + ([c] + b)
  {
    assert ValidCode(codes, codes[c]);
    LastInMiddle(enc, codes[c], b);
    Middle(enc, codes[c], b);
    ReplaceMiddle(enc, codes[c], b, c);
  }

  lemma ReplaceMiddle(x: string, y: string, z: string, c: char)
    requires |y| == 5
    ensures Replaced(x + y + z, |x|, c) == x + ([c] + z)
  {
    Middle(x, y, z);
    assert x + [c] + z == x + ([c] + z);
  }

  /** The last character of the part that is still encoded is a code: it is found and replaced. */
  lemma DecodeLastCode(codes: Codes, enc: string, c: char, b: string)
    requires Valid(codes) && c in codes
    ensures DecodeFrom(codes, enc + codes[c] + b, |enc| + 4) == DecodeFrom(codes, enc + ([c] + b), Back(|enc|))
  {
    CodeIsFound(codes, enc, c, b);
    DecodeStep(codes, enc + codes[c] + b, |enc| + 4, |enc|, c);
  }

  /** It is a plain character: the search passes over it. */
  lemma DecodeLastPlain(codes: Codes, enc: string, c: char, b: string)
    requires Valid(codes) && c !in codes
    ensures DecodeFrom(codes, enc + [c] + b, |enc|)
         == if enc == [] then Some([c] + b) else DecodeFrom(codes, enc + ([c] + b), |enc| - 1)
  {
    var s := enc + [c] + b;
    assert s == enc + ([c] + b) && s[|enc|] == c;
    DecodePasses(codes, s, |enc|);
    assert enc == [] ==> s == [c] + b;
  }

  /** The loop over an encoded part `a` before a part `b` that is decoded already. */
  lemma {:induction false} DecodePrefix(codes: Codes, a: string, b: string)
    requires Valid(codes) && a != []
    ensures Encode(codes, a) != []
    ensures DecodeFrom(codes, Encode(codes, a) + b, |Encode(codes, a)| - 1)
         == if a[0] in codes then DecodeFrom(codes, a + b, NPOS) else Some(a + b)
    decreases |a|
  {
    var front, c := a[..|a| - 1], a[|a| - 1];
    var enc := Encode(codes, front);
    assert c in codes ==> ValidCode(codes, codes[c]);
    if c in codes {
      DecodeLastCode(codes, enc, c, b);
    } else {
      DecodeLastPlain(codes, enc, c, b);
    }
    assert front + ([c] + b) == a + b;
    if front == [] {
      assert enc == [] && enc + ([c] + b) == a + b && [c] + b == a + b;
      assert a[0] == c;
    } else {
      assert enc != [] by { EncodedIsEmptyIff(codes, front); }
      DecodePrefix(codes, front, [c] + b);
    }
  }

  lemma StartAtEnd(codes: Codes, s: string)
    requires s != []
    ensures Decode(codes, s) == DecodeFrom(codes, s, |s| - 1)
  {
  }

  predicate NoBackslash(s: string) { '\\' !in s }

  /** The names that survive. */
  predicate RoundTrips(codes: Codes, s: string) { s == [] || s[0] !in codes || NoBackslash(s) }

  /** Encoding and decoding give the name back exactly if it is empty, or starts with a plain character, or
      has no backslash.  Else the search starts again at the end and meets backslashes that were decoded. */
  lemma RoundTripIff(codes: Codes, s: string)
    requires Valid(codes) && |s| <= NPOS
    ensures Decode(codes, Encode(codes, s)) == Some(s) <==> RoundTrips(codes, s)
  {
    if s != [] {
      var enc := Encode(codes, s);
      DecodePrefix(codes, s, []);
      assert enc + [] == enc && s + [] == s;
      StartAtEnd(codes, enc);
      if s[0] in codes {
        DecodeShortens(codes, s, NPOS);
        if !NoBackslash(s) {
          assert RFind(s, NPOS).Some?;
        }
      }
    }
  }

  /** File names in the job queue are absolute paths: the SQL pair is the identity on them. */
  lemma AbsolutePathsSurvive(path: string)
    requires path != [] && path[0] == '/' && |path| <= NPOS
    ensures Decode(SQL_CODES, Encode(SQL_CODES, path)) == Some(path)
  {
    CodesAreValid();
    RoundTripIff(SQL_CODES, path);
  }

  /** A name that the configuration loses: it starts with a blank and has a backslash. */
  lemma BlankAndBackslashIsLost()
    ensures Decode(CONFIG_CODES, Encode(CONFIG_CODES, " a\\")) != Some(" a\\")
  {
    CodesAreValid();
    RoundTripIff(CONFIG_CODES, " a\\");
  }

  // ---------------------------------------------------------------- what the encoding keeps out

  /** Of the characters that have a code only the backslash occurs in an encoded name. */
  lemma {:induction false} EncodedIsPlain(codes: Codes, s: string)
    requires Valid(codes)
    ensures forall i :: 0 <= i < |Encode(codes, s)| ==> Encode(codes, s)[i] == '\\' || Encode(codes, s)[i] !in codes
  {
    if s != [] {
      EncodedIsPlain(codes, s[..|s| - 1]);
      assert s[|s| - 1] in codes ==> ValidCode(codes, codes[s[|s| - 1]]);
    }
  }

  /** An encoded name has no quote in an SQL statement, and no blank and no line end in the configuration file. */
  lemma EncodedIsOneWord(s: string)
    ensures '\'' !in Encode(SQL_CODES, s) && ' ' !in Encode(CONFIG_CODES, s) && '\n' !in Encode(CONFIG_CODES, s)
  {
    CodesAreValid();
    EncodedIsPlain(SQL_CODES, s);
    EncodedIsPlain(CONFIG_CODES, s);
  }

  function Digit(c: char): nat { if '0' <= c <= '7' then (c - '0') as nat else 8 }

  function Octal(code: string): nat
    requires |code| == 5
  {
    ((Digit(code[1]) * 8 + Digit(code[2])) * 8 + Digit(code[3])) * 8 + Digit(code[4])
  }

  /** Exactly these characters have a code, and the code is their number in four octal digits. */
  lemma CodesAreOctal(c: char)
    ensures c in SQL_CODES <==> c == '\'' || c == '\\'
    ensures c in CONFIG_CODES <==> c == ' ' || c == '\n' || c == '\\'
    ensures c in SQL_CODES ==> |SQL_CODES[c]| == 5 && SQL_CODES[c][0] == '\\' && Octal(SQL_CODES[c]) == c as nat
    ensures c in CONFIG_CODES ==> |CONFIG_CODES[c]| == 5 && CONFIG_CODES[c][0] == '\\' && Octal(CONFIG_CODES[c]) == c as nat
  {
  }

  lemma {:induction false} EncodedIsEmptyIff(codes: Codes, s: string)
    requires Valid(codes)
    ensures Encode(codes, s) == [] <==> s == []
  {
    if s != [] { assert s[|s| - 1] in codes ==> ValidCode(codes, codes[s[|s| - 1]]); }
  }

  /** A backslash in an encoded name is followed by the rest of its code. */
  lemma {:induction false} CodesAreComplete(codes: Codes, s: string, i: nat)
    requires Valid(codes) && i < |Encode(codes, s)| && Encode(codes, s)[i] == '\\'
    ensures i + 5 <= |Encode(codes, s)|
  {
    var enc, c := Encode(codes, s[..|s| - 1]), s[|s| - 1];
    assert c in codes ==> ValidCode(codes, codes[c]);
    if i < |enc| {
      CodesAreComplete(codes, s[..|s| - 1], i);
    } else {
      assert Encode(codes, s)[i] == EncodeChar(codes, c)[i - |enc|];
    }
  }

  /** Different names have different encodings, also those that do not survive decoding. */
  lemma {:induction false} EncodeInjective(codes: Codes, s: string, t: string)
    requires Valid(codes) && Encode(codes, s) == Encode(codes, t)
    ensures s == t
    decreases |s|
  {
    EncodedIsEmptyIff(codes, s);
    EncodedIsEmptyIff(codes, t);
    if s != [] {
      LastCharInjective(codes, s, t);
      EncodeInjective(codes, s[..|s| - 1], t[..|t| - 1]);
      assert s == s[..|s| - 1] + [s[|s| - 1]] && t == t[..|t| - 1] + [t[|t| - 1]];
    }
  }

  lemma LastCharInjective(codes: Codes, s: string, t: string)
    requires Valid(codes) && s != [] && t != [] && Encode(codes, s) == Encode(codes, t)
    ensures s[|s| - 1] == t[|t| - 1] && Encode(codes, s[..|s| - 1]) == Encode(codes, t[..|t| - 1])
  {
    var c, d := s[|s| - 1], t[|t| - 1];
    var a, b := Encode(codes, s[..|s| - 1]), Encode(codes, t[..|t| - 1]);
    if c in codes && d !in codes {
      CodeBeforePlain(codes, a, c, t[..|t| - 1], d);
    } else if c !in codes && d in codes {
      CodeBeforePlain(codes, b, d, s[..|s| - 1], c);
    } else if c in codes {
      assert ValidCode(codes, codes[c]) && ValidCode(codes, codes[d]);
      SameEnd(a, codes[c], b, codes[d]);
    } else {
      SameEnd(a, [c], b, [d]);
    }
  }

  lemma SameEnd(a: string, x: string, b: string, y: string)
    requires a + x == b + y && |x| == |y|
    ensures a == b && x == y
  {
    assert a == (a + x)[..|a|] && b == (b + y)[..|b|];
    assert x == (a + x)[|a|..] && y == (b + y)[|b|..];
  }

  lemma CodeBeforePlain(codes: Codes, a: string, c: char, t: string, d: char)
    requires Valid(codes) && c in codes && d !in codes
    ensures a + codes[c] != Encode(codes, t) + [d]
  {
    var b := Encode(codes, t);
    assert ValidCode(codes, codes[c]);
    if a + codes[c] == b + [d] {
      assert |b| == |a| + 4 && b[|a|] == (a + codes[c])[|a|];
      CodesAreComplete(codes, t, |a|);
    }
  }
}
