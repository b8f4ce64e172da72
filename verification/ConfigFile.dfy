/**
  The configuration file: one line for each pool and each file system.

  Lines end with a newline and words are separated by a blank; both are read
  with std::getline, which returns a last piece without delimiter only if it is
  not empty.
 */
module ConfigFile {
  import opened Wrappers
  import opened Escape
  import opened Text

  datatype FsInfo = FsInfo(source: string, fstype: string, options: string, uuid: string)

  datatype Config = Config(pools: map<string, set<string>>, fss: map<string, FsInfo>)

  datatype Entry = Pool(name: string, tapes: seq<string>) | Fs(name: string, info: FsInfo)

  const EMPTY := Config(map[], map[])

  /** The first line of the file is a message of the program: a comment on one line. */
  predicate IsComment(header: string) { header != [] && header[0] == '#' && '\n' !in header }

  // ---------------------------------------------------------------- printing

  function WordsOf(e: Entry): seq<string> {
    match e
    case Pool(name, tapes) => ["pool:", Encode(CONFIG_CODES, name)] + tapes
    case Fs(name, info) =>
      ["fsys:", Encode(CONFIG_CODES, name), info.source, info.fstype, info.options, info.uuid]
  }

  function Join(words: seq<string>): string
    requires words != []
  {
    if |words| == 1 then words[0] else words[0] + " " + Join(words[1..])
  }

  lemma JoinFour(w: seq<string>)
    requires |w| == 4
    ensures Join(w) == w[0] + " " + w[1] + " " + w[2] + " " + w[3]
  {
    assert w[1..][1..] == [w[2], w[3]] && [w[2], w[3]][1..] == [w[3]];
    assert Join([w[2], w[3]]) == w[2] + " " + w[3];
    assert Join(w[1..]) == w[1] + " " + (w[2] + " " + w[3]);
  }

  /** The format of the two kinds of lines */
  lemma LineFormat(e: Entry)
    ensures e.Fs? ==>
              Join(WordsOf(e)) == "fsys: " + Encode(CONFIG_CODES, e.name) + " " + e.info.source + " " + e.info.fstype
                                  + " " + e.info.options + " " + e.info.uuid
    ensures e.Pool? ==>
              Join(WordsOf(e)) == "pool: " + Encode(CONFIG_CODES, e.name) + (if e.tapes == [] then "" else " " + Join(e.tapes))
  {
    var words, name := WordsOf(e), Encode(CONFIG_CODES, e.name);
    assert words[1..][0] == name && Join(words) == words[0] + " " + Join(words[1..]);
    match e
    case Pool(_, tapes) =>
      assert words[1..][1..] == tapes;
      assert "pool:" + " " == "pool: ";
      if tapes == [] { assert words[1..] == [name]; }
    case Fs(_, info) =>
      var four := [info.source, info.fstype, info.options, info.uuid];
      assert words[1..] == [name] + four && words[1..][1..] == four;
      assert Join(words) == words[0] + " " + (name + " " + Join(four));
      assert Join(four) == info.source + " " + info.fstype + " " + info.options + " " + info.uuid by { JoinFour(four); }
      assert "fsys:" + " " == "fsys: ";
  }

  function LinesOf(es: seq<Entry>): seq<string> {
    if es == [] then [] else [Join(WordsOf(es[0]))] + LinesOf(es[1..])
  }

  function Print(header: string, es: seq<Entry>): string { Terminate([header] + LinesOf(es), '\n') }

  // ---------------------------------------------------------------- reading

  function SetOf(words: seq<string>): set<string> { set w | w in words }

  datatype Line = Comment | Item(e: Entry)

  ghost function ParseLine(line: string): Option<Line> {
    if line != [] && line[0] == '#' then Some(Comment)
    else
      var words := Split(line, ' ');
      if |words| < 2 then None
      else
        match Decode(CONFIG_CODES, words[1])
        case None => None
        case Some(name) =>
          if words[0] == "pool:" then Some(Item(Pool(name, words[2..])))
          else if words[0] == "fsys:" && |words| == 6 then
            Some(Item(Fs(name, FsInfo(words[2], words[3], words[4], words[5]))))
          else None
  }

  function Enter(c: Config, e: Entry): Config {
    match e
    case Pool(name, tapes) => c.(pools := c.pools[name := SetOf(tapes)])
    case Fs(name, info) => c.(fss := c.fss[name := info])
  }

  ghost function ParseLines(lines: seq<string>, c: Config): Option<Config>
    decreases |lines|
  {
    if lines == [] then Some(c)
    else
      match ParseLine(lines[0])
      case None => None
      case Some(Comment) => ParseLines(lines[1..], c)
      case Some(Item(e)) => ParseLines(lines[1..], Enter(c, e))
  }

  ghost function Parse(text: string): Option<Config> { ParseLines(Split(text, '\n'), EMPTY) }

  // ---------------------------------------------------------------- what a list of entries stands for

  function ConfigOf(es: seq<Entry>, c: Config): Config {
    if es == [] then c else ConfigOf(es[1..], Enter(c, es[0]))
  }

  predicate SameKind(a: Entry, b: Entry) { a.Pool? == b.Pool? }

  predicate Distinct(es: seq<Entry>) {
    forall i, j :: 0 <= i < j < |es| && SameKind(es[i], es[j]) ==> es[i].name != es[j].name
  }

  // ---------------------------------------------------------------- splitting what was joined

  predicate Plain(w: string) { w != [] && ' ' !in w && '\n' !in w }

  lemma {:induction false} SplitJoined(words: seq<string>)
    requires words != [] && forall i :: 0 <= i < |words| ==> Plain(words[i])
    ensures Split(Join(words), ' ') == words
  {
    if |words| == 1 {
      assert Find(words[0], ' ') == |words[0]|;
      assert words == [words[0]];
    } else {
      SplitJoined(words[1..]);
      SplitFirst(words[0], ' ', Join(words[1..]));
      assert words == [words[0]] + words[1..];
    }
  }

  lemma {:induction false} JoinedOnOneLine(words: seq<string>)
    requires words != [] && words[0] != [] && forall i :: 0 <= i < |words| ==> Plain(words[i])
    ensures '\n' !in Join(words) && Join(words) != [] && Join(words)[0] == words[0][0]
  {
    if |words| > 1 { JoinedOnOneLine(words[1..]); }
  }

  // ---------------------------------------------------------------- entries that can be written

  /** All fields are words: not empty, without blank and newline; names are escaped and only must not be
      empty. */
  predicate WritableEntry(e: Entry) {
    && e.name != [] && |e.name| <= NPOS
    && match e
       case Pool(_, tapes) => forall i :: 0 <= i < |tapes| ==> Plain(tapes[i])
       case Fs(_, info) => Plain(info.source) && Plain(info.fstype) && Plain(info.options) && Plain(info.uuid)
  }

  predicate AllWritable(es: seq<Entry>) { forall i :: 0 <= i < |es| ==> WritableEntry(es[i]) }

  lemma EncodedNameIsPlain(name: string)
    requires name != []
    ensures Plain(Encode(CONFIG_CODES, name))
  {
    CodesAreValid();
    EncodedIsPlain(CONFIG_CODES, name);
    EncodedIsEmptyIff(CONFIG_CODES, name);
  }

  lemma WordsArePlain(e: Entry)
    requires WritableEntry(e)
    ensures forall i :: 0 <= i < |WordsOf(e)| ==> Plain(WordsOf(e)[i])
  {
    EncodedNameIsPlain(e.name);
    if e.Pool? {
      forall i | 0 <= i < |WordsOf(e)| ensures Plain(WordsOf(e)[i]) {
        if i >= 2 { assert WordsOf(e)[i] == e.tapes[i - 2]; }
      }
    }
  }

  /** The name as it comes back */
  ghost function NameBack(name: string): Option<string> { Decode(CONFIG_CODES, Encode(CONFIG_CODES, name)) }

  lemma LineBack(e: Entry)
    requires WritableEntry(e)
    ensures var line := Join(WordsOf(e));
            && '\n' !in line
            && ParseLine(line) == match NameBack(e.name)
                                  case None => None
                                  case Some(name) => Some(Item(e.(name := name)))
  {
    var words := WordsOf(e);
    WordsArePlain(e);
    SplitJoined(words);
    JoinedOnOneLine(words);
    if e.Pool? { assert words[2..] == e.tapes; }
  }

  // ---------------------------------------------------------------- the round trip

  /** Reading back entry by entry */
  ghost function Back_(es: seq<Entry>, c: Config): Option<Config>
    decreases |es|
  {
    if es == [] then Some(c)
    else
      match NameBack(es[0].name)
      case None => None
      case Some(name) => Back_(es[1..], Enter(c, es[0].(name := name)))
  }

  lemma {:induction false} LinesBack(es: seq<Entry>, c: Config)
    requires AllWritable(es)
    ensures forall i :: 0 <= i < |LinesOf(es)| ==> '\n' !in LinesOf(es)[i]
    ensures ParseLines(LinesOf(es), c) == Back_(es, c)
    decreases |es|
  {
    if es != [] {
      LineBack(es[0]);
      var lines := LinesOf(es);
      assert lines[1..] == LinesOf(es[1..]);
      assert AllWritable(es[1..]) by { assert forall i :: 0 <= i < |es[1..]| ==> es[1..][i] == es[i + 1]; }
      match NameBack(es[0].name)
      case None => LinesBack(es[1..], c);
      case Some(name) => LinesBack(es[1..], Enter(c, es[0].(name := name)));
    }
  }

  lemma PrintedBack(header: string, es: seq<Entry>)
    requires IsComment(header) && AllWritable(es)
    ensures Parse(Print(header, es)) == Back_(es, EMPTY)
  {
    LinesBack(es, EMPTY);
    var lines := [header] + LinesOf(es);
    SplitTerminated(lines, '\n');
    assert lines[1..] == LinesOf(es);
  }

  predicate Survives(e: Entry) { RoundTrips(CONFIG_CODES, e.name) }

  lemma NameBackIff(name: string)
    requires |name| <= NPOS
    ensures NameBack(name) == Some(name) <==> RoundTrips(CONFIG_CODES, name)
  {
    CodesAreValid();
    RoundTripIff(CONFIG_CODES, name);
  }

  lemma {:induction false} BackIfSurvive(es: seq<Entry>, c: Config)
    requires AllWritable(es) && forall i :: 0 <= i < |es| ==> Survives(es[i])
    ensures Back_(es, c) == Some(ConfigOf(es, c))
    decreases |es|
  {
    if es != [] {
      assert Survives(es[0]);
      NameBackIff(es[0].name);
      forall i | 0 <= i < |es[1..]| ensures WritableEntry(es[1..][i]) && Survives(es[1..][i]) {
        assert WritableEntry(es[i + 1]) && Survives(es[i + 1]);
      }
      BackIfSurvive(es[1..], Enter(c, es[0]));
    }
  }

  /** A name that does not survive comes back shorter, if it comes back at all. */
  lemma LostNameIsShorter(name: string)
    requires |name| <= NPOS && !RoundTrips(CONFIG_CODES, name)
    ensures NameBack(name).Some? ==> |NameBack(name).value| < |name|
  {
    CodesAreValid();
    var enc := Encode(CONFIG_CODES, name);
    DecodePrefix(CONFIG_CODES, name, []);
    assert enc + [] == enc && name + [] == name;
    StartAtEnd(CONFIG_CODES, enc);
    DecodeShortens(CONFIG_CODES, name, NPOS);
    assert RFind(name, NPOS).Some?;
  }

  predicate HasName(c: Config, pool: bool, name: string) {
    if pool then name in c.pools else name in c.fss
  }

  ghost predicate ComesFrom(es: seq<Entry>, pool: bool, name: string, i: nat) {
    i < |es| && es[i].Pool? == pool && NameBack(es[i].name) == Some(name)
  }

  /** A name in the file read back is the name of some entry as it comes back. */
  lemma {:induction false} NamesBack(es: seq<Entry>, c: Config, pool: bool, name: string)
    requires Back_(es, c).Some? && HasName(Back_(es, c).value, pool, name)
    ensures HasName(c, pool, name) || exists i :: ComesFrom(es, pool, name, i)
    decreases |es|
  {
    if es != [] {
      var n := NameBack(es[0].name).value;
      var c1 := Enter(c, es[0].(name := n));
      NamesBack(es[1..], c1, pool, name);
      if i: nat :| ComesFrom(es[1..], pool, name, i) {
        assert ComesFrom(es, pool, name, i + 1);
      } else if !HasName(c, pool, name) {
        assert ComesFrom(es, pool, name, 0);
      }
    }
  }

  lemma {:induction false} NamesIn(es: seq<Entry>, c: Config, i: nat)
    requires i < |es|
    ensures HasName(ConfigOf(es, c), es[i].Pool?, es[i].name)
    decreases |es|
  {
    if i > 0 {
      NamesIn(es[1..], Enter(c, es[0]), i - 1);
    } else {
      NamesStay(es[1..], Enter(c, es[0]), es[0].Pool?, es[0].name);
    }
  }

  lemma {:induction false} NamesStay(es: seq<Entry>, c: Config, pool: bool, name: string)
    requires HasName(c, pool, name)
    ensures HasName(ConfigOf(es, c), pool, name)
    decreases |es|
  {
    if es != [] { NamesStay(es[1..], Enter(c, es[0]), pool, name); }
  }

  /** Of the entries of one kind that do not survive, one with the longest name */
  lemma {:induction false} LongestLost(es: seq<Entry>, pool: bool, n: nat) returns (i: nat)
    requires n <= |es| && exists k :: 0 <= k < n && es[k].Pool? == pool && !Survives(es[k])
    ensures i < n && es[i].Pool? == pool && !Survives(es[i])
    ensures forall k :: 0 <= k < n && es[k].Pool? == pool && !Survives(es[k]) ==> |es[k].name| <= |es[i].name|
    decreases n
  {
    if exists k :: 0 <= k < n - 1 && es[k].Pool? == pool && !Survives(es[k]) {
      i := LongestLost(es, pool, n - 1);
      if es[n - 1].Pool? == pool && !Survives(es[n - 1]) && |es[i].name| < |es[n - 1].name| { i := n - 1; }
    } else {
      i := n - 1;
    }
  }

  /** If a name is lost, the longest lost one of its kind is missing afterwards. */
  lemma LostIsMissing(es: seq<Entry>, lost: nat)
    requires AllWritable(es) && Distinct(es) && lost < |es| && !Survives(es[lost])
    ensures Back_(es, EMPTY) != Some(ConfigOf(es, EMPTY))
  {
    var pool := es[lost].Pool?;
    var i := LongestLost(es, pool, |es|);
    var name := es[i].name;
    NamesIn(es, EMPTY, i);
    if Back_(es, EMPTY) == Some(ConfigOf(es, EMPTY)) {
      NamesBack(es, EMPTY, pool, name);
      var k: nat :| ComesFrom(es, pool, name, k);
      SourceOfName(es, i, k);
    }
  }

  lemma SourceOfName(es: seq<Entry>, i: nat, k: nat)
    requires AllWritable(es) && Distinct(es) && i < |es| && k < |es| && SameKind(es[i], es[k])
    requires NameBack(es[k].name) == Some(es[i].name) && !Survives(es[i])
    ensures !Survives(es[k]) && |es[k].name| > |es[i].name|
  {
    assert WritableEntry(es[k]) && WritableEntry(es[i]);
    NameBackIff(es[k].name);
    NameBackIff(es[i].name);
    if !Survives(es[k]) { LostNameIsShorter(es[k].name); }
  }

  /** Reading what was written gives the same pools and file systems back exactly if every name survives the
      escaping. */
  lemma ReadAfterWriteIff(header: string, es: seq<Entry>)
    requires IsComment(header) && AllWritable(es) && Distinct(es)
    ensures Parse(Print(header, es)) == Some(ConfigOf(es, EMPTY)) <==> forall i :: 0 <= i < |es| ==> Survives(es[i])
  {
    PrintedBack(header, es);
    if forall i :: 0 <= i < |es| ==> Survives(es[i]) {
      BackIfSurvive(es, EMPTY);
    } else {
      var lost :| 0 <= lost < |es| && !Survives(es[lost]);
      LostIsMissing(es, lost);
    }
  }
}
