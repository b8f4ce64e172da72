/**
  The configuration: storage pools with their tapes, and managed file systems.
  Every change is written to the configuration file at once.
 */
module Configuration {
  import opened Wrappers
  import opened Escape
  import opened Text
  import opened ConfigFile

  datatype Error = PoolExists | PoolNotExists | PoolNotEmpty | TapeExists | TapeNotExists
                 | TargetExists | SourceExists | UuidExists

  // ---------------------------------------------------------------- the changes as functions

  datatype Op =
    | PoolCreate(pool: string)
    | PoolDelete(pool: string)
    | PoolAdd(pool: string, tape: string)
    | PoolRemove(pool: string, tape: string)
    | AddFs(target: string, info: FsInfo)

  predicate InSomePool(c: Config, tape: string) { exists p :: p in c.pools && tape in c.pools[p] }

  predicate SourceKnown(c: Config, source: string) { exists t :: t in c.fss && c.fss[t].source == source }

  predicate UuidKnown(c: Config, uuid: string) { exists t :: t in c.fss && c.fss[t].uuid == uuid }

  /** What the change makes of the configuration, if it is allowed. */
  predicate Allowed(c: Config, op: Op) {
    match op
    case PoolCreate(p) => p !in c.pools
    case PoolDelete(p) => p in c.pools && c.pools[p] == {}
    case PoolAdd(p, t) => p in c.pools && !InSomePool(c, t)
    case PoolRemove(p, t) => p in c.pools && t in c.pools[p]
    case AddFs(t, i) => t !in c.fss && !SourceKnown(c, i.source) && !UuidKnown(c, i.uuid)
  }

  function Changed(c: Config, op: Op): Config {
    if !Allowed(c, op) then c
    else match op
      case PoolCreate(p) => c.(pools := c.pools[p := {}])
      case PoolDelete(p) => c.(pools := c.pools - {p})
      case PoolAdd(p, t) => c.(pools := c.pools[p := c.pools[p] + {t}])
      case PoolRemove(p, t) => c.(pools := c.pools[p := c.pools[p] - {t}])
      case AddFs(t, i) => c.(fss := c.fss[t := i])
  }

  function ChangedAll(c: Config, ops: seq<Op>): Config
    decreases |ops|
  {
    if ops == [] then c else ChangedAll(Changed(c, ops[0]), ops[1..])
  }

  // ---------------------------------------------------------------- what every change keeps

  predicate PoolsDisjoint(c: Config) {
    forall p, q :: p in c.pools && q in c.pools && p != q ==> c.pools[p] !! c.pools[q]
  }

  predicate FsUnique(c: Config) {
    forall t, u :: t in c.fss && u in c.fss && t != u ==>
      c.fss[t].source != c.fss[u].source && c.fss[t].uuid != c.fss[u].uuid
  }

  lemma ChangeKeeps(c: Config, op: Op)
    requires PoolsDisjoint(c) && FsUnique(c)
    ensures PoolsDisjoint(Changed(c, op)) && FsUnique(Changed(c, op))
  {
    var n := Changed(c, op);
    forall p, q | p in n.pools && q in n.pools && p != q ensures n.pools[p] !! n.pools[q] {
      if op.PoolAdd? && Allowed(c, op) {
        assert op.tape !in c.pools[p] && op.tape !in c.pools[q];
      }
    }
    forall t, u | t in n.fss && u in n.fss && t != u
      ensures n.fss[t].source != n.fss[u].source && n.fss[t].uuid != n.fss[u].uuid
    {
      if op.AddFs? && Allowed(c, op) {
        assert t in c.fss ==> c.fss[t].source != op.info.source && c.fss[t].uuid != op.info.uuid;
        assert u in c.fss ==> c.fss[u].source != op.info.source && c.fss[u].uuid != op.info.uuid;
      }
    }
  }

  /** What a change adds or takes away, and that it leaves everything else alone; a change that is not allowed
      does nothing. */
  lemma ContentsAfter(c: Config, op: Op)
    ensures !Allowed(c, op) ==> Changed(c, op) == c
    ensures Allowed(c, op) && op.PoolCreate? ==> op.pool in Changed(c, op).pools && Changed(c, op).pools[op.pool] == {}
    ensures Allowed(c, op) && op.PoolDelete? ==> op.pool !in Changed(c, op).pools
    ensures Allowed(c, op) && op.PoolAdd? ==>
              op.pool in Changed(c, op).pools && op.tape in Changed(c, op).pools[op.pool]
    ensures Allowed(c, op) && op.PoolRemove? ==>
              op.pool in Changed(c, op).pools && op.tape !in Changed(c, op).pools[op.pool]
    ensures Allowed(c, op) && op.AddFs? ==> op.target in Changed(c, op).fss && Changed(c, op).fss[op.target] == op.info
    ensures OtherPools(c, Changed(c, op), if op.AddFs? then None else Some(op.pool))
    ensures OtherFss(c, Changed(c, op), if op.AddFs? then Some(op.target) else None)
    ensures (op.PoolAdd? || op.PoolRemove?) && op.pool in c.pools ==>
              forall t :: t != op.tape ==> (t in Changed(c, op).pools[op.pool] <==> t in c.pools[op.pool])
  {
  }

  /** No change overwrites anything: file systems stay as they are, pools with tapes stay, and so do all tapes
      in them but the one that is removed. */
  lemma NothingIsLost(c: Config, op: Op)
    ensures var n := Changed(c, op);
            && (forall t :: t in c.fss ==> t in n.fss && n.fss[t] == c.fss[t])
            && (forall p, t :: p in c.pools && t in c.pools[p] ==> op == PoolRemove(p, t) || (p in n.pools && t in n.pools[p]))
  {
  }

  ghost predicate OtherPools(c: Config, n: Config, pool: Option<string>) {
    forall p :: Some(p) != pool ==> (p in n.pools <==> p in c.pools) && (p in c.pools ==> n.pools[p] == c.pools[p])
  }

  ghost predicate OtherFss(c: Config, n: Config, target: Option<string>) {
    forall t :: Some(t) != target ==> (t in n.fss <==> t in c.fss) && (t in c.fss ==> n.fss[t] == c.fss[t])
  }

  /** What one change undoes: an empty pool that was created can be deleted, a tape that was added can be
      removed, and the other way round, and then everything is as before. */
  lemma ChangesUndo(c: Config, pool: string, tape: string)
    ensures Allowed(c, PoolCreate(pool)) ==>
              var n := Changed(c, PoolCreate(pool));
              n != c && Allowed(n, PoolDelete(pool)) && Changed(n, PoolDelete(pool)) == c
    ensures Allowed(c, PoolDelete(pool)) ==>
              var n := Changed(c, PoolDelete(pool));
              n != c && Allowed(n, PoolCreate(pool)) && Changed(n, PoolCreate(pool)) == c
    ensures Allowed(c, PoolAdd(pool, tape)) ==>
              var n := Changed(c, PoolAdd(pool, tape));
              n != c && Allowed(n, PoolRemove(pool, tape)) && Changed(n, PoolRemove(pool, tape)) == c
    ensures Allowed(c, PoolRemove(pool, tape)) && PoolsDisjoint(c) ==>
              var n := Changed(c, PoolRemove(pool, tape));
              n != c && Allowed(n, PoolAdd(pool, tape)) && Changed(n, PoolAdd(pool, tape)) == c
  {
    if Allowed(c, PoolAdd(pool, tape)) {
      assert tape !in c.pools[pool];
      assert c.pools[pool] + {tape} - {tape} == c.pools[pool];
    }
    if Allowed(c, PoolRemove(pool, tape)) {
      assert c.pools[pool] - {tape} + {tape} == c.pools[pool];
    }
  }

  /** In every configuration that grew from the empty one no tape is in two pools, and no two file systems
      share a source or an identifier. */
  lemma {:induction false} GrownConfigsAreConsistent(c: Config, ops: seq<Op>)
    requires PoolsDisjoint(c) && FsUnique(c)
    ensures PoolsDisjoint(ChangedAll(c, ops)) && FsUnique(ChangedAll(c, ops))
    decreases |ops|
  {
    if ops != [] {
      ChangeKeeps(c, ops[0]);
      GrownConfigsAreConsistent(Changed(c, ops[0]), ops[1..]);
    }
  }

  lemma {:induction false} ChangedAppend(c: Config, a: seq<Op>, b: seq<Op>)
    ensures ChangedAll(c, a + b) == ChangedAll(ChangedAll(c, a), b)
    decreases |a|
  {
    if a == [] {
      assert a + b == b;
    } else {
      assert (a + b)[0] == a[0] && (a + b)[1..] == a[1..] + b;
      ChangedAppend(Changed(c, a[0]), a[1..], b);
    }
  }

  lemma GrowOne(c: Config, ops: seq<Op>, d: Config, op: Op)
    requires ChangedAll(c, ops) == d
    ensures ChangedAll(c, ops + [op]) == Changed(d, op)
  {
    ChangedAppend(c, ops, [op]);
    assert [op][1..] == [];
  }

  /** The tapes of one pool are added one after the other. */
  lemma {:induction false} GrowTapes(c: Config, pool: string, tapes: set<string>) returns (ops: seq<Op>)
    requires pool in c.pools && c.pools[pool] == {} && forall t :: t in tapes ==> !InSomePool(c, t)
    ensures ChangedAll(c, ops) == c.(pools := c.pools[pool := tapes])
    decreases |tapes|
  {
    if tapes == {} {
      ops := [];
      assert c.pools[pool := {}] == c.pools;
    } else {
      var t :| t in tapes;
      var rest := tapes - {t};
      ops := GrowTapes(c, pool, rest);
      var d := c.(pools := c.pools[pool := rest]);
      assert !InSomePool(d, t) by {
        forall p | p in d.pools ensures t !in d.pools[p] { assert p != pool ==> t !in c.pools[p]; }
      }
      GrowOne(c, ops, d, PoolAdd(pool, t));
      ops := ops + [PoolAdd(pool, t)];
      assert rest + {t} == tapes;
      assert c.pools[pool := rest][pool := tapes] == c.pools[pool := tapes];
    }
  }

  lemma {:induction false} GrowPools(c: Config) returns (ops: seq<Op>)
    requires PoolsDisjoint(c) && c.fss == map[]
    ensures ChangedAll(EMPTY, ops) == c
    decreases |c.pools|
  {
    if c.pools == map[] {
      ops := [];
    } else {
      var p :| p in c.pools;
      var d := c.(pools := c.pools - {p});
      assert |c.pools - {p}| < |c.pools|;
      ops := GrowPools(d);
      GrowOne(EMPTY, ops, d, PoolCreate(p));
      var e := Changed(d, PoolCreate(p));
      forall t | t in c.pools[p] ensures !InSomePool(e, t) {
        forall q | q in e.pools ensures t !in e.pools[q] { assert q != p ==> c.pools[q] !! c.pools[p]; }
      }
      var more := GrowTapes(e, p, c.pools[p]);
      ChangedAppend(EMPTY, ops + [PoolCreate(p)], more);
      ops := ops + [PoolCreate(p)] + more;
      assert e.pools[p := c.pools[p]] == c.pools;
    }
  }

  lemma AddFsBack(c: Config, t: string)
    requires FsUnique(c) && t in c.fss
    ensures var d := c.(fss := c.fss - {t});
            FsUnique(d) && Changed(d, AddFs(t, c.fss[t])) == c
  {
    var d := c.(fss := c.fss - {t});
    assert !SourceKnown(d, c.fss[t].source) && !UuidKnown(d, c.fss[t].uuid);
    assert d.fss[t := c.fss[t]] == c.fss;
  }

  lemma {:induction false} GrowAll(c: Config) returns (ops: seq<Op>)
    requires PoolsDisjoint(c) && FsUnique(c)
    ensures ChangedAll(EMPTY, ops) == c
    decreases |c.fss|
  {
    if c.fss == map[] {
      ops := GrowPools(c);
    } else {
      var t :| t in c.fss;
      var d := c.(fss := c.fss - {t});
      assert |d.fss| < |c.fss| by { assert c.fss.Keys - {t} == d.fss.Keys && |d.fss| == |d.fss.Keys|; }
      AddFsBack(c, t);
      ops := GrowAll(d);
      GrowOne(EMPTY, ops, d, AddFs(t, c.fss[t]));
      ops := ops + [AddFs(t, c.fss[t])];
    }
  }

  /** The configurations that can be grown from the empty one are exactly the consistent ones. */
  lemma CanBeGrownIff(c: Config)
    ensures (exists ops :: ChangedAll(EMPTY, ops) == c) <==> PoolsDisjoint(c) && FsUnique(c)
  {
    if PoolsDisjoint(c) && FsUnique(c) {
      var ops := GrowAll(c);
    }
    if ops :| ChangedAll(EMPTY, ops) == c {
      GrownConfigsAreConsistent(EMPTY, ops);
    }
  }

  // ---------------------------------------------------------------- writing, piece by piece

  lemma {:induction false} TerminateSnoc(pieces: seq<string>, p: string, d: char)
    ensures Terminate(pieces + [p], d) == Terminate(pieces, d) + p + [d]
  {
    if pieces == [] {
      assert pieces + [p] == [p];
    } else {
      assert (pieces + [p])[1..] == pieces[1..] + [p];
      TerminateSnoc(pieces[1..], p, d);
    }
  }

  lemma {:induction false} JoinSnoc(words: seq<string>, w: string)
    requires words != []
    ensures Join(words + [w]) == Join(words) + " " + w
  {
    if |words| == 1 {
      assert (words + [w])[1..] == [w];
    } else {
      assert (words + [w])[1..] == words[1..] + [w];
      JoinSnoc(words[1..], w);
    }
  }

  lemma {:induction false} LinesSnoc(es: seq<Entry>, e: Entry)
    ensures LinesOf(es + [e]) == LinesOf(es) + [Join(WordsOf(e))]
  {
    if es == [] {
      assert es + [e] == [e];
    } else {
      assert (es + [e])[1..] == es[1..] + [e];
      LinesSnoc(es[1..], e);
    }
  }

  lemma {:induction false} ConfigSnoc(es: seq<Entry>, e: Entry, c: Config)
    ensures ConfigOf(es + [e], c) == Enter(ConfigOf(es, c), e)
    decreases |es|
  {
    if es == [] {
      assert es + [e] == [e];
    } else {
      assert (es + [e])[1..] == es[1..] + [e];
      ConfigSnoc(es[1..], e, Enter(c, es[0]));
    }
  }

  lemma PrintSnoc(header: string, es: seq<Entry>, e: Entry)
    ensures Print(header, es + [e]) == Print(header, es) + Join(WordsOf(e)) + "\n"
  {
    LinesSnoc(es, e);
    assert [header] + (LinesOf(es) + [Join(WordsOf(e))]) == [header] + LinesOf(es) + [Join(WordsOf(e))];
    TerminateSnoc([header] + LinesOf(es), Join(WordsOf(e)), '\n');
  }

  lemma TapeSnoc(name: string, tapes: seq<string>, t: string)
    ensures Join(WordsOf(Pool(name, tapes + [t]))) == Join(WordsOf(Pool(name, tapes))) + " " + t
    ensures SetOf(tapes + [t]) == SetOf(tapes) + {t}
  {
    var words := WordsOf(Pool(name, tapes));
    JoinSnoc(words, t);
    assert WordsOf(Pool(name, tapes + [t])) == words + [t];
  }

  lemma PrintNothing(header: string)
    ensures Print(header, []) == header + "\n"
  {
    var lines := [header];
    assert [header] + LinesOf([]) == lines && lines[1..] == [];
    assert Terminate(lines, '\n') == header + ['\n'] + Terminate([], '\n');
    assert header + ['\n'] + [] == header + "\n";
  }

  /** The entries list every pool and every file system of the configuration once. */
  ghost predicate Enumerates(es: seq<Entry>, c: Config) {
    && Distinct(es) && ConfigOf(es, EMPTY) == c
    && forall i :: 0 <= i < |es| ==> EntryOf(es[i], c)
  }

  predicate EntryOf(e: Entry, c: Config) {
    match e
    case Pool(name, tapes) => name in c.pools && SetOf(tapes) == c.pools[name]
    case Fs(name, info) => name in c.fss && info == c.fss[name]
  }

  /** Some listing of the configuration was written. */
  ghost predicate Written(file: string, header: string, c: Config) {
    exists es :: Enumerates(es, c) && file == Print(header, es)
  }

  class Configuration {
    var stgplist: map<string, set<string>>
    var fslist: map<string, FsInfo>
    var file: string
    const header: string

    function View(): Config
      reads this
    {
      Config(stgplist, fslist)
    }

    /** No tape is in two pools, file systems are unique, and the file is up to date. */
    ghost predicate Valid()
      reads this
    {
      PoolsDisjoint(View()) && FsUnique(View()) && Written(file, header, View())
    }

    constructor (header: string)
      ensures Valid() && View() == EMPTY && this.header == header
    {
      this.header := header;
      stgplist, fslist, file := map[], map[], Print(header, []);
      new;
      assert Enumerates([], View());
    }

    /** The line of one pool */
    method PoolLine(name: string) returns (line: string, e: Entry)
      requires name in stgplist
      ensures e.Pool? && e.name == name && EntryOf(e, View()) && line == Join(WordsOf(e))
    {
      var enc := EncodeLoop(CONFIG_CODES, name);
      line := "pool:" + " " + enc;
      e := Pool(name, []);
      assert WordsOf(e) == ["pool:", enc] && SetOf([]) == {};
      var left := stgplist[name];
      while left != {}
        invariant left <= stgplist[name]
        invariant e.Pool? && e.name == name && line == Join(WordsOf(e)) && SetOf(e.tapes) == stgplist[name] - left
        decreases |left|
      {
        var t :| t in left;
        left := left - {t};
        TapeSnoc(name, e.tapes, t);
        line := line + " " + t;
        e := Pool(name, e.tapes + [t]);
      }
    }

    /** The line of one file system */
    method FsLine(name: string) returns (line: string, e: Entry)
      requires name in fslist
      ensures e == Fs(name, fslist[name]) && line == Join(WordsOf(e))
    {
      var enc := EncodeLoop(CONFIG_CODES, name);
      var info := fslist[name];
      line := "fsys:" + " " + enc;
      line := line + " " + info.source;
      line := line + " " + info.fstype;
      line := line + " " + info.options;
      line := line + " " + info.uuid;
      e := Fs(name, info);
      FsWords(enc, info);
    }

    /** The loop of Configuration::write over the pools */
    method WritePools() returns (ghost es: seq<Entry>)
      requires file == Print(header, [])
      modifies `file
      ensures Part(es, View(), {}, fslist.Keys) && file == Print(header, es)
    {
      es := [];
      var pools := stgplist.Keys;
      while pools != {}
        invariant pools <= stgplist.Keys && Part(es, View(), pools, fslist.Keys) && file == Print(header, es)
        decreases pools
      {
        var p :| p in pools;
        var line, e := PoolLine(p);
        PartNext(es, e, View(), pools, fslist.Keys);
        PrintSnoc(header, es, e);
        file := file + line + "\n";
        pools := pools - {p};
        es := es + [e];
      }
    }

    /** And the one over the file systems */
    method WriteFss(ghost es0: seq<Entry>) returns (ghost es: seq<Entry>)
      requires Part(es0, View(), {}, fslist.Keys) && file == Print(header, es0)
      modifies `file
      ensures Part(es, View(), {}, {}) && file == Print(header, es)
    {
      es := es0;
      var fss := fslist.Keys;
      while fss != {}
        invariant fss <= fslist.Keys && Part(es, View(), {}, fss) && file == Print(header, es)
        decreases fss
      {
        var t :| t in fss;
        var line, e := FsLine(t);
        PartNext(es, e, View(), {}, fss);
        PrintSnoc(header, es, e);
        file := file + line + "\n";
        fss := fss - {t};
        es := es + [e];
      }
    }

    /** Configuration::write: pools first, then file systems, in some order each */
    method Write()
      modifies `file
      ensures Written(file, header, View())
    {
      file := header + "\n";
      PrintNothing(header);
      ghost var es := WritePools();
      es := WriteFss(es);
      PartIsWhole(es, View());
    }

    /** Configuration::poolCreate */
    method PoolCreate(poolName: string) returns (r: Option<Error>)
      requires Valid()
      modifies this
      ensures Valid() && View() == Changed(old(View()), Op.PoolCreate(poolName))
      ensures r.None? <==> Allowed(old(View()), Op.PoolCreate(poolName))
      ensures r.Some? ==> r == Some(PoolExists)
    {
      ChangeKeeps(View(), Op.PoolCreate(poolName));
      if poolName in stgplist { return Some(PoolExists); }
      stgplist := stgplist[poolName := {}];
      Write();
      return None;
    }

    /** Configuration::poolDelete */
    method PoolDelete(poolName: string) returns (r: Option<Error>)
      requires Valid()
      modifies this
      ensures Valid() && View() == Changed(old(View()), Op.PoolDelete(poolName))
      ensures r.None? <==> Allowed(old(View()), Op.PoolDelete(poolName))
      ensures r.Some? ==> r == Some(if poolName !in old(stgplist) then PoolNotExists else PoolNotEmpty)
    {
      ChangeKeeps(View(), Op.PoolDelete(poolName));
      if poolName !in stgplist { return Some(PoolNotExists); }
      if |stgplist[poolName]| != 0 { return Some(PoolNotEmpty); }
      stgplist := stgplist - {poolName};
      Write();
      return None;
    }

    /** Configuration::poolAdd */
    method PoolAdd(poolName: string, tapeId: string) returns (r: Option<Error>)
      requires Valid()
      modifies this
      ensures Valid() && View() == Changed(old(View()), Op.PoolAdd(poolName, tapeId))
      ensures r.None? <==> Allowed(old(View()), Op.PoolAdd(poolName, tapeId))
      ensures r.Some? ==> r == Some(if poolName !in old(stgplist) then PoolNotExists else TapeExists)
    {
      ChangeKeeps(View(), Op.PoolAdd(poolName, tapeId));
      if poolName !in stgplist { return Some(PoolNotExists); }
      var pools := stgplist.Keys;
      while pools != {}
        invariant pools <= stgplist.Keys && forall p :: p in stgplist && p !in pools ==> tapeId !in stgplist[p]
        decreases |pools|
      {
        var p :| p in pools;
        if tapeId in stgplist[p] { return Some(TapeExists); }
        pools := pools - {p};
      }
      stgplist := stgplist[poolName := stgplist[poolName] + {tapeId}];
      Write();
      return None;
    }

    /** Configuration::poolRemove */
    method PoolRemove(poolName: string, tapeId: string) returns (r: Option<Error>)
      requires Valid()
      modifies this
      ensures Valid() && View() == Changed(old(View()), Op.PoolRemove(poolName, tapeId))
      ensures r.None? <==> Allowed(old(View()), Op.PoolRemove(poolName, tapeId))
      ensures r.Some? ==> r == Some(if poolName !in old(stgplist) then PoolNotExists else TapeNotExists)
    {
      ChangeKeeps(View(), Op.PoolRemove(poolName, tapeId));
      if poolName !in stgplist { return Some(PoolNotExists); }
      if tapeId !in stgplist[poolName] { return Some(TapeNotExists); }
      stgplist := stgplist[poolName := stgplist[poolName] - {tapeId}];
      Write();
      return None;
    }

    /** The loop of addFs over the known file systems */
    method FindClash(info: FsInfo) returns (r: Option<Error>)
      ensures r.None? <==> !SourceKnown(View(), info.source) && !UuidKnown(View(), info.uuid)
      ensures r == Some(SourceExists) ==> SourceKnown(View(), info.source)
      ensures r == Some(UuidExists) ==> UuidKnown(View(), info.uuid)
      ensures r.None? || r == Some(SourceExists) || r == Some(UuidExists)
    {
      var fss := fslist.Keys;
      while fss != {}
        invariant fss <= fslist.Keys
        invariant forall t :: t in fslist && t !in fss ==> fslist[t].source != info.source && fslist[t].uuid != info.uuid
        decreases |fss|
      {
        var t :| t in fss;
        if fslist[t].source == info.source { return Some(SourceExists); }
        if fslist[t].uuid == info.uuid { return Some(UuidExists); }
        fss := fss - {t};
      }
      return None;
    }

    /** Configuration::addFs */
    method AddFs(target: string, info: FsInfo) returns (r: Option<Error>)
      requires Valid()
      modifies this
      ensures Valid() && View() == Changed(old(View()), Op.AddFs(target, info))
      ensures r.None? <==> Allowed(old(View()), Op.AddFs(target, info))
      ensures r == Some(TargetExists) <==> target in old(fslist)
      ensures r == Some(SourceExists) ==> SourceKnown(old(View()), info.source)
      ensures r == Some(UuidExists) ==> UuidKnown(old(View()), info.uuid)
    {
      ChangeKeeps(View(), Op.AddFs(target, info));
      if target in fslist { return Some(TargetExists); }
      r := FindClash(info);
      if r.Some? { return; }
      fslist := fslist[target := info];
      Write();
      return None;
    }

    /** Configuration::read: the lists are replaced only if the whole file could be read. */
    method Read() returns (ok: bool)
      modifies `stgplist, `fslist
      ensures ok <==> Parse(file).Some?
      ensures View() == if ok then Parse(file).value else old(View())
      ensures Written(file, header, old(View())) && IsComment(header) && Writable(old(View())) ==>
                (ok && View() == old(View()) <==> NamesSurvive(old(View())))
    {
      if Written(file, header, View()) && IsComment(header) && Writable(View()) { FileRoundTripIff(file, header, View()); }
      var pools: map<string, set<string>> := map[];
      var fss: map<string, FsInfo> := map[];
      var rest := file;
      while rest != []
        invariant ParseLines(Split(rest, '\n'), Config(pools, fss)) == Parse(file)
        invariant View() == old(View())
        decreases |rest|
      {
        var next := GetLine(rest, '\n').value;
        ghost var lines := Split(rest, '\n');
        assert lines[0] == next.0 && lines[1..] == Split(next.1, '\n');
        rest := next.1;
        var e := ReadLine(next.0);
        if e.None? { return false; }
        if e.value.Item? {
          var c := Enter(Config(pools, fss), e.value.e);
          pools, fss := c.pools, c.fss;
        }
      }
      stgplist, fslist := pools, fss;
      return true;
    }

    /** One line of the file: its words, taken one after the other. */
    method ReadLine(line: string) returns (r: Option<Line>)
      ensures r == ParseLine(line)
    {
      if line != [] && line[0] == '#' { return Some(Comment); }
      var words := [];
      var rest := line;
      while rest != []
        invariant words + Split(rest, ' ') == Split(line, ' ')
        decreases |rest|
      {
        var next := GetLine(rest, ' ').value;
        words := words + [next.0];
        rest := next.1;
      }
      assert words == Split(line, ' ');
      if |words| < 2 { return None; }
      var name := DecodeLine(words[1]);
      if name.None? { return None; }
      if words[0] == "pool:" { return Some(Item(Pool(name.value, words[2..]))); }
      if words[0] == "fsys:" && |words| == 6 {
        return Some(Item(Fs(name.value, FsInfo(words[2], words[3], words[4], words[5]))));
      }
      return None;
    }

    method DecodeLine(word: string) returns (r: Option<string>)
      ensures r == Decode(CONFIG_CODES, word)
    {
      CodesAreValid();
      r := DecodeLoop(CONFIG_CODES, word);
    }
  }

  lemma FsWords(enc: string, info: FsInfo)
    ensures Join(["fsys:", enc, info.source, info.fstype, info.options, info.uuid])
         == "fsys:" + " " + enc + " " + info.source + " " + info.fstype + " " + info.options + " " + info.uuid
  {
    var two := ["fsys:", enc];
    assert two[1..] == [enc];
    JoinSnoc(two, info.source);
    JoinSnoc(two + [info.source], info.fstype);
    JoinSnoc(two + [info.source] + [info.fstype], info.options);
    JoinSnoc(two + [info.source] + [info.fstype] + [info.options], info.uuid);
    assert two + [info.source] + [info.fstype] + [info.options] + [info.uuid]
        == ["fsys:", enc, info.source, info.fstype, info.options, info.uuid];
  }

  /** The entries list all but `pools` and `fss`. */
  ghost predicate Part(es: seq<Entry>, c: Config, pools: set<string>, fss: set<string>) {
    && Distinct(es) && (forall i :: 0 <= i < |es| ==> EntryOf(es[i], c))
    && (forall i :: 0 <= i < |es| ==> es[i].name !in if es[i].Pool? then pools else fss)
    && var d := ConfigOf(es, EMPTY);
       && (forall p :: p in d.pools <==> p in c.pools && p !in pools) && (forall p :: p in d.pools ==> d.pools[p] == c.pools[p])
       && (forall t :: t in d.fss <==> t in c.fss && t !in fss) && (forall t :: t in d.fss ==> d.fss[t] == c.fss[t])
  }

  lemma PartNext(es: seq<Entry>, e: Entry, c: Config, pools: set<string>, fss: set<string>)
    requires Part(es, c, pools, fss) && EntryOf(e, c) && e.name in if e.Pool? then pools else fss
    ensures if e.Pool? then Part(es + [e], c, pools - {e.name}, fss) else Part(es + [e], c, pools, fss - {e.name})
  {
    ConfigSnoc(es, e, EMPTY);
  }

  lemma PartIsWhole(es: seq<Entry>, c: Config)
    requires Part(es, c, {}, {})
    ensures Enumerates(es, c)
  {
    var d := ConfigOf(es, EMPTY);
    assert d.pools == c.pools && d.fss == c.fss;
  }

  // ---------------------------------------------------------------- the round trip of a configuration

  /** All fields can be written: pool and file system names are not empty, and everything else is a word. */
  predicate Writable(c: Config) {
    && (forall p :: p in c.pools ==> p != [] && |p| <= NPOS && forall t :: t in c.pools[p] ==> Plain(t))
    && (forall t :: t in c.fss ==> t != [] && |t| <= NPOS && Plain(c.fss[t].source) && Plain(c.fss[t].fstype)
                                   && Plain(c.fss[t].options) && Plain(c.fss[t].uuid))
  }

  predicate NamesSurvive(c: Config) {
    && (forall p :: p in c.pools ==> RoundTrips(CONFIG_CODES, p))
    && (forall t :: t in c.fss ==> RoundTrips(CONFIG_CODES, t))
  }

  lemma {:induction false} NameListed(es: seq<Entry>, c: Config, pool: bool, name: string)
    requires HasName(ConfigOf(es, c), pool, name)
    ensures HasName(c, pool, name) || exists i :: 0 <= i < |es| && es[i].Pool? == pool && es[i].name == name
    decreases |es|
  {
    if es != [] {
      NameListed(es[1..], Enter(c, es[0]), pool, name);
      if i :| 0 <= i < |es[1..]| && es[1..][i].Pool? == pool && es[1..][i].name == name {
        assert es[i + 1].name == name && es[i + 1].Pool? == pool;
      } else if !HasName(c, pool, name) {
        assert es[0].name == name && es[0].Pool? == pool;
      }
    }
  }

  /** A configuration file that was written reads back as the same configuration exactly if all names of
      pools and file systems survive the escaping. */
  lemma FileRoundTripIff(file: string, header: string, c: Config)
    requires Written(file, header, c) && IsComment(header) && Writable(c)
    ensures Parse(file) == Some(c) <==> NamesSurvive(c)
  {
    var es: seq<Entry> :| Enumerates(es, c) && file == Print(header, es);
    EntriesWritable(es, c);
    ReadAfterWriteIff(header, es);
    NamesSurviveIff(es, c);
  }

  lemma EntriesWritable(es: seq<Entry>, c: Config)
    requires Enumerates(es, c) && Writable(c)
    ensures AllWritable(es)
  {
    forall i | 0 <= i < |es| ensures WritableEntry(es[i]) {
      assert EntryOf(es[i], c);
      if es[i].Pool? {
        forall k | 0 <= k < |es[i].tapes| ensures Plain(es[i].tapes[k]) { assert es[i].tapes[k] in SetOf(es[i].tapes); }
      }
    }
  }

  lemma NamesSurviveIff(es: seq<Entry>, c: Config)
    requires Enumerates(es, c)
    ensures NamesSurvive(c) <==> forall i :: 0 <= i < |es| ==> Survives(es[i])
  {
    if forall i :: 0 <= i < |es| ==> Survives(es[i]) {
      forall p | p in c.pools ensures RoundTrips(CONFIG_CODES, p) {
        NameListed(es, EMPTY, true, p);
      }
      forall t | t in c.fss ensures RoundTrips(CONFIG_CODES, t) {
        NameListed(es, EMPTY, false, t);
      }
    } else {
      var i :| 0 <= i < |es| && !Survives(es[i]);
      assert EntryOf(es[i], c);
    }
  }
}
