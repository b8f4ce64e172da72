/**
  Symbolic links on tape.  Next to the data files, which all lie in one
  directory, the original path of each file is rebuilt on the tape with a link
  that leads from there to the data file by a relative path.
 */
module TapeLinks {
  import opened Text

  // ---------------------------------------------------------------- paths

  /** A component of a canonical path */
  predicate IsName(s: string) { s != "" && '/' !in s && s != "." && s != ".." }

  predicate AreNames(names: seq<string>) { forall i :: 0 <= i < |names| ==> IsName(names[i]) }

  function PathOf(names: seq<string>): string {
    if names == [] then "" else "/" + names[0] + PathOf(names[1..])
  }

  /** Following a relative path from a directory, component by component */
  function Follow(dir: seq<string>, parts: seq<string>): seq<string>
    decreases |parts|
  {
    if parts == [] then dir
    else if parts[0] == "." || parts[0] == "" then Follow(dir, parts[1..])
    else if parts[0] == ".." then Follow(if dir == [] then [] else dir[..|dir| - 1], parts[1..])
    else Follow(dir + [parts[0]], parts[1..])
  }

  function Resolve(dir: seq<string>, relPath: string): seq<string> { Follow(dir, Split(relPath, '/')) }

  function Ups(n: nat): string {
    if n == 0 then "" else "../" + Ups(n - 1)
  }

  // ---------------------------------------------------------------- resolving what createLink builds

  lemma {:induction false} UpsSnoc(n: nat)
    ensures Ups(n + 1) == Ups(n) + "../"
  {
    if n > 0 {
      UpsSnoc(n - 1);
    } else {
      assert Ups(0) == "";
    }
  }

  lemma AreNamesRest(names: seq<string>)
    requires names != [] && AreNames(names)
    ensures IsName(names[0]) && AreNames(names[1..])
  {
    assert forall i :: 0 <= i < |names[1..]| ==> names[1..][i] == names[i + 1];
  }

  lemma {:induction false} SplitNames(names: seq<string>)
    requires names != [] && AreNames(names)
    ensures Split(PathOf(names)[1..], '/') == names
  {
    var first, rest := names[0], names[1..];
    AreNamesRest(names);
    assert PathOf(names)[1..] == first + PathOf(rest);
    if rest == [] {
      SplitLast(first, '/');
      assert first + PathOf(rest) == first && names == [first];
    } else {
      SplitNames(rest);
      var tail := PathOf(rest)[1..];
      assert PathOf(rest) == ['/'] + tail && first + PathOf(rest) == first + ['/'] + tail;
      SplitFirst(first, '/', tail);
      assert names == [first] + rest;
    }
  }

  lemma SplitLast(a: string, d: char)
    requires d !in a && a != ""
    ensures Split(a, d) == [a]
  {
    assert Find(a, d) == |a|;
  }

  lemma {:induction false} FollowNames(dir: seq<string>, names: seq<string>)
    requires AreNames(names)
    ensures Follow(dir, names) == dir + names
    decreases |names|
  {
    if names != [] {
      AreNamesRest(names);
      FollowNames(dir + [names[0]], names[1..]);
      assert dir + [names[0]] + names[1..] == dir + names;
    } else {
      assert dir + names == dir;
    }
  }

  lemma UpsHead(n: nat, rest: string)
    requires n > 0
    ensures Ups(n) + rest == ".." + ['/'] + (Ups(n - 1) + rest)
  {
    var tail := Ups(n - 1);
    assert Ups(n) == "../" + tail;
    assert "../" == ".." + ['/'];
  }

  lemma FollowUp(dir: seq<string>, rest: string)
    requires dir != []
    ensures Resolve(dir, ".." + ['/'] + rest) == Resolve(dir[..|dir| - 1], rest)
  {
    SplitFirst("..", '/', rest);
    var parts := [".."] + Split(rest, '/');
    assert parts[0] == ".." && parts[1..] == Split(rest, '/');
  }

  /** Each "../" takes one component away. */
  lemma {:induction false} FollowUps(dir: seq<string>, n: nat, rest: string)
    requires n <= |dir|
    ensures Resolve(dir, Ups(n) + rest) == Resolve(dir[..|dir| - n], rest)
    decreases n
  {
    if n == 0 {
      assert Ups(0) + rest == rest && dir[..|dir|] == dir;
    } else {
      var up := dir[..|dir| - 1];
      FollowUps(up, n - 1, rest);
      FollowUp(dir, Ups(n - 1) + rest);
      UpsHead(n, rest);
      assert up[..|up| - (n - 1)] == dir[..|dir| - n];
    }
  }

  /** The target of the link, followed from the directory of the link, is the data file; for an original path
      of any depth. */
  lemma LinkResolves(root: seq<string>, orig: seq<string>, data: seq<string>)
    requires AreNames(root) && orig != [] && AreNames(orig) && data != [] && AreNames(data)
    ensures var target := Ups(|orig| - 1) + PathOf(data)[1..];
            Resolve(root + orig[..|orig| - 1], target) == root + data
  {
    var dir := root + orig[..|orig| - 1];
    FollowUps(dir, |orig| - 1, PathOf(data)[1..]);
    assert dir[..|dir| - (|orig| - 1)] == root;
    SplitNames(data);
    FollowNames(root, data);
  }

  // ---------------------------------------------------------------- the directories of the original path

  /** The directories between the root of the tape and the link, from the top down */
  function Ancestors(root: string, orig: seq<string>, n: nat): seq<string>
    requires n <= |orig|
  {
    if n == 0 then [] else Ancestors(root, orig, n - 1) + [root + PathOf(orig[..n])]
  }

  /** They are all of them, each once, and the last one is the directory of the link. */
  lemma {:induction false} AncestorsAre(root: string, orig: seq<string>, n: nat)
    requires n <= |orig|
    ensures |Ancestors(root, orig, n)| == n
    ensures forall k :: 0 <= k < n ==> Ancestors(root, orig, n)[k] == root + PathOf(orig[..k + 1])
  {
    if n > 0 { AncestorsAre(root, orig, n - 1); }
  }

  lemma {:induction false} PathAppend(a: seq<string>, b: seq<string>)
    ensures PathOf(a + b) == PathOf(a) + PathOf(b)
  {
    if a == [] {
      assert a + b == b;
    } else {
      assert (a + b)[1..] == a[1..] + b;
      PathAppend(a[1..], b);
    }
  }

  lemma PathOfOne(name: string)
    ensures PathOf([name]) == "/" + name
  {
    assert [name][1..] == [];
    assert "/" + name + PathOf([]) == "/" + name;
  }

  lemma PathSnoc(orig: seq<string>, i: nat)
    requires i < |orig|
    ensures PathOf(orig[..i + 1]) == PathOf(orig[..i]) + ("/" + orig[i])
  {
    assert orig[..i + 1] == orig[..i] + [orig[i]];
    PathAppend(orig[..i], [orig[i]]);
    PathOfOne(orig[i]);
  }

  lemma PathSplit(orig: seq<string>, i: nat)
    requires i <= |orig|
    ensures PathOf(orig) == PathOf(orig[..i]) + PathOf(orig[i..])
  {
    assert orig == orig[..i] + orig[i..];
    PathAppend(orig[..i], orig[i..]);
  }

  /** std::string::find of a slash from a position on */
  function FindSlash(s: string, pos: nat): (r: nat)
    requires pos <= |s|
    ensures pos <= r <= |s| && (r < |s| ==> s[r] == '/') && forall k :: pos <= k < r ==> s[k] != '/'
  {
    pos + Find(s[pos..], '/')
  }

  /** Where the search may start to find the end of component `i`: at its first character, or behind it. */
  predicate Inside(root: string, orig: seq<string>, i: nat, pos: nat)
    requires i < |orig|
  {
    var base := |root| + |PathOf(orig[..i])|;
    pos == base + 1 || pos == base + 2
  }

  function EndOf(root: string, orig: seq<string>, i: nat): nat
    requires i < |orig|
  {
    |root| + |PathOf(orig[..i + 1])|
  }

  /** A search that starts inside component `i` stops behind it. */
  lemma FindsNextSlash(root: string, orig: seq<string>, i: nat, pos: nat)
    requires AreNames(orig) && i < |orig| && Inside(root, orig, i, pos)
    ensures var link := root + PathOf(orig);
            && pos <= |link| && FindSlash(link, pos) == EndOf(root, orig, i)
            && link[..EndOf(root, orig, i)] == root + PathOf(orig[..i + 1])
            && (EndOf(root, orig, i) < |link| <==> i + 1 < |orig|)
  {
    var link, name, after := root + PathOf(orig), orig[i], PathOf(orig[i + 1..]);
    var before := root + PathOf(orig[..i]) + "/";
    assert IsName(name);
    PathSplit(orig, i + 1);
    PathSnoc(orig, i);
    LinkParts(root, PathOf(orig[..i]), name, after);
    assert link == before + name + after;
    NoSlashInside(before, name, after, pos);
    assert i + 1 < |orig| ==> after != "";
  }

  lemma LinkParts(root: string, head: string, name: string, after: string)
    ensures root + (head + ("/" + name) + after) == root + head + "/" + name + after
    ensures (root + head + "/" + name + after)[..|root| + |head| + 1 + |name|] == root + (head + ("/" + name))
  {
  }

  lemma NoSlashInside(before: string, name: string, after: string, pos: nat)
    requires '/' !in name && name != "" && (pos == |before| || pos == |before| + 1) && (after == "" || after[0] == '/')
    ensures var s := before + name + after;
            pos <= |s| && FindSlash(s, pos) == |before| + |name|
  {
    var s, stop := before + name + after, |before| + |name|;
    forall k | pos <= k < stop ensures s[k] != '/' {
      assert s[k] == name[k - |before|] && name[k - |before|] in name;
    }
    assert stop < |s| ==> s[stop] == after[0];
  }

  predicate ParentOf(parent: string, path: string) {
    |parent| < |path| && path[..|parent|] == parent && path[|parent|] == '/' && '/' !in path[|parent| + 1..]
  }

  /** The part of a tape's file system that createLink works on */
  class TapeTree {
    var dirs: set<string>
    var links: map<string, string>

    constructor (root: string)
      ensures dirs == {root} && links == map[]
    {
      dirs, links := {root}, map[];
    }

    /** Server::createDir: nothing if the directory exists; mkdir needs the parent. */
    method CreateDir(parent: string, path: string)
      requires ParentOf(parent, path) && parent in dirs
      modifies `dirs
      ensures dirs == old(dirs) + {path}
    {
      if path !in dirs {
        dirs := dirs + {path};
      }
    }

    /** The loop of createLink: one directory for each slash of the original path, and one "../". */
    method MakeDirs(root: string, link: string, ghost orig: seq<string>) returns (relPath: string, ghost made: seq<string>)
      requires AreNames(orig) && orig != [] && link == root + PathOf(orig) && root in dirs
      modifies `dirs
      ensures made == Ancestors(root, orig, |orig| - 1) && relPath == Ups(|orig| - 1)
      ensures dirs == old(dirs) + SetOf(made)
    {
      relPath, made := "", [];
      var pos: nat := |root| + 2;
      var parent := root;
      ghost var i := 0;
      Start(root, orig);
      var next: nat := FindSlash(link, pos);
      while next < |link|
        invariant Progress(root, link, orig, i, next, parent, made, relPath)
        invariant parent in dirs && dirs == old(dirs) + SetOf(made)
        decreases |orig| - i
      {
        Advance(root, orig, i);
        var subs := link[..next];
        CreateDir(parent, subs);
        ghost var before := made;
        made := before + [subs];
        SetOfSnoc(before, subs);
        pos := next + 1;
        next := FindSlash(link, pos);
        parent := subs;
        relPath := relPath + "../";
        UpsSnoc(i);
        i := i + 1;
      }
      FindsNextSlash(root, orig, i, |root| + |PathOf(orig[..i])| + 1);
    }

    /** Server::createLink: the link is made once all its ancestors exist. */
    method CreateLink(root: string, origPath: string, dataPath: string, ghost orig: seq<string>, ghost data: seq<string>)
      returns (ghost made: seq<string>)
      requires AreNames(orig) && orig != [] && origPath == PathOf(orig)
      requires AreNames(data) && data != [] && dataPath == root + PathOf(data)
      requires root in dirs
      modifies this
      ensures made == Ancestors(root, orig, |orig| - 1)
      ensures dirs == old(dirs) + SetOf(made)
      ensures links == old(links)[root + origPath := Ups(|orig| - 1) + PathOf(data)[1..]]
    {
      var link, relPath := root + origPath, "";
      relPath, made := MakeDirs(root, link, orig);
      DataSubPath(root, data);
      relPath := relPath + dataPath[|root| + 1..];
      links := links[link := relPath];
    }
  }

  /** The first `i` ancestors have been made. */
  predicate Progress(root: string, link: string, orig: seq<string>, i: nat, next: nat, parent: string,
                     made: seq<string>, relPath: string)
  {
    && i < |orig| && next == EndOf(root, orig, i) && next <= |link|
    && parent == root + PathOf(orig[..i])
    && made == Ancestors(root, orig, i)
    && relPath == Ups(i)
  }

  lemma Start(root: string, orig: seq<string>)
    requires AreNames(orig) && orig != []
    ensures |root| + 2 <= |root + PathOf(orig)|
    ensures Progress(root, root + PathOf(orig), orig, 0, FindSlash(root + PathOf(orig), |root| + 2), root, [], "")
  {
    assert PathOf(orig[..0]) == "" && root + "" == root;
    FindsNextSlash(root, orig, 0, |root| + 2);
  }

  lemma DataSubPath(root: string, data: seq<string>)
    requires data != []
    ensures (root + PathOf(data))[|root| + 1..] == PathOf(data)[1..]
  {
  }

  function SetOf(paths: seq<string>): set<string> { set p | p in paths }

  lemma SetOfSnoc(paths: seq<string>, p: string)
    ensures SetOf(paths + [p]) == SetOf(paths) + {p}
  {
  }

  /** One round of the loop: the search has stopped behind component `i`, which is not the last. */
  lemma Advance(root: string, orig: seq<string>, i: nat)
    requires AreNames(orig) && i < |orig| && EndOf(root, orig, i) < |root + PathOf(orig)|
    ensures i + 1 < |orig| && |Ancestors(root, orig, i)| == i
    ensures var link, next := root + PathOf(orig), EndOf(root, orig, i);
            && link[..next] == root + PathOf(orig[..i + 1])
            && ParentOf(root + PathOf(orig[..i]), link[..next])
            && Ancestors(root, orig, i + 1) == Ancestors(root, orig, i) + [link[..next]]
            && next + 1 <= |link| && FindSlash(link, next + 1) == EndOf(root, orig, i + 1) <= |link|
  {
    FindsNextSlash(root, orig, i, |root| + |PathOf(orig[..i])| + 1);
    FindsNextSlash(root, orig, i + 1, EndOf(root, orig, i) + 1);
    PathSnoc(orig, i);
    AncestorsLength(root, orig, i);
    IsParent(root, PathOf(orig[..i]), orig[i]);
    assert IsName(orig[i]);
  }

  lemma IsParent(root: string, head: string, name: string)
    requires '/' !in name
    ensures ParentOf(root + head, root + (head + ("/" + name)))
  {
    var path := root + (head + ("/" + name));
    assert path[..|root + head|] == root + head && path[|root + head| + 1..] == name;
  }

  lemma {:induction false} AncestorsLength(root: string, orig: seq<string>, n: nat)
    requires n <= |orig|
    ensures |Ancestors(root, orig, n)| == n
  {
    if n > 0 { AncestorsLength(root, orig, n - 1); }
  }
}
