/** Where an item is stored in a backup archive, and why that is always inside the archive. */
module ArchivePaths {
  import opened Options

  const RESOURCES_DIR := "resources"
  const CLUSTER_SCOPED_DIR := "cluster"
  const NAMESPACE_SCOPED_DIR := "namespaces"
  const EXTENSION := ".json"

  /** A cleaned path: its segments, from the root or from the current directory. */
  datatype Path = Path(absolute: bool, segs: seq<string>)

  // ----- The path library -----

  function Split(s: string): (r: seq<string>)
    ensures r != [] && forall x | x in r :: '/' !in x
  {
    if s == "" then [""]
    else
      var rest := Split(s[1..]);
      if s[0] == '/' then [""] + rest else [[s[0]] + rest[0]] + rest[1..]
  }

  /** The segments with slashes between them. */
  function Glued(parts: seq<string>): string {
    if parts == [] then "" else if |parts| == 1 then parts[0] else parts[0] + "/" + Glued(parts[1..])
  }

  /** Splitting loses nothing: it cuts at the slashes, at all of them and nowhere else. */
  lemma {:induction false} SplitGluesBack(s: string)
    ensures Glued(Split(s)) == s
  {
    if s != "" {
      var rest := Split(s[1..]);
      SplitGluesBack(s[1..]);
      assert s == [s[0]] + s[1..];
      if s[0] == '/' {
        assert ([""] + rest)[1..] == rest;
      } else {
        var r := [[s[0]] + rest[0]] + rest[1..];
        assert r[1..] == rest[1..];
        if |rest| > 1 {
          assert [s[0]] + (rest[0] + "/" + Glued(rest[1..])) == ([s[0]] + rest[0]) + "/" + Glued(rest[1..]);
        }
      }
    }
  }

  function Clean(absolute: bool, stack: seq<string>, parts: seq<string>): seq<string>
    decreases |parts|
  {
    if parts == [] then stack
    else if parts[0] == "" || parts[0] == "." then Clean(absolute, stack, parts[1..])
    else if parts[0] != ".." then Clean(absolute, stack + [parts[0]], parts[1..])
    else if stack != [] && stack[|stack| - 1] != ".." then Clean(absolute, stack[..|stack| - 1], parts[1..])
    else if absolute then Clean(absolute, stack, parts[1..])
    else Clean(absolute, stack + [".."], parts[1..])
  }

  function SplitAll(elems: seq<string>): seq<string> {
    if elems == [] then [] else Split(elems[0]) + SplitAll(elems[1..])
  }

  function Join(elems: seq<string>): Path {
    if elems == [] then Path(false, [])
    else if elems[0] == "" then Join(elems[1..])
    else
      var absolute := elems[0][0] == '/';
      Path(absolute, Clean(absolute, [], SplitAll(elems)))
  }

  /** The way from `base` to `targ`; None if it would have to descend from an unknown directory. */
  function Rel(base: seq<string>, targ: seq<string>): Option<seq<string>> {
    if base == [] then Some(targ)
    else if targ != [] && base[0] == targ[0] then Rel(base[1..], targ[1..])
    else if base[0] == ".." then None
    else Some(seq(|base|, _ => "..") + targ)
  }

  // ----- Item paths -----

  function GetScopeDir(namespace: string): string {
    if namespace == "" then CLUSTER_SCOPED_DIR else NAMESPACE_SCOPED_DIR
  }

  function Below(groupResource: string, namespace: string, name: string, versionPath: string): seq<string> {
    [RESOURCES_DIR, groupResource, versionPath, GetScopeDir(namespace), namespace, name + EXTENSION]
  }

  function Joined(rootDir: string, groupResource: string, namespace: string, name: string, versionPath: string): Path {
    Join([rootDir] + Below(groupResource, namespace, name, versionPath))
  }

  function GetVersionedItemFilePath(rootDir: string, groupResource: string, namespace: string, name: string,
                                    versionPath: string): Option<Path>
  {
    var path := Joined(rootDir, groupResource, namespace, name, versionPath);
    match Rel(Join([rootDir]).segs, path.segs)
    case None => None
    case Some(rel) => if rel != [] && rel[0] == ".." then None else Some(path)
  }

  // ----- Nothing escapes -----

  ghost predicate IsPlain(s: string) {
    s != "" && s != "." && s != ".." && '/' !in s
  }

  /** Only the leading segments climb, and none does from the root. */
  ghost predicate IsClean(absolute: bool, segs: seq<string>) {
    && (forall s | s in segs :: s == ".." || IsPlain(s))
    && (forall i | 0 <= i < |segs| && segs[i] == ".." :: !absolute && forall j | 0 <= j < i :: segs[j] == "..")
  }

  lemma {:induction false} CleanIsClean(absolute: bool, stack: seq<string>, parts: seq<string>)
    requires IsClean(absolute, stack) && forall s | s in parts :: '/' !in s
    ensures IsClean(absolute, Clean(absolute, stack, parts))
    decreases |parts|
  {
    if parts != [] {
      if parts[0] == "" || parts[0] == "." {
        CleanIsClean(absolute, stack, parts[1..]);
      } else if parts[0] != ".." {
        CleanIsClean(absolute, stack + [parts[0]], parts[1..]);
      } else if stack != [] && stack[|stack| - 1] != ".." {
        CleanIsClean(absolute, stack[..|stack| - 1], parts[1..]);
      } else if absolute {
        CleanIsClean(absolute, stack, parts[1..]);
      } else {
        CleanIsClean(absolute, stack + [".."], parts[1..]);
      }
    }
  }

  lemma {:induction false} SplitAllSegments(elems: seq<string>)
    ensures forall s | s in SplitAll(elems) :: '/' !in s
  {
    if elems != [] {
      SplitAllSegments(elems[1..]);
    }
  }

  lemma {:induction false} JoinIsClean(elems: seq<string>)
    ensures IsClean(Join(elems).absolute, Join(elems).segs)
  {
    if elems != [] {
      if elems[0] == "" {
        JoinIsClean(elems[1..]);
      } else {
        SplitAllSegments(elems);
        CleanIsClean(elems[0][0] == '/', [], SplitAll(elems));
      }
    }
  }

  /** `path` leads from `base` downwards only. */
  ghost predicate Inside(base: seq<string>, path: seq<string>) {
    base <= path && forall s | s in path[|base|..] :: IsPlain(s)
  }

  lemma {:induction false} RelDescends(base: seq<string>, targ: seq<string>)
    ensures base <= targ ==> Rel(base, targ) == Some(targ[|base|..])
    ensures !(base <= targ) && Rel(base, targ).Some? ==> Rel(base, targ).value != [] && Rel(base, targ).value[0] == ".."
  {
    if base != [] && targ != [] && base[0] == targ[0] {
      RelDescends(base[1..], targ[1..]);
      assert base <= targ <==> base[1..] <= targ[1..] by {
        assert base == [base[0]] + base[1..] && targ == [targ[0]] + targ[1..];
      }
    }
  }

  lemma {:induction false} CleanAppends(absolute: bool, stack: seq<string>, some: seq<string>, rest: seq<string>)
    ensures Clean(absolute, stack, some + rest) == Clean(absolute, Clean(absolute, stack, some), rest)
    decreases |some|
  {
    if some == [] {
      assert some + rest == rest;
    } else {
      assert (some + rest)[1..] == some[1..] + rest;
      if some[0] == "" || some[0] == "." {
        CleanAppends(absolute, stack, some[1..], rest);
      } else if some[0] != ".." {
        CleanAppends(absolute, stack + [some[0]], some[1..], rest);
      } else if stack != [] && stack[|stack| - 1] != ".." {
        CleanAppends(absolute, stack[..|stack| - 1], some[1..], rest);
      } else if absolute {
        CleanAppends(absolute, stack, some[1..], rest);
      } else {
        CleanAppends(absolute, stack + [".."], some[1..], rest);
      }
    }
  }

  // ----- Cleaning keeps the meaning of a path -----

  lemma CleanInside(absolute: bool, some: seq<string>, mid: seq<string>, rest: seq<string>)
    requires Clean(absolute, Clean(absolute, [], some), mid) == Clean(absolute, [], some)
    ensures Clean(absolute, [], some + mid + rest) == Clean(absolute, [], some + rest)
  {
    CleanAppends(absolute, [], some, rest);
    CleanAppends(absolute, [], some + mid, rest);
    CleanAppends(absolute, [], some, mid);
  }

  /** Empty segments and the current directory do not matter. */
  lemma StayingIsNothing(absolute: bool, some: seq<string>, here: string, rest: seq<string>)
    requires here == "" || here == "."
    ensures Clean(absolute, [], some + [here] + rest) == Clean(absolute, [], some + rest)
  {
    CleanInside(absolute, some, [here], rest);
  }

  /** Neither does descending and climbing back. */
  lemma DownAndUpIsNothing(absolute: bool, some: seq<string>, down: string, rest: seq<string>)
    requires IsPlain(down)
    ensures Clean(absolute, [], some + [down, ".."] + rest) == Clean(absolute, [], some + rest)
  {
    var at := Clean(absolute, [], some);
    assert [down, ".."][1..] == [".."] && [".."][1..] == [];
    assert (at + [down])[..|at|] == at;
    assert Clean(absolute, at, [down, ".."]) == Clean(absolute, at + [down], [".."]);
    CleanInside(absolute, some, [down, ".."], rest);
  }

  /** Above the root there is only the root. */
  lemma AboveTheRootIsTheRoot(rest: seq<string>)
    ensures Clean(true, [], [".."] + rest) == Clean(true, [], rest)
  {
    assert ([".."] + rest)[1..] == rest;
  }

  /** A clean path is left as it is. */
  lemma {:induction false} CleanStaysClean(absolute: bool, segs: seq<string>)
    requires IsClean(absolute, segs)
    ensures Clean(absolute, [], segs) == segs
  {
    if segs != [] {
      var front, last := segs[..|segs| - 1], segs[|segs| - 1];
      assert segs == front + [last];
      forall i | 0 <= i < |front|
        ensures front[i] == segs[i] && front[i] in segs
      {
      }
      assert last in segs;
      CleanStaysClean(absolute, front);
      CleanAppends(absolute, [], front, [last]);
    }
  }

  /** A path is cleaned from the cleaned root on. */
  lemma JoinFromRoot(rootDir: string, elems: seq<string>)
    requires elems != [] && elems[0] == RESOURCES_DIR
    ensures Join([rootDir] + elems).absolute == Join([rootDir]).absolute
    ensures Join([rootDir] + elems).segs == Clean(Join([rootDir]).absolute, Join([rootDir]).segs, SplitAll(elems))
  {
    if rootDir == "" {
      assert ([rootDir] + elems)[1..] == elems && [rootDir][1..] == [];
    } else {
      SplitRoot(rootDir, elems);
      CleanAppends(rootDir[0] == '/', [], Split(rootDir), SplitAll(elems));
    }
  }

  lemma SplitRoot(rootDir: string, elems: seq<string>)
    ensures SplitAll([rootDir] + elems) == Split(rootDir) + SplitAll(elems)
    ensures SplitAll([rootDir]) == Split(rootDir)
  {
    assert ([rootDir] + elems)[1..] == elems;
    assert [rootDir][1..] == [];
  }

  /** Whatever the components hold: there is a path exactly if it stays inside the root directory. */
  lemma PathStaysInside(rootDir: string, groupResource: string, namespace: string, name: string, versionPath: string)
    ensures
      var path := Joined(rootDir, groupResource, namespace, name, versionPath);
      var base := Join([rootDir]);
      && path.absolute == base.absolute
      && GetVersionedItemFilePath(rootDir, groupResource, namespace, name, versionPath)
         == if Inside(base.segs, path.segs) then Some(path) else None
  {
    var below := Below(groupResource, namespace, name, versionPath);
    var elems := [rootDir] + below;
    var path, base := Join(elems), Join([rootDir]);
    JoinFromRoot(rootDir, below);
    JoinIsClean(elems);
    JoinIsClean([rootDir]);
    RelDescends(base.segs, path.segs);
    if base.segs <= path.segs {
      var rest := path.segs[|base.segs|..];
      if rest != [] && rest[0] == ".." {
        assert rest[0] in rest && !IsPlain(rest[0]);
      } else {
        forall i | 0 <= i < |rest|
          ensures IsPlain(rest[i])
        {
          assert rest[i] == path.segs[|base.segs| + i];
          assert rest[0] == path.segs[|base.segs|];
        }
      }
    }
  }

  // ----- Where the path leads -----

  lemma {:induction false} SplitPlain(s: string)
    requires '/' !in s
    ensures Split(s) == [s]
  {
    if s != "" {
      SplitPlain(s[1..]);
      assert s == [s[0]] + s[1..];
    }
  }

  function WithoutEmpty(parts: seq<string>): seq<string> {
    if parts == [] then []
    else if parts[0] == "" then WithoutEmpty(parts[1..])
    else [parts[0]] + WithoutEmpty(parts[1..])
  }

  lemma {:induction false} PlainElements(absolute: bool, stack: seq<string>, elems: seq<string>)
    requires forall s | s in elems :: s == "" || IsPlain(s)
    ensures Clean(absolute, stack, SplitAll(elems)) == stack + WithoutEmpty(elems)
    decreases |elems|
  {
    if elems != [] {
      var first, rest := elems[0], elems[1..];
      assert first in elems;
      SplitPlain(first);
      CleanAppends(absolute, stack, [first], SplitAll(rest));
      PlainElements(absolute, if first == "" then stack else stack + [first], rest);
    }
  }

  /** An item of an archive; no version for the copy kept for its preferred version, no namespace at cluster scope. */
  datatype Item = Item(groupResource: string, version: string, namespace: string, name: string)

  ghost predicate WellNamed(i: Item) {
    && IsPlain(i.groupResource) && (i.version == "" || IsPlain(i.version))
    && (i.namespace == "" || IsPlain(i.namespace)) && '/' !in i.name
  }

  function Given(s: string): seq<string> {
    if s == "" then [] else [s]
  }

  /** Where the item lies below the archive's root. */
  function Place(i: Item): seq<string> {
    [RESOURCES_DIR, i.groupResource] + Given(i.version) + [GetScopeDir(i.namespace)] + Given(i.namespace)
    + [i.name + EXTENSION]
  }

  /** The layout of an archive, spelled out. */
  lemma PlacesSpelledOut(groupResource: string, version: string, namespace: string, name: string)
    requires version != "" && namespace != ""
    ensures Place(Item(groupResource, "", "", name)) == ["resources", groupResource, "cluster", name + ".json"]
    ensures Place(Item(groupResource, version, "", name)) ==
            ["resources", groupResource, version, "cluster", name + ".json"]
    ensures Place(Item(groupResource, "", namespace, name)) ==
            ["resources", groupResource, "namespaces", namespace, name + ".json"]
    ensures Place(Item(groupResource, version, namespace, name)) ==
            ["resources", groupResource, version, "namespaces", namespace, name + ".json"]
  {
  }

  lemma WellNamedItemHasPath(rootDir: string, i: Item)
    requires WellNamed(i)
    ensures GetVersionedItemFilePath(rootDir, i.groupResource, i.namespace, i.name, i.version)
            == Some(Path(Join([rootDir]).absolute, Join([rootDir]).segs + Place(i)))
  {
    var below := Below(i.groupResource, i.namespace, i.name, i.version);
    var base := Join([rootDir]);
    var path := Joined(rootDir, i.groupResource, i.namespace, i.name, i.version);
    BelowIsPlain(i);
    PlaceDropsEmpty(i);
    JoinFromRoot(rootDir, below);
    PlainElements(base.absolute, base.segs, below);
    PathStaysInside(rootDir, i.groupResource, i.namespace, i.name, i.version);
    assert path.segs[|base.segs|..] == Place(i);
    assert Inside(base.segs, path.segs);
  }

  lemma FileNameIsPlain(name: string)
    requires '/' !in name
    ensures IsPlain(name + EXTENSION)
  {
    var file := name + EXTENSION;
    assert |file| >= 5 && file[|file| - 1] == 'n';
  }

  lemma OneMoreElement(s: string, rest: seq<string>)
    ensures WithoutEmpty([s] + rest) == Given(s) + WithoutEmpty(rest)
  {
    assert ([s] + rest)[1..] == rest;
  }

  lemma ScopeIsPlain(namespace: string)
    ensures IsPlain(GetScopeDir(namespace)) && IsPlain(RESOURCES_DIR)
  {
  }

  lemma BelowIsPlain(i: Item)
    requires WellNamed(i)
    ensures forall s | s in Below(i.groupResource, i.namespace, i.name, i.version) :: s == "" || IsPlain(s)
    ensures forall s | s in Place(i) :: IsPlain(s)
  {
    FileNameIsPlain(i.name);
    ScopeIsPlain(i.namespace);
    var file := i.name + EXTENSION;
    var scope, resources := GetScopeDir(i.namespace), RESOURCES_DIR;
    assert Below(i.groupResource, i.namespace, i.name, i.version)
        == [resources, i.groupResource, i.version, scope, i.namespace, file];
  }

  lemma PlaceDropsEmpty(i: Item)
    requires WellNamed(i)
    ensures WithoutEmpty(Below(i.groupResource, i.namespace, i.name, i.version)) == Place(i)
  {
    ScopeIsPlain(i.namespace);
    FileNameIsPlain(i.name);
    SixElements(RESOURCES_DIR, i.groupResource, i.version, GetScopeDir(i.namespace), i.namespace, i.name + EXTENSION);
  }

  lemma SixElements(a: string, b: string, c: string, d: string, e: string, f: string)
    requires a != "" && b != "" && d != "" && f != ""
    ensures WithoutEmpty([a, b, c, d, e, f]) == [a, b] + Given(c) + [d] + Given(e) + [f]
  {
    var f', d' := [f], [d, e, f];
    assert f' == [f] + [] && d' == [d] + ([e] + f');
    OneMoreElement(f, []);
    OneMoreElement(e, f');
    OneMoreElement(d, [e] + f');
    ThreeElements(a, b, c, d');
    assert [a, b, c, d, e, f] == [a, b, c] + d';
  }

  lemma ThreeElements(a: string, b: string, c: string, rest: seq<string>)
    requires a != "" && b != ""
    ensures WithoutEmpty([a, b, c] + rest) == [a, b] + Given(c) + WithoutEmpty(rest)
  {
    var c', b' := [c] + rest, [b, c] + rest;
    assert b' == [b] + c' && [a, b, c] + rest == [a] + b';
    OneMoreElement(c, rest);
    OneMoreElement(b, c');
    OneMoreElement(a, b');
  }
}
