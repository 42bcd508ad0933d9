/** Reading an extracted archive back into a catalogue of its items. */
module ArchiveParser {
  import opened Options
  import opened ArchivePaths

  // ----- The file system -----

  datatype Entry = Entry(name: string, isDir: bool)

  function ChildrenOf(files: set<seq<string>>, dir: seq<string>): set<Entry> {
    set f | f in files && dir < f :: Entry(f[|dir|], |f| > |dir| + 1)
  }

  /** A directory holds the files directly below it, and a directory for each name that further files go through. */
  lemma WhatADirectoryHolds(files: set<seq<string>>, dir: seq<string>, name: string)
    ensures Entry(name, false) in ChildrenOf(files, dir) <==> dir + [name] in files
    ensures Entry(name, true) in ChildrenOf(files, dir) <==> exists f :: f in files && dir + [name] < f
  {
    forall f | f in files && dir < f && f[|dir|] == name
      ensures if |f| == |dir| + 1 then f == dir + [name] else dir + [name] < f
    {
    }
    if dir + [name] in files {
      assert dir < dir + [name] && (dir + [name])[|dir|] == name;
    }
    if f :| f in files && dir + [name] < f {
      assert dir < f && f[|dir|] == name;
    }
  }

  ghost predicate NoRepeats<T>(s: seq<T>) {
    forall i, j | 0 <= i < j < |s| :: s[i] != s[j]
  }

  method DirExists(files: set<seq<string>>, dir: seq<string>) returns (r: bool)
    ensures r <==> ChildrenOf(files, dir) != {}
  {
    r := ChildrenOf(files, dir) != {};
  }

  /** The entries of a directory, each once. */
  method ReadDir(files: set<seq<string>>, dir: seq<string>) returns (r: seq<Entry>)
    ensures NoRepeats(r) && forall e :: e in r <==> e in ChildrenOf(files, dir)
  {
    r := [];
    var left := ChildrenOf(files, dir);
    while left != {}
      invariant left <= ChildrenOf(files, dir) && NoRepeats(r)
      invariant forall e | e in r :: e !in left
      invariant forall e :: e in ChildrenOf(files, dir) <==> e in r || e in left
      decreases left
    {
      var e :| e in left;
      r := r + [e];
      left := left - {e};
    }
  }

  // ----- The catalogue -----

  function TrimSuffix(s: string): string {
    if |s| >= |EXTENSION| && s[|s| - |EXTENSION|..] == EXTENSION then s[..|s| - |EXTENSION|] else s
  }

  /** The extension is taken off where there is one, and nothing else is. */
  lemma WhatIsTrimmed(s: string)
    ensures TrimSuffix(s + ".json") == s
    ensures TrimSuffix(s) == s || TrimSuffix(s) + ".json" == s
    ensures TrimSuffix(s) == s <==> forall t :: s != t + ".json"
  {
    assert (s + ".json")[|s|..] == ".json" && (s + ".json")[..|s|] == s;
    if TrimSuffix(s) != s {
      assert s == TrimSuffix(s) + ".json";
    }
    forall t | s == t + ".json"
      ensures TrimSuffix(s) == t
    {
      assert s[|t|..] == ".json" && s[..|t|] == t;
    }
  }

  function Trimmed(names: seq<string>): (r: seq<string>)
    ensures |r| == |names| && forall k | 0 <= k < |r| :: r[k] == TrimSuffix(names[k])
  {
    seq(|names|, k requires 0 <= k < |names| => TrimSuffix(names[k]))
  }

  /** `items` are the files of `dir`, each once, without the extension. */
  ghost predicate Lists(files: set<seq<string>>, dir: seq<string>, items: seq<string>) {
    exists names :: NoRepeats(names) && items == Trimmed(names)
                    && forall x :: x in names <==> Entry(x, false) in ChildrenOf(files, dir)
  }

  function ScopePath(groupResource: string, namespace: string): seq<string> {
    if namespace == "" then [RESOURCES_DIR, groupResource, CLUSTER_SCOPED_DIR]
    else [RESOURCES_DIR, groupResource, NAMESPACE_SCOPED_DIR, namespace]
  }

  type ItemsByNamespace = map<string, seq<string>>

  /** Namespace `n` is listed exactly if it holds files, and then with all of them. */
  ghost predicate ListsScope(files: set<seq<string>>, groupResource: string, n: string, items: ItemsByNamespace) {
    && (n in items ==> items[n] != [] && Lists(files, ScopePath(groupResource, n), items[n]))
    && (n !in items ==> Lists(files, ScopePath(groupResource, n), []))
  }

  ghost predicate ListsResource(files: set<seq<string>>, groupResource: string, items: ItemsByNamespace) {
    forall n :: ListsScope(files, groupResource, n, items)
  }

  ghost predicate Catalogues(files: set<seq<string>>, resources: map<string, ItemsByNamespace>) {
    && (forall g :: g in resources <==> Entry(g, true) in ChildrenOf(files, [RESOURCES_DIR]))
    && forall g | g in resources :: ListsResource(files, g, resources[g])
  }

  // ----- The parser -----

  method GetResourceItemsForScope(files: set<seq<string>>, dir: seq<string>) returns (items: seq<string>)
    ensures Lists(files, dir, items)
  {
    items := [];
    ghost var names := [];
    var entries := ReadDir(files, dir);
    for i := 0 to |entries|
      invariant NoRepeats(names) && items == Trimmed(names)
      invariant forall x :: x in names <==> Entry(x, false) in entries[..i]
    {
      assert entries[..i + 1] == entries[..i] + [entries[i]];
      if entries[i].isDir {
        continue;
      }
      assert entries[i] !in entries[..i];
      items := items + [TrimSuffix(entries[i].name)];
      names := names + [entries[i].name];
    }
    assert entries[..|entries|] == entries;
  }

  /** No file or directory has an empty name. */
  ghost predicate NamesGiven(files: set<seq<string>>) {
    forall f | f in files :: forall s | s in f :: s != ""
  }

  lemma EmptyDirListsNothing(files: set<seq<string>>, dir: seq<string>)
    requires ChildrenOf(files, dir) == {}
    ensures Lists(files, dir, [])
  {
    assert Trimmed([]) == [];
  }

  lemma OnlyDirectoriesHaveChildren(files: set<seq<string>>, dir: seq<string>, name: string)
    ensures ChildrenOf(files, dir + [name]) != {} ==> Entry(name, true) in ChildrenOf(files, dir)
  {
    if ChildrenOf(files, dir + [name]) != {} {
      var e :| e in ChildrenOf(files, dir + [name]);
      var f :| f in files && dir + [name] < f && e == Entry(f[|dir| + 1], |f| > |dir| + 2);
      assert dir < f && f[|dir|] == name;
    }
  }

  lemma ChildrenAreNamed(files: set<seq<string>>, dir: seq<string>)
    requires NamesGiven(files)
    ensures forall e | e in ChildrenOf(files, dir) :: e.name != ""
  {
    forall e | e in ChildrenOf(files, dir)
      ensures e.name != ""
    {
      var f :| f in files && dir < f && e == Entry(f[|dir|], |f| > |dir| + 1);
      assert f[|dir|] in f;
    }
  }

  /** What is listed of a resource when the namespaces in `seen` were read. */
  ghost predicate ListsSeen(files: set<seq<string>>, groupResource: string, seen: seq<Entry>, items: ItemsByNamespace) {
    && ListsScope(files, groupResource, "", items)
    && forall n | n != "" :: ListsIfSeen(files, groupResource, seen, n, items)
  }

  ghost predicate ListsIfSeen(files: set<seq<string>>, groupResource: string, seen: seq<Entry>, n: string,
                              items: ItemsByNamespace) {
    if Entry(n, true) in seen then ListsScope(files, groupResource, n, items) else n !in items
  }

  lemma AllSeen(files: set<seq<string>>, groupResource: string, seen: seq<Entry>, items: ItemsByNamespace)
    requires ListsSeen(files, groupResource, seen, items)
    requires forall e :: e in seen <==> e in ChildrenOf(files, [RESOURCES_DIR, groupResource, NAMESPACE_SCOPED_DIR])
    ensures ListsResource(files, groupResource, items)
  {
    var dir := [RESOURCES_DIR, groupResource, NAMESPACE_SCOPED_DIR];
    forall n
      ensures ListsScope(files, groupResource, n, items)
    {
      if n != "" {
        assert ListsIfSeen(files, groupResource, seen, n, items);
        if Entry(n, true) !in seen {
          OnlyDirectoriesHaveChildren(files, dir, n);
          EmptyDirListsNothing(files, dir + [n]);
          assert ScopePath(groupResource, n) == dir + [n];
        }
      }
    }
  }

  lemma OneMoreSeen(files: set<seq<string>>, groupResource: string, seen: seq<Entry>, e: Entry, items: ItemsByNamespace,
      names: seq<string>)
    requires ListsSeen(files, groupResource, seen, items) && e !in seen && e.name != ""
    requires e.isDir ==> Lists(files, ScopePath(groupResource, e.name), names)
    ensures ListsSeen(files, groupResource, seen + [e], if e.isDir && names != [] then items[e.name := names] else items)
  {
    var items' := if e.isDir && names != [] then items[e.name := names] else items;
    forall n | n != ""
      ensures ListsIfSeen(files, groupResource, seen + [e], n, items')
    {
      assert ListsIfSeen(files, groupResource, seen, n, items);
    }
    assert ListsScope(files, groupResource, "", items');
  }

  method ParseResource(files: set<seq<string>>, groupResource: string) returns (items: ItemsByNamespace)
    requires NamesGiven(files)
    ensures ListsResource(files, groupResource, items)
  {
    items := map[];
    var clusterScopedDir := [RESOURCES_DIR, groupResource, CLUSTER_SCOPED_DIR];
    var exist := DirExists(files, clusterScopedDir);
    if exist {
      var names := GetResourceItemsForScope(files, clusterScopedDir);
      if |names| > 0 {
        items := items["" := names];
      }
    } else {
      EmptyDirListsNothing(files, clusterScopedDir);
    }
    assert ListsScope(files, groupResource, "", items);
    var namespaceScopedDir := [RESOURCES_DIR, groupResource, NAMESPACE_SCOPED_DIR];
    exist := DirExists(files, namespaceScopedDir);
    var entries := [];
    if exist {
      entries := ReadDir(files, namespaceScopedDir);
    }
    ChildrenAreNamed(files, namespaceScopedDir);
    for i := 0 to |entries|
      invariant ListsSeen(files, groupResource, entries[..i], items)
    {
      var e := entries[i];
      assert entries[..i + 1] == entries[..i] + [e];
      assert e in entries && e !in entries[..i];
      if !e.isDir {
        OneMoreSeen(files, groupResource, entries[..i], e, items, []);
        continue;
      }
      assert ScopePath(groupResource, e.name) == namespaceScopedDir + [e.name];
      var names := GetResourceItemsForScope(files, namespaceScopedDir + [e.name]);
      OneMoreSeen(files, groupResource, entries[..i], e, items, names);
      if |names| > 0 {
        items := items[e.name := names];
      }
    }
    assert entries[..|entries|] == entries;
    AllSeen(files, groupResource, entries, items);
  }

  /** The catalogue of everything below the resources directory, None if there is no such directory. */
  method Parse(files: set<seq<string>>) returns (r: Option<map<string, ItemsByNamespace>>)
    requires NamesGiven(files)
    ensures r.Some? <==> ChildrenOf(files, [RESOURCES_DIR]) != {}
    ensures r.Some? ==> Catalogues(files, r.value)
  {
    var exist := DirExists(files, [RESOURCES_DIR]);
    if !exist {
      return None;
    }
    var entries := ReadDir(files, [RESOURCES_DIR]);
    var resources := map[];
    for i := 0 to |entries|
      invariant forall g :: g in resources <==> Entry(g, true) in entries[..i]
      invariant forall g | g in resources :: ListsResource(files, g, resources[g])
    {
      assert entries[..i + 1] == entries[..i] + [entries[i]];
      if !entries[i].isDir {
        continue;
      }
      var items := ParseResource(files, entries[i].name);
      resources := resources[entries[i].name := items];
    }
    assert entries[..|entries|] == entries;
    return Some(resources);
  }
}
