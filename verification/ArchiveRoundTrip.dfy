/** What is written under the item paths is what parsing the archive finds. */
module ArchiveRoundTrip {
  import opened Options
  import opened ArchivePaths
  import opened ArchiveParser

  /** The archive below the resources directory holds exactly the files of `items`. */
  ghost predicate Holds(files: set<seq<string>>, items: set<Item>) {
    && (forall i | i in items :: WellNamed(i))
    && (forall f :: f in files && f != [] && f[0] == RESOURCES_DIR <==> exists i :: i in items && f == Place(i))
  }

  ghost predicate Recorded(r: map<string, ItemsByNamespace>, groupResource: string, namespace: string, name: string) {
    groupResource in r && namespace in r[groupResource] && name in r[groupResource][namespace]
  }

  /** A cluster-scoped item of an API version called "namespaces" is stored where one of namespace "cluster" would be. */
  ghost predicate Mistakable(items: set<Item>, i: Item) {
    && i in items && i.version == NAMESPACE_SCOPED_DIR && i.namespace == ""
    && Item(i.groupResource, "", CLUSTER_SCOPED_DIR, i.name) !in items
  }

  /** The catalogue lists exactly the items kept without a version, under their namespaces. */
  ghost predicate ListsItems(r: map<string, ItemsByNamespace>, items: set<Item>) {
    forall g, n, name :: Recorded(r, g, n, name) <==> Item(g, "", n, name) in items
  }

  /** The files of an archive, as the path builder places them; items without a path are not written. */
  function Written(items: set<Item>): set<seq<string>> {
    set i | i in items && GetVersionedItemFilePath("", i.groupResource, i.namespace, i.name, i.version).Some?
      :: GetVersionedItemFilePath("", i.groupResource, i.namespace, i.name, i.version).value.segs
  }

  lemma WrittenArchiveHoldsItems(items: set<Item>)
    requires forall i | i in items :: WellNamed(i)
    ensures Holds(Written(items), items) && NamesGiven(Written(items))
  {
    forall i | i in items
      ensures GetVersionedItemFilePath("", i.groupResource, i.namespace, i.name, i.version) == Some(Path(false, Place(i)))
      ensures Place(i)[0] == RESOURCES_DIR && Place(i) in Written(items)
      ensures forall s | s in Place(i) :: s != ""
    {
      WellNamedItemHasPath("", i);
      assert [] + Place(i) == Place(i);
      BelowIsPlain(i);
    }
    forall f | f in Written(items)
      ensures exists i :: i in items && f == Place(i)
    {
    }
  }

  lemma SameFileSameName(a: string, b: string)
    requires a + EXTENSION == b + EXTENSION
    ensures a == b
  {
    assert a == (a + EXTENSION)[..|a|] && b == (b + EXTENSION)[..|b|];
  }

  lemma ScopeDirsDiffer()
    ensures CLUSTER_SCOPED_DIR != NAMESPACE_SCOPED_DIR && CLUSTER_SCOPED_DIR != "" && NAMESPACE_SCOPED_DIR != ""
  {
    assert |CLUSTER_SCOPED_DIR| == 7 && |NAMESPACE_SCOPED_DIR| == 10;
  }

  /** Which items have their file in the directory of namespace `n`. */
  lemma FileInScope(g: string, n: string, x: string, i: Item)
    ensures Place(i) == ScopePath(g, n) + [x]
            <==> x == i.name + EXTENSION
                 && (i == Item(g, "", n, i.name)
                     || (n == CLUSTER_SCOPED_DIR && i == Item(g, NAMESPACE_SCOPED_DIR, "", i.name)))
  {
    ScopeDirsDiffer();
    var place, path := Place(i), ScopePath(g, n) + [x];
    var file := i.name + EXTENSION;
    if i.version == "" && i.namespace == "" {
      assert place == [RESOURCES_DIR, i.groupResource, CLUSTER_SCOPED_DIR, file];
    } else if i.version == "" {
      assert place == [RESOURCES_DIR, i.groupResource, NAMESPACE_SCOPED_DIR, i.namespace, file];
    } else if i.namespace == "" {
      assert place == [RESOURCES_DIR, i.groupResource, i.version, CLUSTER_SCOPED_DIR, file];
    } else {
      assert place == [RESOURCES_DIR, i.groupResource, i.version, NAMESPACE_SCOPED_DIR, i.namespace, file];
    }
    if n == "" {
      assert path == [RESOURCES_DIR, g, CLUSTER_SCOPED_DIR, x];
    } else {
      assert path == [RESOURCES_DIR, g, NAMESPACE_SCOPED_DIR, n, x];
    }
  }

  lemma ChildFile(files: set<seq<string>>, dir: seq<string>, x: string)
    ensures Entry(x, false) in ChildrenOf(files, dir) <==> dir + [x] in files
  {
    if Entry(x, false) in ChildrenOf(files, dir) {
      var f :| f in files && dir < f && Entry(x, false) == Entry(f[|dir|], |f| > |dir| + 1);
      assert f == dir + [x];
    }
    if dir + [x] in files {
      assert dir < dir + [x];
    }
  }

  /** The items listed for namespace `n`, with those that are only mistaken for such. */
  ghost predicate FoundAt(items: set<Item>, g: string, n: string, name: string) {
    Item(g, "", n, name) in items || (n == CLUSTER_SCOPED_DIR && Item(g, NAMESPACE_SCOPED_DIR, "", name) in items)
  }

  /** The item whose file `x` lies in the directory of namespace `n`. */
  lemma FileBelongsTo(files: set<seq<string>>, items: set<Item>, g: string, n: string, x: string)
    requires Holds(files, items)
    requires Entry(x, false) in ChildrenOf(files, ScopePath(g, n))
    ensures exists name :: x == name + EXTENSION && FoundAt(items, g, n, name)
  {
    var path := ScopePath(g, n) + [x];
    ChildFile(files, ScopePath(g, n), x);
    assert path[0] == RESOURCES_DIR;
    var i :| i in items && path == Place(i);
    FileInScope(g, n, x, i);
    assert FoundAt(items, g, n, i.name);
  }

  lemma ItemHasFile(files: set<seq<string>>, items: set<Item>, g: string, n: string, name: string)
    requires Holds(files, items) && FoundAt(items, g, n, name)
    ensures Entry(name + EXTENSION, false) in ChildrenOf(files, ScopePath(g, n))
  {
    var x := name + EXTENSION;
    var i := if Item(g, "", n, name) in items then Item(g, "", n, name) else Item(g, NAMESPACE_SCOPED_DIR, "", name);
    FileInScope(g, n, x, i);
    assert i in items && ScopePath(g, n) + [x] == Place(i);
    ChildFile(files, ScopePath(g, n), x);
  }

  lemma ListedNames(files: set<seq<string>>, items: set<Item>, g: string, n: string, listed: seq<string>)
    requires Holds(files, items) && Lists(files, ScopePath(g, n), listed)
    ensures forall name :: name in listed <==> FoundAt(items, g, n, name)
    ensures NoRepeats(listed)
  {
    var names :| NoRepeats(names) && listed == Trimmed(names)
                 && forall x :: x in names <==> Entry(x, false) in ChildrenOf(files, ScopePath(g, n));
    forall k | 0 <= k < |names|
      ensures FoundAt(items, g, n, listed[k]) && names[k] == listed[k] + EXTENSION
    {
      FileBelongsTo(files, items, g, n, names[k]);
      var name :| names[k] == name + EXTENSION && FoundAt(items, g, n, name);
      WhatIsTrimmed(name);
    }
    forall name | FoundAt(items, g, n, name)
      ensures name in listed
    {
      ItemHasFile(files, items, g, n, name);
      var k :| 0 <= k < |names| && names[k] == name + EXTENSION;
      WhatIsTrimmed(name);
      assert listed[k] == name;
    }
  }

  lemma PlaceStarts(i: Item)
    ensures |Place(i)| >= 4 && Place(i)[0] == RESOURCES_DIR && Place(i)[1] == i.groupResource
  {
  }

  lemma ResourceDir(files: set<seq<string>>, g: string)
    ensures Entry(g, true) in ChildrenOf(files, [RESOURCES_DIR])
            <==> exists f :: f in files && |f| > 2 && f[0] == RESOURCES_DIR && f[1] == g
  {
    var dir := [RESOURCES_DIR];
    forall f | f in files
      ensures dir < f <==> |f| > 1 && f[0] == RESOURCES_DIR
    {
    }
    if f :| f in files && |f| > 2 && f[0] == RESOURCES_DIR && f[1] == g {
      assert dir < f;
    }
  }

  /** There is an entry for every resource, even one kept under its versions only. */
  lemma ResourcesListed(files: set<seq<string>>, items: set<Item>, r: map<string, ItemsByNamespace>, g: string)
    requires Holds(files, items) && Catalogues(files, r)
    ensures g in r <==> exists i :: i in items && i.groupResource == g
  {
    ResourceDir(files, g);
    if g in r {
      var f :| f in files && |f| > 2 && f[0] == RESOURCES_DIR && f[1] == g;
      var i :| i in items && f == Place(i);
      PlaceStarts(i);
      assert i.groupResource == g;
    }
    if i :| i in items && i.groupResource == g {
      PlaceStarts(i);
      assert Place(i) in files;
    }
  }

  lemma RecordedMeansFound(files: set<seq<string>>, items: set<Item>, r: map<string, ItemsByNamespace>,
      g: string, n: string, name: string)
    requires Holds(files, items) && Catalogues(files, r)
    ensures Recorded(r, g, n, name) <==> FoundAt(items, g, n, name)
  {
    ResourcesListed(files, items, r, g);
    if g in r {
      assert ListsScope(files, g, n, r[g]);
      ListedNames(files, items, g, n, if n in r[g] then r[g][n] else []);
    }
  }

  /** Parsing returns the unversioned items, each once, exactly if no versioned one can be mistaken for such. */
  lemma ParsingListsTheItems(files: set<seq<string>>, items: set<Item>, r: map<string, ItemsByNamespace>)
    requires Holds(files, items) && Catalogues(files, r)
    ensures ListsItems(r, items) <==> forall i :: !Mistakable(items, i)
    ensures forall g :: g in r <==> exists i :: i in items && i.groupResource == g
    ensures forall g, n | g in r && n in r[g] :: r[g][n] != [] && NoRepeats(r[g][n])
  {
    forall g, n, name
      ensures Recorded(r, g, n, name) <==> FoundAt(items, g, n, name)
    {
      RecordedMeansFound(files, items, r, g, n, name);
    }
    if i :| Mistakable(items, i) {
      assert i == Item(i.groupResource, NAMESPACE_SCOPED_DIR, "", i.name);
      assert FoundAt(items, i.groupResource, CLUSTER_SCOPED_DIR, i.name);
      assert Recorded(r, i.groupResource, CLUSTER_SCOPED_DIR, i.name);
    } else {
      forall g, n, name
        ensures Recorded(r, g, n, name) <==> Item(g, "", n, name) in items
      {
        assert !Mistakable(items, Item(g, NAMESPACE_SCOPED_DIR, "", name));
      }
    }
    forall g
      ensures g in r <==> exists i :: i in items && i.groupResource == g
    {
      ResourcesListed(files, items, r, g);
    }
    forall g, n | g in r && n in r[g]
      ensures r[g][n] != [] && NoRepeats(r[g][n])
    {
      assert ListsScope(files, g, n, r[g]);
      ListedNames(files, items, g, n, r[g][n]);
    }
  }

  /** One item of an API version called "namespaces" is enough to be read as something else. */
  lemma VersionCalledNamespaces(files: set<seq<string>>, g: string, name: string, r: map<string, ItemsByNamespace>)
    requires Holds(files, {Item(g, NAMESPACE_SCOPED_DIR, "", name)}) && Catalogues(files, r)
    ensures Recorded(r, g, CLUSTER_SCOPED_DIR, name)
    ensures !ListsItems(r, {Item(g, NAMESPACE_SCOPED_DIR, "", name)})
  {
    RecordedMeansFound(files, {Item(g, NAMESPACE_SCOPED_DIR, "", name)}, r, g, CLUSTER_SCOPED_DIR, name);
    assert Item(g, "", CLUSTER_SCOPED_DIR, name) !in {Item(g, NAMESPACE_SCOPED_DIR, "", name)};
  }

  /** Items share a file only if one is mistakable for the other. */
  lemma FilesAreDistinct(a: Item, b: Item)
    requires Place(a) == Place(b) && a.version == ""
    ensures a == b || (a.namespace == CLUSTER_SCOPED_DIR && b == Item(a.groupResource, NAMESPACE_SCOPED_DIR, "", a.name))
  {
    FileInScope(a.groupResource, a.namespace, a.name + EXTENSION, a);
    FileInScope(a.groupResource, a.namespace, a.name + EXTENSION, b);
    SameFileSameName(a.name, b.name);
  }
}
