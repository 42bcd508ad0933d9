/** How namespaces found by label are merged into a backup's include and exclude lists. */
module NamespaceMerge {
  import opened Options

  const EVERYTHING := "*"
  const NO_NAMESPACE := "[-]*"

  /** Which entries match which names, and which names are namespaces of the cluster. */
  datatype Patterns = Patterns(matches: (string, string) -> bool, namespaces: set<string>) {

    /** Namespace names are labels in the sense of section 2.1 of RFC 1123: they hold no wildcard. */
    ghost predicate Valid() {
      && (forall n | n in namespaces :: matches(EVERYTHING, n) && !matches(NO_NAMESPACE, n))
      && (forall e, n | e in namespaces && n in namespaces :: matches(e, n) <==> e == n)
      && EVERYTHING !in namespaces && NO_NAMESPACE !in namespaces
    }

    ghost predicate MatchedBy(entries: seq<string>, n: string) {
      exists e :: e in entries && matches(e, n)
    }

    /** What a filter lets through; an empty include list lets everything through. */
    ghost predicate Selected(includes: seq<string>, excludes: seq<string>, n: string) {
      !MatchedBy(excludes, n) && (includes == [] || EVERYTHING in includes || MatchedBy(includes, n))
    }

    /** The namespaces meant before exclusion. */
    ghost predicate Base(includes: seq<string>, byLabel: Option<seq<string>>, wereDefaulted: bool, n: string) {
      match byLabel
      case None => Selected(includes, [], n)
      case Some(found) =>
        if wereDefaulted then n in found else Selected(includes, [], n) || n in found
    }

    ghost predicate Meant(includes: seq<string>, excludes: seq<string>, byLabel: Option<seq<string>>,
                          wereDefaulted: bool, excludedByLabel: seq<string>, n: string) {
      Base(includes, byLabel, wereDefaulted, n) && !MatchedBy(excludes, n) && n !in excludedByLabel
    }
  }

  /** The members of a set, in some order. */
  method List(s: set<string>) returns (r: seq<string>)
    ensures forall x :: x in r <==> x in s
    ensures s == {} <==> r == []
  {
    r := [];
    var left := s;
    while left != {}
      invariant left <= s
      invariant forall x :: x in s <==> x in r || x in left
      decreases left
    {
      var x :| x in left;
      r := r + [x];
      left := left - {x};
    }
    if r == [] {
      assert s == {};
    } else {
      assert r[0] in s;
    }
  }

  function Elements(s: seq<string>): (r: set<string>)
    ensures forall x :: x in r <==> x in s
  {
    set x | x in s
  }

  function RepresentNamespaceSelection(resolved: seq<string>): (r: seq<string>)
    ensures r != []
    ensures forall e :: e in r <==> e in resolved || (resolved == [] && e == NO_NAMESPACE)
  {
    if resolved == [] then [NO_NAMESPACE] else resolved
  }

  /** Every entry of the list this call starts from is also excluded. */
  ghost predicate AllExcluded(includes: seq<string>, byLabel: Option<seq<string>>, wereDefaulted: bool, excluded: seq<string>) {
    && (!(byLabel.Some? && wereDefaulted) ==> forall e | e in includes :: e in excluded)
    && (byLabel.Some? ==> forall e | e in byLabel.value :: e in excluded)
  }

  lemma NothingKept(asked: seq<string>, excluded: seq<string>, kept: seq<string>)
    requires forall e :: e in kept <==> e in asked && e !in excluded
    ensures kept == [] <==> forall e | e in asked :: e in excluded
  {
    if kept != [] {
      assert kept[0] in kept;
    }
  }

  lemma SharedOnlyAsSentinel(kept: seq<string>, excluded: seq<string>)
    requires forall e | e in kept :: e !in excluded
    ensures (exists e :: e in RepresentNamespaceSelection(kept) && e in excluded) <==> kept == [] && NO_NAMESPACE in excluded
  {
    assert kept == [] ==> NO_NAMESPACE in RepresentNamespaceSelection(kept);
  }

  method MergeNamespacesByLabel(includes: seq<string>, excludes: seq<string>, byLabel: Option<seq<string>>,
      wereDefaulted: bool, excludedByLabel: seq<string>, ghost p: Patterns)
    returns (mergedIncluded: seq<string>, mergedExcluded: seq<string>)
    requires p.Valid()
    requires byLabel.Some? ==> forall n | n in byLabel.value :: n in p.namespaces
    requires forall n | n in excludedByLabel :: n in p.namespaces
    // the selection is the one meant, unless an empty include list was passed as it is
    ensures includes != [] || (byLabel.Some? && wereDefaulted) ==>
              forall n | n in p.namespaces ::
                p.Selected(mergedIncluded, mergedExcluded, n)
                <==> p.Meant(includes, excludes, byLabel, wereDefaulted, excludedByLabel, n)
    ensures includes == [] ==>
              forall n | n in p.namespaces ::
                p.Selected(mergedIncluded, mergedExcluded, n)
                <==> byLabel.Some? && n in byLabel.value && !p.MatchedBy(excludes, n) && n !in excludedByLabel
    ensures mergedIncluded != []
    ensures forall e :: e in mergedExcluded <==> e in excludes || e in excludedByLabel
    // lists with an entry in common: only where everything is included, or the sentinel itself was excluded
    ensures EVERYTHING !in mergedIncluded ==>
              ((exists e :: e in mergedIncluded && e in mergedExcluded)
               <==> NO_NAMESPACE in excludes && AllExcluded(includes, byLabel, wereDefaulted, mergedExcluded))
    ensures EVERYTHING in mergedIncluded <==> EVERYTHING in includes && !(byLabel.Some? && wereDefaulted)
    ensures EVERYTHING in mergedIncluded && byLabel.Some? ==> mergedIncluded == [EVERYTHING]
  {
    mergedIncluded := includes;
    if byLabel.Some? {
      if wereDefaulted {
        mergedIncluded := RepresentNamespaceSelection(byLabel.value);
      } else if EVERYTHING in includes {
        mergedIncluded := [EVERYTHING];
      } else {
        mergedIncluded := List(Elements(includes) + Elements(byLabel.value));
      }
    }
    mergedExcluded := excludes;
    if |excludedByLabel| > 0 {
      mergedExcluded := List(Elements(excludes) + Elements(excludedByLabel));
    }
    if EVERYTHING !in mergedIncluded {
      ghost var asked := mergedIncluded;
      var kept := List(Elements(mergedIncluded) - Elements(mergedExcluded));
      mergedIncluded := RepresentNamespaceSelection(kept);
      assert kept == [] <==> forall e | e in asked :: e in mergedExcluded by {
        NothingKept(asked, mergedExcluded, kept);
      }
      assert (exists e :: e in mergedIncluded && e in mergedExcluded) <==> kept == [] && NO_NAMESPACE in mergedExcluded by {
        SharedOnlyAsSentinel(kept, mergedExcluded);
      }
    }
  }

  /** A backup that excludes the sentinel together with all it includes gets lists that are not disjoint. */
  method ExcludedSentinelIsShared() returns (mergedIncluded: seq<string>, mergedExcluded: seq<string>)
    ensures EVERYTHING !in mergedIncluded && exists e :: e in mergedIncluded && e in mergedExcluded
  {
    var includes := ["a"];
    var excludes := ["a", NO_NAMESPACE];
    ghost var p := Patterns((e, n) => e == n, {});
    mergedIncluded, mergedExcluded := MergeNamespacesByLabel(includes, excludes, None, false, [], p);
    assert AllExcluded(includes, None, false, mergedExcluded);
  }
}
