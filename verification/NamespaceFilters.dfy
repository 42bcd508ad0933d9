/** Which filter policy governs a namespace: resolving the policies, and the memoised lookup. */
module NamespaceFilters {
  import opened Options

  /** `filter` stands for a policy's resolved resource filters. */
  datatype Policy = Policy(namespaces: seq<string>, filter: int)

  datatype NamespacedFilterPattern = NamespacedFilterPattern(pattern: string, compiled: bool)

  /** The glob library: which patterns compile, and what they match. */
  datatype Globs = Globs(compiles: string -> bool, matches: (string, string) -> bool) {
    function Compile(p: string): NamespacedFilterPattern {
      NamespacedFilterPattern(p, ('*' in p || '?' in p || '[' in p) && compiles(p))
    }

    predicate Match(p: NamespacedFilterPattern, n: string) {
      p.compiled && matches(p.pattern, n)
    }
  }

  // ----- The rule: an exact name first, then the first glob in definition order -----

  ghost predicate Names(policy: Policy, n: string) {
    n in policy.namespaces
  }

  ghost predicate Globbed(globs: Globs, policy: Policy, n: string) {
    exists p :: p in policy.namespaces && ('*' in p || '?' in p || '[' in p) && globs.compiles(p) && globs.matches(p, n)
  }

  /** `f` is the filter the policies give namespace `n`. */
  ghost predicate Governs(globs: Globs, policies: seq<Policy>, n: string, f: Option<int>) {
    if exists i | 0 <= i < |policies| :: Names(policies[i], n) then
      exists i | 0 <= i < |policies| :: Names(policies[i], n) && f == Some(policies[i].filter)
    else if exists i | 0 <= i < |policies| :: Globbed(globs, policies[i], n) then
      exists i | 0 <= i < |policies| ::
        && Globbed(globs, policies[i], n) && f == Some(policies[i].filter)
        && forall j | 0 <= j < i :: !Globbed(globs, policies[j], n)
    else f == None
  }

  /** No pattern belongs to two policies. */
  ghost predicate Distinct(policies: seq<Policy>) {
    forall i, j | 0 <= i < j < |policies| :: forall p | p in policies[i].namespaces :: p !in policies[j].namespaces
  }

  lemma OneFilterGoverns(globs: Globs, policies: seq<Policy>, n: string, f: Option<int>, g: Option<int>)
    requires Distinct(policies)
    requires Governs(globs, policies, n, f) && Governs(globs, policies, n, g)
    ensures f == g
  {
  }

  // ----- Validation -----

  ghost function Uses(policies: seq<Policy>, p: string): nat {
    if policies == [] then 0
    else Uses(policies[..|policies| - 1], p) + Count(policies[|policies| - 1].namespaces, p)
  }

  ghost function Count(names: seq<string>, p: string): nat {
    if names == [] then 0
    else Count(names[..|names| - 1], p) + if names[|names| - 1] == p then 1 else 0
  }

  /** `seen` lists, for each pattern, the policies that use it, once for each use. */
  ghost predicate Tallies(seen: map<string, seq<nat>>, policies: seq<Policy>, names: seq<string>) {
    forall p :: (if p in seen then |seen[p]| else 0) == Uses(policies, p) + Count(names, p)
  }

  ghost predicate WellNamed(policies: seq<Policy>, validName: string -> bool) {
    forall policy | policy in policies :: policy.namespaces != [] && forall p | p in policy.namespaces :: validName(p)
  }

  ghost predicate SeenOnce(seen: map<string, seq<nat>>, p: string) {
    p in seen ==> |seen[p]| <= 1
  }

  ghost predicate NoneSeenTwice(seen: map<string, seq<nat>>) {
    forall p :: SeenOnce(seen, p)
  }

  ghost predicate NoneUsedTwice(policies: seq<Policy>) {
    forall p :: Uses(policies, p) <= 1
  }

  /** Refuses a policy without namespaces, an invalid pattern, and a pattern used twice. */
  method ValidateNamespacedFilterPolicies(policies: seq<Policy>, validName: string -> bool) returns (ok: bool)
    ensures ok <==> WellNamed(policies, validName) && NoneUsedTwice(policies)
    ensures ok ==> Distinct(policies)
  {
    var seen: map<string, seq<nat>> := map[];
    for i := 0 to |policies|
      invariant Tallies(seen, policies[..i], []) && WellNamed(policies[..i], validName)
    {
      assert policies[i] in policies && policies[..i + 1] == policies[..i] + [policies[i]];
      if |policies[i].namespaces| == 0 {
        return false;
      }
      var valid;
      valid, seen := CollectNames(policies, i, validName, seen);
      if !valid {
        return false;
      }
    }
    assert policies[..|policies|] == policies;
    TalliedOnce(seen, policies);
    ok := EachSeenOnce(seen);
    if ok {
      UsedOnceMeansDistinct(policies);
    }
  }

  method CollectNames(policies: seq<Policy>, i: nat, validName: string -> bool, before: map<string, seq<nat>>)
    returns (valid: bool, seen: map<string, seq<nat>>)
    requires i < |policies| && Tallies(before, policies[..i], [])
    ensures valid <==> forall p | p in policies[i].namespaces :: validName(p)
    ensures valid ==> Tallies(seen, policies[..i + 1], [])
  {
    var names := policies[i].namespaces;
    seen := before;
    for k := 0 to |names|
      invariant Tallies(seen, policies[..i], names[..k])
      invariant forall p | p in names[..k] :: validName(p)
    {
      if !validName(names[k]) {
        return false, seen;
      }
      TallyName(seen, policies[..i], names, k, i);
      seen := seen[names[k] := (if names[k] in seen then seen[names[k]] else []) + [i]];
    }
    assert names[..|names|] == names;
    TallyPolicy(seen, policies, i);
    valid := true;
  }

  lemma TallyName(seen: map<string, seq<nat>>, before: seq<Policy>, names: seq<string>, k: nat, i: nat)
    requires k < |names| && Tallies(seen, before, names[..k])
    ensures Tallies(seen[names[k] := (if names[k] in seen then seen[names[k]] else []) + [i]], before, names[..k + 1])
  {
    assert names[..k + 1][..k] == names[..k];
  }

  lemma TallyPolicy(seen: map<string, seq<nat>>, policies: seq<Policy>, i: nat)
    requires i < |policies| && Tallies(seen, policies[..i], policies[i].namespaces[..|policies[i].namespaces|])
    ensures Tallies(seen, policies[..i + 1], [])
  {
    var names := policies[i].namespaces;
    assert names[..|names|] == names;
    assert policies[..i + 1][..i] == policies[..i];
  }

  lemma TalliedOnce(seen: map<string, seq<nat>>, policies: seq<Policy>)
    requires Tallies(seen, policies, [])
    ensures NoneSeenTwice(seen) <==> NoneUsedTwice(policies)
  {
    if NoneSeenTwice(seen) {
      forall p
        ensures Uses(policies, p) <= 1
      {
        assert SeenOnce(seen, p) && Count([], p) == 0;
      }
    }
    if NoneUsedTwice(policies) {
      forall p
        ensures SeenOnce(seen, p)
      {
        assert Uses(policies, p) <= 1 && Count([], p) == 0;
      }
    }
  }

  method EachSeenOnce(seen: map<string, seq<nat>>) returns (ok: bool)
    ensures ok <==> NoneSeenTwice(seen)
  {
    var patterns := seen.Keys;
    while patterns != {}
      invariant patterns <= seen.Keys
      invariant forall p | p !in patterns :: SeenOnce(seen, p)
      decreases patterns
    {
      var pattern :| pattern in patterns;
      if |seen[pattern]| > 1 {
        assert !SeenOnce(seen, pattern);
        return false;
      }
      patterns := patterns - {pattern};
    }
    return true;
  }

  lemma {:induction false} UsedCounts(policies: seq<Policy>, i: nat, p: string)
    requires i < |policies| && p in policies[i].namespaces
    ensures Uses(policies, p) >= 1
  {
    var front, last := policies[..|policies| - 1], policies[|policies| - 1];
    if i < |front| {
      UsedCounts(front, i, p);
    } else {
      ListedCounts(last.namespaces, p);
    }
  }

  lemma {:induction false} ListedCounts(names: seq<string>, p: string)
    requires p in names
    ensures Count(names, p) >= 1
  {
    if names[|names| - 1] != p {
      ListedCounts(names[..|names| - 1], p);
    }
  }

  lemma {:induction false} UsedOnceMeansDistinct(policies: seq<Policy>)
    requires NoneUsedTwice(policies)
    ensures Distinct(policies)
  {
    if policies != [] {
      var front, last := policies[..|policies| - 1], policies[|policies| - 1];
      forall p
        ensures Uses(front, p) + Count(last.namespaces, p) <= 1
      {
        assert Uses(policies, p) <= 1;
      }
      UsedOnceMeansDistinct(front);
      forall i, p | 0 <= i < |front| && p in front[i].namespaces
        ensures p !in last.namespaces
      {
        UsedCounts(front, i, p);
        assert Uses(front, p) + Count(last.namespaces, p) <= 1;
        if p in last.namespaces {
          ListedCounts(last.namespaces, p);
        }
      }
    }
  }

  // ----- Resolution -----

  ghost function Patterns(globs: Globs, policies: seq<Policy>): seq<NamespacedFilterPattern> {
    if policies == [] then []
    else Patterns(globs, policies[..|policies| - 1]) + Compiled(globs, policies[|policies| - 1].namespaces)
  }

  ghost function Compiled(globs: Globs, patterns: seq<string>): (r: seq<NamespacedFilterPattern>)
    ensures |r| == |patterns| && forall i | 0 <= i < |r| :: r[i] == globs.Compile(patterns[i])
  {
    seq(|patterns|, i requires 0 <= i < |patterns| => globs.Compile(patterns[i]))
  }

  ghost function FilterMap(policies: seq<Policy>): map<string, int> {
    if policies == [] then map[]
    else
      var last := policies[|policies| - 1];
      Assigned(FilterMap(policies[..|policies| - 1]), last.namespaces, last.filter)
  }

  ghost function Assigned(m: map<string, int>, names: seq<string>, filter: int): map<string, int> {
    m + map p | p in names :: filter
  }

  lemma OneMoreName(globs: Globs, m: map<string, int>, names: seq<string>, filter: int, k: nat)
    requires k < |names|
    ensures Assigned(m, names[..k + 1], filter) == Assigned(m, names[..k], filter)[names[k] := filter]
    ensures Compiled(globs, names[..k + 1]) == Compiled(globs, names[..k]) + [globs.Compile(names[k])]
  {
    assert names[..k + 1] == names[..k] + [names[k]];
  }

  method ResolveNamespacedFilterPolicies(globs: Globs, policies: seq<Policy>)
    returns (result: map<string, int>, patternOrder: seq<NamespacedFilterPattern>)
    ensures result == FilterMap(policies) && patternOrder == Patterns(globs, policies)
  {
    result, patternOrder := map[], [];
    for i := 0 to |policies|
      invariant result == FilterMap(policies[..i]) && patternOrder == Patterns(globs, policies[..i])
    {
      var names := policies[i].namespaces;
      ghost var before := policies[..i];
      for k := 0 to |names|
        invariant result == Assigned(FilterMap(before), names[..k], policies[i].filter)
        invariant patternOrder == Patterns(globs, before) + Compiled(globs, names[..k])
      {
        result := result[names[k] := policies[i].filter];
        patternOrder := patternOrder + [globs.Compile(names[k])];
        OneMoreName(globs, FilterMap(before), names, policies[i].filter, k);
      }
      assert names[..|names|] == names;
      assert policies[..i + 1][..i] == before;
    }
    assert policies[..|policies|] == policies;
  }

  lemma {:induction false} FilterMapIsTheRule(policies: seq<Policy>, p: string)
    requires Distinct(policies)
    ensures p in FilterMap(policies) <==> exists i | 0 <= i < |policies| :: Names(policies[i], p)
    ensures forall i | 0 <= i < |policies| && Names(policies[i], p) ::
              p in FilterMap(policies) && FilterMap(policies)[p] == policies[i].filter
  {
    if policies != [] {
      var front, last := policies[..|policies| - 1], policies[|policies| - 1];
      FilterMapIsTheRule(front, p);
      if i :| 0 <= i < |front| && Names(front[i], p) {
        assert Names(policies[i], p);
      }
      if Names(last, p) {
        assert Names(policies[|policies| - 1], p);
      }
    }
  }

  /** Position `k` of the pattern order belongs to policy `i`, and the policies before it lie before `k`. */
  lemma {:induction false} OwnerOf(globs: Globs, policies: seq<Policy>, k: nat) returns (i: nat)
    requires k < |Patterns(globs, policies)|
    ensures i < |policies|
    ensures exists p :: p in policies[i].namespaces && Patterns(globs, policies)[k] == globs.Compile(p)
    ensures forall j | 0 <= j < i :: forall p | p in policies[j].namespaces ::
              globs.Compile(p) in Patterns(globs, policies)[..k]
  {
    var front, last := policies[..|policies| - 1], policies[|policies| - 1];
    var earlier := Patterns(globs, front);
    if k < |earlier| {
      i := OwnerOf(globs, front, k);
      assert Patterns(globs, policies)[..k] == earlier[..k];
    } else {
      i := |policies| - 1;
      assert last.namespaces[k - |earlier|] in last.namespaces;
      forall j, p | 0 <= j < i && p in policies[j].namespaces
        ensures globs.Compile(p) in Patterns(globs, policies)[..k]
      {
        PatternListed(globs, front, j, p);
        assert Patterns(globs, policies)[..k][..|earlier|] == earlier;
      }
    }
  }

  lemma {:induction false} PatternListed(globs: Globs, policies: seq<Policy>, i: nat, p: string)
    requires i < |policies| && p in policies[i].namespaces
    ensures globs.Compile(p) in Patterns(globs, policies)
  {
    var front, last := policies[..|policies| - 1], policies[|policies| - 1];
    if i < |front| {
      PatternListed(globs, front, i, p);
    } else {
      var k :| 0 <= k < |last.namespaces| && last.namespaces[k] == p;
      assert Compiled(globs, last.namespaces)[k] == globs.Compile(p);
    }
  }

  // ----- Lookup -----

  class Request {
    const globs: Globs
    ghost const policies: seq<Policy>
    const namespacedFilterMap: Option<map<string, int>>
    const namespacedFilterPatterns: seq<NamespacedFilterPattern>
    var namespaceFilterCache: map<string, Option<int>>

    ghost predicate Valid()
      reads this
    {
      && Distinct(policies)
      && (if namespacedFilterMap.Some? then namespacedFilterMap.value == FilterMap(policies) else policies == [])
      && (namespacedFilterMap.Some? ==> namespacedFilterPatterns == Patterns(globs, policies))
      && forall n | n in namespaceFilterCache :: Governs(globs, policies, n, namespaceFilterCache[n])
    }

    constructor (globs: Globs, policies: seq<Policy>)
      requires Distinct(policies)
      ensures Valid() && this.globs == globs && this.policies == policies && namespaceFilterCache == map[]
    {
      this.globs, this.policies := globs, policies;
      namespaceFilterCache := map[];
      namespacedFilterMap, namespacedFilterPatterns := None, [];
      if policies != [] {
        var filters, patterns := ResolveNamespacedFilterPolicies(globs, policies);
        namespacedFilterMap, namespacedFilterPatterns := Some(filters), patterns;
      }
    }

    /** The governing filter, whatever was asked before. */
    method GetNamespaceFilter(namespace: string) returns (r: Option<int>)
      requires Valid()
      modifies this
      ensures Valid()
      ensures Governs(globs, policies, namespace, r)
      ensures namespaceFilterCache == if namespacedFilterMap.None? then old(namespaceFilterCache)
                                      else old(namespaceFilterCache)[namespace := r]
    {
      if namespacedFilterMap.None? {
        return None;
      }
      if namespace in namespaceFilterCache {
        return namespaceFilterCache[namespace];
      }
      FilterMapIsTheRule(policies, namespace);
      if namespace in namespacedFilterMap.value {
        r := Some(namespacedFilterMap.value[namespace]);
        namespaceFilterCache := namespaceFilterCache[namespace := r];
        return r;
      }
      for k := 0 to |namespacedFilterPatterns|
        invariant forall j | 0 <= j < k :: !globs.Match(namespacedFilterPatterns[j], namespace)
        invariant namespaceFilterCache == old(namespaceFilterCache)
      {
        var p := namespacedFilterPatterns[k];
        if globs.Match(p, namespace) {
          FirstMatchGoverns(globs, policies, namespace, k);
          r := Some(namespacedFilterMap.value[p.pattern]);
          namespaceFilterCache := namespaceFilterCache[namespace := r];
          return r;
        }
      }
      NoMatchMeansGlobal(globs, policies, namespace);
      r := None;
      namespaceFilterCache := namespaceFilterCache[namespace := r];
    }
  }

  lemma FirstMatchGoverns(globs: Globs, policies: seq<Policy>, n: string, k: nat)
    requires Distinct(policies) && n !in FilterMap(policies) && k < |Patterns(globs, policies)|
    requires globs.Match(Patterns(globs, policies)[k], n)
    requires forall j | 0 <= j < k :: !globs.Match(Patterns(globs, policies)[j], n)
    ensures Patterns(globs, policies)[k].pattern in FilterMap(policies)
    ensures Governs(globs, policies, n, Some(FilterMap(policies)[Patterns(globs, policies)[k].pattern]))
  {
    FilterMapIsTheRule(policies, n);
    var i := OwnerOf(globs, policies, k);
    var p := Patterns(globs, policies)[k].pattern;
    FilterMapIsTheRule(policies, p);
    assert Names(policies[i], p);
    assert Globbed(globs, policies[i], n);
    forall j | 0 <= j < i
      ensures !Globbed(globs, policies[j], n)
    {
      forall q | q in policies[j].namespaces
        ensures !globs.Match(globs.Compile(q), n)
      {
        var at :| 0 <= at < k && Patterns(globs, policies)[..k][at] == globs.Compile(q);
      }
    }
  }

  lemma NoMatchMeansGlobal(globs: Globs, policies: seq<Policy>, n: string)
    requires Distinct(policies) && n !in FilterMap(policies)
    requires forall k | 0 <= k < |Patterns(globs, policies)| :: !globs.Match(Patterns(globs, policies)[k], n)
    ensures Governs(globs, policies, n, None)
  {
    FilterMapIsTheRule(policies, n);
    forall i | 0 <= i < |policies|
      ensures !Globbed(globs, policies[i], n)
    {
      forall p | p in policies[i].namespaces
        ensures !globs.Match(globs.Compile(p), n)
      {
        PatternListed(globs, policies, i, p);
        var k :| 0 <= k < |Patterns(globs, policies)| && Patterns(globs, policies)[k] == globs.Compile(p);
      }
    }
  }
}
