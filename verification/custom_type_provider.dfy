/** The default custom type provider: the set of types the expression language
    may name beyond the predefined ones, and the extension methods declared on
    them, each optionally computed once and then served from a cache.

    Discovery of attribute-marked types and reflection over their methods are
    an `Environment` given to each call. A hash set of types is a sequence
    without duplicates in insertion order, which is also the order the set
    enumerates in. */
module CustomTypeProviders {
  import opened Results
  import opened TypeHelper

  /** A method as reflection reports it: its declaring type, whether it is
      static, whether it carries the extension-method attribute, and the type
      of its first parameter. */
  datatype MethodInfo = MethodInfo(
    name: string,
    owner: Type,
    isStatic: bool,
    isExtension: bool,
    firstParameterType: Type)

  /** What reflection finds: the attribute-marked types, in discovery order,
      and the methods declared on all types. */
  datatype Environment = Environment(markedTypes: seq<Type>, methods: seq<MethodInfo>)

  predicate NoDuplicates<T(==)>(s: seq<T>) {
    forall i, j :: 0 <= i < j < |s| ==> s[i] != s[j]
  }

  // ---------------------------------------------------------------------------
  // The custom type set

  /** `acc` followed by the elements of `s` not seen before, in order. */
  function AddDistinct(acc: seq<Type>, s: seq<Type>): (r: seq<Type>)
    requires NoDuplicates(acc)
    ensures NoDuplicates(r)
    ensures forall x :: x in r <==> x in acc || x in s
    ensures |acc| <= |r| && r[..|acc|] == acc
    decreases |s|
  {
    if |s| == 0 then acc
    else if s[0] in acc then AddDistinct(acc, s[1..])
    else AddDistinct(acc + [s[0]], s[1..])
  }

  /** The set union of two type lists, first-seen order. */
  function Union(a: seq<Type>, b: seq<Type>): (r: seq<Type>)
    ensures NoDuplicates(r)
    ensures forall x :: x in r <==> x in a || x in b
  {
    AddDistinct([], a + b)
  }

  // ---------------------------------------------------------------------------
  // Extension methods

  /** The static methods declared on `t` that carry the extension attribute. */
  predicate IsExtensionOf(m: MethodInfo, t: Type) {
    m.owner == t && m.isStatic && m.isExtension
  }

  /** The (first parameter type, method) pairs contributed by the extension
      methods of `t`, in declaration order. */
  function PairsOfType(t: Type, methods: seq<MethodInfo>): (r: seq<(Type, MethodInfo)>)
    ensures forall x :: x in r <==> x.1 in methods && IsExtensionOf(x.1, t) && x.0 == x.1.firstParameterType
  {
    if |methods| == 0 then []
    else
      var last := methods[|methods| - 1];
      PairsOfType(t, methods[..|methods| - 1])
        + (if IsExtensionOf(last, t) then [(last.firstParameterType, last)] else [])
  }

  /** The pairs of all types, type by type. */
  function Pairs(types: seq<Type>, methods: seq<MethodInfo>): (r: seq<(Type, MethodInfo)>)
    ensures forall x :: x in r <==>
      x.1 in methods && x.0 == x.1.firstParameterType && exists t :: t in types && IsExtensionOf(x.1, t)
  {
    if |types| == 0 then []
    else Pairs(types[..|types| - 1], methods) + PairsOfType(types[|types| - 1], methods)
  }

  /** The methods paired with key `k`, in list order. */
  function MethodsWithKey(pairs: seq<(Type, MethodInfo)>, k: Type): (r: seq<MethodInfo>)
    ensures forall m :: m in r <==> (k, m) in pairs
  {
    if |pairs| == 0 then []
    else
      var last := pairs[|pairs| - 1];
      assert forall x :: x in pairs <==> x in pairs[..|pairs| - 1] || x == last;
      MethodsWithKey(pairs[..|pairs| - 1], k) + (if last.0 == k then [last.1] else [])
  }

  function KeysOf(pairs: seq<(Type, MethodInfo)>): set<Type> {
    set i | 0 <= i < |pairs| :: pairs[i].0
  }

  /** Grouping by key: each key that occurs, with its methods in order. */
  function Grouped(pairs: seq<(Type, MethodInfo)>): map<Type, seq<MethodInfo>> {
    map k | k in KeysOf(pairs) :: MethodsWithKey(pairs, k)
  }

  /** The extension methods of a type set, grouped by the type they extend. */
  function ExtensionMethodsOf(types: seq<Type>, methods: seq<MethodInfo>): map<Type, seq<MethodInfo>> {
    Grouped(Pairs(types, methods))
  }

  lemma KeysOfSnoc(pairs: seq<(Type, MethodInfo)>, k: Type, m: MethodInfo)
    ensures KeysOf(pairs + [(k, m)]) == KeysOf(pairs) + {k}
  {
    var p' := pairs + [(k, m)];
    forall x | x in KeysOf(p') ensures x in KeysOf(pairs) + {k} {
      var i :| 0 <= i < |p'| && p'[i].0 == x;
      if i < |pairs| { assert pairs[i].0 == x; }
    }
    forall x | x in KeysOf(pairs) ensures x in KeysOf(p') {
      var i :| 0 <= i < |pairs| && pairs[i].0 == x;
      assert p'[i].0 == x;
    }
    assert p'[|pairs|].0 == k;
  }

  lemma MethodsWithKeySnoc(pairs: seq<(Type, MethodInfo)>, k: Type, m: MethodInfo, x: Type)
    ensures MethodsWithKey(pairs + [(k, m)], x) == MethodsWithKey(pairs, x) + (if x == k then [m] else [])
  {
    var p' := pairs + [(k, m)];
    assert p'[..|p'| - 1] == pairs;
  }

  lemma MethodsWithAbsentKey(pairs: seq<(Type, MethodInfo)>, k: Type)
    requires k !in KeysOf(pairs)
    ensures MethodsWithKey(pairs, k) == []
  {
  }

  /** Appending a pair extends its key's group, creating it when absent. */
  lemma GroupedSnoc(pairs: seq<(Type, MethodInfo)>, k: Type, m: MethodInfo)
    ensures Grouped(pairs + [(k, m)]) ==
      Grouped(pairs)[k := (if k in Grouped(pairs) then Grouped(pairs)[k] else []) + [m]]
  {
    var p' := pairs + [(k, m)];
    var g, g' := Grouped(pairs), Grouped(p');
    var expected := g[k := (if k in g then g[k] else []) + [m]];
    KeysOfSnoc(pairs, k, m);
    assert g'.Keys == expected.Keys;
    forall x | x in g'.Keys ensures g'[x] == expected[x] {
      MethodsWithKeySnoc(pairs, k, m, x);
      if x == k && k !in g {
        MethodsWithAbsentKey(pairs, k);
      }
    }
  }

  /** The (first parameter type, method) pairs, built as the provider builds
      its list: type by type, method by method. */
  method CollectPairs(types: seq<Type>, methods: seq<MethodInfo>) returns (pairs: seq<(Type, MethodInfo)>)
    ensures pairs == Pairs(types, methods)
  {
    pairs := [];
    var i := 0;
    while i < |types|
      invariant 0 <= i <= |types|
      invariant pairs == Pairs(types[..i], methods)
    {
      var t := types[i];
      var j := 0;
      ghost var before := pairs;
      while j < |methods|
        invariant 0 <= j <= |methods|
        invariant pairs == before + PairsOfType(t, methods[..j])
      {
        var m := methods[j];
        if m.owner == t && m.isStatic && m.isExtension {
          pairs := pairs + [(m.firstParameterType, m)];
        }
        assert methods[..j + 1][..j] == methods[..j];
        j := j + 1;
      }
      assert methods[..j] == methods;
      assert types[..i + 1][..i] == types[..i];
      i := i + 1;
    }
    assert types[..i] == types;
  }

  /** Grouping of the pairs into a dictionary from key to method list. */
  method GroupByKey(pairs: seq<(Type, MethodInfo)>) returns (groups: map<Type, seq<MethodInfo>>)
    ensures groups == Grouped(pairs)
  {
    groups := map[];
    var i := 0;
    while i < |pairs|
      invariant 0 <= i <= |pairs|
      invariant groups == Grouped(pairs[..i])
    {
      var (k, m) := pairs[i];
      GroupedSnoc(pairs[..i], k, m);
      assert pairs[..i + 1] == pairs[..i] + [(k, m)];
      ghost var next := Grouped(pairs[..i + 1]);
      if k in groups {
        groups := groups[k := groups[k] + [m]];
      } else {
        groups := groups[k := [] + [m]];
      }
      assert groups == next;
      i := i + 1;
    }
    assert pairs[..i] == pairs;
  }

  /** The extension methods of a type set, computed with the two loops. */
  method CollectExtensionMethods(types: seq<Type>, methods: seq<MethodInfo>)
    returns (groups: map<Type, seq<MethodInfo>>)
    ensures groups == ExtensionMethodsOf(types, methods)
  {
    var pairs := CollectPairs(types, methods);
    groups := GroupByKey(pairs);
  }

  // ---------------------------------------------------------------------------
  // The provider and its caches

  datatype Provider = Provider(
    cacheCustomTypes: bool,
    additionalTypes: seq<Type>,
    cachedCustomTypes: Option<seq<Type>>,
    cachedExtensionMethods: Option<map<Type, seq<MethodInfo>>>)

  /** A new provider: both caches empty. */
  function NewProvider(additionalTypes: seq<Type>, cacheCustomTypes: bool): (p: Provider)
    ensures p.cachedCustomTypes.None? && p.cachedExtensionMethods.None?
    ensures p.cacheCustomTypes == cacheCustomTypes && p.additionalTypes == additionalTypes
  {
    Provider(cacheCustomTypes, additionalTypes, None, None)
  }

  /** The provider invariant: a cached type set has no duplicates, and
      nothing is cached while caching is off. */
  predicate Consistent(p: Provider) {
    (p.cachedCustomTypes.Some? ==> NoDuplicates(p.cachedCustomTypes.value))
    && (!p.cacheCustomTypes ==> p.cachedCustomTypes.None? && p.cachedExtensionMethods.None?)
  }

  function GetCustomTypesInternal(p: Provider, env: Environment): (r: seq<Type>)
    ensures NoDuplicates(r)
    ensures forall t :: t in r <==> t in env.markedTypes || t in p.additionalTypes
  {
    Union(env.markedTypes, p.additionalTypes)
  }

  /** The custom types and the provider's state after the call. */
  function GetCustomTypes(p: Provider, env: Environment): (r: (Provider, seq<Type>))
    requires Consistent(p)
    ensures Consistent(r.0) && NoDuplicates(r.1)
    ensures r.0.cacheCustomTypes == p.cacheCustomTypes && r.0.additionalTypes == p.additionalTypes
    ensures r.0.cachedExtensionMethods == p.cachedExtensionMethods
  {
    if p.cacheCustomTypes then
      if p.cachedCustomTypes.None? then
        var types := GetCustomTypesInternal(p, env);
        (p.(cachedCustomTypes := Some(types)), types)
      else (p, p.cachedCustomTypes.value)
    else (p, GetCustomTypesInternal(p, env))
  }

  function GetExtensionMethodsInternal(p: Provider, env: Environment): (r: (Provider, map<Type, seq<MethodInfo>>))
    requires Consistent(p)
    ensures Consistent(r.0)
    ensures r.0.cacheCustomTypes == p.cacheCustomTypes && r.0.additionalTypes == p.additionalTypes
    ensures r.0.cachedExtensionMethods == p.cachedExtensionMethods
  {
    var (p1, types) := GetCustomTypes(p, env);
    (p1, ExtensionMethodsOf(types, env.methods))
  }

  /** The extension methods and the provider's state after the call. */
  function GetExtensionMethods(p: Provider, env: Environment): (r: (Provider, map<Type, seq<MethodInfo>>))
    requires Consistent(p)
    ensures Consistent(r.0)
    ensures r.0.cacheCustomTypes == p.cacheCustomTypes && r.0.additionalTypes == p.additionalTypes
  {
    if p.cacheCustomTypes then
      if p.cachedExtensionMethods.None? then
        var (p1, groups) := GetExtensionMethodsInternal(p, env);
        (p1.(cachedExtensionMethods := Some(groups)), groups)
      else (p, p.cachedExtensionMethods.value)
    else GetExtensionMethodsInternal(p, env)
  }
}
