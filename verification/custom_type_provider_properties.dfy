/** Properties of the custom type provider: compute-once caching, recomputation
    without the cache, the content of the type set and of the extension-method
    dictionary. */
module CustomTypeProviderProperties {
  import opened Results
  import opened TypeHelper
  import opened CustomTypeProviders

  /** With caching on, the first call computes and stores the type set; every
      later call returns the stored set and changes nothing, whatever the
      environment has become. */
  lemma CustomTypesComputedOnce(p: Provider, env: Environment, later: Environment)
    requires Consistent(p) && p.cacheCustomTypes && p.cachedCustomTypes.None?
    ensures var (p1, types) := GetCustomTypes(p, env);
      types == GetCustomTypesInternal(p, env)
      && p1.cachedCustomTypes == Some(types)
      && GetCustomTypes(p1, later) == (p1, types)
  {
  }

  /** With caching off, every call recomputes from the current environment
      and leaves the provider as it was. */
  lemma CustomTypesRecomputedWithoutCache(p: Provider, env: Environment)
    requires Consistent(p) && !p.cacheCustomTypes
    ensures GetCustomTypes(p, env) == (p, GetCustomTypesInternal(p, env))
    ensures GetExtensionMethods(p, env) == (p, ExtensionMethodsOf(GetCustomTypesInternal(p, env), env.methods))
  {
  }

  /** The type set is the union of the discovered and the additional types,
      each once. */
  lemma CustomTypesAreUnion(p: Provider, env: Environment)
    requires Consistent(p) && p.cachedCustomTypes.None?
    ensures var types := GetCustomTypes(p, env).1;
      NoDuplicates(types)
      && forall t :: t in types <==> t in env.markedTypes || t in p.additionalTypes
  {
  }

  /** With caching on, the extension methods are computed once as well, and
      every later call returns them unchanged. */
  lemma ExtensionMethodsComputedOnce(p: Provider, env: Environment, later: Environment)
    requires Consistent(p) && p.cacheCustomTypes && p.cachedExtensionMethods.None?
    ensures var (p1, groups) := GetExtensionMethods(p, env);
      p1.cachedExtensionMethods == Some(groups)
      && GetExtensionMethods(p1, later) == (p1, groups)
  {
  }

  /** The extension methods are grouped over the type set `GetCustomTypes`
      gives: a type set already cached is reused, not rediscovered; and from a
      fresh provider the call fills the type cache too. */
  lemma ExtensionMethodsShareTypeCache(p: Provider, env: Environment)
    requires Consistent(p) && p.cacheCustomTypes && p.cachedExtensionMethods.None?
    ensures p.cachedCustomTypes.Some? ==>
      GetExtensionMethods(p, env).1 == ExtensionMethodsOf(p.cachedCustomTypes.value, env.methods)
    ensures p.cachedCustomTypes.None? ==>
      GetExtensionMethods(p, env).0.cachedCustomTypes == Some(GetCustomTypesInternal(p, env))
  {
  }

  /** Every static extension method declared on a custom type is listed under
      the type of its first parameter. */
  /** The first cached call, with no type set cached yet, computes the
      dictionary over a freshly computed type set and caches both. */
  lemma FirstExtensionMethodsCall(p: Provider, env: Environment)
    requires Consistent(p) && p.cacheCustomTypes && p.cachedExtensionMethods.None? && p.cachedCustomTypes.None?
    ensures var (p1, groups) := GetExtensionMethods(p, env);
      groups == ExtensionMethodsOf(GetCustomTypesInternal(p, env), env.methods)
      && p1.cachedCustomTypes == Some(GetCustomTypesInternal(p, env))
      && p1.cachedExtensionMethods == Some(groups)
  {
  }

  lemma {:induction false} EveryExtensionMethodListed(types: seq<Type>, methods: seq<MethodInfo>, t: Type, m: MethodInfo)
    requires t in types && m in methods && IsExtensionOf(m, t)
    ensures var groups := ExtensionMethodsOf(types, methods);
      m.firstParameterType in groups && m in groups[m.firstParameterType]
  {
    var pairs := Pairs(types, methods);
    var x := (m.firstParameterType, m);
    assert x in pairs;
    var i :| 0 <= i < |pairs| && pairs[i] == x;
    assert pairs[i].0 in KeysOf(pairs);
  }

  /** The keys are exactly the first-parameter types of those methods, each
      list is non-empty, and it holds only methods extending its key. */
  lemma {:induction false} ExtensionMethodKeysExact(types: seq<Type>, methods: seq<MethodInfo>, k: Type)
    ensures var groups := ExtensionMethodsOf(types, methods);
      k in groups <==>
        exists m :: m in methods && m.firstParameterType == k && exists t :: t in types && IsExtensionOf(m, t)
    ensures var groups := ExtensionMethodsOf(types, methods);
      k in groups ==> |groups[k]| > 0
    ensures var groups := ExtensionMethodsOf(types, methods);
      k in groups ==> forall m :: m in groups[k] ==>
        (m in methods && m.firstParameterType == k && exists t :: t in types && IsExtensionOf(m, t))
  {
    var pairs := Pairs(types, methods);
    var groups := ExtensionMethodsOf(types, methods);
    if k in groups {
      var i :| 0 <= i < |pairs| && pairs[i].0 == k;
      var m := pairs[i].1;
      assert (k, m) == pairs[i] && (k, m) in pairs;
      assert m in groups[k];
    }
    if exists m :: m in methods && m.firstParameterType == k && exists t :: t in types && IsExtensionOf(m, t) {
      var m :| m in methods && m.firstParameterType == k && exists t :: t in types && IsExtensionOf(m, t);
      var t :| t in types && IsExtensionOf(m, t);
      EveryExtensionMethodListed(types, methods, t, m);
    }
  }

  /** The provider invariant holds from construction on, through any call. */
  lemma NewProviderConsistent(additionalTypes: seq<Type>, cache: bool, env: Environment)
    ensures Consistent(NewProvider(additionalTypes, cache))
    ensures Consistent(GetCustomTypes(NewProvider(additionalTypes, cache), env).0)
    ensures Consistent(GetExtensionMethods(NewProvider(additionalTypes, cache), env).0)
  {
  }
}
