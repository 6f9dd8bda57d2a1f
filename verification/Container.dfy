/** The dependency-injection container: lookup through the hierarchy, lifetimes, cycle detection and recursive resolution. */
module Container {
  import opened Options

  type Key = string

  datatype Lifetime = Singleton | Scoped | Transient

  /** A constructor parameter: a dependency, the scope, the container, or one without annotation. */
  datatype Param =
    | Dep(key: Key, hasDefault: bool)
    | ScopeParam(hasDefault: bool)
    | ContainerParam
    | Unannotated(hasDefault: bool)

  datatype Provider = Factory(lifetime: Lifetime, params: seq<Param>) | Instance(tag: string)

  /** One container of the hierarchy. */
  datatype Level = Level(overrides: map<Key, Provider>, providers: map<Key, Provider>)

  /** A container (level 0) with its ancestors, and the constructors of classes nobody registered. */
  datatype Graph = Graph(levels: seq<Level>, classes: map<Key, seq<Param>>)

  /** What was built, and from what. */
  datatype Value =
    | Built(key: Key, lifetime: Lifetime, args: seq<Value>)
    | Given(tag: string)
    | ScopeRef
    | ContainerRef
    | Omitted

  /** `Failed` is a ResolutionError, `CallError` the TypeError of a missing argument, `Deadlock` waiting on a lock the caller holds. */
  datatype Outcome = Ok(value: Value) | Failed | CallError | Deadlock

  datatype ArgsOutcome = ArgsOk(values: seq<Value>, missing: bool) | ArgsErr(outcome: Outcome)

  /** Cached singletons by owning level, and the instances of the active scope. */
  datatype Caches = Caches(singletons: map<(nat, Key), Value>, scoped: map<Key, Value>)

  /** `_find_provider_with_owner`: overrides first, then registrations, then the parent. */
  function FindFrom(g: Graph, key: Key, level: nat): Option<(Provider, nat)>
    requires level <= |g.levels|
    decreases |g.levels| - level
  {
    if level == |g.levels| then None
    else if key in g.levels[level].overrides then Some((g.levels[level].overrides[key], level))
    else if key in g.levels[level].providers then Some((g.levels[level].providers[key], level))
    else FindFrom(g, key, level + 1)
  }

  /** The provider used for `key`: a registered one, or the class itself as a transient. */
  function Find(g: Graph, key: Key): Option<(Provider, nat)> {
    var found := FindFrom(g, key, 0);
    if found.None? && key in g.classes then Some((Factory(Transient, g.classes[key]), 0)) else found
  }

  function Universe(g: Graph): set<Key> {
    (set i: nat, k | i < |g.levels| && k in g.levels[i].overrides :: k)
    + (set i: nat, k | i < |g.levels| && k in g.levels[i].providers :: k)
    + g.classes.Keys
  }

  lemma FoundInUniverse(g: Graph, key: Key, level: nat)
    requires level <= |g.levels| && FindFrom(g, key, level).Some?
    ensures key in Universe(g)
    decreases |g.levels| - level
  {
    if key !in g.levels[level].overrides && key !in g.levels[level].providers {
      FoundInUniverse(g, key, level + 1);
    }
  }

  lemma FindInUniverse(g: Graph, key: Key)
    requires Find(g, key).Some?
    ensures key in Universe(g)
  {
    if FindFrom(g, key, 0).Some? {
      FoundInUniverse(g, key, 0);
    }
  }

  lemma FewerLeft(g: Graph, key: Key, inFlight: set<Key>)
    requires Find(g, key).Some? && key !in inFlight
    ensures |Universe(g) - (inFlight + {key})| < |Universe(g) - inFlight|
  {
    FindInUniverse(g, key);
    assert Universe(g) - (inFlight + {key}) == (Universe(g) - inFlight) - {key};
  }

  /** `_resolve`; `scope` tells whether a scope is active, `held` which levels' locks the caller holds. */
  function Resolve(g: Graph, c: Caches, key: Key, scope: bool, inFlight: set<Key>, held: set<nat>): (Outcome, Caches)
    decreases |Universe(g) - inFlight|, 1
  {
    if key in inFlight || Find(g, key).None? then (Failed, c)
    else
      var (provider, owner) := Find(g, key).value;
      if provider.Instance? || provider.lifetime.Singleton? then
        ResolveOnce(g, c, key, provider, owner, inFlight, held)
      else if provider.lifetime.Scoped? then ResolveInScope(g, c, key, provider, scope, inFlight, held)
      else
        FewerLeft(g, key, inFlight);
        Provide(g, c, key, provider, scope, inFlight + {key}, held)
  }

  /** `_produce` for singletons: cached with the owner, built under its lock and without the scope. */
  function ResolveOnce(g: Graph, c: Caches, key: Key, provider: Provider, owner: nat, inFlight: set<Key>, held: set<nat>)
    : (Outcome, Caches)
    requires key !in inFlight && Find(g, key).Some?
    decreases |Universe(g) - inFlight|, 0
  {
    if (owner, key) in c.singletons then (Ok(c.singletons[(owner, key)]), c)
    else if owner in held then (Deadlock, c)
    else
      FewerLeft(g, key, inFlight);
      var (o, c1) := Provide(g, c, key, provider, false, inFlight + {key}, held + {owner});
      (o, if o.Ok? then c1.(singletons := c1.singletons[(owner, key) := o.value]) else c1)
  }

  /** `_produce` for scoped providers: cached in the scope, but built without it. */
  function ResolveInScope(g: Graph, c: Caches, key: Key, provider: Provider, scope: bool, inFlight: set<Key>, held: set<nat>)
    : (Outcome, Caches)
    requires key !in inFlight && Find(g, key).Some?
    decreases |Universe(g) - inFlight|, 0
  {
    if !scope then (Failed, c)
    else if key in c.scoped then (Ok(c.scoped[key]), c)
    else
      FewerLeft(g, key, inFlight);
      var (o, c1) := Provide(g, c, key, provider, false, inFlight + {key}, held);
      (o, if o.Ok? then c1.(scoped := c1.scoped[key := o.value]) else c1)
  }

  function Provide(g: Graph, c: Caches, key: Key, provider: Provider, scope: bool, inFlight: set<Key>, held: set<nat>)
    : (Outcome, Caches)
    decreases |Universe(g) - inFlight|, if provider.Factory? then |provider.params| + 3 else 2
  {
    if provider.Instance? then (Ok(Given(provider.tag)), c)
    else
      var (args, c1) := Args(g, c, provider.params, scope, inFlight, held);
      match args
      case ArgsErr(o) => (o, c1)
      case ArgsOk(values, missing) =>
        (if missing then CallError else Ok(Built(key, provider.lifetime, values)), c1)
  }

  /** `_call_factory`: the arguments of a factory, left to right. */
  function Args(g: Graph, c: Caches, params: seq<Param>, scope: bool, inFlight: set<Key>, held: set<nat>)
    : (ArgsOutcome, Caches)
    decreases |Universe(g) - inFlight|, |params| + 2
  {
    if params == [] then (ArgsOk([], false), c)
    else
      var (before, c1) := Args(g, c, params[..|params| - 1], scope, inFlight, held);
      if before.ArgsErr? then (before, c1)
      else
        match params[|params| - 1]
        case Unannotated(hasDefault) =>
          (if hasDefault then ArgsOk(before.values + [Omitted], before.missing) else ArgsErr(Failed), c1)
        case ContainerParam => (ArgsOk(before.values + [ContainerRef], before.missing), c1)
        case ScopeParam(hasDefault) =>
          (if scope then ArgsOk(before.values + [ScopeRef], before.missing)
           else ArgsOk(before.values + [Omitted], before.missing || !hasDefault), c1)
        case Dep(dep, hasDefault) =>
          var (o, c2) := Resolve(g, c1, dep, scope, inFlight, held);
          (match o
           case Ok(v) => ArgsOk(before.values + [v], before.missing)
           case Failed => if hasDefault then ArgsOk(before.values + [Omitted], before.missing) else ArgsErr(Failed)
           case _ => ArgsErr(o), c2)
  }

  // ---------------------------------------------------------------------
  // Overrides
  // ---------------------------------------------------------------------

  /** What `override` remembers for its exit: the earlier override and the cached singleton of the key. */
  datatype Saved = Saved(previous: Option<Provider>, singleton: Option<Value>)

  function Put<K, V>(m: map<K, V>, k: K, v: Option<V>): map<K, V> {
    if v.Some? then m[k := v.value] else m - {k}
  }

  function WithOverride(g: Graph, key: Key, provider: Option<Provider>): Graph
    requires |g.levels| > 0
  {
    var own := g.levels[0];
    g.(levels := g.levels[0 := own.(overrides := Put(own.overrides, key, provider))])
  }

  function EnterOverride(g: Graph, c: Caches, key: Key, provider: Provider): (Graph, Caches, Saved)
    requires |g.levels| > 0
  {
    (WithOverride(g, key, Some(provider)),
     c.(singletons := Put(c.singletons, (0, key), None)),
     Saved(Lookup(g.levels[0].overrides, key), Lookup(c.singletons, (0, key))))
  }

  function ExitOverride(g: Graph, c: Caches, key: Key, saved: Saved): (Graph, Caches)
    requires |g.levels| > 0
  {
    (WithOverride(g, key, saved.previous), c.(singletons := Put(c.singletons, (0, key), saved.singleton)))
  }

  // ---------------------------------------------------------------------
  // The class
  // ---------------------------------------------------------------------

  class ScopeCache {
    var cache: map<Key, Value>

    constructor ()
      ensures cache == map[]
    {
      cache := map[];
    }
  }

  /** One container seen from one caller: the in-flight set, the locks the caller holds, and the singleton caches of the hierarchy. */
  class DiContainer {
    var graph: Graph
    var singletons: map<(nat, Key), Value>
    var resolving: set<Key>
    var held: set<nat>

    constructor (graph: Graph)
      ensures this.graph == graph && singletons == map[] && resolving == {} && held == {}
    {
      this.graph := graph;
      singletons, resolving, held := map[], {}, {};
    }

    function CachesWith(scope: ScopeCache): Caches
      reads this, scope
    {
      Caches(singletons, scope.cache)
    }

    /** `active == false` stands for `scope=None`. Whatever happens short of hanging, the in-flight set and locks are restored. */
    method ResolveKey(key: Key, scope: ScopeCache, active: bool) returns (o: Outcome)
      modifies this`singletons, this`resolving, this`held, scope
      ensures (o, CachesWith(scope)) == Resolve(graph, old(CachesWith(scope)), key, active, old(resolving), old(held))
      ensures !o.Deadlock? ==> resolving == old(resolving) && held == old(held)
      decreases |Universe(graph) - resolving|, 0, 2
    {
      if key in resolving {
        return Failed;
      }
      var found := Find(graph, key);
      if found.None? {
        return Failed;
      }
      var (provider, owner) := found.value;
      if provider.Instance? || provider.lifetime.Singleton? {
        o := ResolveSingleton(key, provider, owner, scope);
      } else if provider.lifetime.Scoped? {
        o := ResolveScoped(key, provider, scope, active);
      } else {
        o := Entered(key, provider, scope, active);
      }
    }

    /** Produces a value with `key` in flight. */
    method Entered(key: Key, provider: Provider, scope: ScopeCache, active: bool) returns (o: Outcome)
      requires key !in resolving && Find(graph, key).Some?
      modifies this`singletons, this`resolving, this`held, scope
      ensures (o, CachesWith(scope))
           == Provide(graph, old(CachesWith(scope)), key, provider, active, old(resolving) + {key}, old(held))
      ensures !o.Deadlock? ==> resolving == old(resolving) && held == old(held)
      decreases |Universe(graph) - resolving|, 0, 0
    {
      FewerLeft(graph, key, resolving);
      ghost var outer := resolving;
      resolving := resolving + {key};
      o := ProvideValue(key, provider, scope, active);
      if !o.Deadlock? {
        resolving := resolving - {key};
        assert resolving == outer;
      }
    }

    method ResolveSingleton(key: Key, provider: Provider, owner: nat, scope: ScopeCache) returns (o: Outcome)
      requires key !in resolving && Find(graph, key).Some?
      modifies this`singletons, this`resolving, this`held, scope
      ensures (o, CachesWith(scope))
           == ResolveOnce(graph, old(CachesWith(scope)), key, provider, owner, old(resolving), old(held))
      ensures !o.Deadlock? ==> resolving == old(resolving) && held == old(held)
      decreases |Universe(graph) - resolving|, 0, 1
    {
      if (owner, key) in singletons {
        return Ok(singletons[(owner, key)]);
      }
      if owner in held {
        return Deadlock;
      }
      ghost var outer := held;
      held := held + {owner};
      o := Entered(key, provider, scope, false);
      if o.Deadlock? {
        return;
      }
      if o.Ok? {
        singletons := singletons[(owner, key) := o.value];
      }
      held := held - {owner};
      assert held == outer;
    }

    method ResolveScoped(key: Key, provider: Provider, scope: ScopeCache, active: bool) returns (o: Outcome)
      requires key !in resolving && Find(graph, key).Some?
      modifies this`singletons, this`resolving, this`held, scope
      ensures (o, CachesWith(scope))
           == ResolveInScope(graph, old(CachesWith(scope)), key, provider, active, old(resolving), old(held))
      ensures !o.Deadlock? ==> resolving == old(resolving) && held == old(held)
      decreases |Universe(graph) - resolving|, 0, 1
    {
      if !active {
        return Failed;
      }
      if key in scope.cache {
        return Ok(scope.cache[key]);
      }
      o := Entered(key, provider, scope, false);
      if o.Ok? {
        scope.cache := scope.cache[key := o.value];
      }
    }

    method ProvideValue(key: Key, provider: Provider, scope: ScopeCache, active: bool) returns (o: Outcome)
      modifies this`singletons, this`resolving, this`held, scope
      ensures (o, CachesWith(scope))
           == Provide(graph, old(CachesWith(scope)), key, provider, active, old(resolving), old(held))
      ensures !o.Deadlock? ==> resolving == old(resolving) && held == old(held)
      decreases |Universe(graph) - resolving|, 2
    {
      if provider.Instance? {
        return Ok(Given(provider.tag));
      }
      var args := CallFactory(provider.params, scope, active);
      match args {
        case ArgsErr(outcome) => o := outcome;
        case ArgsOk(values, missing) => o := if missing then CallError else Ok(Built(key, provider.lifetime, values));
      }
    }

    method CallFactory(params: seq<Param>, scope: ScopeCache, active: bool) returns (args: ArgsOutcome)
      modifies this`singletons, this`resolving, this`held, scope
      ensures (args, CachesWith(scope))
           == Args(graph, old(CachesWith(scope)), params, active, old(resolving), old(held))
      ensures args != ArgsErr(Deadlock) ==> resolving == old(resolving) && held == old(held)
      decreases |Universe(graph) - resolving|, 1
    {
      var values: seq<Value>, missing := [], false;
      for i := 0 to |params|
        invariant resolving == old(resolving) && held == old(held)
        invariant (ArgsOk(values, missing), CachesWith(scope))
               == Args(graph, old(CachesWith(scope)), params[..i], active, old(resolving), old(held))
      {
        assert params[..i + 1][..i] == params[..i];
        if Args(graph, old(CachesWith(scope)), params[..i + 1], active, resolving, held).0.ArgsErr? {
          ArgsStop(graph, old(CachesWith(scope)), params, i + 1, active, resolving, held);
        }
        match params[i] {
          case Unannotated(hasDefault) =>
            if !hasDefault {
              return ArgsErr(Failed);
            }
            values := values + [Omitted];
          case ContainerParam =>
            values := values + [ContainerRef];
          case ScopeParam(hasDefault) =>
            values := values + [if active then ScopeRef else Omitted];
            missing := missing || (!active && !hasDefault);
          case Dep(dep, hasDefault) =>
            var o := ResolveKey(dep, scope, active);
            match o {
              case Ok(v) => values := values + [v];
              case Failed =>
                if !hasDefault {
                  return ArgsErr(Failed);
                }
                values := values + [Omitted];
              case CallError => return ArgsErr(CallError);
              case Deadlock => return ArgsErr(Deadlock);
            }
        }
      }
      assert params[..|params|] == params;
      return ArgsOk(values, missing);
    }
  }

  /** A failed argument ends the list. */
  lemma {:induction false} ArgsStop(g: Graph, c: Caches, params: seq<Param>, n: nat, scope: bool, inFlight: set<Key>, held: set<nat>)
    requires n <= |params| && Args(g, c, params[..n], scope, inFlight, held).0.ArgsErr?
    ensures Args(g, c, params, scope, inFlight, held) == Args(g, c, params[..n], scope, inFlight, held)
    decreases |params|
  {
    if n == |params| {
      assert params[..n] == params;
    } else {
      assert params[..|params| - 1][..n] == params[..n];
      ArgsStop(g, c, params[..|params| - 1], n, scope, inFlight, held);
    }
  }
}
