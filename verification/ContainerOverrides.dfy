/** What an override block leaves behind. */
module ContainerOverrides {
  import opened Options
  import opened Container
  import opened ContainerLaws

  /** Leaving an override block gives back the registrations and the key's own cached singleton, whatever was resolved inside. */
  lemma OverrideRestores(g: Graph, c: Caches, key: Key, provider: Provider, requests: seq<(Key, bool)>)
    requires |g.levels| > 0 && CachesOk(c)
    ensures var (inside, c1, saved) := EnterOverride(g, c, key, provider);
      var (after, c2) := ExitOverride(inside, ResolveAll(inside, c1, requests), key, saved);
      && after == g
      && Lookup(c2.singletons, (0, key)) == Lookup(c.singletons, (0, key))
      && Grows(c, c2)
  {
    var (inside, c1, saved) := EnterOverride(g, c, key, provider);
    ResolveAllGrows(inside, c1, requests);
    var own := g.levels[0];
    assert Put(Put(own.overrides, key, Some(provider)), key, saved.previous) == own.overrides;
    assert WithOverride(inside, key, saved.previous).levels == g.levels;
  }

  lemma FindUnderOverride(g: Graph, key: Key, provider: Option<Provider>, other: Key)
    requires |g.levels| > 0 && other != key
    ensures Find(WithOverride(g, key, provider), other) == Find(g, other)
  {
    FindFromAgrees(g, WithOverride(g, key, provider), other, 0);
  }

  lemma {:induction false} FindFromAgrees(g: Graph, h: Graph, key: Key, level: nat)
    requires |g.levels| == |h.levels| && level <= |g.levels|
    requires forall i :: 0 <= i < |g.levels| ==>
      && Lookup(g.levels[i].overrides, key) == Lookup(h.levels[i].overrides, key)
      && g.levels[i].providers == h.levels[i].providers
    ensures FindFrom(g, key, level) == FindFrom(h, key, level)
    decreases |g.levels| - level
  {
    if level < |g.levels| {
      FindFromAgrees(g, h, key, level + 1);
      assert Lookup(g.levels[level].overrides, key) == Lookup(h.levels[level].overrides, key);
    }
  }

  // ---------------------------------------------------------------------
  // Where cached values come from
  // ---------------------------------------------------------------------

  /** `v` is what provider `p` of `key` makes. */
  predicate MadeBy(p: Provider, key: Key, v: Value) {
    match p
    case Instance(tag) => v == Given(tag)
    case Factory(lifetime, params) => v.Built? && v.key == key && v.lifetime == lifetime && |v.args| == |params|
  }

  /** Singletons that were cached meanwhile were made by the provider their container has for them. */
  ghost predicate NewMade(g: Graph, c: Caches, c': Caches) {
    forall e :: e in c'.singletons ==>
      || (e in c.singletons && c'.singletons[e] == c.singletons[e])
      || (Find(g, e.1).Some? && Find(g, e.1).value.1 == e.0 && MadeBy(Find(g, e.1).value.0, e.1, c'.singletons[e]))
  }

  lemma {:induction false} ResolveMade(g: Graph, c: Caches, key: Key, scope: bool, inFlight: set<Key>, held: set<nat>)
    ensures var (o, c') := Resolve(g, c, key, scope, inFlight, held);
      && NewMade(g, c, c')
      && (o.Ok? && IsOnce(g, key) ==>
            Served(g, c', key) && o.value == c'.singletons[(Find(g, key).value.1, key)])
      && (o.Ok? && IsTransient(g, key) ==> MadeBy(Find(g, key).value.0, key, o.value))
    decreases |Universe(g) - inFlight|, 1
  {
    if key !in inFlight && Find(g, key).Some? {
      var (provider, owner) := Find(g, key).value;
      FewerLeft(g, key, inFlight);
      if Once(provider) {
        if (owner, key) !in c.singletons && owner !in held {
          ProvideMade(g, c, key, provider, false, inFlight + {key}, held + {owner});
        }
      } else {
        ProvideMade(g, c, key, provider, if provider.lifetime.Scoped? then false else scope, inFlight + {key}, held);
      }
    }
  }

  lemma {:induction false} ProvideMade(g: Graph, c: Caches, key: Key, provider: Provider, scope: bool,
                                       inFlight: set<Key>, held: set<nat>)
    ensures var (o, c') := Provide(g, c, key, provider, scope, inFlight, held);
      NewMade(g, c, c') && (o.Ok? ==> MadeBy(provider, key, o.value))
    decreases |Universe(g) - inFlight|, if provider.Factory? then |provider.params| + 3 else 2
  {
    if provider.Factory? {
      ArgsMade(g, c, provider.params, scope, inFlight, held);
      ArgsErrIsNotOk(g, c, provider.params, scope, inFlight, held);
    }
  }

  lemma {:induction false} ArgsMade(g: Graph, c: Caches, params: seq<Param>, scope: bool, inFlight: set<Key>, held: set<nat>)
    ensures var (args, c') := Args(g, c, params, scope, inFlight, held);
      NewMade(g, c, c') && (args.ArgsOk? ==> |args.values| == |params|)
    decreases |Universe(g) - inFlight|, |params| + 2
  {
    if params != [] {
      var init, last := params[..|params| - 1], params[|params| - 1];
      ArgsMade(g, c, init, scope, inFlight, held);
      var (before, c1) := Args(g, c, init, scope, inFlight, held);
      if before.ArgsOk? && last.Dep? {
        ResolveMade(g, c1, last.key, scope, inFlight, held);
      }
    }
  }

  lemma {:induction false} AllMade(g: Graph, c: Caches, requests: seq<(Key, bool)>)
    ensures NewMade(g, c, ResolveAll(g, c, requests))
  {
    if requests != [] {
      AllMade(g, c, requests[..|requests| - 1]);
      var (key, scope) := requests[|requests| - 1];
      ResolveMade(g, ResolveAll(g, c, requests[..|requests| - 1]), key, scope, {}, {});
    }
  }

  // ---------------------------------------------------------------------
  // Leaks
  // ---------------------------------------------------------------------

  /**
   * After the block the cached singletons are those of before exactly when nothing but the overridden key was newly
   * cached inside.
   */
  lemma OverrideLeavesCachesIff(g: Graph, c: Caches, key: Key, provider: Provider, requests: seq<(Key, bool)>)
    requires |g.levels| > 0 && CachesOk(c)
    ensures var (inside, c1, saved) := EnterOverride(g, c, key, provider);
      var c2 := ResolveAll(inside, c1, requests);
      ExitOverride(inside, c2, key, saved).1.singletons == c.singletons <==>
        forall e :: e in c2.singletons && e != (0, key) ==> e in c.singletons
  {
    var (inside, c1, saved) := EnterOverride(g, c, key, provider);
    var c2 := ResolveAll(inside, c1, requests);
    var c3 := ExitOverride(inside, c2, key, saved).1;
    OverrideRestores(g, c, key, provider, requests);
    forall e ensures e in c3.singletons <==> if e == (0, key) then e in c.singletons else e in c2.singletons {
    }
    if c3.singletons == c.singletons {
      forall e | e in c2.singletons && e != (0, key) ensures e in c.singletons {
        assert e in c3.singletons;
      }
    }
  }

  ghost predicate Uses(g: Graph, k: Key, dep: Key) {
    Find(g, k).Some? && Find(g, k).value.0.Factory? &&
    (Dep(dep, false) in Find(g, k).value.0.params || Dep(dep, true) in Find(g, k).value.0.params)
  }

  ghost predicate UsePath(g: Graph, p: seq<Key>) {
    p != [] && forall i :: 0 <= i < |p| - 1 ==> Uses(g, p[i], p[i + 1])
  }

  /** Constructing `key` may come to construct `other`. */
  ghost predicate Reaches(g: Graph, key: Key, other: Key) {
    exists p :: UsePath(g, p) && p[0] == key && p[|p| - 1] == other
  }

  lemma ReachesItself(g: Graph, key: Key)
    ensures Reaches(g, key, key)
  {
    var p := [key];
    assert UsePath(g, p) && p[0] == key && p[|p| - 1] == key;
  }

  lemma ReachesFurther(g: Graph, key: Key, dep: Key, other: Key)
    requires Uses(g, key, dep) && Reaches(g, dep, other)
    ensures Reaches(g, key, other)
  {
    var p :| UsePath(g, p) && p[0] == dep && p[|p| - 1] == other;
    var q := [key] + p;
    forall i | 0 <= i < |q| - 1 ensures Uses(g, q[i], q[i + 1]) {
      if i > 0 {
        assert Uses(g, p[i - 1], p[i]);
      }
    }
    assert UsePath(g, q) && q[0] == key && q[|q| - 1] == other;
  }

  /** A singleton that was cached meanwhile, where its container keeps it. */
  ghost predicate NewOnce(g: Graph, c: Caches, c': Caches, e: (nat, Key)) {
    e in c'.singletons && e !in c.singletons && IsOnce(g, e.1) && Find(g, e.1).value.1 == e.0
  }

  ghost predicate CachedFrom(g: Graph, c: Caches, c': Caches, key: Key) {
    forall e :: e in c'.singletons && e !in c.singletons ==> NewOnce(g, c, c', e) && Reaches(g, key, e.1)
  }

  ghost predicate CachedFromArgs(g: Graph, c: Caches, c': Caches, params: seq<Param>) {
    forall e :: e in c'.singletons && e !in c.singletons ==>
      NewOnce(g, c, c', e) && exists dep :: dep in params && dep.Dep? && Reaches(g, dep.key, e.1)
  }

  lemma ArgsReach(g: Graph, c: Caches, c': Caches, key: Key)
    requires Find(g, key).Some? && Find(g, key).value.0.Factory?
    requires CachedFromArgs(g, c, c', Find(g, key).value.0.params)
    ensures CachedFrom(g, c, c', key)
  {
    var params := Find(g, key).value.0.params;
    forall e | e in c'.singletons && e !in c.singletons ensures NewOnce(g, c, c', e) && Reaches(g, key, e.1) {
      var dep :| dep in params && dep.Dep? && Reaches(g, dep.key, e.1);
      assert dep == Dep(dep.key, dep.hasDefault);
      ReachesFurther(g, key, dep.key, e.1);
    }
  }

  /** Resolving a key caches only singletons it reaches. */
  lemma {:induction false} ResolveReaches(g: Graph, c: Caches, key: Key, scope: bool, inFlight: set<Key>, held: set<nat>)
    ensures CachedFrom(g, c, Resolve(g, c, key, scope, inFlight, held).1, key)
    decreases |Universe(g) - inFlight|, 1
  {
    if key !in inFlight && Find(g, key).Some? {
      var (provider, owner) := Find(g, key).value;
      FewerLeft(g, key, inFlight);
      ReachesItself(g, key);
      if Once(provider) {
        if (owner, key) !in c.singletons && owner !in held {
          ProvideReaches(g, c, key, provider, false, inFlight + {key}, held + {owner});
        }
      } else {
        ProvideReaches(g, c, key, provider, if provider.lifetime.Scoped? then false else scope, inFlight + {key}, held);
      }
    }
  }

  lemma {:induction false} ProvideReaches(g: Graph, c: Caches, key: Key, provider: Provider, scope: bool,
                                          inFlight: set<Key>, held: set<nat>)
    requires Find(g, key).Some? && Find(g, key).value.0 == provider
    ensures CachedFrom(g, c, Provide(g, c, key, provider, scope, inFlight, held).1, key)
    decreases |Universe(g) - inFlight|, if provider.Factory? then |provider.params| + 3 else 2
  {
    if provider.Factory? {
      ArgsCacheReached(g, c, provider.params, scope, inFlight, held);
      ArgsReach(g, c, Args(g, c, provider.params, scope, inFlight, held).1, key);
    }
  }

  lemma {:induction false} ArgsCacheReached(g: Graph, c: Caches, params: seq<Param>, scope: bool,
                                            inFlight: set<Key>, held: set<nat>)
    ensures CachedFromArgs(g, c, Args(g, c, params, scope, inFlight, held).1, params)
    decreases |Universe(g) - inFlight|, |params| + 2
  {
    if params != [] {
      var init, last := params[..|params| - 1], params[|params| - 1];
      ArgsCacheReached(g, c, init, scope, inFlight, held);
      var (before, c1) := Args(g, c, init, scope, inFlight, held);
      if before.ArgsOk? && last.Dep? {
        ResolveReaches(g, c1, last.key, scope, inFlight, held);
      }
    }
  }

  /** No singleton that is not cached yet, other than `key`, can come to be constructed by the requests. */
  ghost predicate ReachesNothingNew(g: Graph, c: Caches, key: Key, requests: seq<(Key, bool)>) {
    forall request, other :: request in requests && Reaches(g, request.0, other) && other != key && IsOnce(g, other) ==>
      Served(g, c, other)
  }

  lemma {:induction false} AllReach(g: Graph, c: Caches, key: Key, requests: seq<(Key, bool)>)
    requires ReachesNothingNew(g, c, key, requests) && CachesOk(c)
    ensures forall e :: e in ResolveAll(g, c, requests).singletons && e !in c.singletons ==>
      e.1 == key && IsOnce(g, key) && Find(g, key).value.1 == e.0
  {
    if requests != [] {
      var init, request := requests[..|requests| - 1], requests[|requests| - 1];
      AllReach(g, c, key, init);
      ResolveAllGrows(g, c, init);
      var c1 := ResolveAll(g, c, init);
      ResolveReaches(g, c1, request.0, request.1, {}, {});
      assert request in requests;
    }
  }

  /**
   * Which requests are harmless can be told before the block: where they reach no singleton that is not cached, other
   * than the overridden key, the block leaves the cached singletons as they were.
   */
  lemma HarmlessRequests(g: Graph, c: Caches, key: Key, provider: Provider, requests: seq<(Key, bool)>)
    requires |g.levels| > 0 && CachesOk(c)
    requires ReachesNothingNew(WithOverride(g, key, Some(provider)), c, key, requests)
    ensures var (inside, c1, saved) := EnterOverride(g, c, key, provider);
      ExitOverride(inside, ResolveAll(inside, c1, requests), key, saved).1.singletons == c.singletons
  {
    var (inside, c1, saved) := EnterOverride(g, c, key, provider);
    FindOverridden(g, key, provider);
    forall request, other | request in requests && Reaches(inside, request.0, other) && other != key && IsOnce(inside, other)
      ensures Served(inside, c1, other)
    {
      assert Served(inside, c, other);
    }
    AllReach(inside, c1, key, requests);
    OverrideLeavesCachesIff(g, c, key, provider, requests);
  }

  lemma FindOverridden(g: Graph, key: Key, provider: Provider)
    requires |g.levels| > 0
    ensures Find(WithOverride(g, key, Some(provider)), key) == Some((provider, 0))
  {
  }

  /** Resolving the overridden key as an argument gives something the replacement made. */
  lemma ArgumentIsReplacement(g: Graph, c0: Caches, c: Caches, key: Key, provider: Provider, inFlight: set<Key>, held: set<nat>)
    requires Find(g, key) == Some((provider, 0)) && NewMade(g, c0, c) && (0, key) !in c0.singletons
    requires Resolve(g, c, key, false, inFlight, held).0.Ok?
    ensures MadeBy(provider, key, Resolve(g, c, key, false, inFlight, held).0.value)
  {
    ResolveMade(g, c, key, false, inFlight, held);
  }

  /** A singleton that depends on the overridden key and is built inside the block is built from the replacement. */
  lemma BuiltFromReplacement(g: Graph, c0: Caches, c: Caches, key: Key, provider: Provider, other: Key, scope: bool)
    returns (v: Value)
    requires Find(g, key) == Some((provider, 0)) && NewMade(g, c0, c) && (0, key) !in c0.singletons
    requires IsOnce(g, other) && Find(g, other).value.0.Factory? && !Served(g, c, other)
    requires Dep(key, false) in Find(g, other).value.0.params
    requires Resolve(g, c, other, scope, {}, {}).0.Ok?
    ensures var built := Resolve(g, c, other, scope, {}, {}).0.value;
      built.Built? && v in built.args && MadeBy(provider, key, v)
  {
    var (p, owner) := Find(g, other).value;
    SingletonProvide(g, c, other, scope);
    ArgsErrIsNotOk(g, c, p.params, false, {other}, {owner});
    var n := ArgsOkNeeds(g, c, p.params, key, false, false, {other}, {owner});
    var c1 := Args(g, c, p.params[..n], false, {other}, {owner}).1;
    ArgsMade(g, c, p.params[..n], false, {other}, {owner});
    ArgumentIsReplacement(g, c0, c1, key, provider, {other}, {owner});
    v := Resolve(g, c1, key, false, {other}, {owner}).0.value;
  }

  lemma ServedAfterExit(g: Graph, c: Caches, key: Key, saved: Saved, other: Key, scope: bool, scope': bool)
    requires |g.levels| > 0 && other != key && IsOnce(g, other)
    requires Resolve(g, c, other, scope, {}, {}).0.Ok?
    ensures var (built, c1) := Resolve(g, c, other, scope, {}, {});
      var (after, c2) := ExitOverride(g, c1, key, saved);
      Resolve(after, c2, other, scope', {}, {}).0 == built
  {
    ResolveMade(g, c, other, scope, {}, {});
    FindUnderOverride(g, key, saved.previous, other);
  }

  /**
   * A singleton first built inside the block from the overridden key holds what the replacement made, and is what
   * everyone gets after the block; in the same container it can be built there only once the key itself was resolved.
   */
  lemma OverrideLeaksIntoDependents(g: Graph, c: Caches, key: Key, provider: Provider, requests: seq<(Key, bool)>,
                                    other: Key, scope: bool, scope': bool)
    returns (v: Value)
    requires |g.levels| > 0 && other != key && IsOnce(g, other) && Find(g, other).value.0.Factory?
    requires Dep(key, false) in Find(g, other).value.0.params
    requires var (inside, c1, saved) := EnterOverride(g, c, key, provider);
      var c2 := ResolveAll(inside, c1, requests);
      !Served(g, c2, other) && Resolve(inside, c2, other, scope, {}, {}).0.Ok?
    ensures var (inside, c1, saved) := EnterOverride(g, c, key, provider);
      var c2 := ResolveAll(inside, c1, requests);
      var (built, c3) := Resolve(inside, c2, other, scope, {}, {});
      var (after, c4) := ExitOverride(inside, c3, key, saved);
      && built.value.Built? && v in built.value.args && MadeBy(provider, key, v)
      && Resolve(after, c4, other, scope', {}, {}).0 == built
      && (Once(provider) && Find(g, other).value.1 == 0 ==> (0, key) in c2.singletons)
  {
    var (inside, c1, saved) := EnterOverride(g, c, key, provider);
    var c2 := ResolveAll(inside, c1, requests);
    FindUnderOverride(g, key, Some(provider), other);
    FindOverridden(g, key, provider);
    AllMade(inside, c1, requests);
    v := BuiltFromReplacement(inside, c1, c2, key, provider, other, scope);
    ServedAfterExit(inside, c2, key, saved, other, scope, scope');
    if Once(provider) && Find(g, other).value.1 == 0 && (0, key) !in c2.singletons {
      SingletonOnSingletonHangs(inside, c2, other, [key], false, scope);
    }
  }

  lemma InstanceResolves(g: Graph, c: Caches, key: Key, tag: string, scope: bool)
    requires Find(g, key) == Some((Instance(tag), 0)) && (0, key) !in c.singletons
    ensures Resolve(g, c, key, scope, {}, {}) == (Ok(Given(tag)), c.(singletons := c.singletons[(0, key) := Given(tag)]))
  {
    assert Resolve(g, c, key, scope, {}, {}) == ResolveOnce(g, c, key, Instance(tag), 0, {}, {});
    InstanceOnce(g, c, key, 0, tag);
  }

  lemma TwoRequests(g: Graph, c: Caches, first: (Key, bool), second: (Key, bool))
    ensures var c1 := Resolve(g, c, first.0, first.1, {}, {}).1;
      ResolveAll(g, c, [first, second]) == Resolve(g, c1, second.0, second.1, {}, {}).1
  {
    assert [first, second][..1] == [first] && [first][..0] == [];
    assert ResolveAll(g, c, [first]) == Resolve(g, ResolveAll(g, c, []), first.0, first.1, {}, {}).1;
  }

  lemma OneDependency(g: Graph, c: Caches, key: Key, v: Value, inFlight: set<Key>, held: set<nat>)
    requires Resolve(g, c, key, false, inFlight, held) == (Ok(v), c)
    ensures Args(g, c, [Dep(key, false)], false, inFlight, held) == (ArgsOk([v], false), c)
  {
    assert [Dep(key, false)][..0] == [];
    assert Args(g, c, [], false, inFlight, held) == (ArgsOk([], false), c);
    assert [] + [v] == [v];
  }

  /** A singleton with one cached dependency. */
  lemma BuildsOnCached(g: Graph, c: Caches, key: Key, v: Value, other: Key, scope: bool)
    requires Find(g, key).Some? && Find(g, key).value.1 == 0 && Find(g, key).value.0.Instance? && key != other
    requires Lookup(c.singletons, (0, key)) == Some(v) && (0, other) !in c.singletons
    requires Find(g, other) == Some((Factory(Singleton, [Dep(key, false)]), 0))
    ensures Resolve(g, c, other, scope, {}, {}).0 == Ok(Built(other, Singleton, [v]))
  {
    SingletonProvide(g, c, other, scope);
    OneDependency(g, c, key, v, {other}, {0});
  }

  /** The run that shows it: resolve the overridden key, then a singleton of the same container that needs it. */
  lemma ReplacementStays(g: Graph, c: Caches, key: Key, tag: string, other: Key, scope: bool, scope': bool)
    requires |g.levels| > 0 && other != key && (0, other) !in c.singletons
    requires Find(g, other) == Some((Factory(Singleton, [Dep(key, false)]), 0))
    ensures var (inside, c1, saved) := EnterOverride(g, c, key, Instance(tag));
      var c2 := ResolveAll(inside, c1, [(key, false), (other, scope)]);
      var (after, c3) := ExitOverride(inside, c2, key, saved);
      Resolve(after, c3, other, scope', {}, {}).0 == Ok(Built(other, Singleton, [Given(tag)]))
  {
    var (inside, c1, saved) := EnterOverride(g, c, key, Instance(tag));
    FindUnderOverride(g, key, Some(Instance(tag)), other);
    FindOverridden(g, key, Instance(tag));
    TwoRequests(inside, c1, (key, false), (other, scope));
    InstanceResolves(inside, c1, key, tag, false);
    var c2 := c1.(singletons := c1.singletons[(0, key) := Given(tag)]);
    BuildsOnCached(inside, c2, key, Given(tag), other, scope);
    ServedAfterExit(inside, c2, key, saved, other, scope, scope');
  }
}
