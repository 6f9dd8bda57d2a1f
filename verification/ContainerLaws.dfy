/** What resolution guarantees over every graph, cache and nesting. */
module ContainerLaws {
  import opened Options
  import opened Container

  // ---------------------------------------------------------------------
  // Which provider is used
  // ---------------------------------------------------------------------

  predicate Knows(l: Level, key: Key) {
    key in l.overrides || key in l.providers
  }

  /** Container `n` is the nearest one, seen from level 0, that has an override or a registration of the key. */
  predicate Nearest(g: Graph, key: Key, n: nat) {
    n < |g.levels| && Knows(g.levels[n], key) && forall i :: 0 <= i < n ==> !Knows(g.levels[i], key)
  }

  lemma {:induction false} FindFromNearest(g: Graph, key: Key, level: nat, n: nat)
    requires level <= n && Nearest(g, key, n)
    ensures FindFrom(g, key, level) ==
      Some((if key in g.levels[n].overrides then g.levels[n].overrides[key] else g.levels[n].providers[key], n))
    decreases n - level
  {
    if level < n {
      assert !Knows(g.levels[level], key);
      FindFromNearest(g, key, level + 1, n);
    }
  }

  lemma {:induction false} FindFromNowhere(g: Graph, key: Key, level: nat)
    requires level <= |g.levels| && forall i :: 0 <= i < |g.levels| ==> !Knows(g.levels[i], key)
    ensures FindFrom(g, key, level) == None
    decreases |g.levels| - level
  {
    if level < |g.levels| {
      assert !Knows(g.levels[level], key);
      FindFromNowhere(g, key, level + 1);
    }
  }

  /**
   * A container's own overrides and registrations shadow its ancestors', and an override its registration; the class
   * itself is used, as a transient, only where no container knows the key.
   */
  lemma NearestIsUsed(g: Graph, key: Key)
    ensures forall n: nat :: Nearest(g, key, n) ==>
      var l := g.levels[n];
      Find(g, key) == Some((if key in l.overrides then l.overrides[key] else l.providers[key], n))
    ensures (forall i :: 0 <= i < |g.levels| ==> !Knows(g.levels[i], key)) ==>
      Find(g, key) == if key in g.classes then Some((Factory(Transient, g.classes[key]), 0)) else None
  {
    forall n: nat | Nearest(g, key, n)
      ensures var l := g.levels[n];
        Find(g, key) == Some((if key in l.overrides then l.overrides[key] else l.providers[key], n))
    {
      FindFromNearest(g, key, 0, n);
    }
    if forall i :: 0 <= i < |g.levels| ==> !Knows(g.levels[i], key) {
      FindFromNowhere(g, key, 0);
    }
  }

  /** A key the nearest container has as an instance resolves to that instance, whatever the ancestors hold. */
  lemma NearestInstanceIsResolved(g: Graph, c: Caches, key: Key, n: nat, tag: string, scope: bool)
    requires Nearest(g, key, n) && (n, key) !in c.singletons
    requires var l := g.levels[n];
      Instance(tag) == if key in l.overrides then l.overrides[key] else l.providers[key]
    ensures Resolve(g, c, key, scope, {}, {}) == (Ok(Given(tag)), c.(singletons := c.singletons[(n, key) := Given(tag)]))
  {
    NearestIsUsed(g, key);
    assert Resolve(g, c, key, scope, {}, {}) == ResolveOnce(g, c, key, Instance(tag), n, {}, {});
    InstanceOnce(g, c, key, n, tag);
  }

  lemma InstanceOnce(g: Graph, c: Caches, key: Key, n: nat, tag: string)
    requires Find(g, key) == Some((Instance(tag), n)) && (n, key) !in c.singletons
    ensures ResolveOnce(g, c, key, Instance(tag), n, {}, {}) ==
      (Ok(Given(tag)), c.(singletons := c.singletons[(n, key) := Given(tag)]))
  {
    assert Provide(g, c, key, Instance(tag), false, {} + {key}, {} + {n}) == (Ok(Given(tag)), c);
  }

  // ---------------------------------------------------------------------
  // What the arguments of a factory are
  // ---------------------------------------------------------------------

  /** `v` is the argument for parameter `p`, in the caches the parameters before it left. */
  ghost predicate IsArgument(g: Graph, c: Caches, p: Param, v: Value, scope: bool, inFlight: set<Key>, held: set<nat>) {
    match p
    case Unannotated(hasDefault) => hasDefault && v == Omitted
    case ContainerParam => v == ContainerRef
    case ScopeParam(_) => v == if scope then ScopeRef else Omitted
    case Dep(key, hasDefault) =>
      var o := Resolve(g, c, key, scope, inFlight, held).0;
      o == Ok(v) || (o.Failed? && hasDefault && v == Omitted)
  }

  /** Parameter `p` ends the call with `o`. */
  ghost predicate EndsCall(g: Graph, c: Caches, p: Param, o: Outcome, scope: bool, inFlight: set<Key>, held: set<nat>) {
    match p
    case Unannotated(hasDefault) => !hasDefault && o.Failed?
    case ContainerParam => false
    case ScopeParam(_) => false
    case Dep(key, hasDefault) => !o.Ok? && o == Resolve(g, c, key, scope, inFlight, held).0 && (o.Failed? ==> !hasDefault)
  }

  ghost predicate Arguments(g: Graph, c: Caches, params: seq<Param>, values: seq<Value>, scope: bool,
                            inFlight: set<Key>, held: set<nat>)
  {
    |values| == |params| && forall i :: 0 <= i < |params| ==>
      IsArgument(g, Args(g, c, params[..i], scope, inFlight, held).1, params[i], values[i], scope, inFlight, held)
  }

  ghost predicate EndedBy(g: Graph, c: Caches, params: seq<Param>, n: nat, o: Outcome, scope: bool,
                          inFlight: set<Key>, held: set<nat>)
    requires n < |params|
  {
    var (before, c1) := Args(g, c, params[..n], scope, inFlight, held);
    before.ArgsOk? && EndsCall(g, c1, params[n], o, scope, inFlight, held)
  }

  /** What the last parameter adds. */
  lemma LastArgument(g: Graph, c: Caches, params: seq<Param>, scope: bool, inFlight: set<Key>, held: set<nat>)
    returns (v: Value)
    requires params != []
    ensures var n := |params| - 1;
      var (before, c1) := Args(g, c, params[..n], scope, inFlight, held);
      var args := Args(g, c, params, scope, inFlight, held).0;
      && (before.ArgsErr? ==> args == before)
      && (args.ArgsOk? ==>
            && before.ArgsOk? && args.values == before.values + [v]
            && IsArgument(g, c1, params[n], v, scope, inFlight, held)
            && args.missing == (before.missing || (!scope && params[n] == ScopeParam(false))))
      && (args.ArgsErr? && before.ArgsOk? ==> EndedBy(g, c, params, n, args.outcome, scope, inFlight, held))
  {
    var args := Args(g, c, params, scope, inFlight, held).0;
    v := if args.ArgsOk? && args.values != [] then args.values[|args.values| - 1] else Omitted;
  }

  ghost predicate NeedsScope(params: seq<Param>) {
    exists i :: 0 <= i < |params| && params[i] == ScopeParam(false)
  }

  lemma OneMoreArgument(g: Graph, c: Caches, params: seq<Param>, values: seq<Value>, v: Value, scope: bool,
                        inFlight: set<Key>, held: set<nat>)
    requires params != [] && Arguments(g, c, params[..|params| - 1], values, scope, inFlight, held)
    requires var n := |params| - 1;
      IsArgument(g, Args(g, c, params[..n], scope, inFlight, held).1, params[n], v, scope, inFlight, held)
    ensures Arguments(g, c, params, values + [v], scope, inFlight, held)
  {
    var n := |params| - 1;
    forall i | 0 <= i < |params|
      ensures IsArgument(g, Args(g, c, params[..i], scope, inFlight, held).1, params[i], (values + [v])[i], scope, inFlight, held)
    {
      if i < n {
        assert params[..n][..i] == params[..i] && params[..n][i] == params[i];
      }
    }
  }

  /** The arguments are what the parameters resolve to, one by one and in order. */
  lemma {:induction false} ArgsMatchParams(g: Graph, c: Caches, params: seq<Param>, scope: bool, inFlight: set<Key>, held: set<nat>)
    requires Args(g, c, params, scope, inFlight, held).0.ArgsOk?
    ensures Arguments(g, c, params, Args(g, c, params, scope, inFlight, held).0.values, scope, inFlight, held)
  {
    if params != [] {
      var init := params[..|params| - 1];
      var v := LastArgument(g, c, params, scope, inFlight, held);
      ArgsMatchParams(g, c, init, scope, inFlight, held);
      OneMoreArgument(g, c, params, Args(g, c, init, scope, inFlight, held).0.values, v, scope, inFlight, held);
    }
  }

  /** A call fails for a missing argument exactly where a required scope is not active. */
  lemma {:induction false} MissingIff(g: Graph, c: Caches, params: seq<Param>, scope: bool, inFlight: set<Key>, held: set<nat>)
    requires Args(g, c, params, scope, inFlight, held).0.ArgsOk?
    ensures Args(g, c, params, scope, inFlight, held).0.missing <==> !scope && NeedsScope(params)
  {
    if params != [] {
      var n := |params| - 1;
      var v := LastArgument(g, c, params, scope, inFlight, held);
      MissingIff(g, c, params[..n], scope, inFlight, held);
      LastNeedsScope(params);
    }
  }

  lemma LastNeedsScope(params: seq<Param>)
    requires params != []
    ensures NeedsScope(params) <==> NeedsScope(params[..|params| - 1]) || params[|params| - 1] == ScopeParam(false)
  {
    var init := params[..|params| - 1];
    if i :| 0 <= i < |params| && params[i] == ScopeParam(false) {
      assert i < |init| ==> init[i] == ScopeParam(false);
    }
    if i :| 0 <= i < |init| && init[i] == ScopeParam(false) {
      assert params[i] == ScopeParam(false);
    }
  }

  /** The first parameter without a value ends the call, with the outcome that says why. */
  lemma {:induction false} FirstFailureEnds(g: Graph, c: Caches, params: seq<Param>, scope: bool, inFlight: set<Key>, held: set<nat>)
    returns (n: nat)
    requires Args(g, c, params, scope, inFlight, held).0.ArgsErr?
    ensures n < |params| && EndedBy(g, c, params, n, Args(g, c, params, scope, inFlight, held).0.outcome, scope, inFlight, held)
  {
    n := |params| - 1;
    var v := LastArgument(g, c, params, scope, inFlight, held);
    if Args(g, c, params[..n], scope, inFlight, held).0.ArgsErr? {
      var k := FirstFailureEnds(g, c, params[..n], scope, inFlight, held);
      assert params[..n][..k] == params[..k];
      n := k;
    }
  }

  /** A factory makes an object of its key and lifetime from these arguments, or fails as its arguments do. */
  lemma FactoryBuilds(g: Graph, c: Caches, key: Key, lifetime: Lifetime, params: seq<Param>, scope: bool,
                      inFlight: set<Key>, held: set<nat>)
    ensures var o := Provide(g, c, key, Factory(lifetime, params), scope, inFlight, held).0;
      && (o.Ok? ==>
            && o.value.Built? && o.value.key == key && o.value.lifetime == lifetime
            && Arguments(g, c, params, o.value.args, scope, inFlight, held) && (scope || !NeedsScope(params)))
      && (!o.Ok? ==>
            || (o.CallError? && !scope && NeedsScope(params))
            || exists n :: 0 <= n < |params| && EndedBy(g, c, params, n, o, scope, inFlight, held))
  {
    if Args(g, c, params, scope, inFlight, held).0.ArgsOk? {
      ArgsMatchParams(g, c, params, scope, inFlight, held);
      MissingIff(g, c, params, scope, inFlight, held);
    } else {
      ArgsErrIsNotOk(g, c, params, scope, inFlight, held);
      var n := FirstFailureEnds(g, c, params, scope, inFlight, held);
    }
  }

  // ---------------------------------------------------------------------
  // Success means no reachable gap, no reachable cycle and nothing that cannot be had here
  // ---------------------------------------------------------------------

  ghost predicate Required(params: seq<Param>) {
    forall p :: p in params ==> p.Dep? && !p.hasDefault
  }

  predicate Once(p: Provider) {
    p.Instance? || p.lifetime.Singleton?
  }

  predicate IsTransient(g: Graph, k: Key) {
    Find(g, k).Some? && Find(g, k).value.0.Factory? && Find(g, k).value.0.lifetime.Transient?
  }

  predicate IsScoped(g: Graph, k: Key) {
    Find(g, k).Some? && Find(g, k).value.0.Factory? && Find(g, k).value.0.lifetime.Scoped?
  }

  predicate IsOnce(g: Graph, k: Key) {
    Find(g, k).Some? && Once(Find(g, k).value.0)
  }

  /** A singleton that is cached already. */
  predicate Served(g: Graph, c: Caches, k: Key) {
    IsOnce(g, k) && (Find(g, k).value.1, k) in c.singletons
  }

  /** Every factory has required dependencies only. */
  ghost predicate Mixed(g: Graph) {
    forall k :: Find(g, k).Some? && Find(g, k).value.0.Factory? ==> Required(Find(g, k).value.0.params)
  }

  /** While the locks `held` are held no singleton is built: each is cached already, or its lock is taken. */
  ghost predicate Locked(g: Graph, c: Caches, held: set<nat>) {
    forall k :: IsOnce(g, k) ==> Served(g, c, k) || Find(g, k).value.1 in held
  }

  /** Every provider is a transient factory of required dependencies. */
  ghost predicate Plain(g: Graph) {
    Mixed(g) && forall k :: Find(g, k).Some? ==> IsTransient(g, k)
  }

  ghost predicate NoScoped(g: Graph) {
    forall k :: !IsScoped(g, k)
  }

  ghost predicate Needs(g: Graph, c: Caches, k: Key, dep: Key) {
    Find(g, k).Some? && Find(g, k).value.0.Factory? && !Served(g, c, k) && Dep(dep, false) in Find(g, k).value.0.params
  }

  /** What can be had without building a singleton or anything scoped. */
  predicate Fit(g: Graph, c: Caches, k: Key) {
    Served(g, c, k) || IsTransient(g, k)
  }

  /** A path of dependencies; it goes on behind nothing that is served from the cache. */
  ghost predicate IsPath(g: Graph, c: Caches, p: seq<Key>) {
    p != [] && forall i :: 0 <= i < |p| - 1 ==> Needs(g, c, p[i], p[i + 1])
  }

  ghost predicate Simple(p: seq<Key>) {
    forall i, j :: 0 <= i < j < |p| ==> p[i] != p[j]
  }

  /** The path meets no key in flight, repeats none, and ends at a key that can be had. */
  ghost predicate GoodPath(g: Graph, c: Caches, p: seq<Key>, inFlight: set<Key>) {
    Simple(p) && (forall k :: k in p ==> k !in inFlight) && (p != [] ==> Fit(g, c, p[|p| - 1]))
  }

  ghost predicate GoodFrom(g: Graph, c: Caches, key: Key, inFlight: set<Key>) {
    forall p :: IsPath(g, c, p) && p[0] == key ==> GoodPath(g, c, p, inFlight)
  }

  lemma PathTail(g: Graph, c: Caches, p: seq<Key>)
    requires IsPath(g, c, p) && |p| > 1
    ensures IsPath(g, c, p[1..]) && Needs(g, c, p[0], p[1]) && p == [p[0]] + p[1..]
  {
    forall i | 0 <= i < |p[1..]| - 1 ensures Needs(g, c, p[1..][i], p[1..][i + 1]) {
      assert Needs(g, c, p[i + 1], p[i + 2]);
    }
  }

  lemma PathCons(g: Graph, c: Caches, k: Key, p: seq<Key>)
    requires IsPath(g, c, p) && Needs(g, c, k, p[0])
    ensures IsPath(g, c, [k] + p)
  {
    forall i | 0 <= i < |p| ensures Needs(g, c, ([k] + p)[i], ([k] + p)[i + 1]) {
      if i > 0 {
        assert Needs(g, c, p[i - 1], p[i]);
      }
    }
  }

  /** Every path from `key` is simple, and beyond `key` it ends at something that can be had. */
  ghost predicate GoodBeyond(g: Graph, c: Caches, key: Key, inFlight: set<Key>) {
    forall p :: IsPath(g, c, p) && p[0] == key && |p| > 1 ==> GoodPath(g, c, p, inFlight)
  }

  lemma GoodBeyondIff(g: Graph, c: Caches, key: Key, inFlight: set<Key>)
    requires key !in inFlight
    ensures GoodBeyond(g, c, key, inFlight) <==>
      forall dep :: Needs(g, c, key, dep) ==> GoodFrom(g, c, dep, inFlight + {key})
  {
    if GoodBeyond(g, c, key, inFlight) {
      forall dep | Needs(g, c, key, dep) ensures GoodFrom(g, c, dep, inFlight + {key}) {
        GoodDep(g, c, key, dep, inFlight);
      }
    }
    if forall dep :: Needs(g, c, key, dep) ==> GoodFrom(g, c, dep, inFlight + {key}) {
      GoodStep(g, c, key, inFlight);
    }
  }

  lemma GoodStep(g: Graph, c: Caches, key: Key, inFlight: set<Key>)
    requires key !in inFlight
    requires forall dep :: Needs(g, c, key, dep) ==> GoodFrom(g, c, dep, inFlight + {key})
    ensures GoodBeyond(g, c, key, inFlight)
  {
    forall p | IsPath(g, c, p) && p[0] == key && |p| > 1 ensures GoodPath(g, c, p, inFlight) {
      PathTail(g, c, p);
      assert GoodPath(g, c, p[1..], inFlight + {key});
      assert p[1..][|p[1..]| - 1] == p[|p| - 1];
    }
  }

  lemma GoodPathTail(g: Graph, c: Caches, key: Key, p: seq<Key>, inFlight: set<Key>)
    requires p != [] && GoodPath(g, c, [key] + p, inFlight)
    ensures GoodPath(g, c, p, inFlight + {key})
  {
    var q := [key] + p;
    assert q[|q| - 1] == p[|p| - 1];
    assert forall i :: 0 <= i < |p| ==> p[i] == q[i + 1] && q[0] != q[i + 1] && q[i + 1] !in inFlight;
    forall i, j | 0 <= i < j < |p| ensures p[i] != p[j] {
      assert q[i + 1] != q[j + 1];
    }
  }

  lemma GoodDep(g: Graph, c: Caches, key: Key, dep: Key, inFlight: set<Key>)
    requires GoodBeyond(g, c, key, inFlight) && Needs(g, c, key, dep)
    ensures GoodFrom(g, c, dep, inFlight + {key})
  {
    forall p | IsPath(g, c, p) && p[0] == dep ensures GoodPath(g, c, p, inFlight + {key}) {
      PathCons(g, c, key, p);
      GoodPathTail(g, c, key, p, inFlight);
    }
  }

  lemma GoodSelfIff(g: Graph, c: Caches, key: Key, inFlight: set<Key>)
    ensures GoodFrom(g, c, key, inFlight) <==>
      key !in inFlight && Fit(g, c, key) && GoodBeyond(g, c, key, inFlight)
  {
    var self := [key];
    assert IsPath(g, c, self) && key in self;
    if GoodFrom(g, c, key, inFlight) {
      assert GoodPath(g, c, self, inFlight);
    }
    forall p | IsPath(g, c, p) && p[0] == key && |p| == 1 ensures p == self {
    }
  }

  /** What building from `args` comes to. */
  function Made(key: Key, lifetime: Lifetime, args: ArgsOutcome): Outcome {
    match args
    case ArgsErr(o) => o
    case ArgsOk(values, missing) => if missing then CallError else Ok(Built(key, lifetime, values))
  }

  lemma TransientProvide(g: Graph, c: Caches, key: Key, scope: bool, inFlight: set<Key>, held: set<nat>)
    requires key !in inFlight && IsTransient(g, key)
    ensures var (args, c') := Args(g, c, Find(g, key).value.0.params, scope, inFlight + {key}, held);
      Resolve(g, c, key, scope, inFlight, held) == (Made(key, Transient, args), c')
  {
    FewerLeft(g, key, inFlight);
    var provider := Find(g, key).value.0;
    assert Resolve(g, c, key, scope, inFlight, held)
        == Provide(g, c, key, provider, scope, inFlight + {key}, held);
  }

  /** Every required dependency is good. */
  ghost predicate GoodArgs(g: Graph, c: Caches, params: seq<Param>, inFlight: set<Key>) {
    forall dep :: Dep(dep, false) in params ==> GoodFrom(g, c, dep, inFlight)
  }

  /** What evaluating arguments comes to where no cache can change. */
  ghost predicate LockedOutcome(c: Caches, result: (ArgsOutcome, Caches), good: bool) {
    && result.1 == c && (result.0.ArgsOk? <==> good) && (result.0.ArgsOk? ==> !result.0.missing)
    && (result.0.ArgsErr? ==> !result.0.outcome.Ok? && !result.0.outcome.CallError?)
  }

  lemma TransientIsGoodIff(g: Graph, c: Caches, key: Key, inFlight: set<Key>)
    requires key !in inFlight && IsTransient(g, key)
    ensures GoodFrom(g, c, key, inFlight) <==> GoodArgs(g, c, Find(g, key).value.0.params, inFlight + {key})
  {
    GoodSelfIff(g, c, key, inFlight);
    GoodBeyondIff(g, c, key, inFlight);
    NeedsAreParams(g, c, key);
  }

  lemma ServedIsGoodIff(g: Graph, c: Caches, key: Key, inFlight: set<Key>)
    requires !IsTransient(g, key)
    ensures GoodFrom(g, c, key, inFlight) <==> key !in inFlight && Served(g, c, key)
  {
    GoodSelfIff(g, c, key, inFlight);
    if key !in inFlight && Served(g, c, key) {
      GoodBeyondIff(g, c, key, inFlight);
    }
  }

  /** Where neither a singleton nor anything scoped can be built, resolving changes no cache and succeeds exactly on good paths. */
  lemma {:induction false} LockedResolve(g: Graph, c: Caches, key: Key, scope: bool, inFlight: set<Key>, held: set<nat>)
    requires Mixed(g) && Locked(g, c, held) && (scope ==> NoScoped(g))
    ensures var (o, c') := Resolve(g, c, key, scope, inFlight, held);
      c' == c && (o.Ok? <==> GoodFrom(g, c, key, inFlight)) && !o.CallError?
    decreases |Universe(g) - inFlight|, 1
  {
    if key !in inFlight && IsTransient(g, key) {
      FewerLeft(g, key, inFlight);
      LockedArgs(g, c, Find(g, key).value.0.params, scope, inFlight + {key}, held);
      TransientProvide(g, c, key, scope, inFlight, held);
      TransientIsGoodIff(g, c, key, inFlight);
    } else if !IsTransient(g, key) {
      ServedIsGoodIff(g, c, key, inFlight);
      assert IsScoped(g, key) ==> !scope;
    } else {
      GoodSelfIff(g, c, key, inFlight);
    }
  }

  lemma {:induction false} LockedArgs(g: Graph, c: Caches, params: seq<Param>, scope: bool, inFlight: set<Key>, held: set<nat>)
    requires Mixed(g) && Locked(g, c, held) && (scope ==> NoScoped(g)) && Required(params)
    ensures LockedOutcome(c, Args(g, c, params, scope, inFlight, held), GoodArgs(g, c, params, inFlight))
    decreases |Universe(g) - inFlight|, |params| + 2
  {
    if params != [] {
      var init, last := params[..|params| - 1], params[|params| - 1];
      assert params == init + [last];
      assert last in params;
      LockedArgs(g, c, init, scope, inFlight, held);
      LockedResolve(g, c, last.key, scope, inFlight, held);
    }
  }

  /** Resolving in a graph of transients succeeds if and only if every reachable key can be constructed and no cycle is reachable. */
  lemma ResolveSucceedsIff(g: Graph, c: Caches, key: Key, scope: bool)
    requires Plain(g)
    ensures Resolve(g, c, key, scope, {}, {}).0.Ok? <==>
      forall p :: IsPath(g, c, p) && p[0] == key ==> Simple(p) && Find(g, p[|p| - 1]).Some?
  {
    LockedResolve(g, c, key, scope, {}, {});
    forall p | IsPath(g, c, p) && p[0] == key
      ensures GoodPath(g, c, p, {}) <==> Simple(p) && Find(g, p[|p| - 1]).Some?
    {
    }
  }

  lemma BeyondUnfold(g: Graph, c: Caches, key: Key)
    ensures GoodBeyond(g, c, key, {}) <==>
      forall p :: IsPath(g, c, p) && p[0] == key && |p| > 1 ==> Simple(p) && Fit(g, c, p[|p| - 1])
  {
    forall p | IsPath(g, c, p) && p[0] == key && |p| > 1
      ensures GoodPath(g, c, p, {}) <==> Simple(p) && Fit(g, c, p[|p| - 1])
    {
    }
  }

  lemma NeedsAreParams(g: Graph, c: Caches, key: Key)
    requires Find(g, key).Some? && Find(g, key).value.0.Factory? && !Served(g, c, key)
    ensures forall dep :: Needs(g, c, key, dep) <==> Dep(dep, false) in Find(g, key).value.0.params
  {
  }

  /**
   * Where all singletons are cached, a scoped key that is not is built inside a scope exactly when no gap, no cycle and
   * no other scoped key is reachable from it.
   */
  lemma ScopedSucceedsIff(g: Graph, c: Caches, key: Key)
    requires Mixed(g) && Locked(g, c, {}) && IsScoped(g, key) && key !in c.scoped
    ensures Resolve(g, c, key, true, {}, {}).0.Ok? <==>
      forall p :: IsPath(g, c, p) && p[0] == key && |p| > 1 ==> Simple(p) && Fit(g, c, p[|p| - 1])
  {
    var provider := Find(g, key).value.0;
    FewerLeft(g, key, {});
    LockedArgs(g, c, provider.params, false, {} + {key}, {});
    NeedsAreParams(g, c, key);
    GoodBeyondIff(g, c, key, {});
    BeyondUnfold(g, c, key);
    var (args, c1) := Args(g, c, provider.params, false, {} + {key}, {});
    assert Provide(g, c, key, provider, false, {} + {key}, {}) == (Made(key, Scoped, args), c1);
  }

  /**
   * Where all singletons of other containers are cached, an uncached one is built exactly when no gap, no cycle and
   * nothing scoped is reachable from it and every other singleton in reach is cached already.
   */
  lemma SingletonSucceedsIff(g: Graph, c: Caches, key: Key, scope: bool)
    requires Mixed(g) && Find(g, key).Some? && Locked(g, c, {Find(g, key).value.1})
    requires Find(g, key).value.0.Factory? && IsOnce(g, key) && !Served(g, c, key)
    ensures Resolve(g, c, key, scope, {}, {}).0.Ok? <==>
      forall p :: IsPath(g, c, p) && p[0] == key && |p| > 1 ==> Simple(p) && Fit(g, c, p[|p| - 1])
  {
    var (provider, owner) := Find(g, key).value;
    FewerLeft(g, key, {});
    LockedArgs(g, c, provider.params, false, {} + {key}, {} + {owner});
    NeedsAreParams(g, c, key);
    GoodBeyondIff(g, c, key, {});
    BeyondUnfold(g, c, key);
    var (args, c1) := Args(g, c, provider.params, false, {} + {key}, {} + {owner});
    assert Provide(g, c, key, provider, false, {} + {key}, {} + {owner}) == (Made(key, Singleton, args), c1);
  }

  // Scoped, singleton and transient providers together, in a fresh scope --------------

  /** As `GoodPath`, where one scoped key may be built. */
  ghost predicate GoodPathIn(g: Graph, c: Caches, p: seq<Key>, inFlight: set<Key>) {
    && Simple(p) && (forall k :: k in p ==> k !in inFlight)
    && (p != [] ==> Fit(g, c, p[|p| - 1]) || IsScoped(g, p[|p| - 1]))
    && forall i, j :: 0 <= i < j < |p| ==> !(IsScoped(g, p[i]) && IsScoped(g, p[j]))
  }

  ghost predicate GoodIn(g: Graph, c: Caches, key: Key, inFlight: set<Key>) {
    forall p :: IsPath(g, c, p) && p[0] == key ==> GoodPathIn(g, c, p, inFlight)
  }

  ghost predicate GoodArgsIn(g: Graph, c: Caches, params: seq<Param>, inFlight: set<Key>) {
    forall dep :: Dep(dep, false) in params ==> GoodIn(g, c, dep, inFlight)
  }

  lemma GoodTail(g: Graph, c: Caches, key: Key, p: seq<Key>, inFlight: set<Key>)
    requires p != [] && GoodPathIn(g, c, [key] + p, inFlight)
    ensures GoodPathIn(g, c, p, inFlight + {key})
    ensures IsScoped(g, key) ==> GoodPath(g, c, p, inFlight + {key})
  {
    var q := [key] + p;
    assert q[|q| - 1] == p[|p| - 1];
    assert forall i :: 0 <= i < |p| ==> p[i] == q[i + 1] && q[0] != q[i + 1] && q[i + 1] !in inFlight;
    forall i, j | 0 <= i < j < |p| ensures p[i] != p[j] && !(IsScoped(g, p[i]) && IsScoped(g, p[j])) {
      assert q[i + 1] != q[j + 1];
    }
    assert IsScoped(g, q[0]) ==> !IsScoped(g, q[|q| - 1]);
  }

  lemma GoodInDep(g: Graph, c: Caches, key: Key, dep: Key, inFlight: set<Key>)
    requires GoodIn(g, c, key, inFlight) && Needs(g, c, key, dep)
    ensures GoodIn(g, c, dep, inFlight + {key})
    ensures IsScoped(g, key) ==> GoodFrom(g, c, dep, inFlight + {key})
  {
    forall p | IsPath(g, c, p) && p[0] == dep
      ensures GoodPathIn(g, c, p, inFlight + {key})
      ensures IsScoped(g, key) ==> GoodPath(g, c, p, inFlight + {key})
    {
      PathCons(g, c, key, p);
      GoodTail(g, c, key, p, inFlight);
    }
  }

  lemma GoodInStep(g: Graph, c: Caches, key: Key, inFlight: set<Key>)
    requires key !in inFlight && (IsTransient(g, key) || IsScoped(g, key))
    requires forall dep :: Needs(g, c, key, dep) ==>
      if IsScoped(g, key) then GoodFrom(g, c, dep, inFlight + {key}) else GoodIn(g, c, dep, inFlight + {key})
    ensures GoodIn(g, c, key, inFlight)
  {
    forall p | IsPath(g, c, p) && p[0] == key ensures GoodPathIn(g, c, p, inFlight) {
      if |p| > 1 {
        PathTail(g, c, p);
        if IsScoped(g, key) {
          TailIsFit(g, c, p[1..], inFlight + {key});
        }
        assert GoodPathIn(g, c, p[1..], inFlight + {key});
      }
    }
  }

  /** Behind a scoped key nothing on a good path is scoped. */
  lemma TailIsFit(g: Graph, c: Caches, p: seq<Key>, inFlight: set<Key>)
    requires IsPath(g, c, p) && GoodFrom(g, c, p[0], inFlight)
    ensures forall k :: k in p ==> Fit(g, c, k) && !IsScoped(g, k)
    ensures GoodPathIn(g, c, p, inFlight)
  {
    forall i | 0 <= i < |p| ensures Fit(g, c, p[i]) {
      var q := p[..i + 1];
      assert IsPath(g, c, q) by {
        forall j | 0 <= j < |q| - 1 ensures Needs(g, c, q[j], q[j + 1]) {
          assert Needs(g, c, p[j], p[j + 1]);
        }
      }
      assert GoodPath(g, c, q, inFlight);
    }
    assert GoodPath(g, c, p, inFlight);
  }

  lemma GoodInIff(g: Graph, c: Caches, key: Key, inFlight: set<Key>)
    requires key !in inFlight && (IsTransient(g, key) || IsScoped(g, key))
    ensures IsTransient(g, key) ==>
      (GoodIn(g, c, key, inFlight) <==> GoodArgsIn(g, c, Find(g, key).value.0.params, inFlight + {key}))
    ensures IsScoped(g, key) ==>
      (GoodIn(g, c, key, inFlight) <==> GoodArgs(g, c, Find(g, key).value.0.params, inFlight + {key}))
  {
    NeedsAreParams(g, c, key);
    if GoodIn(g, c, key, inFlight) {
      forall dep | Needs(g, c, key, dep)
        ensures GoodIn(g, c, dep, inFlight + {key})
        ensures IsScoped(g, key) ==> GoodFrom(g, c, dep, inFlight + {key})
      {
        GoodInDep(g, c, key, dep, inFlight);
      }
    }
    if forall dep :: Needs(g, c, key, dep) ==>
      if IsScoped(g, key) then GoodFrom(g, c, dep, inFlight + {key}) else GoodIn(g, c, dep, inFlight + {key})
    {
      GoodInStep(g, c, key, inFlight);
    }
  }

  /** Every key whose construction is under way leads to `key`. */
  ghost predicate LeadTo(g: Graph, c: Caches, inFlight: set<Key>, key: Key) {
    forall f :: f in inFlight ==> exists p :: IsPath(g, c, p) && |p| > 1 && p[0] == f && p[|p| - 1] == key
  }

  /** What the scope holds could be built in it. */
  ghost predicate ScopeOk(g: Graph, c: Caches, scoped: map<Key, Value>) {
    forall s :: s in scoped && IsScoped(g, s) ==> GoodIn(g, c, s, {})
  }

  lemma JoinPaths(g: Graph, c: Caches, p: seq<Key>, q: seq<Key>)
    requires IsPath(g, c, p) && IsPath(g, c, q) && p[|p| - 1] == q[0]
    ensures IsPath(g, c, p + q[1..])
  {
    var joined := p + q[1..];
    forall i | 0 <= i < |joined| - 1 ensures Needs(g, c, joined[i], joined[i + 1]) {
      if i < |p| - 1 {
        assert Needs(g, c, p[i], p[i + 1]);
      } else {
        assert joined[i] == q[i - |p| + 1] && Needs(g, c, q[i - |p| + 1], q[i - |p| + 2]);
      }
    }
  }

  lemma PathPrefix(g: Graph, c: Caches, p: seq<Key>, n: nat)
    requires IsPath(g, c, p) && 0 < n <= |p|
    ensures IsPath(g, c, p[..n])
  {
    forall i | 0 <= i < n - 1 ensures Needs(g, c, p[..n][i], p[..n][i + 1]) {
      assert Needs(g, c, p[i], p[i + 1]);
    }
  }

  lemma LeadFurther(g: Graph, c: Caches, inFlight: set<Key>, key: Key, dep: Key)
    requires LeadTo(g, c, inFlight, key) && Needs(g, c, key, dep)
    ensures LeadTo(g, c, inFlight + {key}, dep)
  {
    var step := [key, dep];
    assert IsPath(g, c, step);
    forall f | f in inFlight ensures exists p :: IsPath(g, c, p) && |p| > 1 && p[0] == f && p[|p| - 1] == dep {
      var p :| IsPath(g, c, p) && |p| > 1 && p[0] == f && p[|p| - 1] == key;
      JoinPaths(g, c, p, step);
      var q := p + step[1..];
      assert IsPath(g, c, q) && |q| > 1 && q[0] == f && q[|q| - 1] == dep;
    }
    assert IsPath(g, c, step) && |step| > 1 && step[0] == key && step[|step| - 1] == dep;
  }

  /** From where a good path ends nothing leads back to its start. */
  lemma NoWayBack(g: Graph, c: Caches, key: Key, p: seq<Key>)
    requires GoodIn(g, c, key, {}) && IsPath(g, c, p) && p[0] == key
    ensures forall q :: IsPath(g, c, q) && |q| > 1 && q[0] == p[|p| - 1] ==> q[|q| - 1] != key
  {
    forall q | IsPath(g, c, q) && |q| > 1 && q[0] == p[|p| - 1] ensures q[|q| - 1] != key {
      JoinPaths(g, c, p, q);
      var joined := p + q[1..];
      assert GoodPathIn(g, c, joined, {});
      assert joined[0] == key && joined[|joined| - 1] == q[|q| - 1];
    }
  }

  /** A key that could be built alone can be built behind keys that lead to it: they are not reachable from it. */
  lemma GoodBehind(g: Graph, c: Caches, key: Key, inFlight: set<Key>)
    requires GoodIn(g, c, key, {}) && LeadTo(g, c, inFlight, key)
    ensures GoodIn(g, c, key, inFlight)
  {
    forall p | IsPath(g, c, p) && p[0] == key ensures GoodPathIn(g, c, p, inFlight) {
      assert GoodPathIn(g, c, p, {});
      forall i | 0 <= i < |p| ensures p[i] !in inFlight {
        PathPrefix(g, c, p, i + 1);
        NoWayBack(g, c, key, p[..i + 1]);
      }
    }
  }

  /** Paths depend on the cached singletons only. */
  lemma SameGood(g: Graph, c: Caches, c': Caches, params: seq<Param>, inFlight: set<Key>)
    requires c.singletons == c'.singletons
    ensures GoodArgs(g, c, params, inFlight) <==> GoodArgs(g, c', params, inFlight)
  {
    assert forall k, dep :: Needs(g, c, k, dep) <==> Needs(g, c', k, dep);
    assert forall p :: IsPath(g, c, p) <==> IsPath(g, c', p);
    assert forall p :: GoodPath(g, c, p, inFlight) <==> GoodPath(g, c', p, inFlight);
    assert forall dep :: GoodFrom(g, c, dep, inFlight) <==> GoodFrom(g, c', dep, inFlight);
  }

  /** A scoped key that is not cached, resolved in a scope. */
  lemma ScopedInScope(g: Graph, c0: Caches, c: Caches, key: Key, inFlight: set<Key>)
    requires Mixed(g) && Locked(g, c0, {}) && c.singletons == c0.singletons
    requires IsScoped(g, key) && key !in c.scoped && key !in inFlight
    ensures var (o, c') := Resolve(g, c, key, true, inFlight, {});
      && (o.Ok? <==> GoodIn(g, c0, key, inFlight)) && !o.CallError?
      && c'.singletons == c0.singletons
      && c'.scoped == if o.Ok? then c.scoped[key := o.value] else c.scoped
  {
    var provider := Find(g, key).value.0;
    FewerLeft(g, key, inFlight);
    forall k | IsOnce(g, k) ensures Served(g, c, k) {
      assert Served(g, c0, k);
    }
    LockedArgs(g, c, provider.params, false, inFlight + {key}, {});
    SameGood(g, c, c0, provider.params, inFlight + {key});
    GoodInIff(g, c0, key, inFlight);
    var (args, c1) := Args(g, c, provider.params, false, inFlight + {key}, {});
    assert Provide(g, c, key, provider, false, inFlight + {key}, {}) == (Made(key, Scoped, args), c1);
    assert Resolve(g, c, key, true, inFlight, {}) == ResolveInScope(g, c, key, provider, true, inFlight, {});
  }

  /** What the lemmas below say of a resolution in a scope: singletons stay, and what the scope holds stays good. */
  ghost predicate ScopeKept(g: Graph, c0: Caches, c: Caches) {
    c.singletons == c0.singletons && ScopeOk(g, c0, c.scoped)
  }

  lemma ParamsLeadFurther(g: Graph, c: Caches, inFlight: set<Key>, key: Key)
    requires LeadTo(g, c, inFlight, key) && IsTransient(g, key)
    ensures forall dep :: Dep(dep, false) in Find(g, key).value.0.params ==> LeadTo(g, c, inFlight + {key}, dep)
  {
    NeedsAreParams(g, c, key);
    forall dep | Dep(dep, false) in Find(g, key).value.0.params ensures LeadTo(g, c, inFlight + {key}, dep) {
      LeadFurther(g, c, inFlight, key, dep);
    }
  }

  /** What evaluating arguments in a scope comes to. */
  ghost predicate ScopeOutcome(g: Graph, c0: Caches, result: (ArgsOutcome, Caches), good: bool) {
    && ScopeKept(g, c0, result.1) && (result.0.ArgsOk? <==> good) && (result.0.ArgsOk? ==> !result.0.missing)
    && (result.0.ArgsErr? ==> !result.0.outcome.Ok? && !result.0.outcome.CallError?)
  }

  lemma {:induction false} ScopeTransient(g: Graph, c0: Caches, c: Caches, key: Key, inFlight: set<Key>)
    requires Mixed(g) && Locked(g, c0, {}) && ScopeKept(g, c0, c) && LeadTo(g, c0, inFlight, key)
    requires IsTransient(g, key) && key !in inFlight
    ensures var (o, c') := Resolve(g, c, key, true, inFlight, {});
      ScopeKept(g, c0, c') && (o.Ok? <==> GoodIn(g, c0, key, inFlight)) && !o.CallError?
    decreases |Universe(g) - inFlight|, 0
  {
    var params := Find(g, key).value.0.params;
    FewerLeft(g, key, inFlight);
    ParamsLeadFurther(g, c0, inFlight, key);
    ScopeArgs(g, c0, c, params, inFlight + {key});
    TransientProvide(g, c, key, true, inFlight, {});
    GoodInIff(g, c0, key, inFlight);
  }

  /** A scoped key, cached or not. */
  lemma ScopeScoped(g: Graph, c0: Caches, c: Caches, key: Key, inFlight: set<Key>)
    requires Mixed(g) && Locked(g, c0, {}) && ScopeKept(g, c0, c) && LeadTo(g, c0, inFlight, key)
    requires IsScoped(g, key) && key !in inFlight
    ensures var (o, c') := Resolve(g, c, key, true, inFlight, {});
      ScopeKept(g, c0, c') && (o.Ok? <==> GoodIn(g, c0, key, inFlight)) && !o.CallError?
  {
    if key in c.scoped {
      GoodBehind(g, c0, key, inFlight);
    } else {
      ScopedInScope(g, c0, c, key, inFlight);
      if GoodIn(g, c0, key, inFlight) {
        GoodAlone(g, c0, key, inFlight);
      }
    }
  }

  lemma {:induction false} ScopeResolve(g: Graph, c0: Caches, c: Caches, key: Key, inFlight: set<Key>)
    requires Mixed(g) && Locked(g, c0, {}) && ScopeKept(g, c0, c) && LeadTo(g, c0, inFlight, key)
    ensures var (o, c') := Resolve(g, c, key, true, inFlight, {});
      ScopeKept(g, c0, c') && (o.Ok? <==> GoodIn(g, c0, key, inFlight)) && !o.CallError?
    decreases |Universe(g) - inFlight|, 1
  {
    var self := [key];
    assert IsPath(g, c0, self) && key in self;
    if key in inFlight || Find(g, key).None? {
      assert !GoodPathIn(g, c0, self, inFlight);
    } else if IsTransient(g, key) {
      ScopeTransient(g, c0, c, key, inFlight);
    } else if IsScoped(g, key) {
      ScopeScoped(g, c0, c, key, inFlight);
    } else {
      ServedInScope(g, c0, c, key, inFlight);
    }
  }

  lemma GoodAlone(g: Graph, c: Caches, key: Key, inFlight: set<Key>)
    requires GoodIn(g, c, key, inFlight)
    ensures GoodIn(g, c, key, {})
  {
    forall p | IsPath(g, c, p) && p[0] == key ensures GoodPathIn(g, c, p, {}) {
      assert GoodPathIn(g, c, p, inFlight);
    }
  }

  lemma ServedInScope(g: Graph, c0: Caches, c: Caches, key: Key, inFlight: set<Key>)
    requires Locked(g, c0, {}) && c.singletons == c0.singletons && IsOnce(g, key) && key !in inFlight
    ensures Resolve(g, c, key, true, inFlight, {}).0.Ok? && Resolve(g, c, key, true, inFlight, {}).1 == c
    ensures GoodIn(g, c0, key, inFlight)
  {
    assert Served(g, c0, key);
    forall p | IsPath(g, c0, p) && p[0] == key ensures GoodPathIn(g, c0, p, inFlight) {
      assert |p| > 1 ==> Needs(g, c0, p[0], p[1]);
      assert p == [key];
    }
  }

  lemma {:induction false} ScopeArgs(g: Graph, c0: Caches, c: Caches, params: seq<Param>, inFlight: set<Key>)
    requires Mixed(g) && Locked(g, c0, {}) && ScopeKept(g, c0, c) && Required(params)
    requires forall dep :: Dep(dep, false) in params ==> LeadTo(g, c0, inFlight, dep)
    ensures ScopeOutcome(g, c0, Args(g, c, params, true, inFlight, {}), GoodArgsIn(g, c0, params, inFlight))
    decreases |Universe(g) - inFlight|, |params| + 2
  {
    if params != [] {
      var init, last := params[..|params| - 1], params[|params| - 1];
      assert params == init + [last];
      assert last in params;
      ScopeArgs(g, c0, c, init, inFlight);
      ScopeResolve(g, c0, Args(g, c, init, true, inFlight, {}).1, last.key, inFlight);
    }
  }

  /**
   * Transient, scoped and singleton providers together: in a fresh scope, all singletons being cached, a key is resolved
   * exactly when no gap and no cycle is reachable from it and no path of dependencies meets two scoped keys.
   */
  lemma MixedSucceedsIff(g: Graph, c: Caches, key: Key)
    requires Mixed(g) && Locked(g, c, {}) && c.scoped == map[]
    ensures Resolve(g, c, key, true, {}, {}).0.Ok? <==>
      forall p :: IsPath(g, c, p) && p[0] == key ==>
        && Simple(p) && Find(g, p[|p| - 1]).Some?
        && forall i, j :: 0 <= i < j < |p| ==> !(IsScoped(g, p[i]) && IsScoped(g, p[j]))
  {
    ScopeResolve(g, c, c, key, {});
    forall p | IsPath(g, c, p) && p[0] == key
      ensures GoodPathIn(g, c, p, {}) <==>
        && Simple(p) && Find(g, p[|p| - 1]).Some?
        && forall i, j :: 0 <= i < j < |p| ==> !(IsScoped(g, p[i]) && IsScoped(g, p[j]))
    {
      var last := p[|p| - 1];
      assert IsOnce(g, last) ==> Served(g, c, last);
    }
  }

  // ---------------------------------------------------------------------
  // Lifetimes: nothing scoped inside anything cached
  // ---------------------------------------------------------------------

  /** Neither a scoped instance nor the scope itself occurs anywhere in what `v` was built from. */
  ghost predicate ScopeFree(v: Value) {
    match v
    case Built(_, lifetime, args) => !lifetime.Scoped? && forall a :: a in args ==> ScopeFree(a)
    case ScopeRef => false
    case _ => true
  }

  ghost predicate PartsScopeFree(v: Value) {
    v.Built? ==> forall a :: a in v.args ==> ScopeFree(a)
  }

  /** No singleton contains anything scoped, and a scoped instance contains nothing scoped but itself. */
  ghost predicate CachesOk(c: Caches) {
    && (forall k :: k in c.singletons ==> ScopeFree(c.singletons[k]))
    && (forall k :: k in c.scoped ==> PartsScopeFree(c.scoped[k]))
  }

  ghost predicate Grows(c: Caches, c': Caches) {
    && (forall k :: k in c.singletons ==> k in c'.singletons && c'.singletons[k] == c.singletons[k])
    && (forall k :: k in c.scoped ==> k in c'.scoped && c'.scoped[k] == c.scoped[k])
  }

  /** Keys in flight are not cached meanwhile, so nothing cached is ever replaced. */
  ghost predicate Untouched(c: Caches, c': Caches, inFlight: set<Key>) {
    && (forall k, i: nat :: k in inFlight && (i, k) in c'.singletons ==> (i, k) in c.singletons)
    && (forall k :: k in inFlight && k in c'.scoped ==> k in c.scoped)
  }

  ghost predicate Keeps(c: Caches, c': Caches, inFlight: set<Key>) {
    CachesOk(c') && Grows(c, c') && Untouched(c, c', inFlight)
  }

  lemma {:induction false} ResolveKeepsCaches(g: Graph, c: Caches, key: Key, scope: bool, inFlight: set<Key>, held: set<nat>)
    requires CachesOk(c)
    ensures var (o, c') := Resolve(g, c, key, scope, inFlight, held);
      Keeps(c, c', inFlight) && (o.Ok? && !scope ==> ScopeFree(o.value))
    decreases |Universe(g) - inFlight|, 1
  {
    if key !in inFlight && Find(g, key).Some? {
      var (provider, owner) := Find(g, key).value;
      if provider.Instance? || provider.lifetime.Singleton? {
        OnceKeepsCaches(g, c, key, provider, owner, inFlight, held);
      } else if provider.lifetime.Scoped? {
        InScopeKeepsCaches(g, c, key, provider, scope, inFlight, held);
      } else {
        FewerLeft(g, key, inFlight);
        ProvideKeepsCaches(g, c, key, provider, scope, inFlight + {key}, held);
      }
    }
  }

  lemma {:induction false} OnceKeepsCaches(g: Graph, c: Caches, key: Key, provider: Provider, owner: nat,
                                           inFlight: set<Key>, held: set<nat>)
    requires CachesOk(c) && key !in inFlight && Find(g, key).Some?
    requires provider.Instance? || provider.lifetime.Singleton?
    ensures var (o, c') := ResolveOnce(g, c, key, provider, owner, inFlight, held);
      Keeps(c, c', inFlight) && (o.Ok? ==> ScopeFree(o.value))
    decreases |Universe(g) - inFlight|, 0
  {
    if (owner, key) !in c.singletons && owner !in held {
      FewerLeft(g, key, inFlight);
      ProvideKeepsCaches(g, c, key, provider, false, inFlight + {key}, held + {owner});
      var (o, c1) := Provide(g, c, key, provider, false, inFlight + {key}, held + {owner});
      if o.Ok? {
        CachingKeeps(c, c1, owner, key, o.value, inFlight);
      }
    }
  }

  lemma CachingKeeps(c: Caches, c1: Caches, owner: nat, key: Key, v: Value, inFlight: set<Key>)
    requires Keeps(c, c1, inFlight + {key}) && (owner, key) !in c.singletons && key !in inFlight && ScopeFree(v)
    ensures Keeps(c, c1.(singletons := c1.singletons[(owner, key) := v]), inFlight)
  {
    assert (owner, key) !in c1.singletons;
  }

  lemma {:induction false} InScopeKeepsCaches(g: Graph, c: Caches, key: Key, provider: Provider, scope: bool,
                                              inFlight: set<Key>, held: set<nat>)
    requires CachesOk(c) && key !in inFlight && Find(g, key).Some?
    ensures var (o, c') := ResolveInScope(g, c, key, provider, scope, inFlight, held);
      Keeps(c, c', inFlight) && (o.Ok? ==> scope)
    decreases |Universe(g) - inFlight|, 0
  {
    if scope && key !in c.scoped {
      FewerLeft(g, key, inFlight);
      ProvideKeepsCaches(g, c, key, provider, false, inFlight + {key}, held);
      var (o, c1) := Provide(g, c, key, provider, false, inFlight + {key}, held);
      if o.Ok? {
        ScopeCachingKeeps(c, c1, key, o.value, inFlight);
      }
    }
  }

  lemma ScopeCachingKeeps(c: Caches, c1: Caches, key: Key, v: Value, inFlight: set<Key>)
    requires Keeps(c, c1, inFlight + {key}) && key !in c.scoped && key !in inFlight && PartsScopeFree(v)
    ensures Keeps(c, c1.(scoped := c1.scoped[key := v]), inFlight)
  {
    assert key !in c1.scoped;
  }

  lemma BuiltScopeFree(key: Key, lifetime: Lifetime, args: seq<Value>)
    requires forall v :: v in args ==> ScopeFree(v)
    ensures PartsScopeFree(Built(key, lifetime, args))
    ensures !lifetime.Scoped? ==> ScopeFree(Built(key, lifetime, args))
  {
  }

  lemma {:induction false} ProvideKeepsCaches(g: Graph, c: Caches, key: Key, provider: Provider, scope: bool,
                                              inFlight: set<Key>, held: set<nat>)
    requires CachesOk(c)
    ensures var (o, c') := Provide(g, c, key, provider, scope, inFlight, held);
      && Keeps(c, c', inFlight)
      && (o.Ok? && !scope ==> PartsScopeFree(o.value))
      && (o.Ok? && !scope && (provider.Instance? || !provider.lifetime.Scoped?) ==> ScopeFree(o.value))
    decreases |Universe(g) - inFlight|, if provider.Factory? then |provider.params| + 3 else 2
  {
    if provider.Factory? {
      ArgsKeepCaches(g, c, provider.params, scope, inFlight, held);
      var (args, c1) := Args(g, c, provider.params, scope, inFlight, held);
      var o := Provide(g, c, key, provider, scope, inFlight, held).0;
      if args.ArgsOk? && !scope && o.Ok? {
        assert o.value == Built(key, provider.lifetime, args.values);
        BuiltScopeFree(key, provider.lifetime, args.values);
      }
    }
  }

  lemma {:induction false} ArgsKeepCaches(g: Graph, c: Caches, params: seq<Param>, scope: bool,
                                          inFlight: set<Key>, held: set<nat>)
    requires CachesOk(c)
    ensures var (args, c') := Args(g, c, params, scope, inFlight, held);
      && Keeps(c, c', inFlight)
      && (args.ArgsErr? ==> !args.outcome.Ok?)
      && (args.ArgsOk? && !scope ==> forall v :: v in args.values ==> ScopeFree(v))
    decreases |Universe(g) - inFlight|, |params| + 2
  {
    if params != [] {
      var init, last := params[..|params| - 1], params[|params| - 1];
      ArgsKeepCaches(g, c, init, scope, inFlight, held);
      var (before, c1) := Args(g, c, init, scope, inFlight, held);
      if before.ArgsOk? && last.Dep? {
        ResolveKeepsCaches(g, c1, last.key, scope, inFlight, held);
      }
    }
  }

  /** A sequence of top-level resolutions, each with or without the scope. */
  function ResolveAll(g: Graph, c: Caches, requests: seq<(Key, bool)>): Caches {
    if requests == [] then c
    else
      var (key, scope) := requests[|requests| - 1];
      Resolve(g, ResolveAll(g, c, requests[..|requests| - 1]), key, scope, {}, {}).1
  }

  /** No run of resolutions ever caches a singleton built, at any depth, from a scoped instance or a scope. */
  lemma {:induction false} SingletonsAreScopeFree(g: Graph, requests: seq<(Key, bool)>)
    ensures CachesOk(ResolveAll(g, Caches(map[], map[]), requests))
  {
    if requests != [] {
      SingletonsAreScopeFree(g, requests[..|requests| - 1]);
      var (key, scope) := requests[|requests| - 1];
      ResolveKeepsCaches(g, ResolveAll(g, Caches(map[], map[]), requests[..|requests| - 1]), key, scope, {}, {});
    }
  }

  /** A singleton, once resolved, is the same object ever after. */
  lemma SingletonIsStable(g: Graph, c: Caches, key: Key, requests: seq<(Key, bool)>, scope1: bool, scope2: bool)
    requires CachesOk(c) && Find(g, key).Some?
    requires Find(g, key).value.0.Instance? || Find(g, key).value.0.lifetime.Singleton?
    requires Resolve(g, c, key, scope1, {}, {}).0.Ok?
    ensures var (first, c1) := Resolve(g, c, key, scope1, {}, {});
      Resolve(g, ResolveAll(g, c1, requests), key, scope2, {}, {}).0 == first
  {
    ResolveKeepsCaches(g, c, key, scope1, {}, {});
    ResolveAllGrows(g, Resolve(g, c, key, scope1, {}, {}).1, requests);
  }

  lemma {:induction false} ResolveAllGrows(g: Graph, c: Caches, requests: seq<(Key, bool)>)
    requires CachesOk(c)
    ensures CachesOk(ResolveAll(g, c, requests)) && Grows(c, ResolveAll(g, c, requests))
  {
    if requests != [] {
      ResolveAllGrows(g, c, requests[..|requests| - 1]);
      var (key, scope) := requests[|requests| - 1];
      ResolveKeepsCaches(g, ResolveAll(g, c, requests[..|requests| - 1]), key, scope, {}, {});
    }
  }

  // ---------------------------------------------------------------------
  // Two limits of the caching rules, for any parameter lists
  // ---------------------------------------------------------------------

  /** A successful argument list resolved each of its dependencies, in the caches the parameters before it left. */
  lemma {:induction false} ArgsOkNeeds(g: Graph, c: Caches, params: seq<Param>, dep: Key, hasDefault: bool, scope: bool,
                                       inFlight: set<Key>, held: set<nat>)
    returns (n: nat)
    requires Args(g, c, params, scope, inFlight, held).0.ArgsOk? && Dep(dep, hasDefault) in params
    ensures n < |params|
    ensures var o := Resolve(g, Args(g, c, params[..n], scope, inFlight, held).1, dep, scope, inFlight, held).0;
      if o.Ok? then o.value in Args(g, c, params, scope, inFlight, held).0.values else hasDefault && o.Failed?
  {
    var init, last := params[..|params| - 1], params[|params| - 1];
    if last == Dep(dep, hasDefault) {
      n := |params| - 1;
    } else {
      assert params == init + [last];
      n := ArgsOkNeeds(g, c, init, dep, hasDefault, scope, inFlight, held);
      assert params[..n] == init[..n];
    }
  }

  lemma {:induction false} ArgsErrIsNotOk(g: Graph, c: Caches, params: seq<Param>, scope: bool, inFlight: set<Key>, held: set<nat>)
    ensures var args := Args(g, c, params, scope, inFlight, held).0; args.ArgsErr? ==> !args.outcome.Ok?
    decreases |params|
  {
    if params != [] {
      ArgsErrIsNotOk(g, c, params[..|params| - 1], scope, inFlight, held);
    }
  }

  /** Transients, each with the next key among its required dependencies. */
  ghost predicate Chain(g: Graph, p: seq<Key>) {
    && p != []
    && forall i :: 0 <= i < |p| - 1 ==> IsTransient(g, p[i]) && Dep(p[i + 1], false) in Find(g, p[i]).value.0.params
  }

  lemma ChainTail(g: Graph, p: seq<Key>)
    requires Chain(g, p) && |p| > 1
    ensures Chain(g, p[1..]) && p[1..][|p[1..]| - 1] == p[|p| - 1]
  {
    forall i | 0 <= i < |p[1..]| - 1
      ensures IsTransient(g, p[1..][i]) && Dep(p[1..][i + 1], false) in Find(g, p[1..][i]).value.0.params
    {
      assert p[1..][i] == p[i + 1] && p[1..][i + 1] == p[i + 2];
    }
  }

  /** Without a scope nothing can be had that leads to a scoped key. */
  lemma {:induction false} NeverWithoutScope(g: Graph, c: Caches, p: seq<Key>, inFlight: set<Key>, held: set<nat>)
    requires Chain(g, p) && IsScoped(g, p[|p| - 1])
    ensures !Resolve(g, c, p[0], false, inFlight, held).0.Ok?
    decreases |p|
  {
    if |p| > 1 && p[0] !in inFlight {
      var params := Find(g, p[0]).value.0.params;
      ChainTail(g, p);
      TransientProvide(g, c, p[0], false, inFlight, held);
      ArgsErrIsNotOk(g, c, params, false, inFlight + {p[0]}, held);
      if Args(g, c, params, false, inFlight + {p[0]}, held).0.ArgsOk? {
        var n := ArgsOkNeeds(g, c, params, p[1], false, false, inFlight + {p[0]}, held);
        NeverWithoutScope(g, Args(g, c, params[..n], false, inFlight + {p[0]}, held).1, p[1..], inFlight + {p[0]}, held);
      }
    }
  }

  lemma ScopedProvide(g: Graph, c: Caches, key: Key, scope: bool)
    requires IsScoped(g, key) && key !in c.scoped
    ensures Resolve(g, c, key, scope, {}, {}).0
         == if scope then Made(key, Scoped, Args(g, c, Find(g, key).value.0.params, false, {key}, {}).0) else Failed
  {
    FewerLeft(g, key, {});
    var provider := Find(g, key).value.0;
    assert {} + {key} == {key};
    assert Provide(g, c, key, provider, false, {key}, {}).0
        == Made(key, Scoped, Args(g, c, provider.params, false, {key}, {}).0);
  }

  /**
   * A scoped provider that needs another scoped one, directly or through transients, is never built, not even inside
   * a scope that already holds the other.
   */
  lemma ScopedCannotUseScoped(g: Graph, c: Caches, key: Key, p: seq<Key>, scope: bool)
    requires IsScoped(g, key) && key !in c.scoped
    requires Chain(g, p) && Dep(p[0], false) in Find(g, key).value.0.params && IsScoped(g, p[|p| - 1])
    ensures !Resolve(g, c, key, scope, {}, {}).0.Ok?
  {
    var params := Find(g, key).value.0.params;
    ScopedProvide(g, c, key, scope);
    ArgsErrIsNotOk(g, c, params, false, {key}, {});
    if Args(g, c, params, false, {key}, {}).0.ArgsOk? {
      var n := ArgsOkNeeds(g, c, params, p[0], false, false, {key}, {});
      NeverWithoutScope(g, Args(g, c, params[..n], false, {key}, {}).1, p, {key}, {});
    }
  }

  /** The singletons of a container do not change while its lock is held. */
  ghost predicate SameOwned(c: Caches, c': Caches, owner: nat) {
    forall k :: (owner, k) in c'.singletons ==> (owner, k) in c.singletons
  }

  lemma {:induction false} HeldResolve(g: Graph, c: Caches, key: Key, scope: bool, inFlight: set<Key>, held: set<nat>, owner: nat)
    requires owner in held
    ensures SameOwned(c, Resolve(g, c, key, scope, inFlight, held).1, owner)
    decreases |Universe(g) - inFlight|, 1
  {
    if key !in inFlight && Find(g, key).Some? {
      var (provider, o) := Find(g, key).value;
      FewerLeft(g, key, inFlight);
      if Once(provider) {
        HeldOnce(g, c, key, provider, o, inFlight, held, owner);
      } else {
        HeldProvide(g, c, key, provider, if provider.lifetime.Scoped? then false else scope, inFlight + {key}, held, owner);
      }
    }
  }

  lemma {:induction false} HeldOnce(g: Graph, c: Caches, key: Key, provider: Provider, o: nat, inFlight: set<Key>,
                                    held: set<nat>, owner: nat)
    requires owner in held && key !in inFlight && Find(g, key).Some?
    ensures SameOwned(c, ResolveOnce(g, c, key, provider, o, inFlight, held).1, owner)
    decreases |Universe(g) - inFlight|, 0
  {
    FewerLeft(g, key, inFlight);
    if (o, key) !in c.singletons && o !in held {
      HeldProvide(g, c, key, provider, false, inFlight + {key}, held + {o}, owner);
    }
  }

  lemma {:induction false} HeldProvide(g: Graph, c: Caches, key: Key, provider: Provider, scope: bool, inFlight: set<Key>,
                                       held: set<nat>, owner: nat)
    requires owner in held
    ensures SameOwned(c, Provide(g, c, key, provider, scope, inFlight, held).1, owner)
    decreases |Universe(g) - inFlight|, if provider.Factory? then |provider.params| + 3 else 2
  {
    if provider.Factory? {
      HeldArgs(g, c, provider.params, scope, inFlight, held, owner);
    }
  }

  lemma {:induction false} HeldArgs(g: Graph, c: Caches, params: seq<Param>, scope: bool, inFlight: set<Key>,
                                    held: set<nat>, owner: nat)
    requires owner in held
    ensures SameOwned(c, Args(g, c, params, scope, inFlight, held).1, owner)
    decreases |Universe(g) - inFlight|, |params| + 2
  {
    if params != [] {
      var init, last := params[..|params| - 1], params[|params| - 1];
      HeldArgs(g, c, init, scope, inFlight, held, owner);
      var (before, c1) := Args(g, c, init, scope, inFlight, held);
      if before.ArgsOk? && last.Dep? {
        HeldResolve(g, c1, last.key, scope, inFlight, held, owner);
      }
    }
  }

  /** Under the lock of its container nothing can be had that leads to an uncached singleton. */
  lemma {:induction false} NeverUnderLock(g: Graph, c: Caches, p: seq<Key>, scope: bool, inFlight: set<Key>, held: set<nat>)
    requires Chain(g, p) && IsOnce(g, p[|p| - 1]) && !Served(g, c, p[|p| - 1])
    requires Find(g, p[|p| - 1]).value.1 in held
    ensures !Resolve(g, c, p[0], scope, inFlight, held).0.Ok?
    decreases |p|
  {
    if |p| > 1 && p[0] !in inFlight {
      var params := Find(g, p[0]).value.0.params;
      ChainTail(g, p);
      TransientProvide(g, c, p[0], scope, inFlight, held);
      ArgsErrIsNotOk(g, c, params, scope, inFlight + {p[0]}, held);
      if Args(g, c, params, scope, inFlight + {p[0]}, held).0.ArgsOk? {
        var n := ArgsOkNeeds(g, c, params, p[1], false, scope, inFlight + {p[0]}, held);
        HeldArgs(g, c, params[..n], scope, inFlight + {p[0]}, held, Find(g, p[|p| - 1]).value.1);
        NeverUnderLock(g, Args(g, c, params[..n], scope, inFlight + {p[0]}, held).1, p[1..], scope, inFlight + {p[0]}, held);
      }
    }
  }

  lemma SingletonProvide(g: Graph, c: Caches, key: Key, scope: bool)
    requires IsOnce(g, key) && Find(g, key).value.0.Factory? && !Served(g, c, key)
    ensures var (provider, owner) := Find(g, key).value;
      Resolve(g, c, key, scope, {}, {}).0 == Made(key, Singleton, Args(g, c, provider.params, false, {key}, {owner}).0)
  {
    FewerLeft(g, key, {});
    var (provider, owner) := Find(g, key).value;
    assert {} + {key} == {key} && {} + {owner} == {owner};
    assert Provide(g, c, key, provider, false, {key}, {owner}).0
        == Made(key, Singleton, Args(g, c, provider.params, false, {key}, {owner}).0);
  }

  /**
   * A singleton that needs an uncached singleton of the same container, directly or through transients, is never
   * built; when it is the first parameter the call hangs on the container's own lock, default or not.
   */
  lemma SingletonOnSingletonHangs(g: Graph, c: Caches, key: Key, p: seq<Key>, hasDefault: bool, scope: bool)
    requires IsOnce(g, key) && Find(g, key).value.0.Factory? && !Served(g, c, key)
    requires Chain(g, p) && Dep(p[0], hasDefault) in Find(g, key).value.0.params
    requires hasDefault ==> |p| == 1 && p[0] != key
    requires IsOnce(g, p[|p| - 1]) && !Served(g, c, p[|p| - 1]) && Find(g, p[|p| - 1]).value.1 == Find(g, key).value.1
    ensures var o := Resolve(g, c, key, scope, {}, {}).0;
      && !o.Ok?
      && (|p| == 1 && p[0] != key && Find(g, key).value.0.params[0] == Dep(p[0], hasDefault) ==> o.Deadlock?)
  {
    var (provider, owner) := Find(g, key).value;
    var params := provider.params;
    SingletonProvide(g, c, key, scope);
    ArgsErrIsNotOk(g, c, params, false, {key}, {owner});
    if Args(g, c, params, false, {key}, {owner}).0.ArgsOk? {
      var n := ArgsOkNeeds(g, c, params, p[0], hasDefault, false, {key}, {owner});
      var c1 := Args(g, c, params[..n], false, {key}, {owner}).1;
      HeldArgs(g, c, params[..n], false, {key}, {owner}, owner);
      NeverUnderLock(g, c1, p, false, {key}, {owner});
    }
    if |p| == 1 && p[0] != key && params[0] == Dep(p[0], hasDefault) {
      FirstHangs(g, c, params, {key}, {owner});
    }
  }

  lemma FirstHangs(g: Graph, c: Caches, params: seq<Param>, inFlight: set<Key>, held: set<nat>)
    requires params != [] && params[0].Dep? && Resolve(g, c, params[0].key, false, inFlight, held) == (Deadlock, c)
    ensures Args(g, c, params, false, inFlight, held).0 == ArgsErr(Deadlock)
    decreases |params|
  {
    if |params| == 1 {
      assert params[..0] == [];
    } else {
      FirstHangs(g, c, params[..|params| - 1], inFlight, held);
    }
  }
}
