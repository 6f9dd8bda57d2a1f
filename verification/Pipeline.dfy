/** Command pipeline behaviors: the chain, the transaction around a command, and the retry inside it. */
module Pipeline {
  import opened Options

  datatype ErrorKind = InfrastructureKind | TimeoutKind | OtherKind

  datatype Reply = Success | Failure(kind: ErrorKind, code: string) | Raises

  /** What one call of the command handler writes through the active unit of work, and how it ends. */
  datatype Attempt = Attempt(writes: seq<nat>, reply: Reply)

  /** `staged` are the writes of the active unit of work; `calls` counts handler calls. */
  datatype World = World(database: seq<nat>, staged: seq<nat>, calls: nat)

  type Handler = World -> (World, Reply)

  datatype Behavior = Transaction | Retry(maxAttempts: nat, codes: Option<set<string>>)

  /** The handler, whose k-th call is scripted. */
  function Terminal(script: nat -> Attempt): Handler {
    (w: World) => (World(w.database, w.staged + script(w.calls).writes, w.calls + 1), script(w.calls).reply)
  }

  // ---------------------------------------------------------------------
  // Behaviors
  // ---------------------------------------------------------------------

  /** A new unit of work around `next`, committed when it succeeds and rolled back otherwise. */
  function InTransaction(next: Handler, w: World): (World, Reply) {
    var (inner, reply) := next(w.(staged := []));
    (World(if reply.Success? then inner.database + inner.staged else inner.database, w.staged, inner.calls), reply)
  }

  predicate ShouldRetry(codes: Option<set<string>>, reply: Reply) {
    && reply.Failure?
    && (reply.kind.InfrastructureKind? || reply.kind.TimeoutKind?)
    && (codes.Some? ==> reply.code in codes.value)
  }

  /** At most `left` more attempts; none at all never happens, as the constructor refuses it. */
  function Retried(next: Handler, codes: Option<set<string>>, left: nat, w: World): (World, Reply) {
    var (after, reply) := next(w);
    if left > 1 && ShouldRetry(codes, reply) then Retried(next, codes, left - 1, after) else (after, reply)
  }

  function Wrap(b: Behavior, next: Handler): Handler {
    match b
    case Transaction => ((w: World) => InTransaction(next, w))
    case Retry(maxAttempts, codes) => ((w: World) => Retried(next, codes, maxAttempts, w))
  }

  /** The first behavior is the outermost. */
  function Chain(behaviors: seq<Behavior>, terminal: Handler): Handler {
    if behaviors == [] then terminal else Wrap(behaviors[0], Chain(behaviors[1..], terminal))
  }

  class BehaviorChain {
    const behaviors: seq<Behavior>
    const terminal: Handler

    constructor (behaviors: seq<Behavior>, terminal: Handler)
      ensures this.behaviors == behaviors && this.terminal == terminal
    {
      this.behaviors, this.terminal := behaviors, terminal;
    }

    /** Built inside-out, from the last behavior to the first. */
    method Execute(w: World) returns (after: World, reply: Reply)
      ensures (after, reply) == Chain(behaviors, terminal)(w)
    {
      var next := terminal;
      var i := |behaviors|;
      while i > 0
        invariant 0 <= i <= |behaviors|
        invariant next == Chain(behaviors[i..], terminal)
      {
        i := i - 1;
        assert behaviors[i..][1..] == behaviors[i + 1..];
        next := Wrap(behaviors[i], next);
      }
      assert behaviors[0..] == behaviors;
      var result := next(w);
      return result.0, result.1;
    }
  }

  class RetryBehavior {
    const maxAttempts: nat
    const codes: Option<set<string>>

    constructor (maxAttempts: nat, codes: Option<set<string>>)
      requires maxAttempts >= 1
      ensures this.maxAttempts == maxAttempts && this.codes == codes
    {
      this.maxAttempts, this.codes := maxAttempts, codes;
    }

    method Handle(next: Handler, w: World) returns (after: World, last: Reply)
      requires maxAttempts >= 1
      ensures (after, last) == Wrap(Retry(maxAttempts, codes), next)(w)
    {
      after := w;
      last := Raises;
      for attempt := 0 to maxAttempts
        invariant attempt < maxAttempts ==> Retried(next, codes, maxAttempts - attempt, after) == Retried(next, codes, maxAttempts, w)
        invariant attempt == maxAttempts ==> (after, last) == Retried(next, codes, maxAttempts, w)
      {
        var result := next(after);
        after, last := result.0, result.1;
        if !ShouldRetry(codes, last) {
          return;
        }
      }
    }
  }

  // ---------------------------------------------------------------------
  // Retry and transaction together
  // ---------------------------------------------------------------------

  /** Handler calls made by a command whose first call is number `start`. */
  function Calls(script: nat -> Attempt, codes: Option<set<string>>, start: nat, left: nat): (n: nat)
    ensures n >= 1
    decreases left
  {
    if left > 1 && ShouldRetry(codes, script(start).reply) then 1 + Calls(script, codes, start + 1, left - 1) else 1
  }

  function Writes(script: nat -> Attempt, start: nat, n: nat): seq<nat> {
    if n == 0 then [] else Writes(script, start, n - 1) + script(start + n - 1).writes
  }

  lemma {:induction false} WritesFirst(script: nat -> Attempt, start: nat, n: nat)
    requires n >= 1
    ensures Writes(script, start, n) == script(start).writes + Writes(script, start + 1, n - 1)
  {
    if n == 1 {
      assert Writes(script, start, 0) == [];
    } else {
      WritesFirst(script, start, n - 1);
    }
  }

  /** All calls but the last failed with a retryable error, and the last was final or the last allowed. */
  lemma {:induction false} CallsStopAtFirstFinal(script: nat -> Attempt, codes: Option<set<string>>, start: nat, left: nat)
    requires left >= 1
    ensures var n := Calls(script, codes, start, left);
      && n <= left
      && (forall k :: start <= k < start + n - 1 ==> ShouldRetry(codes, script(k).reply))
      && (n == left || !ShouldRetry(codes, script(start + n - 1).reply))
    decreases left
  {
    if left > 1 && ShouldRetry(codes, script(start).reply) {
      CallsStopAtFirstFinal(script, codes, start + 1, left - 1);
    }
  }

  /** A second call is made exactly after an infrastructure or timeout failure whose code is allowed, if one is left. */
  lemma SecondCallIff(script: nat -> Attempt, codes: Option<set<string>>, start: nat, left: nat)
    ensures Calls(script, codes, start, left) >= 2 <==>
      && left >= 2
      && var reply := script(start).reply;
         && reply.Failure? && reply.kind != OtherKind
         && (codes == None || reply.code in codes.value)
  {
  }

  /** The last call, which decides. */
  function Last(script: nat -> Attempt, codes: Option<set<string>>, start: nat, left: nat): Attempt {
    script(start + Calls(script, codes, start, left) - 1)
  }

  lemma {:induction false} RetriedCalls(script: nat -> Attempt, codes: Option<set<string>>, left: nat, w: World, n: nat)
    requires n == Calls(script, codes, w.calls, left)
    ensures Retried(Terminal(script), codes, left, w)
         == (World(w.database, w.staged + Writes(script, w.calls, n), w.calls + n), Last(script, codes, w.calls, left).reply)
    decreases left
  {
    var (after, reply) := Terminal(script)(w);
    var writes := script(w.calls).writes;
    WritesFirst(script, w.calls, n);
    if left > 1 && ShouldRetry(codes, reply) {
      RetriedCalls(script, codes, left - 1, after, n - 1);
      assert (w.staged + writes) + Writes(script, w.calls + 1, n - 1) == w.staged + Writes(script, w.calls, n);
    } else {
      assert n == 1 && writes + Writes(script, w.calls + 1, 0) == writes;
    }
  }

  /** The world after a command that made `n` calls and committed `writes` if it succeeded. */
  function Finished(w: World, n: nat, reply: Reply, writes: seq<nat>): (World, Reply) {
    (World(if reply.Success? then w.database + writes else w.database, w.staged, w.calls + n), reply)
  }

  lemma ChainOfTwo(outer: Behavior, inner: Behavior, terminal: Handler)
    ensures Chain([outer, inner], terminal) == Wrap(outer, Wrap(inner, terminal))
  {
    assert [outer, inner][1..] == [inner] && [inner][1..] == [];
    assert Chain([inner], terminal) == Wrap(inner, terminal);
  }

  /** With the retry inside the transaction, as recommended, all attempts share one unit of work. */
  lemma RetryInsideShares(script: nat -> Attempt, max: nat, codes: Option<set<string>>, w: World, n: nat)
    requires n == Calls(script, codes, w.calls, max)
    ensures Chain([Transaction, Retry(max, codes)], Terminal(script))(w)
         == Finished(w, n, Last(script, codes, w.calls, max).reply, Writes(script, w.calls, n))
  {
    var begun := w.(staged := []);
    var writes := Writes(script, w.calls, n);
    ChainOfTwo(Transaction, Retry(max, codes), Terminal(script));
    RetriedCalls(script, codes, max, begun, n);
    assert [] + writes == writes;
    assert Wrap(Retry(max, codes), Terminal(script))(begun)
        == (World(w.database, writes, w.calls + n), Last(script, codes, w.calls, max).reply);
  }

  lemma TransactionOnce(script: nat -> Attempt, w: World)
    ensures Wrap(Transaction, Terminal(script))(w) == Finished(w, 1, script(w.calls).reply, script(w.calls).writes)
  {
    assert [] + script(w.calls).writes == script(w.calls).writes;
  }

  lemma {:induction false} RetriedTransactions(script: nat -> Attempt, codes: Option<set<string>>, left: nat, w: World, n: nat)
    requires n == Calls(script, codes, w.calls, left)
    ensures var last := Last(script, codes, w.calls, left);
      Retried(Wrap(Transaction, Terminal(script)), codes, left, w) == Finished(w, n, last.reply, last.writes)
    decreases left
  {
    TransactionOnce(script, w);
    var (after, reply) := Wrap(Transaction, Terminal(script))(w);
    if left > 1 && ShouldRetry(codes, reply) {
      RetriedTransactions(script, codes, left - 1, after, n - 1);
      assert after == World(w.database, w.staged, w.calls + 1);
      assert Last(script, codes, w.calls, left) == Last(script, codes, w.calls + 1, left - 1);
    }
  }

  /** With the retry outside, each attempt has its own unit of work and only the last can commit. */
  lemma RetryOutsideIsFresh(script: nat -> Attempt, max: nat, codes: Option<set<string>>, w: World, n: nat)
    requires n == Calls(script, codes, w.calls, max)
    ensures var last := Last(script, codes, w.calls, max);
      Chain([Retry(max, codes), Transaction], Terminal(script))(w) == Finished(w, n, last.reply, last.writes)
  {
    ChainOfTwo(Retry(max, codes), Transaction, Terminal(script));
    RetriedTransactions(script, codes, max, w, n);
  }

  lemma SameFinishIff(w: World, n: nat, reply: Reply, failed: seq<nat>, last: seq<nat>)
    ensures Finished(w, n, reply, failed + last) == Finished(w, n, reply, last) <==> !reply.Success? || failed == []
  {
    assert |w.database + (failed + last)| == |w.database| + |failed| + |last|;
    assert |w.database + last| == |w.database| + |last|;
    if failed == [] {
      assert failed + last == last;
    }
  }

  /**
   * The recommended order gives each attempt a fresh transaction, as documented, exactly when the command fails in
   * the end or its failed attempts wrote nothing.
   */
  lemma RetryIsFreshIff(script: nat -> Attempt, max: nat, codes: Option<set<string>>, w: World, n: nat)
    requires n == Calls(script, codes, w.calls, max)
    ensures Chain([Transaction, Retry(max, codes)], Terminal(script))(w)
         == Chain([Retry(max, codes), Transaction], Terminal(script))(w)
      <==> (!Last(script, codes, w.calls, max).reply.Success? || Writes(script, w.calls, n - 1) == [])
  {
    var last := Last(script, codes, w.calls, max);
    RetryInsideShares(script, max, codes, w, n);
    RetryOutsideIsFresh(script, max, codes, w, n);
    SameFinishIff(w, n, last.reply, Writes(script, w.calls, n - 1), last.writes);
    assert Writes(script, w.calls, n) == Writes(script, w.calls, n - 1) + last.writes;
  }
}
