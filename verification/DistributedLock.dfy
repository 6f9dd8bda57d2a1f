/** The `SET NX EX` lock with tokens: acquire, renew and release by any number of clients on one timed key. */
module DistributedLocks {
  import opened Options

  type Client = nat
  type Token = nat

  /** The value and the expiry of the key; it is gone from `expiresAt` on. */
  datatype Stored = Stored(token: Token, expiresAt: int)

  type Key = Option<Stored>

  predicate Live(k: Key, now: nat) {
    k.Some? && now < k.value.expiresAt
  }

  predicate HeldBy(k: Key, now: nat, token: Token) {
    Live(k, now) && k.value.token == token
  }

  /** `SET NX EX`; a time-to-live below one is an error and sets nothing. */
  function AfterSet(k: Key, now: nat, token: Token, ttl: int): Key {
    if ttl >= 1 && !Live(k, now) then Some(Stored(token, now + ttl)) else k
  }

  /** The renew script; `EXPIRE` with a time-to-live below one deletes the key. */
  function AfterRenew(k: Key, now: nat, token: Token, ttl: int): Key {
    if !HeldBy(k, now, token) then k else if ttl >= 1 then Some(Stored(token, now + ttl)) else None
  }

  function AfterRelease(k: Key, now: nat, token: Token): Key {
    if HeldBy(k, now, token) then None else k
  }

  /** A call may raise because the request or the reply was lost. */
  datatype Net = Delivered | RequestLost | ReplyLost

  datatype Reply = Returned(ok: bool) | Raised

  class Redis {
    var now: nat
    var key: Key

    constructor ()
      ensures now == 0 && key == None
    {
      now, key := 0, None;
    }

    /** `None` is the error reply. */
    method Set(token: Token, ttl: int) returns (ok: Option<bool>)
      modifies this`key
      ensures key == AfterSet(old(key), now, token, ttl)
      ensures ok == if ttl < 1 then None else Some(!Live(old(key), now))
    {
      if ttl < 1 {
        return None;
      }
      if Live(key, now) {
        return Some(false);
      }
      key := Some(Stored(token, now + ttl));
      return Some(true);
    }

    method Renew(token: Token, ttl: int) returns (result: bool)
      modifies this`key
      ensures key == AfterRenew(old(key), now, token, ttl)
      ensures result == HeldBy(old(key), now, token)
    {
      if Live(key, now) && key.value.token == token {
        key := if ttl >= 1 then Some(Stored(token, now + ttl)) else None;
        return true;
      }
      return false;
    }

    method Delete(token: Token)
      modifies this`key
      ensures key == AfterRelease(old(key), now, token)
    {
      if Live(key, now) && key.value.token == token {
        key := None;
      }
    }
  }

  class DistributedLock {
    const r: Redis
    var token: Option<Token>

    constructor (r: Redis)
      ensures this.r == r && token == None
    {
      this.r := r;
      token := None;
    }

    method Acquire(drawn: Token, ttl: int, net: Net) returns (reply: Reply)
      modifies this, r`key
      ensures r.key == if net.RequestLost? then old(r.key) else AfterSet(old(r.key), r.now, drawn, ttl)
      ensures reply == if !net.Delivered? || ttl < 1 then Raised else Returned(!Live(old(r.key), r.now))
      ensures token == if reply == Returned(true) then Some(drawn) else old(token)
      ensures reply == Returned(true) ==> r.key == Some(Stored(drawn, r.now + ttl))
      ensures reply == Returned(false) || net.RequestLost? || ttl < 1 ==> r.key == old(r.key)
    {
      if net.RequestLost? {
        return Raised;
      }
      var ok := r.Set(drawn, ttl);
      if ok.None? || net.ReplyLost? {
        return Raised;
      }
      if ok.value {
        token := Some(drawn);
        return Returned(true);
      }
      return Returned(false);
    }

    method Renew(ttl: int, net: Net) returns (reply: Reply)
      modifies r`key
      ensures r.key == if token.None? || net.RequestLost? then old(r.key) else AfterRenew(old(r.key), r.now, token.value, ttl)
      ensures reply == if token.None? then Returned(false)
                       else if !net.Delivered? then Raised else Returned(HeldBy(old(r.key), r.now, token.value))
      ensures reply == Returned(true) ==> r.key == if ttl >= 1 then Some(Stored(token.value, r.now + ttl)) else None
      ensures reply == Returned(false) || net.RequestLost? ==> r.key == old(r.key)
    {
      if token.None? {
        return Returned(false);
      }
      if net.RequestLost? {
        return Raised;
      }
      var result := r.Renew(token.value, ttl);
      return if net.ReplyLost? then Raised else Returned(result);
    }

    method Release(net: Net) returns (raised: bool)
      modifies this, r`key
      ensures r.key == if old(token).None? || net.RequestLost? then old(r.key) else AfterRelease(old(r.key), r.now, old(token).value)
      ensures raised == (old(token).Some? && !net.Delivered?)
      ensures token == if raised then old(token) else None
      ensures old(r.key).Some? && old(token) == Some(old(r.key).value.token) && old(r.key).value.expiresAt > r.now && !raised ==>
        r.key == None
      ensures r.key != old(r.key) ==> r.key == None && old(r.key).Some? && old(token) == Some(old(r.key).value.token)
    {
      if token.None? {
        return false;
      }
      if net.RequestLost? {
        return true;
      }
      r.Delete(token.value);
      if net.ReplyLost? {
        return true;
      }
      token := None;
      return false;
    }
  }

  // ---------------------------------------------------------------------
  // Runs
  // ---------------------------------------------------------------------

  /**
   * `tokens` are the clients' own; `leases` is until when each client was last told that it holds the lock;
   * tokens below `issued` were drawn before.
   */
  datatype World = World(now: nat, key: Key, tokens: map<Client, Token>, leases: map<Client, int>, issued: Token)

  datatype Op =
    | Tick(seconds: nat)
    | Acquire(client: Client, ttl: int, net: Net)
    | Renew(client: Client, ttl: int, net: Net)
    | Release(client: Client, net: Net)

  const START := World(0, None, map[], map[], 0)

  function Step(w: World, op: Op): World {
    match op
    case Tick(d) => w.(now := w.now + d)
    case Acquire(c, ttl, net) =>
      if net.RequestLost? then w.(issued := w.issued + 1)
      else
        var key := AfterSet(w.key, w.now, w.issued, ttl);
        if net.ReplyLost? || ttl < 1 || Live(w.key, w.now) then w.(key := key, issued := w.issued + 1)
        else World(w.now, key, w.tokens[c := w.issued], w.leases[c := w.now + ttl], w.issued + 1)
    case Renew(c, ttl, net) =>
      if c !in w.tokens || net.RequestLost? then w
      else
        var key := AfterRenew(w.key, w.now, w.tokens[c], ttl);
        if net.ReplyLost? then w.(key := key)
        else if HeldBy(w.key, w.now, w.tokens[c]) then w.(key := key, leases := w.leases[c := w.now + ttl])
        else w.(leases := w.leases - {c})
    case Release(c, net) =>
      if c !in w.tokens || net.RequestLost? then w.(leases := w.leases - {c})
      else
        World(w.now, AfterRelease(w.key, w.now, w.tokens[c]),
              if net.Delivered? then w.tokens - {c} else w.tokens, w.leases - {c}, w.issued)
  }

  function Exec(w: World, ops: seq<Op>): World {
    if ops == [] then w else Step(Exec(w, ops[..|ops| - 1]), ops[|ops| - 1])
  }

  function TokenAt(w: World, c: Client): Option<Token> {
    Lookup(w.tokens, c)
  }

  /** What client `c` is told by an acquire, a renewal or a release, as its lock object answers. */
  function Told(w: World, op: Op): Reply
    requires !op.Tick?
  {
    match op
    case Acquire(_, ttl, net) => if !net.Delivered? || ttl < 1 then Raised else Returned(!Live(w.key, w.now))
    case Renew(c, _, net) =>
      if TokenAt(w, c).None? then Returned(false)
      else if !net.Delivered? then Raised else Returned(HeldBy(w.key, w.now, w.tokens[c]))
    case Release(c, net) => if TokenAt(w, c).Some? && !net.Delivered? then Raised else Returned(true)
  }

  /**
   * A step does to the key and to the client's token what the call of its lock object promises, touches no other
   * client's token, and grants a lease exactly when the client is told that it holds the lock.
   */
  lemma StepsAreCalls(w: World, op: Op)
    requires !op.Tick?
    ensures var w', c, token := Step(w, op), op.client, TokenAt(w, op.client);
      && w'.now == w.now
      && (forall d :: d != c ==> TokenAt(w', d) == TokenAt(w, d) && Lookup(w'.leases, d) == Lookup(w.leases, d))
      && (op.Acquire? ==>
            && w'.key == (if op.net.RequestLost? then w.key else AfterSet(w.key, w.now, w.issued, op.ttl))
            && TokenAt(w', c) == if Told(w, op) == Returned(true) then Some(w.issued) else token)
      && (op.Renew? ==>
            && w'.key == (if token.None? || op.net.RequestLost? then w.key else AfterRenew(w.key, w.now, token.value, op.ttl))
            && TokenAt(w', c) == token)
      && (op.Release? ==>
            && w'.key == (if token.None? || op.net.RequestLost? then w.key else AfterRelease(w.key, w.now, token.value))
            && TokenAt(w', c) == if Told(w, op).Raised? then token else None)
      && (!op.Release? && Told(w, op) == Returned(true) ==> Lookup(w'.leases, c) == Some(w.now + op.ttl))
      && (op.Release? || (op.Renew? && token.Some? && Told(w, op) == Returned(false)) ==> c !in w'.leases)
      && (!op.Release? && Told(w, op).Raised? ==> Lookup(w'.leases, c) == Lookup(w.leases, c))
  {
  }

  ghost predicate TokensOk(w: World) {
    && (forall c :: c in w.tokens ==> w.tokens[c] < w.issued)
    && (forall c, d :: c in w.tokens && d in w.tokens && c != d ==> w.tokens[c] != w.tokens[d])
    && (w.key.Some? ==> w.key.value.token < w.issued)
    && w.leases.Keys <= w.tokens.Keys
  }

  predicate Leased(w: World, c: Client) {
    c in w.leases && w.now < w.leases[c]
  }

  /** Every unexpired lease is backed by the key until it ends. */
  ghost predicate LeasesBacked(w: World) {
    forall c :: c in w.tokens && Leased(w, c) ==> HeldBy(w.key, w.now, w.tokens[c]) && w.leases[c] <= w.key.value.expiresAt
  }

  /** A renewal whose reply is lost must not end the lease its client still counts on. */
  predicate Guard(w: World, op: Op) {
    (op.Renew? && op.net.ReplyLost? && Leased(w, op.client)) ==> w.leases[op.client] <= w.now + op.ttl
  }

  lemma AcquireTokensOk(w: World, c: Client, ttl: int, net: Net)
    requires TokensOk(w)
    ensures TokensOk(Step(w, Acquire(c, ttl, net)))
  {
  }

  lemma RenewTokensOk(w: World, c: Client, ttl: int, net: Net)
    requires TokensOk(w)
    ensures TokensOk(Step(w, Renew(c, ttl, net)))
  {
  }

  lemma ReleaseTokensOk(w: World, c: Client, net: Net)
    requires TokensOk(w)
    ensures TokensOk(Step(w, Release(c, net)))
  {
  }

  lemma StepTokensOk(w: World, op: Op)
    requires TokensOk(w)
    ensures TokensOk(Step(w, op))
  {
    match op {
      case Tick(_) =>
      case Acquire(c, ttl, net) => AcquireTokensOk(w, c, ttl, net);
      case Renew(c, ttl, net) => RenewTokensOk(w, c, ttl, net);
      case Release(c, net) => ReleaseTokensOk(w, c, net);
    }
  }

  lemma AcquireBacked(w: World, c: Client, ttl: int, net: Net)
    requires TokensOk(w) && LeasesBacked(w)
    ensures LeasesBacked(Step(w, Acquire(c, ttl, net)))
  {
  }

  lemma ReleaseBacked(w: World, c: Client, net: Net)
    requires TokensOk(w) && LeasesBacked(w)
    ensures LeasesBacked(Step(w, Release(c, net)))
  {
  }

  lemma RenewBackedIff(w: World, c: Client, ttl: int, net: Net)
    requires TokensOk(w) && LeasesBacked(w)
    ensures LeasesBacked(Step(w, Renew(c, ttl, net))) <==> Guard(w, Renew(c, ttl, net))
  {
    var w' := Step(w, Renew(c, ttl, net));
    if net.ReplyLost? && Leased(w, c) {
      assert HeldBy(w.key, w.now, w.tokens[c]);
      assert w' == w.(key := AfterRenew(w.key, w.now, w.tokens[c], ttl));
      assert Leased(w', c);
    }
  }

  /** From a state whose leases are backed, an operation leaves one unbacked exactly when it is an unheard shortening renewal. */
  lemma StepBackedIff(w: World, op: Op)
    requires TokensOk(w) && LeasesBacked(w)
    ensures LeasesBacked(Step(w, op)) <==> Guard(w, op)
  {
    match op {
      case Tick(_) =>
      case Acquire(c, ttl, net) => AcquireBacked(w, c, ttl, net);
      case Renew(c, ttl, net) => RenewBackedIff(w, c, ttl, net);
      case Release(c, net) => ReleaseBacked(w, c, net);
    }
  }

  ghost predicate AlwaysBacked(ops: seq<Op>) {
    LeasesBacked(Exec(START, ops)) && (ops != [] ==> AlwaysBacked(ops[..|ops| - 1]))
  }

  predicate AlwaysGuarded(ops: seq<Op>) {
    ops == [] || (AlwaysGuarded(ops[..|ops| - 1]) && Guard(Exec(START, ops[..|ops| - 1]), ops[|ops| - 1]))
  }

  lemma {:induction false} EveryRunTokensOk(ops: seq<Op>)
    ensures TokensOk(Exec(START, ops))
  {
    if ops != [] {
      EveryRunTokensOk(ops[..|ops| - 1]);
      StepTokensOk(Exec(START, ops[..|ops| - 1]), ops[|ops| - 1]);
    }
  }

  /** In every timed run each unexpired lease is backed exactly when no renewal that went unheard shortened a lease. */
  lemma {:induction false} AlwaysBackedIff(ops: seq<Op>)
    ensures AlwaysBacked(ops) <==> AlwaysGuarded(ops)
  {
    if ops != [] {
      var init := ops[..|ops| - 1];
      AlwaysBackedIff(init);
      EveryRunTokensOk(init);
      if LeasesBacked(Exec(START, init)) {
        StepBackedIff(Exec(START, init), ops[|ops| - 1]);
      }
    }
  }

  /** Two clients never have unexpired leases together, and no acquire succeeds while somebody's lease is unexpired. */
  lemma MutualExclusion(ops: seq<Op>, c: Client, d: Client, ttl: int)
    requires AlwaysGuarded(ops) && Leased(Exec(START, ops), c)
    ensures Leased(Exec(START, ops), d) ==> c == d
    ensures var w := Exec(START, ops); Step(w, Acquire(d, ttl, Delivered)) == w.(issued := w.issued + 1)
  {
    AlwaysBackedIff(ops);
    EveryRunTokensOk(ops);
  }

  predicate ByOthers(ops: seq<Op>, c: Client) {
    forall op :: op in ops ==> op.Tick? || op.client != c
  }

  /** The lease of `c` and the key behind it. */
  ghost predicate Backed(w: World, c: Client, key: Key, lease: int) {
    && TokensOk(w) && c in w.tokens && c in w.leases && w.leases[c] == lease
    && w.key == key && key.Some? && key.value.token == w.tokens[c] && lease <= key.value.expiresAt
  }

  lemma OtherStep(w: World, op: Op, c: Client, key: Key, lease: int)
    requires Backed(w, c, key, lease) && Step(w, op).now < lease
    requires op.Tick? || op.client != c
    ensures Backed(Step(w, op), c, key, lease) && w.now <= Step(w, op).now
  {
    StepTokensOk(w, op);
  }

  /** Until a lease ends, nothing other clients do, late renewals and releases included, touches its holder's key. */
  lemma {:induction false} OthersCannotTouch(w: World, ops: seq<Op>, c: Client, key: Key, lease: int)
    requires Backed(w, c, key, lease)
    requires ByOthers(ops, c) && Exec(w, ops).now < lease
    ensures Backed(Exec(w, ops), c, key, lease)
  {
    if ops != [] {
      var init, op := ops[..|ops| - 1], ops[|ops| - 1];
      assert op in ops;
      assert Exec(w, init).now <= Step(Exec(w, init), op).now;
      OthersCannotTouch(w, init, c, key, lease);
      OtherStep(Exec(w, init), op, c, key, lease);
    }
  }

  /** Once the holder released the lock, or its lease and key ran out, the next acquire of anyone succeeds at once. */
  lemma LockIsHandedOver(ops: seq<Op>, c: Client, d: Client, ttl: int, seconds: nat)
    requires ttl >= 1
    requires var w := Exec(START, ops);
      c in w.tokens && HeldBy(w.key, w.now, w.tokens[c]) && w.key.value.expiresAt <= w.now + seconds
    ensures var w := Exec(START, ops);
      && Leased(Step(Step(w, Release(c, Delivered)), Acquire(d, ttl, Delivered)), d)
      && Leased(Step(Step(w, Tick(seconds)), Acquire(d, ttl, Delivered)), d)
      && (c != d ==> Step(w, Acquire(d, ttl, Delivered)).leases == w.leases)
  {
  }

  /** A renewal that reports success kept the lock exactly when it asked for a positive time-to-live. */
  lemma RenewedIsHeldIff(w: World, c: Client, ttl: int)
    requires c in w.tokens && HeldBy(w.key, w.now, w.tokens[c])
    ensures var w' := Step(w, Renew(c, ttl, Delivered));
      && w'.leases == w.leases[c := w.now + ttl]
      && (HeldBy(w'.key, w'.now, w'.tokens[c]) <==> ttl >= 1)
  {
  }

  /** Two clients both count on the lock after an unheard renewal ended the first one's lease early. */
  lemma UnheardRenewalSplits(ttl: int)
    requires ttl >= 3
    ensures var w := Exec(START, [Acquire(0, ttl, Delivered), Renew(0, 1, ReplyLost), Tick(1), Acquire(1, ttl, Delivered)]);
      Leased(w, 0) && Leased(w, 1)
  {
    var a := Acquire(0, ttl, Delivered);
    var w1 := Step(START, a);
    var w2 := Step(w1, Renew(0, 1, ReplyLost));
    assert [a][..0] == [];
    assert Exec(START, [a]) == w1;
    assert [a, Renew(0, 1, ReplyLost)][..1] == [a];
    assert Exec(START, [a, Renew(0, 1, ReplyLost)]) == w2;
    assert [a, Renew(0, 1, ReplyLost), Tick(1)][..2] == [a, Renew(0, 1, ReplyLost)];
    assert Exec(START, [a, Renew(0, 1, ReplyLost), Tick(1)]) == Step(w2, Tick(1));
    var all := [a, Renew(0, 1, ReplyLost), Tick(1), Acquire(1, ttl, Delivered)];
    assert all[..3] == [a, Renew(0, 1, ReplyLost), Tick(1)];
  }
}
