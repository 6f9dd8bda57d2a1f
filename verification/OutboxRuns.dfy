/** Units of work, sharded relays and a broker, interleaved in every order, with crashes at any point. */
module OutboxRuns {
  import opened Options
  import opened UnitOfWork
  import opened Relay

  /** A batch in flight: the rows it locked and the verdicts so far; idle when nothing is claimed. */
  datatype RelayState = RelayState(claim: seq<Id>, verdicts: seq<Verdict>)

  /** `durable` are the units that committed, with or without being told; `ackLost` those told it failed although rows were written. */
  datatype World = World(
    units: map<nat, UnitState>,
    table: Table,
    nextId: Id,
    relays: map<nat, RelayState>,
    broker: seq<Id>,
    durable: set<nat>,
    ackLost: set<nat>)

  datatype Config = Config(hash: Id -> int, shards: map<nat, Shard>, limit: nat, maxAttempts: int)

  datatype Op =
    | Enter(u: nat)
    | Commit(u: nat, events: seq<Event>, faults: Faults)
    | Rollback(u: nat)
    | Exit(u: nat, raised: bool)
    | UnitCrash(u: nat)
    | Claim(r: nat, claim: seq<Id>)
    | Publish(r: nat, verdict: Verdict)
    | SettleBatch(r: nat, now: int)
    | RelayCrash(r: nat)

  const IDLE := RelayState([], [])

  function UnitAt(w: World, u: nat): UnitState {
    if u in w.units then w.units[u] else NEW_UNIT
  }

  function RelayAt(w: World, r: nat): RelayState {
    if r in w.relays then w.relays[r] else IDLE
  }

  ghost predicate LockedByOther(w: World, r: nat, id: Id) {
    exists q :: q in w.relays && q != r && id in w.relays[q].claim
  }

  ghost function Locked(w: World, r: nat): set<Id> {
    set id | id in w.table && LockedByOther(w, r, id)
  }

  function SetUnit(w: World, u: nat, s: UnitState): World {
    w.(units := w.units[u := s])
  }

  function SetRelay(w: World, r: nat, s: RelayState): World {
    w.(relays := w.relays[r := s])
  }

  function CommitStep(w: World, u: nat, events: seq<Event>, faults: Faults): World {
    var added := PendingRows(w.nextId, u, events);
    var before := UnitAt(w, u);
    var (after, table, outcome) := CommitEffect(before, w.table, added, faults);
    var lost := LosesAck(before, added, faults);
    var tookEffect := lost || (before.open && !before.committed && !before.rolledBack && after.committed);
    SetUnit(w, u, after).(
      table := table,
      nextId := w.nextId + |events|,
      durable := if tookEffect then w.durable + {u} else w.durable,
      ackLost := if lost then w.ackLost + {u} else w.ackLost)
  }

  /** Rows reach the table although the commit raises. */
  predicate LosesAck(before: UnitState, added: Table, faults: Faults) {
    && before.open && !before.committed && !before.rolledBack
    && faults.commit.LostAck? && !faults.dispatchRaises && !(added != map[] && faults.recordRaises)
    && before.staged + added != map[]
  }

  function PublishStep(w: World, r: nat, verdict: Verdict): World
    requires |RelayAt(w, r).verdicts| < |RelayAt(w, r).claim|
  {
    var s := RelayAt(w, r);
    SetRelay(w, r, s.(verdicts := s.verdicts + [verdict])).(
      broker := if verdict.Refused? then w.broker else w.broker + [s.claim[|s.verdicts|]])
  }

  function SettleStep(w: World, r: nat, table: Table): World {
    SetRelay(w, r, IDLE).(table := table)
  }

  ghost function Step(cfg: Config, w: World, op: Op): World {
    match op
    case Enter(u) => SetUnit(w, u, EnterEffect(UnitAt(w, u)))
    case Commit(u, events, faults) => CommitStep(w, u, events, faults)
    case Rollback(u) => SetUnit(w, u, RollbackEffect(UnitAt(w, u)))
    case Exit(u, raised) => SetUnit(w, u, ExitEffect(UnitAt(w, u), raised))
    case UnitCrash(u) => SetUnit(w, u, UnitAt(w, u).(open := false, staged := map[]))
    case Claim(r, claim) =>
      if RelayAt(w, r).claim == [] && r in cfg.shards && ValidShard(cfg.shards[r])
         && ValidClaim(cfg.hash, cfg.shards[r], w.table, cfg.maxAttempts, cfg.limit, Locked(w, r), claim)
      then SetRelay(w, r, RelayState(claim, []))
      else w
    case Publish(r, verdict) =>
      if |RelayAt(w, r).verdicts| < |RelayAt(w, r).claim| then PublishStep(w, r, verdict) else w
    case SettleBatch(r, now) =>
      var s := RelayAt(w, r);
      if |s.verdicts| == |s.claim| then SettleStep(w, r, Settle(w.table, s.claim, s.verdicts, now)) else w
    case RelayCrash(r) => SetRelay(w, r, IDLE)
  }

  const INIT := World(map[], map[], 0, map[], [], {}, {})

  ghost function Exec(cfg: Config, w: World, ops: seq<Op>): World {
    if ops == [] then w else Step(cfg, Exec(cfg, w, ops[..|ops| - 1]), ops[|ops| - 1])
  }

  // ---------------------------------------------------------------------
  // Invariants
  // ---------------------------------------------------------------------

  ghost predicate StagedOk(w: World) {
    && (forall k :: k in w.table ==> k < w.nextId)
    && (forall u, k :: u in w.units && k in w.units[u].staged ==>
          StagedRow(w, u, k, w.units[u].staged[k]))
    && (forall u, v, k :: u in w.units && v in w.units && k in w.units[u].staged && k in w.units[v].staged ==> u == v)
  }

  ghost predicate OriginsOk(w: World) {
    && (forall k :: k in w.table ==> w.table[k].origin in w.durable)
    && (forall u :: u in w.durable ==> u in w.units && (w.units[u].committed || u in w.ackLost))
    && w.ackLost <= w.durable
    && (forall u :: u in w.units ==> !(w.units[u].committed && w.units[u].rolledBack))
  }

  ghost predicate RowsOk(cfg: Config, w: World) {
    && (forall k :: k in w.table && w.table[k].publishedAt.Some? ==> k in w.broker)
    && (forall k :: k in w.broker ==> k in w.table)
    && (forall k :: k in w.table ==> w.table[k].attempts == 0 || w.table[k].attempts <= cfg.maxAttempts)
  }

  ghost predicate RelayOk(cfg: Config, w: World, s: RelayState) {
    && |s.verdicts| <= |s.claim|
    && Distinct(s.claim)
    && (forall k :: k in s.claim ==> k in w.table && Pending(w.table[k], cfg.maxAttempts))
    && (forall i :: 0 <= i < |s.verdicts| && !s.verdicts[i].Refused? ==> s.claim[i] in w.broker)
  }

  ghost predicate RelaysOk(cfg: Config, w: World) {
    && (forall r :: r in w.relays ==> RelayOk(cfg, w, w.relays[r]))
    && (forall r, q, k :: r in w.relays && q in w.relays && k in w.relays[r].claim && k in w.relays[q].claim ==> r == q)
  }

  ghost predicate WorldOk(cfg: Config, w: World) {
    StagedOk(w) && OriginsOk(w) && RowsOk(cfg, w) && RelaysOk(cfg, w)
  }

  /** Rows are never deleted or re-attributed, a publication mark is never cleared or moved, the broker log only grows. */
  ghost predicate Extends(w: World, w': World) {
    && w.table.Keys <= w'.table.Keys
    && (forall k :: k in w.table ==>
          && w'.table[k].origin == w.table[k].origin && w'.table[k].event == w.table[k].event
          && (w.table[k].publishedAt.Some? ==> w'.table[k].publishedAt == w.table[k].publishedAt)
          && w.table[k].attempts <= w'.table[k].attempts)
    && w.broker <= w'.broker
    && w.durable <= w'.durable
  }

  /** Relays are untouched by steps that only add rows and messages. */
  lemma RelaysFrame(cfg: Config, w: World, w': World)
    requires RelaysOk(cfg, w) && w'.relays == w.relays && w.broker <= w'.broker
    requires forall k :: k in w.table ==> k in w'.table && w'.table[k] == w.table[k]
    ensures RelaysOk(cfg, w')
  {
    forall r | r in w'.relays ensures RelayOk(cfg, w', w'.relays[r]) {
      assert RelayOk(cfg, w, w.relays[r]);
    }
  }

  /** A commit either leaves the table alone or adds everything the unit staged, and then the unit is durable. */
  lemma CommitShape(w: World, u: nat, events: seq<Event>, faults: Faults)
    ensures var (w', before, added) := (CommitStep(w, u, events, faults), UnitAt(w, u), PendingRows(w.nextId, u, events));
      && u in w'.units && w'.units == w.units[u := w'.units[u]]
      && w'.relays == w.relays && w'.broker == w.broker && w'.nextId == w.nextId + |events|
      && w'.units[u].rolledBack == before.rolledBack
      && ((&& w'.table == w.table && w'.durable == w.durable && w'.ackLost == w.ackLost
           && w'.units[u].committed == before.committed
           && (w'.units[u].staged == before.staged || w'.units[u].staged == before.staged + added))
        || (&& w'.table == w.table + (before.staged + added) && w'.units[u].staged == map[]
            && w'.durable == w.durable + {u} && !before.rolledBack
            && (if w'.units[u].committed then w'.ackLost == w.ackLost else w'.ackLost == w.ackLost + {u})))
  {
  }

  lemma AddedRows(w: World, u: nat, events: seq<Event>, k: Id)
    requires k in PendingRows(w.nextId, u, events)
    ensures w.nextId <= k < w.nextId + |events|
    ensures var row := PendingRows(w.nextId, u, events)[k];
      row.origin == u && row.publishedAt == None && row.attempts == 0
  {
  }

  ghost predicate StagedRow(w: World, u: nat, k: Id, row: OutboxRow) {
    k < w.nextId && k !in w.table && row.origin == u && row.publishedAt == None && row.attempts == 0
  }

  lemma CommitStagedRow(cfg: Config, w: World, u: nat, events: seq<Event>, faults: Faults, v: nat, k: Id)
    requires WorldOk(cfg, w)
    requires var w' := CommitStep(w, u, events, faults); v in w'.units && k in w'.units[v].staged
    ensures var w' := CommitStep(w, u, events, faults); StagedRow(w', v, k, w'.units[v].staged[k])
    ensures (v in w.units && k in w.units[v].staged) || (v == u && k >= w.nextId)
  {
    CommitShape(w, u, events, faults);
    if k in PendingRows(w.nextId, u, events) {
      AddedRows(w, u, events, k);
    }
    forall j | j in PendingRows(w.nextId, u, events) ensures j >= w.nextId {
      AddedRows(w, u, events, j);
    }
  }

  lemma CommitKeysOk(cfg: Config, w: World, u: nat, events: seq<Event>, faults: Faults)
    requires WorldOk(cfg, w)
    ensures var w' := CommitStep(w, u, events, faults); forall k :: k in w'.table ==> k < w'.nextId
  {
    CommitShape(w, u, events, faults);
    var w' := CommitStep(w, u, events, faults);
    forall k | k in PendingRows(w.nextId, u, events) ensures k < w'.nextId {
      AddedRows(w, u, events, k);
    }
  }

  lemma CommitStagedOk(cfg: Config, w: World, u: nat, events: seq<Event>, faults: Faults)
    requires WorldOk(cfg, w)
    ensures StagedOk(CommitStep(w, u, events, faults))
  {
    CommitKeysOk(cfg, w, u, events, faults);
    var w' := CommitStep(w, u, events, faults);
    forall v, k | v in w'.units && k in w'.units[v].staged
      ensures StagedRow(w', v, k, w'.units[v].staged[k])
      ensures (v in w.units && k in w.units[v].staged) || (v == u && k >= w.nextId)
    {
      CommitStagedRow(cfg, w, u, events, faults, v, k);
    }
  }

  lemma CommitRowsOk(cfg: Config, w: World, u: nat, events: seq<Event>, faults: Faults)
    requires WorldOk(cfg, w)
    ensures var w' := CommitStep(w, u, events, faults);
      && (forall k :: k in w.table ==> k in w'.table && w'.table[k] == w.table[k])
      && OriginsOk(w') && RowsOk(cfg, w')
  {
    CommitShape(w, u, events, faults);
    var w' := CommitStep(w, u, events, faults);
    forall k | k in PendingRows(w.nextId, u, events) ensures k !in w.table {
      AddedRows(w, u, events, k);
    }
    forall k | k in w'.table && k !in w.table
      ensures w'.table[k].origin == u && w'.table[k].publishedAt == None && w'.table[k].attempts == 0
    {
      if k in PendingRows(w.nextId, u, events) {
        AddedRows(w, u, events, k);
      }
    }
  }

  lemma CommitStepOk(cfg: Config, w: World, u: nat, events: seq<Event>, faults: Faults)
    requires WorldOk(cfg, w)
    ensures WorldOk(cfg, CommitStep(w, u, events, faults)) && Extends(w, CommitStep(w, u, events, faults))
  {
    CommitShape(w, u, events, faults);
    CommitStagedOk(cfg, w, u, events, faults);
    CommitRowsOk(cfg, w, u, events, faults);
    RelaysFrame(cfg, w, CommitStep(w, u, events, faults));
  }

  /** Entering, rolling back, leaving or losing a unit. */
  lemma UnitStepOk(cfg: Config, w: World, u: nat, after: UnitState)
    requires WorldOk(cfg, w)
    requires after.staged == map[] || after.staged == UnitAt(w, u).staged
    requires after.committed == UnitAt(w, u).committed
    requires after.rolledBack ==> !after.committed
    ensures WorldOk(cfg, SetUnit(w, u, after)) && Extends(w, SetUnit(w, u, after))
  {
    var w' := SetUnit(w, u, after);
    RelaysFrame(cfg, w, w');
    assert StagedOk(w');
    assert OriginsOk(w');
  }

  lemma ClaimStepOk(cfg: Config, w: World, r: nat, claim: seq<Id>)
    requires WorldOk(cfg, w)
    ensures WorldOk(cfg, Step(cfg, w, Claim(r, claim))) && Extends(w, Step(cfg, w, Claim(r, claim)))
  {
    var w' := Step(cfg, w, Claim(r, claim));
    if w' != w {
      forall k | k in claim
        ensures k in w.table && Pending(w.table[k], cfg.maxAttempts) && !LockedByOther(w, r, k)
      {
        var i :| 0 <= i < |claim| && claim[i] == k;
        assert Selectable(cfg.hash, cfg.shards[r], w.table, cfg.maxAttempts, Locked(w, r), claim[i]);
      }
      assert RelayOk(cfg, w', RelayState(claim, []));
      forall q | q in w'.relays ensures RelayOk(cfg, w', w'.relays[q]) {
        if q != r {
          assert RelayOk(cfg, w, w.relays[q]);
        }
      }
    }
  }

  lemma PublishRelayOk(cfg: Config, w: World, r: nat, verdict: Verdict)
    requires WorldOk(cfg, w) && |RelayAt(w, r).verdicts| < |RelayAt(w, r).claim|
    ensures var w' := PublishStep(w, r, verdict); RelayOk(cfg, w', w'.relays[r])
  {
    assert RelayOk(cfg, w, RelayAt(w, r));
  }

  lemma PublishRelaysOk(cfg: Config, w: World, r: nat, verdict: Verdict)
    requires WorldOk(cfg, w) && |RelayAt(w, r).verdicts| < |RelayAt(w, r).claim|
    ensures RelaysOk(cfg, PublishStep(w, r, verdict))
  {
    var w' := PublishStep(w, r, verdict);
    var grown := w.(broker := w'.broker);
    RelaysFrame(cfg, w, grown);
    PublishRelayOk(cfg, w, r, verdict);
    forall q | q in w'.relays && q != r ensures RelayOk(cfg, w', w'.relays[q]) {
      assert RelayOk(cfg, grown, w.relays[q]);
    }
    assert forall q :: q in w'.relays ==> q in w.relays && w'.relays[q].claim == w.relays[q].claim;
  }

  lemma PublishStepOk(cfg: Config, w: World, r: nat, verdict: Verdict)
    requires WorldOk(cfg, w) && |RelayAt(w, r).verdicts| < |RelayAt(w, r).claim|
    ensures WorldOk(cfg, PublishStep(w, r, verdict)) && Extends(w, PublishStep(w, r, verdict))
  {
    var w' := PublishStep(w, r, verdict);
    var s := RelayAt(w, r);
    assert s.claim[|s.verdicts|] in w.table by {
      assert RelayOk(cfg, w, s);
      assert s.claim[|s.verdicts|] in s.claim;
    }
    assert StagedOk(w') && OriginsOk(w') && RowsOk(cfg, w');
    PublishRelaysOk(cfg, w, r, verdict);
  }

  ghost predicate RowAdvances(cfg: Config, broker: seq<Id>, k: Id, row: OutboxRow, after: OutboxRow) {
    && after.origin == row.origin && after.event == row.event
    && (row.publishedAt.Some? ==> after.publishedAt == row.publishedAt)
    && row.attempts <= after.attempts
    && (after.publishedAt.Some? ==> k in broker)
    && (after.attempts == 0 || after.attempts <= cfg.maxAttempts)
  }

  /** Settling changes claimed rows only, and stamps only rows whose message was acknowledged. */
  lemma SettleRow(cfg: Config, w: World, s: RelayState, table: Table, now: int, k: Id)
    requires RowsOk(cfg, w) && RelayOk(cfg, w, s) && |s.verdicts| == |s.claim|
    requires SettledRows(w.table, table, s.claim, s.verdicts, now) && k in w.table
    ensures RowAdvances(cfg, w.broker, k, w.table[k], table[k])
  {
    if k in s.claim {
      var i :| 0 <= i < |s.claim| && s.claim[i] == k;
      assert table[s.claim[i]] == Settled(w.table[k], s.verdicts[i], now);
    }
  }

  lemma SettleStepOk(cfg: Config, w: World, r: nat, table: Table, now: int)
    requires WorldOk(cfg, w) && |RelayAt(w, r).verdicts| == |RelayAt(w, r).claim|
    requires SettledRows(w.table, table, RelayAt(w, r).claim, RelayAt(w, r).verdicts, now)
    ensures WorldOk(cfg, SettleStep(w, r, table)) && Extends(w, SettleStep(w, r, table))
  {
    var w' := SettleStep(w, r, table);
    var s := RelayAt(w, r);
    assert RelayOk(cfg, w, s);
    forall k | k in w.table ensures RowAdvances(cfg, w.broker, k, w.table[k], table[k]) {
      SettleRow(cfg, w, s, table, now, k);
    }
    forall q | q in w'.relays && q != r ensures RelayOk(cfg, w', w'.relays[q]) {
      assert RelayOk(cfg, w, w.relays[q]);
      assert forall k :: k in w.relays[q].claim ==> k !in s.claim;
    }
    assert StagedOk(w');
    assert OriginsOk(w');
    assert RowsOk(cfg, w');
    assert RelayOk(cfg, w', IDLE);
    assert RelaysOk(cfg, w');
  }

  lemma RelayCrashOk(cfg: Config, w: World, r: nat)
    requires WorldOk(cfg, w)
    ensures WorldOk(cfg, Step(cfg, w, RelayCrash(r)))
  {
    var w' := Step(cfg, w, RelayCrash(r));
    forall q | q in w'.relays ensures RelayOk(cfg, w', w'.relays[q]) {
      if q != r {
        assert RelayOk(cfg, w, w.relays[q]);
      }
    }
  }

  lemma StepOk(cfg: Config, w: World, op: Op)
    requires WorldOk(cfg, w)
    ensures WorldOk(cfg, Step(cfg, w, op)) && Extends(w, Step(cfg, w, op))
  {
    match op
    case Commit(u, events, faults) => CommitStepOk(cfg, w, u, events, faults);
    case Claim(r, claim) => ClaimStepOk(cfg, w, r, claim);
    case Publish(r, verdict) =>
      if |RelayAt(w, r).verdicts| < |RelayAt(w, r).claim| {
        PublishStepOk(cfg, w, r, verdict);
      }
    case SettleBatch(r, now) =>
      if |RelayAt(w, r).verdicts| == |RelayAt(w, r).claim| {
        var s := RelayAt(w, r);
        assert RelayOk(cfg, w, s);
        SettlePointwise(w.table, s.claim, s.verdicts, now);
        SettleStepOk(cfg, w, r, Settle(w.table, s.claim, s.verdicts, now), now);
      }
    case RelayCrash(r) => RelayCrashOk(cfg, w, r);
    case Enter(u) => UnitStepOk(cfg, w, u, EnterEffect(UnitAt(w, u)));
    case Rollback(u) => UnitStepOk(cfg, w, u, RollbackEffect(UnitAt(w, u)));
    case Exit(u, raised) => UnitStepOk(cfg, w, u, ExitEffect(UnitAt(w, u), raised));
    case UnitCrash(u) => UnitStepOk(cfg, w, u, UnitAt(w, u).(open := false, staged := map[]));
  }

  /** Every interleaving keeps every invariant and only ever extends the table and the broker log. */
  lemma {:induction false} EveryRunOk(cfg: Config, w: World, ops: seq<Op>)
    requires WorldOk(cfg, w)
    ensures WorldOk(cfg, Exec(cfg, w, ops)) && Extends(w, Exec(cfg, w, ops))
  {
    if ops != [] {
      EveryRunOk(cfg, w, ops[..|ops| - 1]);
      StepOk(cfg, Exec(cfg, w, ops[..|ops| - 1]), ops[|ops| - 1]);
    }
  }

  // ---------------------------------------------------------------------
  // End to end
  // ---------------------------------------------------------------------

  /** Every broker message is a row of a unit whose transaction took effect; a published row has a copy; attempts stay bounded. */
  lemma EndToEnd(cfg: Config, ops: seq<Op>)
    ensures var w := Exec(cfg, INIT, ops);
      && (forall k :: k in w.broker ==> k in w.table && w.table[k].origin in w.durable)
      && (forall u :: u in w.durable ==> u in w.units && (w.units[u].committed || u in w.ackLost))
      && (forall k :: k in w.table && w.table[k].publishedAt.Some? ==> k in w.broker)
      && (forall k :: k in w.table ==> w.table[k].attempts == 0 || w.table[k].attempts <= cfg.maxAttempts)
      && (forall r, q, k :: r in w.relays && q in w.relays && k in w.relays[r].claim && k in w.relays[q].claim ==> r == q)
  {
    EveryRunOk(cfg, INIT, ops);
  }

  ghost predicate HasRow(table: Table, u: nat) {
    exists k :: k in table && table[k].origin == u
  }

  ghost predicate LostHaveRows(w: World) {
    forall u :: u in w.ackLost ==> HasRow(w.table, u)
  }

  lemma RowsStay(w: World, w': World)
    requires LostHaveRows(w) && Extends(w, w') && w'.ackLost == w.ackLost
    ensures LostHaveRows(w')
  {
    forall u | u in w'.ackLost ensures HasRow(w'.table, u) {
      var k :| k in w.table && w.table[k].origin == u;
      assert w'.table[k].origin == u;
    }
  }

  /** Everything a unit stages is its own. */
  lemma StagedIsOwn(cfg: Config, w: World, u: nat, events: seq<Event>, k: Id)
    requires WorldOk(cfg, w) && k in UnitAt(w, u).staged + PendingRows(w.nextId, u, events)
    ensures (UnitAt(w, u).staged + PendingRows(w.nextId, u, events))[k].origin == u
  {
    if k in PendingRows(w.nextId, u, events) {
      AddedRows(w, u, events, k);
    } else {
      assert StagedRow(w, u, k, w.units[u].staged[k]);
    }
  }

  lemma LostCommitHasRow(cfg: Config, w: World, u: nat, events: seq<Event>, faults: Faults)
    requires WorldOk(cfg, w) && LosesAck(UnitAt(w, u), PendingRows(w.nextId, u, events), faults)
    ensures HasRow(CommitStep(w, u, events, faults).table, u)
  {
    var rows := UnitAt(w, u).staged + PendingRows(w.nextId, u, events);
    var k :| k in rows;
    StagedIsOwn(cfg, w, u, events, k);
    assert CommitStep(w, u, events, faults).table == w.table + rows;
    assert k in CommitStep(w, u, events, faults).table;
  }

  lemma CommitLostHaveRows(cfg: Config, w: World, u: nat, events: seq<Event>, faults: Faults)
    requires WorldOk(cfg, w) && LostHaveRows(w)
    ensures LostHaveRows(CommitStep(w, u, events, faults))
  {
    CommitStepOk(cfg, w, u, events, faults);
    var w' := CommitStep(w, u, events, faults);
    RowsStay(w, w'.(ackLost := w.ackLost));
    if LosesAck(UnitAt(w, u), PendingRows(w.nextId, u, events), faults) {
      LostCommitHasRow(cfg, w, u, events, faults);
    }
  }

  lemma OnlyCommitsLose(cfg: Config, w: World, op: Op)
    requires !op.Commit?
    ensures Step(cfg, w, op).ackLost == w.ackLost
  {
  }

  lemma StepLostHaveRows(cfg: Config, w: World, op: Op)
    requires WorldOk(cfg, w) && LostHaveRows(w)
    ensures LostHaveRows(Step(cfg, w, op))
  {
    if op.Commit? {
      CommitLostHaveRows(cfg, w, op.u, op.events, op.faults);
    } else {
      OnlyCommitsLose(cfg, w, op);
      StepOk(cfg, w, op);
      RowsStay(w, Step(cfg, w, op));
    }
  }

  lemma {:induction false} EveryLostHasRow(cfg: Config, ops: seq<Op>)
    ensures WorldOk(cfg, Exec(cfg, INIT, ops)) && LostHaveRows(Exec(cfg, INIT, ops))
  {
    EveryRunOk(cfg, INIT, ops);
    if ops != [] {
      EveryLostHasRow(cfg, ops[..|ops| - 1]);
      StepLostHaveRows(cfg, Exec(cfg, INIT, ops[..|ops| - 1]), ops[|ops| - 1]);
    }
  }

  /** A unit that rolled back has a row in the table exactly when the acknowledgement of a commit that wrote rows was lost. */
  lemma RolledBackHasRowIff(cfg: Config, ops: seq<Op>, u: nat)
    requires var w := Exec(cfg, INIT, ops); u in w.units && w.units[u].rolledBack
    ensures var w := Exec(cfg, INIT, ops); HasRow(w.table, u) <==> u in w.ackLost
  {
    EveryRunOk(cfg, INIT, ops);
    EveryLostHasRow(cfg, ops);
  }

  lemma UnlostCommitHasNoRow(cfg: Config, w: World, u: nat, events: seq<Event>, faults: Faults)
    requires WorldOk(cfg, w) && u in w.units && u !in w.durable
    requires !LosesAck(w.units[u], PendingRows(w.nextId, u, events), faults)
    ensures var w' := CommitStep(w, u, events, faults); !w'.units[u].committed ==> !HasRow(w'.table, u)
  {
    CommitStepOk(cfg, w, u, events, faults);
    assert OriginsOk(CommitStep(w, u, events, faults));
  }

  /**
   * Committing and then leaving the block with an exception marks the unit rolled back with a row of it in the table
   * exactly when the commit took effect unheard: neither dispatch nor recording raised and there were rows to write.
   */
  lemma FailedCommitLeavesRowIff(cfg: Config, w: World, u: nat, events: seq<Event>, faults: Faults)
    requires WorldOk(cfg, w) && u in w.units && u !in w.durable
    requires w.units[u].open && !w.units[u].committed && !w.units[u].rolledBack
    ensures var w' := SetUnit(CommitStep(w, u, events, faults), u, ExitEffect(CommitStep(w, u, events, faults).units[u], true));
      && w' == Step(cfg, Step(cfg, w, Commit(u, events, faults)), Exit(u, true))
      && ((w'.units[u].rolledBack && HasRow(w'.table, u))
            <==> LosesAck(w.units[u], PendingRows(w.nextId, u, events), faults))
  {
    if LosesAck(w.units[u], PendingRows(w.nextId, u, events), faults) {
      LostCommitHasRow(cfg, w, u, events, faults);
    } else {
      UnlostCommitHasNoRow(cfg, w, u, events, faults);
    }
  }

  /** …and then it can: such a unit is marked rolled back while its event is in the table for the relays. */
  lemma LostAckLeavesRow(cfg: Config, e: Event)
    ensures var w := Exec(cfg, INIT, [Enter(0), Commit(0, [e], Faults(false, false, LostAck)), Exit(0, true)]);
      w.units[0].rolledBack && 0 in w.table && w.table[0].origin == 0 && w.table[0].event == e
  {
    var f := Faults(false, false, LostAck);
    var ops := [Enter(0), Commit(0, [e], f), Exit(0, true)];
    assert ops[..2][..1] == [Enter(0)] && [Enter(0)][..0] == [];
    assert ops[..|ops| - 1] == ops[..2] && ops[..2][..|ops[..2]| - 1] == [Enter(0)];
    var w1 := Step(cfg, INIT, Enter(0));
    assert Exec(cfg, INIT, [Enter(0)]) == w1;
    var added := PendingRows(0, 0, [e]);
    assert added[0] == OutboxRow(0, e, None, 0, None);
    var w2 := CommitStep(w1, 0, [e], f);
    assert w2.table == map[] + (map[] + added);
    assert Exec(cfg, INIT, ops[..2]) == w2;
  }

  function Publishes(r: nat, verdicts: seq<Verdict>): seq<Op> {
    seq(|verdicts|, i requires 0 <= i < |verdicts| => Publish(r, verdicts[i]))
  }

  /** `w'` is `w` after relay `r` published `verdicts` of its claim. */
  ghost predicate Published(w: World, w': World, r: nat, claim: seq<Id>, verdicts: seq<Verdict>) {
    && |verdicts| <= |claim| && w'.table == w.table && RelayAt(w', r) == RelayState(claim, verdicts)
    && w'.broker == w.broker + Sent(claim, verdicts)
  }

  lemma PublishNext(cfg: Config, w: World, w': World, r: nat, claim: seq<Id>, verdicts: seq<Verdict>, v: Verdict)
    requires Published(w, w', r, claim, verdicts) && |verdicts| < |claim|
    ensures Published(w, Step(cfg, w', Publish(r, v)), r, claim, verdicts + [v])
  {
    var sent := if v.Refused? then [] else [claim[|verdicts|]];
    assert (verdicts + [v])[..|verdicts|] == verdicts;
    assert Sent(claim, verdicts + [v]) == Sent(claim, verdicts) + sent;
    assert w'.broker + sent == w.broker + (Sent(claim, verdicts) + sent);
  }

  lemma {:induction false} PublishesRun(cfg: Config, w: World, r: nat, claim: seq<Id>, verdicts: seq<Verdict>)
    requires RelayAt(w, r) == RelayState(claim, []) && |verdicts| <= |claim|
    ensures Published(w, Exec(cfg, w, Publishes(r, verdicts)), r, claim, verdicts)
  {
    var ops := Publishes(r, verdicts);
    if verdicts == [] {
      assert w.broker + [] == w.broker;
    } else {
      var init, last := verdicts[..|verdicts| - 1], verdicts[|verdicts| - 1];
      assert ops[..|ops| - 1] == Publishes(r, init) && ops[|ops| - 1] == Publish(r, last);
      PublishesRun(cfg, w, r, claim, init);
      PublishNext(cfg, w, Exec(cfg, w, Publishes(r, init)), r, claim, init, last);
      assert init + [last] == verdicts;
    }
  }

  /** A batch run without interference claims, publishes and settles exactly what `ProcessOneBatch` promises. */
  lemma BatchIsSteps(cfg: Config, w: World, r: nat, claim: seq<Id>, verdicts: seq<Verdict>, now: int)
    requires RelayAt(w, r).claim == [] && r in cfg.shards && ValidShard(cfg.shards[r]) && |verdicts| == |claim|
    requires ValidClaim(cfg.hash, cfg.shards[r], w.table, cfg.maxAttempts, cfg.limit, Locked(w, r), claim)
    ensures var claimed := Step(cfg, w, Claim(r, claim));
      var done := Step(cfg, Exec(cfg, claimed, Publishes(r, verdicts)), SettleBatch(r, now));
      done.table == Settle(w.table, claim, verdicts, now) && done.broker == w.broker + Sent(claim, verdicts)
  {
    var claimed := Step(cfg, w, Claim(r, claim));
    PublishesRun(cfg, claimed, r, claim, verdicts);
  }
}
