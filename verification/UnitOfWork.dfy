/** The unit of work: event draining, the outbox rows it writes in its transaction, and its commit protocol. */
module UnitOfWork {
  import opened Batches
  import opened Options

  datatype Kind = IntegrationKind | DomainKind | OtherKind

  datatype Event = Event(
    kind: Kind,
    name: string,
    occurredAt: int,
    correlation: Option<string>,
    tenant: Option<string>,
    actor: Option<string>)

  /** The active request context. */
  datatype Context = Context(correlation: Option<string>, tenant: Option<string>, user: Option<string>)

  type Id = nat

  /** A row of the outbox table; `origin` names the unit of work that wrote it and is not a column. */
  datatype OutboxRow = OutboxRow(
    origin: nat,
    event: Event,
    publishedAt: Option<int>,
    attempts: nat,
    lastError: Option<string>)

  type Table = map<Id, OutboxRow>

  /** How the commit of the SQL transaction can end; a lost acknowledgement raises after the commit took effect. */
  datatype CommitFault = NoFault | FailsBefore | LostAck

  datatype Faults = Faults(dispatchRaises: bool, recordRaises: bool, commit: CommitFault)

  /** Session and flags of one unit; `staged` are rows inserted but not committed. */
  datatype UnitState = UnitState(open: bool, staged: Table, committed: bool, rolledBack: bool)

  const NEW_UNIT := UnitState(false, map[], false, false)

  function Or<T>(a: Option<T>, b: Option<T>): Option<T> {
    if a.Some? then a else b
  }

  function Stamp(ctx: Context, e: Event): Event {
    e.(correlation := Or(e.correlation, ctx.correlation),
       tenant := Or(e.tenant, ctx.tenant),
       actor := Or(e.actor, ctx.user))
  }

  function OfKind(kind: Kind, ctx: Context, events: seq<Event>): seq<Event> {
    if events == [] then []
    else
      var rest := OfKind(kind, ctx, events[..|events| - 1]);
      var e := events[|events| - 1];
      if e.kind == kind then rest + [Stamp(ctx, e)] else rest
  }

  lemma OneMoreOfKind(kind: Kind, ctx: Context, events: seq<Event>, e: Event)
    ensures OfKind(kind, ctx, events + [e]) == OfKind(kind, ctx, events) + (if e.kind == kind then [Stamp(ctx, e)] else [])
  {
    assert (events + [e])[..|events|] == events;
  }

  /** `DefaultOutboxRecorder.record`: one pending row per event, under fresh ids. */
  function PendingRows(first: Id, origin: nat, events: seq<Event>): Table {
    map k: Id | first <= k < first + |events| :: PendingRow(first, origin, events, k)
  }

  function PendingRow(first: Id, origin: nat, events: seq<Event>, k: Id): OutboxRow
    requires first <= k < first + |events|
  {
    OutboxRow(origin, events[k - first], None, 0, None)
  }

  datatype Outcome = Done | Raised

  // What is written for which event -----------------------------------------------

  /** `e'` is event `e` with what the active context adds: each of the three is kept when set, else taken from there. */
  predicate Enriched(ctx: Context, e: Event, e': Event) {
    && e'.kind == e.kind && e'.name == e.name && e'.occurredAt == e.occurredAt
    && e'.correlation == (if e.correlation.Some? then e.correlation else ctx.correlation)
    && e'.tenant == (if e.tenant.Some? then e.tenant else ctx.tenant)
    && e'.actor == (if e.actor.Some? then e.actor else ctx.user)
  }

  /** `at` lists the positions of the events of this kind, in order. */
  ghost predicate Positions(at: seq<nat>, kind: Kind, events: seq<Event>) {
    && (forall i, j :: 0 <= i < j < |at| ==> at[i] < at[j])
    && (forall i :: 0 <= i < |at| ==> at[i] < |events|)
    && (forall p :: 0 <= p < |events| ==> (events[p].kind == kind <==> p in at))
  }

  /** The rows from `first` on are one unpublished row for each integration event, in order. */
  ghost predicate CarriesEvents(table: Table, first: Id, origin: nat, ctx: Context, events: seq<Event>) {
    exists at: seq<nat> :: Positions(at, IntegrationKind, events)
      && (forall k :: k in table && k >= first ==> k < first + |at|)
      && forall i :: 0 <= i < |at| && at[i] < |events| ==>
           first + i in table && RowCarries(table[first + i], origin, ctx, events[at[i]])
  }

  predicate RowCarries(row: OutboxRow, origin: nat, ctx: Context, e: Event) {
    && row.origin == origin && Enriched(ctx, e, row.event)
    && row.publishedAt == None && row.attempts == 0 && row.lastError == None
  }

  /** Draining picks the events of one kind, enriched, in their order. */
  lemma {:induction false} OfKindPicks(kind: Kind, ctx: Context, events: seq<Event>) returns (at: seq<nat>)
    ensures Positions(at, kind, events) && |OfKind(kind, ctx, events)| == |at|
    ensures forall i :: 0 <= i < |at| ==> Enriched(ctx, events[at[i]], OfKind(kind, ctx, events)[i])
  {
    at := [];
    if events != [] {
      var n := |events| - 1;
      at := OfKindPicks(kind, ctx, events[..n]);
      if events[n].kind == kind {
        at := at + [n];
      }
    }
  }

  lemma PendingRowsFrom(before: Table, first: Id, origin: nat, events: seq<Event>)
    requires forall k :: k in before ==> k < first
    ensures var table := before + PendingRows(first, origin, events);
      && (forall k :: k in table && k >= first ==> k < first + |events|)
      && forall i :: 0 <= i < |events| ==>
           first + i in table && table[first + i] == OutboxRow(origin, events[i], None, 0, None)
  {
  }

  lemma PendingRowsCarry(before: Table, first: Id, origin: nat, ctx: Context, events: seq<Event>)
    requires forall k :: k in before ==> k < first
    ensures CarriesEvents(before + PendingRows(first, origin, OfKind(IntegrationKind, ctx, events)), first, origin, ctx, events)
  {
    var picked := OfKind(IntegrationKind, ctx, events);
    var at := OfKindPicks(IntegrationKind, ctx, events);
    PendingRowsFrom(before, first, origin, picked);
    var table := before + PendingRows(first, origin, picked);
    forall i | 0 <= i < |at| ensures first + i in table && RowCarries(table[first + i], origin, ctx, events[at[i]]) {
      assert table[first + i] == OutboxRow(origin, picked[i], None, 0, None);
    }
  }

  function RollbackEffect(u: UnitState): UnitState {
    if !u.open || u.rolledBack || u.committed then u else u.(staged := map[], rolledBack := true)
  }

  function EnterEffect(u: UnitState): UnitState {
    u.(open := true, staged := map[])
  }

  /** Leaving the `async with` block; closing the session discards what was not committed. */
  function ExitEffect(u: UnitState, raised: bool): UnitState {
    var v := if raised || (!u.committed && !u.rolledBack) then RollbackEffect(u) else u;
    v.(open := false, staged := map[])
  }

  /** `commit` writing `added` outbox rows. */
  function CommitEffect(u: UnitState, table: Table, added: Table, f: Faults): (UnitState, Table, Outcome) {
    if !u.open then (u, table, Raised)
    else if u.committed || u.rolledBack then (u, table, Done)
    else if f.dispatchRaises then (u, table, Raised)
    else if added != map[] && f.recordRaises then (u, table, Raised)
    else
      var staged := u.staged + added;
      match f.commit
      case FailsBefore => (u.(staged := staged), table, Raised)
      case LostAck => (u.(staged := map[]), table + staged, Raised)
      case NoFault => (u.(staged := map[], committed := true), table + staged, Done)
  }

  class AggregateRoot {
    /** Type and id: what `__eq__` compares. */
    const identity: string
    var pending: seq<Event>

    constructor (identity: string)
      ensures this.identity == identity && pending == []
    {
      this.identity := identity;
      pending := [];
    }

    method RecordEvent(e: Event)
      modifies this
      ensures pending == old(pending) + [e]
    {
      pending := pending + [e];
    }

    method PullEvents() returns (events: seq<Event>)
      modifies this
      ensures events == old(pending) && pending == []
    {
      events := pending;
      pending := [];
    }
  }

  function TrackEffect(tracked: seq<AggregateRoot>, agg: AggregateRoot): seq<AggregateRoot> {
    if exists a :: a in tracked && a.identity == agg.identity then tracked else tracked + [agg]
  }

  function TrackAll(passed: seq<AggregateRoot>): seq<AggregateRoot> {
    if passed == [] then [] else TrackEffect(TrackAll(passed[..|passed| - 1]), passed[|passed| - 1])
  }

  lemma {:induction false} TrackedWerePassed(passed: seq<AggregateRoot>, a: AggregateRoot)
    requires a in TrackAll(passed)
    ensures a in passed
  {
    if passed != [] && a != passed[|passed| - 1] {
      TrackedWerePassed(passed[..|passed| - 1], a);
    }
  }

  lemma {:induction false} PassedAreRepresented(passed: seq<AggregateRoot>, a: AggregateRoot)
    requires a in passed
    ensures exists b :: b in TrackAll(passed) && b.identity == a.identity
  {
    var init, last := passed[..|passed| - 1], passed[|passed| - 1];
    if a == last {
      assert last in TrackEffect(TrackAll(init), last) || exists b :: b in TrackAll(init) && b.identity == last.identity;
    } else {
      assert passed == init + [last];
      PassedAreRepresented(init, a);
    }
  }

  lemma {:induction false} TrackedAreUnequal(passed: seq<AggregateRoot>, a: AggregateRoot, b: AggregateRoot)
    requires a in TrackAll(passed) && b in TrackAll(passed) && a.identity == b.identity
    ensures a == b
  {
    var init, last := passed[..|passed| - 1], passed[|passed| - 1];
    if a in TrackAll(init) && b in TrackAll(init) {
      TrackedAreUnequal(init, a, b);
    }
  }

  /** Every aggregate handed to `track` is drained on commit if and only if equal ones among them are one object. */
  lemma AllDrainedIff(passed: seq<AggregateRoot>)
    ensures (forall a :: a in passed ==> a in TrackAll(passed))
        <==> (forall a, b :: a in passed && b in passed && a.identity == b.identity ==> a == b)
  {
    forall a | a in passed ensures exists b :: b in TrackAll(passed) && b.identity == a.identity {
      PassedAreRepresented(passed, a);
    }
    forall a, b | a in TrackAll(passed) && b in TrackAll(passed) && a.identity == b.identity ensures a == b {
      TrackedAreUnequal(passed, a, b);
    }
    forall a | a in TrackAll(passed) ensures a in passed {
      TrackedWerePassed(passed, a);
    }
  }

  lemma {:induction false} OfKindSplit(kind: Kind, ctx: Context, a: seq<Event>, b: seq<Event>)
    ensures OfKind(kind, ctx, a + b) == OfKind(kind, ctx, a) + OfKind(kind, ctx, b)
  {
    if b == [] {
      assert a + b == a;
    } else {
      OfKindSplit(kind, ctx, a, b[..|b| - 1]);
      assert a + b == a + b[..|b| - 1] + [b[|b| - 1]];
      OneMoreOfKind(kind, ctx, a + b[..|b| - 1], b[|b| - 1]);
    }
  }

  lemma OneMoreBuffer(kind: Kind, ctx: Context, buffers: seq<seq<Event>>, i: nat)
    requires i < |buffers|
    ensures OfKind(kind, ctx, Flatten(buffers[..i + 1]))
         == OfKind(kind, ctx, Flatten(buffers[..i])) + OfKind(kind, ctx, buffers[i])
  {
    assert buffers[..i + 1][..i] == buffers[..i];
    OfKindSplit(kind, ctx, Flatten(buffers[..i]), buffers[i]);
  }

  /** Adds the stamped events of one buffer to those of their kind. */
  method SortedByKind(ctx: Context, events: seq<Event>, domainBefore: seq<Event>, integrationBefore: seq<Event>)
    returns (domainEvents: seq<Event>, integrationEvents: seq<Event>)
    ensures domainEvents == domainBefore + OfKind(DomainKind, ctx, events)
    ensures integrationEvents == integrationBefore + OfKind(IntegrationKind, ctx, events)
  {
    domainEvents, integrationEvents := domainBefore, integrationBefore;
    for j := 0 to |events|
      invariant domainEvents == domainBefore + OfKind(DomainKind, ctx, events[..j])
      invariant integrationEvents == integrationBefore + OfKind(IntegrationKind, ctx, events[..j])
    {
      assert events[..j + 1][..j] == events[..j];
      var enriched := Stamp(ctx, events[j]);
      if events[j].kind == IntegrationKind {
        integrationEvents := integrationEvents + [enriched];
      } else if events[j].kind == DomainKind {
        domainEvents := domainEvents + [enriched];
      }
    }
    assert events[..|events|] == events;
  }

  class Database {
    var table: Table
    var nextId: Id

    ghost predicate Valid()
      reads this
    {
      forall k :: k in table ==> k < nextId
    }

    constructor ()
      ensures Valid() && table == map[]
    {
      table, nextId := map[], 0;
    }
  }

  class Unit {
    const origin: nat
    const db: Database
    const hasDispatcher: bool
    const hasOutbox: bool
    var open: bool
    var staged: Table
    var committed: bool
    var rolledBack: bool
    var tracked: seq<AggregateRoot>

    function View(): UnitState
      reads this
    {
      UnitState(open, staged, committed, rolledBack)
    }

    /** Tracked aggregates are pairwise unequal, and the ids of staged rows are used up. */
    ghost predicate Valid()
      reads this, db
    {
      && (forall i, j :: 0 <= i < j < |tracked| ==> tracked[i].identity != tracked[j].identity)
      && (forall k :: k in staged ==> k < db.nextId)
    }

    function Buffers(): (b: seq<seq<Event>>)
      reads this, tracked
      ensures |b| == |tracked|
    {
      seq(|tracked|, i requires 0 <= i < |tracked| reads this, tracked => tracked[i].pending)
    }

    constructor (origin: nat, db: Database, hasDispatcher: bool, hasOutbox: bool)
      ensures Valid() && View() == NEW_UNIT && tracked == []
      ensures this.origin == origin && this.db == db
      ensures this.hasDispatcher == hasDispatcher && this.hasOutbox == hasOutbox
    {
      this.origin, this.db, this.hasDispatcher, this.hasOutbox := origin, db, hasDispatcher, hasOutbox;
      open, staged, committed, rolledBack, tracked := false, map[], false, false, [];
    }

    /** An aggregate equal to a tracked one is not tracked again, even when it is another object. */
    method Track(agg: AggregateRoot)
      requires Valid()
      modifies this`tracked
      ensures Valid()
      ensures tracked == TrackEffect(old(tracked), agg)
    {
      if !exists a :: a in tracked && a.identity == agg.identity {
        tracked := tracked + [agg];
      }
    }

    method Enter()
      modifies this
      requires Valid()
      ensures Valid() && View() == EnterEffect(old(View())) && tracked == old(tracked)
      ensures open && staged == map[] && committed == old(committed) && rolledBack == old(rolledBack)
    {
      open, staged := true, map[];
    }

    method Rollback()
      modifies this
      requires Valid()
      ensures Valid() && View() == RollbackEffect(old(View())) && tracked == old(tracked)
      ensures open == old(open) && committed == old(committed)
      ensures rolledBack == (old(rolledBack) || (open && !committed))
      ensures staged == if rolledBack && !old(rolledBack) then map[] else old(staged)
    {
      if !open || rolledBack || committed {
        return;
      }
      staged := map[];
      rolledBack := true;
    }

    method Exit(raised: bool)
      modifies this
      requires Valid()
      ensures Valid() && View() == ExitEffect(old(View()), raised) && tracked == old(tracked)
      ensures !open && staged == map[] && committed == old(committed)
      ensures rolledBack == (old(rolledBack) || old(open && !committed))
    {
      if raised {
        Rollback();
      } else if !committed && !rolledBack {
        Rollback();
      }
      open, staged := false, map[];
    }

    /** Empties the buffers of the tracked aggregates and sorts the stamped events by kind. */
    method Drain(ctx: Context) returns (domainEvents: seq<Event>, integrationEvents: seq<Event>)
      requires Valid()
      modifies tracked
      ensures domainEvents == OfKind(DomainKind, ctx, Flatten(old(Buffers())))
      ensures integrationEvents == OfKind(IntegrationKind, ctx, Flatten(old(Buffers())))
      ensures forall i :: 0 <= i < |tracked| ==> tracked[i].pending == []
    {
      ghost var buffers := Buffers();
      domainEvents, integrationEvents := [], [];
      for i := 0 to |tracked|
        invariant domainEvents == OfKind(DomainKind, ctx, Flatten(buffers[..i]))
        invariant integrationEvents == OfKind(IntegrationKind, ctx, Flatten(buffers[..i]))
        invariant forall k :: 0 <= k < i ==> tracked[k].pending == []
        invariant forall k :: i <= k < |tracked| ==> tracked[k].pending == buffers[k]
      {
        var events := tracked[i].PullEvents();
        domainEvents, integrationEvents := SortedByKind(ctx, events, domainEvents, integrationEvents);
        OneMoreBuffer(DomainKind, ctx, buffers, i);
        OneMoreBuffer(IntegrationKind, ctx, buffers, i);
      }
      assert buffers[..|tracked|] == buffers;
    }

    /** Dispatches in process, records in the outbox, and commits. */
    method Write(domainEvents: seq<Event>, integrationEvents: seq<Event>, faults: Faults) returns (outcome: Outcome)
      requires Valid() && db.Valid() && open && !committed && !rolledBack
      modifies this, db
      ensures Valid() && db.Valid() && tracked == old(tracked)
      ensures var added := if hasOutbox then PendingRows(old(db.nextId), origin, integrationEvents) else map[];
        var f := faults.(dispatchRaises := faults.dispatchRaises && hasDispatcher && domainEvents != []);
        (View(), db.table, outcome) == CommitEffect(old(View()), old(db.table), added, f)
      ensures committed && hasOutbox ==>
        db.table == old(db.table) + old(staged) + PendingRows(old(db.nextId), origin, integrationEvents)
      ensures committed <==> outcome.Done?
    {
      if hasDispatcher && domainEvents != [] && faults.dispatchRaises {
        return Raised;
      }
      if hasOutbox && integrationEvents != [] {
        assert db.nextId in PendingRows(db.nextId, origin, integrationEvents);
        if faults.recordRaises {
          return Raised;
        }
        staged := staged + PendingRows(db.nextId, origin, integrationEvents);
        db.nextId := db.nextId + |integrationEvents|;
      } else {
        assert PendingRows(db.nextId, origin, []) == map[];
        assert staged + map[] == staged;
      }
      if faults.commit == FailsBefore {
        return Raised;
      }
      db.table, staged := db.table + staged, map[];
      if faults.commit == LostAck {
        return Raised;
      }
      committed := true;
      return Done;
    }

    /** Drains every tracked aggregate even when a later step then raises. */
    method Commit(ctx: Context, faults: Faults) returns (outcome: Outcome)
      requires Valid() && db.Valid()
      modifies this, db, tracked
      ensures Valid() && db.Valid() && tracked == old(tracked)
      ensures var events := Flatten(old(Buffers()));
        var integration := OfKind(IntegrationKind, ctx, events);
        var added := if hasOutbox then PendingRows(old(db.nextId), origin, integration) else map[];
        var handled := hasDispatcher && OfKind(DomainKind, ctx, events) != [];
        var f := faults.(dispatchRaises := faults.dispatchRaises && handled);
        (View(), db.table, outcome) == CommitEffect(old(View()), old(db.table), added, f)
      ensures old(!committed) && outcome.Done? && committed && hasOutbox ==>
        CarriesEvents(db.table, old(db.nextId), origin, ctx, Flatten(old(Buffers())))
      ensures forall i :: 0 <= i < |tracked| ==>
        tracked[i].pending == if old(open && !committed && !rolledBack) then [] else old(tracked[i].pending)
    {
      if !open {
        return Raised;
      }
      if committed || rolledBack {
        return Done;
      }
      ghost var before, first, events := db.table + staged, db.nextId, Flatten(Buffers());
      var domainEvents, integrationEvents := Drain(ctx);
      outcome := Write(domainEvents, integrationEvents, faults);
      if committed && hasOutbox {
        PendingRowsCarry(before, first, origin, ctx, events);
      }
    }
  }
}
