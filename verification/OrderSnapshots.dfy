/** The order aggregate in the event store: `Order` is no dataclass, so its snapshots hold none of its fields. */
module OrderSnapshots {
  import opened Options
  import opened JsonText
  import ES = EventSourcing
  import Runs = EventStoreRuns
  import Projections
  import opened OrderService

  function ItemJson(item: Item): Json {
    Obj([Member("sku", Str(item.sku)), Member("quantity", Num(item.quantity)),
         Member("unit_price_cents", Num(item.unitPrice))])
  }

  function Field(members: seq<Member>, name: string): Json {
    if members == [] then Null else if members[0].name == name then members[0].value else Field(members[1..], name)
  }

  /** `OrderItem.from_dict` reads an item back. */
  function ItemOf(j: Json): Option<Item> {
    if !j.Obj? then None
    else
      match (Field(j.members, "sku"), Field(j.members, "quantity"), Field(j.members, "unit_price_cents"))
      case (Str(sku), Num(quantity), Num(price)) =>
        if quantity > 0 && price > 0 then Some(Item(sku, quantity, price)) else None
      case _ => None
  }

  lemma ItemRoundTrip(item: Item)
    requires item.quantity > 0 && item.unitPrice > 0
    ensures ItemOf(ItemJson(item)) == Some(item)
  {
    var members := ItemJson(item).members;
    assert members[1..] == [members[1], members[2]] && members[1..][1..] == [members[2]];
    assert Field(members[1..][1..], "unit_price_cents") == Num(item.unitPrice);
    assert Field(members[1..], "unit_price_cents") == Num(item.unitPrice);
    assert Field(members[1..], "quantity") == Num(item.quantity);
  }

  function Stored(e: OrderEvent): ES.Event {
    match e
    case OrderPlaced(_, customer, items, total) =>
      ES.Event("orderplaced", Arr([Num(customer), Arr(seq(|items|, i requires 0 <= i < |items| => ItemJson(items[i]))),
                                   Num(total)]))
    case OrderConfirmed(_) => ES.Event("orderconfirmed", Null)
    case OrderCancelled(_, reason) => ES.Event("ordercancelled", Str(reason))
  }

  function Part(j: Json, i: nat): Json {
    if j.Arr? && i < |j.items| then j.items[i] else Null
  }

  function OnPlaced(s: ES.Fields, e: ES.Event): ES.Fields {
    s["customer_id" := Part(e.payload, 0)]["items" := Part(e.payload, 1)]
     ["total_cents" := Part(e.payload, 2)]["status" := Str("pending")]
  }

  function OnConfirmed(s: ES.Fields, e: ES.Event): ES.Fields {
    s["status" := Str("confirmed")]
  }

  function OnCancelled(s: ES.Fields, e: ES.Event): ES.Fields {
    s["status" := Str("cancelled")]
  }

  /** Only the fields of the base class are dataclass fields. */
  const ORDER := ES.AggregateClass(
    [ES.FieldDecl("id", ES.NoDefault), ES.FieldDecl("version", ES.Plain(Num(0))),
     ES.FieldDecl("_pending_events", ES.FromFactory(Arr([])))],
    map["orderplaced" := OnPlaced, "orderconfirmed" := OnConfirmed, "ordercancelled" := OnCancelled])

  function StoredAll(es: seq<OrderEvent>): seq<ES.Event> {
    seq(|es|, i requires 0 <= i < |es| => Stored(es[i]))
  }

  lemma NothingIsKept()
    ensures ES.SnapshotNames(ORDER.declared) == {}
  {
    forall f | f in ORDER.declared ensures f.name in ES.BASE_NAMES {
      var i :| 0 <= i < |ORDER.declared| && ORDER.declared[i] == f;
    }
  }

  lemma {:induction false} OnlyStatusIsReplayed(es: seq<OrderEvent>)
    requires forall e :: e in es ==> !e.OrderPlaced?
    ensures ES.Replay(ORDER, map[], StoredAll(es)).Keys <= {"status"}
  {
    if es != [] {
      OnlyStatusIsReplayed(es[..|es| - 1]);
      assert StoredAll(es)[..|es| - 1] == StoredAll(es[..|es| - 1]);
    }
  }

  /** The attributes of an order as stored events set them. */
  ghost predicate Holds(fields: ES.Fields, o: OrderState) {
    && Lookup(fields, "customer_id") == Some(Num(o.customer))
    && Lookup(fields, "total_cents") == Some(Num(o.total))
    && "items" in fields && fields["items"].Arr? && |fields["items"].items| == |o.items|
    && (forall i :: 0 <= i < |o.items| ==> fields["items"].items[i] == ItemJson(o.items[i]))
    && Lookup(fields, "status") == Some(Str(match o.status
         case Pending => "pending" case Confirmed => "confirmed" case Cancelled => "cancelled" case Unset => ""))
  }

  /** Replaying the stored events of an order sets what the order was placed with, and its status. */
  lemma {:induction false} OrderIsReplayed(id: Projections.Id, es: seq<OrderEvent>, s: ES.Fields)
    requires ValidHistory(id, es) && es != []
    ensures Holds(ES.Replay(ORDER, s, StoredAll(es)), Replayed(es))
  {
    var init := es[..|es| - 1];
    assert StoredAll(es)[..|es| - 1] == StoredAll(init);
    if init != [] {
      OrderIsReplayed(id, init, s);
    }
  }

  /** The stream of an order with the snapshot its append took at version `v`. */
  function WithSnapshot(es: seq<OrderEvent>, v: nat): ES.Store
    requires v <= |es|
  {
    ES.Store(ES.NewRows(0, StoredAll(es)),
             Some(ES.Snapshot(ES.Serialize(ORDER, ES.Current(ORDER, StoredAll(es[..v]))), v)))
  }

  lemma TailOfRows(es: seq<OrderEvent>, v: nat)
    requires v <= |es|
    ensures var rows := ES.NewRows(0, StoredAll(es));
      |rows| == |es| && Runs.Contiguous(rows) && ES.EventsOf(rows[v..]) == StoredAll(es[v..])
  {
  }

  lemma NothingRestored()
    ensures ES.RestoreFields(ORDER.declared, map[]) == map[]
  {
    NothingIsKept();
    Runs.RestoreKnown(ORDER.declared, map[]);
  }

  lemma LoadReplaysTailOnly(es: seq<OrderEvent>, v: nat)
    requires v <= |es|
    ensures ES.Load(ORDER, WithSnapshot(es, v)) == Some(ES.Handle(|es|, ES.Replay(ORDER, map[], StoredAll(es[v..])), []))
  {
    var rows := ES.NewRows(0, StoredAll(es));
    assert WithSnapshot(es, v).snapshot.value.state == map[] by {
      NothingIsKept();
    }
    NothingRestored();
    TailOfRows(es, v);
    Runs.TailOfContiguous(rows, v);
  }

  lemma FullReplayKnowsOrder(id: Projections.Id, es: seq<OrderEvent>, st: ES.Store)
    requires ValidHistory(id, es) && es != [] && st.rows == ES.NewRows(0, StoredAll(es))
    ensures var full := Runs.FullReplay(ORDER, st);
      && full.Some? && full.value.version == |es|
      && Holds(full.value.fields, Replayed(es))
  {
    assert ES.EventsOf(st.rows) == StoredAll(es);
    OrderIsReplayed(id, es, ES.Blank(ORDER));
  }

  lemma NoLaterPlacement(id: Projections.Id, es: seq<OrderEvent>, v: nat)
    requires ValidHistory(id, es) && 1 <= v <= |es|
    ensures forall e :: e in es[v..] ==> !e.OrderPlaced?
  {
    ValidHistoryIff(id, es);
  }

  lemma LoadedKnowsStatusOnly(id: Projections.Id, es: seq<OrderEvent>, v: nat, loaded: Option<ES.Handle>)
    requires ValidHistory(id, es) && 1 <= v <= |es|
    requires loaded == Some(ES.Handle(|es|, ES.Replay(ORDER, map[], StoredAll(es[v..])), []))
    ensures loaded.value.version == |es| && loaded.value.fields.Keys <= {"status"}
  {
    NoLaterPlacement(id, es, v);
    OnlyStatusIsReplayed(es[v..]);
  }

  /** Loading an order through any snapshot forgets what it was placed with; the full replay knows it. */
  lemma SnapshotLosesOrder(id: Projections.Id, es: seq<OrderEvent>, v: nat)
    requires ValidHistory(id, es) && 1 <= v <= |es|
    ensures var loaded, full := ES.Load(ORDER, WithSnapshot(es, v)), Runs.FullReplay(ORDER, WithSnapshot(es, v));
      && loaded.Some? && full.Some? && loaded.value.version == full.value.version == |es|
      && loaded.value.fields.Keys <= {"status"}
      && Holds(full.value.fields, Replayed(es))
  {
    LoadReplaysTailOnly(es, v);
    LoadedKnowsStatusOnly(id, es, v, ES.Load(ORDER, WithSnapshot(es, v)));
    FullReplayKnowsOrder(id, es, WithSnapshot(es, v));
  }

  /** Appending up to version `v` takes a snapshot. */
  predicate SnapshotDue(es: seq<OrderEvent>, v: nat, every: int)
    requires every != 0
  {
    1 <= v <= |es| && v % every == 0
  }

  /** An order lives for three events at most, so it meets a snapshot exactly when one is taken that often. */
  lemma SnapshotIsReachedIff(every: int)
    requires every != 0
    ensures (exists id: Projections.Id, es, v: nat :: ValidHistory(id, es) && SnapshotDue(es, v, every)) <==> -3 <= every <= 3
  {
    if id: Projections.Id, es, v: nat :| ValidHistory(id, es) && SnapshotDue(es, v, every) {
      ValidHistoryIff(id, es);
    }
    if -3 <= every <= 3 {
      var es := [OrderPlaced(0, 0, [Item("", 1, 1)], 1), OrderConfirmed(0), OrderCancelled(0, "")];
      ValidHistoryIff(0, es);
      assert ValidHistory(0, es) && SnapshotDue(es, if every < 0 then -every else every, every);
    }
  }
}
