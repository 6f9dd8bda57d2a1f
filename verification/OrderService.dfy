/** The order aggregate of the example service and the read model that summarises it. */
module OrderService {
  import opened Batches
  import opened Options
  import opened Projections

  datatype Item = Item(sku: string, quantity: nat, unitPrice: nat)

  /** `Unset` is the class attribute of an order whose events were never applied. */
  datatype Status = Unset | Pending | Confirmed | Cancelled

  datatype OrderEvent =
    | OrderPlaced(orderId: Id, customer: nat, items: seq<Item>, total: int)
    | OrderConfirmed(orderId: Id)
    | OrderCancelled(orderId: Id, reason: string)

  datatype OrderState = OrderState(customer: nat, items: seq<Item>, total: int, status: Status)

  datatype OrderError = EmptyItems | InvalidTotal | NotPending | AlreadyCancelled

  const BLANK := OrderState(0, [], 0, Unset)

  function Applied(s: OrderState, e: OrderEvent): OrderState {
    match e
    case OrderPlaced(_, customer, items, total) => OrderState(customer, items, total, Pending)
    case OrderConfirmed(_) => s.(status := Confirmed)
    case OrderCancelled(_, _) => s.(status := Cancelled)
  }

  function ReplayedFrom(s: OrderState, es: seq<OrderEvent>): OrderState {
    if es == [] then s else Applied(ReplayedFrom(s, es[..|es| - 1]), es[|es| - 1])
  }

  function Replayed(es: seq<OrderEvent>): OrderState {
    ReplayedFrom(BLANK, es)
  }

  /** The next event a command of order `id` may record after `es`. */
  predicate Allowed(id: Id, es: seq<OrderEvent>, e: OrderEvent) {
    && e.orderId == id
    && (e.OrderPlaced? <==> es == [])
    && match e
       case OrderPlaced(_, _, items, total) => items != [] && total > 0
       case OrderConfirmed(_) => Replayed(es).status == Pending
       case OrderCancelled(_, _) => Replayed(es).status != Cancelled
  }

  /** The histories an order can produce. */
  predicate ValidHistory(id: Id, es: seq<OrderEvent>) {
    es == [] || (ValidHistory(id, es[..|es| - 1]) && Allowed(id, es[..|es| - 1], es[|es| - 1]))
  }

  class Order {
    const id: Id
    var state: OrderState
    var pending: seq<OrderEvent>
    ghost var history: seq<OrderEvent>

    /** The order stands for the whole of a history orders can produce; one loaded through a snapshot may not. */
    ghost predicate Faithful()
      reads this
    {
      && ValidHistory(id, history) && state == Replayed(history)
      && |pending| <= |history| && pending == history[|history| - |pending|..]
    }

    /** A blank instance, to be filled by `place` or by replaying a stream. */
    constructor (id: Id)
      ensures Faithful() && this.id == id && state == BLANK && pending == history == []
    {
      this.id := id;
      state, pending := BLANK, [];
      history := [];
    }

    method Record(e: OrderEvent)
      modifies this
      ensures state == Applied(old(state), e)
      ensures pending == old(pending) + [e] && history == old(history) + [e]
      ensures old(Faithful() && Allowed(id, history, e)) ==> Faithful()
    {
      pending := pending + [e];
      state := Applied(state, e);
      history := history + [e];
      assert history[..|history| - 1] == old(history);
    }

    /** A faithful order that was placed stays faithful; the commands themselves accept any instance. */
    method Confirm() returns (error: Option<OrderError>)
      modifies this
      ensures error == if old(state).status == Pending then None else Some(NotPending)
      ensures state == if error.None? then old(state).(status := Confirmed) else old(state)
      ensures pending == if error.None? then old(pending) + [OrderConfirmed(id)] else old(pending)
      ensures history == if error.None? then old(history) + [OrderConfirmed(id)] else old(history)
      ensures old(Faithful()) ==> Faithful()
    {
      if state.status != Pending {
        return Some(NotPending);
      }
      Record(OrderConfirmed(id));
      return None;
    }

    method Cancel(reason: string) returns (error: Option<OrderError>)
      modifies this
      ensures error == if old(state).status == Cancelled then Some(AlreadyCancelled) else None
      ensures state == if error.None? then old(state).(status := Cancelled) else old(state)
      ensures pending == if error.None? then old(pending) + [OrderCancelled(id, reason)] else old(pending)
      ensures history == if error.None? then old(history) + [OrderCancelled(id, reason)] else old(history)
      ensures old(Faithful() && history != []) ==> Faithful()
    {
      if state.status == Cancelled {
        return Some(AlreadyCancelled);
      }
      Record(OrderCancelled(id, reason));
      return None;
    }

    method Replay(es: seq<OrderEvent>)
      modifies this
      ensures state == ReplayedFrom(old(state), es) && pending == old(pending) && history == old(history) + es
      ensures old(state == BLANK && history == [] && pending == []) && ValidHistory(id, es) ==> Faithful()
    {
      for i := 0 to |es|
        invariant state == ReplayedFrom(old(state), es[..i])
        invariant pending == old(pending)
        invariant history == old(history) + es[..i]
      {
        assert es[..i + 1][..i] == es[..i];
        state := Applied(state, es[i]);
        history := history + [es[i]];
      }
      assert es[..|es|] == es && [] + es == es;
    }
  }

  /** `Order.place`: the order, or the reason there is none. */
  method Place(id: Id, customer: nat, items: seq<Item>, total: int) returns (order: Order?, error: Option<OrderError>)
    ensures error == if items == [] then Some(EmptyItems) else if total <= 0 then Some(InvalidTotal) else None
    ensures order == null <==> error.Some?
    ensures order != null ==> fresh(order) && order.Faithful() && order.id == id
    ensures order != null ==> order.history == order.pending == [OrderPlaced(id, customer, items, total)]
  {
    if items == [] {
      return null, Some(EmptyItems);
    }
    if total <= 0 {
      return null, Some(InvalidTotal);
    }
    order := new Order(id);
    order.Record(OrderPlaced(id, customer, items, total));
    error := None;
  }

  /** The four shapes of a life: nothing, placed, then confirmed or cancelled, then confirmed and cancelled. */
  predicate LifeCycle(id: Id, es: seq<OrderEvent>) {
    && |es| <= 3
    && (forall e :: e in es ==> e.orderId == id)
    && (|es| >= 1 ==> es[0].OrderPlaced? && es[0].items != [] && es[0].total > 0)
    && (|es| == 2 ==> !es[1].OrderPlaced?)
    && (|es| == 3 ==> es[1].OrderConfirmed? && es[2].OrderCancelled?)
  }

  /** One more event leads from one life cycle to another. */
  lemma NextLifeCycle(id: Id, init: seq<OrderEvent>, e: OrderEvent)
    ensures LifeCycle(id, init + [e]) <==> LifeCycle(id, init) && Allowed(id, init, e)
  {
    var es := init + [e];
    assert forall i :: 0 <= i < |init| ==> es[i] == init[i];
    if init != [] {
      ReplayedShort(init);
    }
    if LifeCycle(id, es) {
      forall x | x in init ensures x.orderId == id {
        assert x in es;
      }
    }
  }

  lemma {:induction false} ValidHistoryIff(id: Id, es: seq<OrderEvent>)
    ensures ValidHistory(id, es) <==> LifeCycle(id, es)
  {
    if es != [] {
      var init, e := es[..|es| - 1], es[|es| - 1];
      ValidHistoryIff(id, init);
      assert es == init + [e];
      NextLifeCycle(id, init, e);
    }
  }

  /** The status after one or more events is set by the last one. */
  lemma ReplayedShort(es: seq<OrderEvent>)
    requires es != []
    ensures Replayed(es).status == StatusOf(es[|es| - 1])
  {
  }

  /** What an order was placed with stays, and its newest event sets the status. */
  lemma {:induction false} PlacedIsRemembered(id: Id, es: seq<OrderEvent>)
    requires ValidHistory(id, es) && es != []
    ensures es[0].OrderPlaced?
    ensures var last := es[|es| - 1];
      Replayed(es) == OrderState(es[0].customer, es[0].items, es[0].total,
        match last case OrderPlaced(_, _, _, _) => Pending case OrderConfirmed(_) => Confirmed case OrderCancelled(_, _) => Cancelled)
  {
    if |es| > 1 {
      PlacedIsRemembered(id, es[..|es| - 1]);
    }
  }

  function StatusOf(e: OrderEvent): Status {
    match e
    case OrderPlaced(_, _, _, _) => Pending
    case OrderConfirmed(_) => Confirmed
    case OrderCancelled(_, _) => Cancelled
  }

  // ---------------------------------------------------------------------
  // The summary table
  // ---------------------------------------------------------------------

  datatype Summary = Summary(customer: nat, total: int, status: Status, itemCount: nat)

  type Table = map<Id, Summary>

  const MAX_INTEGER: int := 0x7FFF_FFFF

  /** The total fits the 32-bit column; the insert raises otherwise. */
  predicate Fits(e: OrderEvent) {
    e.OrderPlaced? ==> e.total <= MAX_INTEGER
  }

  function WithStatus(t: Table, id: Id, status: Status): Table {
    if id in t then t[id := t[id].(status := status)] else t
  }

  function ApplySummary(t: Table, e: OrderEvent): Table {
    match e
    case OrderPlaced(id, customer, items, total) =>
      if id in t then t else t[id := Summary(customer, total, Pending, |items|)]
    case OrderConfirmed(id) => WithStatus(t, id, Confirmed)
    case OrderCancelled(id, _) => WithStatus(t, id, Cancelled)
  }

  class OrderSummaryProjection {
    var table: Table

    constructor ()
      ensures table == map[]
    {
      table := map[];
    }

    /** Each handler commits on its own connection; `false` is the exception of a rejected insert. */
    method Apply(e: OrderEvent) returns (ok: bool)
      modifies this
      ensures ok == Fits(e) == !(e.OrderPlaced? && e.total > 2147483647)
      ensures table == if ok then ApplySummary(old(table), e) else old(table)
    {
      match e {
        case OrderPlaced(id, customer, items, total) =>
          if total > MAX_INTEGER {
            return false;
          }
          if id !in table {
            table := table[id := Summary(customer, total, Pending, |items|)];
          }
        case OrderConfirmed(id) =>
          if id in table {
            table := table[id := table[id].(status := Confirmed)];
          }
        case OrderCancelled(id, _) =>
          if id in table {
            table := table[id := table[id].(status := Cancelled)];
          }
      }
      return true;
    }

    method Reset()
      modifies this
      ensures table == map[]
    {
      table := map[];
    }
  }

  function Summarise(t: Table, rows: seq<Row<OrderEvent>>): Table {
    Fold(ApplySummary, t, rows)
  }

  // One row of the table at a time -----------------------------------------

  /** The events of one order in the log. */
  function Stream(rows: seq<Row<OrderEvent>>, id: Id): seq<OrderEvent> {
    if rows == [] then []
    else
      var before := Stream(rows[..|rows| - 1], id);
      var e := rows[|rows| - 1].event;
      if e.orderId == id then before + [e] else before
  }

  function ApplyRow(r: Option<Summary>, e: OrderEvent): Option<Summary> {
    match e
    case OrderPlaced(_, customer, items, total) => if r.Some? then r else Some(Summary(customer, total, Pending, |items|))
    case OrderConfirmed(_) => if r.Some? then Some(r.value.(status := Confirmed)) else r
    case OrderCancelled(_, _) => if r.Some? then Some(r.value.(status := Cancelled)) else r
  }

  function FoldRow(r: Option<Summary>, es: seq<OrderEvent>): Option<Summary> {
    if es == [] then r else ApplyRow(FoldRow(r, es[..|es| - 1]), es[|es| - 1])
  }

  /** Each row of the table depends on the events of its own order only. */
  lemma {:induction false} RowsAreIndependent(t: Table, rows: seq<Row<OrderEvent>>, id: Id)
    ensures Lookup(Summarise(t, rows), id) == FoldRow(Lookup(t, id), Stream(rows, id))
  {
    if rows != [] {
      var init, e := rows[..|rows| - 1], rows[|rows| - 1].event;
      RowsAreIndependent(t, init, id);
      if e.orderId == id {
        assert Stream(rows, id)[..|Stream(rows, id)| - 1] == Stream(init, id);
      }
    }
  }

  lemma SameTable(a: Table, b: Table)
    requires forall id :: Lookup(a, id) == Lookup(b, id)
    ensures a == b
  {
    forall id ensures id in a <==> id in b {
      assert Lookup(a, id) == Lookup(b, id);
    }
    forall id | id in a ensures a[id] == b[id] {
      assert Lookup(a, id) == Lookup(b, id);
    }
  }

  /** Any interleaving of histories that orders can produce. */
  ghost predicate ValidLog(rows: seq<Row<OrderEvent>>) {
    forall id :: ValidHistory(id, Stream(rows, id))
  }

  /** The row of an order as its aggregate would report it. */
  function Report(es: seq<OrderEvent>): Option<Summary> {
    if es == [] then None
    else
      var s := Replayed(es);
      Some(Summary(s.customer, s.total, s.status, |s.items|))
  }

  lemma {:induction false} RowIsReport(id: Id, es: seq<OrderEvent>)
    requires ValidHistory(id, es)
    ensures FoldRow(None, es) == Report(es)
  {
    if es != [] {
      RowIsReport(id, es[..|es| - 1]);
    }
  }

  /** The summary of every order agrees with the replay of its aggregate. */
  lemma SummaryAgreesWithReplay(rows: seq<Row<OrderEvent>>, id: Id)
    requires ValidLog(rows)
    ensures Lookup(Summarise(map[], rows), id) == Report(Stream(rows, id))
  {
    RowsAreIndependent(map[], rows, id);
    RowIsReport(id, Stream(rows, id));
  }

  // Re-applying --------------------------------------------------------------

  /** Only the first event may be a placement. */
  predicate PlacedFirst(es: seq<OrderEvent>) {
    forall i :: 0 < i < |es| ==> !es[i].OrderPlaced?
  }

  /** The status set last, if any. */
  function Settled(es: seq<OrderEvent>): Option<Status> {
    if es == [] then None
    else if es[|es| - 1].OrderPlaced? then Settled(es[..|es| - 1])
    else Some(StatusOf(es[|es| - 1]))
  }

  function Opened(r: Option<Summary>, es: seq<OrderEvent>): Option<Summary> {
    if r.None? && es != [] && es[0].OrderPlaced? then ApplyRow(None, es[0]) else r
  }

  function Settle(r: Option<Summary>, status: Option<Status>): Option<Summary> {
    if r.Some? && status.Some? then Some(r.value.(status := status.value)) else r
  }

  lemma {:induction false} FoldRowClosed(r: Option<Summary>, es: seq<OrderEvent>)
    requires PlacedFirst(es)
    ensures FoldRow(r, es) == Settle(Opened(r, es), Settled(es))
  {
    if es != [] {
      FoldRowClosed(r, es[..|es| - 1]);
    }
  }

  lemma {:induction false} SettledStays(es: seq<OrderEvent>, k: nat)
    requires k <= |es| && Settled(es).None?
    ensures Settled(es[..k]).None?
  {
    if k < |es| {
      SettledStays(es[..|es| - 1], k);
      assert es[..|es| - 1][..k] == es[..k];
    } else {
      assert es[..k] == es;
    }
  }

  lemma AbsorbRow(r: Option<Summary>, es: seq<OrderEvent>, k: nat)
    requires PlacedFirst(es) && k <= |es|
    ensures FoldRow(FoldRow(r, es[..k]), es) == FoldRow(r, es)
  {
    var done := FoldRow(r, es[..k]);
    FoldRowClosed(r, es[..k]);
    FoldRowClosed(r, es);
    FoldRowClosed(done, es);
    if Settled(es).None? {
      SettledStays(es, k);
    }
  }

  lemma {:induction false} StreamSplit(a: seq<Row<OrderEvent>>, b: seq<Row<OrderEvent>>, id: Id)
    ensures Stream(a + b, id) == Stream(a, id) + Stream(b, id)
  {
    if b == [] {
      assert a + b == a;
    } else {
      assert (a + b)[..|a + b| - 1] == a + b[..|b| - 1];
      StreamSplit(a, b[..|b| - 1], id);
    }
  }

  /** No order is placed after another of its events in these rows. */
  ghost predicate Openings(rows: seq<Row<OrderEvent>>) {
    forall id :: PlacedFirst(Stream(rows, id))
  }

  /** Re-applying a batch after any part of it gives the same table as applying it once. */
  lemma Absorb(t: Table, rows: seq<Row<OrderEvent>>, k: nat)
    requires Openings(rows) && k <= |rows|
    ensures Summarise(Summarise(t, rows[..k]), rows) == Summarise(t, rows)
  {
    var partial := Summarise(t, rows[..k]);
    forall id ensures Lookup(Summarise(partial, rows), id) == Lookup(Summarise(t, rows), id) {
      RowsAreIndependent(t, rows[..k], id);
      RowsAreIndependent(partial, rows, id);
      RowsAreIndependent(t, rows, id);
      assert rows == rows[..k] + rows[k..];
      StreamSplit(rows[..k], rows[k..], id);
      var es := Stream(rows, id);
      assert Stream(rows[..k], id) == es[..|Stream(rows[..k], id)|];
      AbsorbRow(Lookup(t, id), es, |Stream(rows[..k], id)|);
    }
    SameTable(Summarise(partial, rows), Summarise(t, rows));
  }

  lemma SegmentOpenings(rows: seq<Row<OrderEvent>>, lo: nat, hi: nat)
    requires ValidLog(rows) && lo <= hi <= |rows|
    ensures Openings(rows[lo..hi])
  {
    forall id ensures PlacedFirst(Stream(rows[lo..hi], id)) {
      assert rows == rows[..lo] + (rows[lo..hi] + rows[hi..]);
      StreamSplit(rows[..lo], rows[lo..hi] + rows[hi..], id);
      StreamSplit(rows[lo..hi], rows[hi..], id);
      ValidHistoryIff(id, Stream(rows, id));
      MiddleOfLife(id, Stream(rows[..lo], id), Stream(rows[lo..hi], id), Stream(rows[hi..], id));
    }
  }

  lemma MiddleOfLife(id: Id, a: seq<OrderEvent>, b: seq<OrderEvent>, c: seq<OrderEvent>)
    requires LifeCycle(id, a + (b + c))
    ensures PlacedFirst(b)
  {
    forall i | 0 < i < |b| ensures !b[i].OrderPlaced? {
      assert b[i] == (a + (b + c))[|a| + i];
    }
  }

  lemma {:induction false} HistoryPrefix(id: Id, es: seq<OrderEvent>, k: nat)
    requires ValidHistory(id, es) && k <= |es|
    ensures ValidHistory(id, es[..k])
  {
    if k < |es| {
      HistoryPrefix(id, es[..|es| - 1], k);
      assert es[..|es| - 1][..k] == es[..k];
    } else {
      assert es[..k] == es;
    }
  }

  lemma ValidPrefix(rows: seq<Row<OrderEvent>>, k: nat)
    requires ValidLog(rows) && k <= |rows|
    ensures ValidLog(rows[..k])
  {
    forall id ensures ValidHistory(id, Stream(rows[..k], id)) {
      assert rows == rows[..k] + rows[k..];
      StreamSplit(rows[..k], rows[k..], id);
      HistoryPrefix(id, Stream(rows, id), |Stream(rows[..k], id)|);
    }
  }

  // Every event shows ----------------------------------------------------------

  function Rank(r: Option<Summary>): nat {
    if r.None? then 0
    else match r.value.status
         case Unset => 0
         case Pending => 1
         case Confirmed => 2
         case Cancelled => 3
  }

  lemma RankGrows(id: Id, a: seq<OrderEvent>, b: seq<OrderEvent>)
    requires ValidHistory(id, a + b) && b != []
    ensures Rank(Report(a)) < Rank(Report(a + b))
  {
    ValidHistoryIff(id, a + b);
    if a != [] {
      ReplayedShort(a);
      assert a[|a| - 1] == (a + b)[|a| - 1];
    }
    ReplayedShort(a + b);
  }

  /** Different prefixes of a valid log have different tables: no event leaves the summary as it was. */
  lemma PrefixesDiffer(rows: seq<Row<OrderEvent>>, j: nat, k: nat)
    requires ValidLog(rows) && j < k <= |rows|
    ensures Summarise(map[], rows[..j]) != Summarise(map[], rows[..k])
  {
    var id := rows[j].event.orderId;
    ValidPrefix(rows, j);
    ValidPrefix(rows, k);
    SummaryAgreesWithReplay(rows[..j], id);
    SummaryAgreesWithReplay(rows[..k], id);
    var next := rows[j..k];
    assert rows[..k] == rows[..j] + next;
    StreamSplit(rows[..j], next, id);
    assert next == [rows[j]] + next[1..];
    StreamSplit([rows[j]], next[1..], id);
    RankGrows(id, Stream(rows[..j], id), Stream(next, id));
  }

  lemma SplitAtRow(a: seq<Row<OrderEvent>>, r: Row<OrderEvent>, b: seq<Row<OrderEvent>>, id: Id)
    requires r.event.orderId == id
    ensures Stream(a + [r] + b, id) == Stream(a, id) + [r.event] + Stream(b, id)
  {
    StreamSplit(a + [r], b, id);
    StreamSplit(a, [r], id);
    assert Stream([r], id) == [r.event];
  }

  lemma SameEventTwice(id: Id, a: seq<OrderEvent>, e: OrderEvent, b: seq<OrderEvent>)
    requires ValidHistory(id, a + [e] + b)
    ensures ApplyRow(Report(a + [e] + b), e) == Report(a + [e] + b) <==> e.OrderPlaced? || b == []
  {
    var es := a + [e] + b;
    ValidHistoryIff(id, es);
    ReplayedShort(es);
    assert es[|a|] == e;
    if b != [] {
      assert es[|es| - 1] == b[|b| - 1];
    }
  }

  /** Replaying one event of the log a second time is a no-op exactly for placements and for the last event of an order. */
  lemma ReplayingTwiceIff(rows: seq<Row<OrderEvent>>, i: nat)
    requires ValidLog(rows) && i < |rows|
    ensures var e, t := rows[i].event, Summarise(map[], rows);
      ApplySummary(t, e) == t <==> e.OrderPlaced? || Stream(rows[i + 1..], e.orderId) == []
  {
    var e, t := rows[i].event, Summarise(map[], rows);
    assert rows == rows[..i] + [rows[i]] + rows[i + 1..];
    SplitAtRow(rows[..i], rows[i], rows[i + 1..], e.orderId);
    SummaryAgreesWithReplay(rows, e.orderId);
    SameEventTwice(e.orderId, Stream(rows[..i], e.orderId), e, Stream(rows[i + 1..], e.orderId));
    if Lookup(ApplySummary(t, e), e.orderId) == Lookup(t, e.orderId) {
      SameTable(ApplySummary(t, e), t);
    }
  }
}
