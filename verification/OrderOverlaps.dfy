/**
 * The order summary under overlapping runs of the projection runner: every handler commits on its own connection, so
 * the rows of several attempts interleave one by one. Rebuilds are those of `OrderProjectionRuns`.
 */
module OrderOverlaps {
  import opened Batches
  import opened Options
  import opened Projections
  import opened OrderService

  type Log = seq<Row<OrderEvent>>

  /** One run: it selected the rows `lo..hi` and will apply row `next`. */
  datatype Attempt = Attempt(lo: nat, hi: nat, next: nat)

  /** In a log of increasing sequences the checkpoint stands for the number `pos` of rows up to it. */
  datatype World = World(log: Log, table: Table, pos: nat, attempts: map<nat, Attempt>)

  datatype Op = Append(row: Row<OrderEvent>) | Select(worker: nat) | Apply(worker: nat) | Finish(worker: nat) | Die(worker: nat)

  const INIT := World([], map[], 0, map[])

  /** Operations that do not apply leave the world alone; a handler that raises ends its attempt. */
  function Step(limit: nat, w: World, op: Op): World {
    match op
    case Append(row) => w.(log := w.log + [row])
    case Select(k) =>
      if k in w.attempts || w.pos > |w.log| then w
      else w.(attempts := w.attempts[k := Attempt(w.pos, w.pos + Min(limit, |w.log| - w.pos), w.pos)])
    case Apply(k) =>
      if k !in w.attempts || w.attempts[k].next >= w.attempts[k].hi || w.attempts[k].next >= |w.log| then w
      else if !Fits(w.log[w.attempts[k].next].event) then w.(attempts := w.attempts - {k})
      else ApplyNext(w, k)
    case Finish(k) =>
      if k !in w.attempts || w.attempts[k].next < w.attempts[k].hi then w
      else w.(pos := if w.attempts[k].lo < w.attempts[k].hi then w.attempts[k].hi else w.pos, attempts := w.attempts - {k})
    case Die(k) => w.(attempts := w.attempts - {k})
  }

  function ApplyNext(w: World, k: nat): World
    requires k in w.attempts && w.attempts[k].next < |w.log|
  {
    var a := w.attempts[k];
    w.(table := ApplySummary(w.table, w.log[a.next].event), attempts := w.attempts[k := a.(next := a.next + 1)])
  }

  function Exec(limit: nat, w: World, ops: seq<Op>): World {
    if ops == [] then w else Step(limit, Exec(limit, w, ops[..|ops| - 1]), ops[|ops| - 1])
  }

  /** The rows a run selects are those of its query. */
  lemma SelectIsBatch(limit: nat, log: Log, checkpoint: nat, pos: nat)
    requires Increasing(log) && At(log, checkpoint, pos)
    ensures log[pos..pos + Min(limit, |log| - pos)] == Batch(log, checkpoint, limit)
    ensures At(log, NextCheckpoint(Batch(log, checkpoint, limit), checkpoint), pos + Min(limit, |log| - pos))
  {
    BatchIsNext(log, checkpoint, pos, limit);
  }

  // ---------------------------------------------------------------------
  // What the table shows
  // ---------------------------------------------------------------------

  /** The row of an order is what its aggregate was after some number of its events. */
  ghost predicate Shows(log: Log, t: Table, id: Id) {
    exists n :: 0 <= n <= |Stream(log, id)| && Lookup(t, id) == Report(Stream(log, id)[..n])
  }

  /** Some attempt applied the first `n` rows, or an attempt before it did. */
  ghost predicate Reflects(log: Log, t: Table, n: nat) {
    n <= |log| && forall i :: 0 <= i < n ==>
      var e := log[i].event;
      e.orderId in t && (!e.OrderPlaced? ==> t[e.orderId].status != Pending)
  }

  ghost predicate WorldOk(w: World) {
    && (forall id :: Shows(w.log, w.table, id))
    && Reflects(w.log, w.table, w.pos)
    && forall k :: k in w.attempts ==>
         w.attempts[k].next <= w.attempts[k].hi <= |w.log| && Reflects(w.log, w.table, w.attempts[k].next)
  }

  /** Catching up from the checkpoint yields the summary of the log. */
  ghost predicate Repairable(w: World) {
    w.pos <= |w.log| && Summarise(w.table, w.log[w.pos..]) == Summarise(map[], w.log)
  }

  /** Every order whose cancellation lies among the first `n` rows shows as cancelled. */
  predicate CancelledShown(log: Log, t: Table, n: nat)
    requires n <= |log|
  {
    forall i :: 0 <= i < n && log[i].event.OrderCancelled? ==>
      log[i].event.orderId in t && t[log[i].event.orderId].status == Cancelled
  }

  function Fresh(e: OrderEvent, status: Status): Summary
    requires e.OrderPlaced?
  {
    Summary(e.customer, e.total, status, |e.items|)
  }

  /** A report holds what the order was placed with and the status its newest event set. */
  lemma {:induction false} ReportOf(id: Id, es: seq<OrderEvent>, n: nat)
    requires ValidHistory(id, es) && 1 <= n <= |es|
    ensures es[0].OrderPlaced? && Report(es[..n]) == Some(Fresh(es[0], StatusOf(es[n - 1])))
  {
    ValidHistoryIff(id, es);
    var part := es[..n];
    assert part[..n - 1] == es[..n - 1];
    if n > 1 {
      ReportOf(id, es, n - 1);
      assert !es[n - 1].OrderPlaced?;
    }
  }

  /** Events still ahead of the checkpoint settle the row, whatever it shows of an order placed before. */
  lemma RowAheadRepairs(id: Id, a: seq<OrderEvent>, b: seq<OrderEvent>, n: nat)
    requires ValidHistory(id, a + b) && n <= |a + b| && (a != [] ==> n >= 1) && b != []
    ensures FoldRow(Report((a + b)[..n]), b) == Report(a + b)
    ensures a != [] ==> !a[|a| - 1].OrderCancelled?
  {
    var es := a + b;
    ValidHistoryIff(id, es);
    if n > 0 {
      ReportOf(id, es, n);
    }
    ReportOf(id, es, |es|);
    assert es[..|es|] == es && b[|b| - 1] == es[|es| - 1] && b[0] == es[|a|];
    forall i | 0 < i < |b| ensures !b[i].OrderPlaced? {
      assert b[i] == es[|a| + i];
    }
    FoldRowClosed(Report(es[..n]), b);
  }

  /** One order: `a` lies before the checkpoint and `b` after it, and the row shows the first `n` events. */
  lemma RowRepairsIff(id: Id, a: seq<OrderEvent>, b: seq<OrderEvent>, n: nat)
    requires ValidHistory(id, a + b) && n <= |a + b| && (a != [] ==> n >= 1) && (|a| >= 2 ==> n >= 2)
    ensures FoldRow(Report((a + b)[..n]), b) == Report(a + b) <==>
      (a != [] && a[|a| - 1].OrderCancelled? ==> n == |a + b|)
  {
    if b != [] {
      RowAheadRepairs(id, a, b, n);
    } else if a != [] {
      assert a + b == a && a[..|a|] == a;
      ValidHistoryIff(id, a);
      ReportOf(id, a, n);
      ReportOf(id, a, |a|);
    } else {
      assert a + b == [];
    }
  }

  lemma {:induction false} StreamMember(rows: Log, id: Id, e: OrderEvent) returns (i: nat)
    requires e in Stream(rows, id)
    ensures i < |rows| && rows[i].event == e && e.orderId == id
  {
    var init := rows[..|rows| - 1];
    if rows[|rows| - 1].event == e && e.orderId == id {
      i := |rows| - 1;
    } else {
      i := StreamMember(init, id, e);
    }
  }

  lemma {:induction false} InStream(rows: Log, i: nat)
    requires i < |rows|
    ensures rows[i].event in Stream(rows, rows[i].event.orderId)
  {
    if i < |rows| - 1 {
      InStream(rows[..|rows| - 1], i);
    }
  }

  predicate CancelledShownOf(log: Log, t: Table, n: nat, id: Id)
    requires n <= |log|
  {
    forall i :: 0 <= i < n && log[i].event.OrderCancelled? && log[i].event.orderId == id ==>
      id in t && t[id].status == Cancelled
  }

  /** Before the checkpoint an order shows at least what the attempts that got there applied. */
  lemma ShownBefore(w: World, id: Id, a: seq<OrderEvent>, b: seq<OrderEvent>) returns (n: nat)
    requires ValidLog(w.log) && WorldOk(w)
    requires a == Stream(w.log[..w.pos], id) && a + b == Stream(w.log, id)
    ensures n <= |a + b| && Lookup(w.table, id) == Report((a + b)[..n])
    ensures (a != [] ==> n >= 1) && (|a| >= 2 ==> n >= 2)
  {
    var es := a + b;
    assert Shows(w.log, w.table, id);
    n :| 0 <= n <= |es| && Lookup(w.table, id) == Report(es[..n]);
    ValidHistoryIff(id, es);
    if a != [] {
      var i := StreamMember(w.log[..w.pos], id, a[0]);
      assert w.log[i].event == a[0];
    }
    if |a| >= 2 {
      var i := StreamMember(w.log[..w.pos], id, a[1]);
      assert w.log[i].event == a[1] == es[1];
      ReportOf(id, es, n);
    }
  }

  /** A cancellation before the checkpoint is the last event of its order. */
  lemma CancellationEnds(log: Log, pos: nat, id: Id, a: seq<OrderEvent>, i: nat)
    requires ValidHistory(id, a) && i < pos <= |log| && a == Stream(log[..pos], id)
    requires log[i].event.OrderCancelled? && log[i].event.orderId == id
    ensures a != [] && a[|a| - 1].OrderCancelled?
  {
    InStream(log[..pos], i);
    ValidHistoryIff(id, a);
  }

  lemma CancelledIsLast(w: World, id: Id, a: seq<OrderEvent>, b: seq<OrderEvent>, n: nat)
    requires ValidLog(w.log) && w.pos <= |w.log|
    requires a == Stream(w.log[..w.pos], id) && a + b == Stream(w.log, id)
    requires n <= |a + b| && Lookup(w.table, id) == Report((a + b)[..n]) && (a != [] ==> n >= 1)
    ensures CancelledShownOf(w.log, w.table, w.pos, id) <==>
      (a != [] && a[|a| - 1].OrderCancelled? ==> n == |a + b|)
  {
    var es := a + b;
    HistoryPrefix(id, es, |a|);
    assert es[..|a|] == a;
    forall i | 0 <= i < w.pos && w.log[i].event.OrderCancelled? && w.log[i].event.orderId == id
      ensures a != [] && a[|a| - 1].OrderCancelled?
    {
      CancellationEnds(w.log, w.pos, id, a, i);
    }
    if a != [] && a[|a| - 1].OrderCancelled? {
      var i := StreamMember(w.log[..w.pos], id, a[|a| - 1]);
      assert w.log[i].event == a[|a| - 1] == es[|a| - 1];
      ReportOf(id, es, n);
      ValidHistoryIff(id, es);
    }
  }

  lemma RowRepairable(w: World, id: Id)
    requires ValidLog(w.log) && WorldOk(w)
    ensures Lookup(Summarise(w.table, w.log[w.pos..]), id) == Lookup(Summarise(map[], w.log), id)
        <==> CancelledShownOf(w.log, w.table, w.pos, id)
  {
    var a, b := Stream(w.log[..w.pos], id), Stream(w.log[w.pos..], id);
    assert w.log == w.log[..w.pos] + w.log[w.pos..];
    StreamSplit(w.log[..w.pos], w.log[w.pos..], id);
    var n := ShownBefore(w, id, a, b);
    RowRepairsIff(id, a, b, n);
    CancelledIsLast(w, id, a, b, n);
    RowsAreIndependent(w.table, w.log[w.pos..], id);
    SummaryAgreesWithReplay(w.log, id);
  }

  /** Catching up repairs the table exactly when every order cancelled before the checkpoint shows as cancelled. */
  lemma RepairableIff(w: World)
    requires ValidLog(w.log) && WorldOk(w)
    ensures Repairable(w) <==> CancelledShown(w.log, w.table, w.pos)
  {
    var repaired, right := Summarise(w.table, w.log[w.pos..]), Summarise(map[], w.log);
    forall id ensures Lookup(repaired, id) == Lookup(right, id) <==> CancelledShownOf(w.log, w.table, w.pos, id) {
      RowRepairable(w, id);
    }
    if CancelledShown(w.log, w.table, w.pos) {
      forall id ensures Lookup(repaired, id) == Lookup(right, id) {
        assert CancelledShownOf(w.log, w.table, w.pos, id);
      }
      SameTable(repaired, right);
    }
    if Repairable(w) {
      forall i | 0 <= i < w.pos && w.log[i].event.OrderCancelled?
        ensures w.log[i].event.orderId in w.table && w.table[w.log[i].event.orderId].status == Cancelled
      {
        assert CancelledShownOf(w.log, w.table, w.pos, w.log[i].event.orderId);
      }
    }
  }

  // ---------------------------------------------------------------------
  // Steps
  // ---------------------------------------------------------------------

  /** Applying the event at `m` again or for the first time shows the order after it, or changes nothing. */
  lemma RowShows(id: Id, es: seq<OrderEvent>, n: nat, m: nat) returns (n': nat)
    requires ValidHistory(id, es) && n <= |es| && m < |es|
    ensures n' <= |es| && ApplyRow(Report(es[..n]), es[m]) == Report(es[..n'])
  {
    ValidHistoryIff(id, es);
    n' := if m == 0 then (if n == 0 then 1 else n) else if n == 0 then 0 else m + 1;
    if n > 0 {
      ReportOf(id, es, n);
    }
    if n' > 0 {
      ReportOf(id, es, n');
    }
  }

  lemma ShowsAfter(log: Log, t: Table, i: nat, id: Id)
    requires ValidLog(log) && i < |log| && Shows(log, t, id)
    ensures Shows(log, ApplySummary(t, log[i].event), id)
  {
    var e, es := log[i].event, Stream(log, id);
    var n :| 0 <= n <= |es| && Lookup(t, id) == Report(es[..n]);
    if e.orderId == id {
      assert log == log[..i] + [log[i]] + log[i + 1..];
      SplitAtRow(log[..i], log[i], log[i + 1..], id);
      var m := |Stream(log[..i], id)|;
      assert es[m] == e;
      var n' := RowShows(id, es, n, m);
      assert Lookup(ApplySummary(t, e), id) == Report(es[..n']);
    } else {
      assert Lookup(ApplySummary(t, e), id) == Report(es[..n]);
    }
  }

  lemma ReflectsAfter(log: Log, t: Table, e: OrderEvent, n: nat)
    requires Reflects(log, t, n)
    ensures Reflects(log, ApplySummary(t, e), n)
  {
  }

  /** An order is placed before anything else happens to it. */
  lemma PlacedBefore(log: Log, i: nat) returns (j: nat)
    requires ValidLog(log) && i < |log| && !log[i].event.OrderPlaced?
    ensures j < i && log[j].event.orderId == log[i].event.orderId
  {
    var id, es := log[i].event.orderId, Stream(log, log[i].event.orderId);
    assert log == log[..i] + [log[i]] + log[i + 1..];
    SplitAtRow(log[..i], log[i], log[i + 1..], id);
    ValidHistoryIff(id, es);
    var before := Stream(log[..i], id);
    assert before != [] by {
      assert es[|before|] == log[i].event;
    }
    j := StreamMember(log[..i], id, before[0]);
  }

  lemma ReflectsNext(log: Log, t: Table, i: nat)
    requires ValidLog(log) && i < |log| && Reflects(log, t, i)
    ensures Reflects(log, ApplySummary(t, log[i].event), i + 1)
  {
    ReflectsAfter(log, t, log[i].event, i);
    if !log[i].event.OrderPlaced? {
      var j := PlacedBefore(log, i);
    }
  }

  lemma ApplyOk(w: World, k: nat)
    requires ValidLog(w.log) && WorldOk(w) && k in w.attempts && w.attempts[k].next < w.attempts[k].hi
    ensures WorldOk(ApplyNext(w, k))
  {
    var i, w' := w.attempts[k].next, ApplyNext(w, k);
    forall id ensures Shows(w'.log, w'.table, id) {
      ShowsAfter(w.log, w.table, i, id);
    }
    ReflectsAfter(w.log, w.table, w.log[i].event, w.pos);
    forall j | j in w'.attempts ensures Reflects(w.log, w'.table, w'.attempts[j].next) {
      ReflectsAfter(w.log, w.table, w.log[i].event, w.attempts[j].next);
      if j == k {
        ReflectsNext(w.log, w.table, i);
      }
    }
  }

  lemma AppendOk(w: World, row: Row<OrderEvent>)
    requires WorldOk(w)
    ensures WorldOk(w.(log := w.log + [row]))
  {
    var log := w.log + [row];
    assert log[..|log| - 1] == w.log;
    forall id ensures Shows(log, w.table, id) {
      assert Shows(w.log, w.table, id);
      var n :| 0 <= n <= |Stream(w.log, id)| && Lookup(w.table, id) == Report(Stream(w.log, id)[..n]);
      assert Stream(log, id)[..n] == Stream(w.log, id)[..n];
    }
  }

  lemma StepOk(limit: nat, w: World, op: Op)
    requires ValidLog(w.log) && WorldOk(w)
    ensures WorldOk(Step(limit, w, op))
  {
    match op {
      case Append(row) => AppendOk(w, row);
      case Select(k) =>
      case Apply(k) =>
        if k in w.attempts && w.attempts[k].next < w.attempts[k].hi {
          ApplyOk(w, k);
        }
      case Finish(k) =>
      case Die(k) =>
    }
  }

  /** What can be checked before an operation that must leave the table repairable. */
  predicate Guard(w: World, op: Op) {
    match op
    case Apply(k) =>
      k in w.attempts && w.attempts[k].next < w.attempts[k].hi && w.attempts[k].next < |w.log| ==>
        MayApply(w, w.log[w.attempts[k].next].event)
    case Finish(k) =>
      k in w.attempts && w.attempts[k].next >= w.attempts[k].hi && w.attempts[k].lo < w.attempts[k].hi ==>
        w.attempts[k].hi <= |w.log| && CancelledShown(w.log, w.table, w.attempts[k].hi)
    case _ => true
  }

  /** Not a confirmation whose order was cancelled before the checkpoint. */
  predicate MayApply(w: World, e: OrderEvent) {
    e.OrderConfirmed? ==>
      forall i :: 0 <= i < w.pos && i < |w.log| && w.log[i].event.OrderCancelled? ==> w.log[i].event.orderId != e.orderId
  }

  lemma ApplyShownIff(w: World, e: OrderEvent)
    requires w.pos <= |w.log| && CancelledShown(w.log, w.table, w.pos)
    ensures CancelledShown(w.log, ApplySummary(w.table, e), w.pos) <==> MayApply(w, e)
  {
  }

  /** From a repairable table an operation leaves one that catching up does not repair exactly when its guard fails. */
  lemma StepRepairableIff(limit: nat, w: World, op: Op)
    requires ValidLog(Step(limit, w, op).log) && ValidLog(w.log) && WorldOk(w) && Repairable(w)
    ensures Repairable(Step(limit, w, op)) <==> Guard(w, op)
  {
    StepOk(limit, w, op);
    RepairableIff(w);
    RepairableIff(Step(limit, w, op));
    match op {
      case Append(row) =>
      case Select(k) =>
      case Apply(k) =>
        if k in w.attempts && w.attempts[k].next < w.attempts[k].hi {
          ApplyShownIff(w, w.log[w.attempts[k].next].event);
        }
      case Finish(k) =>
      case Die(k) =>
    }
  }

  // ---------------------------------------------------------------------
  // Runs
  // ---------------------------------------------------------------------

  lemma LogGrows(limit: nat, w: World, op: Op)
    ensures w.log <= Step(limit, w, op).log
  {
  }

  lemma InitIsValid(limit: nat, ops: seq<Op>)
    requires ops != [] && ValidLog(Exec(limit, INIT, ops).log)
    ensures ValidLog(Exec(limit, INIT, ops[..|ops| - 1]).log)
  {
    var w, w' := Exec(limit, INIT, ops[..|ops| - 1]), Exec(limit, INIT, ops);
    LogGrows(limit, w, ops[|ops| - 1]);
    ValidPrefix(w'.log, |w.log|);
    assert w'.log[..|w.log|] == w.log;
  }

  lemma {:induction false} EveryRunOk(limit: nat, ops: seq<Op>)
    requires ValidLog(Exec(limit, INIT, ops).log)
    ensures WorldOk(Exec(limit, INIT, ops))
  {
    if ops == [] {
      forall id ensures Shows([], map[], id) {
        assert Lookup(map[], id) == Report(Stream([], id)[..0]);
      }
    } else {
      InitIsValid(limit, ops);
      EveryRunOk(limit, ops[..|ops| - 1]);
      StepOk(limit, Exec(limit, INIT, ops[..|ops| - 1]), ops[|ops| - 1]);
    }
  }

  ghost predicate AlwaysRepairable(limit: nat, ops: seq<Op>) {
    Repairable(Exec(limit, INIT, ops)) && (ops != [] ==> AlwaysRepairable(limit, ops[..|ops| - 1]))
  }

  predicate AlwaysGuarded(limit: nat, ops: seq<Op>) {
    ops == [] ||
    (AlwaysGuarded(limit, ops[..|ops| - 1]) && Guard(Exec(limit, INIT, ops[..|ops| - 1]), ops[|ops| - 1]))
  }

  /**
   * However the rows of overlapping runs interleave and wherever runs die, catching up from the checkpoint yields the
   * summary of the log at every moment, exactly when no run confirms an order that was cancelled before the checkpoint
   * and no run moves the checkpoint over a cancellation that the table does not show.
   */
  lemma {:induction false} AlwaysRepairableIff(limit: nat, ops: seq<Op>)
    requires ValidLog(Exec(limit, INIT, ops).log)
    ensures AlwaysRepairable(limit, ops) <==> AlwaysGuarded(limit, ops)
  {
    if ops != [] {
      var init := ops[..|ops| - 1];
      InitIsValid(limit, ops);
      AlwaysRepairableIff(limit, init);
      EveryRunOk(limit, init);
      if Repairable(Exec(limit, INIT, init)) {
        StepRepairableIff(limit, Exec(limit, INIT, init), ops[|ops| - 1]);
      }
    }
  }

  /** A repairable table that has caught up reports every order as its aggregate does. */
  lemma CaughtUpReports(limit: nat, ops: seq<Op>, id: Id)
    requires var w := Exec(limit, INIT, ops); ValidLog(w.log) && Repairable(w) && w.pos == |w.log|
    ensures var w := Exec(limit, INIT, ops); Lookup(w.table, id) == Report(Stream(w.log, id))
  {
    var w := Exec(limit, INIT, ops);
    assert w.log[w.pos..] == [];
    SummaryAgreesWithReplay(w.log, id);
  }

  // A run that fails -----------------------------------------------------------------

  lemma {:induction false} ExecSplit(limit: nat, w: World, a: seq<Op>, b: seq<Op>)
    ensures Exec(limit, w, a + b) == Exec(limit, Exec(limit, w, a), b)
  {
    if b == [] {
      assert a + b == a;
    } else {
      ExecSplit(limit, w, a, b[..|b| - 1]);
      assert (a + b)[..|a + b| - 1] == a + b[..|b| - 1];
    }
  }

  lemma ExecThree(limit: nat, w: World, a: Op, b: Op, c: Op)
    ensures Exec(limit, w, [a, b, c]) == Step(limit, Step(limit, Step(limit, w, a), b), c)
  {
    assert [a][..0] == [] && [a, b][..1] == [a] && [a, b, c][..2] == [a, b];
    assert Exec(limit, w, [a]) == Step(limit, w, a);
    assert Exec(limit, w, [a, b]) == Step(limit, Exec(limit, w, [a]), b);
  }

  function Life(id: Id): Log {
    [Row(0, 1, OrderPlaced(id, 0, [Item("", 1, 1)], 1)), Row(1, 2, OrderConfirmed(id)), Row(2, 3, OrderCancelled(id, ""))]
  }

  function Shown(id: Id, status: Status): Table {
    map[id := Summary(0, 1, status, 1)]
  }

  function Before(id: Id): seq<Op> {
    [Append(Life(id)[0]), Append(Life(id)[1]), Append(Life(id)[2])]
  }

  lemma LifeIsAppended(limit: nat, id: Id)
    ensures Exec(limit, INIT, Before(id)) == World(Life(id), map[], 0, map[])
  {
    var l := Life(id);
    ExecThree(limit, INIT, Append(l[0]), Append(l[1]), Append(l[2]));
    assert [] + [l[0]] + [l[1]] + [l[2]] == l;
  }

  /** Two runs select the whole life of an order. */
  lemma BothSelect(limit: nat, id: Id)
    requires limit >= 3
    ensures Exec(limit, World(Life(id), map[], 0, map[]), [Select(1), Select(2), Apply(1)])
         == World(Life(id), Shown(id, Pending), 0, map[1 := Attempt(0, 3, 1), 2 := Attempt(0, 3, 0)])
  {
    ExecThree(limit, World(Life(id), map[], 0, map[]), Select(1), Select(2), Apply(1));
  }

  lemma FirstRun(limit: nat, id: Id)
    ensures Exec(limit, World(Life(id), Shown(id, Pending), 0, map[1 := Attempt(0, 3, 1), 2 := Attempt(0, 3, 0)]),
                 [Apply(1), Apply(1), Finish(1)])
         == World(Life(id), Shown(id, Cancelled), 3, map[2 := Attempt(0, 3, 0)])
  {
    var w := World(Life(id), Shown(id, Pending), 0, map[1 := Attempt(0, 3, 1), 2 := Attempt(0, 3, 0)]);
    ExecThree(limit, w, Apply(1), Apply(1), Finish(1));
    assert map[1 := Attempt(0, 3, 3), 2 := Attempt(0, 3, 0)] - {1} == map[2 := Attempt(0, 3, 0)];
  }

  lemma SecondRun(limit: nat, id: Id)
    ensures Exec(limit, World(Life(id), Shown(id, Cancelled), 3, map[2 := Attempt(0, 3, 0)]), [Apply(2), Apply(2), Die(2)])
         == World(Life(id), Shown(id, Confirmed), 3, map[])
  {
    ExecThree(limit, World(Life(id), Shown(id, Cancelled), 3, map[2 := Attempt(0, 3, 0)]), Apply(2), Apply(2), Die(2));
    assert map[2 := Attempt(0, 3, 2)] - {2} == map[];
  }

  lemma LifeIsValid(id: Id)
    ensures ValidLog(Life(id))
  {
    var l := Life(id);
    assert l[..2] == [l[0], l[1]] && l[..2][..1] == [l[0]] && l[..2][..1][..0] == [];
    forall k ensures ValidHistory(k, Stream(l, k)) {
      assert Stream(l[..2][..1], k) == if k == id then [l[0].event] else [];
      assert Stream(l[..2], k) == if k == id then [l[0].event, l[1].event] else [];
      assert Stream(l, k) == if k == id then [l[0].event, l[1].event, l[2].event] else [];
      ValidHistoryIff(k, Stream(l, k));
    }
  }

  /** A slower run that dies after it set a cancelled order back leaves it confirmed, with nothing left to catch up. */
  lemma SlowRunUncancels(limit: nat, id: Id) returns (ops: seq<Op>)
    requires limit >= 3
    ensures Exec(limit, INIT, ops) == World(Life(id), Shown(id, Confirmed), 3, map[])
    ensures ValidLog(Exec(limit, INIT, ops).log) && !Repairable(Exec(limit, INIT, ops))
  {
    var start, middle := [Select(1), Select(2), Apply(1)], [Apply(1), Apply(1), Finish(1)];
    var end := [Apply(2), Apply(2), Die(2)];
    ops := Before(id) + start + middle + end;
    ExecSplit(limit, INIT, Before(id), start);
    ExecSplit(limit, INIT, Before(id) + start, middle);
    ExecSplit(limit, INIT, Before(id) + start + middle, end);
    LifeIsAppended(limit, id);
    BothSelect(limit, id);
    FirstRun(limit, id);
    SecondRun(limit, id);
    LifeIsValid(id);
    EveryRunOk(limit, ops);
    RepairableIff(Exec(limit, INIT, ops));
    assert Life(id)[2].event == OrderCancelled(id, "");
  }
}
