/** The command handlers of the order service: load the order, run one command on it, append what it recorded. */
module OrderCommands {
  import opened Options
  import opened JsonText
  import ES = EventSourcing
  import Runs = EventStoreRuns
  import opened Projections
  import opened OrderService
  import opened OrderSnapshots

  datatype Command =
    | Place(customer: nat, items: seq<Item>, total: int)
    | Confirm
    | Cancel(reason: string)

  /** The stream of one order as it is stored, and the events in it. */
  datatype World = World(store: ES.Store, log: seq<OrderEvent>)

  const START := World(ES.Store([], None), [])

  /** The event a command records on an order with these attributes, if any. */
  function Decide(id: Id, fields: ES.Fields, cmd: Command): Option<OrderEvent> {
    match cmd
    case Place(customer, items, total) =>
      if items == [] || total <= 0 then None else Some(OrderPlaced(id, customer, items, total))
    case Confirm => if Lookup(fields, "status") == Some(Str("pending")) then Some(OrderConfirmed(id)) else None
    case Cancel(reason) =>
      if Lookup(fields, "status") == Some(Str("cancelled")) then None else Some(OrderCancelled(id, reason))
  }

  function Append(every: int, w: World, h: ES.Handle, e: Option<OrderEvent>): World
    requires every != 0
  {
    if e.None? then w
    else
      var (store, after, outcome) := ES.AppendEffect(ORDER, every, w.store, ES.Recorded(ORDER, h, Stored(e.value)), false);
      if outcome.Appended? then World(store, w.log + [e.value]) else w
  }

  datatype Answer = Refused | Success

  /** A handler from the moment it has its order: it answers success whatever the append returns. */
  function Finish(every: int, id: Id, w: World, h: ES.Handle, cmd: Command): (World, Answer)
    requires every != 0
  {
    var e := Decide(id, h.fields, cmd);
    (Append(every, w, h, e), if e.None? then Refused else Success)
  }

  /** One handler. A placed order gets an identifier of its own, so its stream is empty; other commands load the order. */
  function Step(every: int, id: Id, w: World, cmd: Command): World
    requires every != 0
  {
    if cmd.Place? then
      if w.log != [] then w
      else Finish(every, id, w, ES.Handle(0, ES.Constructed(ORDER), []), cmd).0
    else
      var loaded := ES.Load(ORDER, w.store);
      if loaded.None? then w else Finish(every, id, w, loaded.value, cmd).0
  }

  function Exec(every: int, id: Id, cmds: seq<Command>): World
    requires every != 0
  {
    if cmds == [] then START else Step(every, id, Exec(every, id, cmds[..|cmds| - 1]), cmds[|cmds| - 1])
  }

  // ---------------------------------------------------------------------
  // What is stored
  // ---------------------------------------------------------------------

  /** The newest snapshot of a stream of `n` events. */
  function Newest(every: int, n: nat): (v: nat)
    requires every != 0
    ensures v <= n && (v == n <==> n == 0 || n % every == 0)
  {
    if n == 0 || n % every == 0 then n else Newest(every, n - 1)
  }

  /** Snapshots are taken when due, and none of them holds a field of the order. */
  predicate StreamOk(every: int, w: World)
    requires every != 0
  {
    var v := Newest(every, |w.log|);
    && w.store.rows == ES.NewRows(0, StoredAll(w.log))
    && w.store.snapshot == (if v == 0 then None else Some(ES.Snapshot(map[], v)))
    && (forall i :: 0 < i < |w.log| ==> !w.log[i].OrderPlaced?)
  }

  function StatusText(s: Status): Json {
    match s
    case Pending => Str("pending")
    case Confirmed => Str("confirmed")
    case Cancelled => Str("cancelled")
    case Unset => Null
  }

  lemma {:induction false} ReplayedStatus(s: ES.Fields, es: seq<OrderEvent>)
    requires es != []
    ensures Lookup(ES.Replay(ORDER, s, StoredAll(es)), "status") == Some(StatusText(StatusOf(es[|es| - 1])))
  {
    assert StoredAll(es)[..|es| - 1] == StoredAll(es[..|es| - 1]);
  }

  /** A loaded order knows its status exactly when its newest event is not covered by a snapshot. */
  lemma LoadedStatus(every: int, w: World)
    requires every != 0 && StreamOk(every, w) && w.log != []
    ensures var h := ES.Load(ORDER, w.store);
      && h.Some? && h.value.version == |w.log| && h.value.pending == []
      && Lookup(h.value.fields, "status") ==
         if |w.log| % every == 0 then None else Some(StatusText(StatusOf(w.log[|w.log| - 1])))
  {
    var v, rows := Newest(every, |w.log|), w.store.rows;
    Runs.TailOfContiguous(rows, v);
    assert ES.EventsOf(rows[v..]) == StoredAll(w.log[v..]);
    NothingIsKept();
    Runs.RestoreKnown(ORDER.declared, map[]);
    if v < |w.log| {
      ReplayedStatus(if v == 0 then ES.Blank(ORDER) else map[], w.log[v..]);
    }
  }

  /** An append at the end of the stream goes through, with a snapshot when it is due. */
  lemma AppendAtEnd(every: int, st: ES.Store, h: ES.Handle, e: ES.Event)
    requires every != 0 && Runs.Contiguous(st.rows) && h.version == |st.rows| && h.pending == [e]
    ensures var n := |st.rows|;
      var (after, h', outcome) := ES.AppendEffect(ORDER, every, st, h, false);
      && outcome == ES.Appended(n + 1)
      && after.rows == st.rows + [ES.Row(n + 1, e)]
      && after.snapshot == if (n + 1) % every == 0 then Some(ES.Snapshot(map[], n + 1)) else st.snapshot
  {
    Runs.ConflictIffBehind(st.rows, h);
    NothingIsKept();
    assert forall f :: f in ORDER.declared ==> f.name in ES.BASE_NAMES;
    assert ES.Serialize(ORDER, h.fields) == map[];
    assert ES.NewRows(h.version, h.pending) == [ES.Row(|st.rows| + 1, e)];
  }

  lemma AppendOk(every: int, w: World, h: ES.Handle, e: OrderEvent)
    requires every != 0 && StreamOk(every, w) && h.version == |w.log| && h.pending == []
    requires e.OrderPlaced? ==> w.log == []
    ensures var w' := Append(every, w, h, Some(e)); StreamOk(every, w') && w'.log == w.log + [e]
  {
    AppendAtEnd(every, w.store, ES.Recorded(ORDER, h, Stored(e)), Stored(e));
    assert ES.NewRows(0, StoredAll(w.log + [e])) == w.store.rows + [ES.Row(|w.log| + 1, Stored(e))];
  }

  /** What a command adds to the log. */
  function Adds(every: int, id: Id, log: seq<OrderEvent>, cmd: Command): Option<OrderEvent>
    requires every != 0
  {
    var known := log != [] && |log| % every != 0;
    match cmd
    case Place(customer, items, total) =>
      if log != [] || items == [] || total <= 0 then None else Some(OrderPlaced(id, customer, items, total))
    case Confirm =>
      if known && StatusOf(log[|log| - 1]) == Pending then Some(OrderConfirmed(id)) else None
    case Cancel(reason) =>
      if log == [] || (known && StatusOf(log[|log| - 1]) == Cancelled) then None else Some(OrderCancelled(id, reason))
  }

  lemma StepAdds(every: int, id: Id, w: World, cmd: Command)
    requires every != 0 && StreamOk(every, w)
    ensures var w', e := Step(every, id, w, cmd), Adds(every, id, w.log, cmd);
      StreamOk(every, w') && w'.log == if e.Some? then w.log + [e.value] else w.log
  {
    var e := Adds(every, id, w.log, cmd);
    if w.log != [] {
      LoadedStatus(every, w);
      if e.Some? {
        AppendOk(every, w, ES.Load(ORDER, w.store).value, e.value);
      }
    } else {
      Runs.TailOfContiguous(w.store.rows, 0);
      assert ES.Load(ORDER, w.store) == None;
      if e.Some? {
        AppendOk(every, w, ES.Handle(0, ES.Constructed(ORDER), []), e.value);
      }
    }
  }

  lemma {:induction false} EveryRunOk(every: int, id: Id, cmds: seq<Command>)
    requires every != 0
    ensures StreamOk(every, Exec(every, id, cmds))
  {
    if cmds == [] {
      assert ES.NewRows(0, StoredAll([])) == [];
    } else {
      EveryRunOk(every, id, cmds[..|cmds| - 1]);
      StepAdds(every, id, Exec(every, id, cmds[..|cmds| - 1]), cmds[|cmds| - 1]);
    }
  }

  // ---------------------------------------------------------------------
  // Main results
  // ---------------------------------------------------------------------

  /** What a command records on the full replay of the log. */
  function Due(id: Id, log: seq<OrderEvent>, cmd: Command): Option<OrderEvent> {
    Decide(id, ES.Current(ORDER, StoredAll(log)), cmd)
  }

  predicate ActsOnReplay(every: int, id: Id, w: World, cmd: Command)
    requires every != 0
  {
    var e := Due(id, w.log, cmd);
    Step(every, id, w, cmd).log == if e.Some? then w.log + [e.value] else w.log
  }

  lemma DueByStatus(id: Id, log: seq<OrderEvent>, cmd: Command)
    requires log != []
    ensures Due(id, log, Confirm) == if StatusOf(log[|log| - 1]) == Pending then Some(OrderConfirmed(id)) else None
    ensures cmd.Cancel? ==>
      Due(id, log, cmd) == if StatusOf(log[|log| - 1]) == Cancelled then None else Some(OrderCancelled(id, cmd.reason))
  {
    ReplayedStatus(ES.Blank(ORDER), log);
  }

  lemma ActsOnReplayIffSame(every: int, id: Id, w: World, cmd: Command)
    requires every != 0 && StreamOk(every, w)
    ensures ActsOnReplay(every, id, w, cmd) <==> Adds(every, id, w.log, cmd) == Due(id, w.log, cmd)
  {
    StepAdds(every, id, w, cmd);
    var a, d := Adds(every, id, w.log, cmd), Due(id, w.log, cmd);
    assert a.Some? ==> (w.log + [a.value])[|w.log|] == a.value;
    assert d.Some? ==> (w.log + [d.value])[|w.log|] == d.value;
  }

  /**
   * Commands treat a stored order as its full replay exactly when no snapshot covers the newest event, or that is a
   * confirmation.
   */
  lemma ActsOnReplayIff(every: int, id: Id, cmds: seq<Command>)
    requires every != 0 && Exec(every, id, cmds).log != []
    ensures var w := Exec(every, id, cmds);
      (forall cmd: Command :: !cmd.Place? ==> ActsOnReplay(every, id, w, cmd)) <==>
        |w.log| % every != 0 || w.log[|w.log| - 1].OrderConfirmed?
  {
    var w := Exec(every, id, cmds);
    EveryRunOk(every, id, cmds);
    var last := w.log[|w.log| - 1];
    forall cmd: Command | !cmd.Place?
      ensures (|w.log| % every != 0 || last.OrderConfirmed?) ==> ActsOnReplay(every, id, w, cmd)
    {
      ActsOnReplayIffSame(every, id, w, cmd);
      DueByStatus(id, w.log, cmd);
    }
    if |w.log| % every == 0 && !last.OrderConfirmed? {
      var cmd := if last.OrderPlaced? then Confirm else Cancel("");
      ActsOnReplayIffSame(every, id, w, cmd);
      DueByStatus(id, w.log, cmd);
    }
  }

  lemma AddsKeepsHistory(every: int, id: Id, log: seq<OrderEvent>, cmd: Command)
    requires every != 0 && ValidHistory(id, log) && (log != [] ==> |log| % every != 0)
    ensures var e := Adds(every, id, log, cmd); e.Some? ==> ValidHistory(id, log + [e.value])
  {
    var e := Adds(every, id, log, cmd);
    if e.Some? {
      var longer := log + [e.value];
      assert longer[..|longer| - 1] == log && longer[|longer| - 1] == e.value;
      if log != [] {
        ReplayedShort(log);
      }
    }
  }

  lemma SmallRemainder(n: nat, every: int)
    requires n <= 3 && (every < -3 || every > 3)
    ensures n % every == n
  {
  }

  /** Without a snapshot on the way the log stays a history orders can produce. */
  lemma {:induction false} RareSnapshotsKeepHistories(every: int, id: Id, cmds: seq<Command>)
    requires every < -3 || every > 3
    ensures ValidHistory(id, Exec(every, id, cmds).log)
  {
    if cmds != [] {
      var w, cmd := Exec(every, id, cmds[..|cmds| - 1]), cmds[|cmds| - 1];
      RareSnapshotsKeepHistories(every, id, cmds[..|cmds| - 1]);
      EveryRunOk(every, id, cmds[..|cmds| - 1]);
      StepAdds(every, id, w, cmd);
      ValidHistoryIff(id, w.log);
      SmallRemainder(|w.log|, every);
      AddsKeepsHistory(every, id, w.log, cmd);
    }
  }

  /** A cancelled order covered by a snapshot is cancelled once more. */
  lemma CancelledAgain(every: int, id: Id, cmds: seq<Command>, reason: string)
    requires every != 0
    requires var log := Exec(every, id, cmds).log;
      log != [] && |log| % every == 0 && log[|log| - 1].OrderCancelled?
    ensures var log := Exec(every, id, cmds + [Cancel(reason)]).log;
      log == Exec(every, id, cmds).log + [OrderCancelled(id, reason)] && !ValidHistory(id, log)
  {
    var log, longer := Exec(every, id, cmds).log, cmds + [Cancel(reason)];
    EveryRunOk(every, id, cmds);
    StepAdds(every, id, Exec(every, id, cmds), Cancel(reason));
    assert longer[..|longer| - 1] == cmds;
    ValidHistoryIff(id, log + [OrderCancelled(id, reason)]);
    ReplayedShort(log);
    assert (log + [OrderCancelled(id, reason)])[..|log|] == log;
  }

  lemma ExecLast(every: int, id: Id, cmds: seq<Command>, cmd: Command)
    requires every != 0
    ensures var log, e := Exec(every, id, cmds).log, Adds(every, id, Exec(every, id, cmds).log, cmd);
      Exec(every, id, cmds + [cmd]).log == if e.Some? then log + [e.value] else log
  {
    EveryRunOk(every, id, cmds);
    StepAdds(every, id, Exec(every, id, cmds), cmd);
    assert (cmds + [cmd])[..|cmds|] == cmds;
  }

  const PLACE := Place(0, [Item("", 1, 1)], 1)

  function Placed(id: Id): OrderEvent {
    OrderPlaced(id, 0, [Item("", 1, 1)], 1)
  }

  lemma PlacedRun(every: int, id: Id)
    requires every != 0
    ensures Exec(every, id, [PLACE]).log == [Placed(id)]
  {
    ExecLast(every, id, [], PLACE);
    assert [] + [PLACE] == [PLACE];
  }

  lemma CancelledRun(every: int, id: Id)
    requires every != 0
    ensures Exec(every, id, [PLACE, Cancel("")]).log == [Placed(id), OrderCancelled(id, "")]
  {
    PlacedRun(every, id);
    ExecLast(every, id, [PLACE], Cancel(""));
    assert [PLACE] + [Cancel("")] == [PLACE, Cancel("")];
  }

  lemma ConfirmedRun(every: int, id: Id)
    requires every != 0 && 1 % every != 0 && 2 % every != 0
    ensures Exec(every, id, [PLACE, Confirm, Cancel("")]).log == [Placed(id), OrderConfirmed(id), OrderCancelled(id, "")]
  {
    assert Exec(every, id, [PLACE, Confirm]).log == [Placed(id), OrderConfirmed(id)] by {
      PlacedRun(every, id);
      ExecLast(every, id, [PLACE], Confirm);
      assert [PLACE] + [Confirm] == [PLACE, Confirm];
    }
    ExecLast(every, id, [PLACE, Confirm], Cancel(""));
    assert [PLACE, Confirm] + [Cancel("")] == [PLACE, Confirm, Cancel("")];
  }

  /** Commands that end in a cancelled order covered by a snapshot. */
  lemma CancelledUnderSnapshot(every: int, id: Id)
    returns (cmds: seq<Command>)
    requires -3 <= every <= 3 && every != 0
    ensures var log := Exec(every, id, cmds).log;
      log != [] && |log| % every == 0 && log[|log| - 1].OrderCancelled?
  {
    if every == 3 || every == -3 {
      ConfirmedRun(every, id);
      cmds := [PLACE, Confirm, Cancel("")];
    } else {
      CancelledRun(every, id);
      cmds := [PLACE, Cancel("")];
    }
  }

  /** The commands produce nothing but the four life cycles exactly when snapshots are rarer than every three events. */
  lemma OnlyLifeCyclesIff(every: int, id: Id)
    requires every != 0
    ensures (forall cmds :: LifeCycle(id, Exec(every, id, cmds).log)) <==> every < -3 || every > 3
  {
    if every < -3 || every > 3 {
      forall cmds ensures LifeCycle(id, Exec(every, id, cmds).log) {
        RareSnapshotsKeepHistories(every, id, cmds);
        ValidHistoryIff(id, Exec(every, id, cmds).log);
      }
    } else {
      var cmds := CancelledUnderSnapshot(every, id);
      CancelledAgain(every, id, cmds, "");
      ValidHistoryIff(id, Exec(every, id, cmds + [Cancel("")]).log);
    }
  }

  // Two handlers at once ---------------------------------------------------

  lemma {:induction false} LogGrows(every: int, id: Id, cmds: seq<Command>, more: seq<Command>)
    requires every != 0
    ensures Exec(every, id, cmds).log <= Exec(every, id, cmds + more).log
  {
    if more == [] {
      assert cmds + more == cmds;
    } else {
      LogGrows(every, id, cmds, more[..|more| - 1]);
      ExecLast(every, id, cmds + more[..|more| - 1], more[|more| - 1]);
      assert cmds + more == cmds + more[..|more| - 1] + [more[|more| - 1]];
    }
  }

  /** A success that other commands overtook after the load is answered all the same, and nothing is recorded. */
  lemma SuccessIsRecordedIff(every: int, id: Id, cmds: seq<Command>, more: seq<Command>, cmd: Command)
    requires every != 0 && Exec(every, id, cmds).log != []
    ensures var before, w := Exec(every, id, cmds), Exec(every, id, cmds + more);
      var h := ES.Load(ORDER, before.store);
      h.Some? &&
      var (after, answer) := Finish(every, id, w, h.value, cmd);
      && (answer.Success? ==> (after.log != w.log <==> w.log == before.log))
      && (answer.Refused? || w.log != before.log ==> after == w)
  {
    var before, w := Exec(every, id, cmds), Exec(every, id, cmds + more);
    EveryRunOk(every, id, cmds);
    EveryRunOk(every, id, cmds + more);
    LogGrows(every, id, cmds, more);
    LoadedStatus(every, before);
    var h := ES.Load(ORDER, before.store).value;
    var e := Decide(id, h.fields, cmd);
    if e.Some? {
      LateAppend(every, w, h, e.value);
    }
  }

  lemma LateAppend(every: int, w: World, h: ES.Handle, e: OrderEvent)
    requires every != 0 && StreamOk(every, w) && h.version <= |w.log| && h.pending == []
    ensures Append(every, w, h, Some(e)).log == if h.version == |w.log| then w.log + [e] else w.log
    ensures h.version < |w.log| ==> Append(every, w, h, Some(e)) == w
  {
    var recorded := ES.Recorded(ORDER, h, Stored(e));
    if h.version == |w.log| {
      AppendAtEnd(every, w.store, recorded, Stored(e));
    } else {
      Runs.ConflictIffBehind(w.store.rows, recorded);
    }
  }
}
