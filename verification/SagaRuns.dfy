/** Event dispatches and timeout ticks on stale saga instances, interleaved in every order. */
module SagaRuns {
  import opened JsonText
  import opened Saga

  /** A dispatcher is idle, about to insert the first row of a key, or holds an instance it will run a trigger on. */
  datatype Worker =
    | Idle
    | Missing(key: Key, event: Json)
    | Holding(inst: Instance, trigger: Trigger)

  /** A stored version, and the run that produced it from the version before. */
  datatype Entry = Entry(state: Json, status: Status)
  datatype Run = Run(trigger: Trigger, seed: nat)

  /** `history` and `runs` record every version each row ever had; they are not stored by the program. */
  datatype World = World(
    table: Table,
    workers: map<nat, Worker>,
    history: map<Id, seq<Entry>>,
    runs: map<Id, seq<Run>>)

  datatype Op =
    | Load(w: nat, id: Id, event: Json)
    | LoadNone(w: nat, key: Key, event: Json)
    | Create(w: nat, newId: Id, now: int)
    | TickLoad(w: nat, id: Id, threshold: int)
    | HandleAndSave(w: nat, seed: nat, now: int)
    | Abort(w: nat)

  /** The class registered for each saga type. */
  type Classes = string -> SagaClass

  const INIT := World(map[], map[], map[], map[])

  function WorkerAt(x: World, w: nat): Worker {
    if w in x.workers then x.workers[w] else Idle
  }

  function SetWorker(x: World, w: nat, s: Worker): World {
    x.(workers := x.workers[w := s])
  }

  function CreateStep(cs: Classes, x: World, w: nat, newId: Id, now: int): World
    requires WorkerAt(x, w).Missing?
  {
    var Missing(key, event) := WorkerAt(x, w);
    var c := cs(key.sagaType);
    SetWorker(x, w, Holding(Instance(newId, key, Running, c.initial, 0), OnEvent(event))).(
      table := x.table[newId := Row(key, Running, c.initial, 0, now)],
      history := x.history[newId := [Entry(c.initial, Running)]],
      runs := x.runs[newId := []])
  }

  function SaveStep(cs: Classes, x: World, w: nat, seed: nat, now: int): World
    requires WorkerAt(x, w).Holding?
  {
    var Holding(inst, trigger) := WorkerAt(x, w);
    var (state, status, calls) := RunTrigger(cs(inst.key.sagaType), inst.state, trigger, seed);
    var (table, after, ok) := SaveEffect(x.table, inst, state, status, now);
    if ok && inst.id in x.history && inst.id in x.runs then
      SetWorker(x, w, Idle).(
        table := table,
        history := x.history[inst.id := x.history[inst.id] + [Entry(state, status)]],
        runs := x.runs[inst.id := x.runs[inst.id] + [Run(trigger, seed)]])
    else SetWorker(x, w, Idle).(table := table)
  }

  ghost function Step(cs: Classes, x: World, op: Op): World {
    match op
    case Load(w, id, event) =>
      if id !in x.table then x
      else if Terminal(x.table[id].status) then SetWorker(x, w, Idle)
      else SetWorker(x, w, Holding(Read(x.table, id), OnEvent(event)))
    case LoadNone(w, key, event) =>
      if HasKey(x.table, key) then x else SetWorker(x, w, Missing(key, event))
    case Create(w, newId, now) =>
      if !WorkerAt(x, w).Missing? then x
      else if newId in x.table || HasKey(x.table, WorkerAt(x, w).key) then SetWorker(x, w, Idle)
      else CreateStep(cs, x, w, newId, now)
    case TickLoad(w, id, threshold) =>
      if id in x.table && x.table[id].status.Running? && x.table[id].updatedAt < threshold
      then SetWorker(x, w, Holding(Read(x.table, id), OnTimeout)) else x
    case HandleAndSave(w, seed, now) =>
      if WorkerAt(x, w).Holding? then SaveStep(cs, x, w, seed, now) else x
    case Abort(w) => SetWorker(x, w, Idle)
  }

  ghost function Exec(cs: Classes, x: World, ops: seq<Op>): World {
    if ops == [] then x else Step(cs, Exec(cs, x, ops[..|ops| - 1]), ops[|ops| - 1])
  }

  // ---------------------------------------------------------------------
  // Invariants
  // ---------------------------------------------------------------------

  /** Version k+1 is one run of a handler or timeout on the state at version k, which was still running. */
  ghost predicate Chain(c: SagaClass, history: seq<Entry>, runs: seq<Run>) {
    && |history| == |runs| + 1
    && history[0] == Entry(c.initial, Running)
    && (forall k :: 0 <= k < |runs| ==>
          && history[k].status.Running?
          && var (state, status, calls) := RunTrigger(c, history[k].state, runs[k].trigger, runs[k].seed);
             history[k + 1] == Entry(state, status))
  }

  ghost predicate RowOk(cs: Classes, x: World, id: Id)
    requires id in x.table
  {
    && id in x.history && id in x.runs && Chain(cs(x.table[id].key.sagaType), x.history[id], x.runs[id])
    && x.table[id].version + 1 == |x.history[id]|
    && x.history[id][x.table[id].version] == Entry(x.table[id].state, x.table[id].status)
  }

  ghost predicate WorkerOk(x: World, s: Worker) {
    s.Holding? ==>
      && s.inst.id in x.table && s.inst.id in x.history
      && s.inst.status.Running? && s.inst.key == x.table[s.inst.id].key
      && s.inst.version < |x.history[s.inst.id]|
      && x.history[s.inst.id][s.inst.version] == Entry(s.inst.state, Running)
  }

  ghost predicate OneRowPerKey(table: Table) {
    forall a, b :: a in table && b in table && table[a].key == table[b].key ==> a == b
  }

  ghost predicate WorldOk(cs: Classes, x: World) {
    && OneRowPerKey(x.table)
    && (forall id :: id in x.table ==> RowOk(cs, x, id))
    && (forall w :: w in x.workers ==> WorkerOk(x, x.workers[w]))
  }

  /** Histories are only ever extended, and a terminal row is frozen. */
  ghost predicate Extends(x: World, y: World) {
    forall id :: id in x.table && id in x.history ==>
      && id in y.table && id in y.history
      && x.history[id] <= y.history[id]
      && y.table[id].key == x.table[id].key
      && (Terminal(x.table[id].status) ==> y.table[id] == x.table[id])
  }

  lemma ChainGrows(c: SagaClass, history: seq<Entry>, runs: seq<Run>, run: Run)
    requires Chain(c, history, runs) && history[|history| - 1].status.Running?
    ensures var (state, status, calls) := RunTrigger(c, history[|history| - 1].state, run.trigger, run.seed);
      Chain(c, history + [Entry(state, status)], runs + [run])
  {
  }

  lemma WorkersFrame(x: World, y: World, s: Worker)
    requires WorkerOk(x, s)
    requires forall id :: id in x.table ==> id in y.table && y.table[id].key == x.table[id].key
    requires forall id :: id in x.history && id in x.table ==> id in y.history && x.history[id] <= y.history[id]
    ensures WorkerOk(y, s)
  {
    if s.Holding? {
      var id := s.inst.id;
      assert y.history[id][s.inst.version] == x.history[id][s.inst.version];
    }
  }

  lemma CreateStepOk(cs: Classes, x: World, w: nat, newId: Id, now: int)
    requires WorldOk(cs, x) && WorkerAt(x, w).Missing?
    requires newId !in x.table && !HasKey(x.table, WorkerAt(x, w).key)
    ensures WorldOk(cs, CreateStep(cs, x, w, newId, now)) && Extends(x, CreateStep(cs, x, w, newId, now))
  {
    var y := CreateStep(cs, x, w, newId, now);
    forall id | id in y.table ensures RowOk(cs, y, id) {
      if id != newId {
        assert RowOk(cs, x, id);
      }
    }
    forall v | v in y.workers ensures WorkerOk(y, y.workers[v]) {
      if v != w {
        WorkersFrame(x, y, x.workers[v]);
      }
    }
    assert forall id :: id in x.table ==> x.table[id].key != WorkerAt(x, w).key;
  }

  /** The version check passes exactly when the instance is still the newest version. */
  lemma SaveStepOk(cs: Classes, x: World, w: nat, seed: nat, now: int)
    requires WorldOk(cs, x) && WorkerAt(x, w).Holding?
    ensures WorldOk(cs, SaveStep(cs, x, w, seed, now)) && Extends(x, SaveStep(cs, x, w, seed, now))
  {
    var y := SaveStep(cs, x, w, seed, now);
    var Holding(inst, trigger) := WorkerAt(x, w);
    assert WorkerOk(x, x.workers[w]);
    assert RowOk(cs, x, inst.id);
    if x.table[inst.id].version == inst.version {
      ChainGrows(cs(inst.key.sagaType), x.history[inst.id], x.runs[inst.id], Run(trigger, seed));
    }
    forall id | id in y.table ensures RowOk(cs, y, id) {
      assert RowOk(cs, x, id);
    }
    forall v | v in y.workers ensures WorkerOk(y, y.workers[v]) {
      if v != w {
        WorkersFrame(x, y, x.workers[v]);
      }
    }
  }

  lemma LoadStepOk(cs: Classes, x: World, w: nat, id: Id, trigger: Trigger)
    requires WorldOk(cs, x) && id in x.table && x.table[id].status.Running?
    ensures var y := SetWorker(x, w, Holding(Read(x.table, id), trigger)); WorldOk(cs, y) && Extends(x, y)
  {
    var y := SetWorker(x, w, Holding(Read(x.table, id), trigger));
    assert RowOk(cs, x, id);
    forall k | k in y.table ensures RowOk(cs, y, k) {
      assert RowOk(cs, x, k);
    }
    forall v | v in y.workers ensures WorkerOk(y, y.workers[v]) {
      if v != w {
        WorkersFrame(x, y, x.workers[v]);
      }
    }
  }

  lemma ParkStepOk(cs: Classes, x: World, w: nat, s: Worker)
    requires WorldOk(cs, x) && !s.Holding?
    ensures WorldOk(cs, SetWorker(x, w, s)) && Extends(x, SetWorker(x, w, s))
  {
    var y := SetWorker(x, w, s);
    forall k | k in y.table ensures RowOk(cs, y, k) {
      assert RowOk(cs, x, k);
    }
    forall v | v in y.workers ensures WorkerOk(y, y.workers[v]) {
      if v != w {
        WorkersFrame(x, y, x.workers[v]);
      }
    }
  }

  lemma StepOk(cs: Classes, x: World, op: Op)
    requires WorldOk(cs, x)
    ensures WorldOk(cs, Step(cs, x, op)) && Extends(x, Step(cs, x, op))
  {
    match op
    case Load(w, id, event) =>
      ParkStepOk(cs, x, w, Idle);
      if id in x.table && !Terminal(x.table[id].status) {
        LoadStepOk(cs, x, w, id, OnEvent(event));
      }
    case LoadNone(w, key, event) => ParkStepOk(cs, x, w, Missing(key, event));
    case Create(w, newId, now) =>
      ParkStepOk(cs, x, w, Idle);
      if WorkerAt(x, w).Missing? && newId !in x.table && !HasKey(x.table, WorkerAt(x, w).key) {
        CreateStepOk(cs, x, w, newId, now);
      }
    case TickLoad(w, id, threshold) =>
      if id in x.table && x.table[id].status.Running? {
        LoadStepOk(cs, x, w, id, OnTimeout);
      }
    case HandleAndSave(w, seed, now) =>
      if WorkerAt(x, w).Holding? {
        SaveStepOk(cs, x, w, seed, now);
      }
    case Abort(w) => ParkStepOk(cs, x, w, Idle);
  }

  lemma {:induction false} EveryRunOk(cs: Classes, x: World, ops: seq<Op>)
    requires WorldOk(cs, x)
    ensures WorldOk(cs, Exec(cs, x, ops)) && Extends(x, Exec(cs, x, ops))
  {
    if ops != [] {
      EveryRunOk(cs, x, ops[..|ops| - 1]);
      var y := Exec(cs, x, ops[..|ops| - 1]);
      StepOk(cs, y, ops[|ops| - 1]);
      forall id | id in x.table && id in x.history ensures id in y.table && id in y.history {
      }
    }
  }

  // ---------------------------------------------------------------------
  // Main results
  // ---------------------------------------------------------------------

  /** In every interleaving a key has at most one row, and each row is the end of one chain of single runs from the initial state. */
  lemma OneChainPerKey(cs: Classes, ops: seq<Op>)
    ensures var x := Exec(cs, INIT, ops);
      && OneRowPerKey(x.table)
      && forall id :: id in x.table ==> RowOk(cs, x, id)
  {
    EveryRunOk(cs, INIT, ops);
  }

  /** Whatever is done afterwards, a completed or compensated row keeps its state, status, version and time. */
  lemma TerminalIsFrozen(cs: Classes, before: seq<Op>, after: seq<Op>, id: Id)
    requires var x := Exec(cs, INIT, before); id in x.table && Terminal(x.table[id].status)
    ensures var x := Exec(cs, INIT, before);
      var y := Exec(cs, x, after);
      id in y.table && y.table[id] == x.table[id]
  {
    EveryRunOk(cs, INIT, before);
    var x := Exec(cs, INIT, before);
    assert RowOk(cs, x, id);
    EveryRunOk(cs, x, after);
  }

  /** A save on an instance that is behind its row only frees the worker. */
  lemma LateSave(cs: Classes, x: World, w: nat, seed: nat, now: int)
    requires WorkerAt(x, w).Holding?
    requires var inst := WorkerAt(x, w).inst; inst.id in x.table && x.table[inst.id].version != inst.version
    ensures SaveStep(cs, x, w, seed, now) == SetWorker(x, w, Idle)
  {
  }

  lemma SaveMovesOn(cs: Classes, x: World, w: nat, seed: nat, now: int)
    requires WorldOk(cs, x) && WorkerAt(x, w).Holding?
    ensures var inst := WorkerAt(x, w).inst;
      var y := SaveStep(cs, x, w, seed, now);
      && inst.id in y.table && y.table[inst.id].version > inst.version
      && forall v :: v != w ==> WorkerAt(y, v) == WorkerAt(x, v)
  {
    assert WorkerOk(x, x.workers[w]);
    assert RowOk(cs, x, WorkerAt(x, w).inst.id);
  }

  /** Of two workers that read the same version, the one that saves second changes nothing. */
  lemma SecondSaveIsLost(cs: Classes, ops: seq<Op>, v: nat, w: nat, seed1: nat, seed2: nat, now1: int, now2: int)
    requires v != w
    requires var x := Exec(cs, INIT, ops);
      && WorkerAt(x, v).Holding? && WorkerAt(x, w).Holding?
      && WorkerAt(x, v).inst.id == WorkerAt(x, w).inst.id
      && WorkerAt(x, v).inst.version == WorkerAt(x, w).inst.version
    ensures var x := Exec(cs, INIT, ops);
      var y := SaveStep(cs, x, v, seed1, now1);
      && WorkerAt(y, w).Holding?
      && SaveStep(cs, y, w, seed2, now2) == SetWorker(y, w, Idle)
  {
    EveryRunOk(cs, INIT, ops);
    var x := Exec(cs, INIT, ops);
    SaveMovesOn(cs, x, v, seed1, now1);
    LateSave(cs, SaveStep(cs, x, v, seed1, now1), w, seed2, now2);
  }

  // Undisturbed dispatches -------------------------------------------------------

  /** One dispatch of a stored row that nobody interrupts. */
  datatype Dispatch = Dispatch(event: Json, seed: nat, now: int)

  ghost function DispatchOne(cs: Classes, x: World, w: nat, id: Id, d: Dispatch): World {
    Step(cs, Step(cs, x, Load(w, id, d.event)), HandleAndSave(w, d.seed, d.now))
  }

  ghost function DispatchEach(cs: Classes, x: World, w: nat, id: Id, ds: seq<Dispatch>): World {
    if ds == [] then x else DispatchOne(cs, DispatchEach(cs, x, w, id, ds[..|ds| - 1]), w, id, ds[|ds| - 1])
  }

  /** The state the handlers make of `state`, one event after the other. */
  function Handled(c: SagaClass, state: Json, ds: seq<Dispatch>): Json {
    if ds == [] then state
    else c.handle(Handled(c, state, ds[..|ds| - 1]), OnEvent(ds[|ds| - 1].event), ds[|ds| - 1].seed).state
  }

  predicate SetsNoFlag(r: HandlerResult) {
    !r.completed && !r.failed && !r.raised
  }

  /** No handler of these events sets a flag or raises. */
  ghost predicate Quiet(c: SagaClass, state: Json, ds: seq<Dispatch>) {
    forall k :: 0 <= k < |ds| ==> SetsNoFlag(c.handle(Handled(c, state, ds[..k]), OnEvent(ds[k].event), ds[k].seed))
  }

  lemma QuietInit(c: SagaClass, state: Json, ds: seq<Dispatch>)
    requires ds != [] && Quiet(c, state, ds)
    ensures Quiet(c, state, ds[..|ds| - 1])
  {
    var init := ds[..|ds| - 1];
    forall k | 0 <= k < |init|
      ensures SetsNoFlag(c.handle(Handled(c, state, init[..k]), OnEvent(init[k].event), init[k].seed))
    {
      assert init[..k] == ds[..k] && init[k] == ds[k];
    }
  }

  /** The row after dispatches that set no flag. */
  function QuietRow(c: SagaClass, row: Row, ds: seq<Dispatch>): Row {
    Row(row.key, Running, Handled(c, row.state, ds), row.version + |ds|,
        if ds == [] then row.updatedAt else ds[|ds| - 1].now)
  }

  lemma NextDispatch(cs: Classes, x: World, y: World, w: nat, id: Id, d: Dispatch, row: Row, next: Row)
    requires id in x.table && y.table == x.table[id := row] && row.status.Running?
    requires var r := cs(row.key.sagaType).handle(row.state, OnEvent(d.event), d.seed);
      SetsNoFlag(r) && next == Row(row.key, Running, r.state, row.version + 1, d.now)
    ensures DispatchOne(cs, y, w, id, d).table == x.table[id := next]
  {
    RunStores(cs(row.key.sagaType), row.state, OnEvent(d.event), d.seed);
  }

  lemma NextQuietRow(c: SagaClass, row: Row, ds: seq<Dispatch>)
    requires ds != [] && Quiet(c, row.state, ds)
    ensures var before, d := QuietRow(c, row, ds[..|ds| - 1]), ds[|ds| - 1];
      var r := c.handle(before.state, OnEvent(d.event), d.seed);
      SetsNoFlag(r) && QuietRow(c, row, ds) == Row(row.key, Running, r.state, before.version + 1, d.now)
  {
  }

  /** Dispatches that set no flag: the row stays running and holds what the handlers made of its state, one version each. */
  lemma {:induction false} QuietDispatchesFold(cs: Classes, c: SagaClass, x: World, w: nat, id: Id, ds: seq<Dispatch>)
    requires id in x.table && x.table[id].status.Running? && c == cs(x.table[id].key.sagaType)
    requires Quiet(c, x.table[id].state, ds)
    ensures DispatchEach(cs, x, w, id, ds).table == x.table[id := QuietRow(c, x.table[id], ds)]
  {
    var row := x.table[id];
    if ds == [] {
      assert QuietRow(c, row, []) == row && x.table[id := row] == x.table;
    } else {
      var init, d := ds[..|ds| - 1], ds[|ds| - 1];
      QuietInit(c, row.state, ds);
      QuietDispatchesFold(cs, c, x, w, id, init);
      NextQuietRow(c, row, ds);
      NextDispatch(cs, x, DispatchEach(cs, x, w, id, init), w, id, d, QuietRow(c, row, init), QuietRow(c, row, ds));
    }
  }
}
