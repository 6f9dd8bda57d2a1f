/** Saga instances: the row store with its version check, the manager, and compensation with retries. */
module Saga {
  import opened Options
  import opened JsonText

  type Id = nat

  datatype Key = Key(sagaType: string, correlation: string)

  datatype Status = Running | Completed | FailedStatus | Compensated

  predicate Terminal(s: Status) {
    !s.Running?
  }

  datatype Row = Row(key: Key, status: Status, state: Json, version: nat, updatedAt: int)

  type Table = map<Id, Row>

  /** What a worker holds of a row it has read. */
  datatype Instance = Instance(id: Id, key: Key, status: Status, state: Json, version: nat)

  datatype Trigger = OnEvent(event: Json) | OnTimeout

  /** What one run of a handler leaves behind: the saga's state and flags, and whether it raised. */
  datatype HandlerResult = HandlerResult(state: Json, completed: bool, failed: bool, raised: bool)

  /**
   * A saga class. `seed` stands for everything a run gets from outside: the replies to the commands it dispatches.
   * `compensate` yields the state after one call and whether the call returned normally.
   */
  datatype SagaClass = SagaClass(
    initial: Json,
    handle: (Json, Trigger, nat) -> HandlerResult,
    compensate: (Json, nat, nat) -> (Json, bool),
    maxAttempts: nat)

  /** The state after compensating from attempt `attempt` on, and the number of calls made. */
  function Compensate(c: SagaClass, state: Json, seed: nat, attempt: nat): (Json, nat)
    decreases c.maxAttempts - attempt
  {
    if attempt >= c.maxAttempts then (state, 0)
    else
      var (after, ok) := c.compensate(state, seed, attempt);
      if ok then (after, 1)
      else
        var (last, calls) := Compensate(c, after, seed, attempt + 1);
        (last, calls + 1)
  }

  /** The outcome of running one trigger on a stored state: new state, new status, calls of `compensate`. */
  function RunTrigger(c: SagaClass, state: Json, trigger: Trigger, seed: nat): (Json, Status, nat) {
    var r := c.handle(state, trigger, seed);
    var (undone, calls) := Compensate(c, r.state, seed, 0);
    if r.raised then (undone, Compensated, calls)
    else if trigger.OnEvent? then
      if r.failed then (undone, Compensated, calls)
      else if r.completed then (r.state, Completed, 0)
      else (r.state, Running, 0)
    else
      if r.completed then (r.state, Completed, 0)
      else if r.failed then (r.state, Compensated, 0)
      else (r.state, Running, 0)
  }

  ghost predicate HasKey(table: Table, key: Key) {
    exists id :: id in table && table[id].key == key
  }

  function Read(table: Table, id: Id): Instance
    requires id in table
  {
    Instance(id, table[id].key, table[id].status, table[id].state, table[id].version)
  }

  function SaveEffect(table: Table, inst: Instance, state: Json, status: Status, now: int): (Table, Instance, bool) {
    if inst.id in table && table[inst.id].version == inst.version then
      (table[inst.id := Row(table[inst.id].key, status, state, inst.version + 1, now)],
       inst.(state := state, status := status, version := inst.version + 1), true)
    else (table, inst, false)
  }

  // ---------------------------------------------------------------------
  // The classes
  // ---------------------------------------------------------------------

  class SagaInstance {
    const id: Id
    const key: Key
    var status: Status
    var state: Json
    var version: nat

    function View(): Instance
      reads this
    {
      Instance(id, key, status, state, version)
    }

    constructor (i: Instance)
      ensures View() == i
    {
      id, key, status, state, version := i.id, i.key, i.status, i.state, i.version;
    }
  }

  class SagaStore {
    var table: Table

    constructor ()
      ensures table == map[]
    {
      table := map[];
    }

    method Load(key: Key) returns (inst: SagaInstance?)
      ensures inst == null <==> !HasKey(table, key)
      ensures inst != null ==>
        fresh(inst) && inst.id in table && table[inst.id].key == key && inst.View() == Read(table, inst.id)
    {
      if id :| id in table && table[id].key == key {
        inst := new SagaInstance(Read(table, id));
      } else {
        inst := null;
      }
    }

    /** The unique index on (saga_type, correlation_key) and the primary key reject a second row. */
    method Create(id: Id, key: Key, state: Json, now: int) returns (inst: SagaInstance?)
      modifies this
      ensures inst == null <==> id in old(table) || HasKey(old(table), key)
      ensures inst == null ==> table == old(table)
      ensures inst != null ==>
        && fresh(inst) && table == old(table)[id := Row(key, Running, state, 0, now)]
        && inst.View() == Instance(id, key, Running, state, 0)
    {
      if id in table || exists other :: other in table && table[other].key == key {
        return null;
      }
      table := table[id := Row(key, Running, state, 0, now)];
      inst := new SagaInstance(Instance(id, key, Running, state, 0));
    }

    method Save(inst: SagaInstance, state: Json, status: Status, now: int) returns (ok: bool)
      modifies this, inst
      ensures (table, inst.View(), ok) == SaveEffect(old(table), old(inst.View()), state, status, now)
      ensures ok <==> inst.id in old(table) && old(table)[inst.id].version == old(inst.version)
      ensures ok ==>
        && table == old(table)[inst.id := Row(old(table)[inst.id].key, status, state, old(inst.version) + 1, now)]
        && (inst.status, inst.state, inst.version) == (status, state, old(inst.version) + 1)
      ensures !ok ==> table == old(table) && inst.View() == old(inst.View())
    {
      if inst.id !in table || table[inst.id].version != inst.version {
        return false;
      }
      var newVersion := inst.version + 1;
      table := table[inst.id := Row(table[inst.id].key, status, state, newVersion, now)];
      inst.state, inst.status, inst.version := state, status, newVersion;
      return true;
    }

    /** The running rows of a saga type last updated before `threshold`. */
    method LoadTimedOut(sagaType: string, threshold: int) returns (found: set<Id>)
      ensures forall id :: id in found <==>
        id in table && table[id].key.sagaType == sagaType && table[id].status.Running? && table[id].updatedAt < threshold
    {
      found := set id | id in table && table[id].key.sagaType == sagaType
                        && table[id].status.Running? && table[id].updatedAt < threshold;
    }
  }

  class SagaManager {
    const cls: SagaClass
    const store: SagaStore

    constructor (cls: SagaClass, store: SagaStore)
      ensures this.cls == cls && this.store == store
    {
      this.cls, this.store := cls, store;
    }

    /** Calls `compensate` until it returns normally, at most `maxAttempts` times; the last failure is swallowed. */
    method CompensateWithRetry(state: Json, seed: nat) returns (after: Json, calls: nat)
      ensures (after, calls) == Compensate(cls, state, seed, 0)
    {
      after, calls := state, 0;
      for attempt := 0 to cls.maxAttempts
        invariant calls == attempt
        invariant var rest := Compensate(cls, after, seed, attempt);
          Compensate(cls, state, seed, 0) == (rest.0, attempt + rest.1)
      {
        var (next, ok) := cls.compensate(after, seed, attempt);
        after, calls := next, calls + 1;
        if ok {
          return;
        }
      }
    }

    /** Handles one event for one saga key; `newId` is the id a new row would get. */
    method DispatchTo(key: Key, event: Json, seed: nat, newId: Id, now: int) returns (id: Option<Id>)
      modifies store
      ensures id.None? <==> !HasKey(old(store.table), key) && newId in old(store.table)
      ensures id.None? ==> store.table == old(store.table)
      ensures id.Some? ==>
        var before := if HasKey(old(store.table), key) then old(store.table)
                      else old(store.table)[newId := Row(key, Running, cls.initial, 0, now)];
        && id.value in before && before[id.value].key == key
        && store.table == if Terminal(before[id.value].status) then before
                          else DispatchEffect(before, id.value, event, seed, now)
    {
      var inst := store.Load(key);
      if inst == null {
        inst := store.Create(newId, key, cls.initial, now);
        if inst == null {
          return None;
        }
      }
      if Terminal(inst.status) {
        return Some(inst.id);
      }
      var result := cls.handle(inst.state, OnEvent(event), seed);
      var state, status := result.state, Running;
      if result.raised || result.failed {
        var undone, calls := CompensateWithRetry(result.state, seed);
        state, status := undone, Compensated;
      } else if result.completed {
        status := Completed;
      }
      var ok := store.Save(inst, state, status, now);
      return Some(inst.id);
    }

    function DispatchEffect(table: Table, id: Id, event: Json, seed: nat, now: int): Table
      requires id in table
    {
      var (state, status, calls) := RunTrigger(cls, table[id].state, OnEvent(event), seed);
      SaveEffect(table, Read(table, id), state, status, now).0
    }

    /** Fires the timeout handler of a running instance read earlier. */
    method RunTimeout(inst: SagaInstance, seed: nat, now: int) returns (ok: bool)
      modifies store, inst
      ensures var (state, status, calls) := RunTrigger(cls, old(inst.state), OnTimeout, seed);
        (store.table, inst.View(), ok) == SaveEffect(old(store.table), old(inst.View()), state, status, now)
    {
      var result := cls.handle(inst.state, OnTimeout, seed);
      var state, status := result.state, Running;
      if result.raised {
        var undone, calls := CompensateWithRetry(result.state, seed);
        state, status := undone, Compensated;
      } else if result.completed {
        status := Completed;
      } else if result.failed {
        status := Compensated;
      }
      ok := store.Save(inst, state, status, now);
    }
  }

  // ---------------------------------------------------------------------
  // Compensation
  // ---------------------------------------------------------------------

  /** The state `compensate` finds at attempt `k`, when the attempts before it all raised. */
  function BeforeAttempt(c: SagaClass, state: Json, seed: nat, k: nat): Json {
    if k == 0 then state else c.compensate(BeforeAttempt(c, state, seed, k - 1), seed, k - 1).0
  }

  predicate AttemptOk(c: SagaClass, state: Json, seed: nat, k: nat) {
    c.compensate(BeforeAttempt(c, state, seed, k), seed, k).1
  }

  lemma {:induction false} CompensateFrom(c: SagaClass, state: Json, seed: nat, attempt: nat)
    requires attempt <= c.maxAttempts
    requires forall k :: 0 <= k < attempt ==> !AttemptOk(c, state, seed, k)
    ensures var (after, calls) := Compensate(c, BeforeAttempt(c, state, seed, attempt), seed, attempt);
      && attempt + calls <= c.maxAttempts
      && after == BeforeAttempt(c, state, seed, attempt + calls)
      && (forall k :: 0 <= k < attempt + calls - 1 ==> !AttemptOk(c, state, seed, k))
      && (attempt + calls < c.maxAttempts ==> calls > 0 && AttemptOk(c, state, seed, attempt + calls - 1))
    decreases c.maxAttempts - attempt
  {
    if attempt < c.maxAttempts && !AttemptOk(c, state, seed, attempt) {
      CompensateFrom(c, state, seed, attempt + 1);
    }
  }

  /** `compensate` is called until it first succeeds or the attempts run out, each call on the state the last one left. */
  lemma CompensateStopsAtFirstSuccess(c: SagaClass, state: Json, seed: nat)
    ensures var (after, calls) := Compensate(c, state, seed, 0);
      && calls <= c.maxAttempts
      && after == BeforeAttempt(c, state, seed, calls)
      && (forall k :: 0 <= k < calls - 1 ==> !AttemptOk(c, state, seed, k))
      && (calls < c.maxAttempts ==> calls > 0 && AttemptOk(c, state, seed, calls - 1))
  {
    CompensateFrom(c, state, seed, 0);
  }

  /** What calling `compensate` on `state` comes to: the calls up to the first success, each on what the last one left. */
  ghost predicate Undone(c: SagaClass, state: Json, seed: nat, after: Json, calls: nat) {
    && calls <= c.maxAttempts && after == BeforeAttempt(c, state, seed, calls)
    && (forall k :: 0 <= k < calls - 1 ==> !AttemptOk(c, state, seed, k))
    && (calls < c.maxAttempts ==> calls > 0 && AttemptOk(c, state, seed, calls - 1))
  }

  /** The handler raised, or an event was handled and the saga marked as failed. */
  predicate MustUndo(r: HandlerResult, trigger: Trigger) {
    r.raised || (trigger.OnEvent? && r.failed)
  }

  /**
   * The stored state is what the handler left, with the status its flags ask for; after an exception or a failed event
   * it is what the calls of `compensate` made of that, and compensated.
   */
  lemma RunStores(c: SagaClass, state: Json, trigger: Trigger, seed: nat)
    ensures var (after, status, calls) := RunTrigger(c, state, trigger, seed);
      var r := c.handle(state, trigger, seed);
      && (MustUndo(r, trigger) ==> status == Compensated && Undone(c, r.state, seed, after, calls))
      && (!MustUndo(r, trigger) ==>
            && after == r.state && calls == 0
            && (r.completed ==> status == Completed)
            && (!r.completed && r.failed ==> status == Compensated)
            && (!r.completed && !r.failed ==> status == Running))
  {
    CompensateStopsAtFirstSuccess(c, c.handle(state, trigger, seed).state, seed);
  }

  /**
   * A run ends compensated without ever calling `compensate` exactly on the timeout path when the handler only marks
   * failure, or when no attempt is allowed.
   */
  lemma CompensatedWithoutCompensateIff(c: SagaClass, state: Json, trigger: Trigger, seed: nat)
    ensures var (after, status, calls) := RunTrigger(c, state, trigger, seed);
      var r := c.handle(state, trigger, seed);
      (status.Compensated? && calls == 0) <==>
        || (trigger.OnTimeout? && !r.raised && !r.completed && r.failed)
        || (c.maxAttempts == 0 && (r.raised || (trigger.OnEvent? && r.failed)))
  {
    var r := c.handle(state, trigger, seed);
    CompensateFrom(c, r.state, seed, 0);
  }

  /** Setting both flags fails a saga on an event and completes it on a timeout; otherwise the two paths agree. */
  lemma FlagPrecedence(c: SagaClass, state: Json, event: Json, seed: nat)
    requires c.handle(state, OnEvent(event), seed) == c.handle(state, OnTimeout, seed)
    ensures var r := c.handle(state, OnTimeout, seed);
      RunTrigger(c, state, OnEvent(event), seed).1 == RunTrigger(c, state, OnTimeout, seed).1
      <==> r.raised || !(r.completed && r.failed)
  {
  }
}
