/** Event-sourced aggregates, the event log with its optimistic version check, and snapshots. */
module EventSourcing {
  import opened Options
  import opened Sorting
  import opened JsonText

  // ---------------------------------------------------------------------
  // Aggregates
  // ---------------------------------------------------------------------

  /** Attribute values of an aggregate other than `id`, `version` and the pending buffer. */
  type Fields = map<string, Json>

  datatype Event = Event(kind: string, payload: Json)

  /** A plain default is an attribute of the class as well; one from a factory is set by the constructor only. */
  datatype Default = NoDefault | Plain(value: Json) | FromFactory(value: Json)

  /** A dataclass field. */
  datatype FieldDecl = FieldDecl(name: string, default: Default)

  /** An aggregate class: its dataclass fields and its `apply_*` methods by event kind. */
  datatype AggregateClass = AggregateClass(
    declared: seq<FieldDecl>,
    handlers: map<string, (Fields, Event) -> Fields>)

  const BASE_NAMES: set<string> := {"id", "version", "_pending_events"}

  predicate Private(name: string) {
    "_" <= name
  }

  /** Events without an `apply_*` method leave the aggregate alone. */
  function ApplyEvent(c: AggregateClass, s: Fields, e: Event): Fields {
    if e.kind in c.handlers then c.handlers[e.kind](s, e) else s
  }

  function Replay(c: AggregateClass, s: Fields, es: seq<Event>): Fields {
    if es == [] then s
    else ApplyEvent(c, Replay(c, s, es[..|es| - 1]), es[|es| - 1])
  }

  /** What reading the defaulted fields gives where the constructor ran, or only `object.__new__`. */
  function Defaults(declared: seq<FieldDecl>, constructed: bool): Fields {
    if declared == [] then map[]
    else
      var rest := Defaults(declared[..|declared| - 1], constructed);
      var f := declared[|declared| - 1];
      if f.name in BASE_NAMES || f.default.NoDefault? || (f.default.FromFactory? && !constructed) then rest
      else rest[f.name := f.default.value]
  }

  /** A new aggregate. */
  function Constructed(c: AggregateClass): Fields {
    Defaults(c.declared, true)
  }

  /** The instance a full replay starts from. */
  function Blank(c: AggregateClass): Fields {
    Defaults(c.declared, false)
  }

  /** The state a full replay of the history `es` leads to. */
  function Current(c: AggregateClass, es: seq<Event>): Fields {
    Replay(c, Blank(c), es)
  }

  /** The state of the instance that was created new and recorded the whole history `es` itself. */
  function Made(c: AggregateClass, es: seq<Event>): Fields {
    Replay(c, Constructed(c), es)
  }

  // ---------------------------------------------------------------------
  // Snapshots
  // ---------------------------------------------------------------------

  /** The fields a snapshot keeps. */
  function SnapshotNames(declared: seq<FieldDecl>): set<string> {
    set f | f in declared && f.name !in BASE_NAMES && !Private(f.name) :: f.name
  }

  /** Reading every dataclass field raises when one of them was never set. */
  predicate Readable(c: AggregateClass, s: Fields) {
    forall f :: f in c.declared && f.name !in BASE_NAMES ==> f.name in s
  }

  function Serialize(c: AggregateClass, s: Fields): Fields {
    map n | n in SnapshotNames(c.declared) && n in s :: s[n]
  }

  function RestoreFields(declared: seq<FieldDecl>, state: Fields): Fields {
    if declared == [] then map[]
    else
      var rest := RestoreFields(declared[..|declared| - 1], state);
      var f := declared[|declared| - 1];
      if Private(f.name) || f.name in BASE_NAMES then rest
      else if f.name in state then rest[f.name := state[f.name]]
      else if !f.default.NoDefault? then rest[f.name := f.default.value]
      else rest
  }

  // ---------------------------------------------------------------------
  // The store
  // ---------------------------------------------------------------------

  datatype Row = Row(sequence: nat, event: Event)
  datatype Snapshot = Snapshot(state: Fields, version: nat)

  /** The rows of one (aggregate_type, aggregate_id) stream, in insertion order, and its snapshot row. */
  datatype Store = Store(rows: seq<Row>, snapshot: Option<Snapshot>)

  /** One in-memory aggregate instance. */
  datatype Handle = Handle(version: nat, fields: Fields, pending: seq<Event>)

  datatype Outcome = Unchanged(version: nat) | Appended(version: nat) | Conflict | Raised

  function Recorded(c: AggregateClass, h: Handle, e: Event): Handle {
    h.(fields := ApplyEvent(c, h.fields, e), pending := h.pending + [e])
  }

  function NewRows(base: nat, events: seq<Event>): seq<Row> {
    seq(|events|, i requires 0 <= i < |events| => Row(base + i + 1, events[i]))
  }

  /** The unique index on (aggregate_type, aggregate_id, sequence) rejects the insert. */
  predicate Collides(rows: seq<Row>, added: seq<Row>) {
    exists i, j :: 0 <= i < |rows| && 0 <= j < |added| && rows[i].sequence == added[j].sequence
  }

  /** `EventStore.append` with the commit of its transaction; `fault` makes the insert fail for another reason. */
  function AppendEffect(c: AggregateClass, every: int, st: Store, h: Handle, fault: bool): (Store, Handle, Outcome)
    requires every != 0
  {
    var drained := h.(pending := []);
    if h.pending == [] then (st, h, Unchanged(h.version))
    else if fault then (st, drained, Raised)
    else if Collides(st.rows, NewRows(h.version, h.pending)) then (st, drained, Conflict)
    else
      var version := h.version + |h.pending|;
      var rows := st.rows + NewRows(h.version, h.pending);
      if version % every != 0 then (Store(rows, st.snapshot), drained.(version := version), Appended(version))
      else if !Readable(c, h.fields) then (st, drained.(version := version), Raised)
      else
        (Store(rows, Some(Snapshot(Serialize(c, h.fields), version))),
         drained.(version := version), Appended(version))
  }

  function BySequence(): (Row, Row) -> bool {
    (a: Row, b: Row) => a.sequence <= b.sequence
  }

  function After(version: nat): Row -> bool {
    (r: Row) => r.sequence > version
  }

  /** The rows after `version`, ordered by sequence. */
  function Tail(rows: seq<Row>, version: nat): seq<Row> {
    Sort(BySequence(), Filter(After(version), rows))
  }

  function EventsOf(rows: seq<Row>): seq<Event> {
    seq(|rows|, i requires 0 <= i < |rows| => rows[i].event)
  }

  /** `EventStore.load`: the snapshot, if any, and the rows after it. */
  function Load(c: AggregateClass, st: Store): Option<Handle> {
    var base := if st.snapshot.Some? then st.snapshot.value.version else 0;
    var tail := Tail(st.rows, base);
    if st.snapshot.None? && tail == [] then None
    else
      var version := if tail == [] then base else tail[|tail| - 1].sequence;
      var start := if st.snapshot.Some? then RestoreFields(c.declared, st.snapshot.value.state) else Blank(c);
      Some(Handle(version, Replay(c, start, EventsOf(tail)), []))
  }

  // ---------------------------------------------------------------------
  // The classes
  // ---------------------------------------------------------------------

  class Aggregate {
    const cls: AggregateClass
    var version: nat
    var fields: Fields
    var pending: seq<Event>

    function View(): Handle
      reads this
    {
      Handle(version, fields, pending)
    }

    constructor (cls: AggregateClass)
      ensures this.cls == cls && View() == Handle(0, Constructed(cls), [])
    {
      this.cls := cls;
      version, fields, pending := 0, Constructed(cls), [];
    }

    /** `_from_events` before it replays: `__init__` does not run. */
    constructor Unset(cls: AggregateClass)
      ensures this.cls == cls && View() == Handle(0, Blank(cls), [])
    {
      this.cls := cls;
      version, fields, pending := 0, Blank(cls), [];
    }

    /** `_restore_from_snapshot`: public fields from the stored state, else from their defaults. */
    constructor Restore(cls: AggregateClass, state: Fields, version: nat)
      ensures this.cls == cls && View() == Handle(version, RestoreFields(cls.declared, state), [])
    {
      this.cls := cls;
      this.version, this.pending := version, [];
      fields := map[];
      new;
      for i := 0 to |cls.declared|
        invariant fields == RestoreFields(cls.declared[..i], state)
        invariant this.version == version && pending == []
      {
        var f := cls.declared[i];
        assert cls.declared[..i + 1][..i] == cls.declared[..i];
        if !Private(f.name) && f.name !in BASE_NAMES {
          if f.name in state {
            fields := fields[f.name := state[f.name]];
          } else if !f.default.NoDefault? {
            fields := fields[f.name := f.default.value];
          }
        }
      }
      assert cls.declared[..|cls.declared|] == cls.declared;
    }

    method Apply(e: Event)
      modifies this`fields
      ensures fields == ApplyEvent(cls, old(fields), e)
      ensures fields == if e.kind in cls.handlers then cls.handlers[e.kind](old(fields), e) else old(fields)
    {
      if e.kind in cls.handlers {
        fields := cls.handlers[e.kind](fields, e);
      }
    }

    method RecordEvent(e: Event)
      modifies this
      ensures View() == Recorded(cls, old(View()), e)
      ensures pending == old(pending) + [e] && version == old(version)
      ensures fields == if e.kind in cls.handlers then cls.handlers[e.kind](old(fields), e) else old(fields)
    {
      pending := pending + [e];
      Apply(e);
    }

    method PullEvents() returns (events: seq<Event>)
      modifies this`pending
      ensures events == old(pending) && pending == []
    {
      events := pending;
      pending := [];
    }

    method ReplayEvents(events: seq<Event>, version: nat)
      modifies this`fields, this`version
      ensures fields == Replay(cls, old(fields), events) && this.version == version
    {
      for i := 0 to |events|
        invariant fields == Replay(cls, old(fields), events[..i])
      {
        assert events[..i + 1][..i] == events[..i];
        Apply(events[i]);
      }
      assert events[..|events|] == events;
      this.version := version;
    }
  }

  class EventStore {
    const every: int
    var rows: seq<Row>
    var snapshot: Option<Snapshot>

    function View(): Store
      reads this
    {
      Store(rows, snapshot)
    }

    constructor (every: int)
      ensures this.every == every && View() == Store([], None)
    {
      this.every := every;
      rows, snapshot := [], None;
    }

    /** Drains the buffer even when the insert is then rejected. */
    method Append(agg: Aggregate, fault: bool) returns (outcome: Outcome)
      requires every != 0
      modifies this, agg
      ensures (View(), agg.View(), outcome) == AppendEffect(agg.cls, every, old(View()), old(agg.View()), fault)
      ensures agg.pending == [] && agg.fields == old(agg.fields)
    {
      var events := agg.PullEvents();
      if events == [] {
        return Unchanged(agg.version);
      }
      var base := agg.version;
      var added: seq<Row> := [];
      for i := 0 to |events|
        invariant added == NewRows(base, events)[..i]
      {
        added := added + [Row(base + i + 1, events[i])];
      }
      assert added == NewRows(base, events);
      if fault {
        return Raised;
      }
      if Collides(rows, added) {
        return Conflict;
      }
      var newVersion := base + |events|;
      agg.version := newVersion;
      if newVersion % every == 0 {
        if !Readable(agg.cls, agg.fields) {
          return Raised;
        }
        snapshot := Some(Snapshot(Serialize(agg.cls, agg.fields), newVersion));
      }
      rows := rows + added;
      return Appended(newVersion);
    }

    method LoadAggregate(cls: AggregateClass) returns (agg: Aggregate?)
      ensures agg == null <==> Load(cls, View()).None?
      ensures agg != null ==> fresh(agg) && agg.cls == cls && agg.View() == Load(cls, View()).value
    {
      var version := if snapshot.Some? then snapshot.value.version else 0;
      var tail := Tail(rows, version);
      if snapshot.None? && tail == [] {
        return null;
      }
      if tail != [] {
        version := tail[|tail| - 1].sequence;
      }
      if snapshot.Some? {
        agg := new Aggregate.Restore(cls, snapshot.value.state, snapshot.value.version);
      } else {
        agg := new Aggregate.Unset(cls);
      }
      agg.ReplayEvents(EventsOf(tail), version);
    }
  }
}
