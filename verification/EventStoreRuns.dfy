/** Every interleaving of any number of aggregate instances racing on one event stream. */
module EventStoreRuns {
  import opened Options
  import opened Sorting
  import opened JsonText
  import opened EventSourcing

  datatype World = World(store: Store, handles: map<nat, Handle>)

  /** Handles are named by numbers; a handle whose append raised is dropped by its owner. */
  datatype Op =
    | New(h: nat)
    | Open(h: nat)
    | Record(h: nat, e: Event)
    | Append(h: nat, fault: bool)
    | Drop(h: nat)

  const INIT := World(Store([], None), map[])

  function Step(c: AggregateClass, every: int, w: World, op: Op): World
    requires every != 0
  {
    match op
    case New(h) => w.(handles := w.handles[h := Handle(0, Constructed(c), [])])
    case Open(h) =>
      (match Load(c, w.store)
       case None => w.(handles := w.handles - {h})
       case Some(loaded) => w.(handles := w.handles[h := loaded]))
    case Record(h, e) =>
      if h !in w.handles then w else w.(handles := w.handles[h := Recorded(c, w.handles[h], e)])
    case Append(h, fault) =>
      if h !in w.handles then w
      else
        var (st, after, outcome) := AppendEffect(c, every, w.store, w.handles[h], fault);
        if outcome.Raised? then w.(handles := w.handles - {h})
        else World(st, w.handles[h := after])
    case Drop(h) => w.(handles := w.handles - {h})
  }

  function Exec(c: AggregateClass, every: int, w: World, ops: seq<Op>): World
    requires every != 0
  {
    if ops == [] then w else Step(c, every, Exec(c, every, w, ops[..|ops| - 1]), ops[|ops| - 1])
  }

  function Log(st: Store): seq<Event> {
    EventsOf(st.rows)
  }

  // ---------------------------------------------------------------------
  // The log: sequences are 1..n, and only a current handle can extend it
  // ---------------------------------------------------------------------

  ghost predicate Contiguous(rows: seq<Row>) {
    forall i :: 0 <= i < |rows| ==> rows[i].sequence == i + 1
  }

  ghost predicate LogOk(w: World) {
    && Contiguous(w.store.rows)
    && (w.store.snapshot.Some? ==> w.store.snapshot.value.version <= |w.store.rows|)
    && (forall h :: h in w.handles ==> w.handles[h].version <= |w.store.rows|)
  }

  lemma ConflictIffBehind(rows: seq<Row>, h: Handle)
    requires Contiguous(rows) && h.version <= |rows| && h.pending != []
    ensures Collides(rows, NewRows(h.version, h.pending)) <==> h.version < |rows|
  {
    var added := NewRows(h.version, h.pending);
    if h.version < |rows| {
      assert rows[h.version].sequence == added[0].sequence;
    }
  }

  /** What an append does to a well-formed log, for any aggregate class. */
  lemma AppendVerdict(c: AggregateClass, every: int, st: Store, h: Handle, fault: bool)
    requires every != 0 && Contiguous(st.rows) && h.version <= |st.rows|
    ensures var (st', h', outcome) := AppendEffect(c, every, st, h, fault);
      && Contiguous(st'.rows) && h'.version <= |st'.rows| + |h.pending|
      && (outcome.Conflict? <==> h.pending != [] && !fault && h.version < |st.rows|)
      && (outcome.Appended? ==>
            && h.version == |st.rows| && h'.version == outcome.version == |st'.rows|
            && Log(st') == Log(st) + h.pending)
      && (outcome.Conflict? || outcome.Unchanged? ==> st' == st && h'.version == h.version)
      && (outcome.Raised? || st.rows <= st'.rows)
  {
    if h.pending != [] {
      ConflictIffBehind(st.rows, h);
    }
  }

  /** Some event of the buffer would get the sequence of a stored row. */
  ghost predicate Taken(rows: seq<Row>, base: nat, count: nat) {
    exists i :: 0 <= i < |rows| && base < rows[i].sequence <= base + count
  }

  lemma CollidesIffTaken(rows: seq<Row>, base: nat, events: seq<Event>)
    ensures Collides(rows, NewRows(base, events)) <==> Taken(rows, base, |events|)
  {
    var added := NewRows(base, events);
    if i :| 0 <= i < |rows| && base < rows[i].sequence <= base + |events| {
      assert rows[i].sequence == added[rows[i].sequence - base - 1].sequence;
    }
  }

  /** The row an append adds for the `i`-th event of the buffer. */
  ghost predicate AddsRows(rows: seq<Row>, rows': seq<Row>, h: Handle) {
    && |rows'| == |rows| + |h.pending| && rows <= rows'
    && forall i :: 0 <= i < |h.pending| ==> rows'[|rows| + i] == Row(h.version + i + 1, h.pending[i])
  }

  /** A snapshot holds the public fields declared by the class, with their values. */
  ghost predicate Snapshots(c: AggregateClass, s: Snapshot, h: Handle, version: nat) {
    && s.version == version
    && (forall name :: name in s.state <==> name in h.fields && PublicField(c.declared, name))
    && (forall name :: name in s.state ==> s.state[name] == h.fields[name])
  }

  ghost predicate PublicField(declared: seq<FieldDecl>, name: string) {
    && name != "id" && name != "version" && name != "_pending_events" && !("_" <= name)
    && Declares(declared, name)
  }

  ghost predicate Declares(declared: seq<FieldDecl>, name: string) {
    exists i :: 0 <= i < |declared| && declared[i].name == name
  }

  /** Every declared field, apart from those of the base class, was set. */
  ghost predicate AllSet(c: AggregateClass, h: Handle) {
    forall i :: 0 <= i < |c.declared| ==>
      c.declared[i].name in h.fields || c.declared[i].name in {"id", "version", "_pending_events"}
  }

  ghost predicate GoesThrough(c: AggregateClass, every: int, st: Store, h: Handle, fault: bool)
    requires every != 0
  {
    && h.pending != [] && !fault && !Taken(st.rows, h.version, |h.pending|)
    && ((h.version + |h.pending|) % every == 0 ==> AllSet(c, h))
  }

  /**
   * The four answers of an append, on any store whatever its rows are. The buffer is drained before anything else, so
   * it is empty afterwards even when nothing was stored; the fields stay.
   */
  lemma AppendAnswers(c: AggregateClass, every: int, st: Store, h: Handle, fault: bool)
    requires every != 0
    ensures var (st', h', outcome) := AppendEffect(c, every, st, h, fault);
      var version := h.version + |h.pending|;
      && h'.pending == [] && h'.fields == h.fields
      && (outcome.Unchanged? <==> h.pending == [])
      && (outcome.Unchanged? ==> outcome.version == h.version && st' == st && h' == h)
      && (outcome.Conflict? <==> h.pending != [] && !fault && Taken(st.rows, h.version, |h.pending|))
      && (outcome.Conflict? ==> st' == st && h'.version == h.version)
      && (outcome.Raised? ==> st' == st)
      && (outcome.Appended? <==> GoesThrough(c, every, st, h, fault))
      && (outcome.Appended? ==>
            && outcome.version == h'.version == version && AddsRows(st.rows, st'.rows, h)
            && (if version % every == 0 then st'.snapshot.Some? && Snapshots(c, st'.snapshot.value, h, version)
                else st'.snapshot == st.snapshot))
  {
    CollidesIffTaken(st.rows, h.version, h.pending);
    forall name ensures name in SnapshotNames(c.declared) <==> PublicField(c.declared, name) {
      NamesOfDeclared(c.declared, name);
    }
    assert AllSet(c, h) <==> Readable(c, h.fields) by {
      AllSetIsReadable(c, h);
    }
  }

  lemma AllSetIsReadable(c: AggregateClass, h: Handle)
    ensures AllSet(c, h) <==> Readable(c, h.fields)
  {
    if Readable(c, h.fields) {
      forall i | 0 <= i < |c.declared|
        ensures c.declared[i].name in h.fields || c.declared[i].name in {"id", "version", "_pending_events"}
      {
        assert c.declared[i] in c.declared;
      }
    }
  }

  lemma NamesOfDeclared(declared: seq<FieldDecl>, name: string)
    ensures name in SnapshotNames(declared) <==> PublicField(declared, name)
  {
    if i :| 0 <= i < |declared| && declared[i].name == name {
      assert declared[i] in declared;
    }
  }

  lemma TailOfContiguous(rows: seq<Row>, v: nat)
    requires Contiguous(rows) && v <= |rows|
    ensures Tail(rows, v) == rows[v..]
  {
    var p := After(v);
    assert rows == rows[..v] + rows[v..];
    FilterSplit(p, rows[..v], rows[v..]);
    FilterNone(p, rows[..v]);
    FilterAll(p, rows[v..]);
    assert Filter(p, rows) == [] + rows[v..] == rows[v..];
    SortFixed(BySequence(), rows[v..]);
  }

  lemma LoadVersion(c: AggregateClass, st: Store)
    requires Contiguous(st.rows)
    requires st.snapshot.Some? ==> st.snapshot.value.version <= |st.rows|
    ensures Load(c, st).Some? ==> Load(c, st).value.version == |st.rows|
  {
    TailOfContiguous(st.rows, if st.snapshot.Some? then st.snapshot.value.version else 0);
  }

  lemma StepLogOk(c: AggregateClass, every: int, w: World, op: Op)
    requires every != 0 && LogOk(w)
    ensures LogOk(Step(c, every, w, op))
    ensures w.store.rows <= Step(c, every, w, op).store.rows
  {
    match op
    case Open(h) => LoadVersion(c, w.store);
    case Append(h, fault) =>
      if h in w.handles {
        AppendVerdict(c, every, w.store, w.handles[h], fault);
      }
    case _ =>
  }

  /** In every run stored sequences are exactly 1..n, no handle is ahead, and the log is only ever extended. */
  lemma {:induction false} EveryRunLogOk(c: AggregateClass, every: int, w: World, ops: seq<Op>)
    requires every != 0 && LogOk(w)
    ensures LogOk(Exec(c, every, w, ops))
    ensures w.store.rows <= Exec(c, every, w, ops).store.rows
  {
    if ops != [] {
      EveryRunLogOk(c, every, w, ops[..|ops| - 1]);
      StepLogOk(c, every, Exec(c, every, w, ops[..|ops| - 1]), ops[|ops| - 1]);
    }
  }

  ghost predicate Reopens(op: Op, h: nat) {
    (op.New? || op.Open?) && op.h == h
  }

  lemma {:induction false} BehindForever(c: AggregateClass, every: int, w: World, ops: seq<Op>, h: nat)
    requires every != 0 && LogOk(w)
    requires h in w.handles ==> w.handles[h].version < |w.store.rows|
    requires forall op :: op in ops ==> !Reopens(op, h)
    ensures var w' := Exec(c, every, w, ops);
      h in w'.handles ==> w'.handles[h].version < |w'.store.rows|
  {
    if ops != [] {
      var before, op := ops[..|ops| - 1], ops[|ops| - 1];
      BehindForever(c, every, w, before, h);
      EveryRunLogOk(c, every, w, before);
      var w1 := Exec(c, every, w, before);
      assert op in ops;
      StepLogOk(c, every, w1, op);
      if op.Append? && op.h == h && h in w1.handles {
        AppendVerdict(c, every, w1.store, w1.handles[h], op.fault);
      }
    }
  }

  /** Once an append of `h` met a conflict, no later non-empty append of that instance ever succeeds. */
  lemma ConflictIsForever(c: AggregateClass, every: int, before: seq<Op>, h: nat, after: seq<Op>, fault: bool)
    requires every != 0
    requires var w := Exec(c, every, INIT, before);
      h in w.handles && AppendEffect(c, every, w.store, w.handles[h], false).2.Conflict?
    requires forall op :: op in after ==> !Reopens(op, h)
    ensures var w := Exec(c, every, Step(c, every, Exec(c, every, INIT, before), Append(h, false)), after);
      h in w.handles && w.handles[h].pending != []
      ==> !AppendEffect(c, every, w.store, w.handles[h], fault).2.Appended?
  {
    EveryRunLogOk(c, every, INIT, before);
    var w := Exec(c, every, INIT, before);
    AppendVerdict(c, every, w.store, w.handles[h], false);
    var w1 := Step(c, every, w, Append(h, false));
    StepLogOk(c, every, w, Append(h, false));
    EveryRunLogOk(c, every, w1, after);
    BehindForever(c, every, w1, after, h);
    var w2 := Exec(c, every, w1, after);
    if h in w2.handles {
      AppendVerdict(c, every, w2.store, w2.handles[h], fault);
    }
  }

  ghost predicate Touches(op: Op, h: nat) {
    !op.Append? && op.h == h
  }

  lemma {:induction false} DrainedStays(c: AggregateClass, every: int, w: World, ops: seq<Op>, h: nat, version: nat)
    requires every != 0 && h in w.handles && w.handles[h].pending == [] && w.handles[h].version == version
    requires forall op :: op in ops ==> !Touches(op, h)
    ensures var w' := Exec(c, every, w, ops);
      h in w'.handles && w'.handles[h].pending == [] && w'.handles[h].version == version
  {
    if ops != [] {
      DrainedStays(c, every, w, ops[..|ops| - 1], h, version);
      assert ops[|ops| - 1] in ops;
    }
  }

  /**
   * A conflict loses the events of the buffer: whatever others do, and however often the append is repeated, it answers
   * success with the old version and stores nothing, until the instance records again.
   */
  lemma RetriedConflictIsSilent(c: AggregateClass, every: int, w: World, h: nat, after: seq<Op>, fault: bool)
    requires every != 0 && h in w.handles
    requires AppendEffect(c, every, w.store, w.handles[h], false).2.Conflict?
    requires forall op :: op in after ==> !Touches(op, h)
    ensures var v := Exec(c, every, Step(c, every, w, Append(h, false)), after);
      && h in v.handles
      && AppendEffect(c, every, v.store, v.handles[h], fault) == (v.store, v.handles[h], Unchanged(w.handles[h].version))
      && Step(c, every, v, Append(h, fault)) == v
  {
    AppendAnswers(c, every, w.store, w.handles[h], false);
    var w1 := Step(c, every, w, Append(h, false));
    DrainedStays(c, every, w1, after, h, w.handles[h].version);
    var v := Exec(c, every, w1, after);
    AppendAnswers(c, every, v.store, v.handles[h], fault);
    assert v.handles[h := v.handles[h]] == v.handles;
  }

  /** The tail is what `ORDER BY sequence` yields of the rows after the version. */
  lemma TailInOrder(rows: seq<Row>, v: nat)
    requires forall i, j :: 0 <= i < j < |rows| ==> rows[i].sequence != rows[j].sequence
    ensures forall r :: r in Tail(rows, v) <==> r in rows && r.sequence > v
    ensures forall i, j :: 0 <= i < j < |Tail(rows, v)| ==> Tail(rows, v)[i].sequence < Tail(rows, v)[j].sequence
  {
    var kept, tail := Filter(After(v), rows), Tail(rows, v);
    var other := (a: Row, b: Row) => a.sequence != b.sequence;
    forall r ensures r in tail <==> r in rows && r.sequence > v {
      SortMembers(BySequence(), kept, r);
      FilterMembers(After(v), rows, r);
    }
    FilterPairwise(other, After(v), rows);
    SortOrders(BySequence(), other, kept);
    forall i, j | 0 <= i < j < |tail| ensures tail[i].sequence < tail[j].sequence {
      assert Then(BySequence(), other)(tail[i], tail[j]);
    }
  }

  // ---------------------------------------------------------------------
  // Snapshots: what survives one
  // ---------------------------------------------------------------------

  lemma {:induction false} RestoreKnown(declared: seq<FieldDecl>, state: Fields)
    requires forall n :: n in SnapshotNames(declared) ==> n in state
    ensures RestoreFields(declared, state) == map n | n in SnapshotNames(declared) :: state[n]
  {
    if declared != [] {
      var init, f := declared[..|declared| - 1], declared[|declared| - 1];
      assert declared == init + [f];
      assert SnapshotNames(declared) ==
        SnapshotNames(init) + (if f.name in BASE_NAMES || Private(f.name) then {} else {f.name});
      RestoreKnown(init, state);
    }
  }

  /** What restoring makes of one declared field. */
  ghost predicate RestoresField(f: FieldDecl, state: Fields, restored: Fields) {
    if "_" <= f.name || f.name in {"id", "version", "_pending_events"} then f.name !in restored
    else if f.name in state then f.name in restored && restored[f.name] == state[f.name]
    else if f.default.NoDefault? then f.name !in restored
    else f.name in restored && restored[f.name] == f.default.value
  }

  lemma {:induction false} RestoredAreDeclared(declared: seq<FieldDecl>, state: Fields, name: string)
    requires name in RestoreFields(declared, state)
    ensures Declares(declared, name)
  {
    var init, last := declared[..|declared| - 1], declared[|declared| - 1];
    if name == last.name {
      assert declared[|declared| - 1].name == name;
    } else {
      RestoredAreDeclared(init, state, name);
      var i :| 0 <= i < |init| && init[i].name == name;
      assert declared[i].name == name;
    }
  }

  /** Restoring sets each public field from the state, else from its default of either kind, and nothing else. */
  lemma {:induction false} RestoreSets(declared: seq<FieldDecl>, state: Fields, i: nat)
    requires DistinctNames(declared) && i < |declared|
    ensures RestoresField(declared[i], state, RestoreFields(declared, state))
    ensures forall name :: name in RestoreFields(declared, state) ==> Declares(declared, name)
  {
    var init, last := declared[..|declared| - 1], declared[|declared| - 1];
    if i < |init| {
      RestoreSets(init, state, i);
      assert init[i].name != last.name;
    } else if last.name in RestoreFields(init, state) {
      RestoredAreDeclared(init, state, last.name);
      assert false;
    }
    forall name | name in RestoreFields(declared, state) ensures Declares(declared, name) {
      RestoredAreDeclared(declared, state, name);
    }
  }

  lemma {:induction false} DefaultsAreDeclared(declared: seq<FieldDecl>, constructed: bool, name: string)
    requires name in Defaults(declared, constructed)
    ensures Declares(declared, name)
  {
    var init, last := declared[..|declared| - 1], declared[|declared| - 1];
    if name == last.name {
      assert declared[|declared| - 1].name == name;
    } else {
      DefaultsAreDeclared(init, constructed, name);
      var i :| 0 <= i < |init| && init[i].name == name;
      assert declared[i].name == name;
    }
  }

  /** A new aggregate has every default; an instance made without its constructor only the plain ones. */
  lemma {:induction false} DefaultsSet(declared: seq<FieldDecl>, constructed: bool, i: nat)
    requires DistinctNames(declared) && i < |declared|
    ensures var f, fields := declared[i], Defaults(declared, constructed);
      if f.name in {"id", "version", "_pending_events"} || f.default.NoDefault? || (f.default.FromFactory? && !constructed)
      then f.name !in fields
      else f.name in fields && fields[f.name] == f.default.value
    ensures forall name :: name in Defaults(declared, constructed) ==> Declares(declared, name)
  {
    var init, last := declared[..|declared| - 1], declared[|declared| - 1];
    if i < |init| {
      DefaultsSet(init, constructed, i);
      assert init[i].name != last.name;
    } else if last.name in Defaults(init, constructed) {
      DefaultsAreDeclared(init, constructed, last.name);
      assert false;
    }
    forall name | name in Defaults(declared, constructed) ensures Declares(declared, name) {
      DefaultsAreDeclared(declared, constructed, name);
    }
  }

  /** Restoring a snapshot gives the aggregate back exactly when it holds nothing but public dataclass fields. */
  lemma SnapshotRoundTrip(c: AggregateClass, s: Fields)
    requires Readable(c, s)
    ensures RestoreFields(c.declared, Serialize(c, s)) == s <==> s.Keys <= SnapshotNames(c.declared)
  {
    var restored := RestoreFields(c.declared, Serialize(c, s));
    RestoreKnown(c.declared, Serialize(c, s));
    assert restored.Keys == SnapshotNames(c.declared);
  }

  /** Some instance may have loaded a part of `es`: one that was stored with no snapshot due, or with one that did not raise. */
  ghost predicate Reloadable(c: AggregateClass, every: int, es: seq<Event>)
    requires every != 0
  {
    exists k :: 0 < k < |es| && Storable(c, every, es[..k])
  }

  /** A new aggregate that recorded `es` can be stored. */
  ghost predicate Storable(c: AggregateClass, every: int, es: seq<Event>)
    requires every != 0
  {
    es != [] && (|es| % every != 0 || Readable(c, Made(c, es)))
  }

  /**
   * The public fields of an aggregate that recorded its whole history are all that replaying that history sets; and
   * where an instance may have been loaded before, the replay sets nothing but public fields.
   */
  ghost predicate SnapshotsFaithful(c: AggregateClass, every: int)
    requires every != 0
  {
    forall es :: es != [] && |es| % every == 0 ==>
      && (Readable(c, Made(c, es)) ==> Serialize(c, Made(c, es)) == Current(c, es))
      && (Reloadable(c, every, es) && Readable(c, Current(c, es)) ==>
            Current(c, es).Keys <= SnapshotNames(c.declared))
  }

  /** Dataclass fields have different names. */
  ghost predicate DistinctNames(declared: seq<FieldDecl>) {
    forall i, j :: 0 <= i < j < |declared| ==> declared[i].name != declared[j].name
  }

  /** Every field other than those of the base class is public and has a default. */
  ghost predicate PublicDefaults(declared: seq<FieldDecl>) {
    forall f :: f in declared && f.name !in BASE_NAMES ==> !Private(f.name) && !f.default.NoDefault?
  }

  ghost predicate NoFactories(declared: seq<FieldDecl>) {
    forall f :: f in declared && f.name !in BASE_NAMES ==> !f.default.FromFactory?
  }

  lemma {:induction false} ConstructedNames(declared: seq<FieldDecl>)
    requires PublicDefaults(declared)
    ensures Defaults(declared, true).Keys == SnapshotNames(declared)
  {
    if declared != [] {
      var init, last := declared[..|declared| - 1], declared[|declared| - 1];
      ConstructedNames(init);
      assert declared == init + [last];
      assert SnapshotNames(declared) ==
        SnapshotNames(init) + (if last.name in BASE_NAMES || Private(last.name) then {} else {last.name});
    }
  }

  lemma {:induction false} PlainDefaults(declared: seq<FieldDecl>)
    requires NoFactories(declared)
    ensures Defaults(declared, false) == Defaults(declared, true)
  {
    if declared != [] {
      PlainDefaults(declared[..|declared| - 1]);
      assert declared[|declared| - 1] in declared;
    }
  }

  lemma {:induction false} BlankLacks(declared: seq<FieldDecl>, n: nat)
    requires DistinctNames(declared) && n < |declared| && declared[n].default.FromFactory?
    ensures declared[n].name !in Defaults(declared, false)
  {
    var init, last := declared[..|declared| - 1], declared[|declared| - 1];
    if n < |init| {
      BlankLacks(init, n);
    } else {
      NotNamed(init, last.name);
    }
  }

  lemma {:induction false} NotNamed(declared: seq<FieldDecl>, name: string)
    requires forall f :: f in declared ==> f.name != name
    ensures name !in Defaults(declared, false)
  {
    if declared != [] {
      NotNamed(declared[..|declared| - 1], name);
      assert declared[|declared| - 1] in declared;
    }
  }

  /**
   * Where all fields are public with defaults and the apply methods set no others, snapshots are faithful exactly
   * when no field has a default from a factory.
   */
  lemma PublicFieldsAreFaithfulIff(c: AggregateClass, every: int)
    requires every != 0 && PublicDefaults(c.declared) && DistinctNames(c.declared)
    requires forall s, e :: ApplyEvent(c, s, e).Keys == s.Keys
    ensures SnapshotsFaithful(c, every) <==> NoFactories(c.declared)
  {
    if NoFactories(c.declared) {
      forall es ensures Serialize(c, Made(c, es)) == Current(c, es) && Current(c, es).Keys == SnapshotNames(c.declared) {
        MadeHasAllFields(c, es);
        PlainDefaults(c.declared);
      }
    } else {
      var f :| f in c.declared && f.name !in BASE_NAMES && f.default.FromFactory?;
      var n :| 0 <= n < |c.declared| && c.declared[n] == f;
      var es := FactoryDefaultIsLost(c, every, n);
    }
  }

  /** A replay does not know the field, and the new aggregate does. */
  lemma FactoryDefaultIsLost(c: AggregateClass, every: int, n: nat) returns (es: seq<Event>)
    requires every != 0 && PublicDefaults(c.declared) && DistinctNames(c.declared)
    requires forall s, e :: ApplyEvent(c, s, e).Keys == s.Keys
    requires n < |c.declared| && c.declared[n].default.FromFactory? && c.declared[n].name !in BASE_NAMES
    ensures es != [] && |es| % every == 0
    ensures Readable(c, Made(c, es)) && Serialize(c, Made(c, es)) != Current(c, es)
  {
    es := seq(if every < 0 then -every else every, _ => Event("", Null));
    BlankLacks(c.declared, n);
    ReplayKeepsKeys(c, Blank(c), es);
    MadeHasAllFields(c, es);
    assert c.declared[n] in c.declared;
  }

  lemma MadeHasAllFields(c: AggregateClass, es: seq<Event>)
    requires PublicDefaults(c.declared) && forall s, e :: ApplyEvent(c, s, e).Keys == s.Keys
    ensures Readable(c, Made(c, es)) && Made(c, es).Keys == SnapshotNames(c.declared)
    ensures Serialize(c, Made(c, es)) == Made(c, es)
  {
    ConstructedNames(c.declared);
    ReplayKeepsKeys(c, Constructed(c), es);
  }

  lemma {:induction false} ReplayKeepsKeys(c: AggregateClass, s: Fields, es: seq<Event>)
    requires forall s, e :: ApplyEvent(c, s, e).Keys == s.Keys
    ensures Replay(c, s, es).Keys == s.Keys
  {
    if es != [] {
      ReplayKeepsKeys(c, s, es[..|es| - 1]);
    }
  }

  lemma {:induction false} ReplaySplit(c: AggregateClass, s: Fields, a: seq<Event>, b: seq<Event>)
    ensures Replay(c, s, a + b) == Replay(c, Replay(c, s, a), b)
  {
    if b == [] {
      assert a + b == a;
    } else {
      ReplaySplit(c, s, a, b[..|b| - 1]);
      assert (a + b)[..|a + b| - 1] == a + b[..|b| - 1];
    }
  }

  // ---------------------------------------------------------------------
  // Loading equals replaying the whole log
  // ---------------------------------------------------------------------

  ghost predicate StoreOk(c: AggregateClass, every: int, st: Store)
    requires every != 0
  {
    && Contiguous(st.rows)
    && (st.rows != [] ==> exists k :: 0 < k <= |Log(st)| && Storable(c, every, Log(st)[..k]))
    && SnapshotOk(c, st)
  }

  /** Restoring the snapshot gives what replaying the log up to its version gives. */
  ghost predicate SnapshotOk(c: AggregateClass, st: Store) {
    st.snapshot.Some? ==>
      var v := st.snapshot.value.version;
      && 1 <= v <= |st.rows|
      && RestoreFields(c.declared, st.snapshot.value.state) == Current(c, Log(st)[..v])
  }

  /** The fields of a loaded instance or of the one that recorded the whole history. */
  ghost predicate Replays(c: AggregateClass, fields: Fields, log: seq<Event>, pending: seq<Event>) {
    fields == Made(c, log + pending) || (log != [] && fields == Current(c, log + pending))
  }

  /** Either in sync with the log, or behind it; what a handle that is behind holds does not matter. */
  ghost predicate HandleOk(c: AggregateClass, st: Store, h: Handle) {
    && h.version <= |st.rows|
    && (h.version == |st.rows| ==> Replays(c, h.fields, Log(st), h.pending))
  }

  ghost predicate WorldOk(c: AggregateClass, every: int, w: World)
    requires every != 0
  {
    StoreOk(c, every, w.store) && forall h :: h in w.handles ==> HandleOk(c, w.store, w.handles[h])
  }

  /** What `load` returns without a snapshot: the replay of the whole log from a blank instance. */
  ghost function FullReplay(c: AggregateClass, st: Store): Option<Handle> {
    if st.rows == [] then None else Some(Handle(|st.rows|, Current(c, Log(st)), []))
  }

  lemma ReplayFrom(c: AggregateClass, es: seq<Event>, v: nat)
    requires v <= |es|
    ensures Replay(c, Current(c, es[..v]), es[v..]) == Current(c, es)
  {
    assert es == es[..v] + es[v..];
    ReplaySplit(c, Blank(c), es[..v], es[v..]);
  }

  lemma LoadIsFullReplay(c: AggregateClass, st: Store)
    requires Contiguous(st.rows) && SnapshotOk(c, st)
    ensures Load(c, st) == FullReplay(c, st)
  {
    if st.snapshot.Some? {
      var v := st.snapshot.value.version;
      TailOfContiguous(st.rows, v);
      assert EventsOf(st.rows[v..]) == Log(st)[v..];
      ReplayFrom(c, Log(st), v);
    } else {
      TailOfContiguous(st.rows, 0);
      assert st.rows[0..] == st.rows;
    }
  }

  /** A snapshot taken of an instance in sync restores to the replay of the log. */
  lemma SnapshotRestores(c: AggregateClass, every: int, st: Store, h: Handle)
    requires every != 0 && SnapshotsFaithful(c, every) && StoreOk(c, every, st)
    requires Replays(c, h.fields, Log(st), h.pending) && h.pending != [] && Readable(c, h.fields)
    requires |Log(st) + h.pending| % every == 0
    ensures RestoreFields(c.declared, Serialize(c, h.fields)) == Current(c, Log(st) + h.pending)
  {
    var es := Log(st) + h.pending;
    RestoreKnown(c.declared, Serialize(c, h.fields));
    if h.fields == Made(c, es) {
      assert RestoreFields(c.declared, Serialize(c, h.fields)) == Serialize(c, h.fields);
    } else {
      var k :| 0 < k <= |Log(st)| && Storable(c, every, Log(st)[..k]);
      assert es[..k] == Log(st)[..k];
      SnapshotRoundTrip(c, h.fields);
    }
  }

  /** After the first append, which only a new aggregate can make, some part of the log was storable. */
  lemma AppendStorable(c: AggregateClass, every: int, st: Store, h: Handle)
    requires every != 0 && StoreOk(c, every, st) && Replays(c, h.fields, Log(st), h.pending) && h.pending != []
    requires |Log(st) + h.pending| % every != 0 || Readable(c, h.fields)
    ensures var es := Log(st) + h.pending; exists k :: 0 < k <= |es| && Storable(c, every, es[..k])
  {
    var es := Log(st) + h.pending;
    if st.rows == [] {
      assert es[..|es|] == es == h.pending;
      assert Storable(c, every, es[..|es|]);
    } else {
      var k :| 0 < k <= |Log(st)| && Storable(c, every, Log(st)[..k]);
      assert es[..k] == Log(st)[..k];
    }
  }

  /** An append at the end of the log that no snapshot prevents. */
  lemma AppendAtEnd(c: AggregateClass, every: int, st: Store, h: Handle)
    requires every != 0 && Contiguous(st.rows) && h.version == |st.rows| && h.pending != []
    requires var n := |st.rows| + |h.pending|; n % every == 0 ==> Readable(c, h.fields)
    ensures var (after, h', outcome) := AppendEffect(c, every, st, h, false);
      var n := |st.rows| + |h.pending|;
      && outcome == Appended(n)
      && after == Store(st.rows + NewRows(|st.rows|, h.pending),
           if n % every == 0 then Some(Snapshot(Serialize(c, h.fields), n)) else st.snapshot)
  {
    ConflictIffBehind(st.rows, h);
  }

  /** An older snapshot stays good while the log grows. */
  lemma KeptSnapshotOk(c: AggregateClass, st: Store, rows: seq<Row>)
    requires SnapshotOk(c, st) && st.rows <= rows
    ensures SnapshotOk(c, Store(rows, st.snapshot))
  {
    if st.snapshot.Some? {
      assert EventsOf(rows)[..st.snapshot.value.version] == Log(st)[..st.snapshot.value.version];
    }
  }

  lemma DueSnapshotOk(c: AggregateClass, every: int, st: Store, h: Handle, rows: seq<Row>)
    requires every != 0 && SnapshotsFaithful(c, every) && StoreOk(c, every, st)
    requires Replays(c, h.fields, Log(st), h.pending) && h.pending != [] && Readable(c, h.fields)
    requires EventsOf(rows) == Log(st) + h.pending && |rows| % every == 0
    ensures SnapshotOk(c, Store(rows, Some(Snapshot(Serialize(c, h.fields), |rows|))))
  {
    assert EventsOf(rows)[..|rows|] == EventsOf(rows);
    SnapshotRestores(c, every, st, h);
  }

  lemma AppendSnapshotOk(c: AggregateClass, every: int, st: Store, h: Handle)
    requires every != 0 && SnapshotsFaithful(c, every) && StoreOk(c, every, st) && HandleOk(c, st, h)
    requires h.version == |st.rows| && h.pending != [] && AppendEffect(c, every, st, h, false).2.Appended?
    ensures SnapshotOk(c, AppendEffect(c, every, st, h, false).0)
  {
    var rows := st.rows + NewRows(|st.rows|, h.pending);
    AppendAtEnd(c, every, st, h);
    LogAfter(st, Log(st), h.pending);
    if |rows| % every == 0 {
      DueSnapshotOk(c, every, st, h, rows);
    } else {
      KeptSnapshotOk(c, st, rows);
    }
  }

  lemma AppendWorldOk(c: AggregateClass, every: int, st: Store, h: Handle, fault: bool)
    requires every != 0 && SnapshotsFaithful(c, every) && StoreOk(c, every, st) && HandleOk(c, st, h)
    ensures var (st', h', outcome) := AppendEffect(c, every, st, h, fault);
      !outcome.Raised? ==> StoreOk(c, every, st') && HandleOk(c, st', h')
  {
    AppendVerdict(c, every, st, h, fault);
    if AppendEffect(c, every, st, h, fault).2.Appended? {
      var es := Log(st) + h.pending;
      assert es + [] == es;
      AppendStorable(c, every, st, h);
      AppendSnapshotOk(c, every, st, h);
    }
  }

  lemma RecordHandleOk(c: AggregateClass, st: Store, h: Handle, e: Event)
    requires HandleOk(c, st, h)
    ensures HandleOk(c, st, Recorded(c, h, e))
  {
    var all := Log(st) + (h.pending + [e]);
    assert all[..|all| - 1] == Log(st) + h.pending;
  }

  lemma AppendStepOk(c: AggregateClass, every: int, w: World, h: nat, fault: bool)
    requires every != 0 && SnapshotsFaithful(c, every) && WorldOk(c, every, w) && h in w.handles
    ensures WorldOk(c, every, Step(c, every, w, Append(h, fault)))
  {
    AppendVerdict(c, every, w.store, w.handles[h], fault);
    AppendWorldOk(c, every, w.store, w.handles[h], fault);
    var (st, after, outcome) := AppendEffect(c, every, w.store, w.handles[h], fault);
    if outcome.Appended? {
      forall k | k in w.handles && k != h ensures HandleOk(c, st, w.handles[k]) {
        assert w.handles[k].version < |st.rows|;
      }
    }
  }

  lemma StepWorldOk(c: AggregateClass, every: int, w: World, op: Op)
    requires every != 0 && SnapshotsFaithful(c, every) && WorldOk(c, every, w)
    ensures WorldOk(c, every, Step(c, every, w, op))
  {
    assert Log(w.store) + [] == Log(w.store);
    match op
    case New(h) =>
    case Open(h) => LoadIsFullReplay(c, w.store);
    case Record(h, e) =>
      if h in w.handles {
        RecordHandleOk(c, w.store, w.handles[h], e);
      }
    case Append(h, fault) =>
      if h in w.handles {
        AppendStepOk(c, every, w, h, fault);
      }
    case Drop(h) =>
  }

  lemma {:induction false} EveryRunWorldOk(c: AggregateClass, every: int, ops: seq<Op>)
    requires every != 0 && SnapshotsFaithful(c, every)
    ensures WorldOk(c, every, Exec(c, every, INIT, ops))
  {
    if ops != [] {
      EveryRunWorldOk(c, every, ops[..|ops| - 1]);
      StepWorldOk(c, every, Exec(c, every, INIT, ops[..|ops| - 1]), ops[|ops| - 1]);
    }
  }

  /** A successful append was decided on the replay of the whole log: no write rests on a stale state. */
  lemma NoLostUpdate(c: AggregateClass, every: int, ops: seq<Op>, h: nat, fault: bool)
    requires every != 0 && SnapshotsFaithful(c, every)
    requires var w := Exec(c, every, INIT, ops);
      h in w.handles && AppendEffect(c, every, w.store, w.handles[h], fault).2.Appended?
    ensures var w := Exec(c, every, INIT, ops);
      var w' := Step(c, every, w, Append(h, fault));
      && Replays(c, w.handles[h].fields, Log(w.store), w.handles[h].pending)
      && Log(w'.store) == Log(w.store) + w.handles[h].pending
  {
    EveryRunWorldOk(c, every, ops);
    var w := Exec(c, every, INIT, ops);
    AppendVerdict(c, every, w.store, w.handles[h], fault);
  }

  // The converse: a class that loses state in a snapshot is loaded wrongly in some run.

  function Records(es: seq<Event>): seq<Op> {
    seq(|es|, i requires 0 <= i < |es| => Record(0, es[i]))
  }

  lemma {:induction false} ExecSplit(c: AggregateClass, every: int, w: World, a: seq<Op>, b: seq<Op>)
    requires every != 0
    ensures Exec(c, every, w, a + b) == Exec(c, every, Exec(c, every, w, a), b)
  {
    if b == [] {
      assert a + b == a;
    } else {
      ExecSplit(c, every, w, a, b[..|b| - 1]);
      assert (a + b)[..|a + b| - 1] == a + b[..|b| - 1];
    }
  }

  lemma ExecOne(c: AggregateClass, every: int, w: World, op: Op)
    requires every != 0
    ensures Exec(c, every, w, [op]) == Step(c, every, w, op)
  {
    assert [op][..0] == [];
  }

  lemma {:induction false} ExecRecords(c: AggregateClass, every: int, st: Store, h: Handle, es: seq<Event>)
    requires every != 0
    ensures Exec(c, every, World(st, map[0 := h]), Records(es))
         == World(st, map[0 := Handle(h.version, Replay(c, h.fields, es), h.pending + es)])
  {
    if es == [] {
      assert h.pending + es == h.pending;
    } else {
      var init, e := es[..|es| - 1], es[|es| - 1];
      assert Records(es)[..|es| - 1] == Records(init);
      ExecRecords(c, every, st, h, init);
      assert h.pending + init + [e] == h.pending + es;
    }
  }

  lemma AppendStep(c: AggregateClass, every: int, st: Store, h: Handle)
    requires every != 0 && Contiguous(st.rows) && h.version == |st.rows| && h.pending != []
    requires var n := |st.rows| + |h.pending|; n % every == 0 ==> Readable(c, h.fields)
    ensures var w := Step(c, every, World(st, map[0 := h]), Append(0, false));
      var n := |st.rows| + |h.pending|;
      && w.store == Store(st.rows + NewRows(|st.rows|, h.pending),
           if n % every == 0 then Some(Snapshot(Serialize(c, h.fields), n)) else st.snapshot)
      && w.handles.Keys == {0}
  {
    AppendAtEnd(c, every, st, h);
  }

  /** Recording `es` on a handle and appending it. */
  lemma RecordAndAppend(c: AggregateClass, every: int, st: Store, h: Handle, es: seq<Event>)
    requires every != 0 && Contiguous(st.rows) && h.version == |st.rows| && h.pending == [] && es != []
    requires var n := |st.rows| + |es|; n % every == 0 ==> Readable(c, Replay(c, h.fields, es))
    ensures var w := Exec(c, every, World(st, map[0 := h]), Records(es) + [Append(0, false)]);
      var n := |st.rows| + |es|;
      && w.store == Store(st.rows + NewRows(|st.rows|, es),
           if n % every == 0 then Some(Snapshot(Serialize(c, Replay(c, h.fields, es)), n)) else st.snapshot)
      && w.handles.Keys == {0}
  {
    ExecRecords(c, every, st, h, es);
    var h1 := Handle(h.version, Replay(c, h.fields, es), h.pending + es);
    ExecSplit(c, every, World(st, map[0 := h]), Records(es), [Append(0, false)]);
    assert h.pending + es == es;
    AppendStep(c, every, st, h1);
    ExecOne(c, every, World(st, map[0 := h1]), Append(0, false));
  }

  lemma FirstAppend(c: AggregateClass, every: int, es: seq<Event>) returns (ops: seq<Op>)
    requires every != 0 && Storable(c, every, es)
    ensures var w := Exec(c, every, INIT, ops);
      && w.store == Store(NewRows(0, es), if |es| % every == 0 then Some(Snapshot(Serialize(c, Made(c, es)), |es|)) else None)
      && w.handles.Keys == {0} && Contiguous(w.store.rows) && Log(w.store) == es
  {
    ops := [New(0)] + (Records(es) + [Append(0, false)]);
    ExecSplit(c, every, INIT, [New(0)], Records(es) + [Append(0, false)]);
    ExecOne(c, every, INIT, New(0));
    RecordAndAppend(c, every, Store([], None), Handle(0, Constructed(c), []), es);
    assert [] + NewRows(0, es) == NewRows(0, es);
    assert EventsOf(NewRows(0, es)) == es;
  }

  /** A snapshot at the end of the log that restores to something else than the replay of the log. */
  lemma UnfaithfulLoad(c: AggregateClass, st: Store, s: Fields)
    requires Contiguous(st.rows) && st.rows != [] && Readable(c, s)
    requires st.snapshot == Some(Snapshot(Serialize(c, s), |st.rows|)) && Serialize(c, s) != Current(c, Log(st))
    ensures Load(c, st) != FullReplay(c, st)
  {
    TailOfContiguous(st.rows, |st.rows|);
    RestoreKnown(c.declared, Serialize(c, s));
    assert RestoreFields(c.declared, Serialize(c, s)) == Serialize(c, s);
  }

  /** The aggregate that recorded everything itself is snapshotted with other public fields than the replay has. */
  lemma UnfaithfulFirst(c: AggregateClass, every: int, es: seq<Event>) returns (ops: seq<Op>)
    requires every != 0 && es != [] && |es| % every == 0
    requires Readable(c, Made(c, es)) && Serialize(c, Made(c, es)) != Current(c, es)
    ensures var st := Exec(c, every, INIT, ops).store; Load(c, st) != FullReplay(c, st)
  {
    ops := FirstAppend(c, every, es);
    UnfaithfulLoad(c, Exec(c, every, INIT, ops).store, Made(c, es));
  }

  /** An instance that was loaded from what was stored first. */
  lemma Reloaded(c: AggregateClass, every: int, es: seq<Event>) returns (ops: seq<Op>)
    requires every != 0 && Storable(c, every, es)
    requires |es| % every == 0 ==> Serialize(c, Made(c, es)) == Current(c, es)
    ensures var w := Exec(c, every, INIT, ops);
      && w.handles == map[0 := Handle(|es|, Current(c, es), [])]
      && Contiguous(w.store.rows) && Log(w.store) == es
  {
    var first := FirstAppend(c, every, es);
    var w := Exec(c, every, INIT, first);
    if |es| % every == 0 {
      RestoreKnown(c.declared, Serialize(c, Made(c, es)));
      assert Log(w.store)[..|es|] == es;
    }
    LoadIsFullReplay(c, w.store);
    ops := first + [Open(0)];
    ExecSplit(c, every, INIT, first, [Open(0)]);
    ExecOne(c, every, w, Open(0));
  }

  lemma ContinuedRun(c: AggregateClass, every: int, first: seq<Op>, h: Handle, es: seq<Event>)
    requires every != 0 && es != [] && Exec(c, every, INIT, first).handles == map[0 := h]
    requires var st := Exec(c, every, INIT, first).store;
      Contiguous(st.rows) && h.version == |st.rows| && h.pending == []
    requires (h.version + |es|) % every == 0 && Readable(c, Replay(c, h.fields, es))
    ensures Exec(c, every, INIT, first + (Records(es) + [Append(0, false)])).store
         == Store(Exec(c, every, INIT, first).store.rows + NewRows(h.version, es),
                  Some(Snapshot(Serialize(c, Replay(c, h.fields, es)), h.version + |es|)))
  {
    ExecSplit(c, every, INIT, first, Records(es) + [Append(0, false)]);
    RecordAndAppend(c, every, Exec(c, every, INIT, first).store, h, es);
  }

  /** A loaded instance records the rest of `es` and is snapshotted. */
  lemma ReloadedAppend(c: AggregateClass, every: int, es: seq<Event>, k: nat) returns (ops: seq<Op>)
    requires every != 0 && |es| % every == 0 && 0 < k < |es| && Storable(c, every, es[..k])
    requires k % every == 0 ==> Serialize(c, Made(c, es[..k])) == Current(c, es[..k])
    requires Readable(c, Current(c, es))
    ensures var st := Exec(c, every, INIT, ops).store;
      && Contiguous(st.rows) && Log(st) == es
      && st.snapshot == Some(Snapshot(Serialize(c, Current(c, es)), |es|))
  {
    var first := Reloaded(c, every, es[..k]);
    var w := Exec(c, every, INIT, first);
    ops := first + (Records(es[k..]) + [Append(0, false)]);
    ReplayFrom(c, es, k);
    assert |w.store.rows| == |Log(w.store)| == k;
    ContinuedRun(c, every, first, Handle(k, Current(c, es[..k]), []), es[k..]);
    LogAfter(w.store, es[..k], es[k..]);
    assert es[..k] + es[k..] == es;
  }

  /** A loaded instance is snapshotted with a field that a snapshot does not keep. */
  lemma UnfaithfulReload(c: AggregateClass, every: int, es: seq<Event>, k: nat) returns (ops: seq<Op>)
    requires every != 0 && |es| % every == 0 && 0 < k < |es| && Storable(c, every, es[..k])
    requires k % every == 0 ==> Serialize(c, Made(c, es[..k])) == Current(c, es[..k])
    requires Readable(c, Current(c, es)) && !(Current(c, es).Keys <= SnapshotNames(c.declared))
    ensures var st := Exec(c, every, INIT, ops).store; Load(c, st) != FullReplay(c, st)
  {
    ops := ReloadedAppend(c, every, es, k);
    assert Serialize(c, Current(c, es)).Keys <= SnapshotNames(c.declared);
    UnfaithfulLoad(c, Exec(c, every, INIT, ops).store, Current(c, es));
  }

  lemma LogAfter(st: Store, before: seq<Event>, added: seq<Event>)
    requires Contiguous(st.rows) && Log(st) == before
    ensures var rows := st.rows + NewRows(|st.rows|, added); Contiguous(rows) && EventsOf(rows) == before + added
  {
    var rows := st.rows + NewRows(|st.rows|, added);
    assert forall i :: 0 <= i < |st.rows| ==> EventsOf(rows)[i] == before[i];
  }

  lemma UnfaithfulRun(c: AggregateClass, every: int) returns (ops: seq<Op>)
    requires every != 0 && !SnapshotsFaithful(c, every)
    ensures var st := Exec(c, every, INIT, ops).store; Load(c, st) != FullReplay(c, st)
  {
    var es :| es != [] && |es| % every == 0 && !(
      && (Readable(c, Made(c, es)) ==> Serialize(c, Made(c, es)) == Current(c, es))
      && (Reloadable(c, every, es) && Readable(c, Current(c, es)) ==>
            Current(c, es).Keys <= SnapshotNames(c.declared)));
    if Readable(c, Made(c, es)) && Serialize(c, Made(c, es)) != Current(c, es) {
      ops := UnfaithfulFirst(c, every, es);
    } else {
      var k :| 0 < k < |es| && Storable(c, every, es[..k]);
      if k % every == 0 && Serialize(c, Made(c, es[..k])) != Current(c, es[..k]) {
        ops := UnfaithfulFirst(c, every, es[..k]);
      } else {
        ops := UnfaithfulReload(c, every, es, k);
      }
    }
  }

  /** In every run loading equals replaying the whole log if and only if snapshots of the class lose and add nothing. */
  lemma LoadEqualsReplayIff(c: AggregateClass, every: int)
    requires every != 0
    ensures (forall ops :: var st := Exec(c, every, INIT, ops).store; Load(c, st) == FullReplay(c, st))
        <==> SnapshotsFaithful(c, every)
  {
    if SnapshotsFaithful(c, every) {
      forall ops ensures var st := Exec(c, every, INIT, ops).store; Load(c, st) == FullReplay(c, st) {
        EveryRunWorldOk(c, every, ops);
        LoadIsFullReplay(c, Exec(c, every, INIT, ops).store);
      }
    } else {
      var ops := UnfaithfulRun(c, every);
      assert Load(c, Exec(c, every, INIT, ops).store) != FullReplay(c, Exec(c, every, INIT, ops).store);
    }
  }
}
