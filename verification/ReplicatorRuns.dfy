/** The replicator and the local relay, interleaved between the query, every send and the commit of a batch. */
module ReplicatorRuns {
  import opened Batches
  import opened Options
  import opened Replicator
  import opened Sorting

  /** A batch in flight: the rows selected, how many the remote broker acknowledged, and whether a send failed. */
  datatype Flight = Flight(rows: seq<Row>, sent: nat, stopped: bool)

  datatype World = World(outbox: seq<Row>, checkpoint: Checkpoint, remote: seq<Row>, flight: Option<Flight>)

  /** With a lost acknowledgement the remote broker keeps the message and the send raises. */
  datatype Verdict = Accepted | Refused | AckLost

  datatype Op =
    | Insert(row: Row)
    | MarkPublished(index: nat)
    | Select
    | Send(verdict: Verdict)
    | Commit(ok: bool)
    | Crash

  const START := World([], None, [], None)

  predicate Ended(f: Flight) {
    f.stopped || f.sent == |f.rows|
  }

  function SendStep(w: World, f: Flight, v: Verdict): World
    requires f.sent < |f.rows|
  {
    var remote := if v.Refused? then w.remote else w.remote + [f.rows[f.sent]];
    w.(remote := remote, flight := Some(if v.Accepted? then f.(sent := f.sent + 1) else f.(stopped := true)))
  }

  /** Operations that do not apply leave the world alone. */
  function Step(limit: nat, w: World, op: Op): World {
    match op
    case Insert(row) => w.(outbox := w.outbox + [row.(published := false)])
    case MarkPublished(i) =>
      if i < |w.outbox| then w.(outbox := w.outbox[i := w.outbox[i].(published := true)]) else w
    case Select =>
      if w.flight.Some? then w
      else w.(flight := Some(Flight(Take(Eligible(w.outbox, w.checkpoint), limit), 0, false)))
    case Send(v) =>
      if w.flight.None? || Ended(w.flight.value) || w.flight.value.sent >= |w.flight.value.rows| then w
      else SendStep(w, w.flight.value, v)
    case Commit(ok) =>
      if w.flight.None? || !Ended(w.flight.value) || w.flight.value.sent > |w.flight.value.rows| then w
      else
        var sent := w.flight.value.rows[..w.flight.value.sent];
        w.(checkpoint := if ok then Advance(w.checkpoint, sent) else w.checkpoint, flight := None)
    case Crash => w.(flight := None)
  }

  function Exec(limit: nat, w: World, ops: seq<Op>): World {
    if ops == [] then w else Step(limit, Exec(limit, w, ops[..|ops| - 1]), ops[|ops| - 1])
  }

  /** A row is inserted under a fresh sixteen-octet identifier. */
  predicate Proper(w: World, op: Op) {
    op.Insert? ==> |op.row.id| == 16 && forall i :: 0 <= i < |w.outbox| ==> w.outbox[i].id != op.row.id
  }

  predicate AllProper(limit: nat, w: World, ops: seq<Op>) {
    ops == [] ||
    (AllProper(limit, w, ops[..|ops| - 1]) && Proper(Exec(limit, w, ops[..|ops| - 1]), ops[|ops| - 1]))
  }

  // ---------------------------------------------------------------------
  // What every step keeps
  // ---------------------------------------------------------------------

  /** The selected rows are published rows beyond the checkpoint in key order, and the acknowledged ones arrived. */
  ghost predicate FlightOk(w: World, f: Flight) {
    && f.sent <= |f.rows|
    && Pairwise(Before(), f.rows)
    && (forall r :: r in f.rows ==> r in w.outbox && r.published && Beyond(r, w.checkpoint))
    && (forall i :: 0 <= i < f.sent ==> f.rows[i] in w.remote)
  }

  ghost predicate Ok(w: World) {
    && TableOk(w.outbox)
    && (forall r :: r in w.remote ==> r in w.outbox && r.published)
    && (w.flight.Some? ==> FlightOk(w, w.flight.value))
  }

  /** Published rows stay. */
  ghost predicate KeepsPublished(outbox: seq<Row>, outbox': seq<Row>) {
    |outbox| <= |outbox'| && forall i :: 0 <= i < |outbox| && outbox[i].published ==> outbox'[i] == outbox[i]
  }

  lemma PublishedStay(outbox: seq<Row>, outbox': seq<Row>, r: Row)
    requires KeepsPublished(outbox, outbox') && r in outbox && r.published
    ensures r in outbox'
  {
    var i :| 0 <= i < |outbox| && outbox[i] == r;
    assert outbox'[i] == r;
  }

  lemma OutboxStepOk(w: World, outbox': seq<Row>)
    requires Ok(w) && TableOk(outbox') && KeepsPublished(w.outbox, outbox')
    ensures Ok(w.(outbox := outbox'))
  {
    forall r | r in w.outbox && r.published ensures r in outbox' {
      PublishedStay(w.outbox, outbox', r);
    }
  }

  lemma SelectOk(limit: nat, w: World)
    requires Ok(w)
    ensures Ok(Step(limit, w, Select))
  {
    var all := Eligible(w.outbox, w.checkpoint);
    EligibleInOrder(w.outbox, w.checkpoint);
    assert forall r :: r in Take(all, limit) ==> r in all;
  }

  lemma SendOk(w: World, f: Flight, v: Verdict)
    requires Ok(w) && w.flight == Some(f) && f.sent < |f.rows|
    ensures Ok(SendStep(w, f, v))
  {
    assert f.rows[f.sent] in f.rows;
  }

  lemma StepOk(limit: nat, w: World, op: Op)
    requires Ok(w) && Proper(w, op)
    ensures Ok(Step(limit, w, op))
  {
    match op {
      case Insert(row) =>
        OutboxStepOk(w, w.outbox + [row.(published := false)]);
      case MarkPublished(i) =>
        if i < |w.outbox| {
          OutboxStepOk(w, w.outbox[i := w.outbox[i].(published := true)]);
        }
      case Select => SelectOk(limit, w);
      case Send(v) =>
        if w.flight.Some? && !Ended(w.flight.value) {
          SendOk(w, w.flight.value, v);
        }
      case Commit(ok) =>
      case Crash =>
    }
  }

  lemma {:induction false} EveryRunOk(limit: nat, w: World, ops: seq<Op>)
    requires Ok(w) && AllProper(limit, w, ops)
    ensures Ok(Exec(limit, w, ops))
  {
    if ops != [] {
      EveryRunOk(limit, w, ops[..|ops| - 1]);
      StepOk(limit, Exec(limit, w, ops[..|ops| - 1]), ops[|ops| - 1]);
    }
  }

  // ---------------------------------------------------------------------
  // Gaps
  // ---------------------------------------------------------------------

  /** Every published row up to the checkpoint has been forwarded. */
  ghost predicate NoGap(w: World) {
    forall r :: r in w.outbox && r.published && !Beyond(r, w.checkpoint) ==> r in w.remote
  }

  /** The rows the batch in flight may still put behind the checkpoint. */
  function Reach(w: World): seq<Row> {
    match w.flight
    case None => []
    case Some(f) => if f.stopped && f.sent <= |f.rows| then f.rows[..f.sent] else f.rows
  }

  /** A row that is neither forwarded nor about to be lies beyond the checkpoint and everything in reach. */
  ghost predicate Safe(w: World) {
    forall r :: r in w.outbox && r.published && r !in w.remote ==>
      Beyond(r, w.checkpoint) && (r in Reach(w) || forall x :: x in Reach(w) ==> KeyLess(x, r))
  }

  /**
   * What the local relay would have to observe: a row becomes published only beyond the stored checkpoint and beyond
   * every row the batch in flight may still put behind it.
   */
  predicate Guard(w: World, op: Op) {
    (op.MarkPublished? && op.index < |w.outbox| && !w.outbox[op.index].published) ==>
      && Beyond(w.outbox[op.index], w.checkpoint)
      && forall i :: 0 <= i < |Reach(w)| ==> KeyLess(Reach(w)[i], w.outbox[op.index])
  }

  lemma MarkSafeIff(w: World, i: nat)
    requires Ok(w) && Safe(w) && i < |w.outbox| && !w.outbox[i].published
    ensures Safe(w.(outbox := w.outbox[i := w.outbox[i].(published := true)])) <==> Guard(w, MarkPublished(i))
  {
    var row := w.outbox[i].(published := true);
    var outbox := w.outbox[i := row];
    assert outbox[i] == row;
    forall r | r in w.outbox && r.published ensures r != row {
      var j :| 0 <= j < |w.outbox| && w.outbox[j] == r;
      assert w.outbox[i].id == row.id;
    }
    forall r | r in outbox && r != row ensures r in w.outbox {
      var j :| 0 <= j < |outbox| && outbox[j] == r;
      assert w.outbox[j] == r;
    }
    assert row !in w.remote;
    assert row !in Reach(w);
    assert forall x :: KeyLess(x, row) <==> KeyLess(x, w.outbox[i]);
    assert Beyond(row, w.checkpoint) <==> Beyond(w.outbox[i], w.checkpoint);
  }

  lemma SelectSafe(limit: nat, w: World)
    requires Ok(w) && Safe(w) && w.flight.None?
    ensures Safe(Step(limit, w, Select))
  {
    var all := Eligible(w.outbox, w.checkpoint);
    var rows := Take(all, limit);
    EligibleInOrder(w.outbox, w.checkpoint);
    forall r, x | r in all && r !in rows && x in rows ensures KeyLess(x, r) {
      var j :| 0 <= j < |all| && all[j] == r;
      var i :| 0 <= i < |rows| && rows[i] == x;
      assert Before()(all[i], all[j]);
    }
  }

  /** Rows after the sent ones come after them in key order. */
  lemma UnsentAfterSent(f: Flight)
    requires Pairwise(Before(), f.rows) && f.sent <= |f.rows|
    ensures forall r, x :: r in f.rows && r !in f.rows[..f.sent] && x in f.rows[..f.sent] ==> KeyLess(x, r)
  {
    forall r, x | r in f.rows && r !in f.rows[..f.sent] && x in f.rows[..f.sent] ensures KeyLess(x, r) {
      var j :| 0 <= j < |f.rows| && f.rows[j] == r;
      var i :| 0 <= i < f.sent && f.rows[i] == x;
      assert Before()(f.rows[i], f.rows[j]);
    }
  }

  lemma SendSafe(w: World, f: Flight, v: Verdict)
    requires Ok(w) && Safe(w) && w.flight == Some(f) && !f.stopped && f.sent < |f.rows|
    ensures Safe(SendStep(w, f, v))
  {
    UnsentAfterSent(f);
    assert Reach(w) == f.rows;
    assert forall x :: x in f.rows[..f.sent] ==> x in f.rows;
  }

  lemma CommitSafe(w: World, f: Flight)
    requires Ok(w) && Safe(w) && w.flight == Some(f) && Ended(f)
    ensures Safe(w.(checkpoint := Advance(w.checkpoint, f.rows[..f.sent]), flight := None))
  {
    var sent := f.rows[..f.sent];
    assert Reach(w) == sent;
    if sent != [] {
      var last := sent[|sent| - 1];
      forall r | r in w.outbox && r.published && r !in w.remote ensures Beyond(r, Some(MarkOf(last))) {
        assert r !in sent;
        BeyondMark(r, last);
      }
    }
  }

  /** From a safe state, only a publication that its guard forbids is unsafe. */
  lemma StepSafeIff(limit: nat, w: World, op: Op)
    requires Ok(w) && Safe(w) && Proper(w, op)
    ensures Safe(Step(limit, w, op)) <==> Guard(w, op)
  {
    match op {
      case Insert(row) =>
      case MarkPublished(i) =>
        if i < |w.outbox| {
          if w.outbox[i].published {
            assert w.outbox[i := w.outbox[i].(published := true)] == w.outbox;
          } else {
            MarkSafeIff(w, i);
          }
        }
      case Select =>
        if w.flight.None? {
          SelectSafe(limit, w);
        }
      case Send(v) =>
        if w.flight.Some? && !Ended(w.flight.value) {
          SendSafe(w, w.flight.value, v);
        }
      case Commit(ok) =>
        if w.flight.Some? && Ended(w.flight.value) {
          CommitSafe(w, w.flight.value);
        }
      case Crash =>
    }
  }

  // What the replicator does on its own --------------------------------------

  predicate Own(ops: seq<Op>) {
    forall op :: op in ops ==> !op.Insert? && !op.MarkPublished?
  }

  /** Whatever the replicator does before anything else is published, no gap shows. */
  ghost predicate NoGapAhead(limit: nat, w: World) {
    forall own :: Own(own) ==> NoGap(Exec(limit, w, own))
  }

  lemma {:induction false} OwnStepsStaySafe(limit: nat, w: World, own: seq<Op>)
    requires Ok(w) && Safe(w) && Own(own)
    ensures Ok(Exec(limit, w, own)) && Safe(Exec(limit, w, own))
  {
    if own != [] {
      var init, op := own[..|own| - 1], own[|own| - 1];
      assert op in own;
      OwnStepsStaySafe(limit, w, init);
      StepOk(limit, Exec(limit, w, init), op);
      StepSafeIff(limit, Exec(limit, w, init), op);
    }
  }

  function Sends(n: nat): seq<Op> {
    seq(n, i => Send(Accepted))
  }

  lemma ExecSnoc(limit: nat, w: World, ops: seq<Op>, op: Op)
    ensures Exec(limit, w, ops + [op]) == Step(limit, Exec(limit, w, ops), op)
  {
    assert (ops + [op])[..|ops|] == ops;
  }

  /** `w` after `n` more messages of its batch were acknowledged. */
  function AfterSends(w: World, f: Flight, n: nat): World
    requires f.sent + n <= |f.rows|
  {
    World(w.outbox, w.checkpoint, w.remote + f.rows[f.sent..f.sent + n], Some(f.(sent := f.sent + n)))
  }

  lemma OneMoreSend(limit: nat, w: World, f: Flight, n: nat)
    requires !f.stopped && f.sent + n < |f.rows|
    ensures Step(limit, AfterSends(w, f, n), Send(Accepted)) == AfterSends(w, f, n + 1)
  {
    assert f.rows[f.sent..f.sent + n] + [f.rows[f.sent + n]] == f.rows[f.sent..f.sent + n + 1];
  }

  lemma {:induction false} SendsRun(limit: nat, w: World, f: Flight, n: nat)
    requires w.flight == Some(f) && !f.stopped && f.sent + n <= |f.rows|
    ensures Exec(limit, w, Sends(n)) == AfterSends(w, f, n)
  {
    if n == 0 {
      assert w.remote + f.rows[f.sent..f.sent] == w.remote;
    } else {
      SendsRun(limit, w, f, n - 1);
      OneMoreSend(limit, w, f, n - 1);
      assert Sends(n)[..n - 1] == Sends(n - 1);
    }
  }

  /** The world after sending what is left of the batch and committing. */
  function Completed(w: World, f: Flight): World
    requires f.sent <= |f.rows|
  {
    if f.stopped then World(w.outbox, Advance(w.checkpoint, f.rows[..f.sent]), w.remote, None)
    else World(w.outbox, Advance(w.checkpoint, f.rows), w.remote + f.rows[f.sent..], None)
  }

  lemma CompletionRun(limit: nat, w: World, f: Flight) returns (own: seq<Op>)
    requires w.flight == Some(f) && f.sent <= |f.rows|
    ensures Own(own) && Exec(limit, w, own) == Completed(w, f)
  {
    if f.stopped {
      own := [Commit(true)];
      assert own[..0] == [];
    } else {
      var n := |f.rows| - f.sent;
      own := Sends(n) + [Commit(true)];
      SendsRun(limit, w, f, n);
      ExecSnoc(limit, w, Sends(n), Commit(true));
      assert f.rows[..|f.rows|] == f.rows && f.rows[f.sent..|f.rows|] == f.rows[f.sent..];
    }
  }

  lemma BehindTheLast(rows: seq<Row>, r: Row)
    requires Pairwise(Before(), rows) && rows != [] && KeyLess(rows[|rows| - 1], r)
    ensures forall x :: x in rows ==> KeyLess(x, r)
  {
    forall i | 0 <= i < |rows| ensures KeyLess(rows[i], r) {
      if i < |rows| - 1 {
        assert Before()(rows[i], rows[|rows| - 1]);
        KeyTransitive(rows[i], rows[|rows| - 1], r);
      }
    }
  }

  lemma NotAfterReach(reach: seq<Row>, cp: Checkpoint, r: Row, x: Row)
    requires Pairwise(Before(), reach) && x in reach && !KeyLess(x, r) && |r.id| == 16
    requires forall y :: y in reach ==> |y.id| == 16
    ensures !Beyond(r, Advance(cp, reach))
  {
    var last := reach[|reach| - 1];
    BeyondMark(r, last);
    if KeyLess(last, r) {
      BehindTheLast(reach, r);
    }
  }

  lemma CompletedHasGap(w: World, f: Flight, r: Row, x: Row)
    requires Ok(w) && w.flight == Some(f) && r in w.outbox && r.published && r !in w.remote
    requires r !in Reach(w) && x in Reach(w) && !KeyLess(x, r)
    ensures !NoGap(Completed(w, f))
  {
    var reach, w' := Reach(w), Completed(w, f);
    assert reach == f.rows || reach == f.rows[..f.sent];
    forall y | y in reach ensures y in f.rows {
    }
    NotAfterReach(reach, w.checkpoint, r, x);
    assert r in w'.outbox && !Beyond(r, w'.checkpoint) && r !in w'.remote;
  }

  lemma UnsafeHasGapAhead(limit: nat, w: World, r: Row) returns (own: seq<Op>)
    requires Ok(w) && r in w.outbox && r.published && r !in w.remote
    requires !Beyond(r, w.checkpoint) || (r !in Reach(w) && exists x :: x in Reach(w) && !KeyLess(x, r))
    ensures Own(own) && !NoGap(Exec(limit, w, own))
  {
    if Beyond(r, w.checkpoint) {
      var x :| x in Reach(w) && !KeyLess(x, r);
      CompletedHasGap(w, w.flight.value, r, x);
      own := CompletionRun(limit, w, w.flight.value);
    } else {
      own := [];
    }
  }

  /** A state is safe exactly when nothing the replicator does alone can show a gap. */
  lemma SafeIffNoGapAhead(limit: nat, w: World)
    requires Ok(w)
    ensures Safe(w) <==> NoGapAhead(limit, w)
  {
    if Safe(w) {
      forall own | Own(own) ensures NoGap(Exec(limit, w, own)) {
        OwnStepsStaySafe(limit, w, own);
      }
    } else {
      var r :| r in w.outbox && r.published && r !in w.remote
        && (!Beyond(r, w.checkpoint) || (r !in Reach(w) && exists x :: x in Reach(w) && !KeyLess(x, r)));
      var own := UnsafeHasGapAhead(limit, w, r);
    }
  }

  ghost predicate NeverGaps(limit: nat, ops: seq<Op>) {
    NoGapAhead(limit, Exec(limit, START, ops)) && (ops != [] ==> NeverGaps(limit, ops[..|ops| - 1]))
  }

  predicate AlwaysGuarded(limit: nat, ops: seq<Op>) {
    ops == [] ||
    (AlwaysGuarded(limit, ops[..|ops| - 1]) && Guard(Exec(limit, START, ops[..|ops| - 1]), ops[|ops| - 1]))
  }

  /**
   * Whatever sends fail, processes die and commits are lost, no published row up to the checkpoint is ever missing at
   * the remote broker, nor can the batch in flight bring that about, exactly when every row becomes published beyond
   * the stored checkpoint and beyond what the batch in flight may still put behind it.
   */
  lemma {:induction false} NeverGapsIff(limit: nat, ops: seq<Op>)
    requires AllProper(limit, START, ops)
    ensures NeverGaps(limit, ops) <==> AlwaysGuarded(limit, ops)
  {
    EveryRunOk(limit, START, ops);
    SafeIffNoGapAhead(limit, Exec(limit, START, ops));
    if ops != [] {
      var init, op := ops[..|ops| - 1], ops[|ops| - 1];
      NeverGapsIff(limit, init);
      EveryRunOk(limit, START, init);
      SafeIffNoGapAhead(limit, Exec(limit, START, init));
      if Safe(Exec(limit, START, init)) {
        StepSafeIff(limit, Exec(limit, START, init), op);
      }
    }
  }

  // In-order publication -------------------------------------------------------

  /** A row becomes published after every published row of the outbox in key order. */
  predicate InOrder(w: World, op: Op) {
    (op.MarkPublished? && op.index < |w.outbox| && !w.outbox[op.index].published) ==>
      forall i :: 0 <= i < |w.outbox| && w.outbox[i].published ==> KeyLess(w.outbox[i], w.outbox[op.index])
  }

  /** The checkpoint is the mark of a published row. */
  ghost predicate MarksPublished(outbox: seq<Row>, cp: Checkpoint) {
    cp.Some? ==> exists i :: 0 <= i < |outbox| && outbox[i].published && cp == Some(MarkOf(outbox[i]))
  }

  lemma KeepsMark(outbox: seq<Row>, outbox': seq<Row>, cp: Checkpoint)
    requires MarksPublished(outbox, cp) && KeepsPublished(outbox, outbox')
    ensures MarksPublished(outbox', cp)
  {
    if cp.Some? {
      var i :| 0 <= i < |outbox| && outbox[i].published && cp == Some(MarkOf(outbox[i]));
      assert outbox'[i] == outbox[i];
    }
  }

  lemma AdvanceMarks(outbox: seq<Row>, cp: Checkpoint, rows: seq<Row>)
    requires MarksPublished(outbox, cp) && forall r :: r in rows ==> r in outbox && r.published
    ensures MarksPublished(outbox, Advance(cp, rows))
  {
    if rows != [] {
      assert rows[|rows| - 1] in rows;
      var i :| 0 <= i < |outbox| && outbox[i] == rows[|rows| - 1];
    }
  }

  lemma StepMarksPublished(limit: nat, w: World, op: Op)
    requires Ok(w) && MarksPublished(w.outbox, w.checkpoint)
    ensures MarksPublished(Step(limit, w, op).outbox, Step(limit, w, op).checkpoint)
  {
    KeepsMark(w.outbox, Step(limit, w, op).outbox, w.checkpoint);
    if op.Commit? && w.flight.Some? && Ended(w.flight.value) {
      AdvanceMarks(w.outbox, w.checkpoint, w.flight.value.rows[..w.flight.value.sent]);
    }
  }

  lemma InOrderIsGuarded(w: World, i: nat)
    requires Ok(w) && MarksPublished(w.outbox, w.checkpoint) && InOrder(w, MarkPublished(i))
    ensures Guard(w, MarkPublished(i))
  {
    if i < |w.outbox| && !w.outbox[i].published {
      if w.checkpoint.Some? {
        var k :| 0 <= k < |w.outbox| && w.outbox[k].published && w.checkpoint == Some(MarkOf(w.outbox[k]));
        BeyondMark(w.outbox[i], w.outbox[k]);
      }
      forall j | 0 <= j < |Reach(w)| ensures KeyLess(Reach(w)[j], w.outbox[i]) {
        assert Reach(w)[j] in w.flight.value.rows;
        var k :| 0 <= k < |w.outbox| && w.outbox[k] == Reach(w)[j];
      }
    }
  }

  predicate AllInOrder(limit: nat, ops: seq<Op>) {
    ops == [] ||
    (AllInOrder(limit, ops[..|ops| - 1]) && InOrder(Exec(limit, START, ops[..|ops| - 1]), ops[|ops| - 1]))
  }

  /** If rows become published in key order, the checkpoint always marks a fully forwarded prefix of that order. */
  lemma {:induction false} InOrderNeverGaps(limit: nat, ops: seq<Op>)
    requires AllProper(limit, START, ops) && AllInOrder(limit, ops)
    ensures AlwaysGuarded(limit, ops) && NeverGaps(limit, ops)
    ensures MarksPublished(Exec(limit, START, ops).outbox, Exec(limit, START, ops).checkpoint)
  {
    if ops != [] {
      var init, op := ops[..|ops| - 1], ops[|ops| - 1];
      InOrderNeverGaps(limit, init);
      EveryRunOk(limit, START, init);
      StepMarksPublished(limit, Exec(limit, START, init), op);
      if op.MarkPublished? {
        InOrderIsGuarded(Exec(limit, START, init), op.index);
      }
    }
    NeverGapsIff(limit, ops);
  }

  /** A published row the checkpoint has passed is never forwarded any more. */
  lemma {:induction false} GapIsForever(limit: nat, w: World, ops: seq<Op>, r: Row)
    requires Ok(w) && AllProper(limit, w, ops)
    requires |r.id| == 16 && !Beyond(r, w.checkpoint) && r !in w.remote
    ensures !Beyond(r, Exec(limit, w, ops).checkpoint) && r !in Exec(limit, w, ops).remote
  {
    if ops != [] {
      var init, op := ops[..|ops| - 1], ops[|ops| - 1];
      var v := Exec(limit, w, init);
      GapIsForever(limit, w, init, r);
      EveryRunOk(limit, w, init);
      if v.flight.Some? && Ended(v.flight.value) {
        StaysBehind(r, v.checkpoint, v.flight.value.rows[..v.flight.value.sent]);
      }
    }
  }

  lemma StaysBehind(r: Row, cp: Checkpoint, rows: seq<Row>)
    requires |r.id| == 16 && !Beyond(r, cp)
    requires forall x :: x in rows ==> |x.id| == 16 && Beyond(x, cp)
    ensures !Beyond(r, Advance(cp, rows))
  {
    if rows != [] {
      var last := rows[|rows| - 1];
      assert last in rows;
      BeyondMark(r, last);
      if KeyLess(last, r) {
        BeyondUp(r, last, cp);
      }
    }
  }

  // ---------------------------------------------------------------------
  // Repeats and progress
  // ---------------------------------------------------------------------

  lemma SentBehindMark(f: Flight, r: Row)
    requires Pairwise(Before(), f.rows) && f.sent <= |f.rows| && r in f.rows[..f.sent] && |r.id| == 16
    requires forall x :: x in f.rows ==> |x.id| == 16
    ensures f.sent > 0 && !Beyond(r, Some(MarkOf(f.rows[f.sent - 1])))
  {
    var j :| 0 <= j < f.sent && f.rows[j] == r;
    AfterIndexIff(f.rows, f.sent, j);
    BeyondMark(r, f.rows[f.sent - 1]);
  }

  lemma CommittedAreBehind(w: World, f: Flight)
    requires Ok(w) && w.flight == Some(f)
    ensures forall r :: r in f.rows[..f.sent] ==> !Beyond(r, Advance(w.checkpoint, f.rows[..f.sent]))
  {
    forall r | r in f.rows[..f.sent] ensures !Beyond(r, Advance(w.checkpoint, f.rows[..f.sent])) {
      assert forall x :: x in f.rows ==> x in w.outbox;
      SentBehindMark(f, r);
    }
  }

  /** What a batch had acknowledged is selected again exactly when its commit is lost. */
  lemma ResendsIff(limit: nat, w: World, f: Flight, ok: bool)
    requires Ok(w) && w.flight == Some(f) && Ended(f)
    ensures var w' := Step(limit, w, Commit(ok));
      (exists r :: r in f.rows[..f.sent] && r in Eligible(w'.outbox, w'.checkpoint)) <==> f.sent > 0 && !ok
  {
    CommittedAreBehind(w, f);
    EligibleInOrder(w.outbox, Step(limit, w, Commit(ok)).checkpoint);
    if f.sent > 0 {
      assert f.rows[0] in f.rows && f.rows[..f.sent][0] in f.rows[..f.sent];
    }
  }

  /** A world between batches after `rows` went out. */
  function Forward(w: World, rows: seq<Row>, ok: bool): World {
    World(w.outbox, if ok then Advance(w.checkpoint, rows) else w.checkpoint, w.remote + rows, None)
  }

  /** The steps of an undisturbed batch of which the remote broker accepts `n` messages. */
  function BatchOps(n: nat, refused: bool, ok: bool): seq<Op> {
    [Select] + (Sends(n) + (if refused then [Send(Refused)] else [])) + [Commit(ok)]
  }

  lemma {:induction false} ExecSplit(limit: nat, w: World, a: seq<Op>, b: seq<Op>)
    ensures Exec(limit, w, a + b) == Exec(limit, Exec(limit, w, a), b)
  {
    if b == [] {
      assert a + b == a;
    } else {
      assert (a + b)[..|a + b| - 1] == a + b[..|b| - 1];
      ExecSplit(limit, w, a, b[..|b| - 1]);
    }
  }

  lemma SendsThenRefused(limit: nat, w: World, f: Flight, n: nat)
    requires w.flight == Some(f) && !f.stopped && f.sent == 0 && n <= |f.rows|
    ensures Exec(limit, w, Sends(n) + (if n < |f.rows| then [Send(Refused)] else []))
         == World(w.outbox, w.checkpoint, w.remote + f.rows[..n], Some(Flight(f.rows, n, n < |f.rows|)))
  {
    SendsRun(limit, w, f, n);
    assert f.rows[0..n] == f.rows[..n];
    if n < |f.rows| {
      ExecSnoc(limit, w, Sends(n), Send(Refused));
    } else {
      assert Sends(n) + [] == Sends(n);
    }
  }

  /** The steps of an undisturbed batch add up to what `ProcessOneBatch` promises. */
  lemma BatchIsSteps(limit: nat, w: World, sent: nat, ok: bool)
    requires w.flight.None?
    ensures var rows := Take(Eligible(w.outbox, w.checkpoint), limit);
      Exec(limit, w, BatchOps(Min(sent, |rows|), sent < |rows|, ok)) == Forward(w, Take(rows, sent), ok)
  {
    var rows := Take(Eligible(w.outbox, w.checkpoint), limit);
    var n := Min(sent, |rows|);
    var selected := w.(flight := Some(Flight(rows, 0, false)));
    var middle := Sends(n) + (if n < |rows| then [Send(Refused)] else []);
    assert [Select][..0] == [];
    assert Exec(limit, w, [Select]) == selected;
    ExecSplit(limit, w, [Select], middle);
    SendsThenRefused(limit, selected, Flight(rows, 0, false), n);
    ExecSnoc(limit, w, [Select] + middle, Commit(ok));
    assert rows[..n] == Take(rows, sent);
  }

  /** One undisturbed batch. */
  function FullBatch(limit: nat): World -> World {
    (w: World) => Forward(w, Take(Eligible(w.outbox, w.checkpoint), limit), true)
  }

  /** Between two batches, with a sound table. */
  ghost predicate Idle(w: World) {
    Ok(w) && w.flight.None?
  }

  lemma RestMembers(w: World, all: seq<Row>, n: nat, r: Row)
    requires Ok(w) && 0 < n <= |all| && Pairwise(Before(), all)
    requires forall r :: r in all <==> r in w.outbox && r.published && Beyond(r, w.checkpoint)
    ensures r in all[n..] <==> r in w.outbox && r.published && Beyond(r, Some(MarkOf(all[n - 1])))
  {
    var last := all[n - 1];
    assert last in all;
    if r in all[n..] {
      var j :| n <= j < |all| && all[j] == r;
      assert r in all;
      AfterIndexIff(all, n, j);
      BeyondMark(r, last);
    }
    if r in w.outbox && r.published && Beyond(r, Some(MarkOf(last))) {
      BeyondMark(r, last);
      BeyondUp(r, last, w.checkpoint);
      var j :| 0 <= j < |all| && all[j] == r;
      AfterIndexIff(all, n, j);
      assert all[n..][j - n] == r;
    }
  }

  /** A committed batch removes exactly what it forwarded from what is left. */
  lemma RestAfterForward(w: World, n: nat)
    requires Ok(w) && n <= |Eligible(w.outbox, w.checkpoint)|
    ensures var all := Eligible(w.outbox, w.checkpoint);
      Eligible(w.outbox, Advance(w.checkpoint, all[..n])) == all[n..]
  {
    var all := Eligible(w.outbox, w.checkpoint);
    EligibleInOrder(w.outbox, w.checkpoint);
    if n > 0 {
      var rest := Eligible(w.outbox, Some(MarkOf(all[n - 1])));
      EligibleInOrder(w.outbox, Some(MarkOf(all[n - 1])));
      KeyAsymmetric();
      forall r ensures r in rest <==> r in all[n..] {
        RestMembers(w, all, n, r);
      }
      StrictOrderMembers(Before(), rest, all[n..]);
    }
  }

  /** `w'` is `w` after the first `n` rows of `all` went out. */
  ghost predicate Drained(w: World, w': World, all: seq<Row>, n: nat) {
    && n <= |all| && w'.outbox == w.outbox
    && w'.remote == w.remote + all[..n]
    && Eligible(w'.outbox, w'.checkpoint) == all[n..]
  }

  lemma Slices<T>(all: seq<T>, done: nat, n: nat)
    requires done <= n <= |all|
    ensures all[done..][..n - done] == all[done..n]
    ensures all[..done] + all[done..n] == all[..n]
    ensures all[done..][n - done..] == all[n..]
  {
  }

  lemma ForwardDrains(w: World, before: World, all: seq<Row>, done: nat, n: nat)
    requires Drained(w, before, all, done) && done <= n <= |all|
    requires Eligible(before.outbox, Advance(before.checkpoint, all[done..n])) == all[n..]
    ensures Drained(w, Forward(before, all[done..n], true), all, n)
  {
    Slices(all, done, n);
  }

  lemma FullBatchForwards(limit: nat, w: World, all: seq<Row>, done: nat, n: nat)
    requires done <= |all| && n == done + Min(limit, |all| - done)
    requires Eligible(w.outbox, w.checkpoint) == all[done..]
    ensures FullBatch(limit)(w) == Forward(w, all[done..n], true)
  {
    Slices(all, done, n);
    assert Take(all[done..], limit) == all[done..n];
  }

  lemma RestAfterSlice(w: World, all: seq<Row>, done: nat, n: nat)
    requires Ok(w) && done <= n <= |all|
    requires Eligible(w.outbox, w.checkpoint) == all[done..]
    ensures Eligible(w.outbox, Advance(w.checkpoint, all[done..n])) == all[n..]
  {
    RestAfterForward(w, n - done);
    Slices(all, done, n);
  }

  lemma FullBatchIdle(limit: nat, w: World)
    requires Idle(w)
    ensures Idle(FullBatch(limit)(w))
  {
    EligibleInOrder(w.outbox, w.checkpoint);
    assert forall r :: r in Take(Eligible(w.outbox, w.checkpoint), limit) ==> r in Eligible(w.outbox, w.checkpoint);
  }

  lemma DrainStep(limit: nat, w: World, before: World, all: seq<Row>, done: nat, n: nat) returns (after: World)
    requires Idle(before) && Drained(w, before, all, done) && n == done + Min(limit, |all| - done)
    ensures after == FullBatch(limit)(before) && Drained(w, after, all, n)
  {
    after := Forward(before, all[done..n], true);
    FullBatchForwards(limit, before, all, done, n);
    RestAfterSlice(before, all, done, n);
    ForwardDrains(w, before, all, done, n);
  }

  ghost predicate IdleDrained(w: World, w': World, all: seq<Row>, n: nat) {
    Idle(w') && Drained(w, w', all, n)
  }

  lemma DrainsOn(limit: nat, w: World, all: seq<Row>)
    ensures forall v, n: nat :: IdleDrained(w, v, all, n) && n <= |all| ==>
      IdleDrained(w, FullBatch(limit)(v), all, n + Min(limit, |all| - n))
  {
    forall v, n: nat | IdleDrained(w, v, all, n)
      ensures IdleDrained(w, FullBatch(limit)(v), all, n + Min(limit, |all| - n))
    {
      FullBatchIdle(limit, v);
      var after := DrainStep(limit, w, v, all, n, n + Min(limit, |all| - n));
    }
  }

  lemma DrainFrom(limit: nat, w: World, all: seq<Row>, k: nat)
    requires IdleDrained(w, w, all, 0)
    ensures IdleDrained(w, Iterate(FullBatch(limit), w, k), all, Held(limit, |all|, k))
  {
    DrainsOn(limit, w, all);
    IterateTakes(FullBatch(limit), (v, n: nat) => IdleDrained(w, v, all, n), limit, |all|, w, k);
  }

  /** Without new rows, `k` batches forward the next `k * limit` rows, once each and in key order. */
  lemma DrainForwards(limit: nat, w: World, k: nat)
    requires Idle(w)
    ensures var all := Eligible(w.outbox, w.checkpoint);
      && Pairwise(Before(), all)
      && IdleDrained(w, Iterate(FullBatch(limit), w, k), all, Held(limit, |all|, k))
  {
    EligibleInOrder(w.outbox, w.checkpoint);
    DrainFrom(limit, w, Eligible(w.outbox, w.checkpoint), k);
  }
}
