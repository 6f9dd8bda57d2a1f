/** One projection over a growing log: any number of batches overlap, and appends fall between a query and its checkpoint update. */
module ProjectionRuns {
  import opened Batches
  import opened Options
  import opened Projections

  /** A batch in flight: the rows selected, whether a rebuild selected them, and the checkpoint they were selected after. */
  datatype Flight<E> = Flight(rows: seq<Row<E>>, rebuild: bool, from: nat)

  /**
   * `applied` lists the rows applied since the last rebuild, in order; the read model commits with the checkpoint.
   * Every worker has at most one batch in flight, and nothing keeps two workers apart.
   */
  datatype World<E, M> =
    World(log: seq<Row<E>>, model: M, checkpoint: nat, applied: seq<Row<E>>, flights: map<nat, Flight<E>>)

  datatype Op<E> =
    | Append(row: Row<E>)
    | Select(worker: nat, rebuild: bool)
    | Finish(worker: nat)
    | Abort(worker: nat)

  datatype Config<!E, !M> = Config(apply: (M, E) -> M, empty: M, limit: nat)

  /** What a batch is applied to: for a rebuild the cleared model and checkpoint. */
  function Base<E, M>(cfg: Config<E, M>, w: World<E, M>, rebuild: bool): World<E, M> {
    if rebuild then w.(model := cfg.empty, checkpoint := 0, applied := []) else w
  }

  function ApplyBatch<E, M>(cfg: Config<E, M>, w: World<E, M>, batch: seq<Row<E>>): World<E, M> {
    w.(model := Fold(cfg.apply, w.model, batch), checkpoint := NextCheckpoint(batch, w.checkpoint), applied := w.applied + batch)
  }

  function Selected<E, M>(cfg: Config<E, M>, w: World<E, M>, rebuild: bool): Flight<E> {
    var from := Base(cfg, w, rebuild).checkpoint;
    Flight(Batch(w.log, from, cfg.limit), rebuild, from)
  }

  function Finished<E, M>(cfg: Config<E, M>, w: World<E, M>, f: Flight<E>): World<E, M> {
    ApplyBatch(cfg, Base(cfg, w, f.rebuild), f.rows)
  }

  /** Operations that do not apply leave the world alone. */
  function Step<E, M>(cfg: Config<E, M>, w: World<E, M>, op: Op<E>): World<E, M> {
    match op
    case Append(row) => w.(log := w.log + [row])
    case Select(k, rebuild) =>
      if k in w.flights then w else w.(flights := w.flights[k := Selected(cfg, w, rebuild)])
    case Finish(k) =>
      if k in w.flights then Finished(cfg, w, w.flights[k]).(flights := w.flights - {k}) else w
    case Abort(k) => w.(flights := w.flights - {k})
  }

  function Exec<E, M>(cfg: Config<E, M>, w: World<E, M>, ops: seq<Op<E>>): World<E, M> {
    if ops == [] then w else Step(cfg, Exec(cfg, w, ops[..|ops| - 1]), ops[|ops| - 1])
  }

  function Init<E, M>(cfg: Config<E, M>): World<E, M> {
    World([], cfg.empty, 0, [], map[])
  }

  // ---------------------------------------------------------------------
  // Arbitrary logs
  // ---------------------------------------------------------------------

  /** Rows are appended under fresh ids, with sequences from 1. */
  ghost predicate FreshRows<E>(ops: seq<Op<E>>) {
    && (forall i, j :: 0 <= i < j < |ops| && ops[i].Append? && ops[j].Append? ==> ops[i].row.id != ops[j].row.id)
    && (forall i :: 0 <= i < |ops| && ops[i].Append? ==> ops[i].row.sequence >= 1)
  }

  /** Different rows of the log after `from` and none after the checkpoint they lead to. */
  ghost predicate FlightOk<E>(log: seq<Row<E>>, f: Flight<E>) {
    && DistinctIds(f.rows)
    && (f.rebuild ==> f.from == 0)
    && f.from <= NextCheckpoint(f.rows, f.from)
    && forall r :: r in f.rows ==> r in log && f.from < r.sequence <= NextCheckpoint(f.rows, f.from)
  }

  ghost predicate WorldOk<E, M>(w: World<E, M>) {
    && DistinctIds(w.log)
    && (forall i :: 0 <= i < |w.log| ==> w.log[i].sequence >= 1)
    && (forall r :: r in w.applied ==> r in w.log)
    && (forall k :: k in w.flights ==> FlightOk(w.log, w.flights[k]))
  }

  /** An appended row is new to the log. */
  ghost predicate Proper<E, M>(w: World<E, M>, op: Op<E>) {
    op.Append? ==> op.row.sequence >= 1 && forall i :: 0 <= i < |w.log| ==> w.log[i].id != op.row.id
  }

  lemma StepOk<E(!new), M>(cfg: Config<E, M>, w: World<E, M>, op: Op<E>)
    requires WorldOk(w) && Proper(w, op)
    ensures WorldOk(Step(cfg, w, op))
  {
    match op {
      case Append(row) =>
      case Select(k, rebuild) => BatchFacts(w.log, Base(cfg, w, rebuild).checkpoint, cfg.limit);
      case Finish(k) =>
      case Abort(k) =>
    }
  }

  /** The log holds exactly the appended rows. */
  lemma {:induction false} LogIsAppended<E, M>(cfg: Config<E, M>, ops: seq<Op<E>>, r: Row<E>)
    requires r in Exec(cfg, Init(cfg), ops).log
    ensures exists i :: 0 <= i < |ops| && ops[i] == Append(r)
  {
    var init, op := ops[..|ops| - 1], ops[|ops| - 1];
    if op == Append(r) {
      assert ops[|ops| - 1] == Append(r);
    } else {
      LogIsAppended(cfg, init, r);
      var i :| 0 <= i < |init| && init[i] == Append(r);
      assert ops[i] == Append(r);
    }
  }

  lemma NextIsProper<E, M>(cfg: Config<E, M>, ops: seq<Op<E>>)
    requires ops != [] && FreshRows(ops)
    ensures Proper(Exec(cfg, Init(cfg), ops[..|ops| - 1]), ops[|ops| - 1])
    ensures FreshRows(ops[..|ops| - 1])
  {
    var init, op := ops[..|ops| - 1], ops[|ops| - 1];
    var log := Exec(cfg, Init(cfg), init).log;
    forall i | 0 <= i < |log| ensures op.Append? ==> log[i].id != op.row.id {
      LogIsAppended(cfg, init, log[i]);
      var j :| 0 <= j < |init| && init[j] == Append(log[i]);
      assert ops[j] == Append(log[i]) && ops[|ops| - 1] == op;
    }
  }

  lemma {:induction false} EveryRunOk<E(!new), M>(cfg: Config<E, M>, ops: seq<Op<E>>)
    requires FreshRows(ops)
    ensures WorldOk(Exec(cfg, Init(cfg), ops))
  {
    if ops != [] {
      NextIsProper(cfg, ops);
      EveryRunOk(cfg, ops[..|ops| - 1]);
      StepOk(cfg, Exec(cfg, Init(cfg), ops[..|ops| - 1]), ops[|ops| - 1]);
    }
  }

  /** The rows applied are those up to the checkpoint, each of them once. */
  ghost predicate ExactlyOnce<E, M>(w: World<E, M>) {
    DistinctIds(w.applied) && forall r :: r in w.log ==> (r in w.applied <==> r.sequence <= w.checkpoint)
  }

  /** The batch lies after the checkpoint it will be applied at: none of its rows was applied meanwhile. */
  predicate Ahead<E(==), M>(cfg: Config<E, M>, w: World<E, M>, f: Flight<E>) {
    forall i :: 0 <= i < |f.rows| ==> f.rows[i].sequence > Base(cfg, w, f.rebuild).checkpoint
  }

  /** The same query, repeated now, has no further row up to the end of the batch. */
  predicate Complete<E(==), M>(cfg: Config<E, M>, w: World<E, M>, f: Flight<E>) {
    var from := Base(cfg, w, f.rebuild).checkpoint;
    forall i :: 0 <= i < |w.log| && from < w.log[i].sequence <= NextCheckpoint(f.rows, from) ==> w.log[i] in f.rows
  }

  /** What can be checked before an operation that must neither skip a row nor apply one twice. */
  predicate Guard<E(==), M>(cfg: Config<E, M>, w: World<E, M>, op: Op<E>) {
    match op
    case Append(row) => row.sequence > w.checkpoint
    case Select(_, _) => true
    case Finish(k) => k in w.flights ==> Ahead(cfg, w, w.flights[k]) && Complete(cfg, w, w.flights[k])
    case Abort(_) => true
  }

  lemma SameRow<E>(log: seq<Row<E>>, a: Row<E>, b: Row<E>)
    requires DistinctIds(log) && a in log && b in log && a.id == b.id
    ensures a == b
  {
    var i :| 0 <= i < |log| && log[i] == a;
    var j :| 0 <= j < |log| && log[j] == b;
  }

  /** A batch applies a row twice exactly when one of its rows lies at or before the checkpoint by now. */
  lemma AppliesTwiceIff<E, M>(w: World<E, M>, rows: seq<Row<E>>)
    requires DistinctIds(w.log) && ExactlyOnce(w) && DistinctIds(rows)
    requires (forall r :: r in w.applied ==> r in w.log) && (forall r :: r in rows ==> r in w.log)
    ensures DistinctIds(w.applied + rows) <==> forall i :: 0 <= i < |rows| ==> rows[i].sequence > w.checkpoint
  {
    var all := w.applied + rows;
    if DistinctIds(all) {
      forall i | 0 <= i < |rows| ensures rows[i].sequence > w.checkpoint {
        forall j | 0 <= j < |w.applied| ensures w.applied[j] != rows[i] {
          assert all[j].id != all[|w.applied| + i].id;
        }
      }
    }
    if forall i :: 0 <= i < |rows| ==> rows[i].sequence > w.checkpoint {
      forall i, j | 0 <= i < |w.applied| && 0 <= j < |rows| ensures w.applied[i].id != rows[j].id {
        if w.applied[i].id == rows[j].id {
          SameRow(w.log, w.applied[i], rows[j]);
        }
      }
    }
  }

  lemma FinishExactlyOnceIff<E, M>(cfg: Config<E, M>, w: World<E, M>, f: Flight<E>)
    requires WorldOk(w) && ExactlyOnce(w) && FlightOk(w.log, f)
    ensures ExactlyOnce(Finished(cfg, w, f)) <==> Ahead(cfg, w, f) && Complete(cfg, w, f)
  {
    var base, w' := Base(cfg, w, f.rebuild), Finished(cfg, w, f);
    AppliesTwiceIff(base, f.rows);
    if ExactlyOnce(w') {
      forall i | 0 <= i < |w.log| && base.checkpoint < w.log[i].sequence <= w'.checkpoint ensures w.log[i] in f.rows {
        assert w.log[i] in w'.applied;
      }
    }
    if Ahead(cfg, w, f) && Complete(cfg, w, f) {
      CompleteCovers(cfg, w, f);
    }
  }

  lemma CompleteCovers<E, M>(cfg: Config<E, M>, w: World<E, M>, f: Flight<E>)
    requires WorldOk(w) && ExactlyOnce(w) && FlightOk(w.log, f) && Ahead(cfg, w, f) && Complete(cfg, w, f)
    ensures var w' := Finished(cfg, w, f);
      forall r :: r in w'.log ==> (r in w'.applied <==> r.sequence <= w'.checkpoint)
  {
    var base, w' := Base(cfg, w, f.rebuild), Finished(cfg, w, f);
    assert f.rows != [] ==> f.rows[|f.rows| - 1] in f.rows && w'.checkpoint > base.checkpoint;
    forall r | r in w'.log ensures r in w'.applied <==> r.sequence <= w'.checkpoint {
      var i :| 0 <= i < |w.log| && w.log[i] == r;
      assert r in w'.applied <==> r in base.applied || r in f.rows;
    }
  }

  lemma AppendExactlyOnceIff<E, M>(w: World<E, M>, row: Row<E>)
    requires WorldOk(w) && ExactlyOnce(w) && row !in w.log
    ensures ExactlyOnce(w.(log := w.log + [row])) <==> row.sequence > w.checkpoint
  {
    assert (w.log + [row])[|w.log|] == row;
  }

  /** From a state in which nothing is lost or doubled, an operation loses or doubles a row exactly when its guard fails. */
  lemma StepExactlyOnceIff<E(!new), M>(cfg: Config<E, M>, w: World<E, M>, op: Op<E>)
    requires WorldOk(w) && ExactlyOnce(w) && Proper(w, op)
    ensures ExactlyOnce(Step(cfg, w, op)) <==> Guard(cfg, w, op)
  {
    match op {
      case Append(row) => AppendExactlyOnceIff(w, row);
      case Select(k, rebuild) =>
      case Finish(k) =>
        if k in w.flights {
          FinishExactlyOnceIff(cfg, w, w.flights[k]);
        }
      case Abort(k) =>
    }
  }

  ghost predicate AlwaysExactlyOnce<E, M>(cfg: Config<E, M>, ops: seq<Op<E>>) {
    ExactlyOnce(Exec(cfg, Init(cfg), ops)) && (ops != [] ==> AlwaysExactlyOnce(cfg, ops[..|ops| - 1]))
  }

  predicate AlwaysGuarded<E(==), M>(cfg: Config<E, M>, ops: seq<Op<E>>) {
    ops == [] ||
    (AlwaysGuarded(cfg, ops[..|ops| - 1]) && Guard(cfg, Exec(cfg, Init(cfg), ops[..|ops| - 1]), ops[|ops| - 1]))
  }

  /**
   * Over any log and with any number of overlapping runs and rebuilds, the rows up to the checkpoint are applied once
   * each at every moment, exactly when every row is appended after the checkpoint and every batch that finishes lies
   * after the checkpoint of that moment and holds all rows from there to its end.
   */
  lemma {:induction false} ExactlyOnceIff<E(!new), M>(cfg: Config<E, M>, ops: seq<Op<E>>)
    requires FreshRows(ops)
    ensures AlwaysExactlyOnce(cfg, ops) <==> AlwaysGuarded(cfg, ops)
  {
    if ops != [] {
      var init := ops[..|ops| - 1];
      NextIsProper(cfg, ops);
      ExactlyOnceIff(cfg, init);
      EveryRunOk(cfg, init);
      if ExactlyOnce(Exec(cfg, Init(cfg), init)) {
        StepExactlyOnceIff(cfg, Exec(cfg, Init(cfg), init), ops[|ops| - 1]);
      }
    }
  }

  // What keeps a batch fit to finish ---------------------------------------------

  /** The rows taken from a query hold all rows up to their end exactly when they are not cut between equal sequences. */
  lemma TakenIsCompleteIff<E(!new)>(log: seq<Row<E>>, from: nat, all: seq<Row<E>>, n: nat)
    requires IsQuery(log, from, all)
    ensures (forall i :: 0 <= i < |log| && from < log[i].sequence <= NextCheckpoint(Take(all, n), from) ==> log[i] in Take(all, n))
        <==> CleanCut(all, n)
  {
    var rows := Take(all, n);
    if CleanCut(all, n) {
      forall i | 0 <= i < |log| && from < log[i].sequence <= NextCheckpoint(rows, from) ensures log[i] in rows {
        var j :| 0 <= j < |all| && all[j] == log[i];
        assert j < |rows|;
      }
    } else {
      assert all[n] in all && all[n] !in all[..n];
      var i :| 0 <= i < |log| && log[i] == all[n];
      assert NextCheckpoint(rows, from) == all[n - 1].sequence;
    }
  }

  /** A batch just selected is fit to finish exactly when it is not cut between two rows of equal sequence. */
  lemma SelectedIsFitIff<E(!new), M>(cfg: Config<E, M>, w: World<E, M>, rebuild: bool)
    requires WorldOk(w)
    ensures var f := Selected(cfg, w, rebuild);
      && Ahead(cfg, w, f)
      && (Complete(cfg, w, f) <==> CleanCut(Eligible(w.log, f.from), cfg.limit))
  {
    var f := Selected(cfg, w, rebuild);
    EligibleIsQuery(w.log, f.from);
    TakenIsCompleteIff(w.log, f.from, Eligible(w.log, f.from), cfg.limit);
    BatchIsLater(w.log, f.from, cfg.limit);
  }

  /** A row appended meanwhile leaves it fit exactly when it does not fall between the checkpoint and the end of the batch. */
  lemma AppendLeavesFitIff<E, M>(cfg: Config<E, M>, w: World<E, M>, f: Flight<E>, row: Row<E>)
    requires FlightOk(w.log, f) && row !in w.log && Ahead(cfg, w, f) && Complete(cfg, w, f)
    ensures var w', from := w.(log := w.log + [row]), Base(cfg, w, f.rebuild).checkpoint;
      Ahead(cfg, w', f) && Complete(cfg, w', f) <==>
        row.sequence <= from || row.sequence > NextCheckpoint(f.rows, from)
  {
    assert row !in f.rows;
    assert (w.log + [row])[|w.log|] == row;
  }

  /** Whatever other batches did to the checkpoint, a run's batch is still fit exactly when the checkpoint moved over no row. */
  lemma MovedLeavesFitIff<E, M>(cfg: Config<E, M>, w: World<E, M>, f: Flight<E>, w': World<E, M>)
    requires FlightOk(w.log, f) && !f.rebuild && f.rows != [] && Ahead(cfg, w, f) && Complete(cfg, w, f)
    requires w'.log == w.log
    ensures Ahead(cfg, w', f) && Complete(cfg, w', f) <==>
      forall r :: r in w.log ==> (r.sequence <= w'.checkpoint <==> r.sequence <= w.checkpoint)
  {
    var last := f.rows[|f.rows| - 1];
    if Ahead(cfg, w', f) && Complete(cfg, w', f) {
      forall r | r in w.log ensures r.sequence <= w'.checkpoint <==> r.sequence <= w.checkpoint {
        var i :| 0 <= i < |w.log| && w.log[i] == r;
        assert last.sequence > w.checkpoint && last.sequence > w'.checkpoint;
      }
    }
    if forall r :: r in w.log ==> (r.sequence <= w'.checkpoint <==> r.sequence <= w.checkpoint) {
      forall i | 0 <= i < |f.rows| ensures f.rows[i].sequence > w'.checkpoint {
        assert f.rows[i] in w.log;
      }
      forall i | 0 <= i < |w.log| && w'.checkpoint < w.log[i].sequence <= last.sequence ensures w.log[i] in f.rows {
        assert w.log[i] in w.log;
      }
    }
  }

  /** On other logs than increasing ones a batch may be fit although the checkpoint it was selected after is gone. */
  lemma FitWithoutItsCheckpoint<E, M>(cfg: Config<E, M>, a: Row<E>, b: Row<E>, m: M)
    requires b.sequence < a.sequence
    ensures var w := World([a, b], m, b.sequence, [b], map[]);
      Ahead(cfg, w, Flight([a], false, 0)) && Complete(cfg, w, Flight([a], false, 0))
  {
  }

  ghost predicate AlwaysAhead<E, M>(cfg: Config<E, M>, ops: seq<Op<E>>) {
    ops == [] ||
    var init, op := ops[..|ops| - 1], ops[|ops| - 1];
    var w := Exec(cfg, Init(cfg), init);
    AlwaysAhead(cfg, init) && (op.Finish? && op.worker in w.flights ==> Ahead(cfg, w, w.flights[op.worker]))
  }

  ghost predicate AppliedOnce<E, M>(w: World<E, M>) {
    DistinctIds(w.applied) && forall r :: r in w.applied ==> r.sequence <= w.checkpoint
  }

  lemma FinishAppliedOnce<E, M>(cfg: Config<E, M>, w: World<E, M>, f: Flight<E>)
    requires WorldOk(w) && AppliedOnce(w) && FlightOk(w.log, f) && Ahead(cfg, w, f)
    ensures AppliedOnce(Finished(cfg, w, f))
  {
    var base := Base(cfg, w, f.rebuild);
    assert f.rows != [] ==> f.rows[|f.rows| - 1].sequence > base.checkpoint;
    forall i, j | 0 <= i < |base.applied| && 0 <= j < |f.rows| ensures base.applied[i].id != f.rows[j].id {
      if base.applied[i].id == f.rows[j].id {
        SameRow(w.log, base.applied[i], f.rows[j]);
      }
    }
  }

  /** Whatever the sequences of the log and whenever rows arrive, no row is applied twice between rebuilds if every batch still lies after the checkpoint when it finishes. */
  lemma {:induction false} AppliedAtMostOnce<E(!new), M>(cfg: Config<E, M>, ops: seq<Op<E>>)
    requires FreshRows(ops) && AlwaysAhead(cfg, ops)
    ensures AppliedOnce(Exec(cfg, Init(cfg), ops))
  {
    if ops != [] {
      var init, op := ops[..|ops| - 1], ops[|ops| - 1];
      var w := Exec(cfg, Init(cfg), init);
      NextIsProper(cfg, ops);
      AppliedAtMostOnce(cfg, init);
      EveryRunOk(cfg, init);
      if op.Finish? && op.worker in w.flights {
        FinishAppliedOnce(cfg, w, w.flights[op.worker]);
      }
    }
  }

  /** The checkpoint passed over `r`, and no batch in flight is a rebuild, holds `r` or ends before it. */
  predicate Passed<E(==), M>(w: World<E, M>, r: Row<E>) {
    && r.sequence <= w.checkpoint && r !in w.applied
    && forall k :: k in w.flights ==>
         var f := w.flights[k];
         !f.rebuild && r !in f.rows && (f.rows != [] ==> r.sequence <= f.rows[|f.rows| - 1].sequence)
  }

  lemma BatchIsLater<E(!new)>(log: seq<Row<E>>, checkpoint: nat, limit: nat)
    ensures forall r :: r in Batch(log, checkpoint, limit) ==> r.sequence > checkpoint
  {
    forall r | r in Batch(log, checkpoint, limit) ensures r.sequence > checkpoint {
      EligibleMembers(log, checkpoint, r);
    }
  }

  ghost predicate NoRebuild<E>(ops: seq<Op<E>>) {
    forall i :: 0 <= i < |ops| && ops[i].Select? ==> !ops[i].rebuild
  }

  lemma StepPassed<E(!new), M>(cfg: Config<E, M>, w: World<E, M>, op: Op<E>, r: Row<E>)
    requires Passed(w, r) && (op.Select? ==> !op.rebuild)
    ensures Passed(Step(cfg, w, op), r)
  {
    if op.Select? {
      BatchIsLater(w.log, w.checkpoint, cfg.limit);
      var rows := Batch(w.log, w.checkpoint, cfg.limit);
      assert rows != [] ==> rows[|rows| - 1] in rows;
    }
  }

  /** A row the checkpoint passed over stays unapplied until the next rebuild. */
  lemma {:induction false} LostUntilRebuild<E(!new), M>(cfg: Config<E, M>, w: World<E, M>, ops: seq<Op<E>>, r: Row<E>)
    requires Passed(w, r) && NoRebuild(ops)
    ensures Passed(Exec(cfg, w, ops), r)
  {
    if ops != [] {
      LostUntilRebuild(cfg, w, ops[..|ops| - 1], r);
      StepPassed(cfg, Exec(cfg, w, ops[..|ops| - 1]), ops[|ops| - 1], r);
    }
  }

  // ---------------------------------------------------------------------
  // Batches that end where they should: the checkpoint a batch was selected after is still there
  // ---------------------------------------------------------------------

  /** Finishing now is what a lock, or a comparison with the checkpoint first read, would allow. */
  predicate Current<E, M>(w: World<E, M>, f: Flight<E>) {
    f.rebuild || f.rows == [] || f.from == w.checkpoint
  }

  predicate Finishable<E, M>(w: World<E, M>, op: Op<E>) {
    op.Finish? && op.worker in w.flights ==> Current(w, w.flights[op.worker])
  }

  predicate AlwaysCurrent<E, M>(cfg: Config<E, M>, ops: seq<Op<E>>) {
    ops == [] ||
    (AlwaysCurrent(cfg, ops[..|ops| - 1]) && Finishable(Exec(cfg, Init(cfg), ops[..|ops| - 1]), ops[|ops| - 1]))
  }

  /** No batch is selected while another one is in flight, as under a lock. */
  predicate OneAtATime<E, M>(cfg: Config<E, M>, ops: seq<Op<E>>) {
    ops == [] ||
    (OneAtATime(cfg, ops[..|ops| - 1]) &&
     (ops[|ops| - 1].Select? ==> Exec(cfg, Init(cfg), ops[..|ops| - 1]).flights == map[]))
  }

  predicate Alone<E, M>(w: World<E, M>) {
    && (forall k, j :: k in w.flights && j in w.flights ==> k == j)
    && forall k :: k in w.flights ==> w.flights[k].rebuild || w.flights[k].from == w.checkpoint
  }

  /** One batch at a time is enough for every batch to meet the checkpoint it was selected after. */
  lemma {:induction false} OneAtATimeIsCurrent<E, M>(cfg: Config<E, M>, ops: seq<Op<E>>)
    requires OneAtATime(cfg, ops)
    ensures AlwaysCurrent(cfg, ops) && Alone(Exec(cfg, Init(cfg), ops))
  {
    if ops != [] {
      OneAtATimeIsCurrent(cfg, ops[..|ops| - 1]);
    }
  }

  // ---------------------------------------------------------------------
  // Logs with increasing sequences
  // ---------------------------------------------------------------------

  /** The read model is the fold of the rows up to the checkpoint. */
  ghost predicate InStep<E, M>(cfg: Config<E, M>, w: World<E, M>, pos: nat) {
    && At(w.log, w.checkpoint, pos)
    && w.model == Fold(cfg.apply, cfg.empty, w.log[..pos]) && w.applied == w.log[..pos]
  }

  ghost predicate IsFold<E, M>(cfg: Config<E, M>, w: World<E, M>) {
    exists pos :: InStep(cfg, w, pos)
  }

  /** The batch is the stretch of the log that starts at row `p`. */
  ghost predicate Starts<E>(log: seq<Row<E>>, f: Flight<E>, p: nat) {
    At(log, f.from, p) && p + |f.rows| <= |log| && f.rows == log[p..p + |f.rows|] && (f.rebuild ==> p == 0)
  }

  ghost predicate FlightsStart<E, M>(w: World<E, M>) {
    forall k :: k in w.flights ==> exists p :: Starts(w.log, w.flights[k], p)
  }

  lemma AtIsUnique<E>(log: seq<Row<E>>, checkpoint: nat, p: nat, q: nat)
    requires Increasing(log) && At(log, checkpoint, p) && At(log, checkpoint, q)
    ensures p == q
  {
  }

  /** Applying the rows of the log up to `next` keeps the model in step. */
  lemma NextRowsInStep<E, M>(cfg: Config<E, M>, w: World<E, M>, pos: nat, next: nat)
    requires InStep(cfg, w, pos) && pos <= next <= |w.log|
    ensures InStep(cfg, ApplyBatch(cfg, w, w.log[pos..next]), next)
  {
    assert w.log[..pos] + w.log[pos..next] == w.log[..next];
    FoldSplit(cfg.apply, cfg.empty, w.log[..pos], w.log[pos..next]);
  }

  lemma RebuildInStep<E, M>(cfg: Config<E, M>, w: World<E, M>, f: Flight<E>)
    requires f.rebuild && Starts(w.log, f, 0)
    ensures InStep(cfg, Finished(cfg, w, f), |f.rows|)
  {
    var base := Base(cfg, w, true);
    assert InStep(cfg, base, 0);
    assert w.log[0..|f.rows|] == f.rows;
    NextRowsInStep(cfg, base, 0, |f.rows|);
  }

  lemma EmptyRunInStep<E, M>(cfg: Config<E, M>, w: World<E, M>, f: Flight<E>, pos: nat)
    requires !f.rebuild && f.rows == [] && InStep(cfg, w, pos)
    ensures InStep(cfg, Finished(cfg, w, f), pos)
  {
    assert w.applied + f.rows == w.applied;
  }

  lemma RunInStep<E, M>(cfg: Config<E, M>, w: World<E, M>, f: Flight<E>, pos: nat)
    requires !f.rebuild && InStep(cfg, w, pos) && Starts(w.log, f, pos)
    ensures InStep(cfg, Finished(cfg, w, f), pos + |f.rows|)
  {
    NextRowsInStep(cfg, w, pos, pos + |f.rows|);
  }

  lemma CurrentFinishInStep<E, M>(cfg: Config<E, M>, w: World<E, M>, f: Flight<E>, pos: nat, p: nat)
    requires Increasing(w.log) && InStep(cfg, w, pos) && Starts(w.log, f, p) && Current(w, f)
    ensures IsFold(cfg, Finished(cfg, w, f))
  {
    if f.rebuild {
      RebuildInStep(cfg, w, f);
    } else if f.rows == [] {
      EmptyRunInStep(cfg, w, f, pos);
    } else {
      AtIsUnique(w.log, w.checkpoint, pos, p);
      RunInStep(cfg, w, f, pos);
    }
  }

  lemma StaleFinishIsNoFold<E, M>(cfg: Config<E, M>, w: World<E, M>, f: Flight<E>, pos: nat, p: nat)
    requires Increasing(w.log) && InStep(cfg, w, pos) && Starts(w.log, f, p) && !Current(w, f)
    ensures !IsFold(cfg, Finished(cfg, w, f))
  {
    var w', q := Finished(cfg, w, f), p + |f.rows|;
    assert p != pos;
    assert f.rows[|f.rows| - 1] == w.log[q - 1];
    assert |w'.applied| == pos + |f.rows| != q;
    forall next ensures !InStep(cfg, w', next) {
      if At(w.log, w'.checkpoint, next) {
        AtIsUnique(w.log, w'.checkpoint, next, q);
      }
    }
  }

  lemma SelectStarts<E(!new), M>(cfg: Config<E, M>, w: World<E, M>, rebuild: bool, pos: nat)
    requires Increasing(w.log) && InStep(cfg, w, pos)
    ensures Starts(w.log, Selected(cfg, w, rebuild), if rebuild then 0 else pos)
  {
    BatchIsNext(w.log, Base(cfg, w, rebuild).checkpoint, if rebuild then 0 else pos, cfg.limit);
  }

  lemma AppendStarts<E, M>(w: World<E, M>, row: Row<E>)
    requires FlightsStart(w)
    ensures FlightsStart(w.(log := w.log + [row]))
  {
    var log := w.log + [row];
    forall k | k in w.flights ensures exists p :: Starts(log, w.flights[k], p) {
      var f := w.flights[k];
      var p: nat :| Starts(w.log, f, p);
      assert log[p..p + |f.rows|] == w.log[p..p + |f.rows|];
      assert Starts(log, f, p);
    }
  }

  lemma AppendInStep<E, M>(cfg: Config<E, M>, w: World<E, M>, row: Row<E>, pos: nat)
    requires InStep(cfg, w, pos)
    ensures InStep(cfg, w.(log := w.log + [row]), pos)
  {
    assert (w.log + [row])[..pos] == w.log[..pos];
  }

  lemma StepIsFoldIff<E(!new), M>(cfg: Config<E, M>, w: World<E, M>, op: Op<E>)
    requires Increasing(w.log) && IsFold(cfg, w) && FlightsStart(w)
    ensures IsFold(cfg, Step(cfg, w, op)) <==> Finishable(w, op)
    ensures FlightsStart(Step(cfg, w, op))
  {
    var pos :| InStep(cfg, w, pos);
    var w' := Step(cfg, w, op);
    match op {
      case Append(row) =>
        AppendInStep(cfg, w, row, pos);
        AppendStarts(w, row);
      case Select(k, rebuild) =>
        SelectStarts(cfg, w, rebuild, pos);
        assert InStep(cfg, w', pos);
      case Finish(k) =>
        if k in w.flights {
          var f := w.flights[k];
          var p :| Starts(w.log, f, p);
          FinishIsFoldIff(cfg, w, f, pos, p);
          SameFold(cfg, Finished(cfg, w, f), w');
        }
      case Abort(k) => assert InStep(cfg, w', pos);
    }
  }

  lemma FinishIsFoldIff<E, M>(cfg: Config<E, M>, w: World<E, M>, f: Flight<E>, pos: nat, p: nat)
    requires Increasing(w.log) && InStep(cfg, w, pos) && Starts(w.log, f, p)
    ensures IsFold(cfg, Finished(cfg, w, f)) <==> Current(w, f)
  {
    if Current(w, f) {
      CurrentFinishInStep(cfg, w, f, pos, p);
    } else {
      StaleFinishIsNoFold(cfg, w, f, pos, p);
    }
  }

  lemma SameFold<E, M>(cfg: Config<E, M>, v: World<E, M>, w: World<E, M>)
    requires v.log == w.log && v.model == w.model && v.checkpoint == w.checkpoint && v.applied == w.applied
    ensures IsFold(cfg, v) <==> IsFold(cfg, w)
  {
    assert forall pos :: InStep(cfg, v, pos) <==> InStep(cfg, w, pos);
  }

  ghost predicate AlwaysFold<E, M>(cfg: Config<E, M>, ops: seq<Op<E>>) {
    IsFold(cfg, Exec(cfg, Init(cfg), ops)) && (ops != [] ==> AlwaysFold(cfg, ops[..|ops| - 1]))
  }

  lemma LogGrows<E, M>(cfg: Config<E, M>, w: World<E, M>, op: Op<E>)
    ensures w.log <= Step(cfg, w, op).log
  {
  }

  /**
   * In a run over an increasing log, runs and rebuilds overlapping as they may, the read model is at every moment the
   * fold of the log up to the checkpoint, exactly when every run that finishes meets the checkpoint it was selected after.
   */
  lemma {:induction false} ModelIsFoldToCheckpointIff<E(!new), M>(cfg: Config<E, M>, ops: seq<Op<E>>)
    requires Increasing(Exec(cfg, Init(cfg), ops).log)
    ensures AlwaysFold(cfg, ops) <==> AlwaysCurrent(cfg, ops)
    ensures AlwaysFold(cfg, ops) ==> FlightsStart(Exec(cfg, Init(cfg), ops))
  {
    if ops == [] {
      assert InStep(cfg, Init(cfg), 0);
    } else {
      var init, op := ops[..|ops| - 1], ops[|ops| - 1];
      var w := Exec(cfg, Init(cfg), init);
      LogGrows(cfg, w, op);
      IncreasingPrefix(w.log, Exec(cfg, Init(cfg), ops).log);
      ModelIsFoldToCheckpointIff(cfg, init);
      if AlwaysFold(cfg, init) {
        StepIsFoldIff(cfg, w, op);
      }
    }
  }

  lemma AheadIff<E, M>(cfg: Config<E, M>, w: World<E, M>, f: Flight<E>, from: nat, p: nat)
    requires Increasing(w.log) && At(w.log, Base(cfg, w, f.rebuild).checkpoint, from) && Starts(w.log, f, p)
    ensures Ahead(cfg, w, f) <==> f.rows == [] || from <= p
  {
    assert forall i :: 0 <= i < |f.rows| ==> f.rows[i] == w.log[p + i];
    if f.rows != [] && p < from {
      assert f.rows[0].sequence <= w.log[from - 1].sequence;
    }
  }

  lemma CompleteIff<E, M>(cfg: Config<E, M>, w: World<E, M>, f: Flight<E>, from: nat, p: nat)
    requires Increasing(w.log) && At(w.log, Base(cfg, w, f.rebuild).checkpoint, from) && Starts(w.log, f, p)
    ensures Complete(cfg, w, f) <==> f.rows == [] || p <= from
  {
    var checkpoint := Base(cfg, w, f.rebuild).checkpoint;
    assert forall i :: 0 <= i < |f.rows| ==> f.rows[i] == w.log[p + i];
    if f.rows != [] && from < p {
      assert w.log[from] !in f.rows;
      assert checkpoint < w.log[from].sequence <= f.rows[|f.rows| - 1].sequence;
    } else if f.rows != [] {
      forall i | 0 <= i < |w.log| && checkpoint < w.log[i].sequence <= NextCheckpoint(f.rows, checkpoint)
        ensures w.log[i] in f.rows
      {
        assert from <= i < p + |f.rows|;
        assert w.log[i] == f.rows[i - p];
      }
    }
  }

  /** On an increasing log a batch may finish, nothing being lost or doubled, exactly when it meets its checkpoint. */
  lemma GuardIffCurrent<E, M>(cfg: Config<E, M>, w: World<E, M>, f: Flight<E>, pos: nat, p: nat)
    requires Increasing(w.log) && InStep(cfg, w, pos) && Starts(w.log, f, p)
    ensures Ahead(cfg, w, f) && Complete(cfg, w, f) <==> Current(w, f)
  {
    var from := if f.rebuild then 0 else pos;
    AheadIff(cfg, w, f, from, p);
    CompleteIff(cfg, w, f, from, p);
    if f.from == w.checkpoint {
      AtIsUnique(w.log, w.checkpoint, pos, p);
    }
  }

  // Overlaps -----------------------------------------------------------------------

  lemma ExecFour<E, M>(cfg: Config<E, M>, w: World<E, M>, a: Op<E>, b: Op<E>, c: Op<E>, d: Op<E>)
    ensures Exec(cfg, w, [a, b, c, d]) == Step(cfg, Step(cfg, Step(cfg, Step(cfg, w, a), b), c), d)
  {
    assert [a][..0] == [] && [a, b][..1] == [a] && [a, b, c][..2] == [a, b] && [a, b, c, d][..3] == [a, b, c];
    assert Exec(cfg, w, [a]) == Step(cfg, w, a);
    assert Exec(cfg, w, [a, b]) == Step(cfg, Exec(cfg, w, [a]), b);
    assert Exec(cfg, w, [a, b, c]) == Step(cfg, Exec(cfg, w, [a, b]), c);
  }

  /** Two batches that were both selected before either finished: the second meets what the first left. */
  lemma OverlapRun<E, M>(cfg: Config<E, M>, w: World<E, M>, a: nat, b: nat, rebuild: bool)
    requires a != b && a !in w.flights && b !in w.flights
    ensures Exec(cfg, w, [Select(a, false), Select(b, rebuild), Finish(b), Finish(a)])
         == Finished(cfg, Finished(cfg, w, Selected(cfg, w, rebuild)), Selected(cfg, w, false))
  {
    ExecFour(cfg, w, Select(a, false), Select(b, rebuild), Finish(b), Finish(a));
    var fa, fb := Selected(cfg, w, false), Selected(cfg, w, rebuild);
    assert w.flights[a := fa][b := fb] - {b} - {a} == w.flights;
  }

  /** Two runs that overlap apply every row of their common batch twice. */
  lemma OverlappingRunsApplyTwice<E, M>(cfg: Config<E, M>, w: World<E, M>, a: nat, b: nat)
    requires a != b && a !in w.flights && b !in w.flights
    ensures var batch := Batch(w.log, w.checkpoint, cfg.limit);
      Exec(cfg, w, [Select(a, false), Select(b, false), Finish(b), Finish(a)]).applied == w.applied + batch + batch
  {
    OverlapRun(cfg, w, a, b, false);
  }

  lemma SkippedRows<E>(log: seq<Row<E>>, n: nat, pos: nat, next: nat)
    requires Increasing(log) && n < pos < next <= |log|
    ensures forall i :: n <= i < pos ==> log[i].sequence <= log[next - 1].sequence && log[i] !in log[..n] + log[pos..next]
  {
    var applied := log[..n] + log[pos..next];
    forall i | n <= i < pos ensures log[i].sequence <= log[next - 1].sequence && log[i] !in applied {
      forall k | 0 <= k < |applied| ensures applied[k].sequence != log[i].sequence {
        assert applied[k] == if k < n then log[k] else log[pos + k - n];
      }
    }
  }

  lemma OverlappedBatches<E(!new), M>(cfg: Config<E, M>, w: World<E, M>, pos: nat, next: nat)
    requires Increasing(w.log) && At(w.log, w.checkpoint, pos) && next == pos + Min(cfg.limit, |w.log| - pos)
    requires cfg.limit <= |w.log|
    ensures Selected(cfg, w, true) == Flight(w.log[..cfg.limit], true, 0)
    ensures Selected(cfg, w, false) == Flight(w.log[pos..next], false, w.checkpoint)
  {
    BatchIsNext(w.log, w.checkpoint, pos, cfg.limit);
    BatchIsNext(w.log, 0, 0, cfg.limit);
    assert w.log[0..cfg.limit] == w.log[..cfg.limit];
  }

  lemma RunAfterRebuild<E, M>(cfg: Config<E, M>, w: World<E, M>, rebuild: Flight<E>, run: Flight<E>)
    requires rebuild.rebuild && !run.rebuild && run.rows != []
    ensures var w' := Finished(cfg, Finished(cfg, w, rebuild), run);
      w'.applied == rebuild.rows + run.rows && w'.checkpoint == run.rows[|run.rows| - 1].sequence
  {
    assert [] + rebuild.rows == rebuild.rows;
  }

  /** A run that overlaps a rebuild of a longer history skips every row between the end of the rebuild's batch and its own. */
  lemma RebuildOverlapLoses<E(!new), M>(cfg: Config<E, M>, w: World<E, M>, a: nat, b: nat, pos: nat)
    requires Increasing(w.log) && InStep(cfg, w, pos) && a != b && a !in w.flights && b !in w.flights
    requires 1 <= cfg.limit < pos < |w.log|
    ensures var w' := Exec(cfg, w, [Select(a, false), Select(b, true), Finish(b), Finish(a)]);
      && w'.applied == w.log[..cfg.limit] + w.log[pos..pos + Min(cfg.limit, |w.log| - pos)]
      && forall i :: cfg.limit <= i < pos ==> w.log[i].sequence <= w'.checkpoint && w.log[i] !in w'.applied
  {
    var n, next := cfg.limit, pos + Min(cfg.limit, |w.log| - pos);
    OverlapRun(cfg, w, a, b, true);
    OverlappedBatches(cfg, w, pos, next);
    RunAfterRebuild(cfg, w, Flight(w.log[..n], true, 0), Flight(w.log[pos..next], false, w.checkpoint));
    SkippedRows(w.log, n, pos, next);
  }

  // Undisturbed batches --------------------------------------------------------

  /** A batch of `run_once` or `rebuild` during which nothing else happens. */
  function WholeBatch<E, M>(cfg: Config<E, M>, w: World<E, M>, rebuild: bool): World<E, M> {
    Step(cfg, Step(cfg, w, Select(0, rebuild)), Finish(0))
  }

  function OneBatch<E, M>(cfg: Config<E, M>): World<E, M> -> World<E, M> {
    (w: World<E, M>) => WholeBatch(cfg, w, false)
  }

  /** Applying the next batch of the query to a world in step. */
  lemma BatchInStep<E(!new), M>(cfg: Config<E, M>, w: World<E, M>, pos: nat) returns (w': World<E, M>, next: nat)
    requires Increasing(w.log) && InStep(cfg, w, pos)
    ensures w' == ApplyBatch(cfg, w, Batch(w.log, w.checkpoint, cfg.limit))
    ensures next == pos + Min(cfg.limit, |w.log| - pos) && InStep(cfg, w', next)
    ensures w'.log == w.log && w'.flights == w.flights
  {
    next := pos + Min(cfg.limit, |w.log| - pos);
    w' := ApplyBatch(cfg, w, w.log[pos..next]);
    BatchIsNext(w.log, w.checkpoint, pos, cfg.limit);
    NextRowsInStep(cfg, w, pos, next);
  }

  lemma WholeBatchIsBatch<E, M>(cfg: Config<E, M>, w: World<E, M>, rebuild: bool)
    requires w.flights == map[]
    ensures var base := Base(cfg, w, rebuild);
      WholeBatch(cfg, w, rebuild) == ApplyBatch(cfg, base, Batch(base.log, base.checkpoint, cfg.limit))
  {
    assert w.flights[0 := Selected(cfg, w, rebuild)] - {0} == map[];
  }

  lemma InStepAtEnd<E, M>(cfg: Config<E, M>, w: World<E, M>, pos: nat)
    requires InStep(cfg, w, pos)
    ensures w.applied == w.log <==> pos == |w.log|
    ensures pos == |w.log| ==> w.model == Fold(cfg.apply, cfg.empty, w.log)
  {
    if pos == |w.log| {
      assert w.log[..pos] == w.log;
    }
  }

  /** Between batches and in step after `n` more rows than `pos`, over the same log. */
  ghost predicate CaughtUp<E, M>(cfg: Config<E, M>, log: seq<Row<E>>, w: World<E, M>, pos: nat, n: nat) {
    w.log == log && w.flights == map[] && InStep(cfg, w, pos + n)
  }

  lemma OneBatchCatchesUp<E(!new), M>(cfg: Config<E, M>, log: seq<Row<E>>, w: World<E, M>, pos: nat, n: nat)
    requires Increasing(log) && CaughtUp(cfg, log, w, pos, n)
    ensures CaughtUp(cfg, log, OneBatch(cfg)(w), pos, n + Min(cfg.limit, |log| - pos - n))
  {
    WholeBatchIsBatch(cfg, w, false);
    var _, next := BatchInStep(cfg, w, pos + n);
  }

  ghost function Counts<E(!new), M(!new)>(cfg: Config<E, M>, log: seq<Row<E>>, pos: nat): (World<E, M>, nat) -> bool {
    (w: World<E, M>, k: nat) => CaughtUp(cfg, log, w, pos, k)
  }

  lemma CountsOn<E(!new), M(!new)>(cfg: Config<E, M>, log: seq<Row<E>>, pos: nat)
    requires Increasing(log)
    ensures forall w, k: nat :: Counts(cfg, log, pos)(w, k) && k <= |log| - pos ==>
      Counts(cfg, log, pos)(OneBatch(cfg)(w), k + Min(cfg.limit, |log| - pos - k))
  {
    forall w, k: nat | Counts(cfg, log, pos)(w, k) && k <= |log| - pos
      ensures Counts(cfg, log, pos)(OneBatch(cfg)(w), k + Min(cfg.limit, |log| - pos - k))
    {
      OneBatchCatchesUp(cfg, log, w, pos, k);
    }
  }

  lemma BatchesCatchUp<E(!new), M(!new)>(cfg: Config<E, M>, w: World<E, M>, pos: nat, n: nat)
    requires Increasing(w.log) && pos <= |w.log| && CaughtUp(cfg, w.log, w, pos, 0)
    ensures CaughtUp(cfg, w.log, Iterate(OneBatch(cfg), w, n), pos, Held(cfg.limit, |w.log| - pos, n))
  {
    CountsOn(cfg, w.log, pos);
    IterateTakes(OneBatch(cfg), Counts(cfg, w.log, pos), cfg.limit, |w.log| - pos, w, n);
  }

  /** From a model in step, `n` batches reach the end of the log exactly when they are long enough together. */
  lemma RepeatReachesEndIff<E(!new), M(!new)>(cfg: Config<E, M>, w: World<E, M>, pos: nat, n: nat)
    requires Increasing(w.log) && w.flights == map[] && InStep(cfg, w, pos)
    ensures var end := Iterate(OneBatch(cfg), w, n);
      && end.log == w.log
      && (end.applied == w.log <==> pos + n * cfg.limit >= |w.log|)
      && (pos + n * cfg.limit >= |w.log| ==> end.model == Fold(cfg.apply, cfg.empty, w.log))
  {
    BatchesCatchUp(cfg, w, pos, n);
    InStepAtEnd(cfg, Iterate(OneBatch(cfg), w, n), pos + Held(cfg.limit, |w.log| - pos, n));
  }

  lemma OneMoreBatch(limit: nat, rows: nat, n: nat)
    ensures Min(limit, rows) + n * limit >= rows <==> (n + 1) * limit >= rows
  {
    assert (n + 1) * limit == n * limit + limit;
    assert n * limit >= 0;
  }

  /** A rebuild applies one batch only, so with `n` runs after it the whole log is applied exactly when `n + 1` batches hold it. */
  lemma RebuildThenCatchUpIff<E(!new), M(!new)>(cfg: Config<E, M>, w: World<E, M>, n: nat)
    requires Increasing(w.log) && w.flights == map[]
    ensures var end := Iterate(OneBatch(cfg), WholeBatch(cfg, w, true), n);
      && (end.applied == w.log <==> (n + 1) * cfg.limit >= |w.log|)
      && ((n + 1) * cfg.limit >= |w.log| ==> end.model == Fold(cfg.apply, cfg.empty, w.log))
  {
    WholeBatchIsBatch(cfg, w, true);
    var rebuilt, pos := BatchInStep(cfg, Base(cfg, w, true), 0);
    RepeatReachesEndIff(cfg, rebuilt, pos, n);
    OneMoreBatch(cfg.limit, |w.log|, n);
  }

  // Two streams ------------------------------------------------------------------

  lemma SelectFirst<E(!new), M>(cfg: Config<E, M>, a: Row<E>)
    requires cfg.limit > 0 && a.sequence == 1
    ensures Step(cfg, World([a], cfg.empty, 0, [], map[]), Select(0, false))
         == World([a], cfg.empty, 0, [], map[0 := Flight([a], false, 0)])
  {
    BatchIsNext([a], 0, 0, cfg.limit);
    assert [a][0..1] == [a];
  }

  lemma ApplyFirst<E, M>(cfg: Config<E, M>, log: seq<Row<E>>, a: Row<E>)
    requires a.sequence == 1
    ensures Step(cfg, World(log, cfg.empty, 0, [], map[0 := Flight([a], false, 0)]), Finish(0))
         == World(log, cfg.apply(cfg.empty, a.event), 1, [a], map[])
  {
    assert [a][..0] == [] && [] + [a] == [a];
    assert Fold(cfg.apply, cfg.empty, [a]) == cfg.apply(cfg.empty, a.event);
  }

  /**
   * Sequences count per aggregate, so the first event of a second stream is lost if a batch ran before it or was in
   * flight when it arrived.
   */
  lemma SecondStreamIsLost<E(!new), M>(cfg: Config<E, M>, a: Row<E>, b: Row<E>, rest: seq<Op<E>>)
    requires cfg.limit > 0 && a.sequence == b.sequence == 1 && a.id != b.id && NoRebuild(rest)
    ensures var lost := World([a, b], cfg.apply(cfg.empty, a.event), 1, [a], map[]);
      && Exec(cfg, Init(cfg), [Append(a), Select(0, false), Finish(0), Append(b)]) == lost
      && Exec(cfg, Init(cfg), [Append(a), Select(0, false), Append(b), Finish(0)]) == lost
      && b !in Exec(cfg, lost, rest).applied
  {
    var lost := World([a, b], cfg.apply(cfg.empty, a.event), 1, [a], map[]);
    SelectFirst(cfg, a);
    ApplyFirst(cfg, [a], a);
    ApplyFirst(cfg, [a, b], a);
    ExecFour(cfg, Init(cfg), Append(a), Select(0, false), Finish(0), Append(b));
    ExecFour(cfg, Init(cfg), Append(a), Select(0, false), Append(b), Finish(0));
    assert [] + [a] == [a] && [a] + [b] == [a, b];
    LostUntilRebuild(cfg, lost, rest, b);
  }
}
