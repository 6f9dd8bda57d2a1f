/**
 * The order summary driven by the projection runner. Each handler commits on its own connection while the
 * checkpoint commits with the runner's transaction, so an interrupted run leaves the table ahead of the checkpoint.
 */
module OrderProjectionRuns {
  import opened Batches
  import opened Options
  import opened Projections
  import opened OrderService

  type Log = seq<Row<OrderEvent>>

  datatype State = State(log: Log, table: Table, checkpoint: nat)

  /** How many leading rows can be inserted. */
  function FitPrefix(rows: Log): (n: nat)
    ensures n <= |rows|
    ensures forall i :: 0 <= i < n ==> Fits(rows[i].event)
    ensures n < |rows| ==> !Fits(rows[n].event)
  {
    if rows == [] || !Fits(rows[0].event) then 0 else 1 + FitPrefix(rows[1..])
  }

  /** Rows applied when the process dies after `budget` of them. */
  function Reached(batch: Log, budget: Option<nat>): (n: nat)
    ensures n <= |batch|
  {
    Min(FitPrefix(batch), if budget.Some? then budget.value else |batch|)
  }

  predicate Completes(batch: Log, budget: Option<nat>) {
    budget.None? && FitPrefix(batch) == |batch|
  }

  /** One attempt at a batch, starting from `table` and `start`. */
  function Attempt(s: State, table: Table, start: nat, batch: Log, budget: Option<nat>): State {
    State(s.log, Summarise(table, batch[..Reached(batch, budget)]),
          if Completes(batch, budget) then NextCheckpoint(batch, start) else s.checkpoint)
  }

  datatype Op = Append(row: Row<OrderEvent>) | Run(budget: Option<nat>) | Rebuild(budget: Option<nat>)

  function Perform(limit: nat, s: State, op: Op): State {
    match op
    case Append(row) => s.(log := s.log + [row])
    case Run(budget) => Attempt(s, s.table, s.checkpoint, Batch(s.log, s.checkpoint, limit), budget)
    case Rebuild(budget) => Attempt(s, map[], 0, Batch(s.log, 0, limit), budget)
  }

  function PerformAll(limit: nat, s: State, ops: seq<Op>): State {
    if ops == [] then s else Perform(limit, PerformAll(limit, s, ops[..|ops| - 1]), ops[|ops| - 1])
  }

  const START := State([], map[], 0)

  class SummaryRunner {
    const limit: nat
    var log: Log
    var checkpoint: nat

    constructor (limit: nat)
      ensures this.limit == limit && log == [] && checkpoint == 0
    {
      this.limit := limit;
      log, checkpoint := [], 0;
    }

    /** `false`: a handler raised or the process died, and the runner's transaction was rolled back. */
    method RunProjection(p: OrderSummaryProjection, from: Option<nat>, budget: Option<nat>) returns (ok: bool)
      modifies this`checkpoint, p
      ensures var start := if from.Some? then from.value else old(checkpoint);
        var batch := Batch(log, start, limit);
        && ok == Completes(batch, budget)
        && State(log, p.table, checkpoint)
             == Attempt(State(log, old(p.table), old(checkpoint)), old(p.table), start, batch, budget)
    {
      var start := if from.Some? then from.value else checkpoint;
      var batch := Batch(log, start, limit);
      var i := 0;
      while i < |batch|
        invariant 0 <= i <= FitPrefix(batch)
        invariant budget.Some? ==> i <= budget.value
        invariant p.table == Summarise(old(p.table), batch[..i])
        invariant checkpoint == old(checkpoint)
      {
        if budget == Some(i) {
          return false;
        }
        var applied := p.Apply(batch[i].event);
        if !applied {
          return false;
        }
        assert batch[..i + 1][..i] == batch[..i];
        i := i + 1;
      }
      if budget.Some? {
        return false;
      }
      if batch != [] || from.Some? {
        checkpoint := NextCheckpoint(batch, start);
      }
      return true;
    }

    method RebuildProjection(p: OrderSummaryProjection, budget: Option<nat>) returns (ok: bool)
      modifies this`checkpoint, p
      ensures State(log, p.table, checkpoint)
           == Perform(limit, State(log, old(p.table), old(checkpoint)), Rebuild(budget))
    {
      p.Reset();
      ok := RunProjection(p, Some(0), budget);
    }
  }

  // ---------------------------------------------------------------------
  // The table catches up with the log
  // ---------------------------------------------------------------------

  /**
   * The checkpoint lies after `c` rows and interrupted runs reached row `d`: completing the batch from the
   * checkpoint to any `m >= d` yields the summary of the first `m` rows.
   */
  ghost predicate Recoverable(s: State, c: nat, d: nat) {
    && At(s.log, s.checkpoint, c) && c <= d <= |s.log|
    && forall m :: d <= m <= |s.log| ==> Summarise(s.table, s.log[c..m]) == Summarise(map[], s.log[..m])
  }

  lemma FoldNext(t: Table, rows: Log, lo: nat, mid: nat, hi: nat)
    requires lo <= mid <= hi <= |rows|
    ensures Summarise(Summarise(t, rows[lo..mid]), rows[mid..hi]) == Summarise(t, rows[lo..hi])
  {
    assert rows[lo..mid] + rows[mid..hi] == rows[lo..hi];
    FoldSplit(ApplySummary, t, rows[lo..mid], rows[mid..hi]);
  }

  lemma AppendRecoverable(s: State, row: Row<OrderEvent>, c: nat, d: nat)
    requires Recoverable(s, c, d)
    ensures Recoverable(State(s.log + [row], s.table, s.checkpoint), c, d)
  {
    var log := s.log + [row];
    forall m | d <= m <= |log| ensures Summarise(s.table, log[c..m]) == Summarise(map[], log[..m]) {
      if m <= |s.log| {
        assert log[c..m] == s.log[c..m] && log[..m] == s.log[..m];
      } else {
        assert log[c..m][..m - 1 - c] == s.log[c..|s.log|] && log[..m][..m - 1] == s.log[..|s.log|];
      }
    }
  }

  /** An interrupted run may set back a status, but not past repair. */
  lemma InterruptedRecoverable(s: State, c: nat, d: nat, n: nat)
    requires ValidLog(s.log) && Recoverable(s, c, d) && c + n <= |s.log|
    ensures Recoverable(s.(table := Summarise(s.table, s.log[c..c + n])), c, if d < c + n then c + n else d)
  {
    forall m | d <= m <= |s.log| && c + n <= m
      ensures Summarise(Summarise(s.table, s.log[c..c + n]), s.log[c..m]) == Summarise(map[], s.log[..m])
    {
      SegmentOpenings(s.log, c, m);
      assert s.log[c..m][..n] == s.log[c..c + n];
      Absorb(s.table, s.log[c..m], n);
    }
  }

  lemma CompletedRecoverable(s: State, c: nat, d: nat, next: nat, checkpoint: nat)
    requires Recoverable(s, c, d) && d <= next <= |s.log| && At(s.log, checkpoint, next)
    ensures Recoverable(State(s.log, Summarise(s.table, s.log[c..next]), checkpoint), next, next)
    ensures Summarise(s.table, s.log[c..next]) == Summarise(map[], s.log[..next])
  {
    forall m | next <= m <= |s.log|
      ensures Summarise(Summarise(s.table, s.log[c..next]), s.log[next..m]) == Summarise(map[], s.log[..m])
    {
      FoldNext(s.table, s.log, c, next, m);
    }
  }

  lemma BlankRecoverable(log: Log)
    ensures Recoverable(State(log, map[], 0), 0, 0)
  {
    forall m | 0 <= m <= |log| ensures Summarise(map[], log[0..m]) == Summarise(map[], log[..m]) {
      assert log[0..m] == log[..m];
    }
  }

  /** A rebuild that dies after `n` rows keeps the old checkpoint: harmless exactly when it got at least that far. */
  lemma InterruptedRebuildIff(s: State, c: nat, n: nat)
    requires ValidLog(s.log) && At(s.log, s.checkpoint, c) && n <= |s.log|
    ensures Recoverable(s.(table := Summarise(map[], s.log[..n])), c, if n < c then c else n) <==> n >= c
  {
    var table := Summarise(map[], s.log[..n]);
    if n >= c {
      forall m | n <= m <= |s.log| ensures Summarise(table, s.log[c..m]) == Summarise(map[], s.log[..m]) {
        RestartInside(s.log, c, n, m);
      }
    } else {
      assert s.log[c..c] == [];
      PrefixesDiffer(s.log, n, c);
    }
  }

  lemma RestartInside(log: Log, c: nat, n: nat, m: nat)
    requires ValidLog(log) && c <= n <= m <= |log|
    ensures Summarise(Summarise(map[], log[..n]), log[c..m]) == Summarise(map[], log[..m])
  {
    var before := Summarise(map[], log[..c]);
    assert log[0..c] == log[..c] && log[0..n] == log[..n] && log[0..m] == log[..m];
    FoldNext(map[], log, 0, c, n);
    FoldNext(map[], log, 0, c, m);
    SegmentOpenings(log, c, m);
    assert log[c..m][..n - c] == log[c..n];
    Absorb(before, log[c..m], n - c);
  }

  /** The batch was completed, or the interrupted rebuild at least reached the checkpoint it leaves in place. */
  predicate Covers(batch: Log, budget: Option<nat>, checkpoint: nat) {
    var n := Reached(batch, budget);
    Completes(batch, budget) || checkpoint == 0 || (n > 0 && batch[n - 1].sequence >= checkpoint)
  }

  predicate Safe(limit: nat, s: State, op: Op) {
    op.Rebuild? ==> Covers(Batch(s.log, 0, limit), op.budget, s.checkpoint)
  }

  lemma CoversIff(log: Log, checkpoint: nat, c: nat, next: nat, budget: Option<nat>)
    requires Increasing(log) && At(log, checkpoint, c) && next <= |log|
    ensures Covers(log[0..next], budget, checkpoint)
        <==> Completes(log[0..next], budget) || Reached(log[0..next], budget) >= c
  {
    var n := Reached(log[0..next], budget);
    assert n > 0 ==> log[0..next][n - 1] == log[n - 1];
  }

  lemma AttemptRecoverable(s: State, batch: Log, budget: Option<nat>, c: nat, d: nat, next: nat)
    returns (after: State, c': nat, d': nat)
    requires ValidLog(s.log) && Recoverable(s, c, d) && d <= next <= |s.log|
    requires batch == s.log[c..next] && At(s.log, NextCheckpoint(batch, s.checkpoint), next)
    ensures after == Attempt(s, s.table, s.checkpoint, batch, budget)
    ensures Recoverable(after, c', d') && c <= c' && d' <= next && (Completes(batch, budget) ==> c' == d')
  {
    after := Attempt(s, s.table, s.checkpoint, batch, budget);
    var n := Reached(batch, budget);
    assert batch[..n] == s.log[c..c + n];
    if Completes(batch, budget) {
      c', d' := next, next;
      CompletedRecoverable(s, c, d, next, NextCheckpoint(batch, s.checkpoint));
    } else {
      c', d' := c, if d < c + n then c + n else d;
      InterruptedRecoverable(s, c, d, n);
    }
  }

  lemma RunRecoverable(limit: nat, s: State, budget: Option<nat>, c: nat, d: nat)
    returns (after: State, c': nat, d': nat)
    requires Increasing(s.log) && ValidLog(s.log) && Recoverable(s, c, d) && d <= c + limit
    ensures after == Perform(limit, s, Run(budget)) && Recoverable(after, c', d') && d' <= c' + limit
    ensures Completes(Batch(s.log, s.checkpoint, limit), budget) ==> c' == d'
  {
    BatchIsNext(s.log, s.checkpoint, c, limit);
    var next := c + Min(limit, |s.log| - c);
    var batch := Batch(s.log, s.checkpoint, limit);
    after, c', d' := AttemptRecoverable(s, batch, budget, c, d, next);
  }

  lemma RebuildAttemptRecoverable(s: State, batch: Log, budget: Option<nat>, c: nat, next: nat)
    returns (after: State, c': nat, d': nat)
    requires ValidLog(s.log) && At(s.log, s.checkpoint, c)
    requires next <= |s.log| && batch == s.log[0..next] && At(s.log, NextCheckpoint(batch, 0), next)
    requires Completes(batch, budget) || Reached(batch, budget) >= c
    ensures after == Attempt(s, map[], 0, batch, budget)
    ensures Recoverable(after, c', d') && d' <= next && (Completes(batch, budget) ==> c' == d')
  {
    after := Attempt(s, map[], 0, batch, budget);
    if Completes(batch, budget) {
      BlankRecoverable(s.log);
      var _, end, reach := AttemptRecoverable(State(s.log, map[], 0), batch, budget, 0, 0, next);
      c', d' := end, reach;
    } else {
      c', d' := c, Reached(batch, budget);
      assert batch[..d'] == s.log[..d'];
      InterruptedRebuildIff(s, c, d');
    }
  }

  /** A rebuild that completes repairs the table whatever state it was in; so does an interrupted one that got far enough. */
  lemma RebuildRecoverable(limit: nat, s: State, budget: Option<nat>, c: nat)
    returns (after: State, c': nat, d': nat)
    requires Increasing(s.log) && ValidLog(s.log) && At(s.log, s.checkpoint, c)
    requires Safe(limit, s, Rebuild(budget))
    ensures after == Perform(limit, s, Rebuild(budget)) && Recoverable(after, c', d') && d' <= limit
    ensures Completes(Batch(s.log, 0, limit), budget) ==> c' == d'
  {
    var next := Min(limit, |s.log|);
    BatchIsNext(s.log, 0, 0, limit);
    CoversIff(s.log, s.checkpoint, c, next, budget);
    var batch := Batch(s.log, 0, limit);
    after, c', d' := RebuildAttemptRecoverable(s, batch, budget, c, next);
  }

  // ---------------------------------------------------------------------
  // Runs
  // ---------------------------------------------------------------------

  predicate AlwaysSafe(limit: nat, ops: seq<Op>) {
    ops == [] ||
    (AlwaysSafe(limit, ops[..|ops| - 1]) && Safe(limit, PerformAll(limit, START, ops[..|ops| - 1]), ops[|ops| - 1]))
  }

  /** The operation reaches the end of its batch and commits the checkpoint. */
  predicate Finishes(limit: nat, s: State, op: Op) {
    match op
    case Append(_) => false
    case Run(budget) => Completes(Batch(s.log, s.checkpoint, limit), budget)
    case Rebuild(budget) => Completes(Batch(s.log, 0, limit), budget)
  }

  lemma PerformRecoverable(limit: nat, s: State, op: Op, c: nat, d: nat) returns (after: State, c': nat, d': nat)
    requires Increasing(s.log) && ValidLog(s.log) && Recoverable(s, c, d) && d <= c + limit
    requires Safe(limit, s, op)
    ensures after == Perform(limit, s, op) && Recoverable(after, c', d') && d' <= c' + limit
    ensures Finishes(limit, s, op) ==> c' == d'
  {
    match op {
      case Append(row) =>
        after, c', d' := State(s.log + [row], s.table, s.checkpoint), c, d;
        AppendRecoverable(s, row, c, d);
      case Run(budget) =>
        after, c', d' := RunRecoverable(limit, s, budget, c, d);
      case Rebuild(budget) =>
        after, c', d' := RebuildRecoverable(limit, s, budget, c);
    }
  }

  lemma LogGrows(limit: nat, s: State, op: Op)
    ensures s.log <= Perform(limit, s, op).log
  {
  }

  lemma LogPrefixOk(a: Log, b: Log)
    requires a <= b && Increasing(b) && ValidLog(b)
    ensures Increasing(a) && ValidLog(a)
  {
    IncreasingPrefix(a, b);
    ValidPrefix(b, |a|);
    assert b[..|a|] == a;
  }

  /**
   * Over any log of valid histories in increasing order and whatever runs die or raise half-way, completing the
   * next batch always yields the summary of the log up to its end.
   */
  lemma {:induction false} EveryRunRecoverable(limit: nat, ops: seq<Op>) returns (c: nat, d: nat)
    requires Increasing(PerformAll(limit, START, ops).log) && ValidLog(PerformAll(limit, START, ops).log)
    requires AlwaysSafe(limit, ops)
    ensures Recoverable(PerformAll(limit, START, ops), c, d) && d <= c + limit
    ensures ops != [] && Finishes(limit, PerformAll(limit, START, ops[..|ops| - 1]), ops[|ops| - 1]) ==> c == d
  {
    if ops == [] {
      c, d := 0, 0;
      BlankRecoverable([]);
    } else {
      var init, op := ops[..|ops| - 1], ops[|ops| - 1];
      var s := PerformAll(limit, START, init);
      LogGrows(limit, s, op);
      LogPrefixOk(s.log, PerformAll(limit, START, ops).log);
      c, d := EveryRunRecoverable(limit, init);
      var after;
      after, c, d := PerformRecoverable(limit, s, op, c, d);
    }
  }

  /** After an operation that finished, every row of the table is what its aggregate replays to at the checkpoint. */
  lemma FinishedRunReports(limit: nat, ops: seq<Op>, id: Id) returns (c: nat)
    requires Increasing(PerformAll(limit, START, ops).log) && ValidLog(PerformAll(limit, START, ops).log)
    requires AlwaysSafe(limit, ops) && ops != []
    requires Finishes(limit, PerformAll(limit, START, ops[..|ops| - 1]), ops[|ops| - 1])
    ensures var s := PerformAll(limit, START, ops);
      At(s.log, s.checkpoint, c) && Lookup(s.table, id) == Report(Stream(s.log[..c], id))
  {
    var d;
    c, d := EveryRunRecoverable(limit, ops);
    var s := PerformAll(limit, START, ops);
    assert s.log[c..c] == [];
    ValidPrefix(s.log, c);
    SummaryAgreesWithReplay(s.log[..c], id);
  }

  lemma CompletedRowsFit(log: Log, lo: nat, hi: nat)
    requires lo <= hi <= |log| && FitPrefix(log[lo..hi]) == hi - lo
    ensures forall i :: lo <= i < hi ==> Fits(log[i].event)
  {
    forall i | lo <= i < hi ensures Fits(log[i].event) {
      assert log[lo..hi][i - lo] == log[i];
    }
  }

  /** A batch that completes ends before the first row that cannot be inserted. */
  lemma CompletedBefore(limit: nat, log: Log, start: nat, from: nat, p: nat) returns (end: nat)
    requires Increasing(log) && At(log, start, from) && from <= p < |log| && !Fits(log[p].event)
    requires var batch := Batch(log, start, limit); FitPrefix(batch) == |batch|
    ensures end <= p && At(log, NextCheckpoint(Batch(log, start, limit), start), end)
  {
    end := from + Min(limit, |log| - from);
    BatchIsNext(log, start, from, limit);
    CompletedRowsFit(log, from, end);
  }

  lemma BlockedStep(limit: nat, s: State, op: Op, c: nat, p: nat) returns (c': nat)
    requires Increasing(s.log) && At(s.log, s.checkpoint, c) && c <= p < |s.log| && !Fits(s.log[p].event)
    ensures c' <= p && At(Perform(limit, s, op).log, Perform(limit, s, op).checkpoint, c')
  {
    c' := c;
    if Finishes(limit, s, op) {
      if op.Run? {
        c' := CompletedBefore(limit, s.log, s.checkpoint, c, p);
      } else {
        c' := CompletedBefore(limit, s.log, 0, 0, p);
      }
    }
  }

  /** Whatever happens the checkpoint marks some row of the log. */
  lemma StepPosition(limit: nat, s: State, op: Op, c: nat) returns (c': nat)
    requires Increasing(s.log) && At(s.log, s.checkpoint, c)
    ensures At(Perform(limit, s, op).log, Perform(limit, s, op).checkpoint, c') && c' <= |s.log|
  {
    c' := c;
    if Finishes(limit, s, op) {
      var start, from := if op.Run? then s.checkpoint else 0, if op.Run? then c else 0;
      BatchIsNext(s.log, start, from, limit);
      c' := from + Min(limit, |s.log| - from);
    }
  }

  /** A placed order whose total does not fit the column stops the projection: no run ever gets past it. */
  lemma {:induction false} OversizedOrderBlocks(limit: nat, s: State, ops: seq<Op>, c: nat, p: nat) returns (c': nat)
    requires var log := PerformAll(limit, s, ops).log; Increasing(log) && p < |log| && !Fits(log[p].event)
    requires At(s.log, s.checkpoint, c) && c <= p
    ensures s.log <= PerformAll(limit, s, ops).log
    ensures c' <= p && At(PerformAll(limit, s, ops).log, PerformAll(limit, s, ops).checkpoint, c')
  {
    c' := c;
    if ops != [] {
      var init, op := ops[..|ops| - 1], ops[|ops| - 1];
      var s1 := PerformAll(limit, s, init);
      LogGrows(limit, s1, op);
      IncreasingPrefix(s1.log, PerformAll(limit, s, ops).log);
      if p < |s1.log| {
        c' := OversizedOrderBlocks(limit, s, init, c, p);
        c' := BlockedStep(limit, s1, op, c', p);
      } else {
        c' := EveryPosition(limit, s, init, c);
        c' := StepPosition(limit, s1, op, c');
      }
    }
  }

  lemma {:induction false} EveryPosition(limit: nat, s: State, ops: seq<Op>, c: nat) returns (c': nat)
    requires Increasing(PerformAll(limit, s, ops).log) && At(s.log, s.checkpoint, c)
    ensures s.log <= PerformAll(limit, s, ops).log
    ensures At(PerformAll(limit, s, ops).log, PerformAll(limit, s, ops).checkpoint, c')
  {
    c' := c;
    if ops != [] {
      var s1 := PerformAll(limit, s, ops[..|ops| - 1]);
      LogGrows(limit, s1, ops[|ops| - 1]);
      IncreasingPrefix(s1.log, PerformAll(limit, s, ops).log);
      c' := EveryPosition(limit, s, ops[..|ops| - 1], c);
      c' := StepPosition(limit, s1, ops[|ops| - 1], c');
    }
  }

  // When the projection does get through -----------------------------------------

  ghost predicate AllFit(log: Log, lo: nat, hi: nat)
    requires hi <= |log|
  {
    forall i :: lo <= i < hi ==> Fits(log[i].event)
  }

  lemma FitSlice(log: Log, lo: nat, hi: nat)
    requires lo <= hi <= |log| && AllFit(log, lo, hi)
    ensures FitPrefix(log[lo..hi]) == hi - lo
  {
    forall i | 0 <= i < hi - lo ensures Fits(log[lo..hi][i].event) {
      assert log[lo..hi][i] == log[lo + i];
    }
  }

  /** An undisturbed run. */
  function OneRun(limit: nat): State -> State {
    (s: State) => Perform(limit, s, Run(None))
  }

  /** `s` is over `log` with the checkpoint after `c + n` rows. */
  ghost predicate Reaches(log: Log, s: State, c: nat, n: nat) {
    s.log == log && At(log, s.checkpoint, c + n)
  }

  lemma OneRunReaches(limit: nat, log: Log, s: State, c: nat, n: nat)
    requires Increasing(log) && c <= |log| && AllFit(log, c, |log|) && Reaches(log, s, c, n)
    ensures Reaches(log, OneRun(limit)(s), c, n + Min(limit, |log| - c - n))
  {
    var from := c + n;
    var next := from + Min(limit, |log| - from);
    BatchIsNext(log, s.checkpoint, from, limit);
    FitSlice(log, from, next);
  }

  /** When every row from the checkpoint on fits, n undisturbed runs advance it by n batches or to the end. */
  lemma RunsAdvance(limit: nat, s: State, c: nat, n: nat)
    requires Increasing(s.log) && At(s.log, s.checkpoint, c) && AllFit(s.log, c, |s.log|)
    ensures Reaches(s.log, Iterate(OneRun(limit), s, n), c, Held(limit, |s.log| - c, n))
  {
    var rest := |s.log| - c;
    forall v, k: nat | Reaches(s.log, v, c, k) ensures Reaches(s.log, OneRun(limit)(v), c, k + Min(limit, rest - k)) {
      OneRunReaches(limit, s.log, v, c, k);
    }
    IterateTakes(OneRun(limit), (v, k: nat) => Reaches(s.log, v, c, k), limit, rest, s, n);
  }

  function Runs(n: nat): seq<Op> {
    seq(n, i => Run(None))
  }

  lemma {:induction false} RunsAreIterations(limit: nat, s: State, n: nat)
    ensures PerformAll(limit, s, Runs(n)) == Iterate(OneRun(limit), s, n)
  {
    if n > 0 {
      RunsAreIterations(limit, s, n - 1);
      assert Runs(n)[..n - 1] == Runs(n - 1);
    }
  }

  lemma EnoughRuns(limit: nat, rest: nat, n: nat)
    requires limit >= 1 && n >= rest
    ensures Held(limit, rest, n) == rest
  {
    assert n * limit >= n;
  }

  predicate NoAppends(ops: seq<Op>) {
    forall op :: op in ops ==> !op.Append?
  }

  lemma {:induction false} NoAppendsKeepLog(limit: nat, s: State, ops: seq<Op>)
    requires NoAppends(ops)
    ensures PerformAll(limit, s, ops).log == s.log
  {
    if ops != [] {
      assert ops[|ops| - 1] in ops;
      NoAppendsKeepLog(limit, s, ops[..|ops| - 1]);
    }
  }

  ghost predicate AtEnd(s: State) {
    At(s.log, s.checkpoint, |s.log|)
  }

  lemma AtIsUnique(log: Log, checkpoint: nat, a: nat, b: nat)
    requires Increasing(log) && At(log, checkpoint, a) && At(log, checkpoint, b)
    ensures a == b
  {
  }

  lemma RunsAppendNothing(n: nat)
    ensures NoAppends(Runs(n))
  {
  }

  lemma EnoughRunsReachEnd(limit: nat, s: State, c: nat, n: nat) returns (end: State)
    requires limit >= 1 && Increasing(s.log) && At(s.log, s.checkpoint, c) && AllFit(s.log, c, |s.log|)
    requires n == |s.log| - c
    ensures end == Iterate(OneRun(limit), s, n) && Reaches(s.log, end, c, n)
  {
    end := Iterate(OneRun(limit), s, n);
    assert Held(limit, n, n) == n by {
      EnoughRuns(limit, n, n);
    }
    assert Reaches(s.log, end, c, Held(limit, n, n)) by {
      RunsAdvance(limit, s, c, n);
    }
  }

  lemma FitsThenCatchesUp(limit: nat, s: State, c: nat) returns (ops: seq<Op>, end: State)
    requires limit >= 1 && Increasing(s.log) && At(s.log, s.checkpoint, c) && AllFit(s.log, c, |s.log|)
    ensures NoAppends(ops) && end == PerformAll(limit, s, ops) && Reaches(s.log, end, c, |s.log| - c)
  {
    end := EnoughRunsReachEnd(limit, s, c, |s.log| - c);
    ops := Runs(|s.log| - c);
    RunsAppendNothing(|s.log| - c);
    RunsAreIterations(limit, s, |s.log| - c);
  }

  /** With nothing appended the projection can reach the end of the log exactly when every row still ahead of it fits. */
  lemma CatchesUpIff(limit: nat, s: State, c: nat)
    requires limit >= 1 && Increasing(s.log) && At(s.log, s.checkpoint, c)
    ensures (exists ops :: NoAppends(ops) && AtEnd(PerformAll(limit, s, ops))) <==> AllFit(s.log, c, |s.log|)
  {
    if AllFit(s.log, c, |s.log|) {
      var ops, end := FitsThenCatchesUp(limit, s, c);
      assert AtEnd(end);
    }
    if ops :| NoAppends(ops) && AtEnd(PerformAll(limit, s, ops)) {
      NoAppendsKeepLog(limit, s, ops);
      forall p | c <= p < |s.log| ensures Fits(s.log[p].event) {
        if !Fits(s.log[p].event) {
          var c' := OversizedOrderBlocks(limit, s, ops, c, p);
          AtIsUnique(s.log, PerformAll(limit, s, ops).checkpoint, c', |s.log|);
        }
      }
    }
  }

  lemma {:induction false} PerformSplit(limit: nat, s: State, a: seq<Op>, b: seq<Op>)
    ensures PerformAll(limit, s, a + b) == PerformAll(limit, PerformAll(limit, s, a), b)
  {
    if b == [] {
      assert a + b == a;
    } else {
      assert (a + b)[..|a + b| - 1] == a + b[..|b| - 1];
      PerformSplit(limit, s, a, b[..|b| - 1]);
    }
  }

  function Appends(rows: Log): seq<Op> {
    seq(|rows|, i requires 0 <= i < |rows| => Append(rows[i]))
  }

  lemma {:induction false} AppendsOnly(limit: nat, s: State, rows: Log)
    ensures PerformAll(limit, s, Appends(rows)) == s.(log := s.log + rows)
  {
    if rows == [] {
      assert s.log + rows == s.log;
    } else {
      var init := rows[..|rows| - 1];
      AppendsOnly(limit, s, init);
      assert Appends(rows)[..|rows| - 1] == Appends(init);
      assert s.log + init + [rows[|rows| - 1]] == s.log + rows;
    }
  }

  /** The run ends over `log` with at least `m` rows behind the checkpoint. */
  ghost predicate Passes(limit: nat, ops: seq<Op>, log: Log, m: nat) {
    var s := PerformAll(limit, START, ops);
    s.log == log && exists c :: m <= c && At(log, s.checkpoint, c)
  }

  lemma RunsBetween(limit: nat, first: Log, runs: seq<Op>, end: State, rest: Log)
    requires end == PerformAll(limit, State(first, map[], 0), runs)
    ensures PerformAll(limit, START, Appends(first) + runs + Appends(rest)) == end.(log := end.log + rest)
  {
    AppendsOnly(limit, START, first);
    assert [] + first == first;
    PerformSplit(limit, START, Appends(first), runs);
    PerformSplit(limit, START, Appends(first) + runs, Appends(rest));
    AppendsOnly(limit, end, rest);
  }

  lemma FitsThenPasses(limit: nat, log: Log, m: nat) returns (ops: seq<Op>)
    requires limit >= 1 && Increasing(log) && m <= |log| && AllFit(log, 0, m)
    ensures Passes(limit, ops, log, m)
  {
    var first, rest := log[..m], log[m..];
    IncreasingPrefix(first, log);
    var runs, end := FitsThenCatchesUp(limit, State(first, map[], 0), 0);
    ops := Appends(first) + runs + Appends(rest);
    RunsBetween(limit, first, runs, end, rest);
    assert first + rest == log;
    assert At(log, end.checkpoint, m);
  }

  /** Some run gets past the first `m` rows of a log exactly when every one of them fits. */
  lemma SomeRunPassesIff(limit: nat, log: Log, m: nat)
    requires limit >= 1 && Increasing(log) && m <= |log|
    ensures (exists ops :: Passes(limit, ops, log, m)) <==> AllFit(log, 0, m)
  {
    if AllFit(log, 0, m) {
      var ops := FitsThenPasses(limit, log, m);
    }
    if ops :| Passes(limit, ops, log, m) {
      var checkpoint := PerformAll(limit, START, ops).checkpoint;
      var c :| m <= c && At(log, checkpoint, c);
      forall p | 0 <= p < m ensures Fits(log[p].event) {
        if !Fits(log[p].event) {
          var c' := OversizedOrderBlocks(limit, START, ops, 0, p);
          AtIsUnique(log, checkpoint, c', c);
        }
      }
    }
  }
}
