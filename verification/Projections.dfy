/** The projection runner: batches of the event log applied to a read model behind a sequence checkpoint. */
module Projections {
  import opened Batches
  import opened Options
  import opened Sorting

  type Id = nat

  /** A row of the event log; `sequence` counts within one aggregate stream only. */
  datatype Row<E> = Row(id: Id, sequence: nat, event: E)

  function BySequence<E>(): (Row<E>, Row<E>) -> bool {
    (a: Row<E>, b: Row<E>) => a.sequence <= b.sequence
  }

  function After<E>(checkpoint: nat): Row<E> -> bool {
    (r: Row<E>) => r.sequence > checkpoint
  }

  /** The rows after the checkpoint in sequence order. */
  function Eligible<E>(log: seq<Row<E>>, checkpoint: nat): seq<Row<E>> {
    Sort(BySequence(), Filter(After(checkpoint), log))
  }

  /** One batch: the query with its `LIMIT`. */
  function Batch<E>(log: seq<Row<E>>, checkpoint: nat, limit: nat): seq<Row<E>> {
    Take(Eligible(log, checkpoint), limit)
  }

  function Fold<E, M>(apply: (M, E) -> M, m: M, rows: seq<Row<E>>): M {
    if rows == [] then m else apply(Fold(apply, m, rows[..|rows| - 1]), rows[|rows| - 1].event)
  }

  function NextCheckpoint<E>(batch: seq<Row<E>>, checkpoint: nat): nat {
    if batch == [] then checkpoint else batch[|batch| - 1].sequence
  }

  function Get(checkpoints: map<string, nat>, name: string): nat {
    if name in checkpoints then checkpoints[name] else 0
  }

  /** One batch took the read model and its checkpoint from the old to the new values. */
  ghost predicate RanOnce<E, M>(log: seq<Row<E>>, limit: nat, apply: (M, E) -> M, m: M, m': M, cp: nat, cp': nat) {
    var batch := Batch(log, cp, limit);
    m' == Fold(apply, m, batch) && cp' == NextCheckpoint(batch, cp)
  }

  function BatchSize<E>(log: seq<Row<E>>, checkpoint: nat, limit: nat): nat {
    |Batch(log, checkpoint, limit)|
  }

  /** Rows that one batch for each of the projections applies. */
  function BatchTotal<E, M>(log: seq<Row<E>>, checkpoints: map<string, nat>, projections: seq<Projection<E, M>>, limit: nat): nat {
    if projections == [] then 0
    else
      var last := |projections| - 1;
      BatchTotal(log, checkpoints, projections[..last], limit) + BatchSize(log, Get(checkpoints, projections[last].name), limit)
  }

  lemma OneMoreTotal<E, M>(log: seq<Row<E>>, checkpoints: map<string, nat>, projections: seq<Projection<E, M>>, k: nat, limit: nat)
    requires k < |projections|
    ensures BatchTotal(log, checkpoints, projections[..k + 1], limit)
         == BatchTotal(log, checkpoints, projections[..k], limit) + BatchSize(log, Get(checkpoints, projections[k].name), limit)
  {
    assert projections[..k + 1][..k] == projections[..k];
  }

  class Projection<E, M> {
    const name: string
    const apply: (M, E) -> M
    const empty: M
    var model: M

    constructor (name: string, apply: (M, E) -> M, empty: M)
      ensures this.name == name && this.apply == apply && this.empty == empty && model == empty
    {
      this.name, this.apply, this.empty, this.model := name, apply, empty, empty;
    }

    method Apply(e: E)
      modifies this
      ensures model == apply(old(model), e)
    {
      model := apply(model, e);
    }

    method Reset()
      modifies this
      ensures model == empty
    {
      model := empty;
    }
  }

  /** Checkpoints are kept by name. */
  predicate DistinctNames<E, M>(projections: seq<Projection<E, M>>) {
    forall i, j :: 0 <= i < |projections| && 0 <= j < |projections| && i != j ==> projections[i].name != projections[j].name
  }

  class ProjectionRunner<E, M> {
    const limit: nat
    var log: seq<Row<E>>
    var checkpoints: map<string, nat>

    constructor (limit: nat)
      ensures this.limit == limit && log == [] && checkpoints == map[]
    {
      this.limit := limit;
      log, checkpoints := [], map[];
    }

    /** Applies one batch from `from`, or from the stored checkpoint. */
    method RunProjection(p: Projection<E, M>, from: Option<nat>) returns (n: nat)
      modifies this`checkpoints, p
      ensures var start := if from.Some? then from.value else Get(old(checkpoints), p.name);
        var batch := Batch(log, start, limit);
        && n == |batch|
        && p.model == Fold(p.apply, old(p.model), batch)
        && checkpoints == if batch == [] then old(checkpoints)
                          else old(checkpoints)[p.name := NextCheckpoint(batch, start)]
      ensures from.None? && p.name !in old(checkpoints) ==> n == |Batch(log, 0, limit)|
    {
      var start := if from.Some? then from.value else Get(checkpoints, p.name);
      var batch := Batch(log, start, limit);
      if batch == [] {
        return 0;
      }
      for i := 0 to |batch|
        invariant p.model == Fold(p.apply, old(p.model), batch[..i])
        invariant checkpoints == old(checkpoints)
      {
        assert batch[..i + 1][..i] == batch[..i];
        p.Apply(batch[i].event);
      }
      assert batch[..|batch|] == batch;
      checkpoints := checkpoints[p.name := batch[|batch| - 1].sequence];
      return |batch|;
    }

    /** Clears the read model and the checkpoint, then applies one batch. */
    method Rebuild(p: Projection<E, M>) returns (n: nat)
      modifies this`checkpoints, p
      ensures var batch := Batch(log, 0, limit);
        && n == |batch|
        && p.model == Fold(p.apply, p.empty, batch)
        && checkpoints == old(checkpoints)[p.name := NextCheckpoint(batch, 0)]
    {
      p.Reset();
      checkpoints := checkpoints[p.name := 0];
      n := RunProjection(p, Some(0));
    }

    /** One batch for every registered projection. */
    method RunOnce(projections: seq<Projection<E, M>>) returns (total: nat)
      requires DistinctNames(projections)
      modifies this`checkpoints, projections
      ensures forall i :: 0 <= i < |projections| ==>
        var p := projections[i];
        RanOnce(log, limit, p.apply, old(p.model), p.model, Get(old(checkpoints), p.name), Get(checkpoints, p.name))
      ensures total == BatchTotal(log, old(checkpoints), projections, limit)
    {
      total := 0;
      for k := 0 to |projections|
        invariant total == BatchTotal(log, old(checkpoints), projections[..k], limit)
        invariant forall i :: 0 <= i < k ==>
          var p := projections[i];
          RanOnce(log, limit, p.apply, old(p.model), p.model, Get(old(checkpoints), p.name), Get(checkpoints, p.name))
        invariant forall i :: k <= i < |projections| ==>
          && projections[i].model == old(projections[i].model)
          && Get(checkpoints, projections[i].name) == Get(old(checkpoints), projections[i].name)
      {
        var n := RunNext(projections, k);
        total := total + n;
        OneMoreTotal(log, old(checkpoints), projections, k, limit);
      }
      assert projections[..|projections|] == projections;
    }

    /** One batch for one of them, from its stored checkpoint; the others keep what they have. */
    method RunNext(projections: seq<Projection<E, M>>, k: nat) returns (n: nat)
      requires DistinctNames(projections) && k < |projections|
      modifies this`checkpoints, projections[k]
      ensures n == BatchSize(log, Get(old(checkpoints), projections[k].name), limit)
      ensures var p := projections[k];
        RanOnce(log, limit, p.apply, old(p.model), p.model, Get(old(checkpoints), p.name), Get(checkpoints, p.name))
      ensures forall i :: 0 <= i < |projections| && i != k ==>
        && projections[i].model == old(projections[i].model)
        && Get(checkpoints, projections[i].name) == Get(old(checkpoints), projections[i].name)
    {
      n := RunProjection(projections[k], None);
    }
  }

  // ---------------------------------------------------------------------
  // The query over arbitrary logs
  // ---------------------------------------------------------------------

  ghost predicate DistinctIds<E>(rows: seq<Row<E>>) {
    forall i, j :: 0 <= i < j < |rows| ==> rows[i].id != rows[j].id
  }

  lemma DistinctHead<E>(rows: seq<Row<E>>, r: Row<E>)
    requires DistinctIds(rows) && rows != [] && r in rows[1..]
    ensures r.id != rows[0].id
  {
    var i :| 0 <= i < |rows[1..]| && rows[1..][i] == r;
    assert rows[i + 1] == r;
  }

  lemma {:induction false} FilterDistinct<E>(p: Row<E> -> bool, rows: seq<Row<E>>)
    requires DistinctIds(rows)
    ensures DistinctIds(Filter(p, rows))
  {
    if rows != [] {
      FilterDistinct(p, rows[1..]);
      forall r | r in Filter(p, rows[1..]) ensures r.id != rows[0].id {
        FilterMembers(p, rows[1..], r);
        DistinctHead(rows, r);
      }
    }
  }

  lemma InsertMembers<E>(le: (Row<E>, Row<E>) -> bool, x: Row<E>, rows: seq<Row<E>>, r: Row<E>)
    requires r in InsertFront(le, x, rows)
    ensures r == x || r in rows
  {
    InsertFrontElements(le, x, rows);
    assert r in multiset(InsertFront(le, x, rows));
    assert r in multiset{x} + multiset(rows);
    assert r in rows <==> r in multiset(rows);
  }

  lemma {:induction false} InsertDistinct<E>(le: (Row<E>, Row<E>) -> bool, x: Row<E>, rows: seq<Row<E>>)
    requires DistinctIds(rows) && forall r :: r in rows ==> r.id != x.id
    ensures DistinctIds(InsertFront(le, x, rows))
  {
    if rows != [] && !le(x, rows[0]) {
      InsertDistinct(le, x, rows[1..]);
      forall r | r in InsertFront(le, x, rows[1..]) ensures r.id != rows[0].id {
        InsertMembers(le, x, rows[1..], r);
        if r != x {
          DistinctHead(rows, r);
        }
      }
    }
  }

  lemma {:induction false} SortDistinct<E>(le: (Row<E>, Row<E>) -> bool, rows: seq<Row<E>>)
    requires DistinctIds(rows)
    ensures DistinctIds(Sort(le, rows))
  {
    if rows != [] {
      SortDistinct(le, rows[1..]);
      forall r | r in Sort(le, rows[1..]) ensures r.id != rows[0].id {
        SortMembers(le, rows[1..], r);
        DistinctHead(rows, r);
      }
      InsertDistinct(le, rows[0], Sort(le, rows[1..]));
    }
  }

  lemma SequencePreorder<E(!new)>()
    ensures TotalPreorder<Row<E>>(BySequence())
  {
  }

  /** What the query returns: the rows after the checkpoint, in sequence order. */
  ghost predicate IsQuery<E(!new)>(log: seq<Row<E>>, checkpoint: nat, rows: seq<Row<E>>) {
    && DistinctIds(rows)
    && (forall r :: r in rows <==> r in log && r.sequence > checkpoint)
    && forall i, j :: 0 <= i < j < |rows| ==> rows[i].sequence <= rows[j].sequence
  }

  lemma EligibleIsQuery<E(!new)>(log: seq<Row<E>>, checkpoint: nat)
    requires DistinctIds(log)
    ensures IsQuery(log, checkpoint, Eligible(log, checkpoint))
  {
    var rows := Filter(After(checkpoint), log);
    FilterDistinct(After(checkpoint), log);
    SortDistinct(BySequence(), rows);
    SequencePreorder<E>();
    SortOrders(BySequence(), (a: Row<E>, b: Row<E>) => true, rows);
    var all := Eligible(log, checkpoint);
    forall r ensures r in all <==> r in log && r.sequence > checkpoint {
      EligibleMembers(log, checkpoint, r);
    }
    forall i, j | 0 <= i < j < |all| ensures all[i].sequence <= all[j].sequence {
      assert Then(BySequence(), (a: Row<E>, b: Row<E>) => true)(all[i], all[j]);
    }
  }

  lemma EligibleMembers<E>(log: seq<Row<E>>, checkpoint: nat, r: Row<E>)
    ensures r in Eligible(log, checkpoint) <==> r in log && r.sequence > checkpoint
  {
    SortMembers(BySequence(), Filter(After(checkpoint), log), r);
    FilterMembers(After(checkpoint), log, r);
  }

  /** A batch is made of different rows of the log, all after the old checkpoint and none after the new one. */
  lemma BatchFacts<E(!new)>(log: seq<Row<E>>, checkpoint: nat, limit: nat)
    requires DistinctIds(log)
    ensures var batch := Batch(log, checkpoint, limit);
      && DistinctIds(batch)
      && checkpoint <= NextCheckpoint(batch, checkpoint)
      && forall r :: r in batch ==> r in log && checkpoint < r.sequence <= NextCheckpoint(batch, checkpoint)
  {
    EligibleIsQuery(log, checkpoint);
    TakeFacts(log, checkpoint, Eligible(log, checkpoint), limit);
  }

  lemma TakeFacts<E(!new)>(log: seq<Row<E>>, checkpoint: nat, rows: seq<Row<E>>, limit: nat)
    requires IsQuery(log, checkpoint, rows)
    ensures var batch := Take(rows, limit);
      && DistinctIds(batch)
      && checkpoint <= NextCheckpoint(batch, checkpoint)
      && forall r :: r in batch ==> r in log && checkpoint < r.sequence <= NextCheckpoint(batch, checkpoint)
  {
    var batch := Take(rows, limit);
    forall r | r in batch ensures r in log && checkpoint < r.sequence <= NextCheckpoint(batch, checkpoint) {
      assert r in rows;
    }
    if batch != [] {
      assert batch[|batch| - 1] in batch;
    }
  }

  /** The `LIMIT` does not separate two rows of equal sequence. */
  predicate CleanCut<E>(eligible: seq<Row<E>>, limit: nat) {
    limit == 0 || |eligible| <= limit || eligible[limit - 1].sequence != eligible[limit].sequence
  }

  // ---------------------------------------------------------------------
  // Logs with increasing sequences
  // ---------------------------------------------------------------------

  /** Each row's sequence exceeds all earlier ones, and sequences start at 1. */
  ghost predicate Increasing<E>(log: seq<Row<E>>) {
    && (forall i, j :: 0 <= i < j < |log| ==> log[i].sequence < log[j].sequence)
    && (forall i :: 0 <= i < |log| ==> log[i].sequence >= 1)
  }

  /** The checkpoint lies after the first `pos` rows. */
  ghost predicate At<E>(log: seq<Row<E>>, checkpoint: nat, pos: nat) {
    pos <= |log| && checkpoint == if pos == 0 then 0 else log[pos - 1].sequence
  }

  lemma EligibleIsRest<E(!new)>(log: seq<Row<E>>, checkpoint: nat, pos: nat)
    requires Increasing(log) && At(log, checkpoint, pos)
    ensures Eligible(log, checkpoint) == log[pos..]
  {
    RestAfterCheckpoint(log, checkpoint, pos);
    SortFixed(BySequence(), log[pos..]);
  }

  lemma BeforeAndAfter<E>(log: seq<Row<E>>, checkpoint: nat, pos: nat)
    requires Increasing(log) && At(log, checkpoint, pos)
    ensures forall r :: r in log[..pos] ==> r.sequence <= checkpoint
    ensures forall r :: r in log[pos..] ==> r.sequence > checkpoint
  {
  }

  lemma RestAfterCheckpoint<E>(log: seq<Row<E>>, checkpoint: nat, pos: nat)
    requires Increasing(log) && At(log, checkpoint, pos)
    ensures Filter(After(checkpoint), log) == log[pos..]
  {
    BeforeAndAfter(log, checkpoint, pos);
    FilterBeforeAndAfter(log[..pos], log[pos..], checkpoint);
    assert log == log[..pos] + log[pos..];
  }

  lemma FilterBeforeAndAfter<E>(done: seq<Row<E>>, rest: seq<Row<E>>, checkpoint: nat)
    requires forall r :: r in done ==> r.sequence <= checkpoint
    requires forall r :: r in rest ==> r.sequence > checkpoint
    ensures Filter(After(checkpoint), done + rest) == rest
  {
    FilterSplit(After(checkpoint), done, rest);
    FilterNone(After(checkpoint), done);
    FilterAll(After(checkpoint), rest);
  }

  lemma BatchIsNext<E(!new)>(log: seq<Row<E>>, checkpoint: nat, pos: nat, limit: nat)
    requires Increasing(log) && At(log, checkpoint, pos)
    ensures var next := pos + Min(limit, |log| - pos);
      Batch(log, checkpoint, limit) == log[pos..next] && At(log, NextCheckpoint(log[pos..next], checkpoint), next)
  {
    EligibleIsRest(log, checkpoint, pos);
  }

  lemma {:induction false} FoldSplit<E, M>(apply: (M, E) -> M, m: M, a: seq<Row<E>>, b: seq<Row<E>>)
    ensures Fold(apply, m, a + b) == Fold(apply, Fold(apply, m, a), b)
  {
    if b == [] {
      assert a + b == a;
    } else {
      FoldSplit(apply, m, a, b[..|b| - 1]);
      assert (a + b)[..|a + b| - 1] == a + b[..|b| - 1];
    }
  }

  lemma IncreasingPrefix<E>(a: seq<Row<E>>, b: seq<Row<E>>)
    requires a <= b && Increasing(b)
    ensures Increasing(a)
  {
    assert forall i :: 0 <= i < |a| ==> a[i] == b[i];
  }
}
