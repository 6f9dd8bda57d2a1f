/** Forwarding published outbox rows to a remote region behind an (occurred_at, id) checkpoint. */
module Replicator {
  import opened Batches
  import opened Lexicographic
  import opened Options
  import opened Sorting
  import opened Uuids

  datatype Row = Row(id: Uuid, occurredAt: int, event: string, published: bool)

  /** The checkpoint row keeps the identifier as text. */
  datatype Mark = Mark(occurredAt: int, idText: string)

  type Checkpoint = Option<Mark>

  function MarkOf(r: Row): Mark {
    Mark(r.occurredAt, UuidText(r.id))
  }

  /** The `WHERE` clause on the checkpoint. */
  predicate Beyond(r: Row, cp: Checkpoint) {
    cp.None? || r.occurredAt > cp.value.occurredAt
    || (r.occurredAt == cp.value.occurredAt && TextLess(cp.value.idText, UuidText(r.id)))
  }

  function Visible(cp: Checkpoint): Row -> bool {
    (r: Row) => r.published && Beyond(r, cp)
  }

  predicate KeyLess(a: Row, b: Row) {
    a.occurredAt < b.occurredAt || (a.occurredAt == b.occurredAt && IdLess(a.id, b.id))
  }

  /** `ORDER BY occurred_at, id` */
  function ByKey(): (Row, Row) -> bool {
    (a: Row, b: Row) => !KeyLess(b, a)
  }

  function Before(): (Row, Row) -> bool {
    (a: Row, b: Row) => KeyLess(a, b)
  }

  function Eligible(outbox: seq<Row>, cp: Checkpoint): seq<Row> {
    Sort(ByKey(), Filter(Visible(cp), outbox))
  }

  /** The checkpoint after forwarding `rows`. */
  function Advance(cp: Checkpoint, rows: seq<Row>): Checkpoint {
    if rows == [] then cp else Some(MarkOf(rows[|rows| - 1]))
  }

  class RegionReplicator {
    const limit: nat
    var outbox: seq<Row>
    var checkpoint: Checkpoint
    var remote: seq<Row>

    constructor (limit: nat)
      ensures this.limit == limit && outbox == [] && checkpoint == None && remote == []
    {
      this.limit := limit;
      outbox, checkpoint, remote := [], None, [];
    }

    /** The remote broker accepts `sent` messages before one fails; `committed` tells whether the transaction commits. */
    method ProcessOneBatch(sent: nat, committed: bool) returns (forwarded: nat)
      modifies this`checkpoint, this`remote
      ensures var rows := Take(Take(Eligible(outbox, old(checkpoint)), limit), sent);
        && forwarded == |rows|
        && remote == old(remote) + rows
        && checkpoint == if committed then Advance(old(checkpoint), rows) else old(checkpoint)
    {
      var rows := Take(Eligible(outbox, checkpoint), limit);
      forwarded := 0;
      var mark := checkpoint;
      while forwarded < |rows|
        invariant 0 <= forwarded <= |rows| && forwarded <= sent
        invariant remote == old(remote) + rows[..forwarded]
        invariant mark == Advance(old(checkpoint), rows[..forwarded])
        invariant checkpoint == old(checkpoint)
      {
        if forwarded == sent {
          break;
        }
        remote := remote + [rows[forwarded]];
        mark := Some(MarkOf(rows[forwarded]));
        forwarded := forwarded + 1;
      }
      assert rows[..forwarded] == Take(rows, sent);
      if committed && forwarded > 0 {
        checkpoint := mark;
      }
    }
  }

  // ---------------------------------------------------------------------
  // The order of the query and the order of the checkpoint agree
  // ---------------------------------------------------------------------

  ghost predicate DistinctIds(rows: seq<Row>) {
    forall i, j :: 0 <= i < j < |rows| ==> rows[i].id != rows[j].id
  }

  ghost predicate TableOk(rows: seq<Row>) {
    DistinctIds(rows) && forall r :: r in rows ==> |r.id| == 16
  }

  /** Beyond the mark of a row means after that row. */
  lemma BeyondMark(r: Row, last: Row)
    requires |r.id| == |last.id|
    ensures Beyond(r, Some(MarkOf(last))) <==> KeyLess(last, r)
  {
    TextOrderIsIdOrder(last.id, r.id);
  }

  lemma KeyAsymmetric()
    ensures forall a, b :: Before()(a, b) ==> !Before()(b, a)
  {
    forall a, b | Before()(a, b) ensures !Before()(b, a) {
      if a.occurredAt == b.occurredAt {
        LexAsymmetric(Octets(a.id), Octets(b.id));
      }
    }
  }

  lemma KeyIrreflexive(a: Row)
    ensures !KeyLess(a, a)
  {
    if KeyLess(a, a) {
      LexAsymmetric(Octets(a.id), Octets(a.id));
    }
  }

  lemma KeyTransitive(a: Row, b: Row, c: Row)
    requires KeyLess(a, b) && KeyLess(b, c)
    ensures KeyLess(a, c)
  {
    if a.occurredAt == b.occurredAt == c.occurredAt {
      LexTransitive(Octets(a.id), Octets(b.id), Octets(c.id));
    }
  }

  lemma KeyTotal(a: Row, b: Row)
    ensures KeyLess(a, b) || (a.occurredAt == b.occurredAt && a.id == b.id) || KeyLess(b, a)
  {
    IdTotal(a.id, b.id);
  }

  lemma KeyNotLessTransitive(a: Row, b: Row, c: Row)
    requires !KeyLess(b, a) && !KeyLess(c, b)
    ensures !KeyLess(c, a)
  {
    KeyTotal(a, b);
    KeyTotal(b, c);
    if KeyLess(c, a) {
      KeyAsymmetric();
      if KeyLess(a, b) {
        KeyTransitive(c, a, b);
      }
    }
  }

  lemma KeyPreorder()
    ensures TotalPreorder(ByKey())
  {
    KeyAsymmetric();
    forall a, b ensures ByKey()(a, b) || ByKey()(b, a) {
      assert Before()(a, b) ==> !Before()(b, a);
    }
    forall a, b, c | ByKey()(a, b) && ByKey()(b, c) ensures ByKey()(a, c) {
      KeyNotLessTransitive(a, b, c);
    }
  }

  function OtherId(): (Row, Row) -> bool {
    (a: Row, b: Row) => a.id != b.id
  }

  /** The query returns the visible rows in strict key order. */
  lemma EligibleInOrder(outbox: seq<Row>, cp: Checkpoint)
    requires TableOk(outbox)
    ensures Pairwise(Before(), Eligible(outbox, cp))
    ensures forall r :: r in Eligible(outbox, cp) <==> r in outbox && r.published && Beyond(r, cp)
  {
    var rows, all := Filter(Visible(cp), outbox), Eligible(outbox, cp);
    forall r ensures r in all <==> r in outbox && r.published && Beyond(r, cp) {
      SortMembers(ByKey(), rows, r);
      FilterMembers(Visible(cp), outbox, r);
    }
    FilterPairwise(OtherId(), Visible(cp), outbox);
    KeyPreorder();
    SortOrders(ByKey(), OtherId(), rows);
    forall i, j | 0 <= i < j < |all| ensures Before()(all[i], all[j]) {
      assert Then(ByKey(), OtherId())(all[i], all[j]);
      KeyTotal(all[i], all[j]);
    }
  }

  /** Rows come in the order of their times, and those of one time in the order of their octets. */
  lemma EligibleByTime(outbox: seq<Row>, cp: Checkpoint, i: nat, j: nat)
    requires TableOk(outbox) && i < j < |Eligible(outbox, cp)|
    ensures var a, b := Eligible(outbox, cp)[i], Eligible(outbox, cp)[j];
      a.occurredAt < b.occurredAt || (a.occurredAt == b.occurredAt && OctetsBefore(a.id, b.id))
  {
    EligibleInOrder(outbox, cp);
    var a, b := Eligible(outbox, cp)[i], Eligible(outbox, cp)[j];
    assert Before()(a, b);
    IdLessIff(a.id, b.id);
  }

  /** The checkpoint after a batch is the time and text of its last row, and only what lies beyond is read again. */
  lemma BeyondLast(r: Row, cp: Checkpoint, rows: seq<Row>)
    requires rows != [] && |r.id| == |rows[|rows| - 1].id|
    ensures var last := rows[|rows| - 1];
      Beyond(r, Advance(cp, rows)) <==>
        last.occurredAt < r.occurredAt || (last.occurredAt == r.occurredAt && OctetsBefore(last.id, r.id))
  {
    var last := rows[|rows| - 1];
    BeyondMark(r, last);
    IdLessIff(last.id, r.id);
  }

  lemma BeyondUp(r: Row, last: Row, cp: Checkpoint)
    requires |r.id| == |last.id| && Beyond(last, cp) && KeyLess(last, r)
    ensures Beyond(r, cp)
  {
    if cp.Some? && cp.value.occurredAt == last.occurredAt == r.occurredAt {
      TextOrderIsIdOrder(last.id, r.id);
      LexTransitive(Codes(cp.value.idText), Codes(UuidText(last.id)), Codes(UuidText(r.id)));
    }
  }

  lemma AfterIndexIff(rows: seq<Row>, n: nat, j: nat)
    requires Pairwise(Before(), rows) && 0 < n <= |rows| && j < |rows|
    ensures KeyLess(rows[n - 1], rows[j]) <==> n <= j
  {
    KeyAsymmetric();
    if j < n - 1 {
      assert Before()(rows[j], rows[n - 1]);
    } else if j > n - 1 {
      assert Before()(rows[n - 1], rows[j]);
    } else {
      KeyIrreflexive(rows[j]);
    }
  }
}
