/** The outbox relay: claiming, publishing and settling batches of outbox rows. */
module Relay {
  import opened Options
  import opened UnitOfWork

  /** One relay worker's share of the table. */
  datatype Shard = Shard(id: int, count: int)

  /** What publishing one row can do; with a lost acknowledgement the broker keeps the message and the call raises. */
  datatype Verdict = Acked | AckLost(error: string) | Refused(error: string)

  const ERROR_LIMIT := 2000

  function Truncated(error: string): string {
    if |error| <= ERROR_LIMIT then error else error[..ERROR_LIMIT]
  }

  function Abs(n: int): nat {
    if n < 0 then -n else n
  }

  /** The constructor's checks. */
  predicate ValidShard(s: Shard) {
    s.count >= 1 && 0 <= s.id < s.count
  }

  /** `_shard_clause`: a single relay has no filter. */
  predicate Owns(hash: Id -> int, s: Shard, id: Id)
    requires ValidShard(s)
  {
    s.count == 1 || Abs(hash(id)) % s.count == s.id
  }

  predicate Pending(row: OutboxRow, maxAttempts: int) {
    row.publishedAt.None? && row.attempts < maxAttempts
  }

  predicate Selectable(hash: Id -> int, s: Shard, table: Table, maxAttempts: int, locked: set<Id>, id: Id)
    requires ValidShard(s)
  {
    id in table && Pending(table[id], maxAttempts) && Owns(hash, s, id) && id !in locked
  }

  /** `SELECT … ORDER BY occurred_at LIMIT … FOR UPDATE SKIP LOCKED` may return `claim`. */
  ghost predicate ValidClaim(hash: Id -> int, s: Shard, table: Table, maxAttempts: int, limit: nat,
                             locked: set<Id>, claim: seq<Id>)
    requires ValidShard(s)
  {
    && (forall i :: 0 <= i < |claim| ==> Selectable(hash, s, table, maxAttempts, locked, claim[i]))
    && (forall i, j :: 0 <= i < j < |claim| ==> claim[i] != claim[j])
    && (forall i, j :: 0 <= i < j < |claim| ==>
          table[claim[i]].event.occurredAt <= table[claim[j]].event.occurredAt)
    && |claim| <= limit
    && (forall id, i :: Selectable(hash, s, table, maxAttempts, locked, id) && id !in claim && 0 <= i < |claim|
          ==> table[claim[i]].event.occurredAt <= table[id].event.occurredAt)
    && (|claim| < limit ==> forall id :: Selectable(hash, s, table, maxAttempts, locked, id) ==> id in claim)
  }

  /** What reaches the broker. */
  function Sent(claim: seq<Id>, verdicts: seq<Verdict>): seq<Id>
    requires |verdicts| <= |claim|
  {
    if verdicts == [] then []
    else
      var n := |verdicts| - 1;
      Sent(claim, verdicts[..n]) + (if verdicts[n].Refused? then [] else [claim[n]])
  }

  function PublishedIds(claim: seq<Id>, verdicts: seq<Verdict>): seq<Id>
    requires |verdicts| <= |claim|
  {
    if verdicts == [] then []
    else
      var n := |verdicts| - 1;
      PublishedIds(claim, verdicts[..n]) + (if verdicts[n].Acked? then [claim[n]] else [])
  }

  function Failed(claim: seq<Id>, verdicts: seq<Verdict>): seq<(Id, string)>
    requires |verdicts| <= |claim|
  {
    if verdicts == [] then []
    else
      var n := |verdicts| - 1;
      Failed(claim, verdicts[..n]) + (if verdicts[n].Acked? then [] else [(claim[n], verdicts[n].error)])
  }

  function MarkPublished(table: Table, ids: seq<Id>, now: int): Table {
    map k | k in table :: if k in ids then table[k].(publishedAt := Some(now)) else table[k]
  }

  function BumpAttempts(table: Table, failed: seq<(Id, string)>): Table {
    if failed == [] then table
    else
      var rest := BumpAttempts(table, failed[..|failed| - 1]);
      var (id, error) := failed[|failed| - 1];
      if id !in rest then rest
      else rest[id := rest[id].(attempts := rest[id].attempts + 1, lastError := Some(Truncated(error)))]
  }

  /** The updates a finished batch commits. */
  function Settle(table: Table, claim: seq<Id>, verdicts: seq<Verdict>, now: int): Table
    requires |verdicts| <= |claim|
  {
    BumpAttempts(MarkPublished(table, PublishedIds(claim, verdicts), now), Failed(claim, verdicts))
  }

  lemma NextVerdict(claim: seq<Id>, verdicts: seq<Verdict>, i: nat)
    requires i < |verdicts| <= |claim|
    ensures var v, before, after := verdicts[i], verdicts[..i], verdicts[..i + 1];
      && Sent(claim, after) == Sent(claim, before) + (if v.Refused? then [] else [claim[i]])
      && PublishedIds(claim, after) == PublishedIds(claim, before) + (if v.Acked? then [claim[i]] else [])
      && Failed(claim, after) == Failed(claim, before) + (if v.Acked? then [] else [(claim[i], v.error)])
  {
    assert verdicts[..i + 1][..i] == verdicts[..i];
  }

  class Broker {
    var log: seq<Id>

    constructor ()
      ensures log == []
    {
      log := [];
    }

    method PublishRaw(id: Id, verdict: Verdict)
      modifies this
      ensures log == old(log) + (if verdict.Refused? then [] else [id])
    {
      if !verdict.Refused? {
        log := log + [id];
      } else {
        assert log + [] == log;
      }
    }
  }

  class OutboxRelay {
    const db: Database
    const broker: Broker
    const shard: Shard
    const batch: nat
    const maxAttempts: int

    ghost predicate Valid() {
      ValidShard(shard)
    }

    constructor (db: Database, broker: Broker, shard: Shard, batch: nat, maxAttempts: int)
      requires ValidShard(shard)
      ensures Valid()
      ensures this.db == db && this.broker == broker
      ensures this.shard == shard && this.batch == batch && this.maxAttempts == maxAttempts
    {
      this.db, this.broker, this.shard, this.batch, this.maxAttempts := db, broker, shard, batch, maxAttempts;
    }

    /** Publishes the rows one by one, noting which were acknowledged. */
    method PublishRows(claim: seq<Id>, verdicts: seq<Verdict>)
      returns (publishedIds: seq<Id>, failed: seq<(Id, string)>)
      requires |verdicts| == |claim|
      modifies broker
      ensures publishedIds == PublishedIds(claim, verdicts) && failed == Failed(claim, verdicts)
      ensures broker.log == old(broker.log) + Sent(claim, verdicts)
    {
      publishedIds, failed := [], [];
      for i := 0 to |claim|
        invariant publishedIds == PublishedIds(claim, verdicts[..i])
        invariant failed == Failed(claim, verdicts[..i])
        invariant broker.log == old(broker.log) + Sent(claim, verdicts[..i])
      {
        NextVerdict(claim, verdicts, i);
        broker.PublishRaw(claim[i], verdicts[i]);
        if verdicts[i].Acked? {
          publishedIds := publishedIds + [claim[i]];
        } else {
          failed := failed + [(claim[i], verdicts[i].error)];
        }
      }
      assert verdicts[..|claim|] == verdicts;
    }

    /** One UPDATE per failed row. */
    method RecordFailures(failed: seq<(Id, string)>)
      modifies db`table
      ensures db.table == BumpAttempts(old(db.table), failed)
    {
      for i := 0 to |failed|
        invariant db.table == BumpAttempts(old(db.table), failed[..i])
      {
        var (id, error) := failed[i];
        assert failed[..i + 1][..i] == failed[..i];
        if id in db.table {
          var row := db.table[id];
          db.table := db.table[id := row.(attempts := row.attempts + 1, lastError := Some(Truncated(error)))];
        }
      }
      assert failed[..|failed|] == failed;
    }

    /** Publishes the rows the query returned, then settles them in the same transaction. */
    method ProcessOneBatch(hash: Id -> int, locked: set<Id>, claim: seq<Id>, verdicts: seq<Verdict>, now: int)
      returns (published: nat)
      requires Valid() && |verdicts| == |claim|
      requires ValidClaim(hash, shard, db.table, maxAttempts, batch, locked, claim)
      modifies db`table, broker
      ensures db.table == Settle(old(db.table), claim, verdicts, now)
      ensures broker.log == old(broker.log) + Sent(claim, verdicts)
      ensures published == |PublishedIds(claim, verdicts)|
    {
      if claim == [] {
        assert MarkPublished(db.table, [], now) == db.table;
        return 0;
      }
      var publishedIds, failed := PublishRows(claim, verdicts);
      if publishedIds != [] {
        db.table := MarkPublished(db.table, publishedIds, now);
      } else {
        assert MarkPublished(db.table, [], now) == db.table;
      }
      RecordFailures(failed);
      return |publishedIds|;
    }
  }

  // ---------------------------------------------------------------------
  // What settling a batch means, row by row
  // ---------------------------------------------------------------------

  ghost predicate Distinct(claim: seq<Id>) {
    forall i, j :: 0 <= i < j < |claim| ==> claim[i] != claim[j]
  }

  function Settled(row: OutboxRow, v: Verdict, now: int): OutboxRow {
    if v.Acked? then row.(publishedAt := Some(now))
    else row.(attempts := row.attempts + 1, lastError := Some(Truncated(v.error)))
  }

  lemma {:induction false} OutcomeLists(claim: seq<Id>, verdicts: seq<Verdict>)
    requires |verdicts| <= |claim| && Distinct(claim)
    ensures forall x :: x in PublishedIds(claim, verdicts)
              <==> exists i :: 0 <= i < |verdicts| && verdicts[i].Acked? && claim[i] == x
    ensures forall x :: x in Sent(claim, verdicts)
              <==> exists i :: 0 <= i < |verdicts| && !verdicts[i].Refused? && claim[i] == x
  {
    if verdicts != [] {
      var n := |verdicts| - 1;
      OutcomeLists(claim, verdicts[..n]);
      forall x | exists i :: 0 <= i < |verdicts| && verdicts[i].Acked? && claim[i] == x
        ensures x in PublishedIds(claim, verdicts)
      {
        var i :| 0 <= i < |verdicts| && verdicts[i].Acked? && claim[i] == x;
        if i < n {
          assert verdicts[..n][i] == verdicts[i];
        }
      }
      forall x | exists i :: 0 <= i < |verdicts| && !verdicts[i].Refused? && claim[i] == x
        ensures x in Sent(claim, verdicts)
      {
        var i :| 0 <= i < |verdicts| && !verdicts[i].Refused? && claim[i] == x;
        if i < n {
          assert verdicts[..n][i] == verdicts[i];
        }
      }
    }
  }

  lemma {:induction false} BumpKeepsKeys(table: Table, failed: seq<(Id, string)>)
    ensures BumpAttempts(table, failed).Keys == table.Keys
  {
    if failed != [] {
      BumpKeepsKeys(table, failed[..|failed| - 1]);
    }
  }

  lemma {:induction false} BumpPointwise(table: Table, claim: seq<Id>, verdicts: seq<Verdict>, now: int)
    requires |verdicts| <= |claim| && Distinct(claim)
    ensures var after := BumpAttempts(table, Failed(claim, verdicts));
      && after.Keys == table.Keys
      && (forall i :: 0 <= i < |verdicts| && claim[i] in table ==>
            after[claim[i]] == if verdicts[i].Acked? then table[claim[i]] else Settled(table[claim[i]], verdicts[i], now))
      && (forall k :: k in table && k !in claim[..|verdicts|] ==> after[k] == table[k])
  {
    if verdicts != [] {
      var n := |verdicts| - 1;
      BumpPointwise(table, claim, verdicts[..n], now);
      assert claim[..n + 1] == claim[..n] + [claim[n]];
      var failed := Failed(claim, verdicts);
      if verdicts[n].Acked? {
        assert failed == Failed(claim, verdicts[..n]);
      } else {
        assert failed[..|failed| - 1] == Failed(claim, verdicts[..n]);
      }
    }
  }

  ghost predicate SettledRows(table: Table, after: Table, claim: seq<Id>, verdicts: seq<Verdict>, now: int)
    requires |verdicts| == |claim|
  {
    && after.Keys == table.Keys
    && (forall i :: 0 <= i < |claim| && claim[i] in table ==> after[claim[i]] == Settled(table[claim[i]], verdicts[i], now))
    && (forall k :: k in table && k !in claim ==> after[k] == table[k])
  }

  /** Settling touches exactly the claimed rows: an acknowledged one is stamped, any other gets one more attempt. */
  lemma SettlePointwise(table: Table, claim: seq<Id>, verdicts: seq<Verdict>, now: int)
    requires |verdicts| == |claim| && Distinct(claim)
    ensures SettledRows(table, Settle(table, claim, verdicts, now), claim, verdicts, now)
  {
    OutcomeLists(claim, verdicts);
    var marked := MarkPublished(table, PublishedIds(claim, verdicts), now);
    BumpPointwise(marked, claim, verdicts, now);
    assert claim[..|verdicts|] == claim;
    forall i | 0 <= i < |claim| && claim[i] in table
      ensures Settle(table, claim, verdicts, now)[claim[i]] == Settled(table[claim[i]], verdicts[i], now)
    {
      assert claim[i] in PublishedIds(claim, verdicts) <==> verdicts[i].Acked?;
    }
  }

  /** What an unacknowledged row keeps of its error: all of it, or the first two thousand characters. */
  predicate Keeps(kept: Option<string>, error: string) {
    kept.Some? && kept.value <= error && |kept.value| == (if |error| <= 2000 then |error| else 2000)
  }

  /** The column values of every row after a batch. */
  lemma BatchWrites(table: Table, claim: seq<Id>, verdicts: seq<Verdict>, now: int)
    requires |verdicts| == |claim| && Distinct(claim)
    ensures var after := Settle(table, claim, verdicts, now);
      && after.Keys == table.Keys
      && (forall k :: k in table ==> after[k].origin == table[k].origin && after[k].event == table[k].event)
      && (forall k :: k in table && k !in claim ==> after[k] == table[k])
      && forall i :: 0 <= i < |claim| && claim[i] in table ==>
           var row, row' := table[claim[i]], after[claim[i]];
           match verdicts[i]
           case Acked => row'.publishedAt == Some(now) && row'.attempts == row.attempts && row'.lastError == row.lastError
           case AckLost(error) =>
             row'.publishedAt == row.publishedAt && row'.attempts == row.attempts + 1 && Keeps(row'.lastError, error)
           case Refused(error) =>
             row'.publishedAt == row.publishedAt && row'.attempts == row.attempts + 1 && Keeps(row'.lastError, error)
  {
    SettlePointwise(table, claim, verdicts, now);
    forall k | k in table && k in claim
      ensures var after := Settle(table, claim, verdicts, now);
        after[k].origin == table[k].origin && after[k].event == table[k].event
    {
      var i :| 0 <= i < |claim| && claim[i] == k;
    }
  }

  ghost predicate Ascending(at: seq<nat>, bound: nat) {
    (forall i, j :: 0 <= i < j < |at| ==> at[i] < at[j]) && forall i :: 0 <= i < |at| ==> at[i] < bound
  }

  /** The broker gets the rows that were not refused, in the order of the claim. */
  lemma {:induction false} SentInOrder(claim: seq<Id>, verdicts: seq<Verdict>) returns (at: seq<nat>)
    requires |verdicts| <= |claim|
    ensures Ascending(at, |verdicts|) && forall p :: 0 <= p < |verdicts| ==> (p in at <==> !verdicts[p].Refused?)
    ensures |Sent(claim, verdicts)| == |at| && forall i :: 0 <= i < |at| ==> Sent(claim, verdicts)[i] == claim[at[i]]
  {
    at := [];
    if verdicts != [] {
      var n := |verdicts| - 1;
      at := SentInOrder(claim, verdicts[..n]);
      if !verdicts[n].Refused? {
        at := at + [n];
      }
    }
  }

  /** Those acknowledged are noted, and counted, in the order of the claim. */
  lemma {:induction false} AckedInOrder(claim: seq<Id>, verdicts: seq<Verdict>) returns (at: seq<nat>)
    requires |verdicts| <= |claim|
    ensures Ascending(at, |verdicts|) && forall p :: 0 <= p < |verdicts| ==> (p in at <==> verdicts[p].Acked?)
    ensures |PublishedIds(claim, verdicts)| == |at|
    ensures forall i :: 0 <= i < |at| ==> PublishedIds(claim, verdicts)[i] == claim[at[i]]
  {
    at := [];
    if verdicts != [] {
      var n := |verdicts| - 1;
      at := AckedInOrder(claim, verdicts[..n]);
      if verdicts[n].Acked? {
        at := at + [n];
      }
    }
  }

  // ---------------------------------------------------------------------
  // Claims
  // ---------------------------------------------------------------------

  /** Some claim is always possible, and it takes every row the query selects up to the limit. */
  lemma ClaimExists(hash: Id -> int, s: Shard, table: Table, maxAttempts: int, limit: nat, locked: set<Id>)
    returns (claim: seq<Id>)
    requires ValidShard(s)
    ensures ValidClaim(hash, s, table, maxAttempts, limit, locked, claim)
  {
    var found := set id | id in table && Selectable(hash, s, table, maxAttempts, locked, id);
    claim := OldestOf(table, found, limit);
    forall i | 0 <= i < |claim| ensures Selectable(hash, s, table, maxAttempts, locked, claim[i]) {
      assert claim[i] in found;
    }
    forall id, i | Selectable(hash, s, table, maxAttempts, locked, id) && id !in claim && 0 <= i < |claim|
      ensures table[claim[i]].event.occurredAt <= table[id].event.occurredAt
    {
      assert id in found;
    }
    if |claim| < limit {
      forall id | Selectable(hash, s, table, maxAttempts, locked, id) ensures id in claim {
        assert id in found;
      }
    }
  }

  /** Up to `limit` of the ids, oldest first. */
  lemma {:induction false} OldestOf(table: Table, found: set<Id>, limit: nat) returns (claim: seq<Id>)
    requires forall id :: id in found ==> id in table
    ensures forall i :: 0 <= i < |claim| ==> claim[i] in found
    ensures forall i, j :: 0 <= i < j < |claim| ==>
      claim[i] != claim[j] && table[claim[i]].event.occurredAt <= table[claim[j]].event.occurredAt
    ensures |claim| <= limit && (|claim| < limit ==> forall id :: id in found ==> id in claim)
    ensures forall id, i :: id in found && id !in claim && 0 <= i < |claim| ==>
      table[claim[i]].event.occurredAt <= table[id].event.occurredAt
    decreases limit
  {
    claim := [];
    if limit > 0 && found != {} {
      var first := Oldest(table, found);
      var rest := OldestOf(table, found - {first}, limit - 1);
      claim := [first] + rest;
    }
  }

  lemma {:induction false} Oldest(table: Table, found: set<Id>) returns (first: Id)
    requires found != {} && forall id :: id in found ==> id in table
    ensures first in found && forall id :: id in found ==> table[first].event.occurredAt <= table[id].event.occurredAt
    decreases |found|
  {
    first :| first in found;
    if found != {first} {
      assert found - {first} != {};
      var other := Oldest(table, found - {first});
      if table[other].event.occurredAt < table[first].event.occurredAt {
        first := other;
      }
    }
  }

  // ---------------------------------------------------------------------
  // Shards
  // ---------------------------------------------------------------------

  /** Whatever the 32-bit hash, every row belongs to exactly one of the `count` shards: the remainder of its absolute value. */
  lemma ShardsPartition(hash: Id -> int, count: int, id: Id)
    requires count >= 1
    ensures exists s :: 0 <= s < count && Owns(hash, Shard(s, count), id)
              && s == (if hash(id) < 0 then -hash(id) else hash(id)) % count
              && forall t :: 0 <= t < count && Owns(hash, Shard(t, count), id) ==> t == s
  {
    var s := if count == 1 then 0 else Abs(hash(id)) % count;
    assert 0 <= s < count && Owns(hash, Shard(s, count), id);
  }

  // ---------------------------------------------------------------------
  // Draining
  // ---------------------------------------------------------------------

  /** Publication attempts a row may still get. */
  function Budget(row: OutboxRow, maxAttempts: int): nat {
    if Pending(row, maxAttempts) then maxAttempts - row.attempts else 0
  }

  ghost function Total(table: Table, maxAttempts: int): nat {
    if table == map[] then 0
    else
      var k :| k in table;
      Budget(table[k], maxAttempts) + Total(table - {k}, maxAttempts)
  }

  lemma {:induction false} TotalExtract(table: Table, maxAttempts: int, k: Id)
    requires k in table
    ensures Total(table, maxAttempts) == Budget(table[k], maxAttempts) + Total(table - {k}, maxAttempts)
    decreases |table|
  {
    var p :| p in table && Total(table, maxAttempts) == Budget(table[p], maxAttempts) + Total(table - {p}, maxAttempts);
    if p != k {
      TotalExtract(table - {p}, maxAttempts, k);
      TotalExtract(table - {k}, maxAttempts, p);
      assert table - {p} - {k} == table - {k} - {p};
    }
  }

  lemma {:induction false} TotalDrops(before: Table, after: Table, maxAttempts: int, claim: seq<Id>)
    requires Distinct(claim) && before.Keys == after.Keys
    requires forall k :: k in claim ==> k in before
    requires forall k :: k in claim ==> Budget(after[k], maxAttempts) < Budget(before[k], maxAttempts)
    requires forall k :: k in before && k !in claim ==> after[k] == before[k]
    ensures Total(after, maxAttempts) + |claim| <= Total(before, maxAttempts)
  {
    if claim == [] {
      assert before == after;
    } else {
      var k, rest := claim[0], claim[1..];
      TotalExtract(before, maxAttempts, k);
      TotalExtract(after, maxAttempts, k);
      TotalDrops(before - {k}, after - {k}, maxAttempts, rest);
    }
  }

  /** One committed batch of any relay. */
  datatype Batch = Batch(shard: Shard, limit: nat, claim: seq<Id>, verdicts: seq<Verdict>, now: int)

  ghost predicate ValidBatch(hash: Id -> int, table: Table, maxAttempts: int, b: Batch) {
    && ValidShard(b.shard) && |b.verdicts| == |b.claim|
    && ValidClaim(hash, b.shard, table, maxAttempts, b.limit, {}, b.claim)
  }

  ghost predicate ValidDrain(hash: Id -> int, table: Table, maxAttempts: int, batches: seq<Batch>)
    decreases |batches|
  {
    batches == [] || (
      && ValidBatch(hash, table, maxAttempts, batches[0])
      && ValidDrain(hash, Settle(table, batches[0].claim, batches[0].verdicts, batches[0].now), maxAttempts, batches[1..]))
  }

  ghost function AfterDrain(hash: Id -> int, table: Table, maxAttempts: int, batches: seq<Batch>): Table
    requires ValidDrain(hash, table, maxAttempts, batches)
    decreases |batches|
  {
    if batches == [] then table
    else AfterDrain(hash, Settle(table, batches[0].claim, batches[0].verdicts, batches[0].now), maxAttempts, batches[1..])
  }

  function RowsClaimed(batches: seq<Batch>): nat {
    if batches == [] then 0 else |batches[0].claim| + RowsClaimed(batches[1..])
  }

  lemma BatchDropsTotal(hash: Id -> int, table: Table, maxAttempts: int, b: Batch)
    requires ValidBatch(hash, table, maxAttempts, b)
    ensures Total(Settle(table, b.claim, b.verdicts, b.now), maxAttempts) + |b.claim| <= Total(table, maxAttempts)
  {
    SettlePointwise(table, b.claim, b.verdicts, b.now);
    var after := Settle(table, b.claim, b.verdicts, b.now);
    forall k | k in b.claim ensures Budget(after[k], maxAttempts) < Budget(table[k], maxAttempts) {
      var i :| 0 <= i < |b.claim| && b.claim[i] == k;
      assert after[k] == Settled(table[k], b.verdicts[i], b.now);
    }
    TotalDrops(table, after, maxAttempts, b.claim);
  }

  /** With no new rows the remaining attempts bound the rows all later batches claim together, whatever the broker does. */
  lemma {:induction false} DrainIsBounded(hash: Id -> int, table: Table, maxAttempts: int, batches: seq<Batch>)
    requires ValidDrain(hash, table, maxAttempts, batches)
    ensures Total(AfterDrain(hash, table, maxAttempts, batches), maxAttempts) + RowsClaimed(batches)
         <= Total(table, maxAttempts)
    decreases |batches|
  {
    if batches != [] {
      var b := batches[0];
      BatchDropsTotal(hash, table, maxAttempts, b);
      DrainIsBounded(hash, Settle(table, b.claim, b.verdicts, b.now), maxAttempts, batches[1..]);
    }
  }

  /** Every row is published or exhausted. */
  ghost predicate AllSettled(table: Table, maxAttempts: int) {
    forall k :: k in table ==> !Pending(table[k], maxAttempts)
  }

  /** When every shard's query comes back empty, every row is published or exhausted — and only then, if the limit allows rows at all. */
  lemma DrainedIff(hash: Id -> int, table: Table, maxAttempts: int, count: int, limit: nat)
    requires count >= 1 && limit >= 1
    ensures (forall s :: 0 <= s < count ==> ValidClaim(hash, Shard(s, count), table, maxAttempts, limit, {}, []))
        <==> AllSettled(table, maxAttempts)
  {
    if forall s :: 0 <= s < count ==> ValidClaim(hash, Shard(s, count), table, maxAttempts, limit, {}, []) {
      forall k | k in table ensures !Pending(table[k], maxAttempts) {
        ShardsPartition(hash, count, k);
        var s :| 0 <= s < count && Owns(hash, Shard(s, count), k);
        assert ValidClaim(hash, Shard(s, count), table, maxAttempts, limit, {}, []);
        assert !Selectable(hash, Shard(s, count), table, maxAttempts, {}, k);
      }
    }
  }

  lemma {:induction false} SettledStays(hash: Id -> int, table: Table, maxAttempts: int, batches: seq<Batch>)
    requires AllSettled(table, maxAttempts) && ValidDrain(hash, table, maxAttempts, batches)
    ensures AfterDrain(hash, table, maxAttempts, batches) == table
    decreases |batches|
  {
    if batches != [] {
      var b := batches[0];
      assert b.claim == [] by {
        assert b.claim != [] ==> Selectable(hash, b.shard, table, maxAttempts, {}, b.claim[0]);
      }
      EmptyClaimSettlesNothing(table, b);
      SettledStays(hash, table, maxAttempts, batches[1..]);
    }
  }

  lemma EmptyClaimSettlesNothing(table: Table, b: Batch)
    requires b.claim == [] && b.verdicts == []
    ensures Settle(table, b.claim, b.verdicts, b.now) == table
  {
    assert MarkPublished(table, [], b.now) == table;
  }

  /** A round visits every shard at least once, in any order, with a positive batch size. */
  ghost predicate VisitsAll(round: seq<Batch>, count: int) {
    && (forall i :: 0 <= i < |round| ==> round[i].limit >= 1)
    && (forall s :: 0 <= s < count ==> exists i :: 0 <= i < |round| && round[i].shard == Shard(s, count))
  }

  /** Batches that claim nothing all saw the same table. */
  lemma {:induction false} IdleBatches(hash: Id -> int, table: Table, maxAttempts: int, batches: seq<Batch>)
    requires ValidDrain(hash, table, maxAttempts, batches) && RowsClaimed(batches) == 0
    ensures AfterDrain(hash, table, maxAttempts, batches) == table
    ensures forall i :: 0 <= i < |batches| ==> batches[i].claim == [] && ValidBatch(hash, table, maxAttempts, batches[i])
    decreases |batches|
  {
    if batches != [] {
      EmptyClaimSettlesNothing(table, batches[0]);
      IdleBatches(hash, table, maxAttempts, batches[1..]);
    }
  }

  lemma IdleRoundIsTheEnd(hash: Id -> int, table: Table, maxAttempts: int, round: seq<Batch>, count: int)
    requires count >= 1 && VisitsAll(round, count)
    requires ValidDrain(hash, table, maxAttempts, round) && RowsClaimed(round) == 0
    ensures AllSettled(table, maxAttempts)
  {
    IdleBatches(hash, table, maxAttempts, round);
    forall k | k in table ensures !Pending(table[k], maxAttempts) {
      ShardsPartition(hash, count, k);
      var s :| 0 <= s < count && Owns(hash, Shard(s, count), k);
      var i :| 0 <= i < |round| && round[i].shard == Shard(s, count);
      assert ValidBatch(hash, table, maxAttempts, round[i]);
      assert !Selectable(hash, Shard(s, count), table, maxAttempts, {}, k);
    }
  }

  ghost predicate ValidRounds(hash: Id -> int, table: Table, maxAttempts: int, count: int, rounds: seq<seq<Batch>>)
    decreases |rounds|
  {
    rounds == [] || (
      && VisitsAll(rounds[0], count) && ValidDrain(hash, table, maxAttempts, rounds[0])
      && ValidRounds(hash, AfterDrain(hash, table, maxAttempts, rounds[0]), maxAttempts, count, rounds[1..]))
  }

  ghost function AfterRounds(hash: Id -> int, table: Table, maxAttempts: int, count: int, rounds: seq<seq<Batch>>): Table
    requires ValidRounds(hash, table, maxAttempts, count, rounds)
    decreases |rounds|
  {
    if rounds == [] then table
    else AfterRounds(hash, AfterDrain(hash, table, maxAttempts, rounds[0]), maxAttempts, count, rounds[1..])
  }

  lemma {:induction false} SettledRounds(hash: Id -> int, table: Table, maxAttempts: int, count: int, rounds: seq<seq<Batch>>)
    requires AllSettled(table, maxAttempts) && ValidRounds(hash, table, maxAttempts, count, rounds)
    ensures AfterRounds(hash, table, maxAttempts, count, rounds) == table
    decreases |rounds|
  {
    if rounds != [] {
      SettledStays(hash, table, maxAttempts, rounds[0]);
      SettledRounds(hash, table, maxAttempts, count, rounds[1..]);
    }
  }

  /**
   * Draining ends: with no new rows, after more rounds over the shards than there are attempts left in all, every row
   * is published or exhausted, whatever the broker does.
   */
  lemma {:induction false} DrainingEnds(hash: Id -> int, table: Table, maxAttempts: int, count: int, rounds: seq<seq<Batch>>)
    requires count >= 1 && ValidRounds(hash, table, maxAttempts, count, rounds)
    requires |rounds| > Total(table, maxAttempts)
    ensures AllSettled(AfterRounds(hash, table, maxAttempts, count, rounds), maxAttempts)
    decreases |rounds|
  {
    var after := AfterDrain(hash, table, maxAttempts, rounds[0]);
    DrainIsBounded(hash, table, maxAttempts, rounds[0]);
    if RowsClaimed(rounds[0]) == 0 {
      IdleRoundIsTheEnd(hash, table, maxAttempts, rounds[0], count);
      SettledRounds(hash, table, maxAttempts, count, rounds);
    } else {
      DrainingEnds(hash, after, maxAttempts, count, rounds[1..]);
    }
  }

  /** With a batch size of zero the query is always empty and nothing is ever drained. */
  lemma ZeroLimitNeverDrains(hash: Id -> int, table: Table, maxAttempts: int, s: Shard, locked: set<Id>, claim: seq<Id>)
    requires ValidShard(s) && ValidClaim(hash, s, table, maxAttempts, 0, locked, claim)
    ensures claim == [] && forall verdicts, now :: |verdicts| == 0 ==> Settle(table, claim, verdicts, now) == table
  {
    forall verdicts: seq<Verdict>, now: int | |verdicts| == 0 ensures Settle(table, claim, verdicts, now) == table {
      assert verdicts == [];
      assert MarkPublished(table, [], now) == table;
    }
  }
}
