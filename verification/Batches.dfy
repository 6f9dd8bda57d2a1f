/** Reading a backlog in batches of limited size. */
module Batches {

  function Min(a: nat, b: nat): nat {
    if a <= b then a else b
  }

  /** The first `n` elements: a query's `LIMIT`. */
  function Take<T>(s: seq<T>, n: nat): seq<T> {
    if |s| <= n then s else s[..n]
  }

  /** Rows taken by `n` batches when `rest` are left. */
  function Progress(limit: nat, rest: nat, n: nat): (done: nat)
    ensures done <= rest
  {
    if n == 0 then 0
    else
      var before := Progress(limit, rest, n - 1);
      before + Min(limit, rest - before)
  }

  /** The rows that `n` batches can hold. */
  function Held(limit: nat, rest: nat, n: nat): nat {
    Min(n * limit, rest)
  }

  lemma {:induction false} ProgressIsLinear(limit: nat, rest: nat, n: nat)
    ensures Progress(limit, rest, n) == Held(limit, rest, n)
  {
    if n > 0 {
      ProgressIsLinear(limit, rest, n - 1);
      assert n * limit == (n - 1) * limit + limit;
    }
  }

  function Iterate<W>(step: W -> W, w: W, n: nat): W {
    if n == 0 then w else step(Iterate(step, w, n - 1))
  }

  /** If each batch takes the next `limit` rows, `n` of them take the first `n * limit`. */
  lemma {:induction false} IterateTakes<W(!new)>(step: W -> W, taken: (W, nat) -> bool, limit: nat, rest: nat, w: W, n: nat)
    requires taken(w, 0)
    requires forall v, k: nat :: taken(v, k) && k <= rest ==> taken(step(v), k + Min(limit, rest - k))
    ensures taken(Iterate(step, w, n), Held(limit, rest, n))
  {
    if n > 0 {
      IterateTakes(step, taken, limit, rest, w, n - 1);
      ProgressIsLinear(limit, rest, n - 1);
      ProgressIsLinear(limit, rest, n);
    }
  }

  function Flatten<T>(parts: seq<seq<T>>): seq<T> {
    if parts == [] then [] else Flatten(parts[..|parts| - 1]) + parts[|parts| - 1]
  }

  lemma {:induction false} FlattenFirst<T>(first: seq<T>, rest: seq<seq<T>>)
    ensures Flatten([first] + rest) == first + Flatten(rest)
  {
    if rest == [] {
      assert [first] + rest == [first] && [first][..0] == [];
    } else {
      FlattenFirst(first, rest[..|rest| - 1]);
      assert ([first] + rest)[..|rest|] == [first] + rest[..|rest| - 1];
    }
  }
}
