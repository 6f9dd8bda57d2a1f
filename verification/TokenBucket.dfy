/** The token-bucket rate limiter: what it grants over any sequence of calls, and when its key may expire. */
module TokenBucket {
  import opened Options

  datatype Limits = Limits(capacity: nat, refill: real)

  /** The stored hash. */
  datatype Slot = Slot(count: real, last: real)

  datatype Call = Call(at: real, tokens: int)

  function RMin(a: real, b: real): real {
    if a <= b then a else b
  }

  /** Cutting a number to an integer: Python's `int`, and a number in a script's reply. */
  function Trunc(r: real): (n: int)
    ensures r >= 0.0 ==> 0 <= n && n as real <= r < n as real + 1.0
    ensures r < 0.0 ==> n <= 0 && n as real - 1.0 < r <= n as real
  {
    if r >= 0.0 then r.Floor else -((-r).Floor)
  }

  const SLOWEST := 0.001

  function Ttl(l: Limits): (ttl: int)
    ensures ttl >= 60
  {
    var rate := if l.refill >= SLOWEST then l.refill else SLOWEST;
    var doubled := Trunc((l.capacity as real / rate) * 2.0);
    if doubled >= 60 then doubled else 60
  }

  /** A bucket holding `count` tokens after `elapsed` seconds in which `inflow` arrived. */
  function Topped(capacity: real, count: real, elapsed: real, inflow: real): real {
    if elapsed > 0.0 then RMin(capacity, count + inflow) else count
  }

  /** Tokens in the bucket at `now`, before any are taken. */
  function Available(l: Limits, slot: Option<Slot>, now: real): real {
    if slot.None? then l.capacity as real
    else
      var elapsed := now - slot.value.last;
      Topped(l.capacity as real, slot.value.count, elapsed, elapsed * l.refill)
  }

  function Left(count: real, tokens: real): real {
    if count >= tokens then count - tokens else count
  }

  /** The script: the new hash and whether the tokens were taken. */
  function TakeEffect(l: Limits, slot: Option<Slot>, c: Call): (Slot, bool) {
    var count := Available(l, slot, c.at);
    (Slot(Left(count, c.tokens as real), c.at), count >= c.tokens as real)
  }

  /** What the key holds at `now` when it expires `Ttl` seconds after the last call. */
  function Live(l: Limits, slot: Option<Slot>, now: real): Option<Slot> {
    if slot.Some? && now >= slot.value.last + Ttl(l) as real then None else slot
  }

  class Bucket {
    const limits: Limits
    var slot: Option<Slot>

    constructor (limits: Limits)
      ensures this.limits == limits && slot == None
    {
      this.limits, slot := limits, None;
    }

    /** One run of the script at time `now` on whatever the key still holds; a reply cuts numbers to integers. */
    method Take(now: real, tokens: int) returns (allowed: bool, remaining: int)
      modifies this
      ensures (slot, allowed) ==
        var r := TakeEffect(limits, Live(limits, old(slot), now), Call(now, tokens)); (Some(r.0), r.1)
      ensures remaining == Trunc(slot.value.count)
    {
      var capacity := limits.capacity as real;
      var count, last := capacity, now;
      if slot.Some? && now < slot.value.last + Ttl(limits) as real {
        count, last := slot.value.count, slot.value.last;
      }
      var elapsed := now - last;
      if elapsed > 0.0 {
        count := RMin(capacity, count + elapsed * limits.refill);
      }
      assert count == Available(limits, Live(limits, slot, now), now);
      allowed := count >= tokens as real;
      if allowed {
        count := count - tokens as real;
      }
      slot := Some(Slot(count, now));
      remaining := Trunc(count);
    }
  }

  // ---------------------------------------------------------------------
  // Runs
  // ---------------------------------------------------------------------

  /** The hash after `calls`, if the key never expires. */
  function After(l: Limits, calls: seq<Call>): Option<Slot> {
    if calls == [] then None
    else Some(TakeEffect(l, After(l, calls[..|calls| - 1]), calls[|calls| - 1]).0)
  }

  /** The hash after `calls` with expiry. */
  function AfterExpiring(l: Limits, calls: seq<Call>): Option<Slot> {
    if calls == [] then None
    else
      var c := calls[|calls| - 1];
      Some(TakeEffect(l, Live(l, AfterExpiring(l, calls[..|calls| - 1]), c.at), c).0)
  }

  predicate Allowed(l: Limits, calls: seq<Call>, i: nat)
    requires i < |calls|
  {
    TakeEffect(l, After(l, calls[..i]), calls[i]).1
  }

  predicate AllowedExpiring(l: Limits, calls: seq<Call>, i: nat)
    requires i < |calls|
  {
    TakeEffect(l, Live(l, AfterExpiring(l, calls[..i]), calls[i].at), calls[i]).1
  }

  /** Tokens call i took. */
  function Taken(l: Limits, calls: seq<Call>, i: nat): real
    requires i < |calls|
  {
    if Allowed(l, calls, i) then calls[i].tokens as real else 0.0
  }

  /** Tokens granted by calls j, …, i - 1. */
  function Granted(l: Limits, calls: seq<Call>, j: nat, i: nat): real
    requires j <= i <= |calls|
  {
    if j == i then 0.0 else Granted(l, calls, j, i - 1) + Taken(l, calls, i - 1)
  }

  /** One clock that never runs backwards. */
  ghost predicate Orderly(calls: seq<Call>) {
    forall i, j :: 0 <= i <= j < |calls| ==> calls[i].at <= calls[j].at
  }

  /** No call before `i` puts tokens in by taking a negative number. */
  ghost predicate NoGifts(calls: seq<Call>, i: nat) {
    forall k :: 0 <= k < i && k < |calls| ==> calls[k].tokens >= 0
  }

  /** A window from call `j` on starts with a refill, which cuts what earlier gifts put above the capacity. */
  predicate Opens(calls: seq<Call>, j: nat)
    requires j < |calls|
  {
    j == 0 || calls[j - 1].at < calls[j].at
  }

  // The same run without products: each call becomes a tick that says how much flowed in since the one before.

  datatype Tick = Tick(elapsed: real, inflow: real, tokens: real)

  ghost predicate OrderlyTicks(ticks: seq<Tick>) {
    forall i :: 0 <= i < |ticks| ==>
      ticks[i].elapsed >= 0.0 && (ticks[i].elapsed == 0.0 ==> ticks[i].inflow == 0.0)
  }

  /** The level before tick i. */
  function Level(capacity: real, ticks: seq<Tick>, i: nat): real
    requires i < |ticks|
  {
    if i == 0 then capacity
    else Topped(capacity, Left(Level(capacity, ticks, i - 1), ticks[i - 1].tokens), ticks[i].elapsed, ticks[i].inflow)
  }

  function TakenAt(capacity: real, ticks: seq<Tick>, i: nat): real
    requires i < |ticks|
  {
    if Level(capacity, ticks, i) >= ticks[i].tokens then ticks[i].tokens else 0.0
  }

  function TakenBetween(capacity: real, ticks: seq<Tick>, j: nat, i: nat): real
    requires j <= i <= |ticks|
  {
    if j == i then 0.0 else TakenBetween(capacity, ticks, j, i - 1) + TakenAt(capacity, ticks, i - 1)
  }

  function InflowBetween(ticks: seq<Tick>, j: nat, i: nat): real
    requires j <= i < |ticks|
  {
    if j == i then 0.0 else InflowBetween(ticks, j, i - 1) + ticks[i].inflow
  }

  /** What the window from j to i still allows. */
  function Headroom(capacity: real, ticks: seq<Tick>, j: nat, i: nat): real
    requires j <= i < |ticks|
  {
    capacity + InflowBetween(ticks, j, i) - TakenBetween(capacity, ticks, j, i)
  }

  /**
   * The level before tick i is the least headroom of any window that opens with a refill and ends there; `w` is such a
   * window. Without negative takes the other windows have no less.
   */
  lemma {:induction false} LevelIsLeastHeadroom(capacity: real, ticks: seq<Tick>, i: nat) returns (w: nat)
    requires OrderlyTicks(ticks) && i < |ticks|
    ensures forall j :: 0 <= j <= i && (j == 0 || ticks[j].elapsed > 0.0) ==>
      Level(capacity, ticks, i) <= Headroom(capacity, ticks, j, i)
    ensures w <= i && (w == 0 || ticks[w].elapsed > 0.0) && Level(capacity, ticks, i) == Headroom(capacity, ticks, w, i)
    ensures (forall k :: 0 <= k < i ==> ticks[k].tokens >= 0.0) ==>
      && Level(capacity, ticks, i) <= capacity
      && forall j :: 0 <= j <= i ==> Level(capacity, ticks, i) <= Headroom(capacity, ticks, j, i)
  {
    if i == 0 {
      w := 0;
    } else {
      w := LevelIsLeastHeadroom(capacity, ticks, i - 1);
      var taken := TakenAt(capacity, ticks, i - 1);
      forall j | 0 <= j < i
        ensures Headroom(capacity, ticks, j, i) == Headroom(capacity, ticks, j, i - 1) + ticks[i].inflow - taken
      {
      }
      assert Headroom(capacity, ticks, i, i) == capacity;
      if ticks[i].elapsed > 0.0 && Level(capacity, ticks, i) == capacity {
        w := i;
      }
    }
  }

  function TicksOf(l: Limits, calls: seq<Call>): seq<Tick> {
    seq(|calls|, i requires 0 <= i < |calls| => TickOf(l, calls, i))
  }

  function TickOf(l: Limits, calls: seq<Call>, i: nat): Tick
    requires i < |calls|
  {
    var elapsed := if i == 0 then 0.0 else calls[i].at - calls[i - 1].at;
    Tick(elapsed, elapsed * l.refill, calls[i].tokens as real)
  }

  lemma TicksAreOrderly(l: Limits, calls: seq<Call>)
    requires Orderly(calls)
    ensures OrderlyTicks(TicksOf(l, calls))
  {
  }

  function LastSlot(l: Limits, calls: seq<Call>, i: nat): Slot
    requires i < |calls|
  {
    Slot(Left(Level(l.capacity as real, TicksOf(l, calls), i), calls[i].tokens as real), calls[i].at)
  }

  lemma AvailableFollowsTick(l: Limits, calls: seq<Call>, i: nat, count: real)
    requires 0 < i < |calls|
    ensures var t := TickOf(l, calls, i);
      Available(l, Some(Slot(count, calls[i - 1].at)), calls[i].at)
        == Topped(l.capacity as real, count, t.elapsed, t.inflow)
  {
  }

  lemma AfterNext(l: Limits, calls: seq<Call>, i: nat)
    requires i < |calls|
    ensures After(l, calls[..i + 1])
         == Some(Slot(Left(Available(l, After(l, calls[..i]), calls[i].at), calls[i].tokens as real), calls[i].at))
  {
    assert calls[..i + 1][..i] == calls[..i] && calls[..i + 1][i] == calls[i];
  }

  /** The script computes the levels. */
  lemma {:induction false} RunFollowsTicks(l: Limits, calls: seq<Call>, i: nat)
    requires i < |calls|
    ensures Available(l, After(l, calls[..i]), calls[i].at) == Level(l.capacity as real, TicksOf(l, calls), i)
    ensures After(l, calls[..i + 1]) == Some(LastSlot(l, calls, i))
  {
    AfterNext(l, calls, i);
    if i > 0 {
      RunFollowsTicks(l, calls, i - 1);
      AvailableFollowsTick(l, calls, i, LastSlot(l, calls, i - 1).count);
    }
  }

  lemma {:induction false} GrantedFollowsTicks(l: Limits, calls: seq<Call>, j: nat, i: nat)
    requires j <= i <= |calls|
    ensures Granted(l, calls, j, i) == TakenBetween(l.capacity as real, TicksOf(l, calls), j, i)
  {
    if j < i {
      GrantedFollowsTicks(l, calls, j, i - 1);
      RunFollowsTicks(l, calls, i - 1);
    }
  }

  /** What the window from call j to call i may grant in all. */
  function WindowBound(l: Limits, calls: seq<Call>, j: nat, i: nat): real
    requires j <= i < |calls|
  {
    l.capacity as real + l.refill * (calls[i].at - calls[j].at)
  }

  lemma Distribute(r: real, a: real, b: real, c: real)
    ensures r * (c - a) == r * (b - a) + (c - b) * r
  {
  }

  lemma {:induction false} InflowTelescopes(l: Limits, calls: seq<Call>, j: nat, i: nat)
    requires j <= i < |calls|
    ensures l.capacity as real + InflowBetween(TicksOf(l, calls), j, i) == WindowBound(l, calls, j, i)
  {
    if j < i {
      InflowTelescopes(l, calls, j, i - 1);
      Distribute(l.refill, calls[j].at, calls[i - 1].at, calls[i].at);
    }
  }

  lemma HeadroomOfRun(l: Limits, calls: seq<Call>, j: nat, i: nat)
    requires j <= i < |calls|
    ensures Headroom(l.capacity as real, TicksOf(l, calls), j, i) == WindowBound(l, calls, j, i) - Granted(l, calls, j, i)
  {
    InflowTelescopes(l, calls, j, i);
    GrantedFollowsTicks(l, calls, j, i);
  }

  /**
   * A call is allowed if and only if it fits every window that ends with it: nothing is denied needlessly. Where calls
   * put tokens in by negative takes, only windows that open with a refill count.
   */
  lemma AllowedIffEveryWindowFits(l: Limits, calls: seq<Call>, i: nat)
    requires i < |calls| && Orderly(calls)
    ensures Allowed(l, calls, i) <==>
      forall j :: 0 <= j <= i && Opens(calls, j) ==>
        Granted(l, calls, j, i) + calls[i].tokens as real <= WindowBound(l, calls, j, i)
    ensures NoGifts(calls, i) ==>
      (Allowed(l, calls, i) <==>
        forall j :: 0 <= j <= i ==> Granted(l, calls, j, i) + calls[i].tokens as real <= WindowBound(l, calls, j, i))
  {
    var capacity, ticks := l.capacity as real, TicksOf(l, calls);
    TicksAreOrderly(l, calls);
    RunFollowsTicks(l, calls, i);
    var level := Level(capacity, ticks, i);
    var w := LevelIsLeastHeadroom(capacity, ticks, i);
    forall j | 0 <= j <= i ensures Headroom(capacity, ticks, j, i) == WindowBound(l, calls, j, i) - Granted(l, calls, j, i) {
      HeadroomOfRun(l, calls, j, i);
    }
    assert Opens(calls, w);
    assert Allowed(l, calls, i) <==> level >= calls[i].tokens as real;
  }

  lemma ProductNotNegative(a: real, b: real)
    requires a >= 0.0 && b >= 0.0
    ensures a * b >= 0.0
  {
  }

  lemma ToppedNeverNegative(capacity: real, count: real, elapsed: real, inflow: real)
    requires capacity >= 0.0 && count >= 0.0 && (elapsed > 0.0 ==> inflow >= 0.0)
    ensures Topped(capacity, count, elapsed, inflow) >= 0.0
  {
  }

  lemma AvailableNeverNegative(l: Limits, slot: Option<Slot>, now: real)
    requires l.refill >= 0.0 && (slot.Some? ==> slot.value.count >= 0.0)
    ensures Available(l, slot, now) >= 0.0
  {
    if slot.Some? {
      var elapsed := now - slot.value.last;
      if elapsed > 0.0 {
        ProductNotNegative(elapsed, l.refill);
      }
      ToppedNeverNegative(l.capacity as real, slot.value.count, elapsed, elapsed * l.refill);
    }
  }

  lemma {:induction false} CountNeverNegative(l: Limits, calls: seq<Call>)
    requires l.refill >= 0.0
    ensures After(l, calls).Some? ==> After(l, calls).value.count >= 0.0
  {
    if calls != [] {
      CountNeverNegative(l, calls[..|calls| - 1]);
      AvailableNeverNegative(l, After(l, calls[..|calls| - 1]), calls[|calls| - 1].at);
    }
  }

  /** The clock does not step back between call `j` and call `i`. */
  ghost predicate Steady(times: seq<real>, j: nat, i: nat) {
    forall k :: j < k <= i && k < |times| ==> times[k - 1] <= times[k]
  }

  function TimesOf(calls: seq<Call>): seq<real> {
    seq(|calls|, i requires 0 <= i < |calls| => calls[i].at)
  }

  /** Without negative takes the bucket never holds more than its capacity, whatever the clock does. */
  lemma {:induction false} CountWithinCapacity(l: Limits, calls: seq<Call>, i: nat)
    requires i <= |calls| && NoGifts(calls, i)
    ensures After(l, calls[..i]).Some? ==> After(l, calls[..i]).value.count <= l.capacity as real
  {
    if i > 0 {
      CountWithinCapacity(l, calls, i - 1);
      AfterNext(l, calls, i - 1);
    }
  }

  /** Where the clock does not step back, the level stays within the headroom of a window that started within the capacity. */
  lemma {:induction false} LevelWithinHeadroom(capacity: real, ticks: seq<Tick>, j: nat, i: nat)
    requires j <= i < |ticks| && Level(capacity, ticks, j) <= capacity
    requires forall k :: j < k <= i ==> ticks[k].elapsed >= 0.0 && (ticks[k].elapsed == 0.0 ==> ticks[k].inflow == 0.0)
    ensures Level(capacity, ticks, i) <= Headroom(capacity, ticks, j, i)
  {
    if j < i {
      LevelWithinHeadroom(capacity, ticks, j, i - 1);
      assert Headroom(capacity, ticks, j, i)
          == Headroom(capacity, ticks, j, i - 1) + ticks[i].inflow - TakenAt(capacity, ticks, i - 1);
    }
  }

  lemma StartsWithinCapacity(l: Limits, calls: seq<Call>, j: nat)
    requires j < |calls| && (Opens(calls, j) || NoGifts(calls, j))
    ensures Level(l.capacity as real, TicksOf(l, calls), j) <= l.capacity as real
  {
    RunFollowsTicks(l, calls, j);
    if j > 0 {
      AfterNext(l, calls, j - 1);
      if NoGifts(calls, j) {
        CountWithinCapacity(l, calls, j);
      }
    }
  }

  lemma SteadyTicks(l: Limits, calls: seq<Call>, j: nat, i: nat)
    requires j <= i < |calls| && Steady(TimesOf(calls), j, i)
    ensures forall k :: j < k <= i ==>
      var t := TicksOf(l, calls)[k]; t.elapsed >= 0.0 && (t.elapsed == 0.0 ==> t.inflow == 0.0)
  {
    forall k | j < k <= i ensures TicksOf(l, calls)[k].elapsed >= 0.0 {
      assert TimesOf(calls)[k - 1] <= TimesOf(calls)[k];
    }
  }

  lemma TakenWithinLevel(l: Limits, calls: seq<Call>, i: nat)
    requires i < |calls| && (l.refill >= 0.0 || Allowed(l, calls, i))
    ensures TakenAt(l.capacity as real, TicksOf(l, calls), i) <= Level(l.capacity as real, TicksOf(l, calls), i)
  {
    RunFollowsTicks(l, calls, i);
    if l.refill >= 0.0 {
      CountNeverNegative(l, calls[..i]);
      AvailableNeverNegative(l, After(l, calls[..i]), calls[i].at);
    }
  }

  /**
   * A window in which the clock does not step back is never granted more than the capacity plus what flows in while it
   * lasts, whatever the clock did before.
   */
  lemma WindowNeverExceeded(l: Limits, calls: seq<Call>, j: nat, i: nat)
    requires j <= i < |calls| && Steady(TimesOf(calls), j, i) && (Opens(calls, j) || NoGifts(calls, j))
    requires l.refill >= 0.0 || Allowed(l, calls, i)
    ensures Granted(l, calls, j, i + 1) <= WindowBound(l, calls, j, i)
  {
    StartsWithinCapacity(l, calls, j);
    SteadyTicks(l, calls, j, i);
    LevelWithinHeadroom(l.capacity as real, TicksOf(l, calls), j, i);
    TakenWithinLevel(l, calls, i);
    HeadroomOfRun(l, calls, j, i);
    GrantedFollowsTicks(l, calls, j, i + 1);
    GrantedFollowsTicks(l, calls, j, i);
  }

  // Clocks that step back ---------------------------------------------------

  /** A window runs from one call to a later one that is not dated before it. */
  ghost predicate WithinWindows(l: Limits, calls: seq<Call>) {
    forall j, i :: 0 <= j <= i < |calls| && calls[j].at <= calls[i].at ==>
      Granted(l, calls, j, i + 1) <= WindowBound(l, calls, j, i)
  }

  function CallsAt(times: seq<real>, tokens: seq<nat>): seq<Call>
    requires |times| == |tokens|
  {
    seq(|times|, i requires 0 <= i < |times| => Call(times[i], tokens[i]))
  }

  /** The takes: nothing, then `all` at `j`, then nothing, then `last` at `i`. */
  function Drain(count: nat, j: nat, all: nat, i: nat, last: nat): seq<nat> {
    seq(count, k => if k == j then all else if k == i then last else 0)
  }

  /** What flows in between two ticks, steps back not counted. */
  function Gain(ticks: seq<Tick>, j: nat, i: nat): real
    requires j <= i < |ticks|
  {
    if j == i then 0.0 else Gain(ticks, j, i - 1) + (if ticks[i].elapsed > 0.0 then ticks[i].inflow else 0.0)
  }

  /** Time that passes brings tokens; the clock's steps back would take some away. */
  ghost predicate Signed(ticks: seq<Tick>) {
    forall k :: 0 <= k < |ticks| ==>
      && (ticks[k].elapsed > 0.0 ==> ticks[k].inflow >= 0.0)
      && (ticks[k].elapsed <= 0.0 ==> ticks[k].inflow <= 0.0)
  }

  lemma {:induction false} GainGrows(ticks: seq<Tick>, j: nat, m: nat, i: nat)
    requires Signed(ticks) && j <= m <= i < |ticks|
    ensures 0.0 <= Gain(ticks, j, m) <= Gain(ticks, j, i)
  {
    if m < i {
      GainGrows(ticks, j, m, i - 1);
    } else if j < m {
      GainGrows(ticks, j, j, m - 1);
    }
  }

  /** A step back worth a whole token is refilled once more than the window lasts. */
  lemma {:induction false} GainExceeds(ticks: seq<Tick>, j: nat, k: nat, i: nat)
    requires Signed(ticks) && j <= i < |ticks|
    requires j < k <= i ==> ticks[k].elapsed <= 0.0 && ticks[k].inflow == -1.0
    ensures Gain(ticks, j, i) >= InflowBetween(ticks, j, i) + (if j < k <= i then 1.0 else 0.0)
  {
    if j < i {
      GainExceeds(ticks, j, k, i - 1);
    }
  }

  lemma {:induction false} SameGain(a: seq<Tick>, b: seq<Tick>, j: nat, i: nat)
    requires j <= i < |a| == |b|
    requires forall k :: 0 <= k < |a| ==> a[k].elapsed == b[k].elapsed && a[k].inflow == b[k].inflow
    ensures Gain(a, j, i) == Gain(b, j, i)
  {
    if j < i {
      SameGain(a, b, j, i - 1);
    }
  }

  /** The whole capacity is taken at `j`, nothing before and nothing between `j` and `i`. */
  ghost predicate Drained(capacity: real, ticks: seq<Tick>, j: nat, i: nat) {
    && capacity >= 0.0 && j < i < |ticks| && ticks[j].tokens == capacity
    && forall k :: 0 <= k < i && k != j ==> ticks[k].tokens == 0.0
  }

  lemma {:induction false} FullUntil(capacity: real, ticks: seq<Tick>, j: nat, i: nat, k: nat)
    requires Drained(capacity, ticks, j, i) && Signed(ticks) && k <= j
    ensures Level(capacity, ticks, k) == capacity
  {
    if k > 0 {
      FullUntil(capacity, ticks, j, i, k - 1);
    }
  }

  /** A bucket that was emptied fills with what flows in, and gives nothing meanwhile. */
  lemma {:induction false} RefillsByGain(capacity: real, ticks: seq<Tick>, j: nat, i: nat, m: nat)
    requires Drained(capacity, ticks, j, i) && Signed(ticks) && j < m <= i && Gain(ticks, j, i) <= capacity
    ensures Level(capacity, ticks, m) == Gain(ticks, j, m)
    ensures TakenBetween(capacity, ticks, j, m) == capacity
  {
    GainGrows(ticks, j, m, i);
    GainGrows(ticks, j, j, m - 1);
    if m == j + 1 {
      FullUntil(capacity, ticks, j, i, j);
      assert TakenBetween(capacity, ticks, j, j) == 0.0 && Gain(ticks, j, j) == 0.0;
    } else {
      RefillsByGain(capacity, ticks, j, i, m - 1);
    }
  }

  /** Emptied at `j` and asked at `i` for what whole tokens flowed in, the bucket gives both: more than the window allows. */
  lemma MoreThanInflow(capacity: real, ticks: seq<Tick>, j: nat, k: nat, i: nat)
    requires Drained(capacity, ticks, j, i) && Signed(ticks) && Gain(ticks, j, i) <= capacity
    requires j < k <= i && ticks[k].elapsed <= 0.0 && ticks[k].inflow == -1.0
    requires Gain(ticks, j, i) - 1.0 < ticks[i].tokens <= Gain(ticks, j, i)
    ensures TakenBetween(capacity, ticks, j, i + 1) > capacity + InflowBetween(ticks, j, i)
  {
    RefillsByGain(capacity, ticks, j, i, i);
    GainExceeds(ticks, j, k, i);
  }

  lemma SignedTicks(l: Limits, calls: seq<Call>)
    requires l.refill >= 0.0
    ensures Signed(TicksOf(l, calls))
  {
    var ticks := TicksOf(l, calls);
    forall k | 0 <= k < |ticks| ensures ticks[k].elapsed > 0.0 ==> ticks[k].inflow >= 0.0 {
      if ticks[k].elapsed > 0.0 {
        ProductNotNegative(ticks[k].elapsed, l.refill);
      }
    }
    forall k | 0 <= k < |ticks| ensures ticks[k].elapsed <= 0.0 ==> ticks[k].inflow <= 0.0 {
      if ticks[k].elapsed <= 0.0 {
        ProductNotNegative(-ticks[k].elapsed, l.refill);
      }
    }
  }

  /** At this rate `back` seconds are worth one token. */
  ghost predicate WorthOneToken(back: real, refill: real) {
    refill > 0.0 && -back * refill == -1.0
  }

  lemma RateOf(back: real) returns (refill: real)
    requires back > 0.0
    ensures refill > 0.0 && WorthOneToken(back, refill)
  {
    refill := 1.0 / back;
  }

  /** The ticks of such calls have the times of the calls and the tokens of the takes. */
  lemma DrainTicks(l: Limits, times: seq<real>, j: nat, i: nat, last: nat)
    requires j < i < |times|
    ensures var ticks := TicksOf(l, CallsAt(times, Drain(|times|, j, l.capacity, i, last)));
      Drained(l.capacity as real, ticks, j, i) && ticks[i].tokens == last as real
  {
  }

  lemma OvergrantedRun(l: Limits, calls: seq<Call>, j: nat, k: nat, i: nat)
    requires l.refill >= 0.0 && i < |calls| && Drained(l.capacity as real, TicksOf(l, calls), j, i)
    requires j < k <= i && TicksOf(l, calls)[k].elapsed <= 0.0 && TicksOf(l, calls)[k].inflow == -1.0
    requires var gain := Gain(TicksOf(l, calls), j, i);
      gain <= l.capacity as real && gain - 1.0 < TicksOf(l, calls)[i].tokens <= gain
    ensures Granted(l, calls, j, i + 1) > WindowBound(l, calls, j, i)
  {
    SignedTicks(l, calls);
    MoreThanInflow(l.capacity as real, TicksOf(l, calls), j, k, i);
    InflowTelescopes(l, calls, j, i);
    GrantedFollowsTicks(l, calls, j, i + 1);
  }

  lemma StepBackTick(l: Limits, calls: seq<Call>, k: nat, back: real)
    requires 0 < k < |calls| && calls[k].at == calls[k - 1].at - back && back > 0.0 && WorthOneToken(back, l.refill)
    ensures TicksOf(l, calls)[k].elapsed <= 0.0 && TicksOf(l, calls)[k].inflow == -1.0
  {
    assert calls[k].at - calls[k - 1].at == -back;
  }

  /** Limits and takes that get more than the window allows, for every window inside which the clock steps back. */
  lemma StepBackOvergrants(times: seq<real>, j: nat, k: nat, i: nat) returns (l: Limits, tokens: seq<nat>)
    requires j < k <= i < |times| && times[j] <= times[i] && times[k] < times[k - 1]
    ensures l.refill > 0.0 && |tokens| == |times|
    ensures var calls := CallsAt(times, tokens); Granted(l, calls, j, i + 1) > WindowBound(l, calls, j, i)
  {
    var back := times[k - 1] - times[k];
    var refill := RateOf(back);
    var gain := GainAt(times, j, i, refill);
    l := Limits(gain.Floor + 1, refill);
    tokens := Drain(|times|, j, l.capacity, i, gain.Floor);
    var calls := CallsAt(times, tokens);
    DrainTicks(l, times, j, i, gain.Floor);
    StepBackTick(l, calls, k, back);
    OvergrantedRun(l, calls, j, k, i);
  }

  /** What flows in at these times depends on the rate alone. */
  lemma GainAt(times: seq<real>, j: nat, i: nat, refill: real) returns (gain: real)
    requires refill >= 0.0 && j <= i < |times|
    ensures gain >= 0.0
    ensures forall l: Limits, tokens: seq<nat> :: l.refill == refill && |tokens| == |times| ==>
      Gain(TicksOf(l, CallsAt(times, tokens)), j, i) == gain
  {
    var idle := TicksOf(Limits(0, refill), CallsAt(times, seq(|times|, _ => 0)));
    SignedTicks(Limits(0, refill), CallsAt(times, seq(|times|, _ => 0)));
    GainGrows(idle, j, j, i);
    gain := Gain(idle, j, i);
    forall l: Limits, tokens: seq<nat> | l.refill == refill && |tokens| == |times|
      ensures Gain(TicksOf(l, CallsAt(times, tokens)), j, i) == gain
    {
      var ticks := TicksOf(l, CallsAt(times, tokens));
      assert forall k :: 0 <= k < |ticks| ==> ticks[k].elapsed == idle[k].elapsed && ticks[k].inflow == idle[k].inflow;
      SameGain(ticks, idle, j, i);
    }
  }

  ghost predicate AlwaysSteady(times: seq<real>) {
    forall j, i :: 0 <= j <= i < |times| && times[j] <= times[i] ==> Steady(times, j, i)
  }

  lemma SteadyWindowsHold(l: Limits, times: seq<real>, tokens: seq<nat>)
    requires l.refill > 0.0 && |tokens| == |times| && AlwaysSteady(times)
    ensures WithinWindows(l, CallsAt(times, tokens))
  {
    var calls := CallsAt(times, tokens);
    assert TimesOf(calls) == times;
    forall j, i | 0 <= j <= i < |calls| && calls[j].at <= calls[i].at
      ensures Granted(l, calls, j, i + 1) <= WindowBound(l, calls, j, i)
    {
      assert times[j] <= times[i];
      WindowNeverExceeded(l, calls, j, i);
    }
  }

  /**
   * Calls at these times stay within every window, whatever the limits and the takes, exactly when the clock does not
   * step back inside a window.
   */
  lemma WindowsHoldIffClockSteady(times: seq<real>)
    ensures (forall l: Limits, tokens: seq<nat> :: l.refill > 0.0 && |tokens| == |times| ==>
              WithinWindows(l, CallsAt(times, tokens)))
        <==> AlwaysSteady(times)
  {
    if AlwaysSteady(times) {
      forall l: Limits, tokens: seq<nat> | l.refill > 0.0 && |tokens| == |times|
        ensures WithinWindows(l, CallsAt(times, tokens))
      {
        SteadyWindowsHold(l, times, tokens);
      }
    } else {
      var j, i :| 0 <= j <= i < |times| && times[j] <= times[i] && !Steady(times, j, i);
      var k :| j < k <= i && times[k] < times[k - 1];
      var l, tokens := StepBackOvergrants(times, j, k, i);
      assert !WithinWindows(l, CallsAt(times, tokens));
    }
  }

  // ---------------------------------------------------------------------
  // Expiry
  // ---------------------------------------------------------------------

  /** An idle bucket is full again by the time its key expires. */
  predicate FullAtExpiry(l: Limits) {
    l.refill >= 0.0 && Ttl(l) as real * l.refill >= l.capacity as real
  }

  lemma ExpiredBucketIsFull(l: Limits, slot: Slot, now: real)
    requires FullAtExpiry(l) && slot.count >= 0.0 && now >= slot.last + Ttl(l) as real
    ensures Available(l, Some(slot), now) == Available(l, None, now)
  {
    var elapsed, ttl := now - slot.last, Ttl(l) as real;
    ProductNotNegative(elapsed - ttl, l.refill);
    assert elapsed * l.refill == (elapsed - ttl) * l.refill + ttl * l.refill >= l.capacity as real;
    assert slot.count + elapsed * l.refill >= l.capacity as real;
  }

  lemma {:induction false} ExpiryKeepsHash(l: Limits, calls: seq<Call>)
    requires FullAtExpiry(l) && Orderly(calls)
    ensures AfterExpiring(l, calls) == After(l, calls)
  {
    if calls != [] {
      var before, c := calls[..|calls| - 1], calls[|calls| - 1];
      ExpiryKeepsHash(l, before);
      CountNeverNegative(l, before);
      var slot := After(l, before);
      if slot.Some? && c.at >= slot.value.last + Ttl(l) as real {
        ExpiredBucketIsFull(l, slot.value, c.at);
      }
    }
  }

  lemma ExpiryKeepsDecision(l: Limits, calls: seq<Call>, i: nat)
    requires FullAtExpiry(l) && Orderly(calls) && i < |calls|
    ensures AllowedExpiring(l, calls, i) == Allowed(l, calls, i)
  {
    ExpiryKeepsHash(l, calls[..i]);
    CountNeverNegative(l, calls[..i]);
    var slot := After(l, calls[..i]);
    if slot.Some? && calls[i].at >= slot.value.last + Ttl(l) as real {
      ExpiredBucketIsFull(l, slot.value, calls[i].at);
    }
  }

  lemma FastEnough(l: Limits)
    requires l.refill >= SLOWEST
    ensures FullAtExpiry(l)
  {
    var x := l.capacity as real / l.refill;
    assert x * l.refill == l.capacity as real;
    assert x >= 0.0;
    assert (x * 2.0).Floor as real > x * 2.0 - 1.0;
    assert Ttl(l) as real >= x;
    ProductNotNegative(Ttl(l) as real - x, l.refill);
  }

  lemma SlowTtl(l: Limits)
    requires l.refill < SLOWEST
    ensures Ttl(l) == if l.capacity == 0 then 60 else 2000 * l.capacity
  {
    assert (l.capacity as real / SLOWEST) * 2.0 == (2000 * l.capacity) as real;
  }

  /** The refill rates at which expiry is harmless: half the floor the formula assumes is enough. */
  predicate SafeRefill(l: Limits) {
    l.refill >= 0.0005 || (l.capacity == 0 && l.refill >= 0.0)
  }

  lemma SafeIffFull(l: Limits)
    ensures SafeRefill(l) <==> FullAtExpiry(l)
  {
    if l.refill >= SLOWEST {
      FastEnough(l);
    } else {
      SlowTtl(l);
      var c := l.capacity as real;
      if l.capacity > 0 {
        assert Ttl(l) as real == 2000.0 * c;
        assert Ttl(l) as real * l.refill - c == c * (2000.0 * l.refill - 1.0);
        assert 2000.0 * l.refill - 1.0 >= 0.0 <==> l.refill >= 0.0005;
        if l.refill >= 0.0005 {
          assert c * (2000.0 * l.refill - 1.0) >= 0.0;
        } else {
          assert c * (2000.0 * l.refill - 1.0) < 0.0;
        }
      }
    }
  }

  /** Emptying the bucket and coming back when the key is gone tells the two apart when the rate is unsafe. */
  lemma UnsafeRun(l: Limits)
    requires !SafeRefill(l)
    ensures var calls := [Call(0.0, l.capacity), Call(Ttl(l) as real, l.capacity)];
      Orderly(calls) && AllowedExpiring(l, calls, 1) && !Allowed(l, calls, 1)
  {
    var calls := [Call(0.0, l.capacity), Call(Ttl(l) as real, l.capacity)];
    assert calls[..1] == [calls[0]] && calls[..1][..0] == [];
    SafeIffFull(l);
    assert After(l, calls[..1]) == Some(Slot(0.0, 0.0));
    assert AfterExpiring(l, calls[..1]) == Some(Slot(0.0, 0.0));
    assert Ttl(l) as real * l.refill < l.capacity as real by {
      if l.refill < 0.0 {
        assert Ttl(l) as real * l.refill < 0.0;
      }
    }
  }

  /** A key that expires makes the same decisions and holds the same counts in every run if and only if the rate is safe. */
  lemma ExpiryHarmlessIff(l: Limits)
    ensures (forall calls, i :: Orderly(calls) && 0 <= i < |calls| ==>
              AllowedExpiring(l, calls, i) == Allowed(l, calls, i) && AfterExpiring(l, calls) == After(l, calls))
        <==> SafeRefill(l)
  {
    if SafeRefill(l) {
      SafeIffFull(l);
      forall calls, i | Orderly(calls) && 0 <= i < |calls|
        ensures AllowedExpiring(l, calls, i) == Allowed(l, calls, i) && AfterExpiring(l, calls) == After(l, calls)
      {
        ExpiryKeepsDecision(l, calls, i);
        ExpiryKeepsHash(l, calls);
      }
    } else {
      UnsafeRun(l);
      var calls := [Call(0.0, l.capacity), Call(Ttl(l) as real, l.capacity)];
      assert AllowedExpiring(l, calls, 1) != Allowed(l, calls, 1);
    }
  }
}
