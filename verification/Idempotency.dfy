/** The idempotency store on one key, the behavior that drives it, and every interleaving of clients sharing the key. */
module Idempotency {
  import opened Options
  import opened JsonText

  datatype Status = InProgress | Completed

  /** The Redis hash of one (tenant, key). */
  datatype Slot = Slot(status: Status, fingerprint: Option<string>, response: Option<string>)

  /**
   * `fingerprint` is the digest of a payload; `image` what `json.dumps(…, default=str)` sees of a result;
   * `loads` reads JSON text back.
   */
  datatype Codec = Codec(fingerprint: Json -> string, image: Json -> Json, loads: string -> Json)

  ghost predicate Faithful(c: Codec) {
    && (forall j :: c.loads(Dumps(j)) == j)
    && (forall p, q :: c.fingerprint(p) == c.fingerprint(q) ==> p == q)
  }

  /** A store call can fail before reaching Redis, or after the script has run. */
  datatype Fault = NoFault | NotSent | ReplyLost

  datatype ErrorKind = Mismatch | Busy | Unavailable

  /** `begin`'s result; the Python `None` of a fresh claim and a stored `null` are the same value. */
  datatype BeginResult = Granted(stored: Json) | Refused(error: ErrorKind)

  const CLAIM := "claim"
  const CONFLICT := "conflict"
  const IN_PROGRESS := "in_progress"

  /** The Lua script. */
  function Script(slot: Option<Slot>, fp: string): (Option<Slot>, string) {
    if slot.None? then (Some(Slot(InProgress, Some(fp), None)), CLAIM)
    else if slot.value.fingerprint != Some(fp) then (slot, CONFLICT)
    else if slot.value.status.Completed? && slot.value.response.Some? then (slot, slot.value.response.value)
    else (slot, IN_PROGRESS)
  }

  function Decode(c: Codec, reply: string): BeginResult {
    if reply == CLAIM then Granted(Null)
    else if reply == CONFLICT then Refused(Mismatch)
    else if reply == IN_PROGRESS then Refused(Busy)
    else Granted(c.loads(reply))
  }

  function BeginEffect(c: Codec, slot: Option<Slot>, payload: Json, fault: Fault): (Option<Slot>, BeginResult) {
    var (after, reply) := Script(slot, c.fingerprint(payload));
    match fault
    case NoFault => (after, Decode(c, reply))
    case NotSent => (slot, Refused(Unavailable))
    case ReplyLost => (after, Refused(Unavailable))
  }

  function CompleteEffect(c: Codec, slot: Option<Slot>, value: Json, fault: Fault): Option<Slot> {
    if fault.NotSent? then slot
    else
      var fp := if slot.Some? then slot.value.fingerprint else None;
      Some(Slot(Completed, fp, Some(Dumps(c.image(value)))))
  }

  datatype Result = Success(value: Json) | Failure

  datatype Reply = Value(value: Json) | HandlerFailed | StoreError(error: ErrorKind)

  class IdempotencyStore {
    const codec: Codec
    var slot: Option<Slot>

    constructor (codec: Codec)
      ensures this.codec == codec && slot == None
    {
      this.codec, slot := codec, None;
    }

    method Begin(payload: Json, fault: Fault) returns (r: BeginResult)
      modifies this
      ensures (slot, r) == BeginEffect(codec, old(slot), payload, fault)
    {
      if fault.NotSent? {
        return Refused(Unavailable);
      }
      var (after, reply) := Script(slot, codec.fingerprint(payload));
      slot := after;
      if fault.ReplyLost? {
        return Refused(Unavailable);
      }
      return Decode(codec, reply);
    }

    method Complete(value: Json, fault: Fault)
      modifies this
      ensures slot == CompleteEffect(codec, old(slot), value, fault)
    {
      if !fault.NotSent? {
        var fp := if slot.Some? then slot.value.fingerprint else None;
        slot := Some(Slot(Completed, fp, Some(Dumps(codec.image(value)))));
      }
    }

    /** `IdempotencyBehavior.handle` without interference; `result` is what the handler would return if it were called. */
    method Handle(payload: Json, result: Result, beginFault: Fault, completeFault: Fault) returns (reply: Reply, ran: bool)
      modifies this
      ensures var (claimed, begun) := BeginEffect(codec, old(slot), payload, beginFault);
        && ran == (begun == Granted(Null))
        && slot == (if ran && result.Success? then CompleteEffect(codec, claimed, result.value, completeFault) else claimed)
        && reply == (if begun.Refused? then StoreError(begun.error)
                     else if !ran then Value(begun.stored)
                     else if result.Success? then Value(result.value) else HandlerFailed)
    {
      var claim := Begin(payload, beginFault);
      match claim {
        case Refused(error) => return StoreError(error), false;
        case Granted(stored) =>
          if stored != Null {
            return Value(stored), false;
          }
      }
      match result {
        case Failure => return HandlerFailed, true;
        case Success(value) =>
          Complete(value, completeFault);
          return Value(value), true;
      }
    }
  }

  /** No stored response reads as one of the script's own replies. */
  lemma SentinelsAreNotJson(c: Codec, j: Json)
    requires Faithful(c)
    ensures Decode(c, Dumps(j)) == Granted(j)
  {
    DumpsFirstChar(j);
    assert CLAIM[0] == 'c' && CONFLICT[0] == 'c' && IN_PROGRESS[0] == 'i';
  }

  /** The text of a value determines it, so a codec that reads results back and tells payloads apart exists for every image. */
  lemma FaithfulCodecExists(image: Json -> Json)
    ensures exists c: Codec :: c.image == image && Faithful(c)
  {
    ghost var c := Codec(j => Dumps(j), image, Reader());
    forall j ensures c.loads(Dumps(j)) == j {
      LoadsDumps(j);
    }
    forall p, q | c.fingerprint(p) == c.fingerprint(q) ensures p == q {
      DumpsInjective(p, q);
    }
    assert c.image == image && Faithful(c);
  }

  ghost function Reader(): string -> Json {
    (s: string) => Loads(s)
  }

  /** The key was claimed for this payload. */
  predicate Claims(slot: Slot, fp: string) {
    slot.fingerprint == Some(fp)
  }

  /**
   * What `begin` answers for a key: granted where there is none, refused for another payload, replayed where a result
   * was stored, and busy otherwise. A call that fails tells nothing, and has claimed the key if the script ran.
   */
  lemma BeginAnswers(c: Codec, slot: Option<Slot>, payload: Json, fault: Fault)
    requires Faithful(c)
    ensures var (after, r) := BeginEffect(c, slot, payload, fault);
      var fp := c.fingerprint(payload);
      && (fault.NotSent? ==> after == slot)
      && (!fault.NotSent? ==> after == if slot.None? then Some(Slot(InProgress, Some(fp), None)) else slot)
      && (!fault.NoFault? ==> r == Refused(Unavailable))
      && (fault.NoFault? ==>
            && (slot.None? ==> r == Granted(Null))
            && (slot.Some? && !Claims(slot.value, fp) ==> r == Refused(Mismatch))
            && (slot.Some? && Claims(slot.value, fp) && (slot.value.status.InProgress? || slot.value.response.None?) ==>
                  r == Refused(Busy))
            && (forall stored :: slot == Some(Slot(Completed, Some(fp), Some(Dumps(stored)))) ==> r == Granted(stored)))
  {
    forall stored | slot == Some(Slot(Completed, Some(c.fingerprint(payload)), Some(Dumps(stored))))
      ensures fault.NoFault? ==> BeginEffect(c, slot, payload, fault).1 == Granted(stored)
    {
      SentinelsAreNotJson(c, stored);
    }
  }

  /** `complete` stores the image of the value and keeps the fingerprint, even of a key that is gone, unless it was not sent. */
  lemma CompleteStores(c: Codec, slot: Option<Slot>, value: Json, fault: Fault)
    ensures var after := CompleteEffect(c, slot, value, fault);
      && (fault.NotSent? ==> after == slot)
      && (!fault.NotSent? ==>
            && after.Some? && after.value.status == Completed && after.value.response == Some(Dumps(c.image(value)))
            && after.value.fingerprint == if slot.Some? then slot.value.fingerprint else None)
  {
  }

  /** A request after a stored one gets its result for the same payload, and a mismatch for any other. */
  lemma ReplaysOrRefuses(c: Codec, first: Json, again: Json, value: Json)
    requires Faithful(c)
    ensures var claimed := BeginEffect(c, None, first, NoFault).0;
      var stored := CompleteEffect(c, claimed, value, NoFault);
      BeginEffect(c, stored, again, NoFault)
        == (stored, if again == first then Granted(c.image(value)) else Refused(Mismatch))
  {
    SentinelsAreNotJson(c, c.image(value));
  }

  // ---------------------------------------------------------------------
  // Interleavings
  // ---------------------------------------------------------------------

  datatype Client =
    | Fresh
    | MayRun(payload: Json)
    | MustStore(payload: Json, value: Json)
    | Finished

  datatype Run = Run(payload: Json, result: Result)

  /** `runs` are the handler runs so far, `replays` what replaying clients were given. */
  datatype World = World(
    slot: Option<Slot>,
    clients: map<nat, Client>,
    runs: seq<Run>,
    replays: seq<(Json, Json)>)

  datatype Op =
    | Begin(c: nat, payload: Json, fault: Fault)
    | Handler(c: nat, result: Result)
    | Store(c: nat, fault: Fault)
    | Crash(c: nat)

  const INIT := World(None, map[], [], [])

  function ClientAt(w: World, c: nat): Client {
    if c in w.clients then w.clients[c] else Fresh
  }

  function SetClient(w: World, c: nat, s: Client): World {
    w.(clients := w.clients[c := s])
  }

  function BeginStep(codec: Codec, w: World, c: nat, payload: Json, fault: Fault): World {
    var (slot, r) := BeginEffect(codec, w.slot, payload, fault);
    var w1 := w.(slot := slot);
    match r
    case Refused(_) => SetClient(w1, c, Finished)
    case Granted(stored) =>
      if stored == Null then SetClient(w1, c, MayRun(payload))
      else SetClient(w1, c, Finished).(replays := w.replays + [(payload, stored)])
  }

  function HandlerStep(w: World, c: nat, payload: Json, result: Result): World {
    SetClient(w, c, if result.Success? then MustStore(payload, result.value) else Finished).(
      runs := w.runs + [Run(payload, result)])
  }

  function Step(codec: Codec, w: World, op: Op): World {
    match op
    case Begin(c, payload, fault) =>
      if ClientAt(w, c).Fresh? then BeginStep(codec, w, c, payload, fault) else w
    case Handler(c, result) =>
      if ClientAt(w, c).MayRun? then HandlerStep(w, c, ClientAt(w, c).payload, result) else w
    case Store(c, fault) =>
      if ClientAt(w, c).MustStore? then
        SetClient(w, c, Finished).(slot := CompleteEffect(codec, w.slot, ClientAt(w, c).value, fault))
      else w
    case Crash(c) => SetClient(w, c, Finished)
  }

  function Exec(codec: Codec, w: World, ops: seq<Op>): World {
    if ops == [] then w else Step(codec, Exec(codec, w, ops[..|ops| - 1]), ops[|ops| - 1])
  }

  /** Every handler result the run contains has a non-null image. */
  ghost predicate NonNull(codec: Codec, ops: seq<Op>) {
    forall op :: op in ops && op.Handler? && op.result.Success? ==> codec.image(op.result.value) != Null
  }

  /** The client was granted the key and has not yet stored its result. */
  predicate Owner(s: Client) {
    s.MayRun? || s.MustStore?
  }

  /** The key is unclaimed and untouched; or exactly one client owns its only run, before, during and after it. */
  ghost predicate WorldOk(codec: Codec, w: World) {
    if w.slot.None? then
      w.runs == [] && w.replays == [] && forall c :: c in w.clients ==> !Owner(w.clients[c])
    else
      && w.slot.value.fingerprint.Some? && |w.runs| <= 1
      && (forall c, d :: c in w.clients && d in w.clients && Owner(w.clients[c]) && Owner(w.clients[d]) ==> c == d)
      && (forall c :: c in w.clients && w.clients[c].MayRun? ==>
            && w.slot.value.status.InProgress? && w.runs == []
            && w.slot.value.fingerprint == Some(codec.fingerprint(w.clients[c].payload)))
      && (forall c :: c in w.clients && w.clients[c].MustStore? ==>
            && w.slot.value.status.InProgress?
            && w.runs == [Run(w.clients[c].payload, Success(w.clients[c].value))])
      && (|w.runs| == 1 ==> w.slot.value.fingerprint == Some(codec.fingerprint(w.runs[0].payload)))
      && (|w.runs| == 1 && w.runs[0].result.Success? ==> codec.image(w.runs[0].result.value) != Null)
      && (w.slot.value.status.Completed? ==>
            && |w.runs| == 1 && w.runs[0].result.Success?
            && w.slot.value.response == Some(Dumps(codec.image(w.runs[0].result.value))))
      && (w.replays != [] ==> |w.runs| == 1 && w.runs[0].result.Success?)
      && (forall i :: 0 <= i < |w.replays| ==>
            w.replays[i] == (w.runs[0].payload, codec.image(w.runs[0].result.value)))
  }

  lemma BeginStepOk(codec: Codec, w: World, c: nat, payload: Json, fault: Fault)
    requires Faithful(codec) && WorldOk(codec, w) && ClientAt(w, c).Fresh?
    ensures WorldOk(codec, BeginStep(codec, w, c, payload, fault))
  {
    var fp := codec.fingerprint(payload);
    if w.slot.Some? && w.slot.value.fingerprint == Some(fp) && w.slot.value.status.Completed? {
      SentinelsAreNotJson(codec, codec.image(w.runs[0].result.value));
    }
  }

  lemma StepOk(codec: Codec, w: World, op: Op)
    requires Faithful(codec) && WorldOk(codec, w)
    requires op.Handler? && op.result.Success? ==> codec.image(op.result.value) != Null
    ensures WorldOk(codec, Step(codec, w, op))
  {
    if op.Begin? && ClientAt(w, op.c).Fresh? {
      BeginStepOk(codec, w, op.c, op.payload, op.fault);
    }
  }

  lemma {:induction false} EveryRunOk(codec: Codec, ops: seq<Op>)
    requires Faithful(codec) && NonNull(codec, ops)
    ensures WorldOk(codec, Exec(codec, INIT, ops))
  {
    if ops != [] {
      EveryRunOk(codec, ops[..|ops| - 1]);
      StepOk(codec, Exec(codec, INIT, ops[..|ops| - 1]), ops[|ops| - 1]);
    }
  }

  /** In every interleaving with non-null results the handler runs at most once, and every replay is that run's stored result for that run's payload. */
  lemma AtMostOnce(codec: Codec, ops: seq<Op>)
    requires Faithful(codec) && NonNull(codec, ops)
    ensures var w := Exec(codec, INIT, ops);
      && |w.runs| <= 1
      && forall i :: 0 <= i < |w.replays| ==>
           && |w.runs| == 1 && w.runs[0].result.Success?
           && w.replays[i] == (w.runs[0].payload, codec.image(w.runs[0].result.value))
  {
    EveryRunOk(codec, ops);
  }

  /** All handler runs of `ops` return `v`. */
  ghost predicate Returns(ops: seq<Op>, v: Json) {
    forall op :: op in ops && op.Handler? && op.result.Success? ==> op.result.value == v
  }

  lemma ExecSnoc(codec: Codec, w: World, ops: seq<Op>, op: Op)
    ensures Exec(codec, w, ops + [op]) == Step(codec, Exec(codec, w, ops), op)
  {
    assert (ops + [op])[..|ops + [op]| - 1] == ops;
  }

  lemma NullRunsTwice(codec: Codec, payload: Json, v: Json) returns (ops: seq<Op>)
    requires Faithful(codec) && codec.image(v) == Null
    ensures Returns(ops, v) && |Exec(codec, INIT, ops).runs| == 2
  {
    var o1 := [] + [Begin(0, payload, NoFault)];
    var o2 := o1 + [Handler(0, Success(v))];
    var o3 := o2 + [Store(0, NoFault)];
    var o4 := o3 + [Begin(1, payload, NoFault)];
    ops := o4 + [Handler(1, Success(v))];
    SentinelsAreNotJson(codec, Null);
    var fp := codec.fingerprint(payload);
    ExecSnoc(codec, INIT, [], Begin(0, payload, NoFault));
    ExecSnoc(codec, INIT, o1, Handler(0, Success(v)));
    ExecSnoc(codec, INIT, o2, Store(0, NoFault));
    ExecSnoc(codec, INIT, o3, Begin(1, payload, NoFault));
    ExecSnoc(codec, INIT, o4, Handler(1, Success(v)));
    var w1, w2 := Exec(codec, INIT, o1), Exec(codec, INIT, o2);
    var w3, w4 := Exec(codec, INIT, o3), Exec(codec, INIT, o4);
    assert w1.clients == map[0 := MayRun(payload)] && w1.slot == Some(Slot(InProgress, Some(fp), None));
    assert w2.clients == map[0 := MustStore(payload, v)] && w2.slot == w1.slot && |w2.runs| == 1;
    assert w3.slot == Some(Slot(Completed, Some(fp), Some(Dumps(Null)))) && w3.runs == w2.runs;
    assert ClientAt(w4, 1) == MayRun(payload) && w4.runs == w2.runs;
  }

  /** A handler that returns `v` runs at most once in every interleaving if and only if `v` is not stored as null. */
  lemma AtMostOnceIff(codec: Codec, v: Json)
    requires Faithful(codec)
    ensures (forall ops :: Returns(ops, v) ==> |Exec(codec, INIT, ops).runs| <= 1) <==> codec.image(v) != Null
  {
    if codec.image(v) == Null {
      var ops := NullRunsTwice(codec, Null, v);
      assert Returns(ops, v) && |Exec(codec, INIT, ops).runs| == 2;
    } else {
      forall ops | Returns(ops, v) ensures |Exec(codec, INIT, ops).runs| <= 1 {
        AtMostOnce(codec, ops);
      }
    }
  }

  ghost predicate Abandoned(w: World) {
    && w.slot.Some? && w.slot.value.status.InProgress?
    && forall c :: c in w.clients ==> !Owner(w.clients[c])
  }

  /** Once the claiming request failed or died, the key refuses everyone: no later request runs the handler or is given a value. */
  lemma {:induction false} AbandonedForever(codec: Codec, w: World, ops: seq<Op>)
    requires Abandoned(w)
    ensures var w' := Exec(codec, w, ops);
      Abandoned(w') && w'.slot == w.slot && w'.runs == w.runs && w'.replays == w.replays
  {
    if ops != [] {
      AbandonedForever(codec, w, ops[..|ops| - 1]);
    }
  }
}
