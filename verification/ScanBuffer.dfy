/** The buffer negotiation between the companion and the scan engine: the C side of the call,
    and the loop that grows the buffer. */
module ScanBuffer {
  import opened Common
  import Base64

  type Byte = Base64.Byte

  const OK := 0
  const TOO_SMALL := -1

  const INITIAL_BUFFER: nat := 65_536
  const MAX_BUFFER: nat := 4_194_304
  const USIZE_MAX: nat := 0xFFFF_FFFF_FFFF_FFFF

  // --- The engine's side ----------------------------------------------------------

  /** What `fiveprotect_scan_snapshot_json` does with the text it has produced. */
  method Deliver(json: seq<Byte>, buffer: array?<Byte>, size: nat) returns (code: int, written: nat)
    requires buffer != null ==> size <= buffer.Length
    modifies buffer
    ensures written == |json|
    ensures code == if buffer != null && size >= |json| + 1 then 0 else -1
    ensures code == 0 ==> buffer[..] == json + [0] + old(buffer[|json| + 1..])
    ensures code != 0 && buffer != null ==> buffer[..] == old(buffer[..])
  {
    written := |json|;
    if buffer == null || size < |json| + 1 {
      return TOO_SMALL, written;
    }
    for i := 0 to |json|
      invariant buffer[..i] == json[..i]
      invariant buffer[i..] == old(buffer[i..])
    {
      buffer[i] := json[i];
      assert buffer[..i + 1] == buffer[..i] + [json[i]];
    }
    buffer[|json|] := 0;
    code := OK;
    assert buffer[..|json|] == json;
    assert buffer[..] == buffer[..|json|] + [buffer[|json|]] + buffer[|json| + 1..];
  }

  /** A call's outcome: the code, the count, and the buffer as it was left. */
  datatype Reply = Reply(code: int, written: nat, buffer: seq<Byte>)

  /** Any engine, by the number of the call and the capacity it is offered. */
  type Engine = (nat, nat) -> Reply

  /** The engine stays inside the buffer, and counts in a `usize`. */
  ghost predicate Bounded(engine: Engine) {
    forall call, capacity :: |engine(call, capacity).buffer| == capacity && engine(call, capacity).written <= USIZE_MAX
  }

  /** One reply as the contract has it: a failure, the whole text, or its size. */
  predicate ConformingReply(reply: Reply, capacity: nat, json: seq<Byte>) {
    if reply.code == OK then
      reply.written == |json| < capacity && |reply.buffer| == capacity && reply.buffer[..|json|] == json
    else if reply.code == TOO_SMALL then reply.written == |json| && |json| >= capacity
    else true
  }

  /** Each call keeps the contract with the text of that call. */
  ghost predicate Conforming(engine: Engine, texts: nat -> seq<Byte>) {
    && Bounded(engine)
    && (forall call :: |texts(call)| < USIZE_MAX)
    && forall call, capacity :: ConformingReply(engine(call, capacity), capacity, texts(call))
  }

  /** What `Deliver` leaves behind is a conforming reply. */
  lemma DeliveredConforms(json: seq<Byte>, before: seq<Byte>)
    ensures |before| > |json| ==> ConformingReply(Reply(OK, |json|, json + [0] + before[|json| + 1..]), |before|, json)
    ensures |before| <= |json| ==> ConformingReply(Reply(TOO_SMALL, |json|, before), |before|, json)
  {
  }

  // --- The growing loop ---------------------------------------------------------------

  datatype Outcome = Bytes(bytes: seq<Byte>) | TooLarge(required: nat) | EngineError(code: int)

  /** An outcome and how many calls it took. */
  datatype Scanned = Scanned(outcome: Outcome, calls: nat)

  function SaturatingNext(n: nat): nat {
    if n >= USIZE_MAX then USIZE_MAX else n + 1
  }

  /** `Vec::truncate`. */
  function Truncated(s: seq<Byte>, n: nat): seq<Byte> {
    if n < |s| then s[..n] else s
  }

  /** The scan from a call on, with the capacity it offers. */
  function ScanFrom(engine: Engine, call: nat, capacity: nat): Scanned
    decreases MAX_BUFFER - capacity
  {
    var reply := engine(call, capacity);
    if reply.code == OK then Scanned(Bytes(Truncated(reply.buffer, reply.written)), call + 1)
    else if reply.code == TOO_SMALL then
      var required := SaturatingNext(reply.written);
      if required > MAX_BUFFER || required <= capacity then Scanned(TooLarge(required), call + 1)
      else ScanFrom(engine, call + 1, required)
    else Scanned(EngineError(reply.code), call + 1)
  }

  /** The loop ends whatever the engine answers. */
  method Scan(engine: Engine) returns (outcome: Outcome)
    ensures outcome == ScanFrom(engine, 0, INITIAL_BUFFER).outcome
  {
    var capacity: nat := INITIAL_BUFFER;
    var call: nat := 0;
    while true
      invariant INITIAL_BUFFER <= capacity <= MAX_BUFFER
      invariant ScanFrom(engine, call, capacity) == ScanFrom(engine, 0, INITIAL_BUFFER)
      decreases MAX_BUFFER - capacity
    {
      var reply := engine(call, capacity);
      call := call + 1;
      if reply.code == OK {
        return Bytes(Truncated(reply.buffer, reply.written));
      } else if reply.code == TOO_SMALL {
        var required := SaturatingNext(reply.written);
        if required > MAX_BUFFER || required <= capacity {
          return TooLarge(required);
        }
        capacity := required;
      } else {
        return EngineError(reply.code);
      }
    }
  }

  // --- What any engine gets out of it ---------------------------------------------------

  /** The capacity an engine asks for: its count and one more, in a `usize`. */
  function Wanted(reply: Reply): nat {
    if reply.written < 18_446_744_073_709_551_615 then reply.written + 1 else 18_446_744_073_709_551_615
  }

  /** The engine asks for more than it has and no more than 4 MiB, and is given just that. */
  predicate GrowsTo(reply: Reply, capacity: nat, next: nat) {
    reply.code == -1 && capacity < Wanted(reply) <= 4_194_304 && next == Wanted(reply)
  }

  /** A call after which nothing follows, and what it comes to. */
  predicate EndsWith(reply: Reply, capacity: nat, outcome: Outcome) {
    if reply.code == 0 then
      && outcome.Bytes? && outcome.bytes <= reply.buffer
      && |outcome.bytes| == (if reply.written < |reply.buffer| then reply.written else |reply.buffer|)
    else if reply.code == -1 then
      (Wanted(reply) > 4_194_304 || Wanted(reply) <= capacity) && outcome == TooLarge(Wanted(reply))
    else outcome == EngineError(reply.code)
  }

  /** The capacities offered from a call on, and where they lead. */
  ghost predicate Trace(engine: Engine, call: nat, capacities: seq<nat>, s: Scanned) {
    && capacities != [] && s.calls == call + |capacities|
    && (forall i | 0 <= i < |capacities| - 1 ::
          GrowsTo(engine(call + i, capacities[i]), capacities[i], capacities[i + 1]))
    && EndsWith(engine(s.calls - 1, capacities[|capacities| - 1]), capacities[|capacities| - 1], s.outcome)
  }

  lemma OneCall(engine: Engine, call: nat, capacity: nat)
    ensures var reply, s := engine(call, capacity), ScanFrom(engine, call, capacity);
      GrowsTo(reply, capacity, Wanted(reply)) || (s.calls == call + 1 && EndsWith(reply, capacity, s.outcome))
  {
  }

  lemma {:induction false} ScanTraced(engine: Engine, call: nat, capacity: nat) returns (capacities: seq<nat>)
    ensures Trace(engine, call, capacities, ScanFrom(engine, call, capacity)) && capacities[0] == capacity
    decreases MAX_BUFFER - capacity
  {
    var reply := engine(call, capacity);
    OneCall(engine, call, capacity);
    if GrowsTo(reply, capacity, Wanted(reply)) {
      var rest := ScanTraced(engine, call + 1, Wanted(reply));
      capacities := [capacity] + rest;
      forall i | 0 <= i < |capacities| - 1
        ensures GrowsTo(engine(call + i, capacities[i]), capacities[i], capacities[i + 1])
      {
        if i > 0 {
          assert GrowsTo(engine(call + 1 + (i - 1), rest[i - 1]), rest[i - 1], rest[i - 1 + 1]);
        }
      }
    } else {
      capacities := [capacity];
    }
  }

  /** The scan of any engine: 64 KiB first, then exactly what it asks for as long as that is more
      than it had and at most 4 MiB; the last reply decides. */
  lemma ScanExactly(engine: Engine) returns (capacities: seq<nat>)
    ensures Trace(engine, 0, capacities, ScanFrom(engine, 0, INITIAL_BUFFER)) && capacities[0] == 65_536
  {
    capacities := ScanTraced(engine, 0, INITIAL_BUFFER);
  }

  // --- What a conforming engine gets out of it -------------------------------------------

  /** The bytes handed on are the whole text of one single call, the last one; and a refusal
      is always for size, never because the engine asked for no more than it had. */
  lemma {:induction false} ScanConforms(engine: Engine, texts: nat -> seq<Byte>, call: nat, capacity: nat)
    requires Conforming(engine, texts)
    ensures var s := ScanFrom(engine, call, capacity);
      && s.calls > call
      && match s.outcome
         case Bytes(bytes) => bytes == texts(s.calls - 1)
         case TooLarge(required) => required > 4_194_304 && required == |texts(s.calls - 1)| + 1
         case EngineError(code) => code != 0 && code != -1
    decreases MAX_BUFFER - capacity
  {
    var reply := engine(call, capacity);
    assert ConformingReply(reply, capacity, texts(call));
    assert |texts(call)| < USIZE_MAX;
    if reply.code == TOO_SMALL && SaturatingNext(reply.written) <= MAX_BUFFER {
      ScanConforms(engine, texts, call + 1, SaturatingNext(reply.written));
    }
  }

  /** An engine that never fails internally. */
  ghost predicate Reliable(engine: Engine) {
    forall call, capacity :: engine(call, capacity).code == OK || engine(call, capacity).code == TOO_SMALL
  }

  /** For a text whose size does not change: one call if it fits the initial buffer, two if
      it fits the maximum, and the text is obtained exactly when it and its NUL fit 4 MiB. */
  lemma ConstantSizeExactly(engine: Engine, texts: nat -> seq<Byte>, size: nat)
    requires Conforming(engine, texts) && Reliable(engine) && forall call :: |texts(call)| == size
    ensures var s := ScanFrom(engine, 0, INITIAL_BUFFER);
      && s.calls == (if 65_536 <= size < 4_194_304 then 2 else 1)
      && s.outcome == if size + 1 <= 4_194_304 then Bytes(texts(s.calls - 1)) else TooLarge(size + 1)
  {
    var first := engine(0, INITIAL_BUFFER);
    assert ConformingReply(first, INITIAL_BUFFER, texts(0));
    assert first.code == OK <==> size < INITIAL_BUFFER;
    if INITIAL_BUFFER <= size < MAX_BUFFER {
      var second := engine(1, size + 1);
      assert ConformingReply(second, size + 1, texts(1));
      assert second.code == OK;
    }
  }

  /** Whatever the engine does, the capacity only grows, so there are finitely many calls. */
  lemma {:induction false} CallsBounded(engine: Engine, call: nat, capacity: nat)
    requires capacity <= MAX_BUFFER
    ensures call < ScanFrom(engine, call, capacity).calls <= call + 1 + (MAX_BUFFER - capacity)
    decreases MAX_BUFFER - capacity
  {
    var reply := engine(call, capacity);
    var required := SaturatingNext(reply.written);
    if reply.code == TOO_SMALL && capacity < required <= MAX_BUFFER {
      CallsBounded(engine, call + 1, required);
    }
  }
}
