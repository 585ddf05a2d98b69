/** The byte-limited writer that runtime captures go through. */
module CaptureWriter {

  import opened Options

  type Bytes = seq<bv8>

  datatype WriteError = LimitReached | ShortWrite | Underlying(text: string)

  /** What the underlying writer does with the bytes it is given: it takes some of them, and may fail. */
  datatype Reply = Reply(taken: nat, failure: Option<string>)

  datatype Call = Call(payload: Bytes, reply: Reply)

  /** The writer's fields, and what the underlying writer has accepted so far. */
  datatype Progress = Progress(remaining: nat, written: nat, error: Option<WriteError>, output: Bytes)

  function Offered(p: Progress, payload: Bytes): Bytes {
    if |payload| > p.remaining then payload[..p.remaining] else payload
  }

  /** The underlying writer takes at most the bytes it is given. */
  predicate Obeys(p: Progress, c: Call) { c.reply.taken <= |Offered(p, c.payload)| }

  function After(p: Progress, c: Call): (next: Progress)
    requires Obeys(p, c)
  {
    if p.error.Some? then p
    else
      var offered := Offered(p, c.payload);
      var error :=
        if c.reply.failure.Some? then Some(Underlying(c.reply.failure.value))
        else if c.reply.taken != |offered| then Some(ShortWrite)
        else if |c.payload| > p.remaining then Some(LimitReached)
        else None;
      Progress(p.remaining - c.reply.taken, p.written + c.reply.taken, error, p.output + offered[..c.reply.taken])
  }

  class Writer {
    var remaining: nat
    var written: nat
    var error: Option<WriteError>
    ghost var output: Bytes

    ghost function View(): Progress
      reads this
    {
      Progress(remaining, written, error, output)
    }

    constructor (limit: nat)
      ensures View() == Progress(limit, 0, None, [])
    {
      remaining, written, error, output := limit, 0, None, [];
    }

    method Write(payload: Bytes, reply: Reply) returns (n: nat, failed: Option<WriteError>)
      requires Obeys(View(), Call(payload, reply))
      modifies this
      ensures View() == After(old(View()), Call(payload, reply))
      ensures failed == error
      ensures n == written - old(written)
    {
      if error.Some? {
        return 0, error;
      }
      var limited := |payload| > remaining;
      var offered := if limited then payload[..remaining] else payload;
      output := output + offered[..reply.taken];
      written := written + reply.taken;
      remaining := remaining - reply.taken;
      n := reply.taken;
      if reply.failure.Some? {
        error := Some(Underlying(reply.failure.value));
      } else if reply.taken != |offered| {
        error := Some(ShortWrite);
      } else if limited {
        error := Some(LimitReached);
      }
      failed := error;
    }
  }

  // ---------------------------------------------------------------------------------------
  // Any sequence of writes.
  // ---------------------------------------------------------------------------------------

  /** All bytes that callers have passed in, in order. */
  function Payloads(calls: seq<Call>): Bytes {
    if calls == [] then [] else Payloads(calls[..|calls| - 1]) + calls[|calls| - 1].payload
  }

  ghost predicate IsRun(limit: nat, calls: seq<Call>, states: seq<Progress>) {
    && |states| == |calls| + 1 && states[0] == Progress(limit, 0, None, [])
    && forall k | 0 <= k < |calls| :: Obeys(states[k], calls[k]) && states[k + 1] == After(states[k], calls[k])
  }

  /**
   Bytes are conserved against the limit; the accepted output is a prefix of what was passed in, and all
   of it while there is no error; and the limit error means that exactly the limit was written although
   more was passed in.
   */
  lemma {:induction false} WritesAreBounded(limit: nat, calls: seq<Call>, states: seq<Progress>, k: nat)
    requires IsRun(limit, calls, states) && k <= |calls|
    ensures var p := states[k];
            && p.written + p.remaining == limit && |p.output| == p.written
            && p.output <= Payloads(calls[..k])
            && (p.error.None? ==> p.output == Payloads(calls[..k]))
            && (p.error == Some(LimitReached) ==> p.written == limit < |Payloads(calls[..k])|)
  {
    if k == 0 {
    } else {
      WritesAreBounded(limit, calls, states, k - 1);
      assert calls[..k][..k - 1] == calls[..k - 1];
      assert states[k] == After(states[k - 1], calls[k - 1]);
      OneWrite(limit, states[k - 1], calls[k - 1], Payloads(calls[..k - 1]));
    }
  }

  ghost predicate Bounded(limit: nat, p: Progress, stream: Bytes) {
    && p.written + p.remaining == limit && |p.output| == p.written
    && p.output <= stream
    && (p.error.None? ==> p.output == stream)
    && (p.error == Some(LimitReached) ==> p.written == limit < |stream|)
  }

  lemma OneWrite(limit: nat, p: Progress, c: Call, stream: Bytes)
    requires Bounded(limit, p, stream) && Obeys(p, c)
    ensures Bounded(limit, After(p, c), stream + c.payload)
  {
    if p.error.None? {
      var offered := Offered(p, c.payload);
      assert offered[..c.reply.taken] <= c.payload;
    }
  }

  /** The first error sticks: from it on nothing changes. */
  lemma {:induction false} FirstErrorSticks(limit: nat, calls: seq<Call>, states: seq<Progress>, i: nat, k: nat)
    requires IsRun(limit, calls, states) && i <= k <= |calls| && states[i].error.Some?
    ensures states[k] == states[i]
    decreases k
  {
    if i == k {
    } else {
      FirstErrorSticks(limit, calls, states, i, k - 1);
      assert states[k] == After(states[k - 1], calls[k - 1]);
    }
  }

  /**
   With an underlying writer that takes everything, the limit error comes exactly when more than the
   limit is passed in.
   */
  lemma {:induction false} LimitIffExceeded(limit: nat, calls: seq<Call>, states: seq<Progress>, k: nat)
    requires IsRun(limit, calls, states) && k <= |calls|
    requires forall i | 0 <= i < k ::
               calls[i].reply.failure.None? && calls[i].reply.taken == |Offered(states[i], calls[i].payload)|
    ensures states[k].error == if |Payloads(calls[..k])| > limit then Some(LimitReached) else None
  {
    if k == 0 {
    } else {
      LimitIffExceeded(limit, calls, states, k - 1);
      WritesAreBounded(limit, calls, states, k - 1);
      assert calls[..k][..k - 1] == calls[..k - 1];
      assert states[k] == After(states[k - 1], calls[k - 1]);
    }
  }
}
