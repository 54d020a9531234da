/** The two bounded readers of a derivative job: one that holds a stored derivative to its
    declared size, and one that keeps a decoder within its budget.
 */
module DerivativeReaders {
  import opened Common

  datatype Answer = Bytes(bytes: seq<Byte>) | Failure

  // ---- The declared size ----------------------------------------------------------------

  /** What the underlying stream does on one read: it fails, or gives up to `count` bytes, at
      least one as long as there are any. */
  datatype Turn = Turn(count: nat, fails: bool)

  function Granted(rest: seq<Byte>, length: nat, turn: Turn): nat {
    Min(Min(|rest|, length), if turn.count == 0 then 1 else turn.count)
  }

  /** A read of `length` bytes, the underlying read it makes, and the probe for one byte more. */
  datatype SizedCall = SizedCall(length: nat, turn: Turn, probe: Turn)

  /** What the underlying stream still has, and how much of the declared size is left. */
  datatype Sized = Sized(rest: seq<Byte>, remaining: nat)

  function ReadSized(s: Sized, c: SizedCall): (Sized, Answer) {
    var n := Granted(s.rest, Min(c.length, s.remaining), c.turn);
    if c.length == 0 || s.remaining == 0 then (s, Bytes([]))
    else if c.turn.fails || n == 0 then (s, Failure)
    else
      var next := Sized(s.rest[n..], s.remaining - n);
      if next.remaining > 0 then (next, Bytes(s.rest[..n]))
      else if c.probe.fails then (next, Failure)
      else if next.rest != [] then (next.(rest := next.rest[1..]), Failure)
      else (next, Bytes(s.rest[..n]))
  }

  /** Everything delivered by a series of reads, and whether any of them failed. */
  datatype SizedRun = SizedRun(stream: Sized, delivered: seq<Byte>, failed: bool)

  function RunSized(source: seq<Byte>, declared: nat, calls: seq<SizedCall>): SizedRun {
    if calls == [] then SizedRun(Sized(source, declared), [], false)
    else
      var run := RunSized(source, declared, calls[..|calls| - 1]);
      var (stream, answer) := ReadSized(run.stream, calls[|calls| - 1]);
      match answer
      case Bytes(bytes) => SizedRun(stream, run.delivered + bytes, run.failed)
      case Failure => SizedRun(stream, run.delivered, true)
  }

  ghost predicate SizedInv(run: SizedRun, source: seq<Byte>, declared: nat) {
    && run.stream.remaining <= declared
    && (run.stream.remaining > 0 ==>
          && |run.delivered| == declared - run.stream.remaining
          && source == run.delivered + run.stream.rest)
    && (run.stream.remaining == 0 ==>
          || (run.delivered == source && |source| == declared)
          || (run.failed && |run.delivered| < declared && run.delivered <= source))
  }

  lemma SizedStep(run: SizedRun, source: seq<Byte>, declared: nat, c: SizedCall)
    requires SizedInv(run, source, declared)
    ensures var (stream, answer) := ReadSized(run.stream, c);
            SizedInv(if answer.Bytes? then SizedRun(stream, run.delivered + answer.bytes, run.failed)
                     else SizedRun(stream, run.delivered, true), source, declared)
  {
    var s := run.stream;
    var n := Granted(s.rest, Min(c.length, s.remaining), c.turn);
    if s.remaining > 0 && c.length > 0 && n > 0 {
      assert s.rest == s.rest[..n] + s.rest[n..];
      assert run.delivered + s.rest == (run.delivered + s.rest[..n]) + s.rest[n..];
    }
    assert run.delivered + [] == run.delivered;
  }

  lemma {:induction false} SizedReachable(source: seq<Byte>, declared: nat, calls: seq<SizedCall>)
    requires declared > 0
    ensures SizedInv(RunSized(source, declared, calls), source, declared)
  {
    if calls != [] {
      var run := RunSized(source, declared, calls[..|calls| - 1]);
      SizedReachable(source, declared, calls[..|calls| - 1]);
      SizedStep(run, source, declared, calls[|calls| - 1]);
    }
  }

  /** A stored derivative of any other size than declared is never delivered to its declared
      end, and one that is read to its end without a failure was exactly that size. */
  lemma SizeIsEnforced(source: seq<Byte>, declared: nat, calls: seq<SizedCall>)
    requires declared > 0
    ensures var run := RunSized(source, declared, calls);
            && run.delivered <= source && |run.delivered| <= declared
            && (|source| != declared ==> |run.delivered| < declared)
            && (run.stream.remaining == 0 && !run.failed ==> run.delivered == source && |source| == declared)
  {
    SizedReachable(source, declared, calls);
    var run := RunSized(source, declared, calls);
    if run.stream.remaining > 0 {
      assert run.delivered <= run.delivered + run.stream.rest;
    }
  }

  /** Reading an empty piece into a buffer that is not empty means the end was reached. */
  lemma EmptyReadIsTheEnd(source: seq<Byte>, declared: nat, calls: seq<SizedCall>, c: SizedCall)
    requires declared > 0 && c.length > 0
    ensures var run := RunSized(source, declared, calls);
            ReadSized(run.stream, c).1 == Bytes([]) && !run.failed ==> run.delivered == source && |source| == declared
  {
    SizeIsEnforced(source, declared, calls);
  }

  /** A source of the declared size that does not fail is read without a failure. */
  lemma {:induction false} RightSizeNeverFails(source: seq<Byte>, calls: seq<SizedCall>)
    requires forall c :: c in calls ==> !c.turn.fails && !c.probe.fails
    ensures var run := RunSized(source, |source|, calls);
            !run.failed && |run.stream.rest| == run.stream.remaining
  {
    if calls != [] {
      RightSizeNeverFails(source, calls[..|calls| - 1]);
      assert calls[|calls| - 1] in calls;
    }
  }

  class DerivativeReader {
    var rest: seq<Byte>
    var remaining: nat

    constructor (source: seq<Byte>, declared: nat)
      ensures Sized(rest, remaining) == Sized(source, declared)
    {
      rest, remaining := source, declared;
    }

    method Read(c: SizedCall) returns (answer: Answer)
      modifies this
      ensures (Sized(rest, remaining), answer) == ReadSized(Sized(old(rest), old(remaining)), c)
    {
      if c.length == 0 || remaining == 0 {
        return Bytes([]);
      }
      var count := Granted(rest, Min(c.length, remaining), c.turn);
      if c.turn.fails || count == 0 {
        return Failure;
      }
      var bytes := rest[..count];
      rest := rest[count..];
      remaining := remaining - count;
      if remaining == 0 {
        if c.probe.fails {
          return Failure;
        }
        if rest != [] {
          rest := rest[1..];
          return Failure;
        }
      }
      answer := Bytes(bytes);
    }
  }

  // ---- The budget -----------------------------------------------------------------------

  const RANGE_CHUNK: nat := 128 * 1024

  /** A decoder's reads and seeks, with what the cancellation says before and after a read. */
  datatype DecoderCall = Read(length: nat, turn: Turn, canceled: bool, canceledMeanwhile: bool) | Seek(position: nat)

  datatype Decoder = Decoder(position: nat, fetched: nat, exceeded: bool)

  function ReadBounded(source: seq<Byte>, budget: nat, d: Decoder, c: DecoderCall): (Decoder, Answer) {
    match c
    case Seek(position) => (d.(position := position), Bytes([]))
    case Read(length, turn, canceled, canceledMeanwhile) =>
      if canceled then (d, Failure)
      else if length == 0 || d.position >= |source| then (d, Bytes([]))
      else if budget <= d.fetched then (d.(exceeded := true), Failure)
      else if turn.fails then (d, Failure)
      else
        var n := Granted(source[d.position..], Min(Min(length, RANGE_CHUNK), budget - d.fetched), turn);
        var next := d.(position := d.position + n, fetched := d.fetched + n);
        if canceledMeanwhile then (next, Failure) else (next, Bytes(source[d.position..d.position + n]))
  }

  datatype DecoderRun = DecoderRun(decoder: Decoder, delivered: seq<Byte>)

  function RunDecoder(source: seq<Byte>, budget: nat, calls: seq<DecoderCall>): DecoderRun {
    if calls == [] then DecoderRun(Decoder(0, 0, false), [])
    else
      var run := RunDecoder(source, budget, calls[..|calls| - 1]);
      var (decoder, answer) := ReadBounded(source, budget, run.decoder, calls[|calls| - 1]);
      DecoderRun(decoder, if answer.Bytes? then run.delivered + answer.bytes else run.delivered)
  }

  /** No reads and seeks fetch more than the budget, and the budget is only reported exceeded
      once it is used up. */
  lemma {:induction false} BudgetIsKept(source: seq<Byte>, budget: nat, calls: seq<DecoderCall>)
    ensures var run := RunDecoder(source, budget, calls);
            && |run.delivered| <= run.decoder.fetched <= budget
            && (run.decoder.exceeded ==> run.decoder.fetched == budget)
  {
    if calls != [] {
      BudgetIsKept(source, budget, calls[..|calls| - 1]);
    }
  }

  lemma ReadInOrder(source: seq<Byte>, budget: nat, d: Decoder, c: DecoderCall)
    requires |source| <= budget && c.Read? && !c.canceledMeanwhile
    requires !d.exceeded && d.fetched == d.position <= |source|
    ensures var (next, answer) := ReadBounded(source, budget, d, c);
            && !next.exceeded && d.position <= next.fetched == next.position <= |source|
            && source[d.position..next.position] == if answer.Bytes? then answer.bytes else []
  {
  }

  /** Without seeks a source within the budget is read in order and never reported exceeded;
      unless a read was canceled half way nothing is missing. */
  lemma {:induction false} WithinBudgetInOrder(source: seq<Byte>, budget: nat, calls: seq<DecoderCall>)
    requires |source| <= budget && forall c :: c in calls ==> c.Read? && !c.canceledMeanwhile
    ensures var run := RunDecoder(source, budget, calls);
            && !run.decoder.exceeded && run.decoder.fetched == run.decoder.position <= |source|
            && run.delivered == source[..run.decoder.position]
  {
    hide ReadBounded;
    if calls != [] {
      var run := RunDecoder(source, budget, calls[..|calls| - 1]);
      WithinBudgetInOrder(source, budget, calls[..|calls| - 1]);
      assert calls[|calls| - 1] in calls;
      ReadInOrder(source, budget, run.decoder, calls[|calls| - 1]);
      Continued(source, run.decoder.position, RunDecoder(source, budget, calls).decoder.position);
    }
  }

  lemma Continued(source: seq<Byte>, from: nat, to: nat)
    requires from <= to <= |source|
    ensures source[..from] + source[from..to] == source[..to] && source[..from] + [] == source[..from]
  {
  }

  class DecoderReader {
    const source: seq<Byte>
    const budget: nat
    var position: nat
    var fetched: nat
    var exceeded: bool

    constructor (source: seq<Byte>, budget: nat)
      ensures this.source == source && this.budget == budget && Decoder(position, fetched, exceeded) == Decoder(0, 0, false)
    {
      this.source, this.budget := source, budget;
      position, fetched, exceeded := 0, 0, false;
    }

    /** The bytes a canceled read fetched are wiped, but they are counted. */
    method Read(length: nat, turn: Turn, canceled: bool, canceledMeanwhile: bool) returns (answer: Answer)
      requires fetched <= budget
      modifies this
      ensures fetched <= budget
      ensures (Decoder(position, fetched, exceeded), answer) ==
              ReadBounded(source, budget, old(Decoder(position, fetched, exceeded)),
                          DecoderCall.Read(length, turn, canceled, canceledMeanwhile))
    {
      if canceled {
        return Failure;
      }
      if length == 0 || position >= |source| {
        return Bytes([]);
      }
      var remaining := budget - fetched;
      if remaining == 0 {
        exceeded := true;
        return Failure;
      }
      if turn.fails {
        return Failure;
      }
      var count := Granted(source[position..], Min(Min(length, RANGE_CHUNK), remaining), turn);
      var bytes := source[position..position + count];
      position, fetched := position + count, fetched + count;
      answer := if canceledMeanwhile then Failure else Bytes(bytes);
    }
  }

  // ---- Where a decoder reads ------------------------------------------------------------

  /** An answer is the source from where the decoder stands, and moves it by as much. */
  lemma AnswersFromPosition(source: seq<Byte>, budget: nat, d: Decoder, c: DecoderCall)
    requires c.Read?
    ensures var (next, answer) := ReadBounded(source, budget, d, c);
            answer.Bytes? && answer.bytes != [] ==>
              && d.position + |answer.bytes| <= |source|
              && answer.bytes == source[d.position..d.position + |answer.bytes|]
              && next.position == d.position + |answer.bytes| && next.fetched == d.fetched + |answer.bytes|
  {
  }

  /** After a seek a read delivers the source from the position sought: at least a byte, as long
      as there are any and the budget is not spent, and no more than was asked for, than 128 KiB,
      and than the budget has left. */
  lemma SeekThenRead(source: seq<Byte>, budget: nat, calls: seq<DecoderCall>, position: nat, length: nat, turn: Turn)
    requires var d := RunDecoder(source, budget, calls).decoder; d.fetched < budget
    requires position < |source| && length > 0 && !turn.fails
    ensures var run := RunDecoder(source, budget, calls);
            var after := RunDecoder(source, budget, calls + [Seek(position)] + [DecoderCall.Read(length, turn, false, false)]);
            var n := after.decoder.position - position;
            && 0 < n <= length && n <= 131072 && n <= budget - run.decoder.fetched && position + n <= |source|
            && after.delivered == run.delivered + source[position..position + n]
            && after.decoder.fetched == run.decoder.fetched + n
  {
    var sought, read := calls + [Seek(position)], DecoderCall.Read(length, turn, false, false);
    assert sought[..|calls|] == calls && (sought + [read])[..|sought|] == sought;
    var run := RunDecoder(source, budget, calls);
    assert run.delivered + [] == run.delivered;
    assert RunDecoder(source, budget, sought) == DecoderRun(run.decoder.(position := position), run.delivered);
  }

  /** With the budget spent a read that would fetch fails and says why. */
  lemma SpentBudgetFails(source: seq<Byte>, budget: nat, d: Decoder, length: nat, turn: Turn, canceledMeanwhile: bool)
    requires d.fetched >= budget && d.position < |source| && length > 0
    ensures ReadBounded(source, budget, d, DecoderCall.Read(length, turn, false, canceledMeanwhile)) == (d.(exceeded := true), Failure)
  {
  }

  /** A canceled decoder delivers nothing, but what it fetched before it noticed is counted. */
  lemma CanceledDeliversNothing(source: seq<Byte>, budget: nat, d: Decoder, c: DecoderCall)
    requires c.Read? && (c.canceled || c.canceledMeanwhile)
    ensures ReadBounded(source, budget, d, c).1 == Failure || ReadBounded(source, budget, d, c).1 == Bytes([])
    ensures c.canceled ==> ReadBounded(source, budget, d, c) == (d, Failure)
    ensures !c.canceled ==> ReadBounded(source, budget, d, c).0 == ReadBounded(source, budget, d, c.(canceledMeanwhile := false)).0
  {
  }

  /** A stored derivative of the declared size is read on: every read into a non-empty buffer
      delivers something until all is delivered. */
  lemma RightSizeReadsOn(source: seq<Byte>, calls: seq<SizedCall>, c: SizedCall)
    requires forall x :: x in calls ==> !x.turn.fails && !x.probe.fails
    requires c.length > 0 && !c.turn.fails && !c.probe.fails && |RunSized(source, |source|, calls).delivered| < |source|
    ensures var answer := ReadSized(RunSized(source, |source|, calls).stream, c).1;
            answer.Bytes? && 0 < |answer.bytes| <= c.length
  {
    RightSizeNeverFails(source, calls);
    SizedReachable(source, |source|, calls);
  }
}
