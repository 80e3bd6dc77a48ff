/** The pull side of the chunk pipeline (src/uploader/stream.rs): a state machine over any
    sequence of calls, against a producer thread that may fail, vanish or panic. */
module ChunkStream {
  import opened Basics
  import opened Packing
  import opened Retry

  type Batch = seq<Chunk>

  datatype PipelineMsg = BatchMsg(batch: Batch) | DoneMsg(wholeHex: string) | FailMsg(error: CoreError)

  /** Every message the producer ever sends, in order, and whether its thread panics. */
  datatype Producer = Producer(script: seq<PipelineMsg>, panics: bool)

  datatype Reason = ProducerPanicked | PipelineFailed(error: CoreError) | NoTerminalMessage | Interrupted

  /** While streaming, `taken` messages have been received. */
  datatype StreamState = Streaming(taken: nat) | Finished(wholeHex: string) | Failed(reason: Reason)

  datatype StreamStep = BatchStep(batch: Batch) | Eof | TimedOut

  /** What a receive with a timeout comes back with. */
  datatype Received = Message(msg: PipelineMsg) | Timeout | Disconnected

  function Receive(p: Producer, taken: nat, slow: bool): Received {
    if slow then Timeout else if taken < |p.script| then Message(p.script[taken]) else Disconnected
  }

  function Next(p: Producer, s: StreamState, slow: bool): (StreamState, Result<StreamStep, CoreError>) {
    match s
    case Finished(_) => (s, Ok(Eof))
    case Failed(_) => (s, Err(Integrity))
    case Streaming(taken) =>
      match Receive(p, taken, slow)
      case Timeout => (s, Ok(TimedOut))
      case Disconnected => (Failed(NoTerminalMessage), Err(Integrity))
      case Message(BatchMsg(batch)) => (Streaming(taken + 1), Ok(BatchStep(batch)))
      case Message(DoneMsg(wholeHex)) =>
        if p.panics then (Failed(ProducerPanicked), Err(Integrity)) else (Finished(wholeHex), Ok(Eof))
      case Message(FailMsg(e)) => (Failed(PipelineFailed(e)), Err(e))
  }

  function FinishResult(s: StreamState): Result<string, CoreError> {
    match s
    case Streaming(_) => Err(InvalidArgument)
    case Finished(wholeHex) => Ok(wholeHex)
    case Failed(_) => Err(Integrity)
  }

  function Aborted(s: StreamState): StreamState {
    if s.Streaming? then Failed(Interrupted) else s
  }

  class ChunkStreamCore {
    const producer: Producer
    var state: StreamState

    constructor (producer: Producer)
      ensures this.producer == producer && state == Streaming(0)
    {
      this.producer, state := producer, Streaming(0);
    }

    method NextMsg(slow: bool) returns (r: Result<StreamStep, CoreError>)
      modifies this
      ensures (state, r) == Next(producer, old(state), slow)
    {
      match state {
        case Finished(_) => return Ok(Eof);
        case Failed(_) => return Err(Integrity);
        case Streaming(taken) =>
          match Receive(producer, taken, slow) {
            case Message(BatchMsg(batch)) =>
              state := Streaming(taken + 1);
              return Ok(BatchStep(batch));
            case Timeout =>
              return Ok(TimedOut);
            case Message(DoneMsg(wholeHex)) =>
              var joined := Teardown(ProducerPanicked);
              if joined.Some? {
                return Err(joined.value);
              }
              state := Finished(wholeHex);
              return Ok(Eof);
            case Message(FailMsg(e)) =>
              var _ := Teardown(PipelineFailed(e));
              return Err(e);
            case Disconnected =>
              var joined := Teardown(NoTerminalMessage);
              if joined.Some? {
                return Err(joined.value);
              }
              return Err(Integrity);
          }
      }
    }

    method Finish() returns (r: Result<string, CoreError>)
      ensures r == FinishResult(state)
    {
      match state {
        case Streaming(_) => return Err(InvalidArgument);
        case Finished(wholeHex) => return Ok(wholeHex);
        case Failed(_) => return Err(Integrity);
      }
    }

    /** Give up a live stream; the result tells whether there was one. */
    method Abort() returns (live: bool)
      modifies this
      ensures state == Aborted(old(state)) && live == old(state).Streaming?
    {
      if !state.Streaming? {
        return false;
      }
      state := Failed(Interrupted);
      return true;
    }

    /** Poison the state and join the producer; a panic is reported. */
    method Teardown(reason: Reason) returns (error: Option<CoreError>)
      modifies this
      ensures state == Failed(reason)
      ensures error == if old(state).Streaming? && producer.panics then Some(Integrity) else None
    {
      var live := state.Streaming?;
      state := Failed(reason);
      if live && producer.panics {
        return Some(Integrity);
      }
      return None;
    }
  }

  datatype Call = CallNext(slow: bool) | CallFinish | CallAbort

  datatype Reply = Stepped(step: Result<StreamStep, CoreError>) | Hex(hex: Result<string, CoreError>) | AbortDone

  function Answer(p: Producer, s: StreamState, call: Call): (StreamState, Reply) {
    match call
    case CallNext(slow) => (Next(p, s, slow).0, Stepped(Next(p, s, slow).1))
    case CallFinish => (s, Hex(FinishResult(s)))
    case CallAbort => (Aborted(s), AbortDone)
  }

  /** The state after a sequence of calls, and the replies. */
  function Trace(p: Producer, calls: seq<Call>): (r: (StreamState, seq<Reply>))
    ensures |r.1| == |calls|
  {
    if calls == [] then
      (Streaming(0), [])
    else
      var (s, replies) := Trace(p, calls[..|calls| - 1]);
      var (s', reply) := Answer(p, s, calls[|calls| - 1]);
      (s', replies + [reply])
  }

  /** The batches among the replies, in order. */
  function Batches(replies: seq<Reply>): seq<Batch> {
    if replies == [] then
      []
    else
      var rest, last := Batches(replies[..|replies| - 1]), replies[|replies| - 1];
      if last.Stepped? && last.step.Ok? && last.step.value.BatchStep? then rest + [last.step.value.batch] else rest
  }

  /** How many batches the producer sends before its first terminal message. */
  function Produced(script: seq<PipelineMsg>): (n: nat)
    ensures n <= |script|
    ensures forall k :: 0 <= k < n ==> script[k].BatchMsg?
    ensures n < |script| ==> !script[n].BatchMsg?
  {
    if script == [] || !script[0].BatchMsg? then
      0
    else
      assert forall k :: 0 <= k < |script[1..]| ==> script[1..][k] == script[k + 1];
      1 + Produced(script[1..])
  }

  /** The first `n` batches that the producer sends. */
  function Sent(script: seq<PipelineMsg>, n: nat): seq<Batch>
    requires n <= Produced(script)
  {
    seq(n, k requires 0 <= k < n => script[k].batch)
  }

  /** What has been handed out matches what was taken. */
  ghost predicate Inv(p: Producer, s: StreamState, out: seq<Batch>) {
    var all := Produced(p.script);
    match s
    case Streaming(taken) => taken <= all && out == Sent(p.script, taken)
    case Finished(hex) => !p.panics && all < |p.script| && p.script[all] == DoneMsg(hex) && out == Sent(p.script, all)
    case Failed(_) => exists n :: 0 <= n <= all && out == Sent(p.script, n)
  }

  lemma BatchesSnoc(replies: seq<Reply>, reply: Reply)
    ensures Batches(replies + [reply]) ==
            if reply.Stepped? && reply.step.Ok? && reply.step.value.BatchStep?
            then Batches(replies) + [reply.step.value.batch] else Batches(replies)
  {
    assert (replies + [reply])[..|replies|] == replies;
  }

  lemma {:induction false} TraceKeepsInv(p: Producer, calls: seq<Call>)
    ensures Inv(p, Trace(p, calls).0, Batches(Trace(p, calls).1))
  {
    if calls != [] {
      var init, call := calls[..|calls| - 1], calls[|calls| - 1];
      TraceKeepsInv(p, init);
      var (s, replies) := Trace(p, init);
      var (s', reply) := Answer(p, s, call);
      BatchesSnoc(replies, reply);
      AnswerKeepsInv(p, s, Batches(replies), call);
    }
  }

  lemma AnswerKeepsInv(p: Producer, s: StreamState, out: seq<Batch>, call: Call)
    requires Inv(p, s, out)
    ensures var (s', reply) := Answer(p, s, call);
            Inv(p, s', if reply.Stepped? && reply.step.Ok? && reply.step.value.BatchStep?
                       then out + [reply.step.value.batch] else out)
  {
    if s.Streaming? && call == CallNext(false) && s.taken < |p.script| && p.script[s.taken].BatchMsg? {
      assert Sent(p.script, s.taken) + [p.script[s.taken].batch] == Sent(p.script, s.taken + 1);
    }
  }

  /** For every sequence of calls: the batches handed out are a prefix of those produced; once the
      stream reports its end, or `finish` gives a digest, they are all of them, the producer said
      it was done and did not panic, and the digest is the one it gave. */
  lemma TraceIsFaithful(p: Producer, calls: seq<Call>, k: nat)
    requires k < |calls|
    ensures var (out, all) := (Batches(Trace(p, calls).1), Produced(p.script));
            && out <= Sent(p.script, all)
            && (Trace(p, calls).1[k] == Stepped(Ok(Eof)) || (Trace(p, calls).1[k].Hex? && Trace(p, calls).1[k].hex.Ok?) ==>
                  && out == Sent(p.script, all) && !p.panics
                  && all < |p.script| && p.script[all].DoneMsg?)
            && (Trace(p, calls).1[k].Hex? && Trace(p, calls).1[k].hex.Ok? ==>
                  Trace(p, calls).1[k].hex.value == p.script[all].wholeHex)
  {
    TraceKeepsInv(p, calls);
    SentPrefix(p, Trace(p, calls).0, Batches(Trace(p, calls).1));
    EndIsTerminal(p, calls, k);
  }

  lemma SentPrefix(p: Producer, s: StreamState, out: seq<Batch>)
    requires Inv(p, s, out)
    ensures out <= Sent(p.script, Produced(p.script))
  {
    var n :| 0 <= n <= Produced(p.script) && out == Sent(p.script, n);
    assert Sent(p.script, Produced(p.script))[..n] == Sent(p.script, n);
  }

  /** Once the stream has reported its end, or given its digest, it stays at that end for good. */
  lemma {:induction false} EndIsTerminal(p: Producer, calls: seq<Call>, k: nat)
    requires k < |calls|
    ensures Trace(p, calls).1[k] == Stepped(Ok(Eof)) ==> Trace(p, calls).0.Finished?
    ensures Trace(p, calls).1[k].Hex? && Trace(p, calls).1[k].hex.Ok? ==>
              Trace(p, calls).0 == Finished(Trace(p, calls).1[k].hex.value)
  {
    var init := calls[..|calls| - 1];
    if k < |init| {
      EndIsTerminal(p, init, k);
      assert Trace(p, calls).1[k] == Trace(p, init).1[k];
    }
  }

  /** Once a call has failed, no later call hands anything out or succeeds. */
  lemma {:induction false} FailureSticks(p: Producer, calls: seq<Call>, j: nat, k: nat)
    requires j <= k < |calls| && Trace(p, calls[..j]).0.Failed?
    ensures Trace(p, calls).0 == Trace(p, calls[..j]).0
    ensures match Trace(p, calls).1[k]
            case Stepped(step) => step == Err(Integrity)
            case Hex(hex) => hex == Err(Integrity)
            case AbortDone => true
    decreases |calls|
  {
    var init := calls[..|calls| - 1];
    assert init[..j] == calls[..j];
    if j < |init| {
      FailureSticks(p, init, j, if k < |init| then k else j);
    } else {
      assert init == calls[..j];
    }
    if k < |init| {
      assert Trace(p, calls).1[k] == Trace(p, init).1[k];
    }
  }

  function PromptCalls(n: nat): seq<Call> {
    seq(n, _ => CallNext(false))
  }

  /** Every batch arrives, one a call. */
  lemma {:induction false} BatchesArrive(p: Producer, n: nat)
    requires n <= |p.script| && forall k :: 0 <= k < n ==> p.script[k].BatchMsg?
    ensures Trace(p, PromptCalls(n)).0 == Streaming(n)
    ensures forall k :: 0 <= k < n ==> Trace(p, PromptCalls(n)).1[k] == Stepped(Ok(BatchStep(p.script[k].batch)))
  {
    if n > 0 {
      BatchesArrive(p, n - 1);
      assert PromptCalls(n)[..n - 1] == PromptCalls(n - 1) && PromptCalls(n)[n - 1] == CallNext(false);
    } else {
      assert PromptCalls(0) == [];
    }
  }

  lemma OneMoreCall(p: Producer, calls: seq<Call>, call: Call)
    ensures var (s, replies) := Trace(p, calls);
            Trace(p, calls + [call]) == (Answer(p, s, call).0, replies + [Answer(p, s, call).1])
  {
    assert (calls + [call])[..|calls|] == calls;
  }

  /** A producer that sends its batches, says that it is done and does not panic is delivered in full:
      every batch, then the end, and then its digest. */
  lemma GoodProducerDelivered(p: Producer, n: nat, hex: string)
    requires n + 1 == |p.script| && p.script[n] == DoneMsg(hex) && !p.panics
    requires forall k :: 0 <= k < n ==> p.script[k].BatchMsg?
    ensures var (s, replies) := Trace(p, PromptCalls(n) + [CallNext(false)] + [CallFinish]);
            && s == Finished(hex)
            && (forall k :: 0 <= k < n ==> replies[k] == Stepped(Ok(BatchStep(p.script[k].batch))))
            && replies[n] == Stepped(Ok(Eof)) && replies[n + 1] == Hex(Ok(hex))
  {
    BatchesArrive(p, n);
    OneMoreCall(p, PromptCalls(n), CallNext(false));
    OneMoreCall(p, PromptCalls(n) + [CallNext(false)], CallFinish);
  }

  /** And every other way of ending is an error: a failure sent, a panic, or no last message at all. A
      slow producer is waited for. */
  lemma BadEndings(p: Producer, n: nat)
    requires n <= |p.script| && forall k :: 0 <= k < n ==> p.script[k].BatchMsg?
    ensures var after := Trace(p, PromptCalls(n) + [CallNext(false)]);
            && (n == |p.script| ==> after.0 == Failed(NoTerminalMessage) && after.1[n] == Stepped(Err(Integrity)))
            && (n < |p.script| && p.script[n].FailMsg? ==>
                  after.0 == Failed(PipelineFailed(p.script[n].error)) && after.1[n] == Stepped(Err(p.script[n].error)))
            && (n < |p.script| && p.script[n].DoneMsg? && p.panics ==>
                  after.0 == Failed(ProducerPanicked) && after.1[n] == Stepped(Err(Integrity)))
    ensures var after := Trace(p, PromptCalls(n) + [CallNext(true)]);
            after.0 == Streaming(n) && after.1[n] == Stepped(Ok(TimedOut))
  {
    BatchesArrive(p, n);
    OneMoreCall(p, PromptCalls(n), CallNext(false));
    OneMoreCall(p, PromptCalls(n), CallNext(true));
  }
}
