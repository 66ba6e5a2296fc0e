/** The Anthropic stream adapter: wire events in, normalised events out, with at most one terminator. */
module Stream {
  import opened Wrappers

  datatype StopReason = EndTurn | MaxTokens | StopSequence | ToolUse | Refusal | OtherReason(raw: string)

  datatype BlockDelta = TextDelta(text: string) | NonTextDelta

  datatype MessageDelta = MessageDelta(stopReason: Option<string>, outputTokens: Option<nat>)

  datatype ErrorPayload = ErrorPayload(kind: string, message: string)

  /** What the event source yields, payloads already parsed; `None` is a payload that does not parse. */
  datatype WireEvent =
    | Opened
    | MessageStartEvent(inputTokens: Option<nat>)
    | BlockDeltaEvent(delta: Option<BlockDelta>)
    | MessageDeltaEvent(body: Option<MessageDelta>)
    | MessageStopEvent
    | ErrorEvent(error: Option<ErrorPayload>)
    | OtherEvent(name: string)
    | StreamEnded
    | TransportFailure(cause: string)

  datatype Failure = Malformed(event: string) | Transport(cause: string)

  /** `Failed` is an `Err` of the stream; the rest are its events. */
  datatype StreamItem =
    | Start(tokensIn: nat)
    | Text(text: string)
    | Usage(tokensIn: nat, tokensOut: nat)
    | Stop(reason: StopReason)
    | ProviderError(error: Option<ErrorPayload>)
    | Failed(failure: Failure)

  datatype ParseOutcome = Emit(item: StreamItem) | Filter | Finish | ParseError(failure: Failure)

  datatype Memory = Memory(tokens: nat, reason: StopReason)

  const FRESH: Memory := Memory(0, EndTurn)

  function MapStopReason(raw: string): StopReason {
    if raw == "end_turn" then EndTurn
    else if raw == "max_tokens" then MaxTokens
    else if raw == "stop_sequence" then StopSequence
    else if raw == "tool_use" then ToolUse
    else if raw == "refusal" then Refusal
    else OtherReason(raw)
  }

  function RawReason(reason: StopReason): string {
    match reason
    case EndTurn => "end_turn"
    case MaxTokens => "max_tokens"
    case StopSequence => "stop_sequence"
    case ToolUse => "tool_use"
    case Refusal => "refusal"
    case OtherReason(raw) => raw
  }

  /** No reason is lost or confused with another, known or not. */
  lemma StopReasonsAreKeptApart(a: string, b: string)
    ensures RawReason(MapStopReason(a)) == a
    ensures MapStopReason(a) == MapStopReason(b) ==> a == b
  {
    assert RawReason(MapStopReason(b)) == b;
  }

  /** The reasons the protocol documents are told apart by name; only others are passed on as they are. */
  lemma DocumentedReasonsAreNamed(raw: string)
    ensures MapStopReason(raw) == OtherReason(raw)
            <==> raw !in {"end_turn", "max_tokens", "stop_sequence", "tool_use", "refusal"}
    ensures MapStopReason("end_turn") == EndTurn && MapStopReason("max_tokens") == MaxTokens
    ensures MapStopReason("stop_sequence") == StopSequence && MapStopReason("tool_use") == ToolUse
    ensures MapStopReason("refusal") == Refusal
  {
  }

  // -- the machine ---------------------------------------------------------------------------

  function ParseMessage(m: Memory, e: WireEvent): (Memory, ParseOutcome) {
    match e
    case MessageStartEvent(None) => (m, ParseError(Malformed("message_start")))
    case MessageStartEvent(Some(n)) => (m.(tokens := n), Emit(Start(n)))
    case BlockDeltaEvent(None) => (m, ParseError(Malformed("content_block_delta")))
    case BlockDeltaEvent(Some(TextDelta(text))) => (m, Emit(Text(text)))
    case BlockDeltaEvent(Some(NonTextDelta)) => (m, Filter)
    case MessageDeltaEvent(None) => (m, ParseError(Malformed("message_delta")))
    case MessageDeltaEvent(Some(body)) =>
      var m' := if body.stopReason.Some? then m.(reason := MapStopReason(body.stopReason.value)) else m;
      (m', if body.outputTokens.Some? then Emit(Usage(m'.tokens, body.outputTokens.value)) else Filter)
    case MessageStopEvent => (m, Finish)
    case ErrorEvent(error) => (m, Emit(ProviderError(error)))
    case _ => (m, Filter)
  }

  /** Everything the stream yields from this memory on this script of events. */
  function Emitted(m: Memory, script: seq<WireEvent>): seq<StreamItem>
    decreases |script|
  {
    if script == [] then []
    else if script[0].StreamEnded? then [Stop(m.reason)]
    else if script[0].TransportFailure? then [Failed(Transport(script[0].cause))]
    else
      var (m', outcome) := ParseMessage(m, script[0]);
      match outcome
      case Emit(item) => [item] + Emitted(m', script[1..])
      case Filter => Emitted(m', script[1..])
      case Finish => [Stop(m'.reason)]
      case ParseError(failure) => [Failed(failure)]
  }

  class StreamState {
    var script: seq<WireEvent>
    var runningInputTokens: nat
    var pendingStopReason: StopReason
    var closed: bool

    constructor (script: seq<WireEvent>)
      ensures Left() == Emitted(FRESH, script)
    {
      this.script, runningInputTokens, pendingStopReason, closed := script, 0, EndTurn, false;
    }

    ghost function M(): Memory
      reads this
    {
      Memory(runningInputTokens, pendingStopReason)
    }

    /** What is still to come. */
    ghost function Left(): seq<StreamItem>
      reads this
    {
      if closed then [] else Emitted(M(), script)
    }

    method Parse(e: WireEvent) returns (outcome: ParseOutcome)
      modifies this`runningInputTokens, this`pendingStopReason
      ensures (M(), outcome) == ParseMessage(old(M()), e)
    {
      match e
      case MessageStartEvent(Some(n)) =>
        runningInputTokens := n;
        outcome := Emit(Start(n));
      case MessageStartEvent(None) => outcome := ParseError(Malformed("message_start"));
      case BlockDeltaEvent(Some(TextDelta(text))) => outcome := Emit(Text(text));
      case BlockDeltaEvent(Some(NonTextDelta)) => outcome := Filter;
      case BlockDeltaEvent(None) => outcome := ParseError(Malformed("content_block_delta"));
      case MessageDeltaEvent(None) => outcome := ParseError(Malformed("message_delta"));
      case MessageDeltaEvent(Some(body)) =>
        if body.stopReason.Some? {
          pendingStopReason := MapStopReason(body.stopReason.value);
        }
        outcome := if body.outputTokens.Some? then Emit(Usage(runningInputTokens, body.outputTokens.value)) else Filter;
      case MessageStopEvent => outcome := Finish;
      case ErrorEvent(error) => outcome := Emit(ProviderError(error));
      case _ => outcome := Filter;
    }

    /** Yields the next item of what is left, or ends the stream when nothing is. */
    method Next() returns (item: Option<StreamItem>)
      modifies this
      ensures item.None? ==> old(Left()) == [] && Left() == []
      ensures item.Some? ==> old(Left()) == [item.value] + Left()
      ensures item.Some? && !closed ==> |script| < |old(script)|
      ensures old(closed) ==> closed && item.None?
    {
      if closed {
        return None;
      }
      while script != []
        invariant !closed && Left() == old(Left()) && |script| <= |old(script)|
        decreases |script|
      {
        var e := script[0];
        script := script[1..];
        if e.StreamEnded? {
          closed := true;
          return Some(Stop(pendingStopReason));
        } else if e.TransportFailure? {
          closed := true;
          return Some(Failed(Transport(e.cause)));
        } else if !e.Opened? {
          var outcome := Parse(e);
          match outcome {
            case Emit(it) => return Some(it);
            case Filter =>
            case Finish =>
              closed := true;
              return Some(Stop(pendingStopReason));
            case ParseError(failure) =>
              closed := true;
              return Some(Failed(failure));
          }
        }
      }
      return None;
    }
  }

  /** A consumer that polls to the end sees exactly the specified sequence. */
  method Drain(script: seq<WireEvent>) returns (items: seq<StreamItem>)
    ensures items == Emitted(FRESH, script)
  {
    var state := new StreamState(script);
    items := [];
    ghost var all := state.Left();
    var polling := true;
    while polling
      invariant all == items + state.Left() && (!polling ==> state.Left() == [])
      decreases polling, !state.closed, |state.script|
    {
      ghost var left := state.Left();
      var item := state.Next();
      if item.Some? {
        assert left == [item.value] + state.Left();
        Regroup(items, [item.value], state.Left());
        items := items + [item.value];
      }
      polling := item.Some?;
    }
  }

  // -- a reference that looks back instead of carrying memory -----------------------------------

  /** Does this event end the stream? */
  predicate Closes(e: WireEvent) {
    match e
    case MessageStopEvent => true
    case StreamEnded => true
    case TransportFailure(_) => true
    case MessageStartEvent(None) => true
    case BlockDeltaEvent(None) => true
    case MessageDeltaEvent(None) => true
    case _ => false
  }

  /** The latest `message_start` count in a history, or 0. */
  function LatestTokens(history: seq<WireEvent>): nat {
    if history == [] then 0
    else
      match history[|history| - 1]
      case MessageStartEvent(Some(n)) => n
      case _ => LatestTokens(history[..|history| - 1])
  }

  /** The last stop reason seen in a history, or `EndTurn`. */
  function LastReason(history: seq<WireEvent>): StopReason {
    if history == [] then EndTurn
    else
      match history[|history| - 1]
      case MessageDeltaEvent(Some(MessageDelta(Some(raw), _))) => MapStopReason(raw)
      case _ => LastReason(history[..|history| - 1])
  }

  /** What one event contributes, given everything that came before it. */
  function Contribution(history: seq<WireEvent>, e: WireEvent): seq<StreamItem> {
    match e
    case MessageStartEvent(Some(n)) => [Start(n)]
    case MessageStartEvent(None) => [Failed(Malformed("message_start"))]
    case BlockDeltaEvent(Some(TextDelta(text))) => [Text(text)]
    case BlockDeltaEvent(None) => [Failed(Malformed("content_block_delta"))]
    case MessageDeltaEvent(Some(MessageDelta(_, Some(n)))) => [Usage(LatestTokens(history), n)]
    case MessageDeltaEvent(None) => [Failed(Malformed("message_delta"))]
    case ErrorEvent(error) => [ProviderError(error)]
    case MessageStopEvent => [Stop(LastReason(history))]
    case StreamEnded => [Stop(LastReason(history))]
    case TransportFailure(cause) => [Failed(Transport(cause))]
    case _ => []
  }

  /** How many events the adapter looks at: up to and including the first that closes. */
  function Reach(script: seq<WireEvent>): (n: nat)
    ensures n <= |script|
    ensures forall i | 0 <= i < n - 1 :: !Closes(script[i])
    ensures n < |script| ==> n > 0 && Closes(script[n - 1])
  {
    if script == [] then 0 else if Closes(script[0]) then 1 else 1 + Reach(script[1..])
  }

  /** The contributions of the first `n` events, in order. */
  function Contributions(script: seq<WireEvent>, n: nat): seq<StreamItem>
    requires n <= |script|
  {
    if n == 0 then [] else Contributions(script, n - 1) + Contribution(script[..n - 1], script[n - 1])
  }

  function Recall(history: seq<WireEvent>): Memory {
    Memory(LatestTokens(history), LastReason(history))
  }

  /** What is still to be yielded once the first `i` events are behind. */
  function Rest(script: seq<WireEvent>, i: nat): seq<StreamItem>
    requires i <= |script|
  {
    Emitted(Recall(script[..i]), script[i..])
  }

  /** One event of the machine, when its memory recalls the history: what it yields, and that it still recalls. */
  lemma OneEvent(script: seq<WireEvent>, i: nat)
    requires i < |script|
    ensures Rest(script, i) == Contribution(script[..i], script[i]) + if Closes(script[i]) then []
            else Rest(script, i + 1)
  {
    var e, history, longer := script[i], script[..i], script[..i + 1];
    assert script[i..][0] == e && script[i..][1..] == script[i + 1..];
    assert longer[|longer| - 1] == e && longer[..|longer| - 1] == history;
    if !Closes(e) && !e.StreamEnded? && !e.TransportFailure? {
      RecallOneMore(history, longer, e);
    }
  }

  lemma RecallOneMore(history: seq<WireEvent>, longer: seq<WireEvent>, e: WireEvent)
    requires longer == history + [e] && !Closes(e)
    ensures ParseMessage(Recall(history), e).0 == Recall(longer)
    ensures Contribution(history, e) == match ParseMessage(Recall(history), e).1 case Emit(item) => [item] case _ => []
    ensures !ParseMessage(Recall(history), e).1.Finish? && !ParseMessage(Recall(history), e).1.ParseError?
  {
    assert longer[..|longer| - 1] == history;
  }

  lemma Regroup(a: seq<StreamItem>, b: seq<StreamItem>, c: seq<StreamItem>)
    ensures a + (b + c) == (a + b) + c
  {
  }

  lemma {:induction false} SplitAt(script: seq<WireEvent>, i: nat)
    requires i <= |script| && forall j | 0 <= j < i :: !Closes(script[j])
    ensures Emitted(FRESH, script) == Contributions(script, i) + Rest(script, i)
  {
    if i == 0 {
      assert script[0..] == script && Recall(script[..0]) == FRESH;
    } else {
      SplitAt(script, i - 1);
      SplitOneFurther(script, i, Emitted(FRESH, script));
    }
  }

  lemma OneMoreContribution(script: seq<WireEvent>, i: nat)
    requires i < |script|
    ensures Contributions(script, i + 1) == Contributions(script, i) + Contribution(script[..i], script[i])
  {
  }

  lemma SplitOneFurther(script: seq<WireEvent>, i: nat, all: seq<StreamItem>)
    requires 0 < i <= |script| && !Closes(script[i - 1])
    requires all == Contributions(script, i - 1) + Rest(script, i - 1)
    ensures all == Contributions(script, i) + Rest(script, i)
  {
    var sofar, now, rest := Contributions(script, i - 1), Contribution(script[..i - 1], script[i - 1]), Rest(script, i);
    OneEvent(script, i - 1);
    OneMoreContribution(script, i - 1);
    Regroup(sofar, now, rest);
  }

  /**
   The machine with memory yields exactly what looking back over the whole
   history at each event says it should: every usage carries the latest input
   count, every stop the last reason, and nothing follows the first closing event.
   */
  lemma MachineMatchesHistory(script: seq<WireEvent>)
    ensures Emitted(FRESH, script) == Contributions(script, Reach(script))
  {
    var n := Reach(script);
    if n > 0 && Closes(script[n - 1]) {
      SplitAt(script, n - 1);
      OneEvent(script, n - 1);
    } else {
      SplitAt(script, n);
    }
  }

  // -- what that gives ------------------------------------------------------------------------------

  predicate IsTerminator(item: StreamItem) {
    item.Stop? || item.Failed?
  }

  /** A terminator only ever comes last, and one comes exactly when some event closes the stream. */
  lemma {:induction false} OneTerminatorAtTheEnd(m: Memory, script: seq<WireEvent>)
    ensures var out := Emitted(m, script);
            && (forall i | 0 <= i < |out| - 1 :: !IsTerminator(out[i]))
            && ((out != [] && IsTerminator(out[|out| - 1])) <==> exists e | e in script :: Closes(e))
    decreases |script|
  {
    if script != [] {
      assert script == [script[0]] + script[1..];
      if !Closes(script[0]) {
        OneTerminatorAtTheEnd(ParseMessage(m, script[0]).0, script[1..]);
      } else {
        assert script[0] in script;
      }
    }
  }

  /** Some event stops the message, and nothing closed the stream before it. */
  ghost predicate StopsCleanly(script: seq<WireEvent>) {
    exists n | 0 <= n < |script| ::
      (script[n].MessageStopEvent? || script[n].StreamEnded?) && forall i | 0 <= i < n :: !Closes(script[i])
  }

  /** The last item is a stop and no other is. */
  ghost predicate OneStopAtTheEnd(out: seq<StreamItem>) {
    out != [] && out[|out| - 1].Stop? && forall i | 0 <= i < |out| - 1 :: !out[i].Stop?
  }

  lemma StopsCleanlyFurtherOn(script: seq<WireEvent>)
    requires script != [] && !Closes(script[0])
    ensures StopsCleanly(script) <==> StopsCleanly(script[1..])
  {
    var rest := script[1..];
    if StopsCleanly(script) {
      var n :| 0 <= n < |script| && (script[n].MessageStopEvent? || script[n].StreamEnded?)
          && forall i | 0 <= i < n :: !Closes(script[i]);
      assert rest[n - 1] == script[n] && forall i | 0 <= i < n - 1 :: rest[i] == script[i + 1];
    }
    if StopsCleanly(rest) {
      var n :| 0 <= n < |rest| && (rest[n].MessageStopEvent? || rest[n].StreamEnded?) && forall i | 0 <= i < n ::
            !Closes(rest[i]);
      assert script[n + 1] == rest[n];
      forall i | 0 <= i < n + 1
        ensures !Closes(script[i])
      {
        assert i > 0 ==> script[i] == rest[i - 1];
      }
    }
  }

  /**
   When the documentation's "exactly one message stop" is true: exactly when
   some event stops the message before anything else closes the stream. With
   none, the output holds no stop at all.
   */
  lemma {:induction false} ExactlyOneStopIffStoppedCleanly(m: Memory, script: seq<WireEvent>)
    ensures OneStopAtTheEnd(Emitted(m, script)) <==> StopsCleanly(script)
    ensures !StopsCleanly(script) ==> forall x | x in Emitted(m, script) :: !x.Stop?
    decreases |script|
  {
    if script != [] {
      if Closes(script[0]) {
        ClosedAtOnce(m, script);
      } else {
        var m', rest := ParseMessage(m, script[0]).0, script[1..];
        ExactlyOneStopIffStoppedCleanly(m', rest);
        StopsCleanlyFurtherOn(script);
        var out, tail := Emitted(m, script), Emitted(m', rest);
        if out != tail {
          assert |out| == |tail| + 1 && !out[0].Stop? && out[1..] == tail;
          assert forall i | 0 < i < |out| :: out[i] == tail[i - 1];
        }
      }
    }
  }

  lemma ClosedAtOnce(m: Memory, script: seq<WireEvent>)
    requires script != [] && Closes(script[0])
    ensures |Emitted(m, script)| == 1
    ensures Emitted(m, script)[0].Stop? <==> script[0].MessageStopEvent? || script[0].StreamEnded?
    ensures StopsCleanly(script) <==> script[0].MessageStopEvent? || script[0].StreamEnded?
  {
    if n :| 0 <= n < |script| && (script[n].MessageStopEvent? || script[n].StreamEnded?) && forall i | 0 <= i < n ::
          !Closes(script[i]) {
      assert n == 0;
    }
  }

  function TextOf(items: seq<StreamItem>): string {
    if items == [] then "" else (if items[0].Text? then items[0].text else "") + TextOf(items[1..])
  }

  /** The text deltas of a script, put together. */
  function TextSent(script: seq<WireEvent>): string {
    if script == [] then ""
    else (match script[0] case BlockDeltaEvent(Some(TextDelta(text))) => text case _ => "") + TextSent(script[1..])
  }

  lemma {:induction false} TextArrivesWholeAndInOrder(m: Memory, script: seq<WireEvent>)
    ensures TextOf(Emitted(m, script)) == TextSent(script[..Reach(script)])
    decreases |script|
  {
    if script != [] {
      var rest, out := script[1..], Emitted(m, script);
      var read := script[..Reach(script)];
      if Closes(script[0]) {
        assert read == [script[0]];
        assert TextOf(out) == "" && TextSent([script[0]]) == "";
      } else {
        var m' := ParseMessage(m, script[0]).0;
        TextArrivesWholeAndInOrder(m', rest);
        assert read[1..] == rest[..Reach(rest)];
        assert out != Emitted(m', rest) ==> out[1..] == Emitted(m', rest);
      }
    }
  }

  /** The protocol noise the adapter is meant to filter. */
  predicate IsNoise(e: WireEvent) {
    e.Opened? || e.OtherEvent? || e == BlockDeltaEvent(Some(NonTextDelta))
        || e == MessageDeltaEvent(Some(MessageDelta(None, None)))
  }

  lemma {:induction false} NoiseIsInvisible(m: Memory, before: seq<WireEvent>, noise: WireEvent, after: seq<WireEvent>)
    requires IsNoise(noise)
    ensures Emitted(m, before + [noise] + after) == Emitted(m, before + after)
    decreases |before|
  {
    var noisy, clean := before + [noise] + after, before + after;
    if before == [] {
      assert noisy[1..] == after && clean == after;
    } else {
      assert noisy[1..] == before[1..] + [noise] + after && clean[1..] == before[1..] + after;
      NoiseIsInvisible(ParseMessage(m, before[0]).0, before[1..], noise, after);
    }
  }

  lemma ReasonsShow(e: WireEvent, raw: string)
    requires e == MessageDeltaEvent(Some(MessageDelta(Some(raw), None)))
    ensures exists before, after :: Emitted(FRESH, before + [e] + after) != Emitted(FRESH, before + after)
  {
    var stop := [MessageStopEvent];
    if MapStopReason(raw) != EndTurn {
      assert ([e] + stop)[1..] == stop && [] + [e] + stop == [e] + stop && [] + stop == stop;
      assert Emitted(FRESH, [e] + stop) == Emitted(Memory(0, MapStopReason(raw)), stop) == [Stop(MapStopReason(raw))];
      assert Emitted(FRESH, [] + [e] + stop) != Emitted(FRESH, [] + stop);
    } else {
      var refused := MessageDeltaEvent(Some(MessageDelta(Some("refusal"), None)));
      var m := Memory(0, Refusal);
      assert ([refused] + [e] + stop)[1..] == [e] + stop && ([e] + stop)[1..] == stop
          && ([refused] + stop)[1..] == stop;
      assert Emitted(FRESH, [refused] + [e] + stop) == Emitted(m, [e] + stop) == Emitted(FRESH, stop)
          == [Stop(EndTurn)];
      assert Emitted(FRESH, [refused] + stop) == Emitted(m, stop) == [Stop(Refusal)];
    }
  }

  /** Inserting or removing an event never shows, wherever it stands, exactly when it is noise. */
  lemma InvisibleIffNoise(e: WireEvent)
    ensures IsNoise(e) <==> forall before, after ::
              Emitted(FRESH, before + [e] + after) == Emitted(FRESH, before + after)
  {
    if IsNoise(e) {
      forall before, after ensures Emitted(FRESH, before + [e] + after) == Emitted(FRESH, before + after) {
        NoiseIsInvisible(FRESH, before, e, after);
      }
    } else {
      if e.MessageDeltaEvent? && e.body.Some? && e.body.value.outputTokens.None? {
        ReasonsShow(e, e.body.value.stopReason.value);
      } else {
        var nothing: seq<WireEvent> := [];
        assert nothing + [e] + nothing == [e] && nothing + nothing == nothing;
        assert Emitted(FRESH, [e]) != [] && Emitted(FRESH, nothing) == [];
        assert Emitted(FRESH, nothing + [e] + nothing) != Emitted(FRESH, nothing + nothing);
      }
    }
  }

  function WithoutNoise(script: seq<WireEvent>): seq<WireEvent> {
    if script == [] then []
    else if IsNoise(script[0]) then WithoutNoise(script[1..])
    else [script[0]] + WithoutNoise(script[1..])
  }

  lemma SameHead(m: Memory, e: WireEvent, a: seq<WireEvent>, b: seq<WireEvent>)
    requires Emitted(ParseMessage(m, e).0, a) == Emitted(ParseMessage(m, e).0, b)
    ensures Emitted(m, [e] + a) == Emitted(m, [e] + b)
  {
    assert ([e] + a)[1..] == a && ([e] + b)[1..] == b;
  }

  /** So two scripts that differ only in noise, however much of it, yield the same stream. */
  lemma {:induction false} SameUpToNoiseSameStream(m: Memory, script: seq<WireEvent>)
    ensures Emitted(m, WithoutNoise(script)) == Emitted(m, script)
    decreases |script|
  {
    if script != [] {
      var rest := script[1..];
      var m' := ParseMessage(m, script[0]).0;
      assert script == [script[0]] + rest;
      if IsNoise(script[0]) {
        SameUpToNoiseSameStream(m, rest);
        NoiseIsInvisible(m, [], script[0], rest);
        assert [] + [script[0]] + rest == script && [] + rest == rest;
      } else {
        SameUpToNoiseSameStream(m', rest);
        SameHead(m, script[0], WithoutNoise(rest), rest);
      }
    }
  }

  /** Whatever the server sends after a closing event is never seen. */
  lemma {:induction false} NothingAfterTheEnd(m: Memory, before: seq<WireEvent>, last: WireEvent, after: seq<WireEvent>)
    requires Closes(last)
    ensures Emitted(m, before + [last] + after) == Emitted(m, before + [last])
    decreases |before|
  {
    var long, short := before + [last] + after, before + [last];
    if before != [] {
      assert long[1..] == before[1..] + [last] + after && short[1..] == before[1..] + [last];
      NothingAfterTheEnd(ParseMessage(m, before[0]).0, before[1..], last, after);
    }
  }
}
