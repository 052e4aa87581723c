/** The inbound message aggregator of `initializeGeminiSession`'s callbacks
    (src/index.js): a process-wide text buffer that collects the text parts of
    the model's turn and is sent to the renderer as one response when the
    server reports that generation is complete. */
module Aggregator {

  import opened Options

  /** One part of a model turn; `text` is absent for non-text parts. */
  datatype Part = Part(text: Option<string>)

  /** `message.serverContent`: the parts of `modelTurn` when present, and the
      two completion flags (an absent flag reads as false). */
  datatype ServerContent = ServerContent(modelTurnParts: Option<seq<Part>>, generationComplete: bool, turnComplete: bool)

  datatype LiveMessage = LiveMessage(serverContent: Option<ServerContent>)

  /** What the main process sends to the renderer window. */
  datatype RendererEvent = UpdateResponse(response: string) | UpdateStatus(status: string)

  const CONNECTED_STATUS := "Connected to Gemini - Starting recording..."
  const LISTENING_STATUS := "Listening..."
  const CLOSED_STATUS := "Session closed"

  /** The text a part contributes: its text when that is a non-empty string
      (`if (part.text)`), nothing otherwise. */
  function PartText(p: Part): string {
    if p.text.Some? && p.text.value != "" then p.text.value else ""
  }

  /** The texts of the parts, in part order. */
  function PartsText(parts: seq<Part>): string {
    if parts == [] then "" else PartsText(parts[..|parts| - 1]) + PartText(parts[|parts| - 1])
  }

  /** The text a whole message contributes. */
  function MessageText(m: LiveMessage): string {
    if m.serverContent.Some? && m.serverContent.value.modelTurnParts.Some?
    then PartsText(m.serverContent.value.modelTurnParts.value)
    else ""
  }

  predicate GenerationComplete(m: LiveMessage) {
    m.serverContent.Some? && m.serverContent.value.generationComplete
  }

  predicate TurnComplete(m: LiveMessage) {
    m.serverContent.Some? && m.serverContent.value.turnComplete
  }

  /** The effect of one message on the buffer, and what it sends. */
  function Step(buffer: string, m: LiveMessage): (r: (string, seq<RendererEvent>))
  {
    var text := buffer + MessageText(m);
    var flushed := if GenerationComplete(m) then [UpdateResponse(text)] else [];
    var status := if TurnComplete(m) then [UpdateStatus(LISTENING_STATUS)] else [];
    (if GenerationComplete(m) then "" else text, flushed + status)
  }

  /** The effect of a stream of messages. */
  function Run(buffer: string, ms: seq<LiveMessage>): (r: (string, seq<RendererEvent>))
    decreases |ms|
  {
    if ms == [] then (buffer, [])
    else
      var first := Step(buffer, ms[0]);
      var rest := Run(first.0, ms[1..]);
      (rest.0, first.1 + rest.1)
  }

  /** The responses among the events, laid end to end. */
  function ResponsesText(events: seq<RendererEvent>): string {
    if events == [] then ""
    else (if events[0].UpdateResponse? then events[0].response else "") + ResponsesText(events[1..])
  }

  function ResponseCount(events: seq<RendererEvent>): nat {
    if events == [] then 0 else (if events[0].UpdateResponse? then 1 else 0) + ResponseCount(events[1..])
  }

  function StreamText(ms: seq<LiveMessage>): string {
    if ms == [] then "" else MessageText(ms[0]) + StreamText(ms[1..])
  }

  function GenerationCount(ms: seq<LiveMessage>): nat {
    if ms == [] then 0 else (if GenerationComplete(ms[0]) then 1 else 0) + GenerationCount(ms[1..])
  }

  lemma {:induction false} ResponsesTextAppend(a: seq<RendererEvent>, b: seq<RendererEvent>)
    ensures ResponsesText(a + b) == ResponsesText(a) + ResponsesText(b)
    ensures ResponseCount(a + b) == ResponseCount(a) + ResponseCount(b)
  {
    if a != [] {
      assert (a + b)[1..] == a[1..] + b;
      ResponsesTextAppend(a[1..], b);
    } else {
      assert a + b == b;
    }
  }

  /** One message: the text of its parts is appended in part order; with
      `generationComplete` the whole buffer, this message's text included, is
      sent as exactly one response and the buffer is emptied; `turnComplete`
      only adds the listening status, after the response. */
  lemma StepSpec(buffer: string, m: LiveMessage)
    ensures var (after, events) := Step(buffer, m);
      && (GenerationComplete(m) ==> after == "" && ResponseCount(events) == 1 && ResponsesText(events) == buffer + MessageText(m))
      && (!GenerationComplete(m) ==> after == buffer + MessageText(m) && ResponseCount(events) == 0)
      && (UpdateStatus(LISTENING_STATUS) in events <==> TurnComplete(m))
      // nothing else is sent, and the response comes before the status
      && |events| == (if GenerationComplete(m) then 1 else 0) + (if TurnComplete(m) then 1 else 0)
      && (GenerationComplete(m) ==> events[0] == UpdateResponse(buffer + MessageText(m)))
      && (TurnComplete(m) ==> events[|events| - 1] == UpdateStatus(LISTENING_STATUS))
  {
    var events := Step(buffer, m).1;
    var text := buffer + MessageText(m);
    if GenerationComplete(m) {
      ResponsesTextAppend([UpdateResponse(text)], events[1..]);
      assert events == [UpdateResponse(text)] + events[1..];
    }
  }

  /** One message conserves text: what it sends as a response, followed by
      what it leaves buffered, is the old buffer followed by its text. */
  lemma StepConservesText(buffer: string, m: LiveMessage)
    ensures ResponsesText(Step(buffer, m).1) + Step(buffer, m).0 == buffer + MessageText(m)
  {
    var events := Step(buffer, m).1;
    StepSpec(buffer, m);
    if !GenerationComplete(m) {
      if TurnComplete(m) {
        assert events == [UpdateStatus(LISTENING_STATUS)];
      } else {
        assert events == [];
      }
    }
  }

  /** Regrouping the pieces of the conservation equation of one message and
      of the rest of a stream. */
  lemma Regroup(buffer: string, x: string, y: string, z: string, w: string, t: string, u: string)
    requires y + z == w + t
    requires x + w == buffer + u
    ensures (x + y) + z == buffer + (u + t)
  {
    calc {
      (x + y) + z;
      x + (y + z);
      x + (w + t);
      (x + w) + t;
      (buffer + u) + t;
    }
  }

  /** Over any stream, no text is lost, reordered or repeated: the responses
      sent, followed by what is still buffered, are the starting buffer
      followed by every message's text in arrival order. */
  lemma {:induction false} RunConservesText(buffer: string, ms: seq<LiveMessage>)
    ensures ResponsesText(Run(buffer, ms).1) + Run(buffer, ms).0 == buffer + StreamText(ms)
    decreases |ms|
  {
    if ms != [] {
      var first := Step(buffer, ms[0]);
      var rest := Run(first.0, ms[1..]);
      assert Run(buffer, ms) == (rest.0, first.1 + rest.1);
      assert ResponsesText(rest.1) + rest.0 == first.0 + StreamText(ms[1..]) by {
        RunConservesText(first.0, ms[1..]);
      }
      assert ResponsesText(first.1) + first.0 == buffer + MessageText(ms[0]) by {
        StepConservesText(buffer, ms[0]);
      }
      assert ResponsesText(first.1 + rest.1) == ResponsesText(first.1) + ResponsesText(rest.1) by {
        ResponsesTextAppend(first.1, rest.1);
      }
      Regroup(buffer, ResponsesText(first.1), ResponsesText(rest.1), rest.0, first.0, StreamText(ms[1..]), MessageText(ms[0]));
    }
  }

  /** Exactly one response is sent per message that completes a generation. */
  lemma {:induction false} RunFlushesOncePerGeneration(buffer: string, ms: seq<LiveMessage>)
    ensures ResponseCount(Run(buffer, ms).1) == GenerationCount(ms)
    decreases |ms|
  {
    if ms != [] {
      var first := Step(buffer, ms[0]);
      var rest := Run(first.0, ms[1..]);
      assert Run(buffer, ms) == (rest.0, first.1 + rest.1);
      RunFlushesOncePerGeneration(first.0, ms[1..]);
      StepSpec(buffer, ms[0]);
      ResponsesTextAppend(first.1, rest.1);
    }
  }

  /** The process-wide aggregator: `messageBuffer` and, as a ghost log, what
      has been sent to the renderer. */
  class ResponseAggregator {
    var messageBuffer: string
    ghost var sent: seq<RendererEvent>

    constructor ()
      ensures messageBuffer == "" && sent == []
    {
      messageBuffer := "";
      sent := [];
    }

    /** `onopen`: a status only. */
    method OnOpen()
      modifies this
      ensures messageBuffer == old(messageBuffer)
      ensures sent == old(sent) + [UpdateStatus(CONNECTED_STATUS)]
    {
      sent := sent + [UpdateStatus(CONNECTED_STATUS)];
    }

    /** `onmessage`: append the text parts one by one, flush on
        `generationComplete`, report listening on `turnComplete`. */
    method OnMessage(m: LiveMessage)
      modifies this
      ensures messageBuffer == Step(old(messageBuffer), m).0
      ensures sent == old(sent) + Step(old(messageBuffer), m).1
    {
      ghost var before := messageBuffer;
      if m.serverContent.Some? && m.serverContent.value.modelTurnParts.Some? {
        var parts := m.serverContent.value.modelTurnParts.value;
        for i := 0 to |parts|
          invariant messageBuffer == before + PartsText(parts[..i])
          invariant sent == old(sent)
        {
          assert parts[..i + 1][..i] == parts[..i];
          if parts[i].text.Some? && parts[i].text.value != "" {
            messageBuffer := messageBuffer + parts[i].text.value;
          }
        }
        assert parts[..|parts|] == parts;
      }
      assert messageBuffer == before + MessageText(m);
      ghost var sentBefore := sent;
      if m.serverContent.Some? && m.serverContent.value.generationComplete {
        sent := sent + [UpdateResponse(messageBuffer)];
        messageBuffer := "";
      }
      if m.serverContent.Some? && m.serverContent.value.turnComplete {
        sent := sent + [UpdateStatus(LISTENING_STATUS)];
      }
      assert sent == sentBefore + Step(before, m).1;
    }

    /** `onerror`: a status carrying the error message; the buffer is kept. */
    method OnError(message: string)
      modifies this
      ensures messageBuffer == old(messageBuffer)
      ensures sent == old(sent) + [UpdateStatus("Error: " + message)]
    {
      sent := sent + [UpdateStatus("Error: " + message)];
    }

    /** `onclose`: a status only; the buffer is kept. */
    method OnClose()
      modifies this
      ensures messageBuffer == old(messageBuffer)
      ensures sent == old(sent) + [UpdateStatus(CLOSED_STATUS)]
    {
      sent := sent + [UpdateStatus(CLOSED_STATUS)];
    }
  }
}
