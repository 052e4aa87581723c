/** The outbound realtime relay of the main process (src/index.js): the
    `send-audio-content`, `send-image-content` and `send-text-message`
    handlers, the capture pipeline's `sendAudioToGemini`, and the session
    lifecycle handlers `initialize-gemini`, `close-session`,
    `start-macos-audio`, `stop-macos-audio` and `quit-application`. The
    realtime session is an opaque handle; what `sendRealtimeInput` and
    `close` do with it is an outcome supplied by the caller. */
module Relay {

  import opened Options
  import opened JsString
  import Capture

  /** An open realtime session (opaque). */
  datatype Session = Session(id: nat)

  /** What a handler passes to `sendRealtimeInput`. */
  datatype RealtimeInput =
    | AudioInput(data: string, mimeType: string)
    | MediaInput(data: string, mimeType: string)
    | TextInput(text: string)

  /** How a call into the session ended: it returned, or it threw an error
      with the given message. */
  datatype Transport = Delivered | Threw(message: string)

  /** An IPC argument as the handler sees it: `null`/`undefined`, a string,
      or any other value. */
  datatype JsArg = Absent | Str(s: string) | NonString

  /** `{success: true}` or `{success: false, error}`. */
  datatype IpcReply = Succeeded | Failed(error: string)

  /** A handler's reply and the input it passed to the session, if any. */
  datatype Handled = Handled(reply: IpcReply, attempted: Option<RealtimeInput>)

  const NO_SESSION := "No active Gemini session"
  const INVALID_IMAGE := "Invalid image data"
  const IMAGE_TOO_SMALL := "Image buffer too small"
  const INVALID_TEXT := "Invalid text message"
  const NOT_MACOS := "macOS audio capture only available on macOS"
  const MIN_IMAGE_BYTES := 1000
  const IMAGE_MIME := "image/jpeg"
  const CAPTURE_MIME := "audio/pcm;rate=24000"

  /** Passing `input` to the session; a throw is caught and reported. */
  function Forward(input: RealtimeInput, transport: Transport): (h: Handled)
    ensures h.attempted == Some(input)
    ensures h.reply.Succeeded? <==> transport.Delivered?
    ensures transport.Threw? ==> h.reply == Failed(transport.message)
  {
    match transport
    case Delivered => Handled(Succeeded, Some(input))
    case Threw(message) => Handled(Failed(message), Some(input))
  }

  /** A string argument that is truthy: a non-empty string. */
  predicate IsNonEmptyString(a: JsArg) {
    a.Str? && a.s != ""
  }

  /** `send-audio-content`: without a session, the no-session error and
      nothing sent; otherwise the audio is passed on as given. */
  function SendAudioContent(session: Option<Session>, data: string, mimeType: string, transport: Transport): (h: Handled)
    ensures session.None? ==> h == Handled(Failed(NO_SESSION), None)
    ensures session.Some? ==> h.attempted == Some(AudioInput(data, mimeType))
    ensures h.reply.Succeeded? <==> session.Some? && transport.Delivered?
    ensures h.attempted.Some? && transport.Threw? ==> h.reply == Failed(transport.message)
  {
    if session.None? then Handled(Failed(NO_SESSION), None)
    else Forward(AudioInput(data, mimeType), transport)
  }

  /** `send-image-content`: the no-session check first, then the data must be
      a non-empty string whose base64 decoding (`decodedLength` bytes) is at
      least 1000 bytes; only then is it sent, as a JPEG. */
  function SendImageContent(session: Option<Session>, data: JsArg, decodedLength: nat, transport: Transport): (h: Handled)
    ensures session.None? ==> h == Handled(Failed(NO_SESSION), None)
    ensures session.Some? && !IsNonEmptyString(data) ==> h == Handled(Failed(INVALID_IMAGE), None)
    ensures session.Some? && IsNonEmptyString(data) && decodedLength < MIN_IMAGE_BYTES ==>
      h == Handled(Failed(IMAGE_TOO_SMALL), None)
    ensures h.attempted.Some? <==> session.Some? && IsNonEmptyString(data) && decodedLength >= MIN_IMAGE_BYTES
    ensures h.attempted.Some? ==> h.attempted.value == MediaInput(data.s, IMAGE_MIME)
    ensures h.reply.Succeeded? <==> h.attempted.Some? && transport.Delivered?
    ensures h.attempted.Some? && transport.Threw? ==> h.reply == Failed(transport.message)
  {
    if session.None? then Handled(Failed(NO_SESSION), None)
    else if !IsNonEmptyString(data) then Handled(Failed(INVALID_IMAGE), None)
    else if decodedLength < MIN_IMAGE_BYTES then Handled(Failed(IMAGE_TOO_SMALL), None)
    else Forward(MediaInput(data.s, IMAGE_MIME), transport)
  }

  /** `send-text-message`: the no-session check first, then the text must be
      a string that is not blank; it is sent trimmed. */
  function SendTextMessage(session: Option<Session>, text: JsArg, transport: Transport): (h: Handled)
    ensures session.None? ==> h == Handled(Failed(NO_SESSION), None)
    ensures h.attempted.Some? <==> session.Some? && text.Str? && !IsBlank(text.s)
    ensures session.Some? && h.attempted.None? ==> h.reply == Failed(INVALID_TEXT)
    ensures h.attempted.Some? ==> h.attempted.value.TextInput?
    ensures h.attempted.Some? ==> h.attempted.value.text == Trim(text.s)
    ensures h.attempted.Some? ==> h.attempted.value.text != [] && HasNoEdgeWhitespace(h.attempted.value.text)
    ensures h.reply.Succeeded? <==> h.attempted.Some? && transport.Delivered?
    ensures h.attempted.Some? && transport.Threw? ==> h.reply == Failed(transport.message)
  {
    if session.None? then Handled(Failed(NO_SESSION), None)
    else if !(text.Str? && text.s != "" && Trim(text.s) != "") then Handled(Failed(INVALID_TEXT), None)
    else Forward(TextInput(Trim(text.s)), transport)
  }

  /** `sendAudioToGemini`, called for every captured chunk with its base64
      text: dropped silently without a session, otherwise passed on with the
      capture's MIME type; a throw is logged and swallowed. */
  function ForwardCapturedAudio(session: Option<Session>, encoded: string): (attempted: Option<RealtimeInput>)
    ensures attempted.Some? <==> session.Some?
    ensures attempted.Some? ==> attempted.value == AudioInput(encoded, CAPTURE_MIME)
  {
    if session.None? then None else Some(AudioInput(encoded, CAPTURE_MIME))
  }

  /** The main process's module-level session state: the realtime session
      reference (`geminiSession`), the system-audio capture state, and whether
      the application was asked to quit. */
  class Host {
    var session: Option<Session>
    const capture: Capture.SystemAudio
    var quitRequested: bool

    ghost predicate Valid()
      reads this, capture
    {
      capture.Valid()
    }

    /** Module load: no session. */
    constructor (capture: Capture.SystemAudio)
      requires capture.Valid()
      ensures Valid()
      ensures this.capture == capture && session == None && !quitRequested
    {
      this.capture := capture;
      session := None;
      quitRequested := false;
    }

    /** `initialize-gemini`: `connected` is the session `connect` resolved
        with, or `None` when it threw. A new session replaces the old
        reference; a failed connect leaves the old one in place. */
    method InitializeGemini(connected: Option<Session>) returns (ok: bool)
      modifies this
      ensures ok == connected.Some?
      ensures session == if ok then connected else old(session)
      ensures quitRequested == old(quitRequested)
    {
      if connected.None? {
        return false;
      }
      session := connected;
      return true;
    }

    /** `close-session`: stops the capture, then closes and forgets the
        session if there is one. When `close` throws, the error is reported
        and the reference is kept. */
    method CloseSession(closing: Transport) returns (reply: IpcReply)
      requires Valid()
      modifies this, capture
      ensures Valid()
      ensures !capture.procHeld
      ensures capture.audioBuffer == old(capture.audioBuffer) && capture.dispatched == old(capture.dispatched)
      ensures capture.chunks == old(capture.chunks)
      ensures old(session).None? ==> reply == Succeeded && session == None
      ensures old(session).Some? && closing.Delivered? ==> reply == Succeeded && session == None
      ensures old(session).Some? && closing.Threw? ==> reply == Failed(closing.message) && session == old(session)
      ensures quitRequested == old(quitRequested)
    {
      capture.Stop();
      if session.Some? {
        if closing.Threw? {
          return Failed(closing.message);
        }
        session := None;
      }
      return Succeeded;
    }

    /** `start-macos-audio`: refused off macOS with an error; otherwise the
        outcome of starting the capture, without an error text. */
    method StartMacOSAudio(isDarwin: bool, gotPid: bool) returns (success: bool, error: Option<string>)
      requires Valid()
      modifies capture
      ensures Valid()
      ensures !isDarwin ==> !success && error == Some(NOT_MACOS) && capture.procHeld == old(capture.procHeld)
      ensures isDarwin ==> success == gotPid && error == None && capture.procHeld
      ensures capture.dispatched == old(capture.dispatched) && capture.chunks == old(capture.chunks)
      // a started capture begins with a fresh buffer; otherwise the buffer is kept
      ensures capture.audioBuffer == if success then [] else old(capture.audioBuffer)
    {
      if !isDarwin {
        return false, Some(NOT_MACOS);
      }
      success := capture.Start(isDarwin, gotPid);
      error := None;
    }

    /** `stop-macos-audio`: stops the capture and reports success. */
    method StopMacOSAudio() returns (reply: IpcReply)
      requires Valid()
      modifies capture
      ensures Valid()
      ensures reply == Succeeded && !capture.procHeld
      ensures capture.audioBuffer == old(capture.audioBuffer) && capture.dispatched == old(capture.dispatched)
      ensures capture.chunks == old(capture.chunks)
    {
      capture.Stop();
      return Succeeded;
    }

    /** `quit-application`: stops the capture and asks the application to quit. */
    method QuitApplication() returns (reply: IpcReply)
      requires Valid()
      modifies this, capture
      ensures Valid()
      ensures reply == Succeeded && quitRequested && !capture.procHeld
      ensures session == old(session)
      ensures capture.audioBuffer == old(capture.audioBuffer) && capture.chunks == old(capture.chunks)
      ensures capture.dispatched == old(capture.dispatched)
    {
      capture.Stop();
      quitRequested := true;
      return Succeeded;
    }
  }
}
