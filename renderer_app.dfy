/** The renderer's root component (src/components/app/CheatingDaddyApp.js):
    the list of model responses with the index being viewed, the current view
    and its transitions on start and close, and the local microphone
    transcription (recorder, recorded chunks, and a transcript that the
    component appends status lines to). Calls into the main process, the
    screen-capture helper and alerts are recorded, in order, in a ghost log. */
module RendererApp {

  import opened Options
  import opened JsString
  import Transcription

  datatype View = MainView | Customize | Help | TranscriptionView | Assistant

  datatype RecorderState = Inactive | Recording

  /** Invocations of the main process. */
  datatype Request = CloseSession | QuitApplication | TranscribeAudio(uri: Option<string>) | ExportTranscriptionTxt(text: string)

  /** Effects outside the component. */
  datatype Effect =
    | InitializeGemini(profile: string, language: string)
    | StartCapture(interval: string, quality: string)
    | StopCapture
    | Invoke(request: Request)
    | RecorderStarted
    | RecorderStopped
    | MicrophoneReleased
    | ReadAsDataUrl(size: nat)
    | Alert(message: string)

  /** How the microphone request (`getUserMedia` and the recorder
      construction) ends: granted, or an error with its name and message. */
  datatype MicOutcome = Granted | MicFailed(name: string, message: string)

  /** How an `ipcRenderer.invoke` of `transcribe-audio` ends. */
  datatype TranscribeInvoke = Answered(reply: Transcription.Reply) | TranscribeInvokeThrew(message: string)

  /** How an `ipcRenderer.invoke` of `export-transcription-txt` ends: the
      reply's fields (an absent field is `None`), or an exception. */
  datatype ExportInvoke = ExportAnswered(success: bool, filePath: Option<string>, message: Option<string>, error: Option<string>) | ExportInvokeThrew(errorMessage: string)

  const RECORDING_STARTED := "[Recording started...]\n"
  const NO_IPC_FOR_TRANSCRIPTION := "[Error: ipcRenderer not available.]\n"
  const RECORDING_STOPPED := "[Recording stopped.]\n"
  const NO_AUDIO_TO_TRANSCRIBE := "[No audio data to transcribe.]\n"
  const SENDING := "[Sending to main process for transcription...]\n"
  const NO_IPC_FOR_EXPORT := "\n[Error: ipcRenderer not available for export.]\n"
  const NOTHING_TO_EXPORT := "\n[Nothing to export.]\n"
  /** The answer line for a request without data. */
  const NO_AUDIO_LINE := "Transcription Error: " + Transcription.NO_AUDIO + "\n"
  /** The read-error line. The reader's `error` handler receives a progress
      event, which has no `message` property, so the template renders
      `undefined`. */
  const READ_ERROR_LINE := "[Error reading audio data: undefined]\n"
  const EXPORTING := "\n[Exporting...]\n"
  const MIC_DENIED := "Microphone access was denied. Please allow microphone access in your browser/system settings."
  const MIC_NOT_FOUND := "No microphone found. Please ensure a microphone is connected and enabled."
  const MIC_ERROR := "An error occurred while accessing the microphone: "

  /** `localStorage.getItem(key) || fallback`. */
  function StoredOr(stored: Option<string>, fallback: string): (r: string)
    ensures r == fallback || (stored.Some? && r == stored.value)
    ensures r == "" ==> fallback == ""
    ensures stored.Some? && stored.value != "" ==> r == stored.value
    ensures !(stored.Some? && stored.value != "") ==> r == fallback
  {
    if stored.Some? && stored.value != "" then stored.value else fallback
  }

  /** The response index after a response is appended, making `count`
      responses: the view follows to the new response when the index was -1
      or pointed at the previous latest response; otherwise the user is
      looking at an older response and stays there. */
  function FollowIndex(index: int, count: nat): (r: int)
    ensures r == count - 1 <==> index == -1 || index == count - 2 || index == count - 1
    ensures r != count - 1 ==> r == index
    ensures -1 <= index < count - 1 ==> 0 <= r < count
  {
    if index == count - 2 || index == -1 then count - 1 else index
  }

  /** The size of the blob made of the recorded chunks. */
  function Total(sizes: seq<nat>): nat {
    if sizes == [] then 0 else Total(sizes[..|sizes| - 1]) + sizes[|sizes| - 1]
  }

  /** Every recorded chunk holds at least a byte, so the blob is at least as
      large as the number of chunks. */
  lemma {:induction false} TotalOfNonEmptyChunks(sizes: seq<nat>)
    requires forall k :: 0 <= k < |sizes| ==> sizes[k] > 0
    ensures Total(sizes) >= |sizes|
  {
    if sizes != [] {
      TotalOfNonEmptyChunks(sizes[..|sizes| - 1]);
    }
  }

  /** The transcript line announcing the blob about to be read. */
  function ProcessingNotice(size: nat): string {
    "\n[Processing audio segment, size: " + NatToString(size) + " bytes...]\n"
  }

  /** The transcript line for the main process's answer. */
  function TranscriptLine(outcome: TranscribeInvoke): string {
    match outcome
    case Answered(Transcribed(text)) => "Transcription: " + text + "\n"
    case Answered(Failed(error)) => "Transcription Error: " + error + "\n"
    case TranscribeInvokeThrew(message) => "[IPC Error: " + message + "]\n"
  }

  /** How a template literal renders a possibly absent string. */
  function Rendered(s: Option<string>): string {
    if s.Some? then s.value else "undefined"
  }

  /** The transcript line for the export's outcome; on failure the reply's
      `message` when it is a non-empty string, its `error` otherwise. */
  function ExportLine(outcome: ExportInvoke): string {
    match outcome
    case ExportAnswered(success, filePath, message, error) =>
      if success then "[Exported successfully to " + Rendered(filePath) + "]\n"
      else if message.Some? && message.value != "" then "[Export failed: " + message.value + "]\n"
      else "[Export failed: " + Rendered(error) + "]\n"
    case ExportInvokeThrew(errorMessage) => "[Export IPC error: " + errorMessage + "]\n"
  }

  /** The alert shown when the microphone cannot be used. */
  function MicAlert(name: string, message: string): string {
    if name == "NotAllowedError" then MIC_DENIED
    else if name == "NotFoundError" then MIC_NOT_FOUND
    else MIC_ERROR + message
  }

  /** Characters the regular-expression dot does not match. */
  predicate IsLineTerminator(c: char) {
    c == '\n' || c == '\r' || c == '\U{2028}' || c == '\U{2029}'
  }

  /** `s` without its trailing line feeds. */
  function StripTrailingNewlines(s: string): (r: string)
    ensures |r| <= |s| && r == s[..|r|]
    ensures r == [] || r[|r| - 1] != '\n'
    ensures forall i :: |r| <= i < |s| ==> s[i] == '\n'
  {
    if s != [] && s[|s| - 1] == '\n' then StripTrailingNewlines(s[..|s| - 1]) else s
  }

  const NOTICE_HEAD := "\n[Nothing to export"

  /** `k` ends with what `\n\[Nothing to export.\]` matches: the dot is any
      character but a line terminator. */
  predicate EndsWithNotice(k: string) {
    && |k| >= |NOTICE_HEAD| + 2
    && k[|k| - |NOTICE_HEAD| - 2..|k| - 2] == NOTICE_HEAD
    && !IsLineTerminator(k[|k| - 2])
    && k[|k| - 1] == ']'
  }

  /** The timer's rewrite of the transcript three seconds after an empty
      export: `replace(/\n\[Nothing to export.\]\n*$/, '')` then `trim()`. */
  function ExpireNotice(t: string): (r: string)
    ensures HasNoEdgeWhitespace(r)
    ensures |r| <= |t|
  {
    var k := StripTrailingNewlines(t);
    if EndsWithNotice(k) then Trim(k[..|k| - |NOTICE_HEAD| - 2]) else Trim(t)
  }

  /** The transcript right after the notice, without its final line feed. */
  lemma StripAfterNotice(t: string)
    ensures StripTrailingNewlines(t + NOTHING_TO_EXPORT) == t + "\n[Nothing to export.]"
  {
    var s := t + NOTHING_TO_EXPORT;
    var k := t + "\n[Nothing to export.]";
    assert s[..|s| - 1] == k && s[|s| - 1] == '\n';
    assert k[|k| - 1] == ']';
  }

  /** The notice matches the pattern, and what precedes it is `t`. */
  lemma NoticeMatches(t: string)
    ensures var k := t + "\n[Nothing to export.]";
      EndsWithNotice(k) && k[..|k| - |NOTICE_HEAD| - 2] == t
  {
    var k := t + "\n[Nothing to export.]";
    assert k[|k| - |NOTICE_HEAD| - 2..|k| - 2] == NOTICE_HEAD;
    assert k[|k| - 2] == '.';
    assert k[..|k| - |NOTICE_HEAD| - 2] == t;
  }

  /** When nothing was appended after the notice, the timer removes exactly
      the notice (and trims what was there before). */
  lemma ExpireRightAfterNotice(t: string)
    ensures ExpireNotice(t + NOTHING_TO_EXPORT) == Trim(t)
  {
    StripAfterNotice(t);
    NoticeMatches(t);
  }

  /** The secondary views, closed by going back to the main view. */
  predicate IsSecondary(v: View) {
    v.Customize? || v.Help? || v.TranscriptionView?
  }

  /** What stopping the transcription does outside the component: stop the
      recorder when it is recording, release the microphone when held. */
  ghost function StopEffects(recorder: Option<RecorderState>, streamHeld: bool): seq<Effect> {
    (if recorder == Some(Recording) then [RecorderStopped] else [])
    + (if streamHeld then [MicrophoneReleased] else [])
  }

  class CheatingDaddyApp {
    var currentView: View
    var sessionActive: bool
    var selectedProfile: string
    var selectedLanguage: string
    var selectedScreenshotInterval: string
    var selectedImageQuality: string
    var startTime: Option<int>
    var responses: seq<string>
    var currentResponseIndex: int
    var isTranscribing: bool
    var transcribedText: string
    /** The recorded chunks, by size. */
    var audioChunks: seq<nat>
    var recorder: Option<RecorderState>
    var mediaStreamHeld: bool
    /** `window.require` is available (so is `ipcRenderer`). */
    const hasIpc: bool
    /** `window.cheddar` is available. */
    const hasCheddar: bool
    ghost var effects: seq<Effect>

    /** The microphone is held exactly while transcribing, a recorder exists
        only where the main process can be reached, and no recorded chunk is
        empty. */
    predicate Valid()
      reads this
    {
      && mediaStreamHeld == isTranscribing
      && (isTranscribing ==> recorder.Some?)
      && (recorder.Some? ==> hasIpc)
      && (forall k :: 0 <= k < |audioChunks| ==> audioChunks[k] > 0)
    }

    constructor(hasIpc: bool, hasCheddar: bool, storedProfile: Option<string>, storedLanguage: Option<string>,
                storedInterval: Option<string>, storedQuality: Option<string>)
      ensures Valid()
      ensures this.hasIpc == hasIpc && this.hasCheddar == hasCheddar
      ensures currentView == MainView && !sessionActive && startTime.None?
      ensures selectedProfile == StoredOr(storedProfile, "interview")
      ensures selectedLanguage == StoredOr(storedLanguage, "en-US")
      ensures selectedScreenshotInterval == StoredOr(storedInterval, "1")
      ensures selectedImageQuality == StoredOr(storedQuality, "medium")
      ensures responses == [] && currentResponseIndex == -1
      ensures !isTranscribing && transcribedText == "" && audioChunks == []
      ensures recorder.None? && !mediaStreamHeld && effects == []
    {
      this.hasIpc := hasIpc;
      this.hasCheddar := hasCheddar;
      currentView := MainView;
      sessionActive := false;
      startTime := None;
      selectedProfile := StoredOr(storedProfile, "interview");
      selectedLanguage := StoredOr(storedLanguage, "en-US");
      selectedScreenshotInterval := StoredOr(storedInterval, "1");
      selectedImageQuality := StoredOr(storedQuality, "medium");
      responses := [];
      currentResponseIndex := -1;
      isTranscribing := false;
      transcribedText := "";
      audioChunks := [];
      recorder := None;
      mediaStreamHeld := false;
      effects := [];
    }

    /** A response pushed by the main process (`update-response`). */
    method SetResponse(response: string)
      modifies this`responses, this`currentResponseIndex
      ensures responses == old(responses) + [response]
      ensures currentResponseIndex == FollowIndex(old(currentResponseIndex), |responses|)
      // a user viewing the latest response (or none yet) keeps viewing the latest
      ensures old(currentResponseIndex) == |old(responses)| - 1 || old(currentResponseIndex) == -1 ==>
        currentResponseIndex == |responses| - 1 && responses[currentResponseIndex] == response
      // a user viewing an older response stays on it
      ensures 0 <= old(currentResponseIndex) < |old(responses)| - 1 ==>
        currentResponseIndex == old(currentResponseIndex) && responses[currentResponseIndex] == old(responses)[old(currentResponseIndex)]
    {
      responses := responses + [response];
      if currentResponseIndex == |responses| - 2 || currentResponseIndex == -1 {
        currentResponseIndex := |responses| - 1;
      }
    }

    /** The assistant view reports which response is shown. */
    method HandleResponseIndexChanged(index: int)
      modifies this`currentResponseIndex
      ensures currentResponseIndex == index
    {
      currentResponseIndex := index;
    }

    /** Start a session: initialize Gemini and start capturing (when the
        helper is present), then show an empty assistant view. */
    method HandleStart(now: int)
      modifies this`responses, this`currentResponseIndex, this`startTime, this`currentView, this`effects
      ensures responses == [] && currentResponseIndex == -1
      ensures startTime == Some(now) && currentView == Assistant
      ensures hasCheddar ==> effects == old(effects) + [InitializeGemini(selectedProfile, selectedLanguage), StartCapture(selectedScreenshotInterval, selectedImageQuality)]
      ensures !hasCheddar ==> effects == old(effects)
    {
      if hasCheddar {
        effects := effects + [InitializeGemini(selectedProfile, selectedLanguage)];
        effects := effects + [StartCapture(selectedScreenshotInterval, selectedImageQuality)];
      }
      responses := [];
      currentResponseIndex := -1;
      startTime := Some(now);
      currentView := Assistant;
    }

    /** The close button: back to the main view from a secondary view; from
        the assistant view, stop transcribing and capturing and close the
        session; from the main view, stop transcribing and quit. */
    method HandleClose()
      requires Valid()
      modifies this`currentView, this`sessionActive, this`recorder, this`isTranscribing, this`transcribedText
      modifies this`mediaStreamHeld, this`effects
      ensures Valid()
      ensures responses == old(responses) && currentResponseIndex == old(currentResponseIndex)
      ensures audioChunks == old(audioChunks) && startTime == old(startTime)
      ensures IsSecondary(old(currentView)) ==>
        && currentView == MainView && sessionActive == old(sessionActive)
        && isTranscribing == old(isTranscribing) && mediaStreamHeld == old(mediaStreamHeld) && recorder == old(recorder)
        && transcribedText == old(transcribedText) && effects == old(effects)
      ensures !IsSecondary(old(currentView)) ==>
        && !isTranscribing && !mediaStreamHeld
        && transcribedText == old(transcribedText) + (if old(isTranscribing) then RECORDING_STOPPED else "")
        && recorder == (if old(isTranscribing) && old(recorder) == Some(Recording) then Some(Inactive) else old(recorder))
      ensures old(currentView) == Assistant ==>
        && currentView == MainView && !sessionActive
        && effects == old(effects)
          + (if old(isTranscribing) then StopEffects(old(recorder), old(mediaStreamHeld)) else [])
          + (if hasCheddar then [StopCapture] else [])
          + (if hasIpc then [Invoke(CloseSession)] else [])
      ensures old(currentView) == MainView ==>
        && currentView == MainView && sessionActive == old(sessionActive)
        && effects == old(effects)
          + (if old(isTranscribing) then StopEffects(old(recorder), old(mediaStreamHeld)) else [])
          + (if hasIpc then [Invoke(QuitApplication)] else [])
    {
      if IsSecondary(currentView) {
        currentView := MainView;
      } else if currentView == Assistant {
        if isTranscribing {
          StopLocalTranscription();
        }
        if hasCheddar {
          effects := effects + [StopCapture];
        }
        if hasIpc {
          effects := effects + [Invoke(CloseSession)];
        }
        sessionActive := false;
        currentView := MainView;
      } else {
        if isTranscribing {
          StopLocalTranscription();
        }
        if hasIpc {
          effects := effects + [Invoke(QuitApplication)];
        }
      }
    }

    /** Start recording from the microphone, unless already transcribing. */
    method StartLocalTranscription(mic: MicOutcome)
      requires Valid()
      modifies this`audioChunks, this`transcribedText, this`mediaStreamHeld, this`recorder, this`effects, this`isTranscribing
      ensures Valid()
      ensures old(isTranscribing) ==>
        && transcribedText == old(transcribedText) && audioChunks == old(audioChunks)
        && isTranscribing && recorder == old(recorder) && effects == old(effects)
      ensures !old(isTranscribing) && !hasIpc ==>
        && transcribedText == old(transcribedText) + RECORDING_STARTED + NO_IPC_FOR_TRANSCRIPTION
        && audioChunks == [] && !isTranscribing && recorder == old(recorder) && effects == old(effects)
      ensures !old(isTranscribing) && hasIpc && mic.Granted? ==>
        && transcribedText == old(transcribedText) + RECORDING_STARTED
        && audioChunks == [] && isTranscribing && mediaStreamHeld && recorder == Some(Recording)
        && effects == old(effects) + [RecorderStarted]
      ensures !old(isTranscribing) && hasIpc && mic.MicFailed? ==>
        && transcribedText == old(transcribedText) + RECORDING_STARTED + "[Error: " + mic.message + "]\n"
        && audioChunks == [] && !isTranscribing && recorder == old(recorder)
        && effects == old(effects) + [Alert(MicAlert(mic.name, mic.message))]
      ensures currentView == old(currentView) && sessionActive == old(sessionActive)
      ensures responses == old(responses) && currentResponseIndex == old(currentResponseIndex)
    {
      if isTranscribing {
        return;
      }
      audioChunks := [];
      transcribedText := transcribedText + RECORDING_STARTED;
      if !hasIpc {
        transcribedText := transcribedText + NO_IPC_FOR_TRANSCRIPTION;
        return;
      }
      match mic
      case Granted =>
        mediaStreamHeld := true;
        recorder := Some(Recording);
        effects := effects + [RecorderStarted];
        isTranscribing := true;
      case MicFailed(name, message) =>
        isTranscribing := false;
        transcribedText := transcribedText + "[Error: " + message + "]\n";
        effects := effects + [Alert(MicAlert(name, message))];
    }

    /** The recorder's `dataavailable` event: keep only non-empty chunks. */
    method OnDataAvailable(size: nat)
      requires Valid() && recorder.Some?
      modifies this`audioChunks
      ensures Valid()
      ensures size > 0 ==> audioChunks == old(audioChunks) + [size]
      ensures size == 0 ==> audioChunks == old(audioChunks)
    {
      if size > 0 {
        audioChunks := audioChunks + [size];
      }
    }

    /** The recorder's `stop` event: start reading the recorded blob, or note
        that there is nothing to transcribe. */
    method OnRecorderStop()
      requires Valid() && recorder.Some?
      modifies this`recorder, this`transcribedText, this`effects
      ensures Valid()
      ensures recorder == Some(Inactive)
      ensures audioChunks != [] ==>
        && transcribedText == old(transcribedText) + ProcessingNotice(Total(audioChunks))
        && Total(audioChunks) >= |audioChunks| > 0
        && effects == old(effects) + [ReadAsDataUrl(Total(audioChunks))]
      ensures audioChunks == [] ==>
        transcribedText == old(transcribedText) + NO_AUDIO_TO_TRANSCRIBE && effects == old(effects)
    {
      recorder := Some(Inactive);
      if |audioChunks| > 0 {
        TotalOfNonEmptyChunks(audioChunks);
        transcribedText := transcribedText + ProcessingNotice(Total(audioChunks));
        effects := effects + [ReadAsDataUrl(Total(audioChunks))];
      } else {
        transcribedText := transcribedText + NO_AUDIO_TO_TRANSCRIBE;
      }
    }

    /** The reader's `loadend` event, with the reader's result (the data URI,
        or null after a failed read): ask the main process to transcribe it,
        note the answer, and drop the recorded chunks. */
    method OnReaderLoadEnd(result: Option<string>, outcome: TranscribeInvoke)
      requires Valid() && recorder.Some?
      modifies this`transcribedText, this`audioChunks, this`effects
      ensures Valid()
      ensures transcribedText == old(transcribedText) + SENDING + TranscriptLine(outcome)
      ensures outcome.Answered? && outcome.reply.Transcribed? ==>
        transcribedText[|old(transcribedText)| + |SENDING|..] == "Transcription: " + outcome.reply.transcription + "\n"
      ensures effects == old(effects) + [Invoke(TranscribeAudio(result))]
      ensures audioChunks == []
    {
      transcribedText := transcribedText + SENDING;
      effects := effects + [Invoke(TranscribeAudio(result))];
      transcribedText := transcribedText + TranscriptLine(outcome);
      audioChunks := [];
    }

    /** The reader's `error` event. */
    method OnReaderError()
      requires Valid() && recorder.Some?
      modifies this`transcribedText, this`audioChunks
      ensures Valid()
      ensures transcribedText == old(transcribedText) + READ_ERROR_LINE
      ensures audioChunks == []
    {
      transcribedText := transcribedText + READ_ERROR_LINE;
      audioChunks := [];
    }

    /** A failed read: the reader fires `error` and then `loadend` with a
        null result, so the error line is followed by a transcription request
        without data; the main process answers it with its no-audio error. */
    method ReadFailed(outcome: TranscribeInvoke)
      requires Valid() && recorder.Some?
      modifies this`transcribedText, this`audioChunks, this`effects
      ensures Valid()
      ensures transcribedText == old(transcribedText) + READ_ERROR_LINE + SENDING + TranscriptLine(outcome)
      ensures effects == old(effects) + [Invoke(TranscribeAudio(None))]
      ensures audioChunks == []
      ensures outcome == Answered(Transcription.Failed(Transcription.NO_AUDIO)) ==>
        transcribedText == old(transcribedText) + READ_ERROR_LINE + SENDING + NO_AUDIO_LINE
    {
      OnReaderError();
      OnReaderLoadEnd(None, outcome);
      if outcome == Answered(Transcription.Failed(Transcription.NO_AUDIO)) {
        assert TranscriptLine(outcome) == NO_AUDIO_LINE;
      }
    }

    /** Stop transcribing: stop the recorder if it is recording (its `stop`
        event follows later) and release the microphone. */
    method StopLocalTranscription()
      requires Valid()
      modifies this`recorder, this`isTranscribing, this`transcribedText, this`mediaStreamHeld, this`effects
      ensures Valid()
      ensures !isTranscribing && !mediaStreamHeld
      ensures transcribedText == old(transcribedText) + RECORDING_STOPPED
      ensures old(recorder) == Some(Recording) ==> recorder == Some(Inactive)
      ensures old(recorder) != Some(Recording) ==> recorder == old(recorder)
      ensures effects == old(effects) + StopEffects(old(recorder), old(mediaStreamHeld))
    {
      if recorder == Some(Recording) {
        recorder := Some(Inactive);
        effects := effects + [RecorderStopped];
      }
      isTranscribing := false;
      transcribedText := transcribedText + RECORDING_STOPPED;
      if mediaStreamHeld {
        effects := effects + [MicrophoneReleased];
        mediaStreamHeld := false;
      }
    }

    /** Export the transcript through the main process's save dialog. An
        absent or blank text is not sent. */
    method HandleExportTranscription(text: Option<string>, outcome: ExportInvoke)
      modifies this`transcribedText, this`effects
      ensures !hasIpc ==> transcribedText == old(transcribedText) + NO_IPC_FOR_EXPORT && effects == old(effects)
      ensures hasIpc && (text.None? || IsBlank(text.value)) ==>
        transcribedText == old(transcribedText) + NOTHING_TO_EXPORT && effects == old(effects)
      ensures hasIpc && text.Some? && !IsBlank(text.value) ==>
        && transcribedText == old(transcribedText) + EXPORTING + ExportLine(outcome)
        && effects == old(effects) + [Invoke(ExportTranscriptionTxt(text.value))]
    {
      if !hasIpc {
        transcribedText := transcribedText + NO_IPC_FOR_EXPORT;
        return;
      }
      if text.None? || text.value == "" || Trim(text.value) == "" {
        transcribedText := transcribedText + NOTHING_TO_EXPORT;
        return;
      }
      transcribedText := transcribedText + EXPORTING;
      effects := effects + [Invoke(ExportTranscriptionTxt(text.value))];
      transcribedText := transcribedText + ExportLine(outcome);
    }

    /** The timer set by an empty export, three seconds later. */
    method ExpireNothingToExport()
      modifies this`transcribedText
      ensures transcribedText == ExpireNotice(old(transcribedText))
    {
      transcribedText := ExpireNotice(transcribedText);
    }
  }
}
