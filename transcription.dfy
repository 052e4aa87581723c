/** The local transcription orchestration of the `transcribe-audio` handler
    (src/index.js): validate the data URI, write the decoded audio to a
    timestamped temporary input file, convert it with FFmpeg to a 16 kHz mono
    WAV file, check that the whisper model file exists, run whisper on the WAV
    file, format its result, and delete both temporary files in a `finally`
    block. The file system is a set of paths; the child process, the
    directory creation and file write, and whisper are outcomes supplied by
    the caller. */
module Transcription {

  import opened Options
  import opened JsString

  /** The files the handler touches: its two temporary files, named after
      the timestamp, the whisper model, and anything else on disk. */
  datatype Path = FfmpegInput(timestamp: nat) | FfmpegOutput(timestamp: nat) | WhisperModel | OtherFile(name: string)

  /** Creating the data directories and then writing the input file: both
      done, or the error (with its message) of whichever step threw. */
  datatype WriteOutcome = Written | DirectoriesThrew(message: string) | WriteThrew(message: string)

  /** How the FFmpeg child ended: `close` with its exit code (`None` when it
      was ended by a signal), the standard error it printed, and whether it
      left an output file; or `error` (it could not be started). */
  datatype FfmpegOutcome = Closed(code: Option<int>, stderr: string, wroteOutput: bool) | SpawnError(message: string)

  /** The shapes whisper's result can take: an array of segments (their
      `speech` fields), a string, or anything else. */
  datatype WhisperResult = Segments(speech: seq<string>) | Text(text: string) | OtherShape

  datatype WhisperOutcome = Returned(result: WhisperResult) | WhisperThrew(message: string)

  /** How `fs.unlink` of one temporary path ended: the path is gone, or it
      threw (the path is absent, or could not be removed) and the file system
      is as it was. */
  datatype UnlinkOutcome = Removed | UnlinkThrew(message: string)

  /** Everything outside the handler that decides its course. */
  datatype Environment = Environment(files: set<Path>, timestamp: nat, write: WriteOutcome, ffmpeg: FfmpegOutcome,
                                     whisper: WhisperOutcome, unlinkInput: UnlinkOutcome, unlinkOutput: UnlinkOutcome)

  /** The side effects, in order. */
  datatype Effect = WroteInput(path: Path) | RanFfmpeg(input: Path, output: Path) | RanWhisper(input: Path) | Unlinked(path: Path)

  /** `{success: true, transcription}` or `{success: false, error}`. */
  datatype Reply = Transcribed(transcription: string) | Failed(error: string)

  const NO_AUDIO := "No audio data provided."
  const BAD_URI := "Invalid audio data URI format."
  const MODEL_MISSING := "Model file not found: ggml-base.en.bin. Please download it."
  const UNEXPECTED_FORMAT := "[Transcription produced an unexpected format]"
  const UNKNOWN_ERROR := "Unknown transcription error"
  const FFMPEG_EXITED := "FFmpeg exited with code "
  const STDERR_LABEL := ".Stderr: "

  /** `uri.split(',')[1]`: the field between the first and the second comma,
      or nothing when there is no comma. */
  function UriPayload(uri: string): (p: Option<string>)
    ensures p.None? <==> ',' !in uri
    ensures p.Some? ==> ',' !in p.value
  {
    var fields := Split(uri, ',');
    if |fields| > 1 then Some(fields[1]) else None
  }

  /** A data URI `header,payload` yields its payload. */
  lemma UriPayloadOfDataUri(header: string, payload: string)
    requires ',' !in header && ',' !in payload
    ensures UriPayload(header + "," + payload) == Some(payload)
  {
    var parts := [header, payload];
    assert Join(parts, [',']) == header + "," + payload by {
      assert parts[1..] == [payload];
    }
    SplitJoin(parts, ',');
  }

  /** The URI passes both of the handler's early checks. */
  predicate ValidUri(uri: Option<string>) {
    && uri.Some? && uri.value != ""
    && UriPayload(uri.value).Some? && UriPayload(uri.value).value != ""
  }

  /** `error.message || 'Unknown transcription error'`. */
  function ErrorText(message: string): (r: string)
    ensures r != ""
    ensures message != "" ==> r == message
    ensures message == "" ==> r == UNKNOWN_ERROR
  {
    if message == "" then UNKNOWN_ERROR else message
  }

  /** The exit code as a template literal renders it. */
  function CodeText(code: Option<int>): string {
    if code.None? then "null" else IntToString(code.value)
  }

  /** The message of the error raised when FFmpeg exits with a code other
      than 0. */
  function FfmpegFailure(code: Option<int>, stderr: string): string {
    FFMPEG_EXITED + CodeText(code) + STDERR_LABEL + stderr
  }

  /** The FFmpeg error carries its diagnostics: the exit code right after the
      fixed prefix, and the whole standard error at the end, so the message is
      never replaced by the generic one; a numeric code reads back from it. */
  lemma FfmpegFailureCarriesDiagnostics(code: Option<int>, stderr: string)
    ensures var m := FfmpegFailure(code, stderr);
      && m != ""
      && ErrorText(m) == m
      && m[|FFMPEG_EXITED|..|FFMPEG_EXITED| + |CodeText(code)|] == CodeText(code)
      && |stderr| <= |m| && m[|m| - |stderr|..] == stderr
    ensures code.Some? && code.value >= 0 ==>
      var m := FfmpegFailure(code, stderr);
      var n := |NatToString(code.value)|;
      IsDigits(m[|FFMPEG_EXITED|..|FFMPEG_EXITED| + n]) && ParseNat(m[|FFMPEG_EXITED|..|FFMPEG_EXITED| + n]) == code.value
  {
    var m := FfmpegFailure(code, stderr);
    var c := CodeText(code);
    assert m == FFMPEG_EXITED + c + (STDERR_LABEL + stderr);
    if code.Some? && code.value >= 0 {
      ParseNatToString(code.value);
    }
  }

  /** The transcription text: the segments' speech joined with single spaces
      and trimmed, a string result trimmed, and a fixed notice for any other
      shape. */
  function FormatTranscription(r: WhisperResult): (text: string)
    ensures r.OtherShape? ==> text == UNEXPECTED_FORMAT
    ensures !r.OtherShape? ==> HasNoEdgeWhitespace(text)
    ensures r.Text? && HasNoEdgeWhitespace(r.text) ==> text == r.text
    ensures r.Segments? ==> text == Trim(Join(r.speech, " "))
    ensures r.Text? ==> text == Trim(r.text)
  {
    match r
    case Segments(speech) => Trim(Join(speech, " "))
    case Text(t) =>
      if HasNoEdgeWhitespace(t) then TrimKeepsTrimmed(t); Trim(t) else Trim(t)
    case OtherShape => UNEXPECTED_FORMAT
  }

  /** The first and last characters of a join of non-empty pieces are the
      first character of the first piece and the last of the last. */
  lemma {:induction false} JoinEdges(parts: seq<string>, sep: string)
    requires |parts| >= 1
    requires forall k :: 0 <= k < |parts| ==> parts[k] != []
    ensures var j := Join(parts, sep);
      |j| >= 1 && j[0] == parts[0][0] && j[|j| - 1] == parts[|parts| - 1][|parts[|parts| - 1]| - 1]
  {
    if |parts| > 1 {
      JoinEdges(parts[1..], sep);
    }
  }

  /** Nothing of the segments is lost: when every segment is a non-empty run
      of non-whitespace characters, splitting the transcription at the spaces
      gives the segments back. */
  lemma SegmentsRecoverable(speech: seq<string>)
    requires |speech| >= 1
    requires forall k :: 0 <= k < |speech| ==> speech[k] != [] && HasNoWhitespace(speech[k])
    ensures Split(FormatTranscription(Segments(speech)), ' ') == speech
  {
    var j := Join(speech, " ");
    JoinEdges(speech, " ");
    assert HasNoWhitespace(speech[0]) && HasNoWhitespace(speech[|speech| - 1]);
    TrimKeepsTrimmed(j);
    forall k | 0 <= k < |speech| ensures ' ' !in speech[k] {
      assert HasNoWhitespace(speech[k]);
    }
    SplitJoin(speech, ' ');
  }

  predicate HasNoWhitespace(s: string) {
    forall i :: 0 <= i < |s| ==> !IsWhitespace(s[i])
  }

  /** FFmpeg exited with code 0. */
  predicate FfmpegSucceeded(f: FfmpegOutcome) {
    f.Closed? && f.code == Some(0)
  }

  /** Did the handler get as far as calling whisper, by the outcomes alone? */
  predicate ReachesWhisper(uri: Option<string>, env: Environment) {
    ValidUri(uri) && Proceeds(env)
  }

  /** Once the payload is known, the outcomes that let the handler call
      whisper: the input was written, FFmpeg exited with 0 and the model file
      is there. */
  predicate Proceeds(env: Environment) {
    env.write.Written? && FfmpegSucceeded(env.ffmpeg) && WhisperModel in env.files
  }

  /** The temporary files the `try` block leaves on disk: the input once it
      was written, and the output when FFmpeg left one. */
  function Produced(env: Environment): (p: set<Path>)
    ensures p <= {FfmpegInput(env.timestamp), FfmpegOutput(env.timestamp)}
    ensures FfmpegInput(env.timestamp) in p <==> env.write.Written?
    ensures FfmpegOutput(env.timestamp) in p <==> env.write.Written? && env.ffmpeg.Closed? && env.ffmpeg.wroteOutput
  {
    var output := if env.ffmpeg.Closed? && env.ffmpeg.wroteOutput then {FfmpegOutput(env.timestamp)} else {};
    if env.write.Written? then {FfmpegInput(env.timestamp)} + output else {}
  }

  /** The `try` block of `transcribe-audio` once the data URI has a non-empty
      payload: whether the temporary paths were assigned, and the reply, the
      files on disk and the effects before the `finally` block runs. */
  method Attempt(env: Environment) returns (reply: Reply, files: set<Path>, effects: seq<Effect>, tempsSet: bool)
    ensures tempsSet <==> !env.write.DirectoriesThrew?
    ensures !tempsSet ==> files == env.files && effects == []
    ensures files - {FfmpegInput(env.timestamp), FfmpegOutput(env.timestamp)}
         == env.files - {FfmpegInput(env.timestamp), FfmpegOutput(env.timestamp)}
    ensures files == env.files + Produced(env)
    ensures env.write.WriteThrew? ==> effects == []
    ensures env.write.Written? && !Proceeds(env) ==>
      effects == [WroteInput(FfmpegInput(env.timestamp)), RanFfmpeg(FfmpegInput(env.timestamp), FfmpegOutput(env.timestamp))]
    ensures Proceeds(env) ==>
      effects == [WroteInput(FfmpegInput(env.timestamp)), RanFfmpeg(FfmpegInput(env.timestamp), FfmpegOutput(env.timestamp)),
                  RanWhisper(FfmpegOutput(env.timestamp))]
    ensures !env.write.Written? ==> reply == Failed(ErrorText(env.write.message))
    ensures env.write.Written? && env.ffmpeg.SpawnError? ==> reply == Failed(ErrorText(env.ffmpeg.message))
    ensures env.write.Written? && env.ffmpeg.Closed? && !FfmpegSucceeded(env.ffmpeg) ==>
      reply == Failed(FfmpegFailure(env.ffmpeg.code, env.ffmpeg.stderr))
    ensures env.write.Written? && FfmpegSucceeded(env.ffmpeg) && WhisperModel !in env.files ==>
      reply == Failed(MODEL_MISSING)
    ensures Proceeds(env) && env.whisper.WhisperThrew? ==> reply == Failed(ErrorText(env.whisper.message))
    ensures reply.Transcribed? <==> Proceeds(env) && env.whisper.Returned?
    ensures reply.Transcribed? ==> reply.transcription == FormatTranscription(env.whisper.result)
  {
    var input := FfmpegInput(env.timestamp);
    var output := FfmpegOutput(env.timestamp);
    files := env.files;
    effects := [];
    tempsSet := false;
    match env.write
    case DirectoriesThrew(message) =>
      reply := Failed(ErrorText(message));
    case WriteThrew(message) =>
      tempsSet := true;
      reply := Failed(ErrorText(message));
    case Written =>
      tempsSet := true;
      files := files + {input};
      effects := [WroteInput(input), RanFfmpeg(input, output)];
      match env.ffmpeg
      case SpawnError(message) =>
        reply := Failed(ErrorText(message));
      case Closed(code, stderr, wroteOutput) =>
        if wroteOutput {
          files := files + {output};
        }
        if code != Some(0) {
          reply := Failed(ErrorText(FfmpegFailure(code, stderr)));
          FfmpegFailureCarriesDiagnostics(code, stderr);
        } else if WhisperModel !in files {
          reply := Failed(MODEL_MISSING);
        } else {
          effects := effects + [RanWhisper(output)];
          match env.whisper
          case WhisperThrew(message) =>
            reply := Failed(ErrorText(message));
          case Returned(result) =>
            reply := Transcribed(FormatTranscription(result));
        }
  }

  /** `transcribe-audio`. Returns the reply, the files on disk afterwards, and
      the effects in the order they happened. */
  method TranscribeAudio(uri: Option<string>, env: Environment) returns (reply: Reply, files: set<Path>, effects: seq<Effect>)
    // the two early returns: no temporary path assigned, nothing written or run
    ensures uri.None? || uri.value == "" ==> reply == Failed(NO_AUDIO) && files == env.files && effects == []
    ensures uri.Some? && uri.value != "" && !ValidUri(uri) ==>
      reply == Failed(BAD_URI) && files == env.files && effects == []
    // once the temporary paths are set, both are unlinked on every path, and
    // whisper runs only after the input was written, FFmpeg exited with 0 and
    // the model was found
    ensures ValidUri(uri) && env.write.DirectoriesThrew? ==> files == env.files && effects == []
    ensures ValidUri(uri) && !env.write.DirectoriesThrew? ==>
      files - {FfmpegInput(env.timestamp), FfmpegOutput(env.timestamp)}
        == env.files - {FfmpegInput(env.timestamp), FfmpegOutput(env.timestamp)}
    // an unlink that succeeds removes its path; one that throws is swallowed,
    // and the path stays exactly when it was on disk before the unlink
    ensures ValidUri(uri) && !env.write.DirectoriesThrew? && env.unlinkInput.Removed? ==>
      FfmpegInput(env.timestamp) !in files
    ensures ValidUri(uri) && !env.write.DirectoriesThrew? && env.unlinkInput.UnlinkThrew? ==>
      (FfmpegInput(env.timestamp) in files <==> FfmpegInput(env.timestamp) in env.files + Produced(env))
    ensures ValidUri(uri) && !env.write.DirectoriesThrew? && env.unlinkOutput.Removed? ==>
      FfmpegOutput(env.timestamp) !in files
    ensures ValidUri(uri) && !env.write.DirectoriesThrew? && env.unlinkOutput.UnlinkThrew? ==>
      (FfmpegOutput(env.timestamp) in files <==> FfmpegOutput(env.timestamp) in env.files + Produced(env))
    ensures ValidUri(uri) && !env.write.DirectoriesThrew? && env.unlinkInput.Removed? && env.unlinkOutput.Removed? ==>
      files == env.files - {FfmpegInput(env.timestamp), FfmpegOutput(env.timestamp)}
    ensures ValidUri(uri) && env.write.WriteThrew? ==>
      effects == [Unlinked(FfmpegInput(env.timestamp)), Unlinked(FfmpegOutput(env.timestamp))]
    ensures ValidUri(uri) && env.write.Written? && !ReachesWhisper(uri, env) ==>
      effects == [WroteInput(FfmpegInput(env.timestamp)), RanFfmpeg(FfmpegInput(env.timestamp), FfmpegOutput(env.timestamp)),
                  Unlinked(FfmpegInput(env.timestamp)), Unlinked(FfmpegOutput(env.timestamp))]
    ensures ReachesWhisper(uri, env) ==>
      effects == [WroteInput(FfmpegInput(env.timestamp)), RanFfmpeg(FfmpegInput(env.timestamp), FfmpegOutput(env.timestamp)),
                  RanWhisper(FfmpegOutput(env.timestamp)),
                  Unlinked(FfmpegInput(env.timestamp)), Unlinked(FfmpegOutput(env.timestamp))]
    // the reply on each path
    ensures ValidUri(uri) && !env.write.Written? ==> reply == Failed(ErrorText(env.write.message))
    ensures ValidUri(uri) && env.write.Written? && env.ffmpeg.SpawnError? ==> reply == Failed(ErrorText(env.ffmpeg.message))
    ensures ValidUri(uri) && env.write.Written? && env.ffmpeg.Closed? && !FfmpegSucceeded(env.ffmpeg) ==>
      reply == Failed(FfmpegFailure(env.ffmpeg.code, env.ffmpeg.stderr))
    ensures ValidUri(uri) && env.write.Written? && FfmpegSucceeded(env.ffmpeg) && WhisperModel !in env.files ==>
      reply == Failed(MODEL_MISSING)
    ensures ReachesWhisper(uri, env) && env.whisper.WhisperThrew? ==> reply == Failed(ErrorText(env.whisper.message))
    ensures reply.Transcribed? <==> ReachesWhisper(uri, env) && env.whisper.Returned?
    ensures reply.Transcribed? ==> reply.transcription == FormatTranscription(env.whisper.result)
  {
    if uri.None? || uri.value == "" {
      return Failed(NO_AUDIO), env.files, [];
    }
    var payload := UriPayload(uri.value);
    if payload.None? || payload.value == "" {
      return Failed(BAD_URI), env.files, [];
    }
    var tempsSet;
    reply, files, effects, tempsSet := Attempt(env);
    // finally: both temporary paths are unlinked once they were assigned,
    // and an error from either unlink is swallowed
    if tempsSet {
      var input := FfmpegInput(env.timestamp);
      var output := FfmpegOutput(env.timestamp);
      if env.unlinkInput.Removed? {
        files := files - {input};
      }
      if env.unlinkOutput.Removed? {
        files := files - {output};
      }
      effects := effects + [Unlinked(input), Unlinked(output)];
    }
  }
}
