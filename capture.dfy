/** The system-audio capture pipeline of `startMacOSAudioCapture` and
    `stopMacOSAudioCapture` (src/index.js): the module-level reference to the
    audio-dump child process and the rolling buffer its standard output is
    appended to, cut into fixed 0.1-second stereo chunks that are converted to
    mono and handed to the realtime relay in arrival order. */
module Capture {

  import opened Pcm

  const SAMPLE_RATE := 24000
  const BYTES_PER_SAMPLE := 2
  const CHANNELS := 2

  /** `SAMPLE_RATE * BYTES_PER_SAMPLE * CHANNELS * CHUNK_DURATION` with a
      duration of 0.1 s; the double-precision product is exactly 9600. */
  const CHUNK_SIZE := 9600

  /** `SAMPLE_RATE * BYTES_PER_SAMPLE * 1`: the cap applied to the residual buffer. */
  const MAX_BUFFER_SIZE := SAMPLE_RATE * BYTES_PER_SAMPLE * 1

  /** The whole chunks at the front of `s`, in order. */
  function Chunks(s: seq<byte>): (r: seq<seq<byte>>)
    ensures forall k :: 0 <= k < |r| ==> |r[k]| == CHUNK_SIZE
    decreases |s|
  {
    if |s| < CHUNK_SIZE then [] else [s[..CHUNK_SIZE]] + Chunks(s[CHUNK_SIZE..])
  }

  /** What is left of `s` once its whole chunks are cut off. */
  function Residue(s: seq<byte>): (r: seq<byte>)
    ensures |r| < CHUNK_SIZE && |r| <= |s|
    decreases |s|
  {
    if |s| < CHUNK_SIZE then s else Residue(s[CHUNK_SIZE..])
  }

  /** The residue is the newest bytes of the buffer: its tail. */
  lemma {:induction false} ResidueIsTail(s: seq<byte>)
    ensures Residue(s) == s[|s| - |Residue(s)|..]
    decreases |s|
  {
    if |s| >= CHUNK_SIZE {
      var rest := s[CHUNK_SIZE..];
      ResidueIsTail(rest);
      assert rest[|rest| - |Residue(rest)|..] == s[|s| - |Residue(rest)|..];
    }
  }

  /** The chunks laid end to end. */
  function Concat(chunks: seq<seq<byte>>): seq<byte>
  {
    if chunks == [] then [] else chunks[0] + Concat(chunks[1..])
  }

  /** The mono payload of each stereo chunk, in order. */
  function MonoPayloads(chunks: seq<seq<byte>>): (r: seq<seq<byte>>)
    requires forall k :: 0 <= k < |chunks| ==> |chunks[k]| == CHUNK_SIZE
    ensures |r| == |chunks|
    ensures forall k :: 0 <= k < |r| ==> r[k] == LeftChannel(chunks[k]) && |r[k]| == CHUNK_SIZE / 2
  {
    if chunks == [] then [] else [LeftChannel(chunks[0])] + MonoPayloads(chunks[1..])
  }

  /** `buf.slice(-cap)` when the buffer is over the cap: keeps the newest `cap` bytes. */
  function CapTail(s: seq<byte>, cap: nat): (r: seq<byte>)
    ensures |r| <= cap && |r| <= |s|
    ensures r == s[|s| - |r|..]
    ensures |s| <= cap ==> r == s
    ensures |s| > cap ==> |r| == cap
  {
    if |s| > cap then s[|s| - cap..] else s
  }

  /** There are `⌊|s| / 9600⌋` chunks and `|s| mod 9600` residual bytes. */
  lemma {:induction false} ChunkCount(s: seq<byte>)
    ensures |Chunks(s)| == |s| / CHUNK_SIZE
    ensures |Residue(s)| == |s| % CHUNK_SIZE
    decreases |s|
  {
    if |s| >= CHUNK_SIZE {
      ChunkCount(s[CHUNK_SIZE..]);
    }
  }

  /** Cutting the chunks off and keeping the residue loses and duplicates
      nothing: the chunks followed by the residue are the input. */
  lemma {:induction false} ChunksThenResidue(s: seq<byte>)
    ensures Concat(Chunks(s)) + Residue(s) == s
    decreases |s|
  {
    if |s| >= CHUNK_SIZE {
      var rest := s[CHUNK_SIZE..];
      ChunksThenResidue(rest);
      var cs := Chunks(s);
      assert cs == [s[..CHUNK_SIZE]] + Chunks(rest);
      assert Concat(cs) == s[..CHUNK_SIZE] + Concat(Chunks(rest)) by {
        assert cs[0] == s[..CHUNK_SIZE];
        assert cs[1..] == Chunks(rest);
      }
      assert Residue(s) == Residue(rest);
      assert s == s[..CHUNK_SIZE] + rest;
    }
  }

  /** A whole chunk at the front is cut off as the first chunk. */
  lemma ChunksOfLeadingChunk(c: seq<byte>, tail: seq<byte>)
    requires |c| == CHUNK_SIZE
    ensures Chunks(c + tail) == [c] + Chunks(tail)
    ensures Residue(c + tail) == Residue(tail)
  {
    var s := c + tail;
    assert s[..CHUNK_SIZE] == c;
    assert s[CHUNK_SIZE..] == tail;
  }

  /** The chunks and residue that result from a sequence of data events,
      starting from `buffer`: each event appends its bytes and cuts the whole
      chunks off the front. */
  function Feed(buffer: seq<byte>, events: seq<seq<byte>>): (r: (seq<seq<byte>>, seq<byte>))
    ensures forall k :: 0 <= k < |r.0| ==> |r.0[k]| == CHUNK_SIZE
    decreases |events|
  {
    if events == [] then ([], buffer)
    else
      var joined := buffer + events[0];
      var next := Feed(Residue(joined), events[1..]);
      (Chunks(joined) + next.0, next.1)
  }

  /** Chunking `joined + rest` is chunking `joined`, then chunking its residue
      followed by `rest`. */
  lemma {:induction false} ChunksAcrossEvent(joined: seq<byte>, rest: seq<byte>)
    ensures Chunks(joined + rest) == Chunks(joined) + Chunks(Residue(joined) + rest)
    ensures Residue(joined + rest) == Residue(Residue(joined) + rest)
    decreases |joined|
  {
    if |joined| >= CHUNK_SIZE {
      var head := joined[..CHUNK_SIZE];
      var more := joined[CHUNK_SIZE..];
      var later := Chunks(Residue(more) + rest);
      assert Chunks(joined + rest) == [head] + Chunks(more + rest) && Residue(joined + rest) == Residue(more + rest) by {
        assert joined + rest == head + (more + rest) by {
          assert joined == head + more;
        }
        ChunksOfLeadingChunk(head, more + rest);
      }
      assert Chunks(more + rest) == Chunks(more) + later && Residue(more + rest) == Residue(Residue(more) + rest) by {
        ChunksAcrossEvent(more, rest);
      }
      assert Chunks(joined) == [head] + Chunks(more) && Residue(joined) == Residue(more) by {
        CutOneChunk(joined);
      }
      assert [head] + (Chunks(more) + later) == ([head] + Chunks(more)) + later;
    }
  }

  /** How the bytes were split into data events makes no difference: feeding
      the events one by one dispatches exactly the chunks of the whole stream,
      in stream order, and leaves exactly its residue. */
  lemma {:induction false} FeedIsChunksOfStream(buffer: seq<byte>, events: seq<seq<byte>>)
    requires |buffer| < CHUNK_SIZE
    ensures Feed(buffer, events).0 == Chunks(buffer + Concat(events))
    ensures Feed(buffer, events).1 == Residue(buffer + Concat(events))
    decreases |events|
  {
    if events == [] {
      assert buffer + Concat(events) == buffer;
    } else {
      var joined := buffer + events[0];
      var rest := Concat(events[1..]);
      var next := Feed(Residue(joined), events[1..]);
      assert Feed(buffer, events) == (Chunks(joined) + next.0, next.1);
      FeedIsChunksOfStream(Residue(joined), events[1..]);
      assert buffer + Concat(events) == joined + rest by {
        assert Concat(events) == events[0] + rest;
      }
      ChunksAcrossEvent(joined, rest);
    }
  }

  /** Five data events of 2400 bytes dispatch one chunk, whose mono payload is
      4800 bytes, and leave 2400 bytes buffered. */
  lemma FiveSmallEvents(e: seq<byte>)
    requires |e| == 2400
    ensures |Feed([], [e, e, e, e, e]).0| == 1
    ensures |Feed([], [e, e, e, e, e]).1| == 2400
    ensures |LeftChannel(Feed([], [e, e, e, e, e]).0[0])| == 4800
  {
    var events := [e, e, e, e, e];
    FeedIsChunksOfStream([], events);
    assert |Concat(events[4..])| == 2400;
    assert |Concat(events[3..])| == 4800;
    assert |Concat(events[2..])| == 7200;
    assert |Concat(events[1..])| == 9600;
    assert |Concat(events)| == 12000;
    assert [] + Concat(events) == Concat(events);
  }

  /** One turn of the chunking loop: the first chunk is cut off the front. */
  lemma CutOneChunk(s: seq<byte>)
    requires |s| >= CHUNK_SIZE
    ensures Chunks(s) == [s[..CHUNK_SIZE]] + Chunks(s[CHUNK_SIZE..])
    ensures MonoPayloads(Chunks(s)) == [LeftChannel(s[..CHUNK_SIZE])] + MonoPayloads(Chunks(s[CHUNK_SIZE..]))
    ensures Residue(s) == Residue(s[CHUNK_SIZE..])
  {
    var cs := Chunks(s);
    assert cs[0] == s[..CHUNK_SIZE];
    assert cs[1..] == Chunks(s[CHUNK_SIZE..]);
  }

  /** Moving one chunk from the pending side of the loop invariant to the
      dispatched side. */
  lemma AppendChunk(done: seq<seq<byte>>, sent: seq<seq<byte>>, pending: seq<seq<byte>>, chunk: seq<byte>)
    requires |chunk| == CHUNK_SIZE
    requires forall k :: 0 <= k < |pending| ==> |pending[k]| == CHUNK_SIZE
    ensures done + ([chunk] + pending) == (done + [chunk]) + pending
    ensures sent + ([LeftChannel(chunk)] + MonoPayloads(pending)) == (sent + [LeftChannel(chunk)]) + MonoPayloads(pending)
  {
  }

  /** Every dispatched payload is the mono form of the chunk at the same
      position, and every chunk is exactly one chunk long. */
  ghost predicate Logged(chunks: seq<seq<byte>>, dispatched: seq<seq<byte>>) {
    && |dispatched| == |chunks|
    && (forall k :: 0 <= k < |chunks| ==> |chunks[k]| == CHUNK_SIZE)
    && (forall k :: 0 <= k < |chunks| ==> dispatched[k] == LeftChannel(chunks[k]))
  }

  /** Logging one more chunk with its mono payload keeps the logs paired. */
  lemma LoggedExtend(chunks: seq<seq<byte>>, dispatched: seq<seq<byte>>, chunk: seq<byte>)
    requires Logged(chunks, dispatched) && |chunk| == CHUNK_SIZE
    ensures Logged(chunks + [chunk], dispatched + [LeftChannel(chunk)])
  {
    var cs := chunks + [chunk];
    var ds := dispatched + [LeftChannel(chunk)];
    forall k | 0 <= k < |cs|
      ensures |cs[k]| == CHUNK_SIZE && ds[k] == LeftChannel(cs[k])
    {
      if k < |chunks| {
        assert cs[k] == chunks[k] && ds[k] == dispatched[k];
      }
    }
  }

  /** The system-audio state of the main process: whether it holds a reference
      to the audio-dump child process (`systemAudioProc`), the rolling buffer of
      the current capture, and, as ghost logs, the stereo chunks cut so far and
      the mono payloads handed to the relay. */
  class SystemAudio {
    var procHeld: bool
    var audioBuffer: seq<byte>
    ghost var chunks: seq<seq<byte>>
    ghost var dispatched: seq<seq<byte>>

    /** The chunk and payload logs are paired. */
    ghost predicate Valid()
      reads this
    {
      Logged(chunks, dispatched)
    }

    /** Module load: no child process, nothing buffered, nothing dispatched. */
    constructor ()
      ensures Valid()
      ensures !procHeld && audioBuffer == [] && chunks == [] && dispatched == []
    {
      procHeld := false;
      audioBuffer := [];
      chunks := [];
      dispatched := [];
    }

    /** `startMacOSAudioCapture`: refuses off macOS; otherwise keeps the
        reference to the spawned process (even when it got no process id) and
        reports whether it got one. A started capture begins with an empty
        buffer. */
    method Start(isDarwin: bool, gotPid: bool) returns (ok: bool)
      requires Valid()
      modifies this
      ensures Valid()
      ensures ok == (isDarwin && gotPid)
      ensures procHeld == (isDarwin || old(procHeld))
      ensures audioBuffer == if ok then [] else old(audioBuffer)
      ensures chunks == old(chunks) && dispatched == old(dispatched)
    {
      if !isDarwin {
        return false;
      }
      procHeld := true;
      if !gotPid {
        return false;
      }
      audioBuffer := [];
      return true;
    }

    /** The `data` handler on the child's standard output: append the bytes,
        cut whole chunks off the front while there are any, convert each to
        mono and dispatch it, then cap the residue at `MAX_BUFFER_SIZE`. */
    method OnData(data: seq<byte>)
      requires Valid()
      modifies this
      ensures Valid()
      ensures procHeld == old(procHeld)
      ensures chunks == old(chunks) + Chunks(old(audioBuffer) + data)
      ensures dispatched == old(dispatched) + MonoPayloads(Chunks(old(audioBuffer) + data))
      ensures audioBuffer == Residue(old(audioBuffer) + data)
      ensures |audioBuffer| < CHUNK_SIZE < MAX_BUFFER_SIZE
    {
      audioBuffer := audioBuffer + data;
      ghost var input := audioBuffer;
      ghost var chunksBefore := chunks;
      ghost var dispatchedBefore := dispatched;
      while |audioBuffer| >= CHUNK_SIZE
        invariant Valid()
        invariant chunksBefore + Chunks(input) == chunks + Chunks(audioBuffer)
        invariant dispatchedBefore + MonoPayloads(Chunks(input)) == dispatched + MonoPayloads(Chunks(audioBuffer))
        invariant Residue(audioBuffer) == Residue(input)
        invariant procHeld == old(procHeld)
        decreases |audioBuffer|
      {
        var chunk := audioBuffer[..CHUNK_SIZE];
        var rest := audioBuffer[CHUNK_SIZE..];
        CutOneChunk(audioBuffer);
        audioBuffer := rest;
        var mono := ConvertStereoToMono(chunk);
        AppendChunk(chunks, dispatched, Chunks(rest), chunk);
        LoggedExtend(chunks, dispatched, chunk);
        chunks := chunks + [chunk];
        dispatched := dispatched + [mono[..]];
      }
      audioBuffer := CapTail(audioBuffer, MAX_BUFFER_SIZE);
    }

    /** `stopMacOSAudioCapture`: signals the child and drops the reference;
        nothing happens when no reference is held. */
    method Stop()
      modifies this
      ensures !procHeld
      ensures audioBuffer == old(audioBuffer) && chunks == old(chunks) && dispatched == old(dispatched)
    {
      if procHeld {
        procHeld := false;
      }
    }

    /** The child's `close` and `error` handlers: drop the reference so that a
        later start can spawn again. */
    method OnProcessEnded()
      modifies this
      ensures !procHeld
      ensures audioBuffer == old(audioBuffer) && chunks == old(chunks) && dispatched == old(dispatched)
    {
      procHeld := false;
    }
  }
}
