/** Interleaved 16-bit little-endian PCM and the stereo-to-mono conversion of
    `convertStereoToMono` (src/index.js). A stereo frame is four bytes: the left
    sample (low byte, high byte) followed by the right sample. */
module Pcm {

  newtype byte = x: int | 0 <= x < 256

  /** Bytes in one interleaved stereo frame (two channels of two bytes). */
  const STEREO_FRAME_BYTES := 4

  /** Bytes in one mono frame. */
  const MONO_FRAME_BYTES := 2

  /** The left channel of an interleaved stereo buffer: the first two bytes of
      every frame, in frame order. No averaging with the right channel. */
  function LeftChannel(stereo: seq<byte>): (mono: seq<byte>)
    requires |stereo| % STEREO_FRAME_BYTES == 0
    ensures |mono| * 2 == |stereo|
    ensures forall i :: 0 <= i && 4 * i < |stereo| ==>
      mono[2 * i] == stereo[4 * i] && mono[2 * i + 1] == stereo[4 * i + 1]
  {
    if stereo == [] then []
    else
      var rest := LeftChannel(stereo[4..]);
      var mono := stereo[..2] + rest;
      assert forall i :: 0 <= i && 4 * i < |stereo| ==>
        mono[2 * i] == stereo[4 * i] && mono[2 * i + 1] == stereo[4 * i + 1]
      by {
        forall i | 0 <= i && 4 * i < |stereo|
          ensures mono[2 * i] == stereo[4 * i] && mono[2 * i + 1] == stereo[4 * i + 1]
        {
          if i > 0 {
            var j := i - 1;
            assert mono[2 * i] == rest[2 * j] && mono[2 * i + 1] == rest[2 * j + 1];
            assert stereo[4..][4 * j] == stereo[4 * i] && stereo[4..][4 * j + 1] == stereo[4 * i + 1];
          }
        }
      }
      mono
  }

  /** The left channel of two buffers laid end to end is the two left channels
      laid end to end. */
  lemma {:induction false} LeftChannelAppend(a: seq<byte>, b: seq<byte>)
    requires |a| % STEREO_FRAME_BYTES == 0 && |b| % STEREO_FRAME_BYTES == 0
    ensures LeftChannel(a + b) == LeftChannel(a) + LeftChannel(b)
    decreases |a|
  {
    if a != [] {
      assert (a + b)[4..] == a[4..] + b;
      assert (a + b)[..2] == a[..2];
      LeftChannelAppend(a[4..], b);
    } else {
      assert a + b == b;
    }
  }

  /** `convertStereoToMono`: allocates a buffer of half the length and copies
      the left sample of each stereo frame into it (reading and writing the
      sample as a signed 16-bit little-endian value copies its two bytes). */
  method ConvertStereoToMono(stereo: seq<byte>) returns (mono: array<byte>)
    requires |stereo| % STEREO_FRAME_BYTES == 0
    ensures mono.Length * 2 == |stereo|
    ensures forall i :: 0 <= i && 4 * i < |stereo| ==>
      mono[2 * i] == stereo[4 * i] && mono[2 * i + 1] == stereo[4 * i + 1]
    ensures mono[..] == LeftChannel(stereo)
  {
    var samples := |stereo| / STEREO_FRAME_BYTES;
    mono := new byte[samples * MONO_FRAME_BYTES];
    for i := 0 to samples
      invariant forall k :: 0 <= k < i ==> mono[2 * k] == stereo[4 * k] && mono[2 * k + 1] == stereo[4 * k + 1]
    {
      mono[2 * i] := stereo[4 * i];
      mono[2 * i + 1] := stereo[4 * i + 1];
    }
    var left := LeftChannel(stereo);
    forall j | 0 <= j < mono.Length
      ensures mono[j] == left[j]
    {
      var i := j / 2;
      assert j == 2 * i || j == 2 * i + 1;
    }
  }
}
