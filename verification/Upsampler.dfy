/** The 8 kHz to 16 kHz stereo interpolation of playback_task (audio.c), chunk by chunk. */
module Upsampler {

  predicate IsInt16(x: int) { -32768 <= x <= 32767 }

  /** C division by 2, which rounds toward zero. */
  function Half(x: int): int { if x >= 0 then x / 2 else -((-x) / 2) }

  /** The sample before `s[i]`: `last` before the first one. */
  function Before(last: int, s: seq<int>, i: nat): int
    requires i <= |s|
  {
    if i == 0 then last else s[i-1]
  }

  /** All of `s` interpolated at once: frames 2i and 2i + 1 of both channels. */
  function Interpolated(last: int, s: seq<int>): (r: seq<int>)
    ensures |r| == 4 * |s|
  {
    seq(4 * |s|, k requires 0 <= k < 4 * |s| =>
      if k % 4 < 2 then Half(Before(last, s, k / 4) + s[k/4]) else s[k/4])
  }

  /** The loop of playback_task over one chunk; returns the carried sample. */
  method Interpolate(last: int, input: array<int>, out: array<int>) returns (carry: int)
    requires input != out && out.Length == 4 * input.Length
    modifies out
    ensures out[..] == Interpolated(last, input[..]) && carry == Before(last, input[..], input.Length)
    ensures input[..] == old(input[..])
  {
    carry := last;
    var i := 0;
    while i < input.Length
      invariant i <= input.Length && input[..] == old(input[..]) && carry == Before(last, input[..], i)
      invariant out[..4*i] == Interpolated(last, input[..])[..4*i]
    {
      var mid := Half(carry + input[i]);
      out[4*i], out[4*i+1], out[4*i+2], out[4*i+3] := mid, mid, input[i], input[i];
      carry := input[i];
      i := i + 1;
    }
  }

  /** Cutting anywhere makes no difference when the last sample is carried over. */
  lemma CutAnywhere(last: int, a: seq<int>, b: seq<int>)
    ensures Interpolated(last, a + b) == Interpolated(last, a) + Interpolated(Before(last, a, |a|), b)
  {
    var whole, left, right := Interpolated(last, a + b), Interpolated(last, a), Interpolated(Before(last, a, |a|), b);
    forall k | 0 <= k < |whole| ensures whole[k] == (left + right)[k] {
      if k >= 4 * |a| { assert k / 4 - |a| == (k - 4 * |a|) / 4 && k % 4 == (k - 4 * |a|) % 4; }
    }
  }

  function Flatten(chunks: seq<seq<int>>): seq<int> {
    if chunks == [] then [] else chunks[0] + Flatten(chunks[1..])
  }

  /** The output of consecutive chunks, each started with the sample the one before ended on. */
  function ByChunks(last: int, chunks: seq<seq<int>>): seq<int>
    decreases |chunks|
  {
    if chunks == [] then []
    else Interpolated(last, chunks[0]) + ByChunks(Before(last, chunks[0], |chunks[0]|), chunks[1..])
  }

  /** Chunk independence: any run of consecutive chunks gives what one pass over all of it gives. */
  lemma {:induction false} ChunkIndependence(last: int, chunks: seq<seq<int>>)
    ensures ByChunks(last, chunks) == Interpolated(last, Flatten(chunks))
    decreases |chunks|
  {
    if chunks != [] {
      ChunkIndependence(Before(last, chunks[0], |chunks[0]|), chunks[1..]);
      CutAnywhere(last, chunks[0], Flatten(chunks[1..]));
    }
  }

  /** Each sample becomes two frames with both channels alike: the mean of the sample and the one before it, an odd sum
      losing its half toward zero, and the sample itself. */
  lemma FramesAre(last: int, s: seq<int>, i: nat)
    requires i < |s|
    ensures var r, a, b := Interpolated(last, s), if i == 0 then last else s[i-1], s[i];
            && r[4*i] == r[4*i+1] && r[4*i+2] == r[4*i+3] == b
            && (a + b >= 0 ==> 0 <= a + b - 2 * r[4*i] <= 1) && (a + b < 0 ==> 0 <= 2 * r[4*i] - (a + b) <= 1)
  {
  }

  /** So the mean lies between its neighbours, and the cast to int16 changes nothing. */
  lemma MidpointBetween(last: int, s: seq<int>, k: nat)
    requires k < 4 * |s| && IsInt16(last) && forall i :: 0 <= i < |s| ==> IsInt16(s[i])
    ensures var x, a, b := Interpolated(last, s)[k], Before(last, s, k / 4), s[k/4];
            IsInt16(x) && (a <= x <= b || b <= x <= a)
  {
  }
}
