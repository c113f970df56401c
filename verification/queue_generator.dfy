/** `QueueGenerator`, the sample source that feeds the I2S output from the
    queue `sampleSink` fills: the left channel carries the queued samples
    and the right channel stays silent. */
module QueueGenerator {
  import opened Bits
  import opened SampleQueue

  /** One stereo frame (`Frame_t`). */
  datatype Frame = Frame(left: Int16, right: Int16)

  /** `getFrames(frames, number_frames)`: one frame per requested frame,
      the front of the queue on the left while it lasts and 0 after it
      runs dry; a negative count produces nothing. */
  method GetFrames(q: Queue, count: int) returns (frames: seq<Frame>, rest: Queue)
    ensures |frames| == if count < 0 then 0 else count
    ensures var k := if count < 0 then 0 else if count < |q| then count else |q|;
      && rest == q[k..]
      && (forall i :: 0 <= i < k ==> frames[i].left == q[i])
      && (forall i :: k <= i < |frames| ==> frames[i].left == 0)
    ensures forall i :: 0 <= i < |frames| ==> frames[i].right == 0
  {
    frames := [];
    rest := q;
    var i := 0;
    while i < count
      invariant 0 <= i <= if count < 0 then 0 else count
      invariant |frames| == i
      invariant i <= |q| ==> rest == q[i..]
      invariant i > |q| ==> rest == []
      invariant forall j :: 0 <= j < i ==> frames[j] == Frame(if j < |q| then q[j] else 0, 0)
    {
      var sample: Int16;
      if |rest| == 0 {
        sample := 0;
      } else {
        sample := rest[0];
        rest := rest[1..];
      }
      frames := frames + [Frame(sample, 0)];
      i := i + 1;
    }
  }

  /** The left channel of the frames is exactly what as many calls of
      `sampleSource` would deliver from the same queue. */
  lemma FramesMatchSource(q: Queue, n: nat, frames: seq<Frame>)
    requires |frames| == n
    requires forall i :: 0 <= i < n ==> frames[i].left == (if i < |q| then q[i] else 0)
    ensures seq(n, i requires 0 <= i < n => frames[i].left) == Drain(q, n)
  {
    DrainOrder(q, n);
  }
}
