/** The sample FIFO between the modem and the audio path: `sampleSink`
    appends the encoder's samples to a `std::queue<int16_t>` and
    `sampleSource` hands them to the decoder one at a time. The queue is a
    value here; each operation returns the queue it leaves behind. */
module SampleQueue {
  import opened Bits

  type Queue = seq<Int16>

  /** `sampleSink(samples, count)`: pushes `samples[0..count)` one at a
      time; a negative `count` pushes nothing. */
  method Sink(q: Queue, samples: seq<Int16>, count: int) returns (r: Queue)
    requires count <= |samples|
    ensures count <= 0 ==> r == q
    ensures count > 0 ==> |r| == |q| + count && r[..|q|] == q && r[|q|..] == samples[..count]
  {
    r := q;
    var i := 0;
    while i < count
      invariant 0 <= i <= if count < 0 then 0 else count
      invariant r == q + samples[..i]
    {
      r := r + [samples[i]];
      assert samples[..i + 1] == samples[..i] + [samples[i]];
      i := i + 1;
    }
  }

  /** What `sampleSource(&sample)` leaves: the front sample and `true`,
      or 0 and `false` on an empty queue. */
  datatype Pop = Pop(rest: Queue, sample: Int16, ok: bool)

  /** `sampleSource(&sample)`. */
  function Source(q: Queue): (p: Pop)
    ensures p.ok <==> |q| > 0
    ensures p.ok ==> [p.sample] + p.rest == q
    ensures !p.ok ==> p.sample == 0 && p.rest == q
  {
    if |q| == 0 then Pop(q, 0, false) else Pop(q[1..], q[0], true)
  }

  /** The samples `n` calls of `sampleSource` deliver, in order. */
  function Drain(q: Queue, n: nat): (r: seq<Int16>)
    ensures |r| == n
  {
    if n == 0 then []
    else
      var p := Source(q);
      [p.sample] + Drain(p.rest, n - 1)
  }

  /** The queue is first in, first out: `n` pulls deliver the queue's
      first `n` samples in order, then zeros once it runs dry. */
  lemma {:induction false} DrainOrder(q: Queue, n: nat)
    ensures n <= |q| ==> Drain(q, n) == q[..n]
    ensures n > |q| ==> Drain(q, n) == q + Zeros(n - |q|)
  {
    if n > 0 {
      DrainOrder(Source(q).rest, n - 1);
      if |q| == 0 {
        assert Drain(q, n) == [0] + Zeros(n - 1);
      } else if n > |q| {
        assert q == [q[0]] + q[1..];
      }
    }
  }
}
