/** The sample framing of `I2SAudio`, the adapter between the modem's mono
    16-bit samples and the stereo I2S stream. On the way out, samples are
    interleaved into left/right frames, the frames' bytes are cut into
    messages of at most 256 bytes, and each message goes to the output
    task's queue. On the way in, each message from the input task is read
    as 16-bit words, even words going to a left queue and odd ones to a
    right queue, each queue keeping its newest 256 samples. The message
    queues between this adapter and the I2S tasks are sequences here; a
    send's success is a parameter. */
module I2SAudio {
  import opened Bits

  /** `SAMPLE_BUFFER_SIZE`: the payload bytes of one message. */
  const SampleBufferSize: nat := 256

  /** `MAX_QUEUE_SIZE`: the capacity of each channel queue. */
  const MaxQueueSize: nat := 256

  datatype Channel = Left | Right | Both

  /** The frames `addSinkSamples` builds: sample `i` fills frame `i`'s
      left word unless the channel is RIGHT and its right word unless the
      channel is LEFT; the other word is 0. */
  function Interleave(samples: seq<Int16>, ch: Channel): (frames: seq<Int16>)
    ensures |frames| == 2 * |samples|
  {
    seq(2 * |samples|, k requires 0 <= k < 2 * |samples| =>
      if k % 2 == 0 then (if ch != Right then samples[k / 2] else 0)
      else (if ch != Left then samples[k / 2] else 0))
  }

  /** The bytes of a run of 16-bit words, each little-endian. */
  function Bytes(words: seq<Int16>): (b: seq<byte>)
    ensures |b| == 2 * |words|
  {
    seq(2 * |words|, k requires 0 <= k < 2 * |words| => Int16Bytes(words[k / 2])[k % 2])
  }

  /** The 16-bit words a byte buffer holds; an odd last byte is ignored. */
  function Words(b: seq<byte>): (w: seq<Int16>)
    ensures |w| == |b| / 2
  {
    seq(|b| / 2, i requires 0 <= i < |b| / 2 => Int16FromBytes(b[2 * i], b[2 * i + 1]))
  }

  /** Reading words back from their bytes gives the words. */
  lemma WordsBytes(w: seq<Int16>)
    ensures Words(Bytes(w)) == w
  {
    forall i | 0 <= i < |w|
      ensures Words(Bytes(w))[i] == w[i]
    {
      Int16BytesRoundTrip(w[i]);
    }
  }

  /** The even-indexed words (the left channel). */
  function Evens(w: seq<Int16>): (r: seq<Int16>)
    ensures |r| == (|w| + 1) / 2
  {
    seq((|w| + 1) / 2, k requires 0 <= k < (|w| + 1) / 2 => w[2 * k])
  }

  /** The odd-indexed words (the right channel). */
  function Odds(w: seq<Int16>): (r: seq<Int16>)
    ensures |r| == |w| / 2
  {
    seq(|w| / 2, k requires 0 <= k < |w| / 2 => w[2 * k + 1])
  }

  /** Frame `i` of the interleaving carries sample `i` on the channels
      written and 0 on the other. */
  lemma InterleaveAt(samples: seq<Int16>, ch: Channel, i: nat)
    requires i < |samples|
    ensures Interleave(samples, ch)[2 * i] == if ch != Right then samples[i] else 0
    ensures Interleave(samples, ch)[2 * i + 1] == if ch != Left then samples[i] else 0
  {
    assert (2 * i) / 2 == i && (2 * i + 1) / 2 == i && (2 * i + 1) % 2 == 1;
  }

  /** De-interleaving undoes the interleaving: the left words are the
      samples unless only the right channel was written ... */
  lemma EvensInterleave(samples: seq<Int16>, ch: Channel)
    ensures Evens(Interleave(samples, ch)) == if ch != Right then samples else seq(|samples|, _ => 0)
  {
    var f := Interleave(samples, ch);
    var n := |samples|;
    assert (2 * n + 1) / 2 == n;
    var zeros: seq<Int16> := seq(n, _ => 0);
    forall k | 0 <= k < n
      ensures Evens(f)[k] == (if ch != Right then samples[k] else zeros[k])
    {
      assert Evens(f)[k] == f[2 * k];
      InterleaveAt(samples, ch, k);
    }
  }

  /** ... and the right words are the samples unless only the left
      channel was written. */
  lemma OddsInterleave(samples: seq<Int16>, ch: Channel)
    ensures Odds(Interleave(samples, ch)) == if ch != Left then samples else seq(|samples|, _ => 0)
  {
    var f := Interleave(samples, ch);
    var n := |samples|;
    var zeros: seq<Int16> := seq(n, _ => 0);
    var want := if ch != Left then samples else zeros;
    assert |Odds(f)| == n == |want|;
    forall k | 0 <= k < n
      ensures Odds(f)[k] == want[k]
    {
      OddAt(samples, ch, k);
    }
  }

  lemma OddAt(samples: seq<Int16>, ch: Channel, k: nat)
    requires k < |samples|
    ensures Odds(Interleave(samples, ch))[k] == if ch != Left then samples[k] else 0
  {
    assert Odds(Interleave(samples, ch))[k] == Interleave(samples, ch)[2 * k + 1];
    InterleaveAt(samples, ch, k);
  }

  /** The messages `addSinkSamples` cuts a byte buffer into: full
      256-byte messages, then the remainder if any. */
  function Chunks(b: seq<byte>): (cs: seq<seq<byte>>)
    ensures forall k :: 0 <= k < |cs| ==> 0 < |cs[k]| <= SampleBufferSize
    ensures forall k :: 0 <= k < |cs| - 1 ==> |cs[k]| == SampleBufferSize
    decreases |b|
  {
    if |b| == 0 then []
    else if |b| <= SampleBufferSize then [b]
    else [b[..SampleBufferSize]] + Chunks(b[SampleBufferSize..])
  }

  function Flatten(cs: seq<seq<byte>>): seq<byte>
  {
    if |cs| == 0 then [] else cs[0] + Flatten(cs[1..])
  }

  /** The messages hold the buffer's bytes in order, none lost. */
  lemma {:induction false} ChunksCover(b: seq<byte>)
    ensures Flatten(Chunks(b)) == b
    decreases |b|
  {
    if |b| > SampleBufferSize {
      ChunksCover(b[SampleBufferSize..]);
      assert b == b[..SampleBufferSize] + b[SampleBufferSize..];
    }
  }

  /** A send's outcome: the output queue afterwards and the returned flag. */
  datatype Sent = Sent(sink: seq<seq<byte>>, ok: bool)

  /** `addRawSinkSamples(samples, count)`: a count above the message size,
      or a negative one (which the comparison with the unsigned size turns
      into a huge one), is refused; otherwise the message goes to the
      queue when the queue accepts it. */
  function AddRawSinkSamples(sink: seq<seq<byte>>, samples: seq<byte>, count: int, accepted: bool): (r: Sent)
    requires count <= |samples|
    ensures r.ok <==> 0 <= count <= SampleBufferSize && accepted
    ensures r.ok ==> r.sink == sink + [samples[..count]]
    ensures !r.ok ==> r.sink == sink
  {
    if count < 0 || count > SampleBufferSize then Sent(sink, false)
    else if accepted then Sent(sink + [samples[..count]], true)
    else Sent(sink, false)
  }

  /** The number of leading messages the queue accepts out of `n`. */
  function Accepted(n: nat, accept: nat -> bool): (k: nat)
    ensures k <= n && (forall j :: 0 <= j < k ==> accept(j)) && (k < n ==> !accept(k))
  {
    if n == 0 then 0
    else
      var k := Accepted(n - 1, accept);
      if k < n - 1 || accept(n - 1) then (if k < n - 1 then k else n) else n - 1
  }

  /** `addSinkSamples(samples, sample_count, channel)`: the interleaved
      frames' bytes go out message by message; the first message the
      queue refuses (`accept(k)` false for the `k`-th one) ends the send
      with `false`, the messages before it having been queued. */
  method AddSinkSamples(sink: seq<seq<byte>>, samples: seq<Int16>, ch: Channel, accept: nat -> bool)
    returns (r: Sent)
    ensures var cs := Chunks(Bytes(Interleave(samples, ch)));
      var k := Accepted(|cs|, accept);
      r.sink == sink + cs[..k] && (r.ok <==> k == |cs|)
  {
    var bytes := Bytes(Interleave(samples, ch));
    ghost var cs := Chunks(bytes);
    var rest := bytes;
    var k := 0;
    r := Sent(sink, true);
    while |rest| > 0
      invariant k <= |cs| && Chunks(rest) == cs[k..]
      invariant r.ok && r.sink == sink + cs[..k] && forall j :: 0 <= j < k ==> accept(j)
      decreases |rest|
    {
      var n := if |rest| > SampleBufferSize then SampleBufferSize else |rest|;
      var s := AddRawSinkSamples(r.sink, rest, n, accept(k));
      if !s.ok {
        assert k < |cs| && !accept(k);
        return Sent(r.sink, false);
      }
      assert Chunks(rest)[0] == rest[..n];
      assert cs[..k + 1] == cs[..k] + [rest[..n]];
      r := s;
      rest := rest[n..];
      k := k + 1;
    }
    assert k == |cs|;
  }

  /** The input side: the two channel queues and the messages the input
      task has yet to deliver. */
  datatype Source = Source(left: seq<Int16>, right: seq<Int16>, incoming: seq<seq<byte>>)

  /** Each channel queue is within its capacity and each message fits the
      message buffer. */
  predicate Valid(st: Source)
  {
    && |st.left| <= MaxQueueSize && |st.right| <= MaxQueueSize
    && forall k :: 0 <= k < |st.incoming| ==> |st.incoming[k]| <= SampleBufferSize
  }

  /** The newest `MAX_QUEUE_SIZE` entries of what was pushed, oldest first. */
  function Keep(q: seq<Int16>): (r: seq<Int16>)
    ensures |r| <= MaxQueueSize
  {
    if |q| > MaxQueueSize then q[|q| - MaxQueueSize..] else q
  }

  /** A push onto a channel queue: a full queue drops its oldest entry
      first. */
  function Push(q: seq<Int16>, x: Int16): (r: seq<Int16>)
    ensures |q| <= MaxQueueSize ==> |r| <= MaxQueueSize
  {
    (if |q| >= MaxQueueSize then q[1..] else q) + [x]
  }

  /** Pushing onto the kept entries keeps the newest entries of the
      longer history. */
  lemma KeepPush(q: seq<Int16>, x: Int16)
    ensures Push(Keep(q), x) == Keep(q + [x])
  {
  }

  /** One more word of a message pushed onto its channel's queue. */
  lemma FillStep(left: seq<Int16>, right: seq<Int16>, w: seq<Int16>, i: nat)
    requires i < |w|
    ensures i % 2 == 0 ==> Keep(left + Evens(w[..i + 1])) == Push(Keep(left + Evens(w[..i])), w[i])
    ensures i % 2 == 0 ==> Keep(right + Odds(w[..i + 1])) == Keep(right + Odds(w[..i]))
    ensures i % 2 == 1 ==> Keep(right + Odds(w[..i + 1])) == Push(Keep(right + Odds(w[..i])), w[i])
    ensures i % 2 == 1 ==> Keep(left + Evens(w[..i + 1])) == Keep(left + Evens(w[..i]))
  {
    if i % 2 == 0 {
      assert Evens(w[..i + 1]) == Evens(w[..i]) + [w[i]];
      assert Odds(w[..i + 1]) == Odds(w[..i]);
      assert left + Evens(w[..i + 1]) == left + Evens(w[..i]) + [w[i]];
      KeepPush(left + Evens(w[..i]), w[i]);
    } else {
      assert Odds(w[..i + 1]) == Odds(w[..i]) + [w[i]];
      assert Evens(w[..i + 1]) == Evens(w[..i]);
      assert right + Odds(w[..i + 1]) == right + Odds(w[..i]) + [w[i]];
      KeepPush(right + Odds(w[..i]), w[i]);
    }
  }

  /** The loop of `fillSampleQueue`: word `i` of a message goes to the
      left queue when `i` is even and to the right one when it is odd. */
  method Deal(left0: seq<Int16>, right0: seq<Int16>, words: seq<Int16>) returns (left: seq<Int16>, right: seq<Int16>)
    requires |left0| <= MaxQueueSize && |right0| <= MaxQueueSize
    ensures left == Keep(left0 + Evens(words)) && right == Keep(right0 + Odds(words))
  {
    left, right := left0, right0;
    var i := 0;
    while i < |words|
      invariant 0 <= i <= |words|
      invariant left == Keep(left0 + Evens(words[..i]))
      invariant right == Keep(right0 + Odds(words[..i]))
    {
      left, right := DealOne(left0, right0, words, i, left, right);
      i := i + 1;
    }
    assert words[..i] == words;
  }

  /** One pass of that loop. */
  method DealOne(left0: seq<Int16>, right0: seq<Int16>, words: seq<Int16>, i: nat, left: seq<Int16>, right: seq<Int16>)
    returns (left': seq<Int16>, right': seq<Int16>)
    requires i < |words|
    requires left == Keep(left0 + Evens(words[..i])) && right == Keep(right0 + Odds(words[..i]))
    ensures left' == Keep(left0 + Evens(words[..i + 1])) && right' == Keep(right0 + Odds(words[..i + 1]))
  {
    FillStep(left0, right0, words, i);
    if i % 2 == 0 {
      left', right' := Push(left, words[i]), right;
    } else {
      left', right' := left, Push(right, words[i]);
    }
  }

  /** `fillSampleQueue()`: takes the next message; an absent or empty one
      makes it return `false` with the queues untouched; otherwise each
      even word is pushed onto the left queue and each odd word onto the
      right one, a full queue dropping its oldest entry first. */
  method FillSampleQueue(st: Source) returns (r: Source, ok: bool)
    requires Valid(st)
    ensures Valid(r)
    ensures ok <==> |st.incoming| > 0 && |st.incoming[0]| > 0
    ensures r.incoming == if |st.incoming| == 0 then [] else st.incoming[1..]
    ensures !ok ==> r.left == st.left && r.right == st.right
    ensures ok ==>
      && r.left == Keep(st.left + Evens(Words(st.incoming[0])))
      && r.right == Keep(st.right + Odds(Words(st.incoming[0])))
  {
    if |st.incoming| == 0 {
      return st, false;
    }
    var message := st.incoming[0];
    var rest := st.incoming[1..];
    if |message| == 0 {
      return st.(incoming := rest), false;
    }
    var left, right := Deal(st.left, st.right, Words(message));
    r, ok := Source(left, right, rest), true;
  }

  /** The channel queue `getSourceSamples` reads. */
  function Queue(st: Source, ch: Channel): seq<Int16>
  {
    if ch == Left then st.left else st.right
  }

  /** The channel's words in a message. */
  function Lane(words: seq<Int16>, ch: Channel): seq<Int16>
  {
    if ch == Left then Evens(words) else Odds(words)
  }

  /** The channel's samples the input side can still deliver without a
      refill failing: the queue, then the channel's words of each message
      up to the first empty one. */
  function Stream(incoming: seq<seq<byte>>, ch: Channel): seq<Int16>
  {
    if |incoming| == 0 || |incoming[0]| == 0 then []
    else Lane(Words(incoming[0]), ch) + Stream(incoming[1..], ch)
  }

  function Available(st: Source, ch: Channel): seq<Int16>
  {
    Queue(st, ch) + Stream(st.incoming, ch)
  }

  /** `getSourceSamples(samples, sample_count, channel)`: BOTH is refused
      with nothing read; otherwise samples are popped from the channel's
      queue, refilling it when empty, until `sample_count` are read or a
      refill fails. It reports success even when it reads fewer: the
      samples are the first `sample_count` the channel has, or all of them,
      and a full read leaves the channel with the samples after them. */
  method GetSourceSamples(st: Source, count: nat, ch: Channel) returns (samples: seq<Int16>, r: Source, ok: bool)
    requires Valid(st)
    ensures Valid(r)
    ensures ok <==> ch != Both
    ensures ch == Both ==> samples == [] && r == st
    ensures ch != Both ==>
      samples == Available(st, ch)[..if count < |Available(st, ch)| then count else |Available(st, ch)|]
    ensures ch != Both && count <= |Available(st, ch)| ==> Available(r, ch) == Available(st, ch)[count..]
  {
    if ch == Both {
      return [], st, false;
    }
    ghost var full := Available(st, ch);
    samples := [];
    r := st;
    var stop := false;
    while |samples| < count && !stop
      invariant Valid(r) && |samples| <= count
      invariant stop ==> samples == full && |samples| < count
      invariant !stop ==> samples + Available(r, ch) == full
      decreases !stop, |r.incoming|, |Queue(r, ch)|
    {
      var got;
      ghost var before := r;
      got, r, stop := ReadStep(r, ch);
      if !stop {
        PrefixAdvance(samples, got, Available(before, ch), Available(r, ch), full);
      }
      samples := samples + got;
    }
    PrefixTaken(samples, if stop then [] else Available(r, ch), full, count);
    ok := true;
  }

  lemma PrefixAdvance(done: seq<Int16>, got: seq<Int16>, rest: seq<Int16>, rest': seq<Int16>, full: seq<Int16>)
    requires done + rest == full && got + rest' == rest
    ensures done + got + rest' == full
  {
    assert done + got + rest' == done + (got + rest');
  }

  /** Reading stops with `count` samples or with the input exhausted, so
      what was read is the first `count` available samples, or all of them. */
  lemma PrefixTaken(done: seq<Int16>, rest: seq<Int16>, full: seq<Int16>, count: nat)
    requires done + rest == full && |done| <= count
    requires |done| < count ==> rest == []
    ensures done == full[..if count < |full| then count else |full|]
  {
    assert full[..|done|] == done;
  }

  /** One pass of the reading loop: the front of the channel's queue, or a
      refill when the queue is empty; `stop` when the refill fails. */
  method ReadStep(r: Source, ch: Channel) returns (got: seq<Int16>, r': Source, stop: bool)
    requires Valid(r) && ch != Both
    ensures Valid(r')
    ensures stop ==> got == [] && Available(r, ch) == []
    ensures !stop ==> got + Available(r', ch) == Available(r, ch)
    ensures |Queue(r, ch)| > 0 ==>
      !stop && |got| == 1 && r'.incoming == r.incoming && |Queue(r', ch)| < |Queue(r, ch)|
    ensures |Queue(r, ch)| == 0 ==> got == [] && (stop || |r'.incoming| < |r.incoming|)
  {
    if |Queue(r, ch)| > 0 {
      got, r' := PopFront(r, ch);
      stop := false;
    } else {
      r', stop := Refill(r, ch);
      got := [];
    }
  }

  /** The refill of an empty channel queue; `stop` when it fails. */
  method Refill(r: Source, ch: Channel) returns (r': Source, stop: bool)
    requires Valid(r) && ch != Both && Queue(r, ch) == []
    ensures Valid(r')
    ensures stop ==> Available(r, ch) == []
    ensures !stop ==> Available(r', ch) == Available(r, ch) && |r'.incoming| < |r.incoming|
  {
    var filled;
    r', filled := FillSampleQueue(r);
    stop := !filled;
    RefillAvailable(r, r', ch, filled);
  }

  /** The front of a non-empty channel queue. */
  method PopFront(r: Source, ch: Channel) returns (got: seq<Int16>, r': Source)
    requires Valid(r) && ch != Both && |Queue(r, ch)| > 0
    ensures Valid(r') && r'.incoming == r.incoming
    ensures |got| == 1 && |Queue(r', ch)| < |Queue(r, ch)|
    ensures got + Available(r', ch) == Available(r, ch)
  {
    var q := Queue(r, ch);
    got := [q[0]];
    r' := if ch == Left then r.(left := q[1..]) else r.(right := q[1..]);
    assert q == got + Queue(r', ch);
  }

  /** A refill of an empty channel queue moves the next message's lane
      into the queue; a failed one means nothing is available. */
  lemma RefillAvailable(r: Source, r': Source, ch: Channel, filled: bool)
    requires Valid(r) && ch != Both && Queue(r, ch) == []
    requires filled <==> |r.incoming| > 0 && |r.incoming[0]| > 0
    requires r'.incoming == if |r.incoming| == 0 then [] else r.incoming[1..]
    requires filled ==>
      && r'.left == Keep(r.left + Evens(Words(r.incoming[0])))
      && r'.right == Keep(r.right + Odds(Words(r.incoming[0])))
    ensures !filled ==> Available(r, ch) == []
    ensures filled ==> Available(r', ch) == Available(r, ch)
  {
    if filled {
      var lane := Lane(Words(r.incoming[0]), ch);
      assert |lane| <= MaxQueueSize;
      assert Queue(r', ch) == Keep([] + lane) == lane;
    }
  }

  lemma WordsAppend(a: seq<byte>, b: seq<byte>)
    requires |a| % 2 == 0
    ensures Words(a + b) == Words(a) + Words(b)
  {
    var w := Words(a + b);
    forall i | 0 <= i < |w|
      ensures w[i] == (Words(a) + Words(b))[i]
    {
      if i < |a| / 2 {
        assert (a + b)[2 * i] == a[2 * i] && (a + b)[2 * i + 1] == a[2 * i + 1];
      } else {
        var j := i - |a| / 2;
        assert (a + b)[2 * i] == b[2 * j] && (a + b)[2 * i + 1] == b[2 * j + 1];
      }
    }
  }

  lemma LaneAppend(w1: seq<Int16>, w2: seq<Int16>, ch: Channel)
    requires |w1| % 2 == 0
    ensures Lane(w1 + w2, ch) == Lane(w1, ch) + Lane(w2, ch)
  {
    if ch == Left {
      EvensAppend(w1, w2);
    } else {
      OddsAppend(w1, w2);
    }
  }

  lemma EvensAppend(w1: seq<Int16>, w2: seq<Int16>)
    requires |w1| % 2 == 0
    ensures Evens(w1 + w2) == Evens(w1) + Evens(w2)
  {
    var w, h := w1 + w2, |w1| / 2;
    assert (|w| + 1) / 2 == h + (|w2| + 1) / 2;
    forall k | h <= k < (|w| + 1) / 2
      ensures Evens(w)[k] == Evens(w2)[k - h]
    {
      assert w[2 * k] == w2[2 * (k - h)];
    }
  }

  lemma OddsAppend(w1: seq<Int16>, w2: seq<Int16>)
    requires |w1| % 2 == 0
    ensures Odds(w1 + w2) == Odds(w1) + Odds(w2)
  {
    var w, h := w1 + w2, |w1| / 2;
    assert |w| / 2 == h + |w2| / 2;
    forall k | h <= k < |w| / 2
      ensures Odds(w)[k] == Odds(w2)[k - h]
    {
      assert w[2 * k + 1] == w2[2 * (k - h) + 1];
    }
  }

  /** Reading a channel back from the messages of an even-length buffer
      gives that channel's words of the whole buffer. */
  lemma {:induction false} StreamChunks(b: seq<byte>, ch: Channel)
    requires |b| % 2 == 0
    ensures Stream(Chunks(b), ch) == Lane(Words(b), ch)
    decreases |b|
  {
    if |b| > SampleBufferSize {
      DivModUnique(|b|, 2, |b| / 2, 0);
      DivModUnique(|b| - SampleBufferSize, 2, |b| / 2 - 128, 0);
      StreamChunks(b[SampleBufferSize..], ch);
      StreamChunksStep(b, ch);
    } else if |b| > 0 {
      assert Chunks(b) == [b] + [];
      StreamCons(b, [], ch);
    }
  }

  /** The first full message followed by the messages of the rest. */
  lemma StreamChunksStep(b: seq<byte>, ch: Channel)
    requires |b| > SampleBufferSize
    requires Stream(Chunks(b[SampleBufferSize..]), ch) == Lane(Words(b[SampleBufferSize..]), ch)
    ensures Stream(Chunks(b), ch) == Lane(Words(b), ch)
  {
    var head, tail := b[..SampleBufferSize], b[SampleBufferSize..];
    var wh, wt := Words(head), Words(tail);
    assert Chunks(b) == [head] + Chunks(tail);
    StreamCons(head, Chunks(tail), ch);
    assert b == head + tail;
    WordsAppend(head, tail);
    DivModUnique(|wh|, 2, 64, 0);
    LaneAppend(wh, wt, ch);
    calc {
      Stream(Chunks(b), ch);
      Stream([head] + Chunks(tail), ch);
      Lane(wh, ch) + Stream(Chunks(tail), ch);
      Lane(wh, ch) + Lane(wt, ch);
      Lane(wh + wt, ch);
      Lane(Words(b), ch);
    }
  }

  /** A non-empty message in front contributes its lane first. */
  lemma StreamCons(m: seq<byte>, rest: seq<seq<byte>>, ch: Channel)
    requires |m| > 0
    ensures Stream([m] + rest, ch) == Lane(Words(m), ch) + Stream(rest, ch)
  {
    assert ([m] + rest)[1..] == rest;
  }

  lemma AvailableFromEmpty(incoming: seq<seq<byte>>, ch: Channel)
    ensures Available(Source([], [], incoming), ch) == Stream(incoming, ch)
  {
  }

  /** Output and input framing agree: when the messages `addSinkSamples`
      sends come back as the input messages, each channel reads back the
      samples if that channel was written, and silence otherwise. */
  lemma Loopback(samples: seq<Int16>, ch: Channel, rd: Channel)
    requires rd != Both
    ensures Available(Source([], [], Chunks(Bytes(Interleave(samples, ch)))), rd) ==
      if (rd == Left && ch != Right) || (rd == Right && ch != Left) then samples else seq(|samples|, _ => 0)
  {
    var f := Interleave(samples, ch);
    var msgs := Chunks(Bytes(f));
    AvailableFromEmpty(msgs, rd);
    DivModUnique(|Bytes(f)|, 2, |f|, 0);
    StreamChunks(Bytes(f), rd);
    WordsBytes(f);
    if rd == Left {
      assert Lane(f, rd) == Evens(f);
      EvensInterleave(samples, ch);
    } else {
      assert Lane(f, rd) == Odds(f);
      OddsInterleave(samples, ch);
    }
  }
}
