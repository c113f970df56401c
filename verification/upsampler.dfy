/** `Upsampler`, the sample source that raises the modem's rate to the
    codec's by zero stuffing: every `factor`-th output frame pulls one
    frame from the input and puts its left sample into the interpolation
    filter, the others put a zero; each output's left sample is the filter
    output scaled by `factor`. The filter is a parameter: a function from
    everything put into it so far to the value `get()` returns. */
module Upsampler {
  import opened Bits
  import opened QueueGenerator

  /** The upsampler's state: the factor, the zero-stuffing counter
      (`m_sample_count`), how many input frames it has pulled, and every
      value it has put into the filter. */
  datatype Upsampler = Upsampler(factor: int, count: int, pulled: nat, puts: seq<int>)

  /** The counter starts at 0 and the update keeps it non-negative and,
      for a positive factor, below the factor. */
  predicate Valid(u: Upsampler)
  {
    u.factor >= 0 && u.count >= 0 && (u.factor >= 1 ==> u.count < u.factor)
  }

  /** The constructor: `factor` is the integer quotient of the output rate
      by the input rate. */
  function Create(outRate: nat, inRate: nat): (u: Upsampler)
    requires inRate > 0
    ensures Valid(u) && u.count == 0 && u.pulled == 0 && u.puts == []
    ensures u.factor * inRate <= outRate < (u.factor + 1) * inRate
  {
    Upsampler(outRate / inRate, 0, 0, [])
  }

  /** The counter update: one up, wrapping to 0 after `factor - 1`. */
  function NextCount(c: int, f: int): int
  {
    if c < f - 1 then c + 1 else 0
  }

  /** The counter after `i` frames. */
  function CountAt(c: int, i: nat, f: int): int
  {
    if i == 0 then c else NextCount(CountAt(c, i - 1, f), f)
  }

  /** How many input frames the first `n` frames pull. */
  function Pulls(c: int, n: nat, f: int): nat
  {
    if n == 0 then 0 else Pulls(c, n - 1, f) + (if CountAt(c, n - 1, f) == 0 then 1 else 0)
  }

  /** The value put into the filter on frame `i`: the next input frame's
      left sample when the counter is 0, and 0 otherwise. */
  function PutAt(c: int, pulled: nat, i: nat, f: int, input: nat -> Int16): int
  {
    if CountAt(c, i, f) == 0 then input(pulled + Pulls(c, i, f)) as int else 0
  }

  /** Everything the first `n` frames put into the filter. */
  function Fed(c: int, pulled: nat, n: nat, f: int, input: nat -> Int16): (r: seq<int>)
    ensures |r| == n
  {
    if n == 0 then [] else Fed(c, pulled, n - 1, f, input) + [PutAt(c, pulled, n - 1, f, input)]
  }

  /** A floating value converted to an integer: the fraction is dropped,
      rounding toward zero. */
  function Trunc(x: real): (r: int)
    ensures x >= 0.0 ==> r >= 0 && r as real <= x < r as real + 1.0
    ensures x < 0.0 ==> r <= 0 && r as real - 1.0 < x <= r as real
  {
    if x >= 0.0 then x.Floor else -((-x).Floor)
  }

  /** An integer stored into an `int16_t`, as a wrap modulo 2^16. */
  function Wrap16(x: int): (r: Int16)
    ensures -0x8000 <= x < 0x8000 ==> r == x
    ensures (r - x) % 0x1_0000 == 0
  {
    (x + 0x8000) % 0x1_0000 - 0x8000
  }

  /** The left sample made from a filter output: the output times the
      factor, truncated toward zero, stored into an `int16_t`. */
  function Scaled(out: real, factor: int): Int16
  {
    Wrap16(Trunc(out * factor as real))
  }

  /** The frame produced on step `i`: the filter's output over everything
      put so far, times the factor, on the left; silence on the right. */
  function FrameAt(u: Upsampler, i: nat, input: nat -> Int16, filter: seq<int> -> real): Frame
  {
    Frame(Scaled(filter(u.puts + Fed(u.count, u.pulled, i + 1, u.factor, input)), u.factor), 0)
  }

  /** `getFrames(frames, number_frames)`. */
  method GetFrames(u: Upsampler, count: int, input: nat -> Int16, filter: seq<int> -> real)
    returns (frames: seq<Frame>, r: Upsampler)
    requires Valid(u)
    ensures Valid(r) && r.factor == u.factor
    ensures var n := if count < 0 then 0 else count;
      && |frames| == n
      && r.count == CountAt(u.count, n, u.factor)
      && r.pulled == u.pulled + Pulls(u.count, n, u.factor)
      && r.puts == u.puts + Fed(u.count, u.pulled, n, u.factor, input)
      && forall i :: 0 <= i < n ==> frames[i] == FrameAt(u, i, input, filter)
  {
    frames := [];
    r := u;
    var i := 0;
    while i < count
      invariant 0 <= i <= if count < 0 then 0 else count
      invariant Valid(r) && r.factor == u.factor && |frames| == i
      invariant r.count == CountAt(u.count, i, u.factor)
      invariant r.pulled == u.pulled + Pulls(u.count, i, u.factor)
      invariant r.puts == u.puts + Fed(u.count, u.pulled, i, u.factor, input)
      invariant forall j :: 0 <= j < i ==> frames[j] == FrameAt(u, j, input, filter)
    {
      var put: int;
      var pulled := r.pulled;
      if r.count == 0 {
        put := input(r.pulled);
        pulled := pulled + 1;
      } else {
        put := 0;
      }
      assert put == PutAt(u.count, u.pulled, i, u.factor, input);
      r := Upsampler(r.factor, NextCount(r.count, r.factor), pulled, r.puts + [put]);
      frames := frames + [Frame(Scaled(filter(r.puts), r.factor), 0)];
      i := i + 1;
    }
  }

  /** Each value put follows the zero-stuffing rule: with a positive
      factor, an input sample on every frame whose index is a multiple of
      the factor past the counter's start, in input order, and 0 on the
      others. */
  lemma FedRule(c: int, pulled: nat, n: nat, f: int, input: nat -> Int16, i: nat)
    requires f >= 1 && 0 <= c < f && i < n
    ensures var k := (c + i + f - 1) / f - (c + f - 1) / f;
      && k >= 0
      && Fed(c, pulled, n, f, input)[i] == (if (c + i) % f == 0 then input(pulled + k) as int else 0)
  {
    FedPrefix(c, pulled, n, f, input, i);
    CountCyclic(c, i, f);
    PullsClosed(c, i, f);
  }

  lemma {:induction false} FedPrefix(c: int, pulled: nat, n: nat, f: int, input: nat -> Int16, i: nat)
    requires i < n
    ensures Fed(c, pulled, n, f, input)[i] == PutAt(c, pulled, i, f, input)
  {
    if i < n - 1 {
      FedPrefix(c, pulled, n - 1, f, input, i);
    }
  }

  /** For a positive factor the counter runs cyclically through
      `0 .. factor - 1`. */
  lemma {:induction false} CountCyclic(c: int, i: nat, f: int)
    requires f >= 1 && 0 <= c < f
    ensures CountAt(c, i, f) == (c + i) % f
  {
    if i > 0 {
      CountCyclic(c, i - 1, f);
      ModSucc(c + i - 1, f);
    }
  }

  /** Counting up modulo `f`. */
  lemma ModSucc(x: nat, f: int)
    requires f >= 1
    ensures (x + 1) % f == NextCount(x % f, f)
  {
    var q, p := x / f, x % f;
    if p < f - 1 {
      DivModUnique(x + 1, f, q, p + 1);
    } else {
      DivModUnique(x + 1, f, q + 1, 0);
    }
  }

  /** One step past a multiple of `f` raises `(x + f) / f` over
      `(x + f - 1) / f` by one, any other step leaves it. */
  lemma CeilStep(x: nat, f: int)
    requires f >= 1
    ensures (x + f) / f - (x + f - 1) / f == if x % f == 0 then 1 else 0
  {
    var q := x / f;
    var r := x % f;
    assert x == f * q + r;
    DivModUnique(x + f, f, q + 1, r);
    if r == 0 {
      DivModUnique(x + f - 1, f, q, f - 1);
    } else {
      DivModUnique(x + f - 1, f, q + 1, r - 1);
    }
  }

  /** The number of pulls among the first `n` frames, in closed form: the
      multiples of `f` in `c .. c + n - 1`. */
  lemma {:induction false} PullsClosed(c: int, n: nat, f: int)
    requires f >= 1 && 0 <= c < f
    ensures Pulls(c, n, f) == (c + n + f - 1) / f - (c + f - 1) / f
  {
    if n > 0 {
      PullsClosed(c, n - 1, f);
      CountCyclic(c, n - 1, f);
      CeilStep(c + n - 1, f);
    }
  }

  /** From a fresh counter, `k * factor` output frames consume exactly `k`
      input frames. */
  lemma OneInputPerFactor(k: nat, f: int)
    requires f >= 1
    ensures Pulls(0, k * f, f) == k
  {
    PullsClosed(0, k * f, f);
    DivModUnique(k * f + f - 1, f, k, f - 1);
    DivModUnique(f - 1, f, 0, f - 1);
  }

  /** With a zero factor (an output rate below the input rate) the
      counter stays at 0 and every frame pulls an input. */
  lemma {:induction false} ZeroFactorPullsAll(n: nat)
    ensures CountAt(0, n, 0) == 0 && Pulls(0, n, 0) == n
  {
    if n > 0 {
      ZeroFactorPullsAll(n - 1);
    }
  }
}
