/** Tone-layout arithmetic shared by the OFDM encoder and decoder: carrier
    to FFT-bin mapping, the comb-pilot columns, and the carriers that the
    tone-reservation kernel and the metadata comb occupy. */
module Tones {
  import opened Bits

  /** The firmware instantiates both codecs at 8000 samples per second,
      where `symbol_len = (1280 * rate) / 8000` is 1280 samples and
      `guard_len = symbol_len / 8` is 160. */
  const Rate: int := 8000
  const SymbolLen: int := 1280
  const GuardLen: int := 160
  const ExtendedLen: int := SymbolLen + GuardLen
  const Mls0Len: int := 127
  const Mls1Len: int := 255

  /** `bin(carrier)`: the FFT bin of a carrier, `(carrier + symbol_len) %
      symbol_len` with C's truncating `%`. It is the carrier's residue
      exactly when the carrier is at least `-symbol_len` (or a multiple of
      it); further down it is negative. */
  function Bin(carrier: int): (b: int)
    ensures carrier >= -SymbolLen ==> 0 <= b < SymbolLen && b == carrier % SymbolLen
    ensures carrier < -SymbolLen && carrier % SymbolLen != 0 ==> b < 0
  {
    CModAgainstEuclid(carrier + SymbolLen, SymbolLen);
    CMod(carrier + SymbolLen, SymbolLen)
  }

  /** Two carriers in `bin`'s valid range that are closer than a symbol
      length land in different bins. */
  lemma BinInjective(c1: int, c2: int)
    requires c1 >= -SymbolLen && c2 >= -SymbolLen
    requires c1 != c2 && -SymbolLen < c1 - c2 < SymbolLen
    ensures Bin(c1) != Bin(c2)
  {
  }

  /** `nrz(bit) = 1 - 2 * bit`: +1 for a clear bit, -1 for a set one. */
  function Nrz(bit: bool): (r: int)
    ensures r == 1 || r == -1
    ensures r < 0 <==> bit
  {
    1 - 2 * (if bit then 1 else 0)
  }

  /** `x * nrz(bit)`: `x` itself for a clear bit, its negation for a set
      one (`TimesIsProduct`). */
  function Times(x: real, bit: bool): real
  {
    if bit then -x else x
  }

  lemma TimesIsProduct(x: real, bit: bool)
    ensures Times(x, bit) == x * (Nrz(bit) as real)
  {
  }

  /** A loaded `nrz` value times a tone is that tone times `nrz`. */
  lemma NrzTimes(n: real, x: real, bit: bool)
    requires n == Nrz(bit) as real
    ensures n * x == Times(x, bit)
  {
  }

  /** Multiplying by the same `nrz` twice is the identity. */
  lemma TimesTwice(x: real, bit: bool)
    ensures Times(Times(x, bit), bit) == x
  {
  }

  /** `comb_dist`: columns between comb pilots, 1 without a comb. */
  function CombDist(consCols: int, combCols: int): int
  {
    if combCols != 0 then CDiv(consCols, combCols) else 1
  }

  /** `comb_off`: column of the first comb pilot, 1 without a comb. */
  function CombOff(consCols: int, combCols: int): int
  {
    if combCols != 0 then CDiv(CombDist(consCols, combCols), 2) else 1
  }

  /** The encoder's and decoder's comb test `i % comb_dist == comb_off`. */
  predicate IsCombColumn(i: int, dist: int, off: int)
    requires dist != 0
  {
    CMod(i, dist) == off
  }

  /** The pilot columns `d * i + o` for `i < cc` are exactly the columns
      below `n` whose residue modulo `d` is `o`, when the `cc` periods of
      `d` columns end at most `o` columns before `n`. */
  lemma {:induction false} CombColumnsGeneral(n: int, cc: nat, d: int, o: int)
    requires d > 0 && 0 <= o < d
    requires d * cc <= n <= d * cc + o
    ensures (set i | 0 <= i < cc :: d * i + o) == (set x | 0 <= x < n && x % d == o)
  {
    var lhs := set i | 0 <= i < cc :: d * i + o;
    var rhs := set x | 0 <= x < n && x % d == o;
    forall x | x in lhs
      ensures x in rhs
    {
      var i :| 0 <= i < cc && x == d * i + o;
      MulMonotone(d, i + 1, cc);
      assert d * (i + 1) == d * i + d;
      DivModUnique(x, d, i, o);
    }
    forall x | x in rhs
      ensures x in lhs
    {
      var q := x / d;
      assert x == d * q + o;
      if q >= cc {
        MulMonotone(d, cc, q);
        assert false;
      }
      if q < 0 {
        MulMonotone(d, q, -1);
        assert false;
      }
      assert 0 <= q < cc;
    }
  }

  lemma MulMonotone(d: int, a: int, b: int)
    requires d >= 0 && a <= b
    ensures d * a <= d * b
  {
    var k := b - a;
    assert d * b == d * a + d * k;
  }

  /** With a comb, the pilot columns the decoder visits as
      `comb_dist * i + comb_off` for `i < comb_cols` are exactly the
      columns below `cons_cols` that pass the comb test, provided the last
      period ends at most `comb_off` columns early. */
  lemma CombColumns(consCols: int, combCols: int)
    requires 0 < combCols <= consCols
    requires consCols - CombDist(consCols, combCols) * combCols <= CombOff(consCols, combCols)
    ensures var d, o := CombDist(consCols, combCols), CombOff(consCols, combCols);
      (set i | 0 <= i < combCols :: d * i + o)
        == (set i | 0 <= i < consCols && IsCombColumn(i, d, o))
  {
    var d, o := CombDist(consCols, combCols), CombOff(consCols, combCols);
    CModAgainstEuclid(consCols, combCols);
    assert consCols == combCols * d + consCols % combCols;
    assert d * combCols <= consCols;
    assert d >= 1 by {
      if d < 1 {
        MulMonotone(combCols, d, 0);
        assert false;
      }
    }
    CModAgainstEuclid(d, 2);
    CombColumnsGeneral(consCols, combCols, d, o);
    var rhs := set i | 0 <= i < consCols && IsCombColumn(i, d, o);
    var rhs' := set x | 0 <= x < consCols && x % d == o;
    forall x | 0 <= x < consCols
      ensures IsCombColumn(x, d, o) <==> x % d == o
    {
      CModAgainstEuclid(x, d);
    }
    assert rhs == rhs';
  }

  /** Without a comb (`comb_dist = 1`, `comb_off = 1`) no column passes the
      comb test. */
  lemma NoCombColumns(consCols: int, i: int)
    requires 0 <= i
    ensures !IsCombColumn(i, CombDist(consCols, 0), CombOff(consCols, 0))
  {
    CModAgainstEuclid(i, 1);
  }

  /** Columns below `n` that carry code bits: every column, or when
      `skipComb` holds, the ones off the comb. */
  function DataColumns(n: nat, dist: int, off: int, skipComb: bool): nat
    requires dist != 0
  {
    if n == 0 then 0
    else DataColumns(n - 1, dist, off, skipComb)
         + (if skipComb && IsCombColumn(n - 1, dist, off) then 0 else 1)
  }

  lemma {:induction false} DataColumnsNoSkip(n: nat, dist: int, off: int)
    requires dist != 0
    ensures DataColumns(n, dist, off, false) == n
  {
    if n > 0 {
      DataColumnsNoSkip(n - 1, dist, off);
    }
  }

  lemma CombColumnAt(x: int, d: int, o: int, q: int, r: int)
    requires d > 0 && 0 <= r < d && x == d * q + r && x >= 0
    ensures IsCombColumn(x, d, o) <==> r == o
  {
    DivModUnique(x, d, q, r);
    CModAgainstEuclid(x, d);
  }

  /** Counting the comb columns period by period: in `k` full periods of
      `d` columns and `j` more, one column per period is a pilot, plus one
      if the partial period reaches the offset. */
  lemma {:induction false} DataColumnsComb(n: nat, k: nat, j: nat, d: int, o: int)
    requires d > 0 && 0 <= o < d && j < d && n == k * d + j
    ensures DataColumns(n, d, o, true) == n - k - (if j > o then 1 else 0)
    decreases n
  {
    if n == 0 {
      return;
    }
    if j > 0 {
      DataColumnsComb(n - 1, k, j - 1, d, o);
      CombStepInside(n, k, j, d, o);
    } else {
      PeriodBack(n, k, d);
      DataColumnsComb(n - 1, k - 1, d - 1, d, o);
      CombStepPeriod(n, k, d, o);
    }
  }

  /** Inside a period, column `n - 1` is a pilot exactly at the offset. */
  lemma CombStepInside(n: nat, k: nat, j: nat, d: int, o: int)
    requires d > 0 && 0 <= o < d && 0 < j < d && n == k * d + j
    requires DataColumns(n - 1, d, o, true) == n - 1 - k - (if j - 1 > o then 1 else 0)
    ensures DataColumns(n, d, o, true) == n - k - (if j > o then 1 else 0)
  {
    CombColumnAt(n - 1, d, o, k, j - 1);
  }

  /** The last column of a period is a pilot exactly when the offset is
      the period's last index. */
  lemma CombStepPeriod(n: nat, k: nat, d: int, o: int)
    requires d > 0 && 0 <= o < d && k >= 1 && n == k * d && n - 1 == d * (k - 1) + (d - 1)
    requires DataColumns(n - 1, d, o, true) == n - 1 - (k - 1) - (if d - 1 > o then 1 else 0)
    ensures DataColumns(n, d, o, true) == n - k
  {
    CombColumnAt(n - 1, d, o, k - 1, d - 1);
  }

  /** A positive multiple of `d` is one full period past the previous. */
  lemma PeriodBack(n: nat, k: nat, d: int)
    requires d > 0 && n > 0 && n == k * d
    ensures k >= 1 && n - 1 == d * (k - 1) + (d - 1)
  {
    MulSucc(k - 1, d);
  }

  /** The tone-reservation loop of `configure`: `reserved` carriers, one
      after the other from `j`, jumping by `cons_cols` when the data band
      at `code_off` is reached. */
  function ReservedLoop(i: int, j: int, reserved: int, codeOff: int, consCols: int): seq<int>
    decreases reserved - i
  {
    if i >= reserved then []
    else
      var j' := if j == codeOff then j + consCols else j;
      [j'] + ReservedLoop(i + 1, j' + 1, reserved, codeOff, consCols)
  }

  /** Carriers of the tone-reservation kernel: they start
      `reserved_tones / 2` below the data band. */
  function ReservedCarriers(codeOff: int, consCols: int, reserved: int): seq<int>
  {
    ReservedLoop(0, codeOff - CDiv(reserved, 2), reserved, codeOff, consCols)
  }

  lemma {:induction false} ReservedLoopShape(i: int, j: int, reserved: int, codeOff: int, consCols: int)
    requires consCols > 0
    ensures var r := ReservedLoop(i, j, reserved, codeOff, consCols);
      && |r| == (if i < reserved then reserved - i else 0)
      && forall t :: 0 <= t < |r| ==>
           r[t] == j + t + (if j <= codeOff <= j + t then consCols else 0)
    decreases reserved - i
  {
    if i < reserved {
      var j' := if j == codeOff then j + consCols else j;
      ReservedLoopShape(i + 1, j' + 1, reserved, codeOff, consCols);
    }
  }

  /** The kernel occupies `reserved_tones` distinct carriers, the lower half
      (rounded down) just below the data band and the rest just above it;
      none lies inside `[code_off, code_off + cons_cols)`. */
  lemma ReservedCarriersLayout(codeOff: int, consCols: int, reserved: int)
    requires consCols > 0 && reserved >= 0
    ensures var r := ReservedCarriers(codeOff, consCols, reserved);
      && |r| == reserved
      && (forall t :: 0 <= t < reserved / 2 ==> r[t] == codeOff - reserved / 2 + t)
      && (forall t :: reserved / 2 <= t < reserved ==> r[t] == codeOff + consCols + t - reserved / 2)
      && (forall t, u :: 0 <= t < u < reserved ==> r[t] < r[u])
      && (forall t :: 0 <= t < reserved ==> !(codeOff <= r[t] < codeOff + consCols))
  {
    CModAgainstEuclid(reserved, 2);
    ReservedLoopShape(0, codeOff - reserved / 2, reserved, codeOff, consCols);
  }

  /** The comb loop of `metadata_symbol`: carriers from `i` up to `stop`,
      jumping from the reference carrier `mls1_off - 1` past the whole MLS
      window. The carriers rise strictly, and when the loop starts at or
      below the reference carrier none of them lands in the reference
      carrier or the 255 MLS carriers. */
  function MetaCombLoop(i: int, stop: int, mls1Off: int): (r: seq<int>)
    ensures forall t :: 0 <= t < |r| ==> r[t] >= i
    ensures forall t :: 0 <= t < |r| ==> r[t] < stop || r[t] == mls1Off + Mls1Len
    ensures forall t, u :: 0 <= t < u < |r| ==> r[t] < r[u]
    ensures i <= mls1Off - 1 || i >= mls1Off + Mls1Len ==>
      forall t :: 0 <= t < |r| ==> !(mls1Off - 1 <= r[t] < mls1Off + Mls1Len)
    decreases stop - i
  {
    if i >= stop then []
    else
      var i' := if i == mls1Off - 1 then i + Mls1Len + 1 else i;
      [i'] + MetaCombLoop(i' + 1, stop, mls1Off)
  }

  /** Bins in the valid range, pairwise distinct. */
  predicate DistinctBins(bins: seq<int>)
  {
    && (forall k :: 0 <= k < |bins| ==> 0 <= bins[k] < SymbolLen)
    && (forall k, l :: 0 <= k < l < |bins| ==> bins[k] != bins[l])
  }

  /** The bins of the metadata window: the reference carrier
      `mls1_off - 1` (`j = 0`) and the 255 carriers after it. */
  function MetaBins(mls1Off: int): seq<int>
  {
    seq(Mls1Len + 1, j => Bin(mls1Off - 1 + j))
  }
}
