/** The integer and bit-level bookkeeping of the OFDM decoder: the
    differential demodulation of the metadata symbol into soft bits, the
    header check of `meta_data`, the mode switch and column layout of
    `fetch`, the number of soft bits it produces, the choice of the polar
    decoder lane that passes the CRC, and descrambling. Synchronisation,
    the FFT, channel tracking, the OSD and polar decoders are not
    modelled: their results are parameters. */
module Decoder {
  import opened Wrappers
  import opened Bits
  import opened Cmplx
  import opened ModemConfig
  import opened Tones

  /** The decoder's offsets relative to the centre carrier, which it reaches
      by correcting the carrier frequency offset: `mls0_off = -mls0_len + 1`
      and `mls1_off = -mls1_len / 2` (with C's truncation, -127). */
  const Mls0Off: int := -Mls0Len + 1
  const Mls1Off: int := -127

  /** The call-sign bound of `meta_data`: the 37^9 values of nine base-37
      digits. */
  const CallSignLimit: int := 129961739795077

  /** `c * nrz(bit)` on a complex tone. */
  function CTimes(c: Complex, bit: bool): Complex
  {
    if bit then Complex(-c.re, -c.im) else c
  }

  lemma CTimesIsProduct(c: Complex, bit: bool)
    ensures CTimes(c, bit) == Mul(c, FromReal(Nrz(bit) as real))
  {
  }

  /** `demod_or_erase(curr, prev)`: the ratio of two successive tones, or
      0 (an erasure) when the previous tone has no power or the ratio's
      squared magnitude exceeds 4. */
  function DemodOrErase(curr: Complex, prev: Complex): (r: Complex)
    ensures Norm(r) <= 4.0
    ensures !(Norm(prev) > 0.0) ==> r == Zero
    ensures Norm(prev) > 0.0 && Norm(curr) <= 4.0 * Norm(prev) ==> Mul(r, prev) == curr
    ensures Norm(prev) > 0.0 && Norm(curr) > 4.0 * Norm(prev) ==> r == Zero
  {
    if !(Norm(prev) > 0.0) then Zero
    else
      var q := Div(curr, prev);
      NormRatio(Norm(q), Norm(prev), Norm(curr));
      if !(Norm(q) <= 4.0) then Zero else q
  }

  lemma NormRatio(q: real, p: real, c: real)
    requires p > 0.0 && q * p == c
    ensures q <= 4.0 <==> c <= 4.0 * p
  {
    if q <= 4.0 {
      assert q * p <= 4.0 * p;
    } else {
      assert q * p > 4.0 * p;
    }
  }

  /** `std::nearbyint` in the default rounding mode: the nearest integer,
      ties to the even one. */
  function Round(x: real): (r: int)
    ensures -0.5 <= r as real - x <= 0.5
    ensures r as real - x == 0.5 || r as real - x == -0.5 ==> r % 2 == 0
  {
    var f := x.Floor;
    var d := x - f as real;
    if d < 0.5 then f
    else if d > 0.5 then f + 1
    else if f % 2 == 0 then f
    else f + 1
  }

  /** The soft bit of the preamble: `127` times the real part, rounded and
      clamped to `[-127, 127]`. */
  function SoftBit(x: real): (r: int)
    ensures -127 <= r <= 127
    ensures x >= 1.0 ==> r == 127
    ensures x <= -1.0 ==> r == -127
    ensures x > 0.0 ==> r >= 0
    ensures x < 0.0 ==> r <= 0
  {
    var v := Round(127.0 * x);
    if v < -127 then -127 else if v > 127 then 127 else v
  }

  /** Window tone `j` after the descrambling loop of `preamble`: the
      reference tone at carrier `mls1_off - 1` as received, and the tone at
      carrier `mls1_off + j - 1` times `nrz` of MLS bit `j - 1`. */
  function Descrambled(fdom: seq<Complex>, mls: seq<bool>, j: int): Complex
    requires |fdom| == SymbolLen && |mls| >= Mls1Len && 0 <= j <= Mls1Len
  {
    if j == 0 then fdom[WindowBin(0)] else CTimes(fdom[WindowBin(j)], mls[j - 1])
  }

  /** The bin of window tone `j`, at carrier `mls1_off - 1 + j`. */
  function WindowBin(j: int): int
  {
    Bin(Mls1Off - 1 + j)
  }

  /** The decoder reads the metadata window at valid, distinct bins. */
  lemma WindowBins()
    ensures DistinctBins(MetaBins(Mls1Off))
  {
    var win := MetaBins(Mls1Off);
    forall k, l | 0 <= k < l < |win|
      ensures win[k] != win[l]
    {
      BinInjective(Mls1Off - 1 + k, Mls1Off - 1 + l);
    }
  }

  /** The descrambling loop of `preamble`: tone `j` of the window, for
      `j` from 1 to 255, multiplied by `nrz` of MLS bit `j - 1`; the
      reference tone is left as received. */
  method DescrambleWindow(fdom: seq<Complex>, mls: seq<bool>) returns (f: seq<Complex>)
    requires |fdom| == SymbolLen && |mls| >= Mls1Len
    ensures |f| == SymbolLen
    ensures forall j :: 0 <= j <= Mls1Len ==> f[WindowBin(j)] == Descrambled(fdom, mls, j)
  {
    f := fdom;
    var i := 0;
    while i < Mls1Len
      invariant 0 <= i <= Mls1Len && |f| == SymbolLen
      invariant forall j :: 0 <= j <= Mls1Len ==>
        f[WindowBin(j)] == if 1 <= j <= i then Descrambled(fdom, mls, j) else fdom[WindowBin(j)]
    {
      var b := WindowBin(i + 1);
      assert f[b] == fdom[b];
      var f' := f[b := CTimes(f[b], mls[i])];
      forall j | 0 <= j <= Mls1Len
        ensures f'[WindowBin(j)] == if 1 <= j <= i + 1 then Descrambled(fdom, mls, j) else fdom[WindowBin(j)]
      {
        if j != i + 1 {
          BinInjective(Mls1Off - 1 + j, Mls1Off - 1 + (i + 1));
        }
      }
      f := f';
      i := i + 1;
    }
  }

  /** The soft-bit part of `preamble`: descramble the 255 window tones in
      place, then turn the ratio of each tone to its predecessor into a
      soft bit. Which tone the ratio of soft bit `i` uses is stated through
      `Descrambled`; that these are the transmitted bits is
      `Modem.MetaSoftBitsRoundTrip`. */
  method PreambleSoftBits(fdom: seq<Complex>, mls: seq<bool>) returns (soft: seq<int>)
    requires |fdom| == SymbolLen && |mls| >= Mls1Len
    ensures |soft| == Mls1Len
    ensures forall i {:trigger soft[i]} :: 0 <= i < Mls1Len ==>
      soft[i] == SoftBit(DemodOrErase(Descrambled(fdom, mls, i + 1), Descrambled(fdom, mls, i)).re)
  {
    var f := DescrambleWindow(fdom, mls);
    var tones := seq(Mls1Len + 1, j requires 0 <= j <= Mls1Len => f[WindowBin(j)]);
    assert forall j :: 0 <= j <= Mls1Len ==> tones[j] == Descrambled(fdom, mls, j);
    soft := RatioSoftBits(tones);
  }

  /** The soft-bit loop of `preamble`: soft bit `i` from the ratio of tone
      `i + 1` to tone `i`. */
  method RatioSoftBits(tones: seq<Complex>) returns (soft: seq<int>)
    requires |tones| >= 1
    ensures |soft| == |tones| - 1
    ensures forall i {:trigger soft[i]} :: 0 <= i < |soft| ==> soft[i] == SoftBit(DemodOrErase(tones[i + 1], tones[i]).re)
  {
    soft := seq(|tones| - 1, i requires 0 <= i < |tones| - 1 => SoftBit(DemodOrErase(tones[i + 1], tones[i]).re));
  }

  /** The outcome of `meta_data`: its verdict, the `oper_mode` field after
      the call and the caller's `call_sign` after the call. */
  datatype MetaResult = MetaResult(ok: bool, operMode: int, callSign: int)

  /** The 55-bit header value of the decoded code word: bits 0..54. */
  function MetaWord(bits: seq<bool>): nat
    requires |bits| >= 71
  {
    FromBits(bits[..55])
  }

  /** The 16-bit checksum of the decoded code word: bits 55..70. */
  function MetaChecksum(bits: seq<bool>): nat
    requires |bits| >= 71
  {
    FromBits(bits[55..71])
  }

  /** The header test of `meta_data`: the checksum is `crc0` of the
      header value shifted left by 9. */
  predicate ChecksumMatches(bits: seq<bool>, crc16: u64 -> nat)
    requires |bits| >= 71
  {
    crc16(Shl64(MetaWord(bits), 9)) % Pow2(16) == MetaChecksum(bits)
  }

  /** `meta_data(call_sign)` on the code word `bits` the OSD decoder
      returned, with `crc16` for `crc0`. A checksum mismatch changes
      nothing. Otherwise `oper_mode` takes the low 8 bits at once, and the
      call is accepted when that mode has a row and the remaining bits are
      a call sign in `(0, 37^9)`; only then is `call_sign` written. */
  function MetaData(bits: seq<bool>, crc16: u64 -> nat, operMode: int, callSign: int): (r: MetaResult)
    requires |bits| >= 71
    ensures !ChecksumMatches(bits, crc16) ==> r == MetaResult(false, operMode, callSign)
    ensures ChecksumMatches(bits, crc16) ==> r.operMode == MetaWord(bits) % 256
    ensures r.ok <==>
      && ChecksumMatches(bits, crc16)
      && MetaWord(bits) % 256 in Modes
      && 0 < MetaWord(bits) / 256 < CallSignLimit
    ensures r.callSign == if r.ok then MetaWord(bits) / 256 else callSign
  {
    var meta := MetaWord(bits);
    if !ChecksumMatches(bits, crc16) then MetaResult(false, operMode, callSign)
    else
      var mode := meta % 256;
      ModesRange(mode);
      if mode != 0 && (mode < 22 || mode > 30) then MetaResult(false, mode, callSign)
      else if meta / 256 == 0 || meta / 256 >= CallSignLimit then MetaResult(false, mode, callSign)
      else MetaResult(true, mode, meta / 256)
  }

  /** What `fetch` sets from the operating mode. */
  datatype Params = Params(modBits: int, consRows: int, combCols: int, codeOrder: int, codeCols: int)

  function ParamsOf(c: Config): Params
  {
    Params(c.modBits, c.consRows, c.combCols, c.codeOrder, c.codeCols)
  }

  /** The mode switch of `fetch`: the idle mode and modes without a case
      are refused; every other mode gets the parameters of its row of the
      mode table. */
  function FetchParams(operMode: int): (r: Option<Params>)
    ensures r.Some? <==> operMode in Modes && operMode != 0
    ensures forall c :: c in Configs && c.operMode == operMode && operMode != 0 ==> r == Some(ParamsOf(c))
  {
    if operMode == 0 then None
    else match operMode
      case 22 => Some(Params(3, 3, 0, 12, 256))
      case 23 => Some(Params(2, 8, 0, 12, 256))
      case 24 => Some(Params(3, 10, 0, 13, 256))
      case 25 => Some(Params(2, 32, 0, 14, 256))
      case 26 => Some(Params(4, 4, 8, 12, 256))
      case 27 => Some(Params(4, 8, 8, 13, 256))
      case 28 => Some(Params(4, 16, 8, 14, 256))
      case 29 => Some(Params(6, 5, 16, 13, 273))
      case 30 => Some(Params(6, 10, 16, 14, 273))
      case _ => None
  }

  function ConsCols(p: Params): int
  {
    p.codeCols + p.combCols
  }

  /** `code_off = -cons_cols / 2`, with C's truncation. */
  function CodeOff(p: Params): int
  {
    CDiv(-ConsCols(p), 2)
  }

  /** The bins `fetch` reads the data columns from. */
  function CodeBins(p: Params): seq<int>
  {
    seq(if ConsCols(p) > 0 then ConsCols(p) else 0, i => Bin(i + CodeOff(p)))
  }

  /** For every mode `fetch` accepts, the data columns lie at valid,
      distinct bins, below the centre by half the band. */
  lemma CodeBinsValid(operMode: int)
    requires FetchParams(operMode).Some?
    ensures var p := FetchParams(operMode).value;
      && -SymbolLen / 2 <= CodeOff(p) && CodeOff(p) + ConsCols(p) <= SymbolLen / 2
      && DistinctBins(CodeBins(p))
  {
    var p := FetchParams(operMode).value;
    var bins := CodeBins(p);
    assert -SymbolLen / 2 <= CodeOff(p) && CodeOff(p) + ConsCols(p) <= SymbolLen / 2;
    forall k | 0 <= k < |bins|
      ensures 0 <= bins[k] < SymbolLen
    {
      assert bins[k] == Bin(k + CodeOff(p));
    }
    forall k, l | 0 <= k < l < |bins|
      ensures bins[k] != bins[l]
    {
      BinInjective(k + CodeOff(p), l + CodeOff(p));
    }
  }

  /** The comb columns of every mode `fetch` accepts: with comb pilots,
      the columns `comb_dist * i + comb_off` the tracking loop visits are
      exactly the columns that fail the soft-bit loop's test; without them
      no column fails it. */
  lemma CombLayout(operMode: int)
    requires FetchParams(operMode).Some?
    ensures var p := FetchParams(operMode).value;
      var d, o := CombDist(ConsCols(p), p.combCols), CombOff(ConsCols(p), p.combCols);
      && (p.combCols > 0 ==>
            (set i | 0 <= i < p.combCols :: d * i + o)
              == (set i | 0 <= i < ConsCols(p) && IsCombColumn(i, d, o)))
      && (p.combCols == 0 ==> forall i :: 0 <= i ==> !IsCombColumn(i, d, o))
  {
    var p := FetchParams(operMode).value;
    if p.combCols > 0 {
      CombColumns(ConsCols(p), p.combCols);
    } else {
      forall i | 0 <= i
        ensures !IsCombColumn(i, CombDist(ConsCols(p), 0), CombOff(ConsCols(p), 0))
      {
        NoCombColumns(ConsCols(p), i);
      }
    }
  }

  /** The soft-demapping loop of `fetch`, counting the soft bits it writes:
      `mod_bits` per column of each row, skipping the comb columns when the
      modulation has more than 3 bits. */
  method SoftBitCount(p: Params) returns (k: int)
    requires p.combCols != 0 ==> CombDist(ConsCols(p), p.combCols) != 0
    ensures k == (if p.consRows > 0 then p.consRows else 0)
                 * DataColumns(if ConsCols(p) > 0 then ConsCols(p) else 0,
                               CombDist(ConsCols(p), p.combCols), CombOff(ConsCols(p), p.combCols),
                               p.modBits > 3)
                 * p.modBits
  {
    var consCols := ConsCols(p);
    var cols := if consCols > 0 then consCols else 0;
    var combDist, combOff := CombDist(consCols, p.combCols), CombOff(consCols, p.combCols);
    var perRow := DataColumns(cols, combDist, combOff, p.modBits > 3);
    k := 0;
    ghost var used := 0;
    var j := 0;
    while j < p.consRows
      invariant 0 <= j && (p.consRows > 0 ==> j <= p.consRows) && (p.consRows <= 0 ==> j == 0)
      invariant used == j * perRow && k == used * p.modBits
    {
      var i := 0;
      ghost var row := 0;
      while i < consCols
        invariant 0 <= i <= cols
        invariant row == DataColumns(i, combDist, combOff, p.modBits > 3)
        invariant k == (used + row) * p.modBits
      {
        if !(p.modBits > 3 && CMod(i, combDist) == combOff) {
          MulSucc(used + row, p.modBits);
          k := k + p.modBits;
          row := row + 1;
        }
        i := i + 1;
      }
      MulSucc(j, perRow);
      used := used + row;
      j := j + 1;
    }
  }

  /** For every mode `fetch` accepts, the soft-bit loop writes exactly
      `code_cols * cons_rows * mod_bits` soft bits, the index the zero
      padding starts from, and that index lies within the code word of
      `2^code_order` bits and `bits_max`. */
  lemma SoftBitsMeetPadding(operMode: int)
    requires FetchParams(operMode).Some?
    ensures var p := FetchParams(operMode).value;
      && ConsCols(p) > 0 && CombDist(ConsCols(p), p.combCols) > 0
      && DataColumns(ConsCols(p), CombDist(ConsCols(p), p.combCols), CombOff(ConsCols(p), p.combCols), p.modBits > 3)
           == p.codeCols
      && p.consRows * p.codeCols * p.modBits == p.codeCols * p.consRows * p.modBits
      && 0 < p.codeCols * p.consRows * p.modBits <= Pow2(p.codeOrder) <= BitsMax
  {
    CodeColumnsOfMode(operMode);
    CodeFitsOrder(operMode);
  }

  /** The soft-bit loop of every accepted mode visits `code_cols` columns
      per row: all of them without a comb, all but the pilots with one. */
  lemma CodeColumnsOfMode(operMode: int)
    requires FetchParams(operMode).Some?
    ensures var p := FetchParams(operMode).value;
      && ConsCols(p) > 0 && CombDist(ConsCols(p), p.combCols) > 0
      && DataColumns(ConsCols(p), CombDist(ConsCols(p), p.combCols), CombOff(ConsCols(p), p.combCols), p.modBits > 3)
           == p.codeCols
  {
    var p := FetchParams(operMode).value;
    var n, d, o := ConsCols(p), CombDist(ConsCols(p), p.combCols), CombOff(ConsCols(p), p.combCols);
    if p.modBits > 3 {
      if p.combCols == 8 {
        assert n == 264 && d == 33 && o == 16;
        DataColumnsComb(264, 8, 0, 33, 16);
      } else {
        assert n == 289 && d == 18 && o == 9;
        DataColumnsComb(289, 16, 1, 18, 9);
      }
    } else {
      assert d == 1;
      DataColumnsNoSkip(n, d, o);
    }
  }

  /** Every accepted mode codes 2^12 to 2^14 bits. */
  lemma FetchCodeOrder(operMode: int)
    requires FetchParams(operMode).Some?
    ensures 12 <= FetchParams(operMode).value.codeOrder <= CodeMax
  {
  }

  /** The code bits of every accepted mode fit the code word of
      `2^code_order` bits, and that fits `bits_max`. */
  lemma CodeFitsOrder(operMode: int)
    requires FetchParams(operMode).Some?
    ensures var p := FetchParams(operMode).value;
      0 < p.codeCols * p.consRows * p.modBits <= Pow2(p.codeOrder) <= BitsMax
  {
    assert Pow2(12) == 4096 && Pow2(13) == 8192 && Pow2(14) == 16384;
  }

  /** The signs of a polar decoder lane: bit `i` is set when entry `i` is
      negative. */
  function Signs(v: seq<int>): (bits: seq<bool>)
    ensures |bits| == |v| && forall i :: 0 <= i < |v| ==> (bits[i] <==> v[i] < 0)
  {
    seq(|v|, i requires 0 <= i < |v| => v[i] < 0)
  }

  /** The CRC residue `crc1` leaves after the first `crc_bits` signs of a
      lane; `residue` stands for the CRC over a bit string. */
  function LaneResidue(lane: seq<int>, crcBits: nat, residue: seq<bool> -> nat): nat
    requires |lane| >= crcBits
  {
    residue(Signs(lane[..crcBits]))
  }

  /** Lane `k` is the first one whose residue is zero. */
  predicate IsFirstLane(lanes: seq<seq<int>>, crcBits: nat, residue: seq<bool> -> nat, k: int)
    requires forall l :: 0 <= l < |lanes| ==> |lanes[l]| >= crcBits
  {
    && 0 <= k < |lanes|
    && LaneResidue(lanes[k], crcBits, residue) == 0
    && forall l :: 0 <= l < k ==> LaneResidue(lanes[l], crcBits, residue) != 0
  }

  /** The lane search of `fetch`: the lowest lane whose CRC residue is
      zero, or none when every lane fails. */
  method SelectLane(lanes: seq<seq<int>>, crcBits: nat, residue: seq<bool> -> nat) returns (best: Option<nat>)
    requires forall l :: 0 <= l < |lanes| ==> |lanes[l]| >= crcBits
    ensures best.Some? ==> IsFirstLane(lanes, crcBits, residue, best.value)
    ensures best.None? ==> forall l :: 0 <= l < |lanes| ==> LaneResidue(lanes[l], crcBits, residue) != 0
  {
    var k := 0;
    while k < |lanes|
      invariant 0 <= k <= |lanes|
      invariant forall l :: 0 <= l < k ==> LaneResidue(lanes[l], crcBits, residue) != 0
    {
      if residue(Signs(lanes[k][..crcBits])) == 0 {
        return Some(k);
      }
      k := k + 1;
    }
    return None;
  }

  /** The payload of the chosen lane: its first `data_bits` signs packed
      with `set_le_bit` and XORed with the key stream `scrambler`. XORing
      again and unpacking gives the signs back. */
  function Payload(lane: seq<int>, codeOrder: int, scrambler: seq<byte>): (msg: seq<byte>)
    requires 4 <= codeOrder <= CodeMax && |lane| >= DataBits(codeOrder) && |scrambler| >= DataMax
    ensures |msg| == DataBytes(codeOrder) == Pow2(codeOrder - 4) <= DataMax
    ensures UnpackLE(XorStream(msg, scrambler)) == Signs(lane[..DataBits(codeOrder)])
  {
    DataBytesIsLimit(codeOrder);
    var packed := PackLE(Signs(lane[..DataBits(codeOrder)]));
    XorStreamTwice(packed, scrambler);
    UnpackPackLE(Signs(lane[..DataBits(codeOrder)]));
    XorStream(packed, scrambler)
  }

  /** The control flow of `fetch` after the polar decoder, with `lanes` for
      its output, `residue` for `crc1` and `scrambler` for the Xorshift key
      stream: it fails for the idle mode, for a mode without a case and
      when no lane passes the CRC; otherwise it returns the payload of the
      first lane that passes, `2^(code_order-4)` bytes long. */
  method Fetch(operMode: int, lanes: seq<seq<int>>, residue: seq<bool> -> nat, scrambler: seq<byte>)
    returns (msg: Option<seq<byte>>)
    requires forall l :: 0 <= l < |lanes| ==> |lanes[l]| == BitsMax
    requires |scrambler| >= DataMax
    ensures FetchParams(operMode).None? ==> msg.None?
    ensures FetchParams(operMode).Some? ==>
      var co := FetchParams(operMode).value.codeOrder;
      && 4 <= co <= CodeMax
      && (msg.None? <==> forall l :: 0 <= l < |lanes| ==> LaneResidue(lanes[l], DataBits(co) + 32, residue) != 0)
      && (msg.Some? ==> exists k :: IsFirstLane(lanes, DataBits(co) + 32, residue, k)
                                    && msg.value == Payload(lanes[k], co, scrambler))
  {
    var p := FetchParams(operMode);
    if p.None? {
      return None;
    }
    FetchCodeOrder(operMode);
    DataBytesIsLimit(p.value.codeOrder);
    msg := DecodeLanes(p.value.codeOrder, lanes, residue, scrambler);
  }

  /** `fetch` once the mode is known: the payload of the first lane whose
      CRC passes, if any. */
  method DecodeLanes(co: int, lanes: seq<seq<int>>, residue: seq<bool> -> nat, scrambler: seq<byte>)
    returns (msg: Option<seq<byte>>)
    requires 4 <= co <= CodeMax && DataBits(co) + 32 <= BitsMax
    requires forall l :: 0 <= l < |lanes| ==> |lanes[l]| == BitsMax
    requires |scrambler| >= DataMax
    ensures msg.None? <==> forall l :: 0 <= l < |lanes| ==> LaneResidue(lanes[l], DataBits(co) + 32, residue) != 0
    ensures msg.Some? ==> exists k :: IsFirstLane(lanes, DataBits(co) + 32, residue, k)
                                      && msg.value == Payload(lanes[k], co, scrambler)
  {
    DataBytesIsLimit(co);
    var crcBits := DataBits(co) + 32;
    var best := SelectLane(lanes, crcBits, residue);
    if best.None? {
      return None;
    }
    msg := Some(Payload(lanes[best.value], co, scrambler));
  }
}
