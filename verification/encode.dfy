/** The integer and bit-level bookkeeping of the OFDM encoder: `configure`,
    the tones of the synchronisation and metadata symbols, the header bits,
    the payload length check, padding and scrambling, and the number of
    code bits the modulation loop consumes. The FFT, clipping, tone
    reservation and PCM output are not modelled. */
module Encoder {
  import opened Wrappers
  import opened Bits
  import opened ModemConfig
  import opened Tones

  /** The encoder fields the integer bookkeeping reads and writes. */
  datatype EncoderState = EncoderState(
    operMode: int,
    modBits: int,
    consRows: int,
    codeOrder: int,
    reservedTones: int,
    mls0Off: int,
    mls1Off: int,
    consCols: int,
    codeOff: int,
    combDist: int,
    combOff: int,
    inputData: seq<byte>)

  /** The verdict of `configure`, the state it leaves behind, and the
      carriers it loads with the tone-reservation kernel (none when no
      kernel is built). */
  datatype Configured = Configured(ok: bool, state: EncoderState, kernel: seq<int>)

  /** The band test of `configure`: the signal of width `band_width`
      centred at `freq_off` fits between 0 Hz and the Nyquist frequency. */
  predicate InBand(freqOff: int, bandWidth: int)
  {
    CDiv(bandWidth, 2) - Rate / 2 <= freqOff <= Rate / 2 - CDiv(bandWidth, 2)
  }

  /** The carrier at the centre frequency, `(freq_off * symbol_len) / rate`. */
  function CentreCarrier(freqOff: int): int
  {
    CDiv(freqOff * SymbolLen, Rate)
  }

  /** `configure(freq_off, _, cfg)`. A centre frequency that is not a
      multiple of 50 Hz is refused before anything changes; one outside the
      band is refused after the mode fields were already overwritten. The
      comb fields change only for a non-idle mode, and the kernel occupies
      `reserved_tones` carriers around, never inside, the data band. */
  function Configure(freqOff: int, cfg: Config, s: EncoderState): (r: Configured)
    ensures CMod(freqOff, 50) != 0 ==> r == Configured(false, s, [])
    ensures CMod(freqOff, 50) == 0 ==>
      && r.state.operMode == cfg.operMode && r.state.modBits == cfg.modBits
      && r.state.consRows == cfg.consRows && r.state.codeOrder == cfg.codeOrder
      && r.state.reservedTones == cfg.reservedTones
    ensures r.ok <==> CMod(freqOff, 50) == 0 && InBand(freqOff, cfg.bandWidth)
    ensures !r.ok ==>
      && r.kernel == []
      && r.state == s.(operMode := r.state.operMode, modBits := r.state.modBits,
                       consRows := r.state.consRows, codeOrder := r.state.codeOrder,
                       reservedTones := r.state.reservedTones)
    ensures r.state.inputData == s.inputData
    ensures r.ok ==>
      var c := CentreCarrier(freqOff);
      && r.state.mls0Off == c - Mls0Len + 1 && r.state.mls1Off == c - CDiv(Mls1Len, 2)
      && r.state.consCols == cfg.codeCols + cfg.combCols
      && r.state.codeOff == c - CDiv(r.state.consCols, 2)
    ensures r.ok && cfg.operMode <= 0 ==>
      r.state.combDist == s.combDist && r.state.combOff == s.combOff && r.kernel == []
    ensures r.ok && cfg.operMode > 0 && cfg.reservedTones > 0 && cfg.codeCols + cfg.combCols > 0 ==>
      var k := r.kernel;
      && |k| == cfg.reservedTones
      && (forall t, u :: 0 <= t < u < |k| ==> k[t] < k[u])
      && (forall t :: 0 <= t < |k| ==> !(r.state.codeOff <= k[t] < r.state.codeOff + r.state.consCols))
  {
    if CMod(freqOff, 50) != 0 then Configured(false, s, [])
    else
      var s1 := s.(operMode := cfg.operMode, modBits := cfg.modBits, consRows := cfg.consRows,
                    codeOrder := cfg.codeOrder, reservedTones := cfg.reservedTones);
      if !InBand(freqOff, cfg.bandWidth) then Configured(false, s1, [])
      else
        var offset := CentreCarrier(freqOff);
        var consCols := cfg.codeCols + cfg.combCols;
        var s2 := s1.(mls0Off := offset - Mls0Len + 1, mls1Off := offset - CDiv(Mls1Len, 2),
                      consCols := consCols, codeOff := offset - CDiv(consCols, 2));
        if cfg.operMode > 0 then
          var s3 := s2.(combDist := CombDist(consCols, cfg.combCols),
                        combOff := CombOff(consCols, cfg.combCols));
          var kernel := if cfg.reservedTones != 0 then ReservedCarriers(s3.codeOff, consCols, cfg.reservedTones) else [];
          if cfg.reservedTones > 0 && consCols > 0 then
            ReservedCarriersLayout(s3.codeOff, consCols, cfg.reservedTones);
            Configured(true, s3, kernel)
          else Configured(true, s3, kernel)
        else Configured(true, s2, [])
  }

  /** A centre carrier is at most the band edge's carrier away from 0. */
  lemma CentreCarrierBound(freqOff: int, f: int)
    requires 0 <= f && -f <= freqOff <= f
    ensures -((f * SymbolLen) / Rate) <= CentreCarrier(freqOff) <= (f * SymbolLen) / Rate
  {
    var m := (f * SymbolLen) / Rate;
    var a := Abs(freqOff) * SymbolLen;
    var q := a / Rate;
    assert Abs(freqOff * SymbolLen) == a;
    assert a <= f * SymbolLen;
    assert Rate * q <= a;
    assert f * SymbolLen < Rate * m + Rate;
    if q > m {
      MulMonotone(Rate, m + 1, q);
      assert false;
    }
  }

  /** Every carrier the symbols load lies in `[-symbol_len/2,
      symbol_len/2)`, so `bin` maps distinct carriers to distinct valid
      bins, and the data band starts at or below the metadata reference
      carrier. A successful `configure` with a row of the table establishes
      this (`ConfigureKeepsCarriersInBand`). */
  predicate CarriersInBand(s: EncoderState)
  {
    && -SymbolLen / 2 <= s.mls0Off - 2 && s.mls0Off + 2 * (Mls0Len - 1) < SymbolLen / 2
    && -SymbolLen / 2 <= s.mls1Off - 1 && s.mls1Off + Mls1Len - 1 < SymbolLen / 2
    && -SymbolLen / 2 <= s.codeOff && s.codeOff + s.consCols <= SymbolLen / 2
    && (s.reservedTones != 0 ==> s.codeOff <= s.mls1Off - 1 && s.mls1Off + Mls1Len < SymbolLen / 2)
  }

  lemma ConfigureKeepsCarriersInBand(freqOff: int, cfg: Config, s: EncoderState)
    requires cfg in Configs
    requires Configure(freqOff, cfg, s).ok
    ensures CarriersInBand(Configure(freqOff, cfg, s).state)
  {
    var st := Configure(freqOff, cfg, s).state;
    var f := Rate / 2 - CDiv(cfg.bandWidth, 2);
    CentreCarrierBound(freqOff, f);
    LayoutInBand(st, cfg, CentreCarrier(freqOff));
  }

  /** With the centre carrier inside a row's band, that row's layout keeps
      every carrier in band. */
  lemma LayoutInBand(st: EncoderState, cfg: Config, c: int)
    requires cfg in Configs
    requires var m := ((Rate / 2 - CDiv(cfg.bandWidth, 2)) * SymbolLen) / Rate; -m <= c <= m
    requires && st.mls0Off == c - Mls0Len + 1 && st.mls1Off == c - CDiv(Mls1Len, 2)
             && st.consCols == cfg.codeCols + cfg.combCols && st.codeOff == c - CDiv(st.consCols, 2)
             && st.reservedTones == cfg.reservedTones
    ensures CarriersInBand(st)
  {
  }

  /** Tone `k` of a differential chain with reference `fac`: the
      reference, then each tone its predecessor times the next bit's `nrz`. */
  function ChainTone(bits: seq<bool>, fac: real, k: int): real
    requires 0 <= k <= |bits|
  {
    if k == 0 then fac else Times(ChainTone(bits, fac, k - 1), bits[k - 1])
  }

  /** Every tone of the chain has the reference's magnitude. */
  lemma {:induction false} ChainToneUnit(bits: seq<bool>, fac: real, k: int)
    requires 0 <= k <= |bits|
    ensures ChainTone(bits, fac, k) == fac || ChainTone(bits, fac, k) == -fac
  {
    if k > 0 {
      ChainToneUnit(bits, fac, k - 1);
    }
  }

  /** The differential chain both preamble symbols build: every bin
      cleared, the reference `fac` in `bins[0]`, and `bins[k]` loaded with
      `nrz(bits[k-1])` and then multiplied by its predecessor. */
  method DifferentialChain(bins: seq<int>, bits: seq<bool>, fac: real) returns (fdom: seq<real>)
    requires |bins| == |bits| + 1 && DistinctBins(bins)
    ensures |fdom| == SymbolLen
    ensures forall k :: 0 <= k < |bins| ==> fdom[bins[k]] == ChainTone(bits, fac, k)
    ensures forall k :: 1 <= k < |bins| ==> fdom[bins[k]] == Times(fdom[bins[k - 1]], bits[k - 1])
    ensures forall b :: 0 <= b < SymbolLen && b !in bins ==> fdom[b] == 0.0
  {
    var loaded := LoadChain(bins, bits, fac);
    fdom := LinkChain(loaded, bins, bits, fac);
    forall k | 1 <= k < |bins|
      ensures fdom[bins[k]] == Times(fdom[bins[k - 1]], bits[k - 1])
    {
      assert fdom[bins[k - 1]] == ChainTone(bits, fac, k - 1);
    }
  }

  /** The loading loop: reference and `nrz` values in place, zeros elsewhere. */
  method LoadChain(bins: seq<int>, bits: seq<bool>, fac: real) returns (fdom: seq<real>)
    requires |bins| == |bits| + 1 && DistinctBins(bins)
    ensures |fdom| == SymbolLen
    ensures fdom[bins[0]] == fac
    ensures forall k :: 1 <= k < |bins| ==> fdom[bins[k]] == Nrz(bits[k - 1]) as real
    ensures forall b :: 0 <= b < SymbolLen && b !in bins ==> fdom[b] == 0.0
  {
    fdom := seq(SymbolLen, _ => 0.0);
    fdom := fdom[bins[0] := fac];
    var i := 0;
    while i < |bits|
      invariant 0 <= i <= |bits| && |fdom| == SymbolLen
      invariant fdom[bins[0]] == fac
      invariant forall k :: 1 <= k <= i ==> fdom[bins[k]] == Nrz(bits[k - 1]) as real
      invariant forall b :: 0 <= b < SymbolLen && b !in bins[..i + 1] ==> fdom[b] == 0.0
    {
      fdom := fdom[bins[i + 1] := Nrz(bits[i]) as real];
      assert bins[..i + 2] == bins[..i + 1] + [bins[i + 1]];
      i := i + 1;
    }
    assert bins[..i + 1] == bins;
  }

  /** The linking loop: each loaded tone multiplied by its predecessor. */
  method LinkChain(loaded: seq<real>, bins: seq<int>, bits: seq<bool>, fac: real) returns (fdom: seq<real>)
    requires |loaded| == SymbolLen && |bins| == |bits| + 1 && DistinctBins(bins)
    requires loaded[bins[0]] == fac
    requires forall k :: 1 <= k < |bins| ==> loaded[bins[k]] == Nrz(bits[k - 1]) as real
    ensures |fdom| == SymbolLen
    ensures forall k :: 0 <= k < |bins| ==> fdom[bins[k]] == ChainTone(bits, fac, k)
    ensures forall b :: 0 <= b < SymbolLen && b !in bins ==> fdom[b] == loaded[b]
  {
    fdom := loaded;
    var i := 0;
    while i < |bits|
      invariant 0 <= i <= |bits|
      invariant Linked(fdom, loaded, bins, bits, fac, i)
    {
      LinkStep(fdom, loaded, bins, bits, fac, i);
      fdom := fdom[bins[i + 1] := fdom[bins[i + 1]] * fdom[bins[i]]];
      i := i + 1;
    }
  }

  /** The state of the linking loop after `i` steps: the first `i + 1`
      chain tones final, the rest as loaded, other bins untouched. */
  predicate Linked(fdom: seq<real>, loaded: seq<real>, bins: seq<int>, bits: seq<bool>, fac: real, i: int)
    requires |loaded| == SymbolLen && |bins| == |bits| + 1 && DistinctBins(bins) && 0 <= i <= |bits|
  {
    && |fdom| == SymbolLen
    && (forall k :: 0 <= k <= i ==> fdom[bins[k]] == ChainTone(bits, fac, k))
    && (forall k :: i < k < |bins| ==> fdom[bins[k]] == loaded[bins[k]])
    && (forall b :: 0 <= b < SymbolLen && b !in bins ==> fdom[b] == loaded[b])
  }

  lemma LinkStep(fdom: seq<real>, loaded: seq<real>, bins: seq<int>, bits: seq<bool>, fac: real, i: int)
    requires |loaded| == SymbolLen && |bins| == |bits| + 1 && DistinctBins(bins) && 0 <= i < |bits|
    requires forall k :: 1 <= k < |bins| ==> loaded[bins[k]] == Nrz(bits[k - 1]) as real
    requires Linked(fdom, loaded, bins, bits, fac, i)
    ensures Linked(fdom[bins[i + 1] := fdom[bins[i + 1]] * fdom[bins[i]]], loaded, bins, bits, fac, i + 1)
  {
    var v := fdom[bins[i + 1]] * fdom[bins[i]];
    NrzTimes(fdom[bins[i + 1]], fdom[bins[i]], bits[i]);
    assert v == ChainTone(bits, fac, i + 1);
    var after := fdom[bins[i + 1] := v];
    forall k | 0 <= k <= i
      ensures after[bins[k]] == ChainTone(bits, fac, k)
    {
      assert bins[k] != bins[i + 1];
    }
  }

  /** The bins of the synchronisation symbol: the reference carrier
      `mls0_off - 2` (`k = 0`) and every second carrier after it. */
  function SyncBins(mls0Off: int): seq<int>
  {
    seq(Mls0Len + 1, k => Bin(mls0Off - 2 + 2 * k))
  }

  lemma SyncBinsDistinct(mls0Off: int)
    requires mls0Off - 2 >= -SymbolLen
    ensures DistinctBins(SyncBins(mls0Off))
  {
    var bins := SyncBins(mls0Off);
    forall k, l | 0 <= k < l < |bins|
      ensures bins[k] != bins[l]
    {
      BinInjective(mls0Off - 2 + 2 * k, mls0Off - 2 + 2 * l);
    }
  }

  /** `synchronization_symbol` on the frequency-domain tones, with `fac`
      for `mls0_fac` and `seq0` for the 127 MLS bits. Each tone of the
      chain is the previous one times `nrz` of the next MLS bit, so all have
      magnitude `fac`; every other bin is zero. */
  method SynchronizationSymbol(mls0Off: int, seq0: seq<bool>, fac: real) returns (fdom: seq<real>)
    requires |seq0| == Mls0Len
    requires mls0Off - 2 >= -SymbolLen
    ensures |fdom| == SymbolLen
    ensures var bins := SyncBins(mls0Off);
      && fdom[bins[0]] == fac
      && (forall k :: 1 <= k <= Mls0Len ==> fdom[bins[k]] == Times(fdom[bins[k - 1]], seq0[k - 1]))
      && (forall k :: 0 <= k <= Mls0Len ==> fdom[bins[k]] == fac || fdom[bins[k]] == -fac)
      && (forall b :: 0 <= b < SymbolLen && b !in bins ==> fdom[b] == 0.0)
  {
    var bins := SyncBins(mls0Off);
    SyncBinsDistinct(mls0Off);
    fdom := DifferentialChain(bins, seq0, fac);
    forall k | 0 <= k <= Mls0Len
      ensures fdom[bins[k]] == fac || fdom[bins[k]] == -fac
    {
      ChainToneUnit(seq0, fac, k);
    }
  }

  /** The header word `(md << 8) | oper_mode` in 64 bits. */
  function HeaderWord(md: u64, operMode: int): u64
    requires 0 <= operMode < 256
  {
    (md * 256) % 0x1_0000_0000_0000_0000 + operMode
  }

  /** The 71 header bits of `metadata_symbol`: bits 0..54 of the header
      word, then the 16 bits of `crc0(md << 9)` (`Shl64(md, 9)`), least significant first. */
  function HeaderBits(md: u64, operMode: int, crc16: u64 -> nat): (bits: seq<bool>)
    requires 0 <= operMode < 256
    ensures |bits| == 71
    ensures FromBits(bits[..55]) == HeaderWord(md, operMode) % Pow2(55)
    ensures FromBits(bits[55..]) == crc16(Shl64(HeaderWord(md, operMode), 9)) % Pow2(16)
  {
    var w := HeaderWord(md, operMode);
    var bits := BitsOf(w, 55) + BitsOf(crc16(Shl64(w, 9)), 16);
    assert bits[..55] == BitsOf(w, 55);
    assert bits[55..] == BitsOf(crc16(Shl64(w, 9)), 16);
    FromBitsOf(w, 55);
    FromBitsOf(crc16(Shl64(w, 9)), 16);
    bits
  }

  /** The comb carriers `metadata_symbol` loads when tones are reserved. */
  function MetaCombCarriers(s: EncoderState): seq<int>
  {
    if s.reservedTones != 0 then MetaCombLoop(s.codeOff, s.codeOff + s.consCols, s.mls1Off) else []
  }

  function MetaCombBins(s: EncoderState): seq<int>
  {
    var comb := MetaCombCarriers(s);
    seq(|comb|, t requires 0 <= t < |comb| => Bin(comb[t]))
  }

  /** The 255 coded bits of the metadata symbol: the 71 header bits and
      the 184 BCH parity bits. */
  function MetaBits(md: u64, operMode: int, crc16: u64 -> nat, parity: seq<bool>): (bits: seq<bool>)
    requires 0 <= operMode < 256
    requires |parity| == Mls1Len - 71
    ensures |bits| == Mls1Len && bits[..71] == HeaderBits(md, operMode, crc16)
  {
    HeaderBits(md, operMode, crc16) + parity
  }

  /** Window tone `j` of the metadata symbol: the reference `fac`, and
      after it tone `j` of the differential chain over the coded bits,
      scrambled by `nrz` of MLS bit `j - 1`. */
  function MetaTone(bits: seq<bool>, mls: seq<bool>, fac: real, j: int): real
    requires 0 <= j <= |bits| && j <= |mls|
  {
    if j == 0 then fac else Times(ChainTone(bits, fac, j), mls[j - 1])
  }

  lemma InBandBinsDistinct(c1: int, c2: int)
    requires -SymbolLen / 2 <= c1 < SymbolLen / 2 && -SymbolLen / 2 <= c2 < SymbolLen / 2
    requires c1 != c2
    ensures Bin(c1) != Bin(c2)
  {
    BinInjective(c1, c2);
  }

  /** Window and comb bins are valid and pairwise distinct, and no comb
      bin is a window bin. */
  lemma MetaLayout(s: EncoderState)
    requires CarriersInBand(s)
    ensures DistinctBins(MetaBins(s.mls1Off))
    ensures DistinctBins(MetaCombBins(s))
    ensures forall b :: b in MetaCombBins(s) ==> b !in MetaBins(s.mls1Off)
  {
    var win, comb, cbins := MetaBins(s.mls1Off), MetaCombCarriers(s), MetaCombBins(s);
    forall k | 0 <= k < |win|
      ensures 0 <= win[k] < SymbolLen
    {
      assert win[k] == Bin(s.mls1Off - 1 + k);
    }
    forall k, l | 0 <= k < l < |win|
      ensures win[k] != win[l]
    {
      InBandBinsDistinct(s.mls1Off - 1 + k, s.mls1Off - 1 + l);
    }
    forall t | 0 <= t < |comb|
      ensures 0 <= cbins[t] < SymbolLen
    {
      assert cbins[t] == Bin(comb[t]);
    }
    forall t, u | 0 <= t < u < |comb|
      ensures cbins[t] != cbins[u]
    {
      InBandBinsDistinct(comb[t], comb[u]);
    }
    forall t, j | 0 <= t < |comb| && 0 <= j < |win|
      ensures cbins[t] != win[j]
    {
      InBandBinsDistinct(comb[t], s.mls1Off - 1 + j);
    }
  }

  /** The scrambling loop of `metadata_symbol`: window tone `j >= 1` is
      multiplied by `nrz` of MLS bit `j - 1`; nothing else changes. */
  method Scramble(fdom: seq<real>, bins: seq<int>, mls: seq<bool>) returns (out: seq<real>)
    requires |fdom| == SymbolLen && DistinctBins(bins) && 0 < |bins| <= |mls| + 1
    ensures |out| == SymbolLen
    ensures forall j :: 1 <= j < |bins| ==> out[bins[j]] == Times(fdom[bins[j]], mls[j - 1])
    ensures forall b :: 0 <= b < SymbolLen && b !in bins[1..] ==> out[b] == fdom[b]
  {
    out := fdom;
    var i := 0;
    while i < |bins| - 1
      invariant 0 <= i <= |bins| - 1 && |out| == SymbolLen
      invariant forall j :: 1 <= j <= i ==> out[bins[j]] == Times(fdom[bins[j]], mls[j - 1])
      invariant forall j :: i < j < |bins| ==> out[bins[j]] == fdom[bins[j]]
      invariant forall b :: 0 <= b < SymbolLen && b !in bins[1..] ==> out[b] == fdom[b]
    {
      out := out[bins[i + 1] := Times(out[bins[i + 1]], mls[i])];
      i := i + 1;
    }
  }

  /** The comb loop of `metadata_symbol`: comb bin `t` gets `fac` times
      `nrz` of the MLS bit after the 255 the window used; nothing else
      changes. */
  method LoadComb(fdom: seq<real>, bins: seq<int>, mls: seq<bool>, fac: real) returns (out: seq<real>)
    requires |fdom| == SymbolLen && DistinctBins(bins) && |mls| >= Mls1Len + |bins|
    ensures |out| == SymbolLen
    ensures forall t :: 0 <= t < |bins| ==> out[bins[t]] == Times(fac, mls[Mls1Len + t])
    ensures forall b :: 0 <= b < SymbolLen && b !in bins ==> out[b] == fdom[b]
  {
    out := fdom;
    var t := 0;
    while t < |bins|
      invariant 0 <= t <= |bins| && |out| == SymbolLen
      invariant forall u :: 0 <= u < t ==> out[bins[u]] == Times(fac, mls[Mls1Len + u])
      invariant forall b :: 0 <= b < SymbolLen && b !in bins[..t] ==> out[b] == fdom[b]
    {
      out := out[bins[t] := Times(fac, mls[Mls1Len + t])];
      assert bins[..t + 1] == bins[..t] + [bins[t]];
      t := t + 1;
    }
    assert bins[..t] == bins;
  }

  /** `metadata_symbol(md)` on the frequency-domain tones, with `fac` for
      `cons_fac`, `parity` for the 184 BCH parity bits and `mls` for the
      MLS stream. The window holds the differentially encoded header and
      parity bits, scrambled by the MLS; when tones are reserved the comb
      carriers hold the continuing MLS and leave the window intact; every
      other bin is zero. */
  method MetadataSymbol(s: EncoderState, md: u64, crc16: u64 -> nat, parity: seq<bool>, mls: seq<bool>, fac: real)
    returns (fdom: seq<real>)
    requires CarriersInBand(s)
    requires 0 <= s.operMode < 256
    requires |parity| == Mls1Len - 71
    requires |mls| >= Mls1Len + |MetaCombCarriers(s)|
    ensures |fdom| == SymbolLen
    ensures DistinctBins(MetaBins(s.mls1Off)) && DistinctBins(MetaCombBins(s))
    ensures var bits, win := MetaBits(md, s.operMode, crc16, parity), MetaBins(s.mls1Off);
      forall j :: 0 <= j <= Mls1Len ==> fdom[win[j]] == MetaTone(bits, mls, fac, j)
    ensures var comb := MetaCombBins(s);
      forall t :: 0 <= t < |comb| ==> fdom[comb[t]] == Times(fac, mls[Mls1Len + t])
    ensures forall b :: 0 <= b < SymbolLen && b !in MetaBins(s.mls1Off) && b !in MetaCombBins(s) ==> fdom[b] == 0.0
  {
    var bits, win, cbins := MetaBits(md, s.operMode, crc16, parity), MetaBins(s.mls1Off), MetaCombBins(s);
    MetaLayout(s);
    var chain := DifferentialChain(win, bits, fac);
    var scrambled := Scramble(chain, win, mls);
    fdom := LoadComb(scrambled, cbins, mls, fac);
    WindowTones(chain, scrambled, fdom, win, cbins, bits, mls, fac);
    OtherTones(chain, scrambled, fdom, win, cbins);
  }

  /** The window tones survive the comb loop and carry `MetaTone`. */
  lemma WindowTones(chain: seq<real>, scrambled: seq<real>, fdom: seq<real>, win: seq<int>, cbins: seq<int>,
                    bits: seq<bool>, mls: seq<bool>, fac: real)
    requires |chain| == |scrambled| == |fdom| == SymbolLen
    requires |win| == |bits| + 1 && |bits| <= |mls| && DistinctBins(win)
    requires forall b :: b in cbins ==> b !in win
    requires forall k :: 0 <= k < |win| ==> chain[win[k]] == ChainTone(bits, fac, k)
    requires forall j :: 1 <= j < |win| ==> scrambled[win[j]] == Times(chain[win[j]], mls[j - 1])
    requires forall b :: 0 <= b < SymbolLen && b !in win[1..] ==> scrambled[b] == chain[b]
    requires forall b :: 0 <= b < SymbolLen && b !in cbins ==> fdom[b] == scrambled[b]
    ensures forall j :: 0 <= j < |win| ==> fdom[win[j]] == MetaTone(bits, mls, fac, j)
  {
    forall j | 0 <= j < |win|
      ensures fdom[win[j]] == MetaTone(bits, mls, fac, j)
    {
      assert win[j] in win;
      assert fdom[win[j]] == scrambled[win[j]];
      if j == 0 {
        assert win[0] !in win[1..];
      }
    }
  }

  /** Bins outside the window and the comb keep the zero the chain left. */
  lemma OtherTones(chain: seq<real>, scrambled: seq<real>, fdom: seq<real>, win: seq<int>, cbins: seq<int>)
    requires |chain| == |scrambled| == |fdom| == SymbolLen && |win| > 0
    requires forall b :: 0 <= b < SymbolLen && b !in win ==> chain[b] == 0.0
    requires forall b :: 0 <= b < SymbolLen && b !in win[1..] ==> scrambled[b] == chain[b]
    requires forall b :: 0 <= b < SymbolLen && b !in cbins ==> fdom[b] == scrambled[b]
    ensures forall b :: 0 <= b < SymbolLen && b !in win && b !in cbins ==> fdom[b] == 0.0
  {
    forall b | 0 <= b < SymbolLen && b !in win && b !in cbins
      ensures fdom[b] == 0.0
    {
      assert b !in win[1..];
    }
  }

  /** What `data_packet` hands to the polar encoder: the state with the
      new `input_data`, and `mesg`, the `nrz` of the payload bits followed
      by the 32 CRC bits. */
  datatype Packet = Packet(state: EncoderState, mesg: seq<int>)

  /** `data_packet(data, len)` up to the polar encoder, with `scrambler`
      for the Xorshift key stream and `crc32` for the payload CRC. A payload
      longer than `1 << (code_order - 4)` bytes is refused with the state
      untouched. Otherwise `input_data` holds the payload, zero-padded to
      the packet size and scrambled, followed by zeros, and `mesg` encodes
      its bits with `nrz`; nothing else changes. */
  function DataPacket(s: EncoderState, data: seq<byte>, scrambler: seq<byte>, crc32: seq<byte> -> nat)
    : (r: Option<Packet>)
    requires 4 <= s.codeOrder <= CodeMax
    requires |scrambler| >= DataMax
    ensures r.None? <==> |data| > Pow2(s.codeOrder - 4)
    ensures r.Some? ==> r.value.state == s.(inputData := r.value.state.inputData)
    ensures r.Some? ==>
      var input, n := r.value.state.inputData, Pow2(s.codeOrder - 4);
      && |input| == DataMax && n <= DataMax && DataBits(s.codeOrder) == 8 * n
      && XorStream(input[..n], scrambler) == data + Zeros(n - |data|)
      && (forall i :: n <= i < DataMax ==> input[i] == 0)
    ensures r.Some? ==>
      var input, mesg, n := r.value.state.inputData, r.value.mesg, Pow2(s.codeOrder - 4);
      && |mesg| == DataBits(s.codeOrder) + 32
      && (forall i :: 0 <= i < DataBits(s.codeOrder) ==> (mesg[i] < 0 <==> UnpackLE(input[..n])[i]))
      && (forall i :: 0 <= i < 32 ==>
            (mesg[DataBits(s.codeOrder) + i] < 0 <==> BitsOf(crc32(input[..n]), 32)[i]))
  {
    if |data| > Pow2(s.codeOrder - 4) then None
    else
      var n := DataBytes(s.codeOrder);
      DataBytesIsLimit(s.codeOrder);
      var input := ScrambledInput(data, n, scrambler);
      Some(Packet(s.(inputData := input), Mesg(input[..n], DataBits(s.codeOrder), crc32)))
  }

  /** `input_data` after `data_packet`'s padding and scrambling: the first
      `n` bytes are the payload zero-padded to `n` bytes and XORed with the
      key stream; the rest of the buffer is zero. */
  function ScrambledInput(data: seq<byte>, n: int, scrambler: seq<byte>): (input: seq<byte>)
    requires |data| <= n <= DataMax && |scrambler| >= DataMax
    ensures |input| == DataMax
    ensures XorStream(input[..n], scrambler) == data + Zeros(n - |data|)
    ensures forall i :: n <= i < DataMax ==> input[i] == 0
  {
    var padded := data + Zeros(DataMax - |data|);
    var input := XorStream(padded[..n], scrambler) + padded[n..];
    assert padded[..n] == data + Zeros(n - |data|);
    assert input[..n] == XorStream(padded[..n], scrambler);
    XorStreamTwice(padded[..n], scrambler);
    input
  }

  /** The message of `data_packet`: `nrz` of the payload bits in
      `get_le_bit` order, then `nrz` of the 32 CRC bits. */
  function Mesg(payload: seq<byte>, dataBits: nat, crc32: seq<byte> -> nat): (mesg: seq<int>)
    requires dataBits == 8 * |payload|
    ensures |mesg| == dataBits + 32
    ensures forall i :: 0 <= i < dataBits ==> (mesg[i] < 0 <==> UnpackLE(payload)[i])
    ensures forall i :: 0 <= i < 32 ==> (mesg[dataBits + i] < 0 <==> BitsOf(crc32(payload), 32)[i])
  {
    var bits := UnpackLE(payload);
    var crc := BitsOf(crc32(payload), 32);
    seq(dataBits, i requires 0 <= i < dataBits => Nrz(bits[i]))
      + seq(32, i requires 0 <= i < 32 => Nrz(crc[i]))
  }

  /** Columns of one row that carry code bits: all of them, or with
      reserved tones the ones off the comb. */
  function CodeColumns(s: EncoderState): nat
  {
    var cols := if s.consCols > 0 then s.consCols else 0;
    if s.reservedTones != 0 && s.combDist != 0 then DataColumns(cols, s.combDist, s.combOff, true) else cols
  }

  /** The modulation loop of `data_packet`, counting the code bits it
      consumes: `mod_bits` per code-carrying column in each of the
      `cons_rows` rows. */
  method ModulationCodeBits(s: EncoderState) returns (k: int)
    requires s.reservedTones != 0 ==> s.combDist != 0
    ensures k == (if s.consRows > 0 then s.consRows else 0) * CodeColumns(s) * s.modBits
  {
    var cols := if s.consCols > 0 then s.consCols else 0;
    k := 0;
    ghost var used := 0;
    var j := 0;
    while j < s.consRows
      invariant 0 <= j && (s.consRows > 0 ==> j <= s.consRows) && (s.consRows <= 0 ==> j == 0)
      invariant used == j * CodeColumns(s) && k == used * s.modBits
    {
      var i := 0;
      ghost var row := 0;
      while i < s.consCols
        invariant 0 <= i <= cols
        invariant row == (if s.reservedTones != 0 then DataColumns(i, s.combDist, s.combOff, true) else i)
        invariant k == (used + row) * s.modBits
      {
        if s.reservedTones == 0 {
          MulSucc(used + row, s.modBits);
          k := k + s.modBits;
          row := row + 1;
        } else if CMod(i, s.combDist) == s.combOff {
        } else {
          MulSucc(used + row, s.modBits);
          k := k + s.modBits;
          row := row + 1;
        }
        i := i + 1;
      }
      MulSucc(j, CodeColumns(s));
      used := used + row;
      j := j + 1;
    }
  }
}
