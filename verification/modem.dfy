/** How the encoder and the decoder fit together: the decoder's mode
    switch and offsets agree with what `configure` sets up, the header the
    encoder packs is the header `meta_data` accepts, the metadata tones
    demodulate to the coded bits, the payload comes back descrambled, and
    both sides count the same code bits. */
module Modem {
  import opened Wrappers
  import opened Bits
  import opened Cmplx
  import opened ModemConfig
  import opened Tones
  import opened Encoder
  import opened Decoder

  /** For a data mode of the table, a successful `configure` lays out the
      symbols at the decoder's offsets shifted by the centre carrier, with
      the decoder's column count, comb spacing and comb offset. */
  lemma OffsetsAgree(freqOff: int, cfg: Config, s0: EncoderState)
    requires cfg in Configs && cfg.operMode != 0
    requires Configure(freqOff, cfg, s0).ok
    ensures var s, p, c := Configure(freqOff, cfg, s0).state, FetchParams(cfg.operMode).value, CentreCarrier(freqOff);
      && FetchParams(cfg.operMode).Some? && p == ParamsOf(cfg)
      && s.mls0Off == c + Decoder.Mls0Off
      && s.mls1Off == c + Decoder.Mls1Off
      && s.codeOff == c + CodeOff(p)
      && s.consCols == ConsCols(p)
      && s.combDist == CombDist(ConsCols(p), p.combCols)
      && s.combOff == CombOff(ConsCols(p), p.combCols)
  {
    ModesAreDistinct();
    assert cfg.operMode in Modes;
  }

  /** `x << 9` in 64 bits only depends on the low 55 bits of `x`. */
  lemma Shl9Low55(x: nat)
    ensures Shl64(x % Pow2(55), 9) == Shl64(x, 9)
  {
    var m := 0x1_0000_0000_0000_0000;
    Pow2Values();
    var q, r := x / Pow2(55), x % Pow2(55);
    assert x * 512 == m * q + r * 512;
    DivModUnique(x * 512, m, (x * 512) / m + 0, (x * 512) % m);
    ModAddMultiple(r * 512, q, m);
  }

  lemma ModAddMultiple(y: int, q: int, m: int)
    requires m > 0
    ensures (m * q + y) % m == y % m
  {
    DivModUnique(m * q + y, m, q + y / m, y % m);
  }

  /** The header value of `(md << 8) | oper_mode` splits into the mode in
      the low 8 bits and `md mod 2^47` above them. */
  lemma HeaderWordSplit(md: u64, operMode: int)
    requires 0 <= operMode < 256
    ensures HeaderWord(md, operMode) % Pow2(55) == (md % Pow2(47)) * 256 + operMode
  {
    var m := 0x1_0000_0000_0000_0000;
    var p55 := 0x80_0000_0000_0000;
    Pow2Values();
    var a, b := md / 0x8000_0000_0000, md % 0x8000_0000_0000;
    assert md * 256 == p55 * a + 256 * b;
    var a1, a0 := a / 512, a % 512;
    assert md * 256 == m * a1 + (p55 * a0 + 256 * b);
    assert p55 * a0 + 256 * b < m;
    DivModUnique(md * 256, m, a1, p55 * a0 + 256 * b);
    assert HeaderWord(md, operMode) == p55 * a0 + (256 * b + operMode);
    DivModUnique(HeaderWord(md, operMode), p55, a0, 256 * b + operMode);
  }

  /** The 71 header bits the encoder packs pass `meta_data`'s checksum
      test; the decoder recovers the mode and `md mod 2^47` as the call
      sign, and accepts exactly when the mode has a row and that call sign
      lies in `(0, 37^9)`. */
  lemma HeaderRoundTrip(md: u64, mode: int, crc16: u64 -> nat, parity: seq<bool>, operMode: int, callSign: int)
    requires 0 <= mode < 256 && |parity| == Mls1Len - 71
    ensures var r := MetaData(MetaBits(md, mode, crc16, parity), crc16, operMode, callSign);
      && ChecksumMatches(MetaBits(md, mode, crc16, parity), crc16)
      && r.operMode == mode
      && (r.ok <==> mode in Modes && 0 < md % Pow2(47) < CallSignLimit)
      && r.callSign == if r.ok then md % Pow2(47) else callSign
  {
    var bits := MetaBits(md, mode, crc16, parity);
    var header := HeaderBits(md, mode, crc16);
    assert bits[..55] == header[..55];
    assert bits[55..71] == header[55..];
    var w := HeaderWord(md, mode);
    Shl9Low55(w);
    HeaderWordSplit(md, mode);
    var meta := (md % Pow2(47)) * 256 + mode;
    assert MetaWord(bits) == meta;
    DivModUnique(meta, 256, md % Pow2(47), mode);
  }

  /** A chain tone has the power of the reference tone. */
  lemma ChainTonePower(h: Complex, fac: real, x: real)
    requires x == fac || x == -fac
    ensures Norm(Mul(h, FromReal(x))) == Norm(Mul(h, FromReal(fac)))
  {
    if x == -fac {
      assert Mul(h, FromReal(x)) == Neg(Mul(h, FromReal(fac)));
    }
  }

  /** Undoing the MLS scrambling of a window tone leaves the chain tone
      through the channel gain. */
  lemma DescrambleTone(h: Complex, x: real, b: bool)
    ensures CTimes(Mul(h, FromReal(Times(x, b))), b) == Mul(h, FromReal(x))
    ensures Mul(h, FromReal(Times(x, b))) == if b then Neg(Mul(h, FromReal(x))) else Mul(h, FromReal(x))
  {
  }

  /** The ratio of two successive chain tones received with some power is `nrz` of the bit between them, and the soft bit is
      `-127` for a set bit and `127` for a clear one. */
  lemma SoftBitOfStep(h: Complex, x: real, b: bool)
    requires Norm(Mul(h, FromReal(x))) > 0.0
    ensures SoftBit(DemodOrErase(Mul(h, FromReal(Times(x, b))), Mul(h, FromReal(x))).re) == if b then -127 else 127
  {
    var prev := Mul(h, FromReal(x));
    var curr := Mul(h, FromReal(Times(x, b)));
    DescrambleTone(h, x, b);
    assert Norm(curr) == Norm(prev);
    DivBySelf(prev);
    assert DemodOrErase(curr, prev) == Div(curr, prev);
  }

  /** The noiseless round trip of the metadata symbol: when the decoder
      sees the encoder's window tones (`MetaTone`, see
      `Encoder.MetadataSymbol`) through a complex channel gain `h` under
      which the reference tone keeps some power, soft bit `i` is `-127` exactly for a set coded bit `i` and `127`
      otherwise. */
  lemma MetaSoftBitsRoundTrip(fdom: seq<Complex>, bits: seq<bool>, mls: seq<bool>, fac: real, h: Complex)
    requires |fdom| == SymbolLen && |bits| == Mls1Len && |mls| >= Mls1Len
    requires Norm(Mul(h, FromReal(fac))) > 0.0
    requires forall j :: 0 <= j <= Mls1Len ==>
      fdom[MetaBins(Decoder.Mls1Off)[j]] == Mul(h, FromReal(MetaTone(bits, mls, fac, j)))
    ensures forall i :: 0 <= i < Mls1Len ==>
      SoftBit(DemodOrErase(Descrambled(fdom, mls, i + 1), Descrambled(fdom, mls, i)).re)
        == if bits[i] then -127 else 127
  {
    var win := MetaBins(Decoder.Mls1Off);
    forall j | 0 <= j <= Mls1Len
      ensures Descrambled(fdom, mls, j) == Mul(h, FromReal(ChainTone(bits, fac, j)))
    {
      assert win[j] == Bin(Decoder.Mls1Off - 1 + j);
      if j > 0 {
        var x := ChainTone(bits, fac, j);
        assert fdom[win[j]] == Mul(h, FromReal(Times(x, mls[j - 1])));
        DescrambleTone(h, x, mls[j - 1]);
      }
    }
    forall i | 0 <= i < Mls1Len
      ensures SoftBit(DemodOrErase(Descrambled(fdom, mls, i + 1), Descrambled(fdom, mls, i)).re)
                == if bits[i] then -127 else 127
    {
      ChainToneUnit(bits, fac, i);
      ChainTonePower(h, fac, ChainTone(bits, fac, i));
      SoftBitOfStep(h, ChainTone(bits, fac, i), bits[i]);
    }
  }

  /** The payload round trip: when the chosen lane carries the signs of the
      message `data_packet` built, the decoder's payload is the data the
      encoder was given, zero-padded to the packet size. */
  lemma PayloadRoundTrip(s: EncoderState, data: seq<byte>, scrambler: seq<byte>, crc32: seq<byte> -> nat, lane: seq<int>)
    requires 4 <= s.codeOrder <= CodeMax && |scrambler| >= DataMax
    requires DataPacket(s, data, scrambler, crc32).Some?
    requires |lane| >= DataBits(s.codeOrder)
    requires forall i :: 0 <= i < DataBits(s.codeOrder) ==>
      (lane[i] < 0 <==> DataPacket(s, data, scrambler, crc32).value.mesg[i] < 0)
    ensures var n := Pow2(s.codeOrder - 4);
      |data| <= n && Payload(lane, s.codeOrder, scrambler) == data + Zeros(n - |data|)
  {
    var pk := DataPacket(s, data, scrambler, crc32).value;
    var n := Pow2(s.codeOrder - 4);
    var input := pk.state.inputData[..n];
    var msg := Payload(lane, s.codeOrder, scrambler);
    assert Signs(lane[..DataBits(s.codeOrder)]) == UnpackLE(input);
    UnpackInjective(XorStream(msg, scrambler), input);
    XorStreamTwice(msg, scrambler);
  }

  /** For every data mode, the encoder's modulation loop and the decoder's
      soft-bit loop visit the same code-carrying columns per row, namely
      `code_cols` of them, so both handle `code_cols * cons_rows * mod_bits`
      code bits. */
  lemma CodeBitCountsAgree(freqOff: int, cfg: Config, s0: EncoderState)
    requires cfg in Configs && cfg.operMode != 0
    requires Configure(freqOff, cfg, s0).ok
    ensures var s, p := Configure(freqOff, cfg, s0).state, FetchParams(cfg.operMode).value;
      && FetchParams(cfg.operMode).Some?
      && CodeColumns(s) == cfg.codeCols
      && DataColumns(ConsCols(p), CombDist(ConsCols(p), p.combCols), CombOff(ConsCols(p), p.combCols), p.modBits > 3)
           == cfg.codeCols
      && s.consRows * CodeColumns(s) * s.modBits == cfg.codeCols * cfg.consRows * cfg.modBits
  {
    var s := Configure(freqOff, cfg, s0).state;
    OffsetsAgree(freqOff, cfg, s0);
    assert FetchParams(cfg.operMode).value == ParamsOf(cfg);
    ConfiguredRows(freqOff, cfg, s0);
    CombModeOf(cfg);
    SoftBitsMeetPadding(cfg.operMode);
    CodeBitsOf(s, cfg);
  }

  /** Given the layout `configure` sets up and the decoder's column count,
      the encoder's modulation loop consumes the decoder's code bits. */
  lemma CodeBitsOf(s: EncoderState, cfg: Config)
    requires var p := ParamsOf(cfg);
      && s.consRows == cfg.consRows && s.modBits == cfg.modBits
      && (s.reservedTones != 0 <==> cfg.modBits > 3)
      && s.consCols == ConsCols(p) >= 0
      && s.combDist == CombDist(ConsCols(p), p.combCols) != 0
      && s.combOff == CombOff(ConsCols(p), p.combCols)
      && DataColumns(ConsCols(p), s.combDist, s.combOff, p.modBits > 3) == cfg.codeCols
    ensures CodeColumns(s) == cfg.codeCols
    ensures s.consRows * CodeColumns(s) * s.modBits == cfg.codeCols * cfg.consRows * cfg.modBits
  {
    CodeColumnsAre(s, cfg.modBits > 3);
  }

  /** A successful `configure` takes the row count, the modulation and
      whether tones are reserved from its table row. */
  lemma ConfiguredRows(freqOff: int, cfg: Config, s0: EncoderState)
    requires Configure(freqOff, cfg, s0).ok
    ensures var s := Configure(freqOff, cfg, s0).state;
      s.consRows == cfg.consRows && s.modBits == cfg.modBits && s.reservedTones == cfg.reservedTones
  {
  }

  /** A row of the table reserves tones exactly when it has comb columns,
      which is exactly when it modulates more than three bits per tone. */
  lemma CombModeOf(cfg: Config)
    requires cfg in Configs
    ensures cfg.reservedTones != 0 <==> cfg.modBits > 3
  {
    CombModesAgree();
  }

  /** The encoder's column count is `DataColumns`, skipping comb columns
      exactly when tones are reserved. */
  lemma CodeColumnsAre(s: EncoderState, skip: bool)
    requires s.consCols >= 0 && s.combDist != 0 && (s.reservedTones != 0 <==> skip)
    ensures CodeColumns(s) == DataColumns(s.consCols, s.combDist, s.combOff, skip)
  {
    if !skip {
      DataColumnsNoSkip(s.consCols, s.combDist, s.combOff);
    }
  }
}
