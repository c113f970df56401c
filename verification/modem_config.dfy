/** The operating-mode table `modem_configs` and the invariants the
    encoder's and decoder's fixed-size buffers rely on. */
module ModemConfig {
  import opened Bits

  /** One row of the table (`modem_config_t`). */
  datatype Config = Config(
    operMode: int,
    bandWidth: int,
    modBits: int,
    consRows: int,
    combCols: int,
    codeOrder: int,
    codeCols: int,
    reservedTones: int)

  const Configs: seq<Config> := [
    Config( 0, 1600, 0,  0,  0,  0, 256,  0),
    Config(22, 1600, 3,  3,  0, 12, 256,  0),
    Config(23, 1600, 2,  8,  0, 12, 256,  0),
    Config(24, 1600, 3, 10,  0, 13, 256,  0),
    Config(25, 1600, 2, 32,  0, 14, 256,  0),
    Config(26, 1700, 4,  4,  8, 12, 256,  8),
    Config(27, 1700, 4,  8,  8, 13, 256,  8),
    Config(28, 1700, 4, 16,  8, 14, 256,  8),
    Config(29, 1900, 6,  5, 16, 13, 273, 15),
    Config(30, 1900, 6, 10, 16, 14, 273, 15)
  ]

  /** The decoder's buffer bounds: `bits_max = 1 << code_max`,
      `data_max`, `cols_max = 273 + 16` and `rows_max`. */
  const CodeMax := 14
  const BitsMax := 16384
  const DataMax := 1024
  const ColsMax := 273 + 16
  const RowsMax := 32

  /** Payload bits of a packet, `data_bits = 1 << (code_order - 1)`. */
  function DataBits(codeOrder: int): nat
    requires codeOrder >= 1
  {
    Pow2(codeOrder - 1)
  }

  /** Payload bytes of a packet, `data_bytes = data_bits / 8`. */
  function DataBytes(codeOrder: int): nat
    requires codeOrder >= 1
  {
    DataBits(codeOrder) / 8
  }

  /** From code order 4 on, the payload is exactly the `1 << (code_order - 4)`
      bytes the encoder's length check allows, and it fills whole bytes; up
      to `code_max` it fits `data_max`. */
  lemma DataBytesIsLimit(codeOrder: int)
    requires codeOrder >= 4
    ensures DataBytes(codeOrder) == Pow2(codeOrder - 4)
    ensures DataBits(codeOrder) == 8 * DataBytes(codeOrder)
    ensures codeOrder <= CodeMax ==> DataBytes(codeOrder) <= DataMax && DataBits(codeOrder) + 32 <= BitsMax
  {
    Pow2Add(3, codeOrder - 4);
    assert Pow2(3) == 8;
    if codeOrder <= CodeMax {
      Pow2Monotone(codeOrder - 4, 10);
      assert Pow2(10) == 1024;
    }
  }

  /** The operating modes that have a row: the idle mode 0 and 22 to 30. */
  const Modes: set<int> := {0, 22, 23, 24, 25, 26, 27, 28, 29, 30}

  /** The modes with a row are the idle mode and the range 22..30. */
  lemma ModesRange(m: int)
    ensures m in Modes <==> m == 0 || 22 <= m <= 30
  {
  }

  /** Every mode appears exactly once, and the modes are exactly `Modes`. */
  lemma ModesAreDistinct()
    ensures forall i, j :: 0 <= i < j < |Configs| ==> Configs[i].operMode != Configs[j].operMode
    ensures (set c | c in Configs :: c.operMode) == Modes
  {
    ModesIncrease();
    ModesOfTable();
  }

  lemma ModesIncrease()
    ensures forall i, j :: 0 <= i < j < |Configs| ==> Configs[i].operMode != Configs[j].operMode
  {
  }

  lemma ModesOfTable()
    ensures (set c | c in Configs :: c.operMode) == Modes
  {
  }

  /** Each payload-carrying row uses a code order and a modulation the
      decoder's shuffle, polar and constellation switches handle, and its
      code bits fit the polar code word, which fits `bits_max`; the payload
      of `2^(code_order-4)` bytes fits `data_max`. */
  lemma CodeFitsBuffers()
    ensures forall c :: c in Configs && c.operMode != 0 ==>
      && c.codeOrder in {12, 13, 14}
      && c.modBits in {2, 3, 4, 6}
      && c.codeCols * c.consRows * c.modBits <= Pow2(c.codeOrder) <= BitsMax
      && Pow2(c.codeOrder - 4) <= DataMax
  {
    CodeOrderPowers();
    forall c | c in Configs && c.operMode != 0
      ensures c.codeOrder in {12, 13, 14} && c.modBits in {2, 3, 4, 6}
      ensures c.codeCols * c.consRows * c.modBits <= Pow2(c.codeOrder)
    {
    }
  }

  /** The powers of two of the code orders in use. */
  lemma CodeOrderPowers()
    ensures Pow2(8) == 256 && Pow2(9) == 512 && Pow2(10) == 1024
    ensures Pow2(12) == 4096 && Pow2(13) == 8192 && Pow2(14) == 16384
  {
    assert Pow2(8) == 256;
    assert Pow2(12) == 4096;
  }

  /** Every row fits the constellation grid (`cols_max` by `rows_max`). */
  lemma GridFitsBuffers()
    ensures forall c :: c in Configs ==>
      0 <= c.codeCols + c.combCols <= ColsMax && 0 <= c.consRows <= RowsMax
  {
  }

  /** Reserved tones, comb pilots and the 16/64-QAM constellations go
      together, so the encoder's `reserved_tones` test and the decoder's
      `mod_bits > 3` test pick the same modes. */
  lemma CombModesAgree()
    ensures forall c :: c in Configs ==>
      (c.reservedTones != 0 <==> c.combCols != 0) && (c.combCols != 0 <==> c.modBits > 3)
  {
  }
}
