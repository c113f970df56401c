/** The ES8388 audio codec driver as operations on the codec's register
    file. A write over I2C lands when the codec acknowledges it; `ack`
    tells, per register address, whether it does. Reads always succeed.
    Each setter returns the conjunction of its writes' acknowledgements,
    as the driver's `res &= write_reg(...)` does. */
module ES8388 {
  import opened Bits

  /** The 53 registers `CONTROL1` (0) to `DACCONTROL30` (52). */
  const RegCount: nat := 53
  type Registers = s: seq<byte> | |s| == RegCount witness seq(53, _ => 0)

  const ADCCONTROL1: nat := 9
  const ADCCONTROL2: nat := 10
  const ADCCONTROL3: nat := 11
  const ADCCONTROL10: nat := 18
  const ADCCONTROL11: nat := 19
  const ADCCONTROL12: nat := 20
  const ADCCONTROL13: nat := 21
  const ADCCONTROL14: nat := 22
  const DACCONTROL3: nat := 25
  const DACCONTROL16: nat := 38
  const DACCONTROL17: nat := 39
  const DACCONTROL20: nat := 42
  const DACCONTROL24: nat := 46
  const DACCONTROL25: nat := 47
  const DACCONTROL26: nat := 48
  const DACCONTROL27: nat := 49

  datatype InSel = In1 | In2 | In1Diff | In2Diff
  datatype OutSel = Out1 | Out2 | OutAll
  datatype MixSel = MixIn1 | MixIn2 | MixRes | MixAdc
  datatype MixerControl = DacOut | SrcSelOut | MixAll
  datatype AlcMode = Disable | Generic | Voice | Music

  /** The register file and the input the driver last selected. */
  datatype Codec = Codec(regs: Registers, inSel: InSel)

  /** A setter's result: the codec afterwards and the returned flag. */
  datatype Outcome = Outcome(codec: Codec, ok: bool)

  /** Register `reg` of `after` holds `v` if the write was acknowledged
      and its old value otherwise. */
  predicate Stored(before: Codec, after: Codec, reg: nat, v: byte, ack: nat -> bool)
    requires reg < RegCount
  {
    after.regs[reg] == if ack(reg) then v else before.regs[reg]
  }

  /** Only the registers in `written` may differ. */
  predicate Only(before: Codec, after: Codec, written: set<nat>)
  {
    forall r :: 0 <= r < RegCount && r !in written ==> after.regs[r] == before.regs[r]
  }

  /** `write_reg(reg, v)`. */
  function Write(c: Codec, reg: nat, v: byte, ack: nat -> bool): (r: Outcome)
    requires reg < RegCount
    ensures r.ok == ack(reg) && r.codec.inSel == c.inSel
    ensures Stored(c, r.codec, reg, v, ack) && Only(c, r.codec, {reg})
  {
    if ack(reg) then Outcome(c.(regs := c.regs[reg := v]), true) else Outcome(c, false)
  }

  /** Two writes in a row; the flag is the conjunction of both. */
  function Write2(c: Codec, reg1: nat, v1: byte, reg2: nat, v2: byte, ack: nat -> bool): (r: Outcome)
    requires reg1 < RegCount && reg2 < RegCount && reg1 != reg2
    ensures r.ok == (ack(reg1) && ack(reg2)) && r.codec.inSel == c.inSel
    ensures Stored(c, r.codec, reg1, v1, ack) && Stored(c, r.codec, reg2, v2, ack)
    ensures Only(c, r.codec, {reg1, reg2})
  {
    var a := Write(c, reg1, v1, ack);
    var b := Write(a.codec, reg2, v2, ack);
    Outcome(b.codec, a.ok && b.ok)
  }

  /** `outputSelect(sel)`: the output routing `0x30` (OUT1), `0x0C`
      (OUT2) or `0x3C` (both) in DACCONTROL16. */
  function OutputSelect(c: Codec, sel: OutSel, ack: nat -> bool): (r: Outcome)
    ensures r.ok == ack(DACCONTROL16) && r.codec.inSel == c.inSel && Only(c, r.codec, {DACCONTROL16})
    ensures Stored(c, r.codec, DACCONTROL16, match sel case Out1 => 0x30 case Out2 => 0x0C case OutAll => 0x3C, ack)
  {
    match sel
    case Out1 => Write(c, DACCONTROL16, 0x30, ack)
    case Out2 => Write(c, DACCONTROL16, 0x0C, ack)
    case OutAll => Write(c, DACCONTROL16, 0x3C, ack)
  }

  /** `inputSelect(sel)`: line input 1 or 2 in ADCCONTROL2, or the
      differential input with its pair chosen in ADCCONTROL3; the
      selection is remembered for `analogBypass`. */
  function InputSelect(c: Codec, sel: InSel, ack: nat -> bool): (r: Outcome)
    ensures r.codec.inSel == sel
    ensures Stored(c, r.codec, ADCCONTROL2, match sel case In1 => 0x00 case In2 => 0x50 case _ => 0xF0, ack)
    ensures sel == In1Diff ==> Stored(c, r.codec, ADCCONTROL3, 0x00, ack)
    ensures sel == In2Diff ==> Stored(c, r.codec, ADCCONTROL3, 0x80, ack)
    ensures sel in {In1, In2} ==> r.ok == ack(ADCCONTROL2) && Only(c, r.codec, {ADCCONTROL2})
    ensures sel in {In1Diff, In2Diff} ==>
      r.ok == (ack(ADCCONTROL2) && ack(ADCCONTROL3)) && Only(c, r.codec, {ADCCONTROL2, ADCCONTROL3})
  {
    var w := match sel
      case In1 => Write(c, ADCCONTROL2, 0x00, ack)
      case In2 => Write(c, ADCCONTROL2, 0x50, ack)
      case In1Diff => Write2(c, ADCCONTROL2, 0xF0, ADCCONTROL3, 0x00, ack)
      case In2Diff => Write2(c, ADCCONTROL2, 0xF0, ADCCONTROL3, 0x80, ack);
    Outcome(w.codec.(inSel := sel), w.ok)
  }

  /** Setting a clear bit `k` by adding `2^k` changes that bit alone. */
  lemma {:induction false} AddBit(x: nat, k: nat, n: nat)
    requires k < n && !BitsOf(x, n)[k]
    ensures BitsOf(x + Pow2(k), n) == BitsOf(x, n)[k := true]
  {
    if k == 0 {
      assert (x + 1) / 2 == x / 2;
    } else {
      assert (x + Pow2(k)) % 2 == x % 2 && (x + Pow2(k)) / 2 == x / 2 + Pow2(k - 1);
      AddBit(x / 2, k - 1, n - 1);
    }
  }

  /** Clearing a set bit `k` by subtracting `2^k` changes that bit alone. */
  lemma {:induction false} SubBit(x: nat, k: nat, n: nat)
    requires k < n && BitsOf(x, n)[k]
    ensures x >= Pow2(k)
    ensures BitsOf(x - Pow2(k), n) == BitsOf(x, n)[k := false]
  {
    if k == 0 {
      assert (x - 1) / 2 == x / 2;
    } else {
      SubBit(x / 2, k - 1, n - 1);
      DivModUnique(x - Pow2(k), 2, x / 2 - Pow2(k - 1), x % 2);
    }
  }

  /** A byte whose bit 2 is clear has room for `4` more. */
  lemma Bit2Room(v: byte)
    requires !BitsOf(v, 8)[2]
    ensures v + 4 < 256
  {
    assert BitsOf(v, 8)[2] == BitsOf(v / 2, 7)[1] == BitsOf(v / 4, 6)[0];
    assert (v / 2) / 2 == v / 4;
  }

  /** `bitSet(v, 2)` or `bitClear(v, 2)` on a byte. */
  function WithBit2(v: byte, on: bool): (r: byte)
    ensures BitsOf(r, 8) == BitsOf(v, 8)[2 := on]
  {
    var b := BitsOf(v, 8);
    assert Pow2(2) == 4;
    if on && !b[2] then
      AddBit(v, 2, 8);
      Bit2Room(v);
      v + 4
    else if !on && b[2] then
      SubBit(v, 2, 8);
      v - 4
    else
      assert b[2 := on] == b;
      v
  }

  /** `DACmute(mute)`: bit 2 of DACCONTROL3 set or cleared, its other
      bits and every other register kept. */
  function DacMute(c: Codec, mute: bool, ack: nat -> bool): (r: Outcome)
    ensures r.ok == ack(DACCONTROL3) && r.codec.inSel == c.inSel && Only(c, r.codec, {DACCONTROL3})
    ensures ack(DACCONTROL3) ==>
      && BitsOf(r.codec.regs[DACCONTROL3], 8)[2] == mute
      && forall k :: 0 <= k < 8 && k != 2 ==>
           BitsOf(r.codec.regs[DACCONTROL3], 8)[k] == BitsOf(c.regs[DACCONTROL3], 8)[k]
    ensures !ack(DACCONTROL3) ==> r.codec == c
  {
    Write(c, DACCONTROL3, WithBit2(c.regs[DACCONTROL3], mute), ack)
  }

  /** `getMaxVolume()`. */
  const MaxVolume: byte := 33

  function Min(a: int, b: int): int
  {
    if a < b then a else b
  }

  /** `setOutputVolume(out, vol)` as written: the volume clamped to 33 goes
      to DACCONTROL24/25 for OUT1 and for OUTALL, and to DACCONTROL26/27
      for OUT2 only, because the `else` keeps OUTALL from reaching the
      second branch. */
  function SetOutputVolume(c: Codec, outSel: OutSel, vol: byte, ack: nat -> bool): (r: Outcome)
    ensures r.codec.inSel == c.inSel
    ensures outSel != Out2 ==>
      && Stored(c, r.codec, DACCONTROL24, Min(vol, MaxVolume), ack)
      && Stored(c, r.codec, DACCONTROL25, Min(vol, MaxVolume), ack)
      && Only(c, r.codec, {DACCONTROL24, DACCONTROL25})
      && r.ok == (ack(DACCONTROL24) && ack(DACCONTROL25))
    ensures outSel == Out2 ==>
      && Stored(c, r.codec, DACCONTROL26, Min(vol, MaxVolume), ack)
      && Stored(c, r.codec, DACCONTROL27, Min(vol, MaxVolume), ack)
      && Only(c, r.codec, {DACCONTROL26, DACCONTROL27})
      && r.ok == (ack(DACCONTROL26) && ack(DACCONTROL27))
  {
    var v := Min(vol, MaxVolume);
    if outSel.OutAll? || outSel.Out1? then Write2(c, DACCONTROL24, v, DACCONTROL25, v, ack)
    // the `else if` condition holds here: `outSel` can only be OUT2
    else Write2(c, DACCONTROL26, v, DACCONTROL27, v, ack)
  }

  /** With OUTALL, the written driver leaves the OUT2 volume registers
      alone: setting volume 0 on a codec whose OUT2 volume is 33 keeps 33
      there even when every write is acknowledged. */
  lemma OutAllMissesOut2(c: Codec)
    requires c.regs[DACCONTROL26] == 33 && c.regs[DACCONTROL27] == 33
    ensures var r := SetOutputVolume(c, OutAll, 0, _ => true);
      r.codec.regs[DACCONTROL24] == 0 && r.codec.regs[DACCONTROL26] == 33 && r.codec.regs[DACCONTROL27] == 33
  {
  }

  /** `setOutputVolume` as its OUTALL ("enable all") selector intends: the
      clamped volume goes to both output pairs. */
  function SetOutputVolumeAll(c: Codec, outSel: OutSel, vol: byte, ack: nat -> bool): (r: Outcome)
    ensures r.codec.inSel == c.inSel
    ensures outSel != Out2 ==>
      Stored(c, r.codec, DACCONTROL24, Min(vol, MaxVolume), ack) && Stored(c, r.codec, DACCONTROL25, Min(vol, MaxVolume), ack)
    ensures outSel != Out1 ==>
      Stored(c, r.codec, DACCONTROL26, Min(vol, MaxVolume), ack) && Stored(c, r.codec, DACCONTROL27, Min(vol, MaxVolume), ack)
    ensures Only(c, r.codec, {DACCONTROL24, DACCONTROL25, DACCONTROL26, DACCONTROL27})
    ensures r.ok <==>
      && (outSel != Out2 ==> ack(DACCONTROL24) && ack(DACCONTROL25))
      && (outSel != Out1 ==> ack(DACCONTROL26) && ack(DACCONTROL27))
    ensures outSel != OutAll ==> r == SetOutputVolume(c, outSel, vol, ack)
  {
    var v := Min(vol, MaxVolume);
    match outSel
    case Out1 => Write2(c, DACCONTROL24, v, DACCONTROL25, v, ack)
    case Out2 => Write2(c, DACCONTROL26, v, DACCONTROL27, v, ack)
    case OutAll =>
      var a := Write2(c, DACCONTROL24, v, DACCONTROL25, v, ack);
      var b := Write2(a.codec, DACCONTROL26, v, DACCONTROL27, v, ack);
      Outcome(b.codec, a.ok && b.ok)
  }

  /** `getOutputVolume()`: the OUT1 left volume. */
  function GetOutputVolume(c: Codec): byte
  {
    c.regs[DACCONTROL24]
  }

  /** Reading the volume back after an acknowledged volume setting for
      OUT1 or OUTALL (OUTALL as intended) gives the clamped volume. */
  lemma OutputVolumeRoundTrip(c: Codec, outSel: OutSel, vol: byte, ack: nat -> bool)
    requires outSel != Out2 && ack(DACCONTROL24)
    ensures GetOutputVolume(SetOutputVolumeAll(c, outSel, vol, ack).codec) == Min(vol, MaxVolume) <= MaxVolume
  {
  }

  /** `setInputGain(gain)`: the gain clamped to 8 in both nibbles of
      ADCCONTROL1. */
  function SetInputGain(c: Codec, gain: byte, ack: nat -> bool): (r: Outcome)
    ensures r.ok == ack(ADCCONTROL1) && r.codec.inSel == c.inSel && Only(c, r.codec, {ADCCONTROL1})
    ensures ack(ADCCONTROL1) ==>
      r.codec.regs[ADCCONTROL1] / 16 == Min(gain, 8) && r.codec.regs[ADCCONTROL1] % 16 == Min(gain, 8)
    ensures !ack(ADCCONTROL1) ==> r.codec == c
  {
    var g := if gain > 8 then 8 else gain;
    Write(c, ADCCONTROL1, g * 16 + g, ack)
  }

  /** `getInputGain()`: the low nibble of ADCCONTROL1. */
  function GetInputGain(c: Codec): (g: byte)
    ensures g < 16
  {
    c.regs[ADCCONTROL1] % 16
  }

  /** Reading the gain back after an acknowledged `setInputGain` gives the
      clamped gain. */
  lemma InputGainRoundTrip(c: Codec, gain: byte, ack: nat -> bool)
    requires ack(ADCCONTROL1)
    ensures GetInputGain(SetInputGain(c, gain, ack).codec) == Min(gain, 8)
  {
  }

  /** `mixsel_t` as a number. */
  function MixCode(m: MixSel): nat
  {
    match m
    case MixIn1 => 0
    case MixIn2 => 1
    case MixRes => 2
    case MixAdc => 3
  }

  /** `mixerSourceSelect(l, r)`: the left source in bits 5:3 and the right
      one in bits 2:0 of DACCONTROL16. */
  function MixerSourceSelect(c: Codec, l: MixSel, rt: MixSel, ack: nat -> bool): (r: Outcome)
    ensures r.ok == ack(DACCONTROL16) && r.codec.inSel == c.inSel && Only(c, r.codec, {DACCONTROL16})
    ensures ack(DACCONTROL16) ==>
      r.codec.regs[DACCONTROL16] / 8 == MixCode(l) && r.codec.regs[DACCONTROL16] % 8 == MixCode(rt)
    ensures !ack(DACCONTROL16) ==> r.codec == c
  {
    Write(c, DACCONTROL16, MixCode(l) * 8 + MixCode(rt), ack)
  }

  function B(b: bool): nat
  {
    if b then 1 else 0
  }

  /** The mixer control byte `(dac << 7) | (line << 6) | (vol << 3)` with
      the volume clamped to 7; its fields read back. */
  function MixerByte(dac: bool, line: bool, vol: byte): (v: byte)
    ensures v / 128 == B(dac) && (v / 64) % 2 == B(line) && (v / 8) % 8 == Min(vol, 7) && v % 8 == 0
  {
    var vl := if vol > 7 then 7 else vol;
    B(dac) * 128 + B(line) * 64 + vl * 8
  }

  /** `mixerSourceControl(ld, li, lvol, rd, ri, rvol)`: the left mixer in
      DACCONTROL17 and the right one in DACCONTROL20. */
  function MixerSourceControl(c: Codec, ld: bool, li: bool, lvol: byte, rd: bool, ri: bool, rvol: byte,
                              ack: nat -> bool): (r: Outcome)
    ensures r.ok == (ack(DACCONTROL17) && ack(DACCONTROL20)) && r.codec.inSel == c.inSel
    ensures Stored(c, r.codec, DACCONTROL17, MixerByte(ld, li, lvol), ack)
    ensures Stored(c, r.codec, DACCONTROL20, MixerByte(rd, ri, rvol), ack)
    ensures Only(c, r.codec, {DACCONTROL17, DACCONTROL20})
  {
    Write2(c, DACCONTROL17, MixerByte(ld, li, lvol), DACCONTROL20, MixerByte(rd, ri, rvol), ack)
  }

  /** `mixerSourceControl(mix)`: DAC only, line only or both into each
      mixer at 0 dB (volume 2); it reports success whatever the writes
      return. */
  function MixerSourceControlMode(c: Codec, mix: MixerControl, ack: nat -> bool): (r: Outcome)
    ensures r.ok && r.codec.inSel == c.inSel && Only(c, r.codec, {DACCONTROL17, DACCONTROL20})
    ensures var v := match mix case DacOut => 0x90 case SrcSelOut => 0x50 case MixAll => 0xD0;
      Stored(c, r.codec, DACCONTROL17, v, ack) && Stored(c, r.codec, DACCONTROL20, v, ack)
  {
    var w := match mix
      case DacOut => MixerSourceControl(c, true, false, 2, true, false, 2, ack)
      case SrcSelOut => MixerSourceControl(c, false, true, 2, false, true, 2, ack)
      case MixAll => MixerSourceControl(c, true, true, 2, true, true, 2, ack);
    Outcome(w.codec, true)
  }

  /** `analogBypass(bypass)`: with bypass, the selected line input feeds
      both mixers (DACCONTROL16 `0x00` for IN1, `0x09` for IN2, untouched
      for a differential input) and the mixers take the line only
      (`0x50`); without it they take the DAC only (`0x90`). It reports
      success whatever the writes return. */
  function AnalogBypass(c: Codec, bypass: bool, ack: nat -> bool): (r: Outcome)
    ensures r.ok && r.codec.inSel == c.inSel
    ensures Only(c, r.codec, {DACCONTROL16, DACCONTROL17, DACCONTROL20})
    ensures var v := if bypass then 0x50 else 0x90;
      Stored(c, r.codec, DACCONTROL17, v, ack) && Stored(c, r.codec, DACCONTROL20, v, ack)
    ensures bypass && c.inSel == In1 ==> Stored(c, r.codec, DACCONTROL16, 0x00, ack)
    ensures bypass && c.inSel == In2 ==> Stored(c, r.codec, DACCONTROL16, 0x09, ack)
    ensures !(bypass && c.inSel in {In1, In2}) ==> r.codec.regs[DACCONTROL16] == c.regs[DACCONTROL16]
  {
    if bypass then
      var s :=
        if c.inSel == In1 then MixerSourceSelect(c, MixIn1, MixIn1, ack).codec
        else if c.inSel == In2 then MixerSourceSelect(c, MixIn2, MixIn2, ack).codec
        else c;
      Outcome(MixerSourceControl(s, false, true, 2, false, true, 2, ack).codec, true)
    else
      Outcome(MixerSourceControl(c, true, false, 2, true, false, 2, ack).codec, true)
  }

  /** The fields of the automatic level control that `setALCmode` packs. */
  datatype Alc = Alc(
    alcSel: nat, alcLvl: nat, maxGain: nat, minGain: nat, alcHld: nat, alcDcy: nat, alcAtk: nat,
    alcMode: nat, alcZc: nat, timeOut: nat, ngat: nat, ngth: nat, ngg: nat, winSize: nat)

  /** Every field fits its width in the register layout. */
  predicate AlcFits(a: Alc)
  {
    && a.alcSel < 4 && a.maxGain < 8 && a.minGain < 8
    && a.alcLvl < 16 && a.alcHld < 16 && a.alcDcy < 16 && a.alcAtk < 16
    && a.alcMode < 2 && a.alcZc < 2 && a.timeOut < 2 && a.winSize < 32
    && a.ngth < 32 && a.ngg < 2 && a.ngat < 2
  }

  /** The settings of each mode: the generic ones, with the level control
      off for DISABLE and the user guide's music and voice variations. */
  function AlcSettings(mode: AlcMode): (a: Alc)
    ensures AlcFits(a)
    ensures (a.alcSel == 0) <==> mode == Disable
  {
    var generic := Alc(3, 3, 7, 0, 0, 5, 7, 0, 0, 0, 1, 17, 0, 6);
    match mode
    case Disable => generic.(alcSel := 0)
    case Generic => generic
    case Music => generic.(alcDcy := 10, alcAtk := 6, ngth := 11)
    case Voice => generic.(alcLvl := 12, maxGain := 5, minGain := 2, alcDcy := 1, alcAtk := 2, ngth := 24, ngg := 1)
  }

  /** The five register values `setALCmode` writes to ADCCONTROL10..14. */
  function AlcRegisters(a: Alc): (v: seq<byte>)
    requires AlcFits(a)
    ensures |v| == 5
  {
    [a.alcSel * 64 + a.maxGain * 8 + a.minGain,
     a.alcLvl * 16 + a.alcHld,
     a.alcDcy * 16 + a.alcAtk,
     a.alcMode * 128 + a.alcZc * 64 + a.timeOut * 32 + a.winSize,
     a.ngth * 8 + a.ngg * 4 + a.ngat]
  }

  /** A field above `m` and one below it read back by `/` and `%`. */
  lemma Split(hi: nat, lo: nat, m: nat)
    requires lo < m
    ensures (hi * m + lo) / m == hi && (hi * m + lo) % m == lo
  {
    DivModUnique(hi * m + lo, m, hi, lo);
  }

  /** The packing is lossless: every field reads back from its bits. */
  lemma AlcUnpack(a: Alc)
    requires AlcFits(a)
    ensures var v := AlcRegisters(a);
      && v[0] / 64 == a.alcSel && (v[0] / 8) % 8 == a.maxGain && v[0] % 8 == a.minGain
      && v[1] / 16 == a.alcLvl && v[1] % 16 == a.alcHld
      && v[2] / 16 == a.alcDcy && v[2] % 16 == a.alcAtk
      && v[3] / 128 == a.alcMode && (v[3] / 64) % 2 == a.alcZc && (v[3] / 32) % 2 == a.timeOut
      && v[3] % 32 == a.winSize
      && v[4] / 8 == a.ngth && (v[4] / 4) % 2 == a.ngg && v[4] % 4 == a.ngat
  {
    var v := AlcRegisters(a);
    Split(a.alcSel, a.maxGain * 8 + a.minGain, 64);
    Split(a.alcSel * 8 + a.maxGain, a.minGain, 8);
    Split(a.alcSel, a.maxGain, 8);
    Split(a.alcLvl, a.alcHld, 16);
    Split(a.alcDcy, a.alcAtk, 16);
    Split(a.alcMode, a.alcZc * 64 + a.timeOut * 32 + a.winSize, 128);
    Split(a.alcMode * 2 + a.alcZc, a.timeOut * 32 + a.winSize, 64);
    Split(a.alcMode, a.alcZc, 2);
    Split(a.alcMode * 4 + a.alcZc * 2 + a.timeOut, a.winSize, 32);
    Split(a.alcMode * 2 + a.alcZc, a.timeOut, 2);
    Split(a.ngth, a.ngg * 4 + a.ngat, 8);
    Split(a.ngth * 2 + a.ngg, a.ngat, 4);
    Split(a.ngth, a.ngg, 2);
  }

  /** `setALCmode(mode)`: VOICE first sets the PGA gain to `0x77`; then the
      packed settings go to ADCCONTROL10..14. */
  function SetAlcMode(c: Codec, mode: AlcMode, ack: nat -> bool): (r: Outcome)
    ensures r.codec.inSel == c.inSel
    ensures var v := AlcRegisters(AlcSettings(mode));
      && Stored(c, r.codec, ADCCONTROL10, v[0], ack) && Stored(c, r.codec, ADCCONTROL11, v[1], ack)
      && Stored(c, r.codec, ADCCONTROL12, v[2], ack) && Stored(c, r.codec, ADCCONTROL13, v[3], ack)
      && Stored(c, r.codec, ADCCONTROL14, v[4], ack)
    ensures mode == Voice ==> Stored(c, r.codec, ADCCONTROL1, 0x77, ack)
    ensures mode != Voice ==> r.codec.regs[ADCCONTROL1] == c.regs[ADCCONTROL1]
    ensures Only(c, r.codec, {ADCCONTROL1, ADCCONTROL10, ADCCONTROL11, ADCCONTROL12, ADCCONTROL13, ADCCONTROL14})
    ensures r.ok == (&& (mode == Voice ==> ack(ADCCONTROL1))
                     && ack(ADCCONTROL10) && ack(ADCCONTROL11) && ack(ADCCONTROL12)
                     && ack(ADCCONTROL13) && ack(ADCCONTROL14))
  {
    var p := if mode == Voice then Write(c, ADCCONTROL1, 0x77, ack) else Outcome(c, true);
    var w := WriteAlc(p.codec, AlcRegisters(AlcSettings(mode)), ack);
    Outcome(w.codec, p.ok && w.ok)
  }

  /** The writes of ADCCONTROL10..14 in order. */
  function WriteAlc(c: Codec, v: seq<byte>, ack: nat -> bool): (r: Outcome)
    requires |v| == 5
    ensures r.codec.inSel == c.inSel
    ensures && Stored(c, r.codec, ADCCONTROL10, v[0], ack) && Stored(c, r.codec, ADCCONTROL11, v[1], ack)
            && Stored(c, r.codec, ADCCONTROL12, v[2], ack) && Stored(c, r.codec, ADCCONTROL13, v[3], ack)
            && Stored(c, r.codec, ADCCONTROL14, v[4], ack)
    ensures Only(c, r.codec, {ADCCONTROL10, ADCCONTROL11, ADCCONTROL12, ADCCONTROL13, ADCCONTROL14})
    ensures r.ok == (ack(ADCCONTROL10) && ack(ADCCONTROL11) && ack(ADCCONTROL12)
                     && ack(ADCCONTROL13) && ack(ADCCONTROL14))
  {
    var a := Write2(c, ADCCONTROL10, v[0], ADCCONTROL11, v[1], ack);
    var b := Write2(a.codec, ADCCONTROL12, v[2], ADCCONTROL13, v[3], ack);
    var d := Write(b.codec, ADCCONTROL14, v[4], ack);
    Outcome(d.codec, a.ok && b.ok && d.ok)
  }

  /** With DISABLE the level-control selector bits 7:6 of ADCCONTROL10 are
      zero, and in every other mode they select both channels. */
  lemma AlcDisableClearsSelector(c: Codec, mode: AlcMode, ack: nat -> bool)
    requires ack(ADCCONTROL10)
    ensures SetAlcMode(c, mode, ack).codec.regs[ADCCONTROL10] / 64 == if mode == Disable then 0 else 3
  {
  }
}
