# rattlegram-openmodem: the modem's bookkeeping and its audio adapters, in Dafny

This project models the integer and bit-level core of the rattlegram OFDM
modem firmware and the small adapters around it, and proves properties of
that model:

- **The frame layout of the modem** (`encode.hh`, `decode.hh`,
  `modem_config.hh`). It covers:
  - the operating-mode table;
  - the carrier arithmetic of `bin`, with C's truncating `%`, and the
    `mls0_off`, `mls1_off` and `code_off` offsets;
  - the comb-pilot and reserved-tone positions;
  - the 71-bit metadata header, packed by the encoder and checked by
    `meta_data`;
  - the differential chains of the synchronization and metadata symbols,
    on exact reals;
  - the payload length check, zero padding and scrambling of
    `data_packet`;
  - the code-bit counts of the encoder's modulation loop and of the
    decoder's soft-bit loop;
  - the lane selection and descrambling that end `fetch`.

  Modules: `ModemConfig`, `Tones`, `Encoder`, `Decoder`, and `Modem`, which
  proves the encoder–decoder agreements.
- **The base-37 call-sign codec** of the modem's `main.cpp` (`Base37`).
- **The sample FIFOs.**
  - `SampleQueue` models the modem's `sampleSink`/`sampleSource` pair.
  - `QueueGenerator` models the audio test's queue-backed frame source. Its
    `sampleSink` is the same push loop, so `SampleQueue.Sink` stands for
    both.
- **The ES8388 codec's register setters** (`ES8388`). They act on a
  register map, and each I2C write's acknowledgement is a parameter.
- **The I2S sample framing** of `I2SAudio`. On the way out, samples are
  interleaved and cut into 256-byte messages. On the way in, messages are
  split into two bounded channel queues.
- **The zero-stuffing `Upsampler`.**

Shared pieces:

- `Bits`: powers of two, little-endian bit packing, byte XOR streams, C
  division and `int16_t` bytes.
- `Cmplx`: exact complex numbers over reals.
- `Wrappers`: `Option`.

Where the source calls code that is not part of this model, the model takes
that code as a parameter:

- CRC-16 and CRC-32 are functions passed in.
- The BCH parity and the MLS and Xorshift32 streams are sequences passed in.
- The polar decoder's output lanes are sequences passed in.
- The interpolation filter is a function passed in, from everything put
  into it to the real value its `get()` returns.
- Whether an RTOS queue or an I2C transfer succeeds is a predicate passed in.

Operating modes: the code accepts 0 and 22–30.

- `meta_data` rejects every nonzero mode outside 22..30 (decode.hh:265-270).
- `modem_configs` has rows for 0 and 22–30 only (modem_config.hh:17-26).

The model follows the code (`ModemConfig.Modes`).

## Model

| member | source | states |
|---|---|---|
| ModemConfig.ModesAreDistinct | firmware/test/aicodix-modem-next/lib/aicodix-next/modem_config.hh:15-27 | the table's operating modes are pairwise distinct and are exactly {0, 22, …, 30} |
| ModemConfig.ModesRange | firmware/test/aicodix-modem-next/lib/aicodix-next/decode.hh:265-270 | a mode is in the table iff it is 0 or in 22..30, which is the whitelist `meta_data` applies |
| ModemConfig.CodeFitsBuffers | firmware/test/aicodix-modem-next/lib/aicodix-next/modem_config.hh:18-26 | every payload mode has code order 12..14 and 2, 3, 4 or 6 bits per symbol, so the decoder's switches cover it; its code bits fit in 2^code_order ≤ bits_max; its padded payload of 2^(code_order-4) bytes fits data_max |
| ModemConfig.GridFitsBuffers | firmware/test/aicodix-modem-next/lib/aicodix-next/modem_config.hh:17-26 | every row's columns fit cols_max (289) and its rows fit rows_max (32) |
| ModemConfig.CombModesAgree | firmware/test/aicodix-modem-next/lib/aicodix-next/modem_config.hh:17-26 | in every row, reserved tones ≠ 0 ⇔ comb columns ≠ 0 ⇔ more than 3 bits per symbol, so the encoder's `reserved_tones` test and the decoder's `mod_bits > 3` test pick the same modes |
| ModemConfig.DataBytesIsLimit | firmware/test/aicodix-modem-next/lib/aicodix-next/encode.hh:377-385 | data_bits / 8 equals the length limit 2^(code_order-4), and up to code order 14 the payload fits data_max and data_bits + 32 fits bits_max |
| Tones.Bin | firmware/test/aicodix-modem-next/lib/aicodix-next/decode.hh:106-109 | for carriers ≥ -symbol_len, `bin` lies in [0, symbol_len) and is congruent to the carrier; below that, C's truncating `%` gives a negative index whenever the carrier is not a multiple of symbol_len |
| Tones.BinInjective | firmware/test/aicodix-modem-next/lib/aicodix-next/encode.hh:85-88 | two distinct valid carriers less than a symbol length apart land in distinct bins |
| Tones.Nrz | firmware/test/aicodix-modem-next/lib/aicodix-next/encode.hh:89-92 | `nrz` is ±1 and is negative exactly for a set bit |
| Tones.TimesTwice | firmware/test/aicodix-modem-next/lib/aicodix-next/decode.hh:236-237 | multiplying a tone by nrz(b) twice gives the tone back, so descrambling undoes scrambling |
| Tones.CombColumns | firmware/test/aicodix-modem-next/lib/aicodix-next/decode.hh:383-386 | in a comb mode, {comb_dist·i + comb_off \| i < comb_cols} is exactly the set of columns below cons_cols that pass the test `i % comb_dist == comb_off` |
| Tones.NoCombColumns | firmware/test/aicodix-modem-next/lib/aicodix-next/decode.hh:384-385 | with no comb (comb_dist = 1, comb_off = 1), no column passes the comb test |
| Tones.DataColumnsComb | firmware/test/aicodix-modem-next/lib/aicodix-next/decode.hh:485-490 | counting the columns that skip the comb period by period: over k full periods of d columns plus j more, the columns that carry code bits number n - k, less one more if the partial period reaches the offset |
| Tones.DataColumnsNoSkip | firmware/test/aicodix-modem-next/lib/aicodix-next/encode.hh:433-436 | without pilots every column carries code bits |
| Tones.ReservedCarriersLayout | firmware/test/aicodix-modem-next/lib/aicodix-next/encode.hh:276-283 | the reserved-tone loop gives `reserved_tones` strictly increasing carriers. The first half sits just below code_off and the rest just above the data band. None lies in [code_off, code_off + cons_cols) |
| Tones.ReservedLoopShape | firmware/test/aicodix-modem-next/lib/aicodix-next/encode.hh:278-282 | from any point of the loop, the carriers still to come number `reserved - i` and jump over the data band at code_off |
| Tones.MetaCombLoop | firmware/test/aicodix-modem-next/lib/aicodix-next/encode.hh:358-364 | the metadata comb loop writes increasing carriers. None lies in the reference bin or the 255-bin metadata window. Past the stop it writes only the one carrier the jump overshoots to |
| Encoder.Configure | firmware/test/aicodix-modem-next/lib/aicodix-next/encode.hh:246-288 | an offset not divisible by 50 (C `%`) is refused with nothing changed. An offset outside the band is refused after the five mode fields were overwritten. Success sets cons_cols, places mls0_off, mls1_off and code_off at the centre carrier less 126, less 127 and less cons_cols/2, leaves the comb fields alone for mode 0, and builds the reserved-tone kernel outside the data band |
| Encoder.CentreCarrierBound | firmware/test/aicodix-modem-next/lib/aicodix-next/encode.hh:263-268 | the centre carrier of an offset within ±f Hz lies within ±f·symbol_len/rate carriers |
| Encoder.ConfigureKeepsCarriersInBand | firmware/test/aicodix-modem-next/lib/aicodix-next/encode.hh:263-283 | every carrier a configured encoder uses (sync, metadata window, data band, and in pilot modes the metadata comb) lies within half a symbol of carrier 0, so `bin` maps it to a valid index |
| Encoder.SyncBinsDistinct | firmware/test/aicodix-modem-next/lib/aicodix-next/encode.hh:319-323 | the sync symbol's 128 carriers mls0_off-2+2k land in distinct bins |
| Encoder.SynchronizationSymbol | firmware/test/aicodix-modem-next/lib/aicodix-next/encode.hh:314-325 | the sync symbol is zero outside its 128 even carriers. The first carries the factor, and each later one is the previous one times nrz(seq0_k), so every one is ± the factor |
| Encoder.ChainToneUnit | firmware/test/aicodix-modem-next/lib/aicodix-next/encode.hh:320-323 | every tone of a differential chain is ± the reference |
| Encoder.DifferentialChain | firmware/test/aicodix-modem-next/lib/aicodix-next/encode.hh:349-355 | after the load and link loops, tone k of the chain is the reference times the nrz of bits 0..k-1, each tone is the previous one times nrz of its bit, and all other bins are zero |
| Encoder.HeaderBits | firmware/test/aicodix-modem-next/lib/aicodix-next/encode.hh:334-343 | bits 0..54 hold (md<<8)\|oper_mode in 64 bits, and bits 55..70 hold the CRC-16 of that word shifted left by 9, LSB first |
| Encoder.MetaLayout | firmware/test/aicodix-modem-next/lib/aicodix-next/encode.hh:349-364 | the metadata window's 256 bins are distinct and valid. So are the comb bins, and no comb bin is a window bin |
| Encoder.MetadataSymbol | firmware/test/aicodix-modem-next/lib/aicodix-next/encode.hh:332-366 | window tone j is the differential chain over the header and parity bits times nrz(seq1_j). Comb tone t is the factor times the next MLS bit. Every other bin is zero |
| Encoder.ScrambledInput | firmware/test/aicodix-modem-next/lib/aicodix-next/encode.hh:382-389 | the input buffer's first data_bytes bytes XOR the scrambler give the payload followed by zeros, and the buffer is zero beyond them |
| Encoder.Mesg | firmware/test/aicodix-modem-next/lib/aicodix-next/encode.hh:390-398 | message entry i is negative iff little-endian bit i of the scrambled payload is set, and the last 32 entries carry the CRC-32 bits the same way |
| Encoder.DataPacket | firmware/test/aicodix-modem-next/lib/aicodix-next/encode.hh:375-398 | a payload longer than 2^(code_order-4) is refused with the state untouched, and one of exactly that length is accepted. An accepted payload changes only the input buffer, which holds the scrambled, zero-padded payload, and the message carries its bits and CRC |
| Encoder.ModulationCodeBits | firmware/test/aicodix-modem-next/lib/aicodix-next/encode.hh:427-445 | the modulation loop consumes cons_rows · (columns off the comb) · mod_bits code bits |
| Decoder.DemodOrErase | firmware/test/aicodix-modem-next/lib/aicodix-next/decode.hh:114-122 | the result is zero when the previous tone has no power or the ratio's squared magnitude exceeds 4. Otherwise it is the exact ratio curr/prev, so its squared magnitude never exceeds 4 |
| Decoder.SoftBit | firmware/test/aicodix-modem-next/lib/aicodix-next/decode.hh:239-243 | the soft bit lies in [-127, 127], saturates at ±127 for a real part of magnitude ≥ 1, and is never of the opposite sign to the real part (a small real part rounds to 0) |
| Decoder.Round | firmware/test/aicodix-modem-next/lib/aicodix-next/decode.hh:241 | `nearbyint` lies within ½ of its argument and rounds ties to even |
| Decoder.WindowBins | firmware/test/aicodix-modem-next/lib/aicodix-next/decode.hh:236-243 | the decoder reads the metadata window at 256 valid, distinct bins |
| Decoder.DescrambleWindow | firmware/test/aicodix-modem-next/lib/aicodix-next/decode.hh:236-237 | after the descrambling loop, window tone j (1 ≤ j ≤ 255) is the received tone times nrz(seq1_{j-1}), and the reference tone is unchanged |
| Decoder.PreambleSoftBits | firmware/test/aicodix-modem-next/lib/aicodix-next/decode.hh:235-243 | soft bit i is the rounded, clamped 127-scaled real part of `demod_or_erase` over descrambled window tones i+1 and i |
| Decoder.MetaData | firmware/test/aicodix-modem-next/lib/aicodix-next/decode.hh:252-277 | a CRC mismatch fails with both outputs untouched. Otherwise oper_mode is overwritten with the low byte. Success holds iff that byte is whitelisted and 0 < call sign < 37^9, and only success writes the call sign |
| Decoder.FetchParams | firmware/test/aicodix-modem-next/lib/aicodix-next/decode.hh:281-382 | `fetch` refuses mode 0 and every mode outside the table. For 22..30 it sets mod_bits, cons_rows, comb_cols, code_order and code_cols exactly as the mode's table row |
| Decoder.CodeBinsValid | firmware/test/aicodix-modem-next/lib/aicodix-next/decode.hh:383-398 | for every accepted mode, the data columns code_off..code_off+cons_cols-1 lie within half a symbol of the centre and land in distinct bins |
| Decoder.CombLayout | firmware/test/aicodix-modem-next/lib/aicodix-next/decode.hh:383-386 | for every accepted mode, the pilot columns comb_dist·i + comb_off are exactly the columns passing the comb test; without a comb, no column passes it |
| Decoder.SoftBitCount | firmware/test/aicodix-modem-next/lib/aicodix-next/decode.hh:461-491 | the soft-bit loop writes cons_rows · (columns not skipped) · mod_bits entries |
| Decoder.SoftBitsMeetPadding | firmware/test/aicodix-modem-next/lib/aicodix-next/decode.hh:485-497 | for every accepted mode the soft-bit loop writes exactly code_cols·cons_rows·mod_bits entries, which is where the zero padding starts, and that index lies in (0, bits_max] |
| Decoder.SelectLane | firmware/test/aicodix-modem-next/lib/aicodix-next/decode.hh:510-523 | the chosen lane is the lowest one whose CRC residue over data_bits + 32 signs is zero; there is none only when no lane's residue is zero |
| Decoder.Payload | firmware/test/aicodix-modem-next/lib/aicodix-next/decode.hh:524-531 | the output has 2^(code_order-4) ≤ data_max bytes, and XORing it with the scrambler gives the packed signs of the lane's data bits |
| Decoder.Fetch | firmware/test/aicodix-modem-next/lib/aicodix-next/decode.hh:281-531 | `fetch` fails for unsupported modes and when no lane's CRC matches. Otherwise it returns the descrambled payload of the first matching lane |
| Modem.OffsetsAgree | firmware/test/aicodix-modem-next/lib/aicodix-next/encode.hh:268-275 | for every payload mode, the encoder's mls0_off, mls1_off, code_off, cons_cols, comb_dist and comb_off are the decoder's, shifted by the centre carrier (decode.hh:51-66, 383-386) |
| Modem.HeaderRoundTrip | firmware/test/aicodix-modem-next/lib/aicodix-next/decode.hh:254-276 | decoding the encoder's header passes the CRC, since CRC(md<<9) depends only on md mod 2^55. It recovers the mode, and succeeds iff the mode is whitelisted and 0 < md mod 2^47 < 37^9, with md mod 2^47 as the call sign |
| Modem.MetaSoftBitsRoundTrip | firmware/test/aicodix-modem-next/lib/aicodix-next/decode.hh:235-243 | on a noiseless channel with a flat nonzero gain, the decoder's soft bits of the encoder's metadata symbol are -127 for each set bit and 127 for each clear bit |
| Modem.SoftBitOfStep | firmware/test/aicodix-modem-next/lib/aicodix-next/decode.hh:114-122 | one step of a differential chain demodulates to ±127 with the sign of nrz(bit) |
| Modem.DescrambleTone | firmware/test/aicodix-modem-next/lib/aicodix-next/encode.hh:356-357 | scrambling a received tone by nrz(b) negates it for a set bit, and the decoder's multiplication undoes it |
| Modem.PayloadRoundTrip | firmware/test/aicodix-modem-next/lib/aicodix-next/decode.hh:524-531 | a lane whose data signs match the encoder's message decodes to the accepted payload followed by zeros up to 2^(code_order-4) bytes |
| Modem.CodeBitCountsAgree | firmware/test/aicodix-modem-next/lib/aicodix-next/encode.hh:427-445 | for every payload mode the encoder's modulation loop consumes, and the decoder's soft-bit loop produces, code_cols·cons_rows·mod_bits code bits |
| Base37.Digit | firmware/test/aicodix-modem-next/src/main.cpp:136-143 | space maps to 0, '0'..'9' to 1..10, and both letter cases to 11..36; every other character has no digit |
| Base37.DigitAlphabet | firmware/test/aicodix-modem-next/src/main.cpp:125-143 | the decoder's alphabet and the encoder's digits are inverse: symbol k has digit k, and a valid character's digit names its upper-case form |
| Base37.Encode | firmware/test/aicodix-modem-next/src/main.cpp:131-146 | the encoder returns -1 exactly when the string up to its NUL holds a character other than a space, digit or letter; otherwise it returns the base-37 value of the digits |
| Base37.ValueBound | firmware/test/aicodix-modem-next/src/main.cpp:131-146 | n digits encode to a value below 37^n |
| Base37.Decode | firmware/test/aicodix-modem-next/src/main.cpp:125-129 | the decoder writes exactly len characters, character i being the alphabet symbol of base-37 digit len-1-i |
| Base37.DecodeValue | firmware/test/aicodix-modem-next/src/main.cpp:125-146 | decoding the value of a valid string to len ≥ its length gives the upper-cased string left-padded with spaces |
| Base37.ValueDecode | firmware/test/aicodix-modem-next/src/main.cpp:125-146 | decoding any value below 37^len to len characters gives a valid string that encodes back to the value |
| Base37.CallSignRoundTrip | firmware/test/aicodix-modem-next/lib/aicodix-next/decode.hh:271-275 | a valid string of at most 9 characters encodes below 37^9 = 129961739795077, the decoder's call-sign bound, and decodes to its upper-case form padded to 9 |
| Base37.DecodeZero | firmware/test/aicodix-modem-next/src/main.cpp:125-129 | the value 0 decodes to all spaces |
| SampleQueue.Sink | firmware/test/aicodix-modem-next/src/main.cpp:16-24 | the queue after the sink is the old queue followed by the first count samples; a non-positive count changes nothing |
| SampleQueue.Source | firmware/test/aicodix-modem-next/src/main.cpp:26-36 | a non-empty queue yields its front and true and keeps the rest; an empty one yields 0 and false and stays empty |
| SampleQueue.DrainOrder | firmware/test/aicodix-modem-next/src/main.cpp:16-36 | n calls of the source deliver the queue in order, then zeros once it runs dry |
| QueueGenerator.GetFrames | firmware/test/aicodix-audio-output/lib/QueueGenerator/QueueGenerator.cpp:21-38 | exactly number_frames frames are made. The first min(n, \|queue\|) left samples are popped in FIFO order and every later one is 0. The right channel is always 0 |
| QueueGenerator.FramesMatchSource | firmware/test/aicodix-audio-output/lib/QueueGenerator/QueueGenerator.cpp:25-35 | the left channel of the frames equals what as many calls of `sampleSource` deliver from the same queue |
| Upsampler.Create | firmware/test/es8388-audio-output/lib/Upsampler/Upsampler.cpp:11-17 | the factor is the integer quotient of the output rate by the input rate, and the counter starts at 0 |
| Upsampler.GetFrames | firmware/test/es8388-audio-output/lib/Upsampler/Upsampler.cpp:26-49 | for a non-negative count, exactly number_frames frames are made. Frame i's left sample is the filter output after its put, times the factor, truncated toward zero and stored into an int16_t; its right sample is 0. The counter, the pull count and the filter input advance frame by frame |
| Upsampler.Trunc | firmware/test/es8388-audio-output/lib/Upsampler/Upsampler.cpp:45 | the float product converted to an integer drops its fraction toward zero: for x ≥ 0 the result is the greatest integer ≤ x, for x < 0 the least integer ≥ x |
| Upsampler.Wrap16 | firmware/test/es8388-audio-output/lib/Upsampler/Upsampler.cpp:45 | an integer stored into `frames->left` is kept when it fits int16_t and is otherwise congruent to it modulo 2^16 |
| Upsampler.CountCyclic | firmware/test/es8388-audio-output/lib/Upsampler/Upsampler.cpp:42 | with factor ≥ 1 the counter after i frames is (start + i) mod factor, so it stays in [0, factor) and cycles |
| Upsampler.FedRule | firmware/test/es8388-audio-output/lib/Upsampler/Upsampler.cpp:33-41 | the value put on frame i is the next unread input sample, in input order, when (start + i) is a multiple of the factor, and 0 otherwise |
| Upsampler.PullsClosed | firmware/test/es8388-audio-output/lib/Upsampler/Upsampler.cpp:33-42 | the inputs pulled in n frames are the multiples of the factor among start..start+n-1 |
| Upsampler.OneInputPerFactor | firmware/test/es8388-audio-output/lib/Upsampler/Upsampler.cpp:33-42 | from a fresh counter, k·factor output frames consume exactly k input frames |
| Upsampler.ZeroFactorPullsAll | firmware/test/es8388-audio-output/lib/Upsampler/Upsampler.cpp:16-42 | with factor 0 (output rate below input rate) the counter stays 0 and every frame pulls an input |
| ES8388.Write | firmware/test/es8388-audio-output/lib/ES8388/ES8388.cpp:19-25 | an acknowledged write stores the byte, an unacknowledged one leaves the register, and no other register changes |
| ES8388.OutputSelect | firmware/test/es8388-audio-output/lib/ES8388/ES8388.cpp:110-128 | OUT1, OUT2 and OUTALL write 0x30, 0x0C and 0x3C to DACCONTROL16 and nothing else |
| ES8388.InputSelect | firmware/test/es8388-audio-output/lib/ES8388/ES8388.cpp:135-154 | the selector is recorded. ADCCONTROL2 gets 0x00, 0x50 or 0xF0, and the differential inputs also write 0x00 or 0x80 to ADCCONTROL3; nothing else changes |
| ES8388.DacMute | firmware/test/es8388-audio-output/lib/ES8388/ES8388.cpp:157-170 | only bit 2 of DACCONTROL3 changes, to the mute flag; its other seven bits are kept. An unacknowledged write keeps the codec and reports failure |
| ES8388.SetOutputVolume | firmware/test/es8388-audio-output/lib/ES8388/ES8388.cpp:173-188 | the volume is clamped to 33. OUT1 and OUTALL write only DACCONTROL24/25; only OUT2 writes DACCONTROL26/27 |
| ES8388.OutAllMissesOut2 | firmware/test/es8388-audio-output/lib/ES8388/ES8388.cpp:176-186 | an acknowledged OUTALL volume of 0 leaves OUT2's registers at 33 |
| ES8388.SetOutputVolumeAll | firmware/test/es8388-audio-output/lib/ES8388/ES8388.cpp:173-188 | the intended setter: OUTALL writes all four volume registers. It succeeds iff every write it makes is acknowledged, and agrees with the original for OUT1 and OUT2 |
| ES8388.OutputVolumeRoundTrip | firmware/test/es8388-audio-output/lib/ES8388/ES8388.cpp:190-200 | reading the volume back after an acknowledged OUT1 or OUTALL setting gives min(vol, 33) |
| ES8388.SetInputGain | firmware/test/es8388-audio-output/lib/ES8388/ES8388.cpp:203-211 | ADCCONTROL1 gets the gain clamped to 8 in both nibbles, and nothing else changes |
| ES8388.InputGainRoundTrip | firmware/test/es8388-audio-output/lib/ES8388/ES8388.cpp:203-219 | after an acknowledged `setInputGain(g)`, `getInputGain` returns min(g, 8) |
| ES8388.MixerSourceSelect | firmware/test/es8388-audio-output/lib/ES8388/ES8388.cpp:279-286 | DACCONTROL16 gets the left selector code in bits 5:3 and the right one in bits 2:0. An unacknowledged write keeps the codec and reports failure |
| ES8388.MixerByte | firmware/test/es8388-audio-output/lib/ES8388/ES8388.cpp:291-305 | the mixer byte has the DAC flag in bit 7, the line flag in bit 6, the volume clamped to 7 in bits 5:3, and zeros below |
| ES8388.MixerSourceControl | firmware/test/es8388-audio-output/lib/ES8388/ES8388.cpp:291-305 | DACCONTROL17 and DACCONTROL20 get the two mixer bytes and nothing else changes |
| ES8388.MixerSourceControlMode | firmware/test/es8388-audio-output/lib/ES8388/ES8388.cpp:311-321 | the enum overload writes 0x90, 0x50 or 0xD0 to both mixer registers and reports success whatever the writes did |
| ES8388.AnalogBypass | firmware/test/es8388-audio-output/lib/ES8388/ES8388.cpp:325-340 | bypass with IN1 or IN2 selected sets DACCONTROL16 to 0x00 or 0x09. Both mixers get 0x50 with bypass and 0x90 without. It always reports success |
| ES8388.AlcSettings | firmware/test/es8388-audio-output/lib/ES8388/ES8388.cpp:226-263 | every mode's settings fit their bit fields, and the ALC selector is 0 exactly for DISABLE |
| ES8388.AlcUnpack | firmware/test/es8388-audio-output/lib/ES8388/ES8388.cpp:263-272 | ADCCONTROL10..14 unpack to the documented fields of the settings |
| ES8388.SetAlcMode | firmware/test/es8388-audio-output/lib/ES8388/ES8388.cpp:226-273 | ADCCONTROL10..14 get the packed settings. VOICE also writes 0x77 to ADCCONTROL1, and no other register changes. Success means every write was acknowledged |
| ES8388.AlcDisableClearsSelector | firmware/test/es8388-audio-output/lib/ES8388/ES8388.cpp:226-273 | after an acknowledged write, ADCCONTROL10 bits 7:6 are 0 for DISABLE and 3 for the other modes |
| I2SAudio.InterleaveAt | firmware/test/aicodix-audio-output/lib/I2SAudio/I2SAudio.cpp:123-128 | frame 2i is sample i unless the channel is RIGHT, frame 2i+1 is sample i unless it is LEFT, and 0 otherwise |
| I2SAudio.EvensInterleave | firmware/test/aicodix-audio-output/lib/I2SAudio/I2SAudio.cpp:123-128 | the even words of the frames are the samples, or zeros for RIGHT |
| I2SAudio.OddsInterleave | firmware/test/aicodix-audio-output/lib/I2SAudio/I2SAudio.cpp:123-128 | the odd words of the frames are the samples, or zeros for LEFT |
| I2SAudio.WordsBytes | firmware/test/aicodix-audio-output/lib/I2SAudio/I2SAudio.cpp:131-132 | reading 16-bit words back from their little-endian bytes gives the words |
| I2SAudio.Chunks | firmware/test/aicodix-audio-output/lib/I2SAudio/I2SAudio.cpp:134-143 | every chunk has 1 to 256 bytes, and every chunk but the last has exactly 256 |
| I2SAudio.ChunksCover | firmware/test/aicodix-audio-output/lib/I2SAudio/I2SAudio.cpp:131-144 | the chunks concatenate, in order, to all the frame bytes |
| I2SAudio.AddRawSinkSamples | firmware/test/aicodix-audio-output/lib/I2SAudio/I2SAudio.cpp:147-158 | a message over 256 bytes is refused without enqueueing; otherwise the message is enqueued iff the queue accepts it |
| I2SAudio.AddSinkSamples | firmware/test/aicodix-audio-output/lib/I2SAudio/I2SAudio.cpp:121-145 | the chunks are sent in order up to the first one the queue refuses, and success means all were sent; the size check never refuses a chunk |
| I2SAudio.Keep | firmware/test/aicodix-audio-output/lib/I2SAudio/I2SAudio.cpp:219-248 | a channel queue holds at most 256 entries |
| I2SAudio.KeepPush | firmware/test/aicodix-audio-output/lib/I2SAudio/I2SAudio.cpp:234-247 | pushing into a bounded queue, dropping the oldest entry when it is full, keeps the newest 256 of everything pushed |
| I2SAudio.FillSampleQueue | firmware/test/aicodix-audio-output/lib/I2SAudio/I2SAudio.cpp:217-251 | an empty message fails with both queues unchanged. Otherwise the even words go to the left queue and the odd words to the right, in order, each queue keeping its newest 256; the message is consumed either way |
| I2SAudio.GetSourceSamples | firmware/test/aicodix-audio-output/lib/I2SAudio/I2SAudio.cpp:169-204 | BOTH fails and reads nothing. Otherwise the result is the first sample_count samples the channel can deliver (queue, then refills), or all of them when a refill fails first, and success is reported either way. The samples read are consumed: after a full read the channel delivers the samples after them |
| I2SAudio.StreamChunks | firmware/test/aicodix-audio-output/lib/I2SAudio/I2SAudio.cpp:134-143 | the channel's words in the chunked messages are its words in the whole byte run |
| I2SAudio.Loopback | firmware/test/aicodix-audio-output/lib/I2SAudio/I2SAudio.cpp:121-251 | reading a channel back from the messages `addSinkSamples` built gives the samples when the send fed that channel, and zeros otherwise |
| Bits.PackUnpackLE | firmware/test/aicodix-modem-next/lib/aicodix-next/decode.hh:524-525 | packing the little-endian bits of a byte string gives the bytes back |
| Bits.UnpackPackLE | firmware/test/aicodix-modem-next/lib/aicodix-next/encode.hh:391-392 | unpacking packed bits gives the bits back, for a whole number of bytes |
| Bits.XorStreamTwice | firmware/test/aicodix-modem-next/lib/aicodix-next/decode.hh:526-529 | XORing with the same scrambler stream twice gives the data back |
| Bits.FromBitsOf | firmware/test/aicodix-modem-next/lib/aicodix-next/decode.hh:255-260 | the value of the low n bits of x is x mod 2^n |
| Bits.CModAgainstEuclid | firmware/test/aicodix-modem-next/lib/aicodix-next/encode.hh:248 | C's truncating `/` and `%` agree with Euclidean division for non-negative dividends; for negative ones `%` is the Euclidean remainder less the divisor, or 0 |
| Bits.Int16BytesRoundTrip | firmware/test/aicodix-audio-output/lib/I2SAudio/I2SAudio.cpp:227 | an `int16_t` read back from its two little-endian bytes is itself |
| Cmplx.Div | firmware/test/aicodix-modem-next/lib/aicodix-next/decode.hh:118 | the quotient times the divisor is the dividend, and norms multiply |

## Left out

- Floating-point DSP is not modelled:
  - the FFTs, the Schmidl-Cox correlator and the oscillator;
  - Theil-Sen phase tracking and the SNR/precision estimate, together with `mod_hard` and `mod_soft`;
  - the encoder's `symbol`, clipping and filtering, tone reservation, PAPR statistics, guard interval and PCM rounding.

  These are float numerics in headers that are not part of this model. The metadata round trip is stated on exact frequency-domain tones instead.
- These codecs are not part of this model and become parameters:
  - CRC-16, CRC-32, BCH encoding and OSD decoding;
  - polar encoding and decoding, and the shuffles;
  - the MLS and Xorshift32 generators;
  - PSK/QAM mapping.

  CRC and residue functions, lanes and streams are passed in. The data bits pass through the polar code unchanged (`Modem.PayloadRoundTrip` takes a lane whose signs match the message).
- Data symbols after the sync and metadata symbols are not modelled. Their tone values (`mod_map`, the carried `prev` phases) are float modulation; only their code-bit counts are modelled.
- Sample input is not modelled. That covers `next_sample`, the sample buffer and the end-of-stream path; these are I/O and float buffering.
- `Encoder.DataPacket` requires a code order of 4 to 14. Below 4, `1 << (code_order - 4)` shifts by a negative amount (undefined in C), and above 14 the 1024-byte input buffer would overflow. Every table row lies in 12..14.
- `Base37.Encode`: the `long long` accumulator's overflow on strings longer than 12 valid characters is not modelled, because the model's integers are unbounded. Call signs have at most 9 characters.
- `Base37.Decode` takes a non-negative value. A negative `val` would index the alphabet with C's negative `%`, reading out of bounds, and the decoder is only ever given a checked call sign.
- `Upsampler.GetFrames`: the filter output and its product with the factor are exact reals, so float rounding is not modelled. The conversion to `int16_t` truncates toward zero as C does; an out-of-range result, which C leaves undefined, is wrapped modulo 2^16.
- `Upsampler.GetFrames`: a negative `number_frames` makes the source's `while(number_frames--)` run on and write past `frames`, which is undefined behaviour; the model makes no frames for it.
- The ES8388 I2C transport is not modelled: `identify`, `read_reg` failures, `readAllReg` and `init`. A write's acknowledgement is a parameter, and reads always succeed.
- RTOS tasks, BufferSync and blocking queue sends are not modelled. Whether `xQueueSend` accepts a message is a parameter, and received messages are a sequence.
- The library `I2SAudio.h` declares a different `getSourceSamples` signature than `I2SAudio.cpp`. The `.cpp` is modelled.
- `SinWaveGenerator`, `SampleFilter` and the Arduino `setup`/`loop` test programs are not part of this model. The interpolation filter of the upsampler is a function from everything put into it to its real output.

## Findings

| source | as written | input that shows it | evidently intended | confidence | as-written member | corrected member |
|---|---|---|---|---|---|---|
| firmware/test/es8388-audio-output/lib/ES8388/ES8388.cpp:176-186 | the `else if` makes `outSel == OUTALL` in the second test dead, so OUTALL writes only DACCONTROL24/25 | `setOutputVolume(OUTALL, 0)` on a codec whose DACCONTROL26/27 hold 33: they stay 33 | OUTALL sets the OUT1 and OUT2 volume registers | not executed | ES8388.SetOutputVolume (counterexample ES8388.OutAllMissesOut2) | ES8388.SetOutputVolumeAll |
