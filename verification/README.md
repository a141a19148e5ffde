# MAX30101 driver, modelled in Dafny

This project models the core of a PSoC driver for the Maxim MAX30101 pulse-oximetry and heart-rate sensor. It covers:

- the register-level operations of `MAX30101_RateTesting.cydsn/MAX30101.c`: register read, write and read-modify-write (`BitMask`), the interrupt enable, disable and status queries, FIFO pointers and configuration, mode, SpO2 configuration, LED pulse amplitude, multi-LED slots, temperature and identification reads;
- the FIFO readers `ClearFIFO`, `ReadRawFIFOBytes`, `ReadRawFIFO` and `ReadFIFO`;
- the polling loop of `MAX30101_RateTesting.cydsn/main.c`, which computes the number of unread samples from the FIFO pointers, sizes the raw byte buffer and keeps a 16-bit running total.

The device is a value, not a peripheral. `Transport.Bus` holds:

- the 256-byte register file;
- a script of I2C result codes, one for each coming transaction (an exhausted script means success);
- a log of the transactions issued.

A read or write changes the register file only when its scripted result is success. The bytes a burst read delivers from the FIFO data register are an input stream given to the reader. Register addresses and mode codes come from a header that is not part of this model, so they are parameters (`Registers.RegisterMap`, `Registers.ModeCodes`). The capacity of the sample store (`BUFFER_STORAGE_SIZE`, whose type `MAX30101_Data` is likewise not part of this model) is the length of its arrays.

Modules:

- `Transport`: the I2C result codes, the register file and the bus.
- `Registers`: addresses, mode codes, and the masks and shift macro of `MAX30101.c` lines 18-170.
- `Driver`: every driver operation, each with its status codes and its effect on the register file.
- `RmwLaws`: algebra of read, write and read-modify-write.
- `DriverLaws`: properties of the operations and their combinations.
- `Intended`: corrected versions of three operations whose code contradicts their evident purpose (see Findings).
- `Decode`: the 18-bit sample word.
- `SampleStore`: the red/IR/green ring buffer.
- `FifoRead`: the two FIFO readers.
- `Acquisition`: the polling loop of `main.c`.
- `Modular`: small arithmetic facts.

Where the header comments and the code disagree, the model follows the code:

- `SetSampleAverage` ORs in an already-encoded field value. It does not map a sample count to a code (`MAX30101.c:534-537`).
- The `Is*` queries store the masked bit (0x80 for FIFO almost full, 0x02 for temperature ready), not 1 as `Library.cydsn/MAX30101.h:38` says.
- The header declares `ReadFIFO(num_samples, data)` with no LED count. The code takes `active_leds` and a sample store (`MAX30101.c:435`).

Behaviour of the code that the model keeps as written:

- Equal FIFO read and write pointers count as 32 unread samples (`main.c:139-141`).
- `SetFIFOAlmostFull` does not clamp its argument. With the upper nibble kept, 0 samples sets bit 5 (the sample-average field), 1 to 16 samples turn FIFO rollover on, 33 to 48 set the whole upper nibble, and more than 48 OR a byte of at most 0xEF into it (`MAX30101.c:552-555`).
- At resolution code 3 (18 bits) `ReadFIFO` shifts right by `4 - 3 = 1` (`MAX30101.c:170, 480`).

## Model

| member | source | states |
|---|---|---|
| Transport.I2CCode | MAX30101_RateTesting.cydsn/I2C_Interface.h:21-31 | result codes are 0, 1 or 2, and 0 exactly for success |
| Transport.IssueManyStep | MAX30101_RateTesting.cydsn/MAX30101.c:366-429 | issuing one more burst extends a run of identical bursts by one |
| Registers.Shift | MAX30101_RateTesting.cydsn/MAX30101.c:170 | the resolution shift `4 - resolution` is between 1 and 4 for every resolution code |
| Driver.StatusCode | Library.cydsn/MAX30101_Defs.h:20-30 | driver codes are 0, 1 or 2, and 0 exactly for OK |
| Driver.ReadRegister | MAX30101_RateTesting.cydsn/MAX30101.c:723-736 | OK and the register byte when the read succeeds; otherwise "device not found" and no value; the register file is untouched |
| Driver.WriteRegister | MAX30101_RateTesting.cydsn/MAX30101.c:787-795 | OK exactly when the write succeeds, and then only the addressed register changes, to the value; on failure "device not found" and nothing changes |
| Driver.BitMask | MAX30101_RateTesting.cydsn/MAX30101.c:798-808 | on success the register keeps the bits of `mask` not set in `thing` and takes `thing`; otherwise "device not found" and no change; a failed read issues no write |
| Driver.Merge | MAX30101_RateTesting.cydsn/MAX30101.c:805 | the written byte agrees with the old one on the kept bits and with `thing` elsewhere |
| Driver.IsDevicePresent | MAX30101_RateTesting.cydsn/MAX30101.c:189-197 | OK exactly when the zero-byte probe succeeds, else "device not found"; no register changes |
| Driver.Start | MAX30101_RateTesting.cydsn/MAX30101.c:182-186 | start-up is a soft reset: bit 6 of the mode register is set and the rest kept |
| Driver.FlagQuery | MAX30101_RateTesting.cydsn/MAX30101.c:204-211 | on success the flag is the status register with the mask bits cleared; on failure no value |
| Driver.IsFIFOAFull | MAX30101_RateTesting.cydsn/MAX30101.c:204-211 | the flag is nonzero exactly when bit 7 of interrupt status 1 is set, and no other bit survives |
| Driver.IsPPGReady | MAX30101_RateTesting.cydsn/MAX30101.c:214-220 | the flag is nonzero exactly when bit 6 of interrupt status 1 is set |
| Driver.IsALCOverflow | MAX30101_RateTesting.cydsn/MAX30101.c:222-228 | the flag is nonzero exactly when bit 5 of interrupt status 1 is set |
| Driver.IsPowerReady | MAX30101_RateTesting.cydsn/MAX30101.c:230-236 | the flag is nonzero exactly when bit 0 of interrupt status 1 is set |
| Driver.IsTempReady | MAX30101_RateTesting.cydsn/MAX30101.c:238-244 | the flag is nonzero exactly when bit 1 of interrupt status 2 is set |
| Driver.EnableFIFOAFullInt | MAX30101_RateTesting.cydsn/MAX30101.c:248-251 | sets bit 7 of interrupt enable 1 but, through the FIFO-configuration mask, also clears bits 0-3 |
| Driver.EnablePPGReadyInt | MAX30101_RateTesting.cydsn/MAX30101.c:252-255 | sets bit 6 of interrupt enable 1 and keeps every other bit |
| Driver.EnableALCOverflowInt | MAX30101_RateTesting.cydsn/MAX30101.c:256-259 | sets bit 5 of interrupt enable 1 and keeps every other bit |
| Driver.EnableTempReadyInt | MAX30101_RateTesting.cydsn/MAX30101.c:261-264 | sets bit 1 of interrupt enable 2 and keeps every other bit |
| Driver.DisableFIFOAFullInt | MAX30101_RateTesting.cydsn/MAX30101.c:267-270 | keeps bits 4-7 of interrupt enable 1, so bit 7 stays as it was, and clears bits 0-3 |
| Driver.DisablePPGReadyInt | MAX30101_RateTesting.cydsn/MAX30101.c:272-275 | clears bit 6 of interrupt enable 1 and keeps every other bit |
| Driver.DisableALCOverflowInt | MAX30101_RateTesting.cydsn/MAX30101.c:277-280 | clears bit 5 of interrupt enable 1 and keeps every other bit |
| Driver.DisableTempReadyInt | MAX30101_RateTesting.cydsn/MAX30101.c:282-285 | clears bit 1 of interrupt enable 1 and leaves interrupt enable 2 untouched |
| Driver.ReadWritePointer | MAX30101_RateTesting.cydsn/MAX30101.c:291-294 | the FIFO write pointer register on success, "device not found" and no value otherwise |
| Driver.ReadOverflowCounter | MAX30101_RateTesting.cydsn/MAX30101.c:297-300 | the overflow counter register on success, "device not found" and no value otherwise |
| Driver.ReadReadPointer | MAX30101_RateTesting.cydsn/MAX30101.c:303-306 | the FIFO read pointer register on success, "device not found" and no value otherwise |
| Driver.SetSampleAverage | MAX30101_RateTesting.cydsn/MAX30101.c:534-537 | an encoded average in bits 7:5 replaces that field and keeps bits 4:0 of the FIFO configuration |
| Driver.EnableFIFORollover | MAX30101_RateTesting.cydsn/MAX30101.c:540-543 | sets bit 4 of the FIFO configuration and keeps the rest |
| Driver.DisableFIFORollover | MAX30101_RateTesting.cydsn/MAX30101.c:546-549 | clears bit 4 of the FIFO configuration and keeps the rest |
| Driver.SetFIFOAlmostFull | MAX30101_RateTesting.cydsn/MAX30101.c:552-555 | ORs the byte `32 - samples` into the FIFO configuration with its upper nibble kept; for 17 to 32 samples the low nibble becomes `32 - samples` |
| Driver.Shutdown | MAX30101_RateTesting.cydsn/MAX30101.c:562-565 | sets bit 7 of the mode register and keeps bits 0-6 |
| Driver.WakeUp | MAX30101_RateTesting.cydsn/MAX30101.c:568-571 | clears bit 7 of the mode register and keeps bits 0-6 |
| Driver.Reset | MAX30101_RateTesting.cydsn/MAX30101.c:574-577 | sets bit 6 of the mode register and keeps the rest |
| Driver.SetMode | MAX30101_RateTesting.cydsn/MAX30101.c:580-583 | a mode code of 0 to 7 becomes the mode field and bits 3-7 are kept |
| Driver.SetSpO2ADCRange | MAX30101_RateTesting.cydsn/MAX30101.c:589-592 | the ADC range field (bits 6:5) takes the value; the other bits are kept |
| Driver.SetSpO2SampleRate | MAX30101_RateTesting.cydsn/MAX30101.c:595-598 | the sample-rate field (bits 4:2) takes the value; the other bits are kept |
| Driver.SetSpO2PulseWidth | MAX30101_RateTesting.cydsn/MAX30101.c:601-604 | the pulse-width field (bits 1:0) takes the value, which is the resolution code read back |
| Driver.SetLEDPulseAmplitude | MAX30101_RateTesting.cydsn/MAX30101.c:607-626 | OK exactly when read and write succeed; a failed read is "device not found", a failed write is "error"; on success the amplitude is ORed into the register |
| Driver.OrRegister | MAX30101_RateTesting.cydsn/MAX30101.c:610-625 | read, OR in, write back, with the status codes of the amplitude setting |
| Driver.OrIn | MAX30101_RateTesting.cydsn/MAX30101.c:615 | the written byte has every bit of the amplitude and keeps the old bits elsewhere |
| Driver.EnableSlot | MAX30101_RateTesting.cydsn/MAX30101.c:632-652 | a slot outside 1-4 is an error with no transaction; slots 1 and 3 take the LED code in bits 2:0, slots 2 and 4 in bits 6:4 of their register |
| Driver.DisableSlots | MAX30101_RateTesting.cydsn/MAX30101.c:655-664 | both slot registers zeroed, the second only after the first write succeeded; no other register changes |
| Driver.Int8 | MAX30101_RateTesting.cydsn/MAX30101.c:691 | the signed reading of a byte lies in -128..127 and is congruent to the byte modulo 256 |
| Driver.ReadRawTemperature | MAX30101_RateTesting.cydsn/MAX30101.c:685-696 | OK when both reads succeed; whenever the integer read succeeds the integer part lies in -128..127 and is congruent to the register byte mod 256, which makes it the `int8_t` value; the fraction only when OK |
| Driver.StartTemperatureConversion | MAX30101_RateTesting.cydsn/MAX30101.c:698-701 | on success the temperature configuration register is 1 and nothing else changes |
| Driver.ReadPartID | MAX30101_RateTesting.cydsn/MAX30101.c:707-711 | the part ID register on success, "device not found" and no value otherwise |
| Driver.ReadRevisionID | MAX30101_RateTesting.cydsn/MAX30101.c:714-717 | the revision ID register on success, "device not found" and no value otherwise |
| Driver.RawByteCount | MAX30101_RateTesting.cydsn/MAX30101.c:345 | the byte count `n * 3 * a` is kept in 16 bits and exact when it fits |
| Driver.ReadRawFIFOBytes | MAX30101_RateTesting.cydsn/MAX30101.c:342-354 | one burst of `n * 3 * a` bytes from the FIFO data register; the bytes on success, none otherwise |
| Driver.ActiveLeds | MAX30101_RateTesting.cydsn/MAX30101.c:320-333 | heart-rate mode uses 1 LED, SpO2 mode 2, multi-LED mode 3 |
| Driver.ClearFIFO | MAX30101_RateTesting.cydsn/MAX30101.c:309-340 | zeroes the write pointer, then the read pointer only if that succeeded, then reads the mode and requests one sample of that mode's LED count |
| Driver.ClearPointers | MAX30101_RateTesting.cydsn/MAX30101.c:311-315 | both FIFO pointers are zero exactly when both writes succeed; a failed first write stops the sequence |
| Driver.ResetOverflow | MAX30101_RateTesting.cydsn/MAX30101.c:317-336 | the mode read and the burst of `3 * active LEDs` bytes, with no register change |
| RmwLaws.WriteThenRead | MAX30101_RateTesting.cydsn/MAX30101.c:723-795 | a successful write is what the next successful read of that register returns |
| RmwLaws.BitMaskWrites | MAX30101_RateTesting.cydsn/MAX30101.c:798-808 | a successful read-modify-write stores `(old & mask) \| thing` and changes nothing else; a failed read changes nothing |
| RmwLaws.BitMaskOk | MAX30101_RateTesting.cydsn/MAX30101.c:798-808 | with two successful transactions the status is OK and the register file is the merge |
| RmwLaws.BitMaskAcks | MAX30101_RateTesting.cydsn/MAX30101.c:798-808 | a successful read-modify-write uses up exactly two scripted results |
| RmwLaws.BitMaskLastWins | MAX30101_RateTesting.cydsn/MAX30101.c:798-808 | two read-modify-writes of one field in a row leave the register as if only the second ran |
| RmwLaws.BitMaskTwice | MAX30101_RateTesting.cydsn/MAX30101.c:798-808 | two successful read-modify-writes in a row each leave their merge |
| RmwLaws.LastWins | MAX30101_RateTesting.cydsn/MAX30101.c:805 | on register files, a second merge into the same field undoes the first |
| RmwLaws.MergeTwice | MAX30101_RateTesting.cydsn/MAX30101.c:805 | on bytes, a second merge into the same field undoes the first |
| RmwLaws.PokeTwice | MAX30101_RateTesting.cydsn/MAX30101.c:787-795 | a second write to one register overrides the first |
| RmwLaws.OrRegisterOk | MAX30101_RateTesting.cydsn/MAX30101.c:607-626 | with two successful transactions the register becomes `old \| pa` |
| RmwLaws.OrRegisterTwice | MAX30101_RateTesting.cydsn/MAX30101.c:607-626 | two OR-ins in a row leave `old \| pa1 \| pa2` |
| DriverLaws.PPGReadyToggle | MAX30101_RateTesting.cydsn/MAX30101.c:252-275 | enabling then disabling the PPG-ready interrupt clears bit 6 and restores every other bit |
| DriverLaws.ALCOverflowToggle | MAX30101_RateTesting.cydsn/MAX30101.c:256-280 | enabling then disabling the ALC-overflow interrupt clears bit 5 and restores every other bit |
| DriverLaws.RolloverToggle | MAX30101_RateTesting.cydsn/MAX30101.c:540-549 | enabling then disabling rollover clears bit 4 and restores every other bit |
| DriverLaws.FIFOAFullStaysEnabled | MAX30101_RateTesting.cydsn/MAX30101.c:248-270 | after enabling then disabling the FIFO-almost-full interrupt it is still enabled, and bits 0-3 are lost |
| DriverLaws.TempReadyStaysEnabled | MAX30101_RateTesting.cydsn/MAX30101.c:261-285 | after enabling then disabling the temperature-ready interrupt it is still enabled |
| DriverLaws.FIFOAFullFlagValues | Library.cydsn/MAX30101.h:34-42 | the query returns OK or "device not found", and on OK a flag of 0 or 0x80, 0x80 exactly when the interrupt is pending |
| DriverLaws.TempReadyFlagValues | Library.cydsn/MAX30101.h:71-78 | the query returns OK or "device not found", and on OK a flag of 0 or 0x02, 0x02 exactly when the interrupt is pending |
| DriverLaws.AlmostFullReadback | MAX30101_RateTesting.cydsn/MAX30101.c:552-555 | for 17 to 32 samples the low nibble reads back `32 - samples` and the upper nibble is kept |
| DriverLaws.AlmostFullSetsRollover | MAX30101_RateTesting.cydsn/MAX30101.c:552-555 | for 1 to 16 samples the value spills into bit 4 and turns rollover on |
| DriverLaws.AlmostFullWraps | MAX30101_RateTesting.cydsn/MAX30101.c:552-555 | 33 samples writes 0xFF over the whole FIFO configuration |
| DriverLaws.FIFOConfiguration | MAX30101_RateTesting.cydsn/MAX30101.c:534-555 | sample average, rollover, then almost-full in a row leave `avg \| 0x10 \| (32 - samples)` and no other register changed |
| DriverLaws.SpO2Configuration | MAX30101_RateTesting.cydsn/MAX30101.c:589-604 | ADC range, sample rate, then pulse width in a row leave each field set, bit 7 kept, and no other register changed |
| DriverLaws.ShutdownKeepsConfiguration | Library.cydsn/MAX30101.h:243-252 | shutdown sets bit 7, keeps the mode and changes no other register |
| DriverLaws.ShutdownThenWakeUp | MAX30101_RateTesting.cydsn/MAX30101.c:562-571 | shutdown then wake-up only clears bit 7; a running device is left as it was |
| DriverLaws.ResetSetsResetBit | MAX30101_RateTesting.cydsn/MAX30101.c:574-577 | reset sets bit 6 and keeps the other bits of the mode register |
| DriverLaws.SetModeThenClearFIFO | MAX30101_RateTesting.cydsn/MAX30101.c:309-340 | after setting one of the three modes, clearing the FIFO succeeds and requests exactly one sample of that mode's LED count |
| DriverLaws.EnableSlotReadback | Library.cydsn/MAX30101.h:365-385 | the enabled slot reads back its LED and the other three slots are unchanged |
| DriverLaws.FirstRegisterSlot | MAX30101_RateTesting.cydsn/MAX30101.c:636-641 | slots 1 and 2 rewrite only their own field of the first slot register |
| DriverLaws.SecondRegisterSlot | MAX30101_RateTesting.cydsn/MAX30101.c:642-647 | slots 3 and 4 rewrite only their own field of the second slot register |
| DriverLaws.DisableSlotsClearsAll | Library.cydsn/MAX30101.h:387-395 | after disabling, every slot reads back as no LED |
| DriverLaws.AmplitudeAccumulates | MAX30101_RateTesting.cydsn/MAX30101.c:607-626 | two amplitude settings leave `old \| pa1 \| pa2`, so 0xF0 then 0x0F leaves 0xFF |
| DriverLaws.Int8RoundTrip | MAX30101_RateTesting.cydsn/MAX30101.c:691 | the temperature byte of any signed value in -128..127 reads back as that value |
| DriverLaws.TemperatureReadsSigned | MAX30101_RateTesting.cydsn/MAX30101.c:685-696 | a temperature-integer register holding the byte of any `t` in -128..127 is reported as `t` |
| Intended.EnableFIFOAFullIntFixed | MAX30101_RateTesting.cydsn/MAX30101.c:248-251 | sets bit 7 of interrupt enable 1 and keeps bits 0-6 |
| Intended.DisableFIFOAFullIntFixed | MAX30101_RateTesting.cydsn/MAX30101.c:267-270 | clears bit 7 of interrupt enable 1 and keeps bits 0-6 |
| Intended.FIFOAFullToggleFixed | Library.cydsn/MAX30101.h:80-118 | corrected enable then disable clears bit 7 and restores every other bit |
| Intended.DisableTempReadyIntFixed | MAX30101_RateTesting.cydsn/MAX30101.c:282-285 | clears bit 1 of interrupt enable 2 and keeps the rest |
| Intended.TempReadyToggleFixed | Library.cydsn/MAX30101.h:104-142 | enable then corrected disable clears bit 1 of interrupt enable 2 and restores every other bit |
| Intended.SetLEDPulseAmplitudeFixed | MAX30101_RateTesting.cydsn/MAX30101.c:607-626 | same transactions and status codes as the original, but the register takes the amplitude |
| Intended.AmplitudeFixedOk | MAX30101_RateTesting.cydsn/MAX30101.c:607-626 | with two successful transactions the register becomes the amplitude |
| Intended.AmplitudeLastWinsFixed | Library.cydsn/MAX30101.h:348-360 | two corrected amplitude settings leave the second, so 0xF0 then 0x0F leaves 0x0F |
| Intended.AmplitudeFixedTwice | MAX30101_RateTesting.cydsn/MAX30101.c:607-626 | two corrected settings in a row each leave their value |
| Decode.RawValueBits | MAX30101_RateTesting.cydsn/MAX30101.c:379-388 | the masked word is at most 18 bits: the low two bits of the first byte, then the second and third bytes |
| Decode.ChannelBound | MAX30101_RateTesting.cydsn/MAX30101.c:477-480 | a decoded value fits the 18-bit mask shifted right by the resolution shift |
| Decode.Encode | MAX30101_RateTesting.cydsn/MAX30101.c:379-388 | the device's byte triplet of an 18-bit value has a first byte of at most 3 |
| Decode.RawRoundTrip | MAX30101_RateTesting.cydsn/MAX30101.c:379-388 | decoding the triplet of any 18-bit value gives the value back |
| Decode.OnlyLowBitsOfFirstByte | MAX30101_RateTesting.cydsn/MAX30101.c:388 | two first bytes give the same value exactly when their low two bits agree |
| Decode.RawValueArithmetic | MAX30101_RateTesting.cydsn/MAX30101.c:379-388 | the value is `(b0 mod 4) * 65536 + b1 * 256 + b2` |
| Decode.FullResolutionShiftsByOne | MAX30101_RateTesting.cydsn/MAX30101.c:479-480 | at resolution code 3 the shift is 1, so an 18-bit reading loses its lowest bit |
| SampleStore.Append | MAX30101_RateTesting.cydsn/MAX30101.c:459-460 | one group advances `head` by one modulo the capacity |
| SampleStore.AppendWrites | MAX30101_RateTesting.cydsn/MAX30101.c:482-521 | one group is written at the new head: red always, IR and green when present, every other entry kept |
| SampleStore.AppendAll | MAX30101_RateTesting.cydsn/MAX30101.c:453-523 | storing any run of groups keeps the three arrays at one common positive capacity |
| SampleStore.NarrowRun | MAX30101_RateTesting.cydsn/MAX30101.c:484-522 | groups without IR leave the IR array untouched; groups without green leave the green array untouched |
| SampleStore.HeadAfter | MAX30101_RateTesting.cydsn/MAX30101.c:459-460 | after `k > 0` groups the head is `(head + k) mod capacity` |
| SampleStore.SlotsDistinct | MAX30101_RateTesting.cydsn/MAX30101.c:459-460 | fewer groups than the capacity land on distinct slots |
| SampleStore.Placement | MAX30101_RateTesting.cydsn/MAX30101.c:453-523 | up to a capacity of groups, group `k` is found at slot `head + k + 1` |
| SampleStore.Unreached | MAX30101_RateTesting.cydsn/MAX30101.c:453-523 | slots the run does not reach keep their three entries |
| SampleStore.Overwrite | MAX30101_RateTesting.cydsn/MAX30101.c:459-482 | one group more than the capacity overwrites the first group's red entry |
| FifoRead.Channels | MAX30101_RateTesting.cydsn/MAX30101.c:391-411 | one channel for up to one LED, two for two, three for more |
| FifoRead.Iterations | MAX30101_RateTesting.cydsn/MAX30101.c:360-370 | with at least one active LED the loop reads exactly `num_samples` samples, and it reads none exactly when `n` or the LED count is 0 |
| FifoRead.BudgetZero | MAX30101_RateTesting.cydsn/MAX30101.c:360-370 | the 16-bit byte budget reaches 0 exactly after the expected number of passes |
| FifoRead.BudgetStep | MAX30101_RateTesting.cydsn/MAX30101.c:368-370 | each pass lowers the 16-bit budget by `3 * active_leds` |
| FifoRead.Resolution | MAX30101_RateTesting.cydsn/MAX30101.c:442-444 | the resolution code is at most 3, and 0 when the configuration read fails |
| FifoRead.PulseWidthSetsResolution | MAX30101_RateTesting.cydsn/MAX30101.c:442-444 | the pulse width set is the resolution `ReadFIFO` then reads |
| FifoRead.Decoded | MAX30101_RateTesting.cydsn/MAX30101.c:467-521 | `k` groups of `c` channels each |
| FifoRead.DecodedLayout | MAX30101_RateTesting.cydsn/MAX30101.c:467-521 | channel `j` of group `i` is decoded from the triplet at byte `3 (c i + j)` |
| FifoRead.StoreSamples | MAX30101_RateTesting.cydsn/MAX30101.c:453-523 | the loop consumes `3 c k` bytes and leaves the store with every decoded group appended |
| FifoRead.ReadFIFO | MAX30101_RateTesting.cydsn/MAX30101.c:435-527 | always OK; the store gets the decoded groups; no IR written for one LED, no green for up to two; one configuration read and one burst |
| FifoRead.ReadFIFOHead | MAX30101_RateTesting.cydsn/MAX30101.c:459-460 | with `n > 0` samples of at least one LED the head moves by `n` modulo the capacity |
| FifoRead.ReadFIFOPlacement | MAX30101_RateTesting.cydsn/MAX30101.c:453-523 | sample `k` is at slot `head + k + 1`, decoded from its own bytes |
| FifoRead.RawValuesLayout | MAX30101_RateTesting.cydsn/MAX30101.c:376-389 | value `t` of the raw run is decoded from the triplet at byte `3 t` |
| FifoRead.CounterIsMod | MAX30101_RateTesting.cydsn/MAX30101.c:365-427 | the store index after `t` increments is `t mod w` |
| FifoRead.ScatterInOrder | MAX30101_RateTesting.cydsn/MAX30101.c:389-427 | up to `w` values are stored in order at the front |
| FifoRead.ScatterWraps | MAX30101_RateTesting.cydsn/MAX30101.c:365-427 | with an 8-bit index, value `256 + j` overwrites value `j` |
| FifoRead.ValuesCount | MAX30101_RateTesting.cydsn/MAX30101.c:366-429 | the run reads `channels * iterations` values, at most 765 |
| FifoRead.ReadRawInto | MAX30101_RateTesting.cydsn/MAX30101.c:357-432 | the loop stores every raw value at its wrapped index, issues one 3-byte burst per value, and returns the last red read's result |
| FifoRead.RawSampleLayout | MAX30101_RateTesting.cydsn/MAX30101.c:389-425 | channel `c` of sample `k` is value `channels * k + c`, read from its own triplet |
| FifoRead.ReadRawFIFO | MAX30101_RateTesting.cydsn/MAX30101.c:357-432 | as written, with an 8-bit index: up to 256 values land in order; one burst per value; the last red read's result, none when the loop never runs |
| FifoRead.ReadRawFIFOWide | MAX30101_RateTesting.cydsn/MAX30101.c:357-432 | with a wide index every value lands in order and the rest of the array is kept |
| FifoRead.RawCounterWraps | MAX30101_RateTesting.cydsn/MAX30101.c:365-427 | 86 samples of three LEDs put values 256 and 257 where values 0 and 1 belong |
| Acquisition.PendingCount | MAX30101_RateTesting.cydsn/main.c:139-141 | the count is positive unless the read pointer is 32 or more ahead; it agrees with `wp - rp` modulo 32 |
| Acquisition.PendingAhead | MAX30101_RateTesting.cydsn/main.c:139 | a write pointer ahead gives the difference |
| Acquisition.PendingBehind | MAX30101_RateTesting.cydsn/main.c:139-141 | a write pointer behind gives the difference plus 32 |
| Acquisition.PendingFull | MAX30101_RateTesting.cydsn/main.c:139-141 | equal pointers count 32 samples |
| Acquisition.PendingInRange | MAX30101_RateTesting.cydsn/main.c:139-141 | pointers inside the FIFO give a count from 1 to 32 |
| Acquisition.PendingReachesWritePointer | MAX30101_RateTesting.cydsn/main.c:139-141 | the count is the unique advance in 1..32 that brings the read pointer to the write pointer |
| Acquisition.PendingIsModularDistance | MAX30101_RateTesting.cydsn/main.c:139-141 | the count is `(wp - rp) mod 32`, with 0 read as 32 |
| Acquisition.BufferMatchesRequest | MAX30101_RateTesting.cydsn/main.c:143-144 | the count fits the `uint8_t` parameter and the buffer has exactly the length of the burst requested |
| Acquisition.Gained | MAX30101_RateTesting.cydsn/main.c:130-142 | a pass adds nothing unless the interrupt fired and the flag is set, then 1 to 32 samples |
| Acquisition.Step | MAX30101_RateTesting.cydsn/main.c:142-164 | the total stays at most 200: it grows by the gain, or is reset to 0 once above 200 |
| Acquisition.RunBounded | MAX30101_RateTesting.cydsn/main.c:127-165 | after any pass the total is at most 200 |
| Acquisition.RunSums | MAX30101_RateTesting.cydsn/main.c:127-165 | without a reset, the total is the start plus every pass's pending count |
| Acquisition.ResetAfter200 | MAX30101_RateTesting.cydsn/main.c:157-164 | a pass that would take the total above 200 resets it to 0 |

## Left out

- The I2C transport internals (`I2C_Peripheral_*`, the `I2C_Master_*` start, restart, read-byte and stop calls) are not modelled. Each transaction is one scripted result code, and the bytes a burst delivers are an input stream.
- `MAX30101_ReadTemperature` is not modelled because it computes a `float`. Its integer and fractional bytes are modelled by `ReadRawTemperature`.
- `MAX30101_LogRegisters` and `PrintRegister` are not modelled because they only format text for the UART.
- The interrupt service routine, `flag_temp`, the UART, the timer and the rate printed by `main.c` are not modelled because they are I/O and floating point. The interrupt is a field of `Acquisition.Poll`.
- The clear-on-read of the interrupt status registers, the device-side effect of a reset, and the FIFO's own pointer movement are not modelled because they are device behaviour, not driver behaviour. The register file changes only through the driver's writes.
- Bytes delivered by a failed transaction are not modelled; the byte of a failed read is `None`.
- Driver.ClearFIFO: requires that the mode read succeed and find one of the three modes whenever both pointer writes succeeded. Otherwise `active_leds` is used uninitialised, and the C code has no defined result.
- Driver.ActiveLeds: undefined outside the three mode codes, for the same reason.
- FifoRead.ReadFIFO: the width of `head` is not modelled (it is a `nat`). The resolution read is counted as one transaction whose failure leaves resolution 0, as the code's initial value does.
- FifoRead.ReadFIFO: the burst is logged as one transaction. The per-byte `ACK_DATA` reads are not modelled.
- FifoRead.Channels: an `active_leds` above 3 reads three channels per sample, as the code's two `if`s do; the budget still counts `3 * active_leds` bytes per sample.
- Acquisition.PendingCount: pointers of 32 or more are not excluded, but only pointers below 32 have the modular properties.
- Acquisition.Gained: the flag left indeterminate by a failed query is an arbitrary byte in `Acquisition.Poll`.
- Acquisition.Run: has no contract of its own. Its properties are `RunBounded` and `RunSums`.
- Acquisition.RunSums: is proved only for runs in which no reset happens, stated by a precondition on every prefix.
- RmwLaws.BitMaskOk: states the next two scripted results after the call, not the whole remaining script. `RmwLaws.BitMaskAcks` states the whole script.

## Findings

| source | as written | input that shows it | evidently intended | confidence | as-written member | corrected member |
|---|---|---|---|---|---|---|
| MAX30101_RateTesting.cydsn/MAX30101.c:365 | `sample_counter` is a `uint8_t`, so the store index wraps after 256 values | `num_samples = 86`, `active_leds = 3`: 258 values; values 256 and 257 overwrite values 0 and 1 | an index as wide as the count, so every value lands at its own position | not executed | FifoRead.RawCounterWraps | FifoRead.ReadRawFIFOWide |
| MAX30101_RateTesting.cydsn/MAX30101.c:248-270 | the FIFO-almost-full enable and disable use `MAX30101_FIFO_A_FULL_MASK` (0xF0, the FIFO configuration mask) | enable then disable on interrupt enable 1 = 0x4F: the interrupt stays enabled (0xC0) and bits 0-3 are cleared | `MAX30101_INT_FIFO_A_FULL_MASK` (0x7F), so disabling clears bit 7 and the other bits are kept | not executed | DriverLaws.FIFOAFullStaysEnabled | Intended.FIFOAFullToggleFixed |
| MAX30101_RateTesting.cydsn/MAX30101.c:284 | the temperature-ready disable writes interrupt enable 1 | enable then disable: bit 1 of interrupt enable 2 stays set | write interrupt enable 2, where the enable sets the bit | not executed | DriverLaws.TempReadyStaysEnabled | Intended.TempReadyToggleFixed |
| MAX30101_RateTesting.cydsn/MAX30101.c:615 | the LED pulse amplitude is ORed into the register | on a cleared register, set 0xF0 then 0x0F: the register reads 0xFF | the register takes the requested amplitude | not executed | DriverLaws.AmplitudeAccumulates | Intended.AmplitudeLastWinsFixed |
