/**
 Properties that relate several driver calls, or a driver call to an
 independent reading of the register it changes: which calls undo which,
 how the FIFO, slot and mode registers read back, and the
 places where MAX30101_RateTesting.cydsn/MAX30101.c does something other than
 its header (Library.cydsn/MAX30101.h) describes.
 */
module DriverLaws {
  import opened Transport
  import opened Registers
  import opened Driver
  import opened RmwLaws
  import Modular

  // ---------------------------------------------------------------------
  // Interrupt enables
  // ---------------------------------------------------------------------

  /** Enabling then disabling the PPG-ready interrupt clears bit 6 and restores every other bit. */
  lemma PPGReadyToggle(rm: RegisterMap, b: Bus)
    requires Ack(b, 0) == NoError && Ack(b, 1) == NoError && Ack(b, 2) == NoError && Ack(b, 3) == NoError
    ensures var r := DisablePPGReadyInt(rm, EnablePPGReadyInt(rm, b).bus);
      r.status == Ok && r.bus.regs == Poke(b.regs, rm.intEn1, Peek(b.regs, rm.intEn1) & 0xBF)
  {
    BitMaskLastWins(b, rm.intEn1, IntPpgRdyMask, IntPpgRdyEnable, IntPpgRdyDisable);
  }

  /** Enabling then disabling the ALC-overflow interrupt clears bit 5 and restores every other bit. */
  lemma ALCOverflowToggle(rm: RegisterMap, b: Bus)
    requires Ack(b, 0) == NoError && Ack(b, 1) == NoError && Ack(b, 2) == NoError && Ack(b, 3) == NoError
    ensures var r := DisableALCOverflowInt(rm, EnableALCOverflowInt(rm, b).bus);
      r.status == Ok && r.bus.regs == Poke(b.regs, rm.intEn1, Peek(b.regs, rm.intEn1) & 0xDF)
  {
    BitMaskLastWins(b, rm.intEn1, IntAlcOvfMask, IntAlcOvfEnable, IntAlcOvfDisable);
  }

  /** Enabling then disabling FIFO rollover clears bit 4 of the FIFO configuration and restores every other bit. */
  lemma RolloverToggle(rm: RegisterMap, b: Bus)
    requires Ack(b, 0) == NoError && Ack(b, 1) == NoError && Ack(b, 2) == NoError && Ack(b, 3) == NoError
    ensures var r := DisableFIFORollover(rm, EnableFIFORollover(rm, b).bus);
      r.status == Ok && r.bus.regs == Poke(b.regs, rm.fifoConf, Peek(b.regs, rm.fifoConf) & 0xEF)
  {
    BitMaskLastWins(b, rm.fifoConf, FifoRolloverMask, FifoRolloverEnable, FifoRolloverDisable);
  }

  /**
   The FIFO-almost-full enable and disable keep bits 4-7 (the FIFO
   configuration mask), so after enabling then disabling, the interrupt is
   still enabled and bits 0-3 have been cleared.
   */
  lemma FIFOAFullStaysEnabled(rm: RegisterMap, b: Bus)
    requires Ack(b, 0) == NoError && Ack(b, 1) == NoError && Ack(b, 2) == NoError && Ack(b, 3) == NoError
    ensures var r := DisableFIFOAFullInt(rm, EnableFIFOAFullInt(rm, b).bus);
      r.status == Ok
      && Peek(r.bus.regs, rm.intEn1) & 0x80 == 0x80
      && Peek(r.bus.regs, rm.intEn1) & 0x0F == 0
  {
    var r1 := EnableFIFOAFullInt(rm, b);
    var o := Peek(b.regs, rm.intEn1);
    assert r1.bus.regs == Poke(b.regs, rm.intEn1, (o & 0xF0) | 0x80);
    assert (((o & 0xF0) | 0x80) & 0xF0) & 0x80 == 0x80;
  }

  /**
   Disabling the temperature-ready interrupt clears bit 1 of the first
   enable register, so an enabled temperature-ready interrupt in the second
   stays enabled.
   */
  lemma TempReadyStaysEnabled(rm: RegisterMap, b: Bus)
    requires rm.intEn1 != rm.intEn2
    requires Ack(b, 0) == NoError && Ack(b, 1) == NoError && Ack(b, 2) == NoError && Ack(b, 3) == NoError
    ensures var r := DisableTempReadyInt(rm, EnableTempReadyInt(rm, b).bus);
      r.status == Ok && Peek(r.bus.regs, rm.intEn2) & 0x02 == 0x02
  {
    var r1 := EnableTempReadyInt(rm, b);
    assert Peek(r1.bus.regs, rm.intEn2) & 0x02 == 0x02;
  }

  // ---------------------------------------------------------------------
  // Interrupt status queries
  // ---------------------------------------------------------------------

  /**
   A status query reports only OK or "device not found", and on success the
   flag is 0 or the bit's own value (0x80 for FIFO almost full), not 1.
   */
  lemma FIFOAFullFlagValues(rm: RegisterMap, b: Bus)
    ensures var r := IsFIFOAFull(rm, b);
      && StatusCode(r.status) <= 1
      && (r.status == Ok ==> r.value == Some(0) || r.value == Some(0x80))
      && (r.status == Ok ==> (r.value == Some(0x80) <==> Peek(b.regs, rm.intSt1) & 0x80 != 0))
  {
  }

  /** The temperature-ready query reads the second status register: its flag is 0 or 0x02. */
  lemma TempReadyFlagValues(rm: RegisterMap, b: Bus)
    ensures var r := IsTempReady(rm, b);
      && StatusCode(r.status) <= 1
      && (r.status == Ok ==> r.value == Some(0) || r.value == Some(0x02))
      && (r.status == Ok ==> (r.value == Some(0x02) <==> Peek(b.regs, rm.intSt2) & 0x02 != 0))
  {
  }

  // ---------------------------------------------------------------------
  // FIFO configuration
  // ---------------------------------------------------------------------

  /** For 17 to 32 samples the almost-full field reads back as `32 - samples`; the upper nibble is kept. */
  lemma AlmostFullReadback(rm: RegisterMap, b: Bus, samples: U8)
    requires 17 <= samples <= 32
    ensures var r := SetFIFOAlmostFull(rm, b, samples);
      r.status == Ok ==>
        && (Peek(r.bus.regs, rm.fifoConf) & 0x0F) as int == 32 - samples
        && Peek(r.bus.regs, rm.fifoConf) & 0xF0 == Peek(b.regs, rm.fifoConf) & 0xF0
  {
    var r := SetFIFOAlmostFull(rm, b, samples);
    if r.status == Ok {
      var v := Peek(r.bus.regs, rm.fifoConf);
      assert v & 0x0F == (32 - samples) as bv8;
      NibbleCast(32 - samples);
    }
  }

  /** A number that fits a nibble survives the round trip through 8 bits. */
  lemma NibbleCast(m: int)
    requires 0 <= m <= 15
    ensures (m as bv8) as int == m
  {
  }

  /**
   Below 17 samples `32 - samples` does not fit the 4-bit field: for 1 to 16
   the value spills into bit 4 and turns FIFO rollover on.
   */
  lemma AlmostFullSetsRollover(rm: RegisterMap, b: Bus, samples: U8)
    requires 1 <= samples <= 16
    ensures var r := SetFIFOAlmostFull(rm, b, samples);
      r.status == Ok ==> Peek(r.bus.regs, rm.fifoConf) & 0x10 == 0x10
  {
    var v := AlmostFullValue(samples);
    assert 16 <= v as int <= 31;
    assert v & 0x10 == 0x10 by {
      assert v == 0x10 + (v - 0x10);
    }
  }

  /** Above 32 samples the difference wraps to a large byte: 33 writes 0xFF over the whole register. */
  lemma AlmostFullWraps(rm: RegisterMap, b: Bus)
    ensures var r := SetFIFOAlmostFull(rm, b, 33);
      r.status == Ok ==> Peek(r.bus.regs, rm.fifoConf) == 0xFF
  {
  }

  /**
   Configuring the FIFO field by field: a sample average in bits 7:5, then
   rollover, then an almost-full count of 17 to 32.  Each call keeps the
   fields the earlier ones set, and no other register changes.
   */
  lemma FIFOConfiguration(rm: RegisterMap, b: Bus, avg: bv8, samples: U8)
    requires avg & 0x1F == 0 && 17 <= samples <= 32
    requires forall k: nat :: k < 6 ==> Ack(b, k) == NoError
    ensures var r1 := SetSampleAverage(rm, b, avg);
      var r2 := EnableFIFORollover(rm, r1.bus);
      var r3 := SetFIFOAlmostFull(rm, r2.bus, samples);
      && r3.status == Ok
      && Peek(r3.bus.regs, rm.fifoConf) == avg | 0x10 | (32 - samples) as bv8
      && Elsewhere(b.regs, r3.bus.regs, rm.fifoConf)
  {
    var r1 := SetSampleAverage(rm, b, avg);
    BitMaskOk(b, rm.fifoConf, SmpAvgMask, avg);
    BitMaskAcks(b, rm.fifoConf, SmpAvgMask, avg);
    var r2 := EnableFIFORollover(rm, r1.bus);
    BitMaskOk(r1.bus, rm.fifoConf, FifoRolloverMask, FifoRolloverEnable);
    BitMaskOk(r2.bus, rm.fifoConf, FifoAFullMask, AlmostFullValue(samples));
    AlmostFullNibble(samples);
    FIFOConfigurationBits(Peek(b.regs, rm.fifoConf), avg, AlmostFullValue(samples));
  }

  /** For 17 to 32 samples the almost-full byte is the nibble `32 - samples`. */
  lemma AlmostFullNibble(samples: U8)
    requires 17 <= samples <= 32
    ensures AlmostFullValue(samples) == (32 - samples) as bv8 && AlmostFullValue(samples) <= 0x0F
  {
    NibbleCast(32 - samples);
  }

  /** The FIFO configuration byte after the three merges, for fields that fit. */
  lemma FIFOConfigurationBits(o: bv8, avg: bv8, count: bv8)
    requires avg & 0x1F == 0 && count <= 0x0F
    ensures (((((o & 0x1F) | avg) & 0xEF) | 0x10) & 0xF0) | count == avg | 0x10 | count
  {
  }

  // ---------------------------------------------------------------------
  // Mode configuration
  // ---------------------------------------------------------------------

  /** Shutdown changes only bit 7 of the mode register: the mode and every other register are kept. */
  lemma ShutdownKeepsConfiguration(rm: RegisterMap, b: Bus)
    ensures var r := Shutdown(rm, b);
      r.status == Ok ==>
        && Peek(r.bus.regs, rm.modeConf) & 0x80 == 0x80
        && ModeField(Peek(r.bus.regs, rm.modeConf)) == ModeField(Peek(b.regs, rm.modeConf))
        && Elsewhere(b.regs, r.bus.regs, rm.modeConf)
  {
    var r := Shutdown(rm, b);
    if r.status == Ok {
      var o, n := Peek(b.regs, rm.modeConf), Peek(r.bus.regs, rm.modeConf);
      assert n & 0x7F == o & 0x7F;
      assert n & 0x07 == (n & 0x7F) & 0x07 && o & 0x07 == (o & 0x7F) & 0x07;
    }
  }

  /** Waking up after a shutdown clears bit 7 and restores every other bit; from an awake device it is the identity. */
  lemma ShutdownThenWakeUp(rm: RegisterMap, b: Bus)
    requires Ack(b, 0) == NoError && Ack(b, 1) == NoError && Ack(b, 2) == NoError && Ack(b, 3) == NoError
    ensures var r := WakeUp(rm, Shutdown(rm, b).bus);
      && r.status == Ok
      && r.bus.regs == Poke(b.regs, rm.modeConf, Peek(b.regs, rm.modeConf) & 0x7F)
      && (Peek(b.regs, rm.modeConf) & 0x80 == 0 ==> r.bus.regs == b.regs)
  {
    BitMaskLastWins(b, rm.modeConf, ShutdownMask, ShutdownEnable, ShutdownDisable);
    var o := Peek(b.regs, rm.modeConf);
    if o & 0x80 == 0 {
      ClearTopBit(o);
      PokeSame(b.regs, rm.modeConf);
    }
  }

  lemma ClearTopBit(o: bv8)
    requires o & 0x80 == 0
    ensures o & 0x7F == o
  {
  }

  /** Writing a register's own value back changes nothing. */
  lemma PokeSame(r: Regs, a: bv8)
    ensures Poke(r, a, Peek(r, a)) == r
  {
  }

  /** A reset sets the reset bit and keeps the other bits of the mode register. */
  lemma ResetSetsResetBit(rm: RegisterMap, b: Bus)
    ensures var r := Reset(rm, b);
      r.status == Ok ==>
        && Peek(r.bus.regs, rm.modeConf) & 0x40 == 0x40
        && Peek(r.bus.regs, rm.modeConf) & 0xBF == Peek(b.regs, rm.modeConf) & 0xBF
  {
  }

  /**
   Setting one of the three modes and then clearing the FIFO: the mode reads
   back, and the clear requests one sample of 1 (HR: red), 2 (SpO2: red and
   IR) or 3 (multi-LED) LEDs.
   */
  lemma SetModeThenClearFIFO(rm: RegisterMap, modes: ModeCodes, b: Bus, mode: bv8)
    requires modes.Valid() && mode <= 7
    requires mode == modes.hr || mode == modes.spo2 || mode == modes.multi
    requires rm.fifoWp != rm.modeConf && rm.fifoRp != rm.modeConf
    requires forall k: nat :: k < 6 ==> Ack(b, k) == NoError
    ensures var s := SetMode(rm, b, mode);
      && s.status == Ok
      && ModeField(Peek(s.bus.regs, rm.modeConf)) == mode
      && ClearFIFODefined(rm, modes, s.bus)
      && var c := ClearFIFO(rm, modes, s.bus);
         && c.status == Ok
         && c.bus.log[|c.bus.log| - 1] == Burst(rm.fifoData, 3 * ActiveLeds(modes, mode))
  {
    var s := SetMode(rm, b, mode);
    assert Ack(b, 0) == NoError && Ack(b, 1) == NoError;
    assert forall k: nat :: Ack(s.bus, k) == Ack(b, k + 2);
    var cleared := PointersCleared(rm, s.bus.regs);
    assert Peek(cleared, rm.modeConf) == Peek(s.bus.regs, rm.modeConf);
  }

  // ---------------------------------------------------------------------
  // SpO2 configuration
  // ---------------------------------------------------------------------

  /**
   Configuring the SpO2 register field by field: ADC range (bits 6:5), then
   sample rate (bits 4:2), then pulse width (bits 1:0).  Each field reads
   back what was set, bit 7 is kept, and no other register changes.
   */
  lemma SpO2Configuration(rm: RegisterMap, b: Bus, range: bv8, sr: bv8, pw: bv8)
    requires range & 0x9F == 0 && sr & 0xE3 == 0 && pw <= 3
    requires forall k: nat :: k < 6 ==> Ack(b, k) == NoError
    ensures var r1 := SetSpO2ADCRange(rm, b, range);
      var r2 := SetSpO2SampleRate(rm, r1.bus, sr);
      var r3 := SetSpO2PulseWidth(rm, r2.bus, pw);
      && r3.status == Ok
      && Peek(r3.bus.regs, rm.spo2Conf) == (Peek(b.regs, rm.spo2Conf) & 0x80) | range | sr | pw
      && Elsewhere(b.regs, r3.bus.regs, rm.spo2Conf)
  {
    var r1 := SetSpO2ADCRange(rm, b, range);
    BitMaskOk(b, rm.spo2Conf, Spo2AdcRangeMask, range);
    BitMaskAcks(b, rm.spo2Conf, Spo2AdcRangeMask, range);
    var r2 := SetSpO2SampleRate(rm, r1.bus, sr);
    BitMaskOk(r1.bus, rm.spo2Conf, Spo2SampleRateMask, sr);
    BitMaskOk(r2.bus, rm.spo2Conf, Spo2PulseWidthMask, pw);
    SpO2ConfigurationBits(Peek(b.regs, rm.spo2Conf), range, sr, pw);
  }

  /** The SpO2 configuration byte after the three merges, for fields that fit. */
  lemma SpO2ConfigurationBits(o: bv8, range: bv8, sr: bv8, pw: bv8)
    requires range & 0x9F == 0 && sr & 0xE3 == 0 && pw <= 3
    ensures (((((o & 0x9F) | range) & 0xE3) | sr) & 0xFC) | pw == (o & 0x80) | range | sr | pw
  {
  }

  // ---------------------------------------------------------------------
  // Multi-LED slots
  // ---------------------------------------------------------------------

  /**
   After enabling a slot with an LED code of 0 to 7, that slot reads back
   the LED and the other three slots are unchanged.
   */
  lemma EnableSlotReadback(rm: RegisterMap, b: Bus, slot: U8, led: bv8)
    requires 1 <= slot <= 4 && led <= 7 && rm.multiLed1 != rm.multiLed2
    ensures var r := EnableSlot(rm, b, slot, led);
      var m1, m2 := Peek(b.regs, rm.multiLed1), Peek(b.regs, rm.multiLed2);
      var n1, n2 := Peek(r.bus.regs, rm.multiLed1), Peek(r.bus.regs, rm.multiLed2);
      r.status == Ok ==>
        && SlotLed(n1, n2, slot) == led
        && forall s :: 1 <= s <= 4 && s != slot ==> SlotLed(n1, n2, s) == SlotLed(m1, m2, s)
  {
    if Ack(b, 0) == NoError && Ack(b, 1) == NoError {
      if slot <= 2 {
        FirstRegisterSlot(rm, b, slot, led);
      } else {
        SecondRegisterSlot(rm, b, slot, led);
      }
    }
  }

  /** Slots 1 and 2 live in the first slot register: writing one leaves the second register alone. */
  lemma FirstRegisterSlot(rm: RegisterMap, b: Bus, slot: U8, led: bv8)
    requires 1 <= slot <= 2 && led <= 7 && rm.multiLed1 != rm.multiLed2
    requires Ack(b, 0) == NoError && Ack(b, 1) == NoError
    ensures var r := EnableSlot(rm, b, slot, led);
      var m1 := Peek(b.regs, rm.multiLed1);
      var n1 := Peek(r.bus.regs, rm.multiLed1);
      && Peek(r.bus.regs, rm.multiLed2) == Peek(b.regs, rm.multiLed2)
      && (n1 & 0x07 == if slot == 1 then led else m1 & 0x07)
      && ((n1 >> 4) & 0x07 == if slot == 2 then led else (m1 >> 4) & 0x07)
  {
    var m1 := Peek(b.regs, rm.multiLed1);
    if slot == 1 {
      BitMaskOk(b, rm.multiLed1, Slot1Mask, led);
      LowSlotWrite(m1, led);
    } else {
      BitMaskOk(b, rm.multiLed1, Slot2Mask, led << 4);
      HighSlotWrite(m1, led);
    }
  }

  /** Slots 3 and 4 live in the second slot register: writing one leaves the first register alone. */
  lemma SecondRegisterSlot(rm: RegisterMap, b: Bus, slot: U8, led: bv8)
    requires 3 <= slot <= 4 && led <= 7 && rm.multiLed1 != rm.multiLed2
    requires Ack(b, 0) == NoError && Ack(b, 1) == NoError
    ensures var r := EnableSlot(rm, b, slot, led);
      var m2 := Peek(b.regs, rm.multiLed2);
      var n2 := Peek(r.bus.regs, rm.multiLed2);
      && Peek(r.bus.regs, rm.multiLed1) == Peek(b.regs, rm.multiLed1)
      && (n2 & 0x07 == if slot == 3 then led else m2 & 0x07)
      && ((n2 >> 4) & 0x07 == if slot == 4 then led else (m2 >> 4) & 0x07)
  {
    var m2 := Peek(b.regs, rm.multiLed2);
    if slot == 3 {
      BitMaskOk(b, rm.multiLed2, Slot3Mask, led);
      LowSlotWrite(m2, led);
    } else {
      BitMaskOk(b, rm.multiLed2, Slot4Mask, led << 4);
      HighSlotWrite(m2, led);
    }
  }

  /** Writing an odd slot (bits 2:0) keeps the even slot (bits 6:4) of the same register. */
  lemma LowSlotWrite(o: bv8, led: bv8)
    requires led <= 7
    ensures ((o & 0xF8) | led) & 0x07 == led
    ensures (((o & 0xF8) | led) >> 4) & 0x07 == (o >> 4) & 0x07
  {
  }

  /** Writing an even slot (bits 6:4) keeps the odd slot (bits 2:0) of the same register. */
  lemma HighSlotWrite(o: bv8, led: bv8)
    requires led <= 7
    ensures ((o & 0x8F) | (led << 4)) & 0x07 == o & 0x07
    ensures (((o & 0x8F) | (led << 4)) >> 4) & 0x07 == led
  {
  }

  /** After `DisableSlots` every slot reads back as no LED. */
  lemma DisableSlotsClearsAll(rm: RegisterMap, b: Bus)
    ensures var r := DisableSlots(rm, b);
      r.status == Ok ==>
        forall s :: 1 <= s <= 4 ==> SlotLed(Peek(r.bus.regs, rm.multiLed1), Peek(r.bus.regs, rm.multiLed2), s) == 0
  {
  }

  // ---------------------------------------------------------------------
  // LED pulse amplitude
  // ---------------------------------------------------------------------

  /**
   Two amplitude settings in a row accumulate: the register ends as the old
   value ORed with both, so setting 0xF0 then 0x0F on a cleared register
   leaves 0xFF rather than 0x0F.
   */
  lemma AmplitudeAccumulates(rm: RegisterMap, b: Bus, ch: bv8, pa1: bv8, pa2: bv8)
    requires Ack(b, 0) == NoError && Ack(b, 1) == NoError && Ack(b, 2) == NoError && Ack(b, 3) == NoError
    ensures var r := SetLEDPulseAmplitude(rm, SetLEDPulseAmplitude(rm, b, ch, pa1).bus, ch, pa2);
      && r.status == Ok
      && Peek(r.bus.regs, LedRegister(rm, ch)) == Peek(b.regs, LedRegister(rm, ch)) | pa1 | pa2
      && (Peek(b.regs, LedRegister(rm, ch)) == 0 && pa1 == 0xF0 && pa2 == 0x0F ==>
            Peek(r.bus.regs, LedRegister(rm, ch)) == 0xFF)
  {
    OrRegisterTwice(LedRegister(rm, ch), b, pa1, pa2);
  }

  // ---------------------------------------------------------------------
  // Temperature
  // ---------------------------------------------------------------------

  /** Reading a byte as `int8_t` and storing it back as a byte are inverse. */
  lemma Int8RoundTrip(i: int)
    requires -128 <= i < 128
    ensures Int8((i % 0x100) as bv8) == i
  {
    var x := if i >= 0 then i else i + 0x100;
    Modular.ModUnique(i, if i >= 0 then 0 else -1, x, 0x100);
    var v := x as bv8;
    assert v as int == x;
  }

  /**
   A device whose temperature-integer register holds the two's-complement
   byte of `t` reports `t` itself, for every `t` in -128..127.
   */
  lemma TemperatureReadsSigned(rm: RegisterMap, b: Bus, t: int)
    requires -128 <= t < 128
    requires Ack(b, 0) == NoError && Peek(b.regs, rm.tempInt) == (t % 0x100) as bv8
    ensures ReadRawTemperature(rm, b).integer == Some(t)
  {
    Int8RoundTrip(t);
  }
}
