/**
 The MAX30101 register-level driver (MAX30101_RateTesting.cydsn/MAX30101.c):
 every configuration call is a read-modify-write of one register through
 `BitMask`; status queries read one interrupt-status register and keep a
 single bit.  Each operation is a pure function from the bus before the call
 to the status code it returns and the bus after it.
 */
module Driver {
  import opened Transport
  import opened Registers

  /** Driver return codes: 0 OK, 1 device not found, 2 generic error. */
  datatype Status = Ok | DevNotFound | Error

  function StatusCode(s: Status): (c: bv8)
    ensures c <= 2
    ensures (c == 0) == (s == Ok)
  {
    match s
    case Ok => 0
    case DevNotFound => 1
    case Error => 2
  }

  /** A status code and the bus afterwards. */
  datatype Outcome = Outcome(status: Status, bus: Bus)

  /** A status code, the byte stored to the caller's variable (`None`: left unwritten or indeterminate), and the bus afterwards. */
  datatype Reading = Reading(status: Status, value: Option<bv8>, bus: Bus)

  /** The contract of a one-register read at `a`: any transport failure is reported as "device not found". */
  ghost predicate ReadOf(b: Bus, a: bv8, r: Reading) {
    && (r.status == Ok <==> Ack(b, 0) == NoError)
    && (r.status != Ok ==> r.status == DevNotFound && r.value == None)
    && (r.status == Ok ==> r.value == Some(Peek(b.regs, a)))
    && r.bus.regs == b.regs
    && r.bus.log == b.log + [Read(a)]
  }

  /** Register `a` kept the bits of `keep`, reads `value` in all its other bits, and nothing else changed. */
  ghost predicate Rewrote(before: Regs, after: Regs, a: bv8, keep: bv8, value: bv8) {
    && Peek(after, a) & keep == Peek(before, a) & keep
    && Peek(after, a) & !keep == value
    && Elsewhere(before, after, a)
  }

  /** Status of a read-modify-write: OK only when both the read and the write succeed, otherwise "device not found" and no register changes. */
  ghost predicate RmwStatus(b: Bus, r: Outcome) {
    && (r.status == Ok <==> Ack(b, 0) == NoError && Ack(b, 1) == NoError)
    && (r.status != Ok ==> r.status == DevNotFound && r.bus.regs == b.regs)
  }

  // ---------------------------------------------------------------------
  // Helpers (MAX30101.c:719-808)
  // ---------------------------------------------------------------------

  function ReadRegister(b: Bus, a: bv8): (r: Reading)
    ensures ReadOf(b, a, r)
  {
    var rd := PeripheralRead(b, a);
    if rd.result == NoError then Reading(Ok, Some(rd.value), rd.bus)
    else Reading(DevNotFound, None, rd.bus)
  }

  function WriteRegister(b: Bus, a: bv8, v: bv8): (r: Outcome)
    ensures r.status == Ok <==> Ack(b, 0) == NoError
    ensures r.status != Ok ==> r.status == DevNotFound && r.bus.regs == b.regs
    ensures r.status == Ok ==> Peek(r.bus.regs, a) == v && Elsewhere(b.regs, r.bus.regs, a)
    ensures r.status == Ok ==> r.bus.regs == Poke(b.regs, a, v)
    ensures r.bus.log == b.log + [Write(a, v)]
    ensures forall k: nat :: Ack(r.bus, k) == Ack(b, k + 1)
  {
    var wr := PeripheralWrite(b, a, v);
    Outcome(if wr.result == NoError then Ok else DevNotFound, wr.bus)
  }

  /** Read register `a`, keep the bits of `mask`, OR in `thing`, write it back. */
  function BitMask(b: Bus, a: bv8, mask: bv8, thing: bv8): (r: Outcome)
    ensures RmwStatus(b, r)
    ensures r.status == Ok ==> Rewrote(b.regs, r.bus.regs, a, mask & !thing, thing)
    ensures Ack(b, 0) != NoError ==> r.bus.log == b.log + [Read(a)]
    ensures Ack(b, 0) == NoError ==>
      r.bus.log == b.log + [Read(a), Write(a, Merge(Peek(b.regs, a), mask, thing))]
  {
    var rd := PeripheralRead(b, a);
    if rd.result == NoError then WriteRegister(rd.bus, a, Merge(rd.value, mask, thing))
    else Outcome(DevNotFound, rd.bus)
  }

  /** The byte `BitMask` writes back: `(o & mask) | thing`. */
  function Merge(o: bv8, mask: bv8, thing: bv8): (v: bv8)
    ensures v & (mask & !thing) == o & (mask & !thing)
    ensures v & !(mask & !thing) == thing
  {
    (o & mask) | thing
  }

  // ---------------------------------------------------------------------
  // Presence and start-up (MAX30101.c:181-197)
  // ---------------------------------------------------------------------

  function IsDevicePresent(b: Bus): (r: Outcome)
    ensures r.status == Ok <==> Ack(b, 0) == NoError
    ensures r.status != Ok ==> r.status == DevNotFound
    ensures r.bus.regs == b.regs && r.bus.log == b.log + [Probe]
  {
    var p := PeripheralProbe(b);
    Outcome(if p.result == NoError then Ok else DevNotFound, p.bus)
  }

  /** Start the device: the soft reset that follows the (unmodelled) peripheral start-up. */
  function Start(rm: RegisterMap, b: Bus): (r: Outcome)
    ensures RmwStatus(b, r)
    ensures r.status == Ok ==> Rewrote(b.regs, r.bus.regs, rm.modeConf, 0xBF, 0x40)
  {
    Reset(rm, b)
  }

  // ---------------------------------------------------------------------
  // Interrupt status queries (MAX30101.c:203-245)
  // ---------------------------------------------------------------------

  /** Read register `a` and keep only the bits outside `mask`. */
  function FlagQuery(b: Bus, a: bv8, mask: bv8): (r: Reading)
    ensures r.status == Ok <==> Ack(b, 0) == NoError
    ensures r.status != Ok ==> r.status == DevNotFound && r.value == None
    ensures r.status == Ok ==> r.value == Some(Peek(b.regs, a) & !mask)
    ensures r.bus.regs == b.regs && r.bus.log == b.log + [Read(a)]
  {
    var rd := ReadRegister(b, a);
    // On a failed read the flag is computed from an uninitialised byte.
    Reading(rd.status, if rd.status == Ok then Some(rd.value.value & !mask) else None, rd.bus)
  }

  /** The one-bit flag contract: the flag is nonzero exactly when the bit `bit` of register `a` is set, and no other bit survives. */
  ghost predicate FlagOf(b: Bus, a: bv8, bit: bv8, r: Reading) {
    && (r.status == Ok <==> Ack(b, 0) == NoError)
    && (r.status != Ok ==> r.status == DevNotFound)
    && (r.status == Ok ==>
          && r.value.Some?
          && (r.value.value != 0 <==> Peek(b.regs, a) & bit != 0)
          && r.value.value & !bit == 0)
    && r.bus.regs == b.regs
    && r.bus.log == b.log + [Read(a)]
  }

  function IsFIFOAFull(rm: RegisterMap, b: Bus): (r: Reading)
    ensures FlagOf(b, rm.intSt1, 0x80, r)
  {
    FlagQuery(b, rm.intSt1, IntFifoAFullMask)
  }

  function IsPPGReady(rm: RegisterMap, b: Bus): (r: Reading)
    ensures FlagOf(b, rm.intSt1, 0x40, r)
  {
    FlagQuery(b, rm.intSt1, IntPpgRdyMask)
  }

  function IsALCOverflow(rm: RegisterMap, b: Bus): (r: Reading)
    ensures FlagOf(b, rm.intSt1, 0x20, r)
  {
    FlagQuery(b, rm.intSt1, IntAlcOvfMask)
  }

  function IsPowerReady(rm: RegisterMap, b: Bus): (r: Reading)
    ensures FlagOf(b, rm.intSt1, 0x01, r)
  {
    FlagQuery(b, rm.intSt1, IntPwrRdyMask)
  }

  function IsTempReady(rm: RegisterMap, b: Bus): (r: Reading)
    ensures FlagOf(b, rm.intSt2, 0x02, r)
  {
    FlagQuery(b, rm.intSt2, IntTmpRdyMask)
  }

  // ---------------------------------------------------------------------
  // Interrupt enables (MAX30101.c:247-285)
  // ---------------------------------------------------------------------

  /** Sets bit 7 of the first enable register but, using the FIFO-configuration mask 0xF0, also clears bits 0-3. */
  function EnableFIFOAFullInt(rm: RegisterMap, b: Bus): (r: Outcome)
    ensures RmwStatus(b, r)
    ensures r.status == Ok ==> Rewrote(b.regs, r.bus.regs, rm.intEn1, 0x70, 0x80)
  {
    BitMask(b, rm.intEn1, FifoAFullMask, IntFifoAFullEnable)
  }

  function EnablePPGReadyInt(rm: RegisterMap, b: Bus): (r: Outcome)
    ensures RmwStatus(b, r)
    ensures r.status == Ok ==> Rewrote(b.regs, r.bus.regs, rm.intEn1, 0xBF, 0x40)
  {
    BitMask(b, rm.intEn1, IntPpgRdyMask, IntPpgRdyEnable)
  }

  function EnableALCOverflowInt(rm: RegisterMap, b: Bus): (r: Outcome)
    ensures RmwStatus(b, r)
    ensures r.status == Ok ==> Rewrote(b.regs, r.bus.regs, rm.intEn1, 0xDF, 0x20)
  {
    BitMask(b, rm.intEn1, IntAlcOvfMask, IntAlcOvfEnable)
  }

  function EnableTempReadyInt(rm: RegisterMap, b: Bus): (r: Outcome)
    ensures RmwStatus(b, r)
    ensures r.status == Ok ==> Rewrote(b.regs, r.bus.regs, rm.intEn2, 0xFD, 0x02)
  {
    BitMask(b, rm.intEn2, IntTmpRdyMask, IntTmpRdyEnable)
  }

  /** Keeps bits 4-7 of the first enable register, so bit 7 is never cleared, and clears bits 0-3. */
  function DisableFIFOAFullInt(rm: RegisterMap, b: Bus): (r: Outcome)
    ensures RmwStatus(b, r)
    ensures r.status == Ok ==> Rewrote(b.regs, r.bus.regs, rm.intEn1, 0xF0, 0x00)
  {
    BitMask(b, rm.intEn1, FifoAFullMask, IntFifoAFullDisable)
  }

  function DisablePPGReadyInt(rm: RegisterMap, b: Bus): (r: Outcome)
    ensures RmwStatus(b, r)
    ensures r.status == Ok ==> Rewrote(b.regs, r.bus.regs, rm.intEn1, 0xBF, 0x00)
  {
    BitMask(b, rm.intEn1, IntPpgRdyMask, IntPpgRdyDisable)
  }

  function DisableALCOverflowInt(rm: RegisterMap, b: Bus): (r: Outcome)
    ensures RmwStatus(b, r)
    ensures r.status == Ok ==> Rewrote(b.regs, r.bus.regs, rm.intEn1, 0xDF, 0x00)
  {
    BitMask(b, rm.intEn1, IntAlcOvfMask, IntAlcOvfDisable)
  }

  /** Clears bit 1 of the FIRST enable register; the temperature-ready enable in the second is not touched. */
  function DisableTempReadyInt(rm: RegisterMap, b: Bus): (r: Outcome)
    ensures RmwStatus(b, r)
    ensures r.status == Ok ==> Rewrote(b.regs, r.bus.regs, rm.intEn1, 0xFD, 0x00)
    ensures r.status == Ok && rm.intEn2 != rm.intEn1 ==> Peek(r.bus.regs, rm.intEn2) == Peek(b.regs, rm.intEn2)
  {
    BitMask(b, rm.intEn1, IntTmpRdyMask, IntTmpRdyDisable)
  }

  // ---------------------------------------------------------------------
  // FIFO pointers and configuration (MAX30101.c:290-306, 533-555)
  // ---------------------------------------------------------------------

  function ReadWritePointer(rm: RegisterMap, b: Bus): (r: Reading)
    ensures ReadOf(b, rm.fifoWp, r)
  {
    ReadRegister(b, rm.fifoWp)
  }

  function ReadOverflowCounter(rm: RegisterMap, b: Bus): (r: Reading)
    ensures ReadOf(b, rm.fifoOvfCnt, r)
  {
    ReadRegister(b, rm.fifoOvfCnt)
  }

  function ReadReadPointer(rm: RegisterMap, b: Bus): (r: Reading)
    ensures ReadOf(b, rm.fifoRp, r)
  {
    ReadRegister(b, rm.fifoRp)
  }

  /** `samples` is an already-encoded field value; only its bits outside 4:0 are meant to be set. */
  function SetSampleAverage(rm: RegisterMap, b: Bus, samples: bv8): (r: Outcome)
    ensures RmwStatus(b, r)
    ensures r.status == Ok ==> Rewrote(b.regs, r.bus.regs, rm.fifoConf, 0x1F & !samples, samples)
    ensures r.status == Ok && samples & 0x1F == 0 ==>
      Rewrote(b.regs, r.bus.regs, rm.fifoConf, 0x1F, samples)
  {
    BitMask(b, rm.fifoConf, SmpAvgMask, samples)
  }

  function EnableFIFORollover(rm: RegisterMap, b: Bus): (r: Outcome)
    ensures RmwStatus(b, r)
    ensures r.status == Ok ==> Rewrote(b.regs, r.bus.regs, rm.fifoConf, 0xEF, 0x10)
  {
    BitMask(b, rm.fifoConf, FifoRolloverMask, FifoRolloverEnable)
  }

  function DisableFIFORollover(rm: RegisterMap, b: Bus): (r: Outcome)
    ensures RmwStatus(b, r)
    ensures r.status == Ok ==> Rewrote(b.regs, r.bus.regs, rm.fifoConf, 0xEF, 0x00)
  {
    BitMask(b, rm.fifoConf, FifoRolloverMask, FifoRolloverDisable)
  }

  /** The byte `32 - samples` as C converts it to the `uint8_t` parameter of `BitMask`. */
  function AlmostFullValue(samples: U8): bv8 {
    if samples <= 32 then (32 - samples) as bv8 else (0x120 - samples) as bv8
  }

  /**
   Writes `(old & 0xF0) | (32 - samples)` without clamping: for 17..32 the
   upper nibble is kept and the low nibble is `32 - samples`.
   */
  function SetFIFOAlmostFull(rm: RegisterMap, b: Bus, samples: U8): (r: Outcome)
    ensures RmwStatus(b, r)
    ensures r.status == Ok ==>
      Rewrote(b.regs, r.bus.regs, rm.fifoConf, 0xF0 & !AlmostFullValue(samples), AlmostFullValue(samples))
    ensures r.status == Ok && 17 <= samples <= 32 ==>
      Rewrote(b.regs, r.bus.regs, rm.fifoConf, 0xF0, (32 - samples) as bv8)
  {
    BitMask(b, rm.fifoConf, FifoAFullMask, AlmostFullValue(samples))
  }

  // ---------------------------------------------------------------------
  // Mode configuration (MAX30101.c:561-583)
  // ---------------------------------------------------------------------

  function Shutdown(rm: RegisterMap, b: Bus): (r: Outcome)
    ensures RmwStatus(b, r)
    ensures r.status == Ok ==> Rewrote(b.regs, r.bus.regs, rm.modeConf, 0x7F, 0x80)
  {
    BitMask(b, rm.modeConf, ShutdownMask, ShutdownEnable)
  }

  function WakeUp(rm: RegisterMap, b: Bus): (r: Outcome)
    ensures RmwStatus(b, r)
    ensures r.status == Ok ==> Rewrote(b.regs, r.bus.regs, rm.modeConf, 0x7F, 0x00)
  {
    BitMask(b, rm.modeConf, ShutdownMask, ShutdownDisable)
  }

  function Reset(rm: RegisterMap, b: Bus): (r: Outcome)
    ensures RmwStatus(b, r)
    ensures r.status == Ok ==> Rewrote(b.regs, r.bus.regs, rm.modeConf, 0xBF, 0x40)
  {
    BitMask(b, rm.modeConf, ResetMask, ResetEnable)
  }

  function SetMode(rm: RegisterMap, b: Bus, mode: bv8): (r: Outcome)
    ensures RmwStatus(b, r)
    ensures r.status == Ok ==> Rewrote(b.regs, r.bus.regs, rm.modeConf, 0xF8 & !mode, mode)
    ensures r.status == Ok && mode <= 7 ==>
      ModeField(Peek(r.bus.regs, rm.modeConf)) == mode
      && Peek(r.bus.regs, rm.modeConf) & 0xF8 == Peek(b.regs, rm.modeConf) & 0xF8
  {
    BitMask(b, rm.modeConf, ModeMask, mode)
  }

  // ---------------------------------------------------------------------
  // SpO2 configuration and LED amplitude (MAX30101.c:588-626)
  // ---------------------------------------------------------------------

  function SetSpO2ADCRange(rm: RegisterMap, b: Bus, range: bv8): (r: Outcome)
    ensures RmwStatus(b, r)
    ensures r.status == Ok ==> Rewrote(b.regs, r.bus.regs, rm.spo2Conf, 0x9F & !range, range)
  {
    BitMask(b, rm.spo2Conf, Spo2AdcRangeMask, range)
  }

  function SetSpO2SampleRate(rm: RegisterMap, b: Bus, sr: bv8): (r: Outcome)
    ensures RmwStatus(b, r)
    ensures r.status == Ok ==> Rewrote(b.regs, r.bus.regs, rm.spo2Conf, 0xE3 & !sr, sr)
  {
    BitMask(b, rm.spo2Conf, Spo2SampleRateMask, sr)
  }

  /** Sets the pulse-width field, which is also the resolution code the FIFO decoder reads back. */
  function SetSpO2PulseWidth(rm: RegisterMap, b: Bus, pw: bv8): (r: Outcome)
    ensures RmwStatus(b, r)
    ensures r.status == Ok ==> Rewrote(b.regs, r.bus.regs, rm.spo2Conf, 0xFC & !pw, pw)
    ensures r.status == Ok && pw <= 3 ==> ResolutionCode(Peek(r.bus.regs, rm.spo2Conf)) == pw
  {
    BitMask(b, rm.spo2Conf, Spo2PulseWidthMask, pw)
  }

  /** Register of LED channel `ch`: `LED1_PA + ch`, truncated to 8 bits. */
  function LedRegister(rm: RegisterMap, ch: bv8): bv8 {
    rm.led1Pa + ch
  }

  /**
   ORs `pa` into the amplitude register without clearing any old bit.
   A failed read gives "device not found", a failed write "error".
   */
  function SetLEDPulseAmplitude(rm: RegisterMap, b: Bus, ch: bv8, pa: bv8): (r: Outcome)
    ensures r.status == Ok <==> Ack(b, 0) == NoError && Ack(b, 1) == NoError
    ensures Ack(b, 0) != NoError ==>
      r.status == DevNotFound && r.bus.regs == b.regs && r.bus.log == b.log + [Read(LedRegister(rm, ch))]
    ensures Ack(b, 0) == NoError && Ack(b, 1) != NoError ==> r.status == Error && r.bus.regs == b.regs
    ensures r.status == Ok ==> Rewrote(b.regs, r.bus.regs, LedRegister(rm, ch), !pa, pa)
  {
    OrRegister(b, LedRegister(rm, ch), pa)
  }

  /** Read register `a`, OR in `pa`, write it back; failures are reported as in `SetLEDPulseAmplitude`. */
  function OrRegister(b: Bus, a: bv8, pa: bv8): (r: Outcome)
    ensures r.status == Ok <==> Ack(b, 0) == NoError && Ack(b, 1) == NoError
    ensures Ack(b, 0) != NoError ==> r.status == DevNotFound && r.bus.regs == b.regs && r.bus.log == b.log + [Read(a)]
    ensures Ack(b, 0) == NoError && Ack(b, 1) != NoError ==> r.status == Error && r.bus.regs == b.regs
    ensures r.status == Ok ==> Rewrote(b.regs, r.bus.regs, a, !pa, pa)
  {
    var rd := PeripheralRead(b, a);
    if rd.result == NoError then
      var wr := WriteRegister(rd.bus, a, OrIn(rd.value, pa));
      Outcome(if wr.status == Ok then Ok else Error, wr.bus)
    else
      Outcome(DevNotFound, rd.bus)
  }

  /** The byte `SetLEDPulseAmplitude` writes back: `o | pa`. */
  function OrIn(o: bv8, pa: bv8): (v: bv8)
    ensures v & !pa == o & !pa
    ensures v & !(!pa) == pa
  {
    o | pa
  }

  // ---------------------------------------------------------------------
  // Multi-LED slots (MAX30101.c:631-664)
  // ---------------------------------------------------------------------

  function EnableSlot(rm: RegisterMap, b: Bus, slot: U8, led: bv8): (r: Outcome)
    ensures !(1 <= slot <= 4) ==> r == Outcome(Error, b)
    ensures 1 <= slot <= 4 ==> RmwStatus(b, r)
    ensures r.status == Ok && slot == 1 ==> Rewrote(b.regs, r.bus.regs, rm.multiLed1, 0xF8 & !led, led)
    ensures r.status == Ok && slot == 2 ==> Rewrote(b.regs, r.bus.regs, rm.multiLed1, 0x8F & !(led << 4), led << 4)
    ensures r.status == Ok && slot == 3 ==> Rewrote(b.regs, r.bus.regs, rm.multiLed2, 0xF8 & !led, led)
    ensures r.status == Ok && slot == 4 ==> Rewrote(b.regs, r.bus.regs, rm.multiLed2, 0x8F & !(led << 4), led << 4)
  {
    match slot
    case 1 => BitMask(b, rm.multiLed1, Slot1Mask, led)
    case 2 => BitMask(b, rm.multiLed1, Slot2Mask, led << 4)
    case 3 => BitMask(b, rm.multiLed2, Slot3Mask, led)
    case 4 => BitMask(b, rm.multiLed2, Slot4Mask, led << 4)
    case _ => Outcome(Error, b)
  }

  /** Zero both slot registers; the second is written only when the first write succeeded. */
  function DisableSlots(rm: RegisterMap, b: Bus): (r: Outcome)
    ensures r.status == Ok <==> Ack(b, 0) == NoError && Ack(b, 1) == NoError
    ensures r.status != Ok ==> r.status == DevNotFound
    ensures Ack(b, 0) != NoError ==> r.bus.regs == b.regs && r.bus.log == b.log + [Write(rm.multiLed1, 0)]
    ensures Ack(b, 0) == NoError ==>
      r.bus.log == b.log + [Write(rm.multiLed1, 0), Write(rm.multiLed2, 0)]
    ensures r.status == Ok ==>
      && Peek(r.bus.regs, rm.multiLed1) == 0 && Peek(r.bus.regs, rm.multiLed2) == 0
      && forall x: bv8 :: x != rm.multiLed1 && x != rm.multiLed2 ==> Peek(r.bus.regs, x) == Peek(b.regs, x)
  {
    var w1 := WriteRegister(b, rm.multiLed1, 0);
    if w1.status == Ok then WriteRegister(w1.bus, rm.multiLed2, 0) else w1
  }

  // ---------------------------------------------------------------------
  // Temperature and identification (MAX30101.c:685-717)
  // ---------------------------------------------------------------------

  /** A byte reinterpreted as a two's-complement `int8_t`. */
  function Int8(v: bv8): (i: int)
    ensures -128 <= i < 128
    ensures i % 0x100 == v as int
  {
    if v < 0x80 then v as int else v as int - 0x100
  }

  /** Status, signed integer part and fractional byte (`None`: the caller's variable is left unwritten). */
  datatype RawTemperature = RawTemperature(status: Status, integer: Option<int>, frac: Option<bv8>, bus: Bus)

  function ReadRawTemperature(rm: RegisterMap, b: Bus): (r: RawTemperature)
    ensures r.status == Ok <==> Ack(b, 0) == NoError && Ack(b, 1) == NoError
    ensures r.status != Ok ==> r.status == DevNotFound
    ensures Ack(b, 0) != NoError ==> r.integer == None && r.frac == None
    ensures Ack(b, 0) == NoError ==>
      && r.integer.Some?
      && -128 <= r.integer.value < 128
      && r.integer.value % 0x100 == Peek(b.regs, rm.tempInt) as int
    ensures r.status == Ok ==> r.frac == Some(Peek(b.regs, rm.tempFrac))
    ensures r.status != Ok ==> r.frac == None
    ensures r.bus.regs == b.regs
  {
    var i := ReadRegister(b, rm.tempInt);
    if i.status == Ok then
      var f := ReadRegister(i.bus, rm.tempFrac);
      RawTemperature(f.status, Some(Int8(i.value.value)), f.value, f.bus)
    else
      RawTemperature(i.status, None, None, i.bus)
  }

  function StartTemperatureConversion(rm: RegisterMap, b: Bus): (r: Outcome)
    ensures r.status == Ok <==> Ack(b, 0) == NoError
    ensures r.status != Ok ==> r.status == DevNotFound && r.bus.regs == b.regs
    ensures r.status == Ok ==> Peek(r.bus.regs, rm.tempConf) == 1 && Elsewhere(b.regs, r.bus.regs, rm.tempConf)
  {
    WriteRegister(b, rm.tempConf, 0x01)
  }

  function ReadPartID(rm: RegisterMap, b: Bus): (r: Reading)
    ensures ReadOf(b, rm.partId, r)
  {
    ReadRegister(b, rm.partId)
  }

  function ReadRevisionID(rm: RegisterMap, b: Bus): (r: Reading)
    ensures ReadOf(b, rm.revisionId, r)
  {
    ReadRegister(b, rm.revisionId)
  }

  // ---------------------------------------------------------------------
  // FIFO clearing and raw byte reads (MAX30101.c:308-354)
  // ---------------------------------------------------------------------

  /** Bytes requested for `n` samples of `a` LEDs: `n * 3 * a`, kept in a `uint16_t`. */
  function RawByteCount(n: U8, a: U8): (c: nat)
    ensures c < 0x10000
    ensures n * 3 * a < 0x10000 ==> c == n * 3 * a
  {
    (n * 3 * a) % 0x10000
  }

  /** Status, the bytes delivered (`None` on failure) and the bus afterwards. */
  datatype Bytes = Bytes(status: Status, data: Option<seq<bv8>>, bus: Bus)

  /** One burst of `n * 3 * a` bytes from the FIFO data register; `fifo` is what the device streams. */
  function ReadRawFIFOBytes(rm: RegisterMap, b: Bus, n: U8, a: U8, fifo: seq<bv8>): (r: Bytes)
    requires |fifo| >= RawByteCount(n, a)
    ensures r.status == Ok <==> Ack(b, 0) == NoError
    ensures r.status != Ok ==> r.status == DevNotFound && r.data == None
    ensures r.status == Ok ==> r.data == Some(fifo[..RawByteCount(n, a)])
    ensures r.bus.regs == b.regs && r.bus.log == b.log + [Burst(rm.fifoData, RawByteCount(n, a))]
  {
    var count := RawByteCount(n, a);
    var rr := PeripheralReadMulti(b, rm.fifoData, count);
    if rr.result == NoError then Bytes(Ok, Some(fifo[..count]), rr.bus)
    else Bytes(DevNotFound, None, rr.bus)
  }

  /** Number of active LEDs per sample in a given mode; other modes leave it undefined. */
  function ActiveLeds(modes: ModeCodes, mode: bv8): (n: U8)
    requires mode == modes.hr || mode == modes.spo2 || mode == modes.multi
    requires modes.Valid()
    ensures mode == modes.hr ==> n == 1
    ensures mode == modes.spo2 ==> n == 2
    ensures mode == modes.multi ==> n == 3
  {
    if mode == modes.hr then 1 else if mode == modes.spo2 then 2 else 3
  }

  /** The registers after both FIFO pointers were zeroed. */
  function PointersCleared(rm: RegisterMap, r: Regs): Regs {
    Poke(Poke(r, rm.fifoWp, 0), rm.fifoRp, 0)
  }

  /**
   `ClearFIFO` has a defined result: if both pointer writes succeed, the mode
   read succeeds too and finds one of the three modes (otherwise the number
   of active LEDs it goes on to use is uninitialised).
   */
  ghost predicate ClearFIFODefined(rm: RegisterMap, modes: ModeCodes, b: Bus) {
    && modes.Valid()
    && (Ack(b, 0) == NoError && Ack(b, 1) == NoError ==>
          && Ack(b, 2) == NoError
          && var m := ModeField(Peek(PointersCleared(rm, b.regs), rm.modeConf));
             m == modes.hr || m == modes.spo2 || m == modes.multi)
  }

  /**
   Zero the write pointer, then (only if that succeeded) the read pointer,
   then read the mode and request one sample's worth of bytes to reset the
   overflow counter.
   */
  function ClearFIFO(rm: RegisterMap, modes: ModeCodes, b: Bus): (r: Outcome)
    requires ClearFIFODefined(rm, modes, b)
    ensures Ack(b, 0) != NoError ==>
      r.status == DevNotFound && r.bus.regs == b.regs && r.bus.log == b.log + [Write(rm.fifoWp, 0)]
    ensures Ack(b, 0) == NoError && Ack(b, 1) != NoError ==>
      r.status == DevNotFound && r.bus.regs == Poke(b.regs, rm.fifoWp, 0)
      && r.bus.log == b.log + [Write(rm.fifoWp, 0), Write(rm.fifoRp, 0)]
    ensures Ack(b, 0) == NoError && Ack(b, 1) == NoError ==>
      && (r.status == Ok <==> Ack(b, 3) == NoError)
      && (r.status != Ok ==> r.status == DevNotFound)
      && r.bus.regs == PointersCleared(rm, b.regs)
      && r.bus.log == b.log + [Write(rm.fifoWp, 0), Write(rm.fifoRp, 0), Read(rm.modeConf),
                               Burst(rm.fifoData, 3 * ActiveLeds(modes, ModeField(Peek(r.bus.regs, rm.modeConf))))]
  {
    var p := ClearPointers(rm, b);
    if p.status != Ok then p
    else
      var r := ResetOverflow(rm, modes, p.bus);
      assert b.log + [Write(rm.fifoWp, 0), Write(rm.fifoRp, 0)] + [Read(rm.modeConf), Burst(rm.fifoData, 3 * ActiveLeds(modes, ModeField(Peek(p.bus.regs, rm.modeConf))))]
          == b.log + [Write(rm.fifoWp, 0), Write(rm.fifoRp, 0), Read(rm.modeConf), Burst(rm.fifoData, 3 * ActiveLeds(modes, ModeField(Peek(p.bus.regs, rm.modeConf))))];
      r
  }

  /** The head of `ClearFIFO`: zero the write pointer, then, only if that succeeded, the read pointer. */
  function ClearPointers(rm: RegisterMap, b: Bus): (r: Outcome)
    ensures r.status == Ok <==> Ack(b, 0) == NoError && Ack(b, 1) == NoError
    ensures r.status != Ok ==> r.status == DevNotFound
    ensures Ack(b, 0) != NoError ==> r.bus.regs == b.regs && r.bus.log == b.log + [Write(rm.fifoWp, 0)]
    ensures Ack(b, 0) == NoError ==>
      && r.bus.log == b.log + [Write(rm.fifoWp, 0), Write(rm.fifoRp, 0)]
      && r.bus.regs == (if Ack(b, 1) == NoError then PointersCleared(rm, b.regs) else Poke(b.regs, rm.fifoWp, 0))
      && Ack(r.bus, 0) == Ack(b, 2) && Ack(r.bus, 1) == Ack(b, 3)
  {
    var w1 := WriteRegister(b, rm.fifoWp, 0);
    if w1.status != Ok then w1
    else
      var w2 := WriteRegister(w1.bus, rm.fifoRp, 0);
      assert w2.bus.log == b.log + [Write(rm.fifoWp, 0), Write(rm.fifoRp, 0)];
      w2
  }

  /** The tail of `ClearFIFO`: read the mode, then request one sample of the matching number of LEDs. */
  function ResetOverflow(rm: RegisterMap, modes: ModeCodes, b: Bus): (r: Outcome)
    requires modes.Valid() && Ack(b, 0) == NoError
    requires var m := ModeField(Peek(b.regs, rm.modeConf)); m == modes.hr || m == modes.spo2 || m == modes.multi
    ensures r.status == Ok <==> Ack(b, 1) == NoError
    ensures r.status != Ok ==> r.status == DevNotFound
    ensures r.bus.regs == b.regs
    ensures r.bus.log == b.log + [Read(rm.modeConf), Burst(rm.fifoData, 3 * ActiveLeds(modes, ModeField(Peek(b.regs, rm.modeConf))))]
  {
    var rd := ReadRegister(b, rm.modeConf);
    var leds := ActiveLeds(modes, ModeField(rd.value.value));
    // The bytes are discarded, so which bytes the device streams does not matter.
    var burst := ReadRawFIFOBytes(rm, rd.bus, 1, leds, seq(3 * leds, _ => 0));
    Outcome(burst.status, burst.bus)
  }
}
