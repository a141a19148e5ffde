/**
 Corrected versions of three operations of MAX30101_RateTesting.cydsn/MAX30101.c
 whose code does something other than what their names, their header
 (Library.cydsn/MAX30101.h) and their partner operations make plain:

 - the FIFO-almost-full enable and disable use the FIFO-configuration mask
   0xF0 where the interrupt mask 0x7F is defined for them;
 - the temperature-ready disable writes the first interrupt-enable register,
   while the enable writes the second;
 - the LED pulse amplitude is ORed into the register instead of set.

 Each corrected operation keeps the transactions and status codes of the
 original, and the property the original misses is proved about it.
 */
module Intended {
  import opened Transport
  import opened Registers
  import opened Driver
  import opened RmwLaws

  // ---------------------------------------------------------------------
  // FIFO almost full interrupt (MAX30101.c:248-251, 267-270)
  // ---------------------------------------------------------------------

  /** Sets bit 7 of the first enable register and keeps bits 0-6. */
  function EnableFIFOAFullIntFixed(rm: RegisterMap, b: Bus): (r: Outcome)
    ensures RmwStatus(b, r)
    ensures r.status == Ok ==> Rewrote(b.regs, r.bus.regs, rm.intEn1, 0x7F, 0x80)
  {
    BitMask(b, rm.intEn1, IntFifoAFullMask, IntFifoAFullEnable)
  }

  /** Clears bit 7 of the first enable register and keeps bits 0-6. */
  function DisableFIFOAFullIntFixed(rm: RegisterMap, b: Bus): (r: Outcome)
    ensures RmwStatus(b, r)
    ensures r.status == Ok ==> Rewrote(b.regs, r.bus.regs, rm.intEn1, 0x7F, 0x00)
  {
    BitMask(b, rm.intEn1, IntFifoAFullMask, IntFifoAFullDisable)
  }

  /** Enabling then disabling the corrected FIFO-almost-full interrupt clears bit 7 and restores every other bit. */
  lemma FIFOAFullToggleFixed(rm: RegisterMap, b: Bus)
    requires Ack(b, 0) == NoError && Ack(b, 1) == NoError && Ack(b, 2) == NoError && Ack(b, 3) == NoError
    ensures var r := DisableFIFOAFullIntFixed(rm, EnableFIFOAFullIntFixed(rm, b).bus);
      && r.status == Ok
      && r.bus.regs == Poke(b.regs, rm.intEn1, Peek(b.regs, rm.intEn1) & 0x7F)
      && Peek(r.bus.regs, rm.intEn1) & 0x80 == 0
  {
    BitMaskLastWins(b, rm.intEn1, IntFifoAFullMask, IntFifoAFullEnable, IntFifoAFullDisable);
  }

  // ---------------------------------------------------------------------
  // Temperature ready interrupt (MAX30101.c:261-264, 282-285)
  // ---------------------------------------------------------------------

  /** Clears bit 1 of the second enable register, the one `EnableTempReadyInt` sets. */
  function DisableTempReadyIntFixed(rm: RegisterMap, b: Bus): (r: Outcome)
    ensures RmwStatus(b, r)
    ensures r.status == Ok ==> Rewrote(b.regs, r.bus.regs, rm.intEn2, 0xFD, 0x00)
  {
    BitMask(b, rm.intEn2, IntTmpRdyMask, IntTmpRdyDisable)
  }

  /** Enabling then disabling the temperature-ready interrupt, corrected, clears bit 1 of the second register and restores every other bit. */
  lemma TempReadyToggleFixed(rm: RegisterMap, b: Bus)
    requires Ack(b, 0) == NoError && Ack(b, 1) == NoError && Ack(b, 2) == NoError && Ack(b, 3) == NoError
    ensures var r := DisableTempReadyIntFixed(rm, EnableTempReadyInt(rm, b).bus);
      && r.status == Ok
      && r.bus.regs == Poke(b.regs, rm.intEn2, Peek(b.regs, rm.intEn2) & 0xFD)
      && Peek(r.bus.regs, rm.intEn2) & 0x02 == 0
  {
    BitMaskLastWins(b, rm.intEn2, IntTmpRdyMask, IntTmpRdyEnable, IntTmpRdyDisable);
  }

  // ---------------------------------------------------------------------
  // LED pulse amplitude (MAX30101.c:607-626)
  // ---------------------------------------------------------------------

  /** Reads the amplitude register of `ch` and writes `pa` in its place, with the original's status codes. */
  function SetLEDPulseAmplitudeFixed(rm: RegisterMap, b: Bus, ch: bv8, pa: bv8): (r: Outcome)
    ensures r.status == Ok <==> Ack(b, 0) == NoError && Ack(b, 1) == NoError
    ensures Ack(b, 0) != NoError ==>
      r.status == DevNotFound && r.bus.regs == b.regs && r.bus.log == b.log + [Read(LedRegister(rm, ch))]
    ensures Ack(b, 0) == NoError && Ack(b, 1) != NoError ==> r.status == Error && r.bus.regs == b.regs
    ensures r.status == Ok ==> Rewrote(b.regs, r.bus.regs, LedRegister(rm, ch), 0x00, pa)
  {
    var a := LedRegister(rm, ch);
    var rd := PeripheralRead(b, a);
    if rd.result == NoError then
      var wr := WriteRegister(rd.bus, a, pa);
      Outcome(if wr.status == Ok then Ok else Error, wr.bus)
    else
      Outcome(DevNotFound, rd.bus)
  }

  /** The corrected amplitude setting whose two transactions succeed: the register file afterwards, and the script it leaves. */
  lemma AmplitudeFixedOk(rm: RegisterMap, b: Bus, ch: bv8, pa: bv8)
    requires Ack(b, 0) == NoError && Ack(b, 1) == NoError
    ensures var r := SetLEDPulseAmplitudeFixed(rm, b, ch, pa);
      && r.status == Ok
      && r.bus.regs == Poke(b.regs, LedRegister(rm, ch), pa)
      && Ack(r.bus, 0) == Ack(b, 2) && Ack(r.bus, 1) == Ack(b, 3)
  {
    var rd := PeripheralRead(b, LedRegister(rm, ch));
    assert forall k: nat :: Ack(rd.bus, k) == Ack(b, k + 1);
  }

  /**
   Two corrected amplitude settings in a row: the second is the one that
   stays, so setting 0xF0 then 0x0F leaves 0x0F.
   */
  lemma AmplitudeLastWinsFixed(rm: RegisterMap, b: Bus, ch: bv8, pa1: bv8, pa2: bv8)
    requires Ack(b, 0) == NoError && Ack(b, 1) == NoError && Ack(b, 2) == NoError && Ack(b, 3) == NoError
    ensures var r := SetLEDPulseAmplitudeFixed(rm, SetLEDPulseAmplitudeFixed(rm, b, ch, pa1).bus, ch, pa2);
      && r.status == Ok
      && r.bus.regs == Poke(b.regs, LedRegister(rm, ch), pa2)
      && Peek(r.bus.regs, LedRegister(rm, ch)) == pa2
  {
    AmplitudeFixedTwice(rm, b, ch, pa1, pa2);
    PokeTwice(b.regs, LedRegister(rm, ch), pa1, pa2);
  }

  /** Two corrected amplitude settings in a row whose four transactions succeed: each leaves its value in the register file. */
  lemma AmplitudeFixedTwice(rm: RegisterMap, b: Bus, ch: bv8, pa1: bv8, pa2: bv8)
    requires Ack(b, 0) == NoError && Ack(b, 1) == NoError && Ack(b, 2) == NoError && Ack(b, 3) == NoError
    ensures var r1 := SetLEDPulseAmplitudeFixed(rm, b, ch, pa1);
      var r2 := SetLEDPulseAmplitudeFixed(rm, r1.bus, ch, pa2);
      && r2.status == Ok
      && r1.bus.regs == Poke(b.regs, LedRegister(rm, ch), pa1)
      && r2.bus.regs == Poke(r1.bus.regs, LedRegister(rm, ch), pa2)
  {
    AmplitudeFixedOk(rm, b, ch, pa1);
    AmplitudeFixedOk(rm, SetLEDPulseAmplitudeFixed(rm, b, ch, pa1).bus, ch, pa2);
  }
}
