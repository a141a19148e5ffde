/**
 The MAX30101 register map as the driver uses it: the register addresses
 (taken as parameters, since their header is not part of this model), the
 operating-mode codes, and the masks and enable values that fix each bit
 field (MAX30101_RateTesting.cydsn/MAX30101.c, lines 18-170).
 */
module Registers {

  /** Addresses of the registers the driver names. */
  datatype RegisterMap = RegisterMap(
    intSt1: bv8, intSt2: bv8, intEn1: bv8, intEn2: bv8,
    fifoWp: bv8, fifoOvfCnt: bv8, fifoRp: bv8, fifoData: bv8, fifoConf: bv8,
    modeConf: bv8, spo2Conf: bv8, led1Pa: bv8, multiLed1: bv8, multiLed2: bv8,
    tempInt: bv8, tempFrac: bv8, tempConf: bv8, revisionId: bv8, partId: bv8)

  /** Codes of the three operating modes, as written to the low bits of the mode register. */
  datatype ModeCodes = ModeCodes(hr: bv8, spo2: bv8, multi: bv8) {
    /** The codes label distinct cases of one C `switch`, so they differ. */
    predicate Valid() {
      hr != spo2 && hr != multi && spo2 != multi
    }
  }

  // Interrupt enable/status bits (bit 7 FIFO almost full, 6 PPG ready,
  // 5 ALC overflow, 0 power ready in the first register; bit 1 temperature
  // ready in the second).  A mask keeps every bit but its field.
  const IntPwrRdyMask: bv8 := 0xFE
  const IntFifoAFullMask: bv8 := 0x7F
  const IntFifoAFullEnable: bv8 := 0x80
  const IntFifoAFullDisable: bv8 := 0x00
  const IntPpgRdyMask: bv8 := 0xBF
  const IntPpgRdyEnable: bv8 := 0x40
  const IntPpgRdyDisable: bv8 := 0x00
  const IntAlcOvfMask: bv8 := 0xDF
  const IntAlcOvfEnable: bv8 := 0x20
  const IntAlcOvfDisable: bv8 := 0x00
  const IntTmpRdyMask: bv8 := 0xFD
  const IntTmpRdyEnable: bv8 := 0x02
  const IntTmpRdyDisable: bv8 := 0x00

  // FIFO configuration: sample average in bits 7:5, rollover in bit 4,
  // almost-full count in bits 3:0.
  const SmpAvgMask: bv8 := 0x1F
  const FifoRolloverMask: bv8 := 0xEF
  const FifoRolloverEnable: bv8 := 0x10
  const FifoRolloverDisable: bv8 := 0x00
  const FifoAFullMask: bv8 := 0xF0

  // Mode configuration: shutdown in bit 7, reset in bit 6, mode in bits 2:0.
  const ShutdownMask: bv8 := 0x7F
  const ShutdownEnable: bv8 := 0x80
  const ShutdownDisable: bv8 := 0x00
  const ResetMask: bv8 := 0xBF
  const ResetEnable: bv8 := 0x40
  const ModeMask: bv8 := 0xF8

  // SpO2 configuration: ADC range in bits 6:5, sample rate in bits 4:2,
  // pulse width (and so ADC resolution) in bits 1:0.
  const Spo2AdcRangeMask: bv8 := 0x9F
  const Spo2SampleRateMask: bv8 := 0xE3
  const Spo2PulseWidthMask: bv8 := 0xFC

  // Multi-LED slot registers: odd slots in bits 2:0, even slots in bits 6:4.
  const Slot1Mask: bv8 := 0xF8
  const Slot2Mask: bv8 := 0x8F
  const Slot3Mask: bv8 := 0xF8
  const Slot4Mask: bv8 := 0x8F

  /** Resolution code: the pulse-width field of the SpO2 configuration byte. */
  function ResolutionCode(conf: bv8): (code: bv8)
    ensures code <= 3
    ensures code == conf & 0x03
  {
    conf & !Spo2PulseWidthMask
  }

  /** The right shift applied to a FIFO sample for a resolution code (`4 - resolution`). */
  function Shift(code: bv8): (s: nat)
    requires code <= 3
    ensures 1 <= s <= 4
  {
    4 - code as int
  }

  /** The mode field of a mode-configuration byte. */
  function ModeField(v: bv8): bv8 {
    v & 0x07
  }

  /** The LED assigned to multi-LED slot `slot` (1 to 4), read from the two slot registers. */
  function SlotLed(ml1: bv8, ml2: bv8, slot: int): bv8
    requires 1 <= slot <= 4
  {
    if slot == 1 then ml1 & 0x07
    else if slot == 2 then (ml1 >> 4) & 0x07
    else if slot == 3 then ml2 & 0x07
    else (ml2 >> 4) & 0x07
  }
}
