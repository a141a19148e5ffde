/**
 Laws of the register read-modify-write layer of
 MAX30101_RateTesting.cydsn/MAX30101.c: what a later read sees after a write,
 what `BitMask` and the OR-only update leave in the register file, and how
 two updates of one register compose.
 */
module RmwLaws {
  import opened Transport
  import opened Driver

  // ---------------------------------------------------------------------
  // Register access
  // ---------------------------------------------------------------------

  /** A successful write is what the next successful read of the same register returns. */
  lemma WriteThenRead(b: Bus, a: bv8, v: bv8)
    requires Ack(b, 0) == NoError && Ack(b, 1) == NoError
    ensures var w := WriteRegister(b, a, v);
      w.status == Ok && ReadRegister(w.bus, a).status == Ok && ReadRegister(w.bus, a).value == Some(v)
  {
  }

  /**
   On a successful read and write, `BitMask` leaves exactly one register
   changed, to `(old & mask) | thing`; on a failed read nothing is written.
   */
  lemma BitMaskWrites(b: Bus, a: bv8, mask: bv8, thing: bv8)
    ensures var r := BitMask(b, a, mask, thing);
      r.status == Ok ==> r.bus.regs == Poke(b.regs, a, (Peek(b.regs, a) & mask) | thing)
    ensures Ack(b, 0) != NoError ==>
      var r := BitMask(b, a, mask, thing);
      r.status == DevNotFound && r.bus.regs == b.regs && r.bus.log == b.log + [Read(a)]
  {
  }

  /** A read-modify-write whose two transactions succeed: the register file afterwards, and the script it leaves. */
  lemma BitMaskOk(b: Bus, a: bv8, mask: bv8, thing: bv8)
    requires Ack(b, 0) == NoError && Ack(b, 1) == NoError
    ensures var r := BitMask(b, a, mask, thing);
      && r.status == Ok
      && r.bus.regs == Poke(b.regs, a, (Peek(b.regs, a) & mask) | thing)
      && Ack(r.bus, 0) == Ack(b, 2) && Ack(r.bus, 1) == Ack(b, 3)
  {
    var rd := PeripheralRead(b, a);
    assert forall k: nat :: Ack(rd.bus, k) == Ack(b, k + 1);
  }

  /** A read-modify-write whose two transactions succeed uses up exactly two scripted results. */
  lemma BitMaskAcks(b: Bus, a: bv8, mask: bv8, thing: bv8)
    requires Ack(b, 0) == NoError && Ack(b, 1) == NoError
    ensures forall k: nat :: Ack(BitMask(b, a, mask, thing).bus, k) == Ack(b, k + 2)
  {
    var rd := PeripheralRead(b, a);
    assert forall k: nat :: Ack(rd.bus, k) == Ack(b, k + 1);
  }

  /**
   Two read-modify-writes of one field in a row: when the first value lies in
   the field (`t1 & mask == 0`), the second overrides it and the register is
   as if only the second had run.
   */
  lemma BitMaskLastWins(b: Bus, a: bv8, mask: bv8, t1: bv8, t2: bv8)
    requires Ack(b, 0) == NoError && Ack(b, 1) == NoError && Ack(b, 2) == NoError && Ack(b, 3) == NoError
    requires t1 & mask == 0
    ensures var r1 := BitMask(b, a, mask, t1);
      var r2 := BitMask(r1.bus, a, mask, t2);
      r1.status == Ok && r2.status == Ok && r2.bus.regs == Poke(b.regs, a, (Peek(b.regs, a) & mask) | t2)
  {
    BitMaskTwice(b, a, mask, t1, t2);
    var r1 := BitMask(b, a, mask, t1);
    LastWins(b.regs, r1.bus.regs, BitMask(r1.bus, a, mask, t2).bus.regs, a, mask, t1, t2);
  }

  /** Two read-modify-writes in a row whose four transactions succeed: each leaves its merge in the register file. */
  lemma BitMaskTwice(b: Bus, a: bv8, mask: bv8, t1: bv8, t2: bv8)
    requires Ack(b, 0) == NoError && Ack(b, 1) == NoError && Ack(b, 2) == NoError && Ack(b, 3) == NoError
    ensures var r1 := BitMask(b, a, mask, t1);
      var r2 := BitMask(r1.bus, a, mask, t2);
      && r1.status == Ok && r2.status == Ok
      && r1.bus.regs == Poke(b.regs, a, (Peek(b.regs, a) & mask) | t1)
      && r2.bus.regs == Poke(r1.bus.regs, a, (Peek(r1.bus.regs, a) & mask) | t2)
  {
    BitMaskOk(b, a, mask, t1);
    BitMaskOk(BitMask(b, a, mask, t1).bus, a, mask, t2);
  }

  /** The register files of two merges in a row into one register. */
  lemma LastWins(r0: Regs, r1: Regs, r2: Regs, a: bv8, mask: bv8, t1: bv8, t2: bv8)
    requires t1 & mask == 0
    requires r1 == Poke(r0, a, (Peek(r0, a) & mask) | t1)
    requires r2 == Poke(r1, a, (Peek(r1, a) & mask) | t2)
    ensures r2 == Poke(r0, a, (Peek(r0, a) & mask) | t2)
  {
    var o := Peek(r0, a);
    var v1 := (o & mask) | t1;
    assert Peek(r1, a) == v1;
    MergeTwice(o, mask, t1, t2);
    assert (v1 & mask) | t2 == (o & mask) | t2;
    assert r2 == Poke(r1, a, (o & mask) | t2);
    PokeTwice(r0, a, v1, (o & mask) | t2);
  }

  /** Re-merging into a merged byte: the first value is masked away when it lies in the field. */
  lemma MergeTwice(o: bv8, mask: bv8, t1: bv8, t2: bv8)
    requires t1 & mask == 0
    ensures (((o & mask) | t1) & mask) | t2 == (o & mask) | t2
  {
  }

  /** The second of two writes to one register is the one that stays. */
  lemma PokeTwice(r: Regs, a: bv8, x: bv8, y: bv8)
    ensures Poke(Poke(r, a, x), a, y) == Poke(r, a, y)
  {
  }

  /** `OrRegister` whose two transactions succeed: the register file afterwards, and the script it leaves. */
  lemma OrRegisterOk(b: Bus, a: bv8, pa: bv8)
    requires Ack(b, 0) == NoError && Ack(b, 1) == NoError
    ensures var r := OrRegister(b, a, pa);
      && r.status == Ok
      && r.bus.regs == Poke(b.regs, a, Peek(b.regs, a) | pa)
      && Ack(r.bus, 0) == Ack(b, 2) && Ack(r.bus, 1) == Ack(b, 3)
  {
    var rd := PeripheralRead(b, a);
    assert forall k: nat :: Ack(rd.bus, k) == Ack(b, k + 1);
  }

  /** Two OR-only updates of one register in a row whose four transactions succeed. */
  lemma OrRegisterTwice(a: bv8, b: Bus, pa1: bv8, pa2: bv8)
    requires Ack(b, 0) == NoError && Ack(b, 1) == NoError && Ack(b, 2) == NoError && Ack(b, 3) == NoError
    ensures var r1 := OrRegister(b, a, pa1);
      var r2 := OrRegister(r1.bus, a, pa2);
      && r1.status == Ok && r2.status == Ok
      && Peek(r2.bus.regs, a) == Peek(b.regs, a) | pa1 | pa2
  {
    OrRegisterOk(b, a, pa1);
    OrRegisterOk(OrRegister(b, a, pa1).bus, a, pa2);
  }
}
