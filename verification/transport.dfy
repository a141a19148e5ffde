/**
 The I2C transport the MAX30101 driver is built on, reduced to what the
 driver can observe: a register file behind an 8-bit address, the result
 code every transaction reports, and the order in which transactions are
 issued.  The physical bus, its timing and the PSoC peripheral are not part
 of this model; the results of future transactions are a script supplied by
 the caller, so that every failure path of the driver can be reached.
 */
module Transport {

  datatype Option<T> = None | Some(value: T)

  /** Result codes of the I2C interface: 0 no error, 1 device not found, 2 any other failure. */
  datatype I2CResult = NoError | NotFound | BusError

  /** The numeric code the I2C interface returns. */
  function I2CCode(r: I2CResult): (c: bv8)
    ensures c <= 2
    ensures (c == 0) == (r == NoError)
  {
    match r
    case NoError => 0
    case NotFound => 1
    case BusError => 2
  }

  /** An unsigned 8-bit C integer, as an unbounded number. */
  type U8 = x: int | 0 <= x < 0x100

  /** The device's register space: one byte for each 8-bit address. */
  type Regs = s: seq<bv8> | |s| == 0x100 witness seq(0x100, _ => 0 as bv8)

  function Peek(r: Regs, a: bv8): bv8 {
    r[a as int]
  }

  function Poke(r: Regs, a: bv8, v: bv8): (r': Regs)
    ensures Peek(r', a) == v
    ensures forall x: bv8 :: x != a ==> Peek(r', x) == Peek(r, x)
  {
    r[a as int := v]
  }

  /** `after` agrees with `before` at every address except possibly `a`. */
  ghost predicate Elsewhere(before: Regs, after: Regs, a: bv8) {
    forall x: bv8 :: x != a ==> Peek(after, x) == Peek(before, x)
  }

  /** One bus transaction, as the driver issues it. */
  datatype Txn =
    | Probe                          // zero-byte presence check
    | Read(addr: bv8)                // one-byte register read
    | Write(addr: bv8, value: bv8)   // one-byte register write
    | Burst(addr: bv8, count: nat)   // `count` bytes read from one register address

  /**
   The bus as the driver sees it: the device registers, the scripted results
   of the coming transactions (once the script is used up every transaction
   succeeds), and the transactions issued so far.
   */
  datatype Bus = Bus(regs: Regs, script: seq<I2CResult>, log: seq<Txn>)

  /** The result the `k`-th coming transaction will report. */
  function Ack(b: Bus, k: nat): I2CResult {
    if k < |b.script| then b.script[k] else NoError
  }

  /** Issue `t`: it is logged and uses up one scripted result; registers are untouched. */
  function Issue(b: Bus, t: Txn): (b': Bus)
    ensures b'.regs == b.regs && b'.log == b.log + [t]
    ensures forall k: nat :: Ack(b', k) == Ack(b, k + 1)
  {
    Bus(b.regs, if |b.script| == 0 then [] else b.script[1..], b.log + [t])
  }

  /** The result code, the byte delivered and the bus afterwards. */
  datatype ByteReply = ByteReply(result: I2CResult, value: bv8, bus: Bus)

  /** The result code and the bus afterwards. */
  datatype Reply = Reply(result: I2CResult, bus: Bus)

  /** Read one register; the byte is meaningful only when the result is `NoError`. */
  function PeripheralRead(b: Bus, a: bv8): ByteReply {
    ByteReply(Ack(b, 0), Peek(b.regs, a), Issue(b, Read(a)))
  }

  /** Write one register; the device takes the byte only when the transaction succeeds. */
  function PeripheralWrite(b: Bus, a: bv8, v: bv8): Reply {
    var b' := Issue(b, Write(a, v));
    Reply(Ack(b, 0), if Ack(b, 0) == NoError then b'.(regs := Poke(b.regs, a, v)) else b')
  }

  /** Start a multi-byte read at `a`; the bytes themselves are supplied by the caller's stream. */
  function PeripheralReadMulti(b: Bus, a: bv8, count: nat): Reply {
    Reply(Ack(b, 0), Issue(b, Burst(a, count)))
  }

  /** Zero-byte presence probe. */
  function PeripheralProbe(b: Bus): Reply {
    Reply(Ack(b, 0), Issue(b, Probe))
  }

  /** The bus after `k` transactions equal to `t` have been issued. */
  function IssueMany(b: Bus, t: Txn, k: nat): (b': Bus)
    ensures b'.regs == b.regs && b'.log == b.log + Repeat(t, k)
    ensures forall j: nat :: Ack(b', j) == Ack(b, j + k)
  {
    Bus(b.regs, if k <= |b.script| then b.script[k..] else [], b.log + Repeat(t, k))
  }

  /** `k` copies of one transaction. */
  function Repeat(t: Txn, k: nat): (ts: seq<Txn>)
    ensures |ts| == k
    decreases k
  {
    if k == 0 then [] else Repeat(t, k - 1) + [t]
  }

  lemma IssueManyStep(b: Bus, t: Txn, k: nat)
    ensures Issue(IssueMany(b, t, k), t) == IssueMany(b, t, k + 1)
  {
    assert b.log + Repeat(t, k) + [t] == b.log + Repeat(t, k + 1);
    if k < |b.script| {
      assert b.script[k..][1..] == b.script[k + 1..];
    }
  }
}
