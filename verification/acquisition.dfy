/**
 The sample-rate test loop of MAX30101_RateTesting.cydsn/main.c, lines
 127-165: when the interrupt has fired and the FIFO-almost-full flag is set,
 the number of unread samples is computed from the FIFO write and read
 pointers, that many samples are read as raw bytes, and a 16-bit running
 total is advanced; once the total passes 200 it is reported and reset.
 The interrupt, the UART, the timer and the rate printed are not modelled.
 */
module Acquisition {
  import opened Transport
  import opened Modular
  import opened Driver

  /** The FIFO holds 32 samples; its read and write pointers count modulo 32. */
  const FifoDepth: nat := 32

  /** An unsigned 16-bit C integer, as an unbounded number. */
  type U16 = x: int | 0 <= x < 0x10000

  /**
   `num_samples = wp - rp` in `int`, plus 32 when that is not positive: equal
   pointers count as a full FIFO, never as an empty one.
   */
  function PendingCount(wp: U8, rp: U8): (n: int)
    ensures n > 0 <==> rp < wp + 32
    ensures n <= 0 ==> n == wp - rp + 32
    ensures n > 0 ==> n <= 255
    ensures (n - (wp - rp)) % FifoDepth == 0
  {
    var d := wp - rp;
    if d <= 0 then d + 32 else d
  }

  /** A write pointer ahead of the read pointer: the difference. */
  lemma PendingAhead(wp: U8, rp: U8)
    requires rp < wp
    ensures PendingCount(wp, rp) == wp - rp
  {
  }

  /** A write pointer behind the read pointer: the difference wrapped by the FIFO depth. */
  lemma PendingBehind(wp: U8, rp: U8)
    requires wp < rp
    ensures PendingCount(wp, rp) == wp - rp + 32
  {
  }

  /** Equal pointers count 32 unread samples, not 0. */
  lemma PendingFull(p: U8)
    ensures PendingCount(p, p) == 32
  {
  }

  /** For pointers inside the FIFO the count is between 1 and 32. */
  lemma PendingInRange(wp: U8, rp: U8)
    requires wp < FifoDepth && rp < FifoDepth
    ensures 1 <= PendingCount(wp, rp) <= FifoDepth
  {
  }

  /** The FIFO pointer `p` after `m` more samples. */
  function Advance(p: int, m: int): int {
    (p + m) % FifoDepth
  }

  /**
   For pointers inside the FIFO, the count is the number of slots the read
   pointer advances, modulo 32, to meet the write pointer: the unique such
   number in 1..32, so 32 when they already coincide.
   */
  lemma {:induction false} PendingReachesWritePointer(wp: U8, rp: U8)
    requires wp < FifoDepth && rp < FifoDepth
    ensures Advance(rp, PendingCount(wp, rp)) == wp
    ensures forall m :: 1 <= m <= FifoDepth && Advance(rp, m) == wp ==> m == PendingCount(wp, rp)
  {
    var n := PendingCount(wp, rp);
    if rp < wp {
      ModUnique(rp + n, 0, wp, FifoDepth);
    } else {
      ModUnique(rp + n, 1, wp, FifoDepth);
    }
    forall m | 1 <= m <= FifoDepth && Advance(rp, m) == wp
      ensures m == n
    {
      if rp + m < FifoDepth {
        ModUnique(rp + m, 0, rp + m, FifoDepth);
      } else {
        ModUnique(rp + m, 1, rp + m - 32, FifoDepth);
      }
    }
  }

  /** For pointers inside the FIFO the count is `(wp - rp) mod 32`, except that 0 reads as 32. */
  lemma PendingIsModularDistance(wp: U8, rp: U8)
    requires wp < FifoDepth && rp < FifoDepth
    ensures PendingCount(wp, rp) == if wp == rp then FifoDepth else (wp - rp) % FifoDepth
  {
    if rp < wp {
      ModUnique(wp - rp, 0, wp - rp, FifoDepth);
    } else if wp < rp {
      ModUnique(wp - rp, -1, wp - rp + 32, FifoDepth);
    }
  }

  /** Length of the stack buffer `raw_bytes[num_samples * active_leds * 3]`. */
  function RawBufferLength(n: int, a: U8): int {
    n * a * 3
  }

  /**
   For pointers inside the FIFO the pending count fits the `uint8_t`
   parameter of `ReadRawFIFOBytes` unchanged, and the buffer has exactly the
   length of the burst that call requests, for any number of active LEDs.
   */
  lemma BufferMatchesRequest(wp: U8, rp: U8, a: U8)
    requires wp < FifoDepth && rp < FifoDepth
    ensures 0 < PendingCount(wp, rp) < 0x100
    ensures RawBufferLength(PendingCount(wp, rp), a) == RawByteCount(PendingCount(wp, rp), a)
  {
    var n := PendingCount(wp, rp);
    MulMono(3 * a, n, 32);
    assert n * a * 3 == 3 * a * n;
    assert 3 * a * 32 <= 3 * 255 * 32 by {
      MulMono(3 * 32, a, 255);
    }
  }

  /** One pass of the polling loop, as far as the running total is concerned. */
  datatype Poll = Poll(
    ready: bool,  // the interrupt set `flag_temp`
    flag: bv8,    // the byte the FIFO-almost-full query stored (indeterminate when its read failed)
    wp: U8,       // the write pointer read
    rp: U8)       // the read pointer read

  /** Samples a pass adds to the total: the pending count, when the interrupt fired and the flag is nonzero. */
  function Gained(p: Poll): (g: int)
    ensures !p.ready || p.flag == 0 ==> g == 0
    ensures p.ready && p.flag != 0 && p.wp < FifoDepth && p.rp < FifoDepth ==> 1 <= g <= FifoDepth
  {
    if p.ready && p.flag > 0 then PendingCount(p.wp, p.rp) else 0
  }

  /**
   One pass: `total_samples += num_samples` in 16 bits, then a total above
   200 is reported and reset to 0.
   */
  function Step(total: U16, p: Poll): (t: U16)
    ensures t <= 200
    ensures total <= 200 && 0 <= total + Gained(p) <= 200 ==> t == total + Gained(p)
    ensures 0 <= total + Gained(p) < 0x10000 && total + Gained(p) > 200 ==> t == 0
  {
    var sum: U16 := (total + Gained(p)) % 0x10000;
    if sum > 200 then 0 else sum
  }

  /** The total after a run of passes. */
  function Run(total: U16, ps: seq<Poll>): (t: U16)
    decreases |ps|
  {
    if |ps| == 0 then total else Step(Run(total, ps[..|ps| - 1]), ps[|ps| - 1])
  }

  /** The samples a run of passes adds up to. */
  function Sum(ps: seq<Poll>): int
    decreases |ps|
  {
    if |ps| == 0 then 0 else Sum(ps[..|ps| - 1]) + Gained(ps[|ps| - 1])
  }

  /** After any pass the total is at most 200, so a fresh run never sees a larger one. */
  lemma {:induction false} RunBounded(total: U16, ps: seq<Poll>)
    requires |ps| > 0 || total <= 200
    ensures Run(total, ps) <= 200
  {
  }

  /**
   As long as no reset happens, the total is the start value plus the pending
   counts of every pass whose flag was set: no sample is counted twice or lost.
   */
  lemma {:induction false} RunSums(total: U16, ps: seq<Poll>)
    requires total <= 200
    requires forall k :: 0 <= k <= |ps| ==> 0 <= total + Sum(ps[..k]) <= 200
    ensures Run(total, ps) == total + Sum(ps)
    decreases |ps|
  {
    if |ps| > 0 {
      var front := ps[..|ps| - 1];
      assert forall k :: 0 <= k <= |front| ==> front[..k] == ps[..k];
      RunSums(total, front);
      assert ps[..|ps|] == ps;
    }
  }

  /** A pass whose total would pass 200 resets it, even when the 16-bit sum is exact. */
  lemma ResetAfter200(total: U16, p: Poll)
    requires total <= 200 && p.ready && p.flag != 0 && p.wp < FifoDepth && p.rp < FifoDepth
    requires total + PendingCount(p.wp, p.rp) > 200
    ensures Step(total, p) == 0
  {
  }
}
