/**
 The two FIFO sample readers (MAX30101_RateTesting.cydsn/MAX30101.c, lines
 357-527).  Both count down a 16-bit byte budget `num_samples * 3 *
 active_leds` by `active_leds * 3` per sample, and per sample read a red
 triplet, an IR triplet when `active_leds > 1` and a green triplet when
 `active_leds > 2`.  The bytes the FIFO delivers are an input stream.

 `ReadFIFO` decodes each triplet (mask to 18 bits, shift by the resolution)
 into the ring buffer of `SampleStore`; `ReadRawFIFO` stores the masked,
 unshifted values one after another into a flat array whose index is an
 8-bit counter.
 */
module FifoRead {
  import opened Transport
  import opened Registers
  import opened Decode
  import opened SampleStore
  import opened Modular
  import opened Driver

  /** Channels read per sample: red, then IR when `active_leds > 1`, then green when `active_leds > 2`. */
  function Channels(a: U8): (c: nat)
    ensures 1 <= c <= 3
    ensures c == if a <= 1 then 1 else if a == 2 then 2 else 3
  {
    if a > 2 then 3 else if a > 1 then 2 else 1
  }

  /** How many samples the count-down loop reads: `num_samples`, unless the budget starts at 0. */
  function Iterations(n: U8, a: U8): (k: nat)
    ensures k <= n
    ensures a > 0 ==> k == n
    ensures k == 0 <==> n == 0 || a == 0
  {
    if a == 0 then 0 else n
  }

  /** The 16-bit byte budget left after `k` of the `n` samples: `3 a (n - k)` truncated to 16 bits. */
  function Budget(n: U8, a: U8, k: nat): (left: int)
    requires k <= n
    ensures 0 <= left < 0x10000
  {
    (3 * a * (n - k)) % 0x10000
  }

  lemma MulBound(a: int, j: int)
    requires 1 <= a <= 255 && 1 <= j <= 255
    ensures 1 <= a * j <= 65025
  {
    MulMono(j, 1, a);
    MulMono(j, a, 255);
    assert j * a == a * j;
  }

  /**
   The budget reaches 0 exactly when all samples are read, even when
   `3 n a` does not fit in 16 bits: a non-zero multiple of 3 below
   `3 * 2^16` is never a multiple of `2^16`.
   */
  lemma {:induction false} BudgetZero(n: U8, a: U8, k: nat)
    requires k <= Iterations(n, a)
    ensures k <= n
    ensures Budget(n, a, k) == 0 <==> k == Iterations(n, a)
  {
    if a != 0 && k < n {
      var j := n - k;
      MulBound(a, j);
      var x := a * j;
      assert 3 * a * j == 3 * x;
      var q := (3 * x) / 0x10000;
      assert 3 * x == q * 0x10000 + (3 * x) % 0x10000;
    }
  }

  /** The budget the loop starts from is `num_samples * 3 * active_leds` truncated to 16 bits. */
  lemma BudgetStart(n: U8, a: U8)
    ensures (n * 3 * a) % 0x10000 == Budget(n, a, 0)
  {
    assert n * 3 * a == 3 * a * (n - 0);
  }

  /** One loop step: subtracting `3 a` from the truncated budget is the budget one sample later. */
  lemma BudgetStep(n: U8, a: U8, k: nat)
    requires k < n
    ensures (Budget(n, a, k) - 3 * a) % 0x10000 == Budget(n, a, k + 1)
  {
    ModSub(3 * a * (n - k), 3 * a, 0x10000);
    assert 3 * a * (n - k) - 3 * a == 3 * a * (n - (k + 1));
  }

  /** The resolution code `ReadFIFO` works with: the pulse-width field, or 0 when the configuration read fails. */
  function Resolution(rm: RegisterMap, b: Bus): (code: bv8)
    ensures code <= 3
    ensures Ack(b, 0) != NoError ==> code == 0
  {
    if Ack(b, 0) == NoError then ResolutionCode(Peek(b.regs, rm.spo2Conf)) else 0
  }

  /** The pulse width written is the resolution `ReadFIFO` reads back, so samples shift by `4 - pw`. */
  lemma PulseWidthSetsResolution(rm: RegisterMap, b: Bus, pw: bv8)
    requires pw <= 3
    requires Ack(b, 0) == NoError && Ack(b, 1) == NoError && Ack(b, 2) == NoError
    ensures var r := SetSpO2PulseWidth(rm, b, pw);
      r.status == Ok && Resolution(rm, r.bus) == pw && Shift(Resolution(rm, r.bus)) == 4 - pw as int
  {
  }

  /** The `c` decoded channel values of the sample whose bytes start at `off`. */
  function Group(fifo: seq<bv8>, off: nat, c: nat, code: bv8): (g: seq<bv32>)
    requires 1 <= c <= 3 && code <= 3 && off + 3 * c <= |fifo|
    ensures |g| == c
  {
    seq(c, j requires 0 <= j < c => ChannelValue(fifo[off + 3 * j], fifo[off + 3 * j + 1], fifo[off + 3 * j + 2], code))
  }

  /** Where sample `k` starts in the stream when every sample has `c` channels of three bytes. */
  function Offset(c: nat, k: nat): nat {
    3 * c * k
  }

  /** The first `k` samples of the stream, `c` channels each, decoded. */
  function Decoded(fifo: seq<bv8>, k: nat, c: nat, code: bv8): (gs: seq<seq<bv32>>)
    requires 1 <= c <= 3 && code <= 3 && 3 * c * k <= |fifo|
    ensures |gs| == k && Groups(gs) && AtMost(gs, c)
    ensures forall i :: 0 <= i < k ==> |gs[i]| == c
  {
    seq(k, i requires 0 <= i < k => SampleAt(fifo, k, c, code, i))
  }

  /** Sample `i` of the first `k`: the group at its offset, which lies inside the stream. */
  function SampleAt(fifo: seq<bv8>, k: nat, c: nat, code: bv8, i: nat): (g: seq<bv32>)
    requires 1 <= c <= 3 && code <= 3 && 3 * c * k <= |fifo| && i < k
    ensures |g| == c
  {
    MulStep(3 * c, i);
    MulMono(3 * c, i + 1, k);
    Group(fifo, Offset(c, i), c, code)
  }

  /**
   Byte layout of the stream: channel `j` of sample `i` is decoded from the
   three bytes starting at `3 (c i + j)`.
   */
  lemma {:induction false} DecodedLayout(fifo: seq<bv8>, k: nat, c: nat, code: bv8, i: nat, j: nat)
    requires 1 <= c <= 3 && code <= 3 && 3 * c * k <= |fifo|
    requires i < k && j < c
    ensures 3 * (c * i + j) + 2 < |fifo|
    ensures var t := 3 * (c * i + j);
      Decoded(fifo, k, c, code)[i][j] == ChannelValue(fifo[t], fifo[t + 1], fifo[t + 2], code)
  {
    DecodedGroup(fifo, k, c, code, i);
    MulStep(c, i);
    MulMono(c, i + 1, k);
    assert Offset(c, i) + 3 * j == 3 * (c * i + j);
  }

  /**
   One pass of the loop body: advance and wrap the head, then store the red
   value and, as the active LED count allows, the IR and green values.
   */
  function StoreSample(s: Store, fifo: seq<bv8>, pos: nat, a: U8, code: bv8): (s': Store)
    requires s.Valid() && code <= 3 && pos + 3 * Channels(a) <= |fifo|
    ensures s' == Append(s, Group(fifo, pos, Channels(a), code))
  {
    var h := (s.head + 1) % s.Capacity();
    var red := s.red[h := ChannelValue(fifo[pos], fifo[pos + 1], fifo[pos + 2], code)];
    var ir := if a > 1 then s.ir[h := ChannelValue(fifo[pos + 3], fifo[pos + 4], fifo[pos + 5], code)] else s.ir;
    var green := if a > 2 then s.green[h := ChannelValue(fifo[pos + 6], fifo[pos + 7], fifo[pos + 8], code)] else s.green;
    Store(red, ir, green, h)
  }

  /** Decoding one more sample stores one more group. */
  lemma DecodedStep(s: Store, fifo: seq<bv8>, k: nat, c: nat, code: bv8)
    requires s.Valid() && 1 <= c <= 3 && code <= 3 && 3 * c * (k + 1) <= |fifo|
    ensures 3 * c * k + 3 * c <= |fifo|
    ensures AppendAll(s, Decoded(fifo, k + 1, c, code))
      == Append(AppendAll(s, Decoded(fifo, k, c, code)), Group(fifo, Offset(c, k), c, code))
  {
    var gs := Decoded(fifo, k + 1, c, code);
    assert gs[..k] == Decoded(fifo, k, c, code);
  }

  /**
   The count-down loop of `ReadFIFO`: it runs once per sample, consumes
   `3 * Channels(a)` bytes each time and stores the decoded group.
   */
  method StoreSamples(n: U8, a: U8, fifo: seq<bv8>, s: Store, code: bv8) returns (pos: nat, s': Store)
    requires 3 * Channels(a) * Iterations(n, a) <= |fifo|
    requires s.Valid() && code <= 3
    ensures pos == 3 * Channels(a) * Iterations(n, a)
    ensures s' == AppendAll(s, Decoded(fifo, Iterations(n, a), Channels(a), code))
  {
    var chans, iters := Channels(a), Iterations(n, a);
    var left: int := (n * 3 * a) % 0x10000;
    var k := 0;
    pos, s' := 0, s;
    BudgetStart(n, a);
    BudgetZero(n, a, 0);
    while left > 0
      invariant k <= iters && left == Budget(n, a, k)
      invariant left == 0 <==> k == iters
      invariant pos == 3 * chans * k <= |fifo|
      invariant s' == AppendAll(s, Decoded(fifo, k, chans, code))
      decreases iters - k
    {
      left, pos, s' := StoreStep(n, a, fifo, s, code, k, left, pos, s');
      k := k + 1;
    }
  }

  /** One pass of `ReadFIFO`'s loop: count the budget down by `3 a` and store one decoded sample. */
  method StoreStep(n: U8, a: U8, fifo: seq<bv8>, s: Store, code: bv8, k: nat, left: int, pos: nat, acc: Store)
    returns (left': int, pos': nat, acc': Store)
    requires 3 * Channels(a) * Iterations(n, a) <= |fifo|
    requires s.Valid() && code <= 3
    requires k < Iterations(n, a) && left == Budget(n, a, k)
    requires pos == 3 * Channels(a) * k
    requires acc == AppendAll(s, Decoded(fifo, k, Channels(a), code))
    ensures left' == Budget(n, a, k + 1) && (left' == 0 <==> k + 1 == Iterations(n, a))
    ensures pos' == 3 * Channels(a) * (k + 1) <= |fifo|
    ensures acc' == AppendAll(s, Decoded(fifo, k + 1, Channels(a), code))
  {
    var chans := Channels(a);
    left' := CountDown(n, a, k, left);
    MulStep(3 * chans, k);
    MulMono(3 * chans, k + 1, Iterations(n, a));
    acc' := StoreSample(acc, fifo, pos, a, code);
    DecodedStep(s, fifo, k, chans, code);
    pos' := pos + 3 * chans;
  }

  /**
   `ReadFIFO`: read the resolution, then for every sample advance the head
   and store red, IR and green as the active LED count allows.  It always
   reports `Ok`: transfer errors are not checked.
   */
  method ReadFIFO(rm: RegisterMap, b: Bus, n: U8, a: U8, fifo: seq<bv8>, s: Store)
    returns (status: Status, b': Bus, s': Store)
    requires s.Valid()
    requires 3 * Channels(a) * Iterations(n, a) <= |fifo|
    ensures status == Ok
    ensures s' == AppendAll(s, Decoded(fifo, Iterations(n, a), Channels(a), Resolution(rm, b)))
    ensures s'.Capacity() == s.Capacity()
    ensures a <= 1 ==> s'.ir == s.ir
    ensures a <= 2 ==> s'.green == s.green
    ensures b'.regs == b.regs
    ensures b'.log == b.log + [Read(rm.spo2Conf), Burst(rm.fifoData, 3 * Channels(a) * Iterations(n, a))]
  {
    var conf := PeripheralRead(b, rm.spo2Conf);
    var code: bv8 := 0;
    if conf.result == NoError {
      code := ResolutionCode(conf.value);
    }
    assert code == Resolution(rm, b);
    var pos;
    pos, s' := StoreSamples(n, a, fifo, s, code);
    NarrowRun(s, Decoded(fifo, Iterations(n, a), Channels(a), code));
    b' := Issue(conf.bus, Burst(rm.fifoData, pos));
    assert b'.log == b.log + [Read(rm.spo2Conf)] + [Burst(rm.fifoData, pos)];
    status := Ok;
  }

  /** After `ReadFIFO` the head has moved on by the number of samples read, modulo the capacity. */
  lemma ReadFIFOHead(s: Store, fifo: seq<bv8>, n: U8, a: U8, code: bv8)
    requires s.Valid() && code <= 3 && 3 * Channels(a) * Iterations(n, a) <= |fifo|
    requires 0 < n && 0 < a
    ensures AppendAll(s, Decoded(fifo, Iterations(n, a), Channels(a), code)).head == (s.head + n) % s.Capacity()
  {
    DecodedHead(s, fifo, n, Channels(a), code);
  }

  lemma DecodedHead(s: Store, fifo: seq<bv8>, k: nat, c: nat, code: bv8)
    requires s.Valid() && code <= 3 && 1 <= c <= 3 && 3 * c * k <= |fifo| && 0 < k
    ensures AppendAll(s, Decoded(fifo, k, c, code)).head == (s.head + k) % s.Capacity()
  {
    HeadAfter(s, Decoded(fifo, k, c, code), k);
  }

  /**
   When no more samples than the capacity are read, sample `k` sits in full
   in the slot the head chose for it.
   */
  lemma ReadFIFOPlacement(s: Store, fifo: seq<bv8>, n: U8, a: U8, code: bv8, k: nat)
    requires s.Valid() && code <= 3 && 3 * Channels(a) * Iterations(n, a) <= |fifo|
    requires Iterations(n, a) <= s.Capacity() && k < Iterations(n, a)
    ensures && 3 * Channels(a) * k + 3 * Channels(a) <= |fifo|
            && Holds(AppendAll(s, Decoded(fifo, Iterations(n, a), Channels(a), code)), Slot(s.head, k, s.Capacity()),
                  Group(fifo, Offset(Channels(a), k), Channels(a), code))
  {
    var gs := Decoded(fifo, Iterations(n, a), Channels(a), code);
    Placement(s, gs);
    DecodedGroup(fifo, Iterations(n, a), Channels(a), code, k);
  }

  /** Sample `i` of the decoded stream is the group at byte `3 c i`. */
  lemma DecodedGroup(fifo: seq<bv8>, k: nat, c: nat, code: bv8, i: nat)
    requires 1 <= c <= 3 && code <= 3 && 3 * c * k <= |fifo| && i < k
    ensures 3 * c * i + 3 * c <= |fifo|
    ensures Decoded(fifo, k, c, code)[i] == Group(fifo, Offset(c, i), c, code)
  {
    MulStep(3 * c, i);
    MulMono(3 * c, i + 1, k);
  }

  /** The masked, unshifted values of the first `total` triplets of the stream. */
  function RawValues(fifo: seq<bv8>, total: nat): (vs: seq<bv32>)
    requires 3 * total <= |fifo|
    ensures |vs| == total
    decreases total
  {
    if total == 0 then []
    else RawValues(fifo, total - 1) + [ValueAt(fifo, total - 1)]
  }

  /** The masked value of the `t`-th triplet of the stream. */
  function ValueAt(fifo: seq<bv8>, t: nat): bv32
    requires 3 * t + 3 <= |fifo|
  {
    RawValue(fifo[3 * t], fifo[3 * t + 1], fifo[3 * t + 2])
  }

  /** Value `t` comes from the triplet at byte `3 t`: the streamed values are laid out back to back. */
  lemma {:induction false} RawValuesLayout(fifo: seq<bv8>, total: nat, t: nat)
    requires 3 * total <= |fifo| && t < total
    ensures RawValues(fifo, total)[t] == ValueAt(fifo, t)
    decreases total
  {
    if t < total - 1 {
      RawValuesLayout(fifo, total - 1, t);
    }
  }

  /** `data` can take every index a counter of width `w` reaches while storing `total` values. */
  predicate Fits(data: seq<bv32>, total: nat, w: nat) {
    0 < w && (|data| >= total || |data| >= w)
  }

  /** The counter after `t` increments that wrap from `w - 1` to 0 (an 8-bit `+= 1` when `w` is 256). */
  function Counter(t: nat, w: nat): (c: nat)
    requires 0 < w
    ensures c < w && c <= t
    decreases t
  {
    if t == 0 then 0 else Tick(Counter(t - 1, w), w)
  }

  /** One increment of a counter of width `w`. */
  function Tick(c: nat, w: nat): (c': nat)
    requires c < w
    ensures c' < w && c' <= c + 1
  {
    if c + 1 == w then 0 else c + 1
  }

  /** The counter is the number of increments modulo the width. */
  lemma {:induction false} CounterIsMod(t: nat, w: nat)
    requires 0 < w
    ensures Counter(t, w) == t % w
    decreases t
  {
    if t > 0 {
      CounterIsMod(t - 1, w);
      ModStep(t - 1, w);
      TickIsMod(Counter(t - 1, w), w);
    }
  }

  /** One increment is `+ 1` modulo the width. */
  lemma TickIsMod(c: nat, w: nat)
    requires c < w
    ensures Tick(c, w) == (c + 1) % w
  {
    if c + 1 == w {
      ModUnique(c + 1, 1, 0, w);
    } else {
      ModUnique(c + 1, 0, c + 1, w);
    }
  }

  /** Store value `t` at index `Counter(t, w)`, in order: the flat array a counter of width `w` produces. */
  function Scatter(data: seq<bv32>, vals: seq<bv32>, w: nat): (d: seq<bv32>)
    requires Fits(data, |vals|, w)
    ensures |d| == |data|
    decreases |vals|
  {
    if |vals| == 0 then data
    else
      var t := |vals| - 1;
      Scatter(data, vals[..t], w)[Counter(t, w) := vals[t]]
  }

  /** Below the width the counter is the increment count itself. */
  lemma {:induction false} CounterBelow(t: nat, w: nat)
    requires t < w
    ensures Counter(t, w) == t
    decreases t
  {
    if t > 0 {
      CounterBelow(t - 1, w);
    }
  }

  /** While the counter does not wrap, value `t` sits at index `t` and the rest of the array is untouched. */
  lemma {:induction false} ScatterInOrder(data: seq<bv32>, vals: seq<bv32>, w: nat)
    requires 0 < w && |vals| <= w && |vals| <= |data|
    ensures Scatter(data, vals, w) == vals + data[|vals|..]
    decreases |vals|
  {
    if |vals| > 0 {
      var t := |vals| - 1;
      ScatterInOrder(data, vals[..t], w);
      CounterBelow(t, w);
      assert vals[..t] + data[t..] == (vals[..t] + data[t..])[..t] + [data[t]] + data[t + 1..];
      assert (vals[..t] + data[t..])[t := vals[t]] == vals + data[|vals|..];
    }
  }

  /**
   With an 8-bit counter, storing more than 256 values wraps: value `256 + j`
   overwrites value `j`.
   */
  lemma {:induction false} ScatterWraps(data: seq<bv32>, vals: seq<bv32>, j: nat)
    requires 0x100 < |vals| <= 0x200 && 0x100 <= |data| && 0x100 + j < |vals|
    ensures Scatter(data, vals, 0x100)[j] == vals[0x100 + j]
    decreases |vals|
  {
    var t := |vals| - 1;
    CounterIsMod(t, 0x100);
    ModUnique(t, 1, t - 0x100, 0x100);
    if 0x100 + j < t {
      ScatterWraps(data, vals[..t], j);
    }
  }

  /** The result of the raw reader: the code of the last red transfer (none when no sample was read), the bus, the array. */
  datatype RawRead = RawRead(error: Option<I2CResult>, bus: Bus, data: seq<bv32>)

  /** Values stored by the first `k` samples: `Channels(a)` per sample, one linear case per channel count. */
  function Taken(a: U8, k: nat): nat {
    if a > 2 then 3 * k else if a > 1 then 2 * k else k
  }

  /** Values the raw reader stores in all. */
  function Values(n: U8, a: U8): nat {
    Taken(a, Iterations(n, a))
  }

  /** The position in the run of the last sample's red transfer. */
  function LastRed(n: U8, a: U8): nat
    requires 0 < Iterations(n, a)
  {
    Taken(a, Iterations(n, a) - 1)
  }

  /** The raw reader stores `Channels(a)` values for each of `Iterations(n, a)` samples, at most 765 in all. */
  lemma ValuesCount(n: U8, a: U8)
    ensures Values(n, a) == Channels(a) * Iterations(n, a) <= 765
    ensures 0 < Iterations(n, a) ==> LastRed(n, a) + Channels(a) == Values(n, a)
  {
  }

  /**
   The raw reader with a store counter of width `w`: per sample one 3-byte
   burst per channel, the red burst's result kept as the return code, and
   each value stored at the counter, which then advances modulo `w`.
   */
  method ReadRawInto(rm: RegisterMap, b: Bus, n: U8, a: U8, fifo: seq<bv8>, data: seq<bv32>, w: nat)
    returns (r: RawRead)
    requires 3 * Values(n, a) <= |fifo|
    requires Fits(data, Values(n, a), w)
    ensures r.data == Scatter(data, RawValues(fifo, Values(n, a)), w)
    ensures r.bus == IssueMany(b, Burst(rm.fifoData, 3), Values(n, a))
    ensures r.error == if Iterations(n, a) == 0 then None else Some(Ack(b, LastRed(n, a)))
  {
    ghost var vals := RawValues(fifo, Values(n, a));
    LayoutOfRawValues(fifo, Values(n, a));
    var left: int := (n * 3 * a) % 0x10000;
    var counter, k, t := 0, 0, 0;
    var error: Option<I2CResult> := None;
    var bus := b;
    var out := data;
    RawLoopStart(rm, b, n, a, fifo, vals, data, w);
    while left > 0
      invariant RawLoop(rm, b, n, a, fifo, vals, data, w, k, left, t, counter, out, bus, error)
      decreases Iterations(n, a) - k
    {
      left, t, counter, out, bus, error := RawStep(rm, b, n, a, fifo, vals, data, w, k, left, t, counter, out, bus, error);
      k := k + 1;
    }
    RawLoopEnd(rm, b, n, a, fifo, vals, data, w, k, left, t, counter, out, bus, error);
    r := RawRead(error, bus, out);
  }

  /** `vals` lists the masked values of the stream's triplets, in order. */
  ghost predicate Layout(vals: seq<bv32>, fifo: seq<bv8>) {
    3 * |vals| <= |fifo| && forall i :: 0 <= i < |vals| ==> vals[i] == ValueAt(fifo, i)
  }

  lemma LayoutOfRawValues(fifo: seq<bv8>, total: nat)
    requires 3 * total <= |fifo|
    ensures Layout(RawValues(fifo, total), fifo)
  {
    forall i | 0 <= i < total
      ensures RawValues(fifo, total)[i] == ValueAt(fifo, i)
    {
      RawValuesLayout(fifo, total, i);
    }
  }

  /** The raw reader's loop invariant after `k` samples, `t` values stored. */
  ghost predicate RawLoop(rm: RegisterMap, b: Bus, n: U8, a: U8, fifo: seq<bv8>, vals: seq<bv32>, data: seq<bv32>, w: nat,
                          k: nat, left: int, t: nat, counter: nat, out: seq<bv32>, bus: Bus, error: Option<I2CResult>)
  {
    && |vals| == Values(n, a) && Layout(vals, fifo) && Fits(data, Values(n, a), w)
    && k <= Iterations(n, a) && left == Budget(n, a, k) && (left == 0 <==> k == Iterations(n, a))
    && t == Taken(a, k) && t <= Values(n, a)
    && counter == Counter(t, w)
    && out == Scatter(data, vals[..t], w)
    && bus == IssueMany(b, Burst(rm.fifoData, 3), t)
    && error == if k == 0 then None else Some(Ack(b, Taken(a, k - 1)))
  }

  lemma RawLoopStart(rm: RegisterMap, b: Bus, n: U8, a: U8, fifo: seq<bv8>, vals: seq<bv32>, data: seq<bv32>, w: nat)
    requires |vals| == Values(n, a) && Layout(vals, fifo) && Fits(data, Values(n, a), w)
    ensures RawLoop(rm, b, n, a, fifo, vals, data, w, 0, (n * 3 * a) % 0x10000, 0, 0, data, b, None)
  {
    BudgetStart(n, a);
    BudgetZero(n, a, 0);
  }

  lemma RawLoopEnd(rm: RegisterMap, b: Bus, n: U8, a: U8, fifo: seq<bv8>, vals: seq<bv32>, data: seq<bv32>, w: nat,
                   k: nat, left: int, t: nat, counter: nat, out: seq<bv32>, bus: Bus, error: Option<I2CResult>)
    requires RawLoop(rm, b, n, a, fifo, vals, data, w, k, left, t, counter, out, bus, error) && left <= 0
    requires vals == RawValues(fifo, Values(n, a))
    ensures out == Scatter(data, RawValues(fifo, Values(n, a)), w)
    ensures bus == IssueMany(b, Burst(rm.fifoData, 3), Values(n, a))
    ensures error == if Iterations(n, a) == 0 then None else Some(Ack(b, LastRed(n, a)))
  {
    assert k == Iterations(n, a) by {
      assert left == 0;
    }
    assert vals[..t] == vals;
  }

  /** One pass of the raw reader's loop: count the budget down by `3 a` and read one sample. */
  method RawStep(rm: RegisterMap, b: Bus, n: U8, a: U8, fifo: seq<bv8>, ghost vals: seq<bv32>, data: seq<bv32>, w: nat,
                 k: nat, left: int, t: nat, counter: nat, out: seq<bv32>, bus: Bus, error: Option<I2CResult>)
    returns (left': int, t': nat, counter': nat, out': seq<bv32>, bus': Bus, error': Option<I2CResult>)
    requires RawLoop(rm, b, n, a, fifo, vals, data, w, k, left, t, counter, out, bus, error) && left > 0
    ensures RawLoop(rm, b, n, a, fifo, vals, data, w, k + 1, left', t', counter', out', bus', error')
  {
    var chans := Channels(a);
    RawLoopOpen(rm, b, n, a, fifo, vals, data, w, k, left, t, counter, out, bus, error);
    left' := CountDown(n, a, k, left);
    var res;
    res, counter', out', bus' := ReadSample(rm, b, fifo, vals, data, w, a, chans, t, counter, out, bus);
    t', error' := t + chans, Some(res);
    RawLoopNext(rm, b, n, a, fifo, vals, data, w, k, left', t', counter', out', bus', error');
  }

  /** What one more pass of the loop may rely on: a sample is left, and its bytes and array slots exist. */
  lemma RawLoopOpen(rm: RegisterMap, b: Bus, n: U8, a: U8, fifo: seq<bv8>, vals: seq<bv32>, data: seq<bv32>, w: nat,
                    k: nat, left: int, t: nat, counter: nat, out: seq<bv32>, bus: Bus, error: Option<I2CResult>)
    requires RawLoop(rm, b, n, a, fifo, vals, data, w, k, left, t, counter, out, bus, error) && left > 0
    ensures k < Iterations(n, a) && left == Budget(n, a, k)
    ensures t + Channels(a) == Taken(a, k + 1) <= |vals|
    ensures Layout(vals, fifo) && Fits(data, t + Channels(a), w)
    ensures counter == Counter(t, w) && out == Scatter(data, vals[..t], w)
    ensures bus == IssueMany(b, Burst(rm.fifoData, 3), t)
  {
    FitsLess(data, t + Channels(a), Values(n, a), w);
  }

  /** The loop invariant one sample on, from its parts. */
  lemma RawLoopNext(rm: RegisterMap, b: Bus, n: U8, a: U8, fifo: seq<bv8>, vals: seq<bv32>, data: seq<bv32>, w: nat,
                    k: nat, left: int, t: nat, counter: nat, out: seq<bv32>, bus: Bus, error: Option<I2CResult>)
    requires |vals| == Values(n, a) && Layout(vals, fifo) && Fits(data, Values(n, a), w)
    requires k < Iterations(n, a) && left == Budget(n, a, k + 1) && (left == 0 <==> k + 1 == Iterations(n, a))
    requires t == Taken(a, k + 1) <= Values(n, a)
    requires counter == Counter(t, w) && out == Scatter(data, vals[..t], w)
    requires bus == IssueMany(b, Burst(rm.fifoData, 3), t)
    requires error == Some(Ack(b, Taken(a, k)))
    ensures RawLoop(rm, b, n, a, fifo, vals, data, w, k + 1, left, t, counter, out, bus, error)
  {
  }

  /** `left -= active_leds * 3` in 16 bits: the budget one sample later, and whether it has run out. */
  method CountDown(n: U8, a: U8, k: nat, left: int) returns (left': int)
    requires k < Iterations(n, a) && left == Budget(n, a, k)
    ensures left' == Budget(n, a, k + 1) && (left' == 0 <==> k + 1 == Iterations(n, a))
  {
    left' := (left - 3 * a) % 0x10000;
    BudgetNext(n, a, k);
  }

  /** The budget after one more sample, and whether it has run out. */
  lemma BudgetNext(n: U8, a: U8, k: nat)
    requires k < Iterations(n, a)
    ensures (Budget(n, a, k) - 3 * a) % 0x10000 == Budget(n, a, k + 1)
    ensures Budget(n, a, k + 1) == 0 <==> k + 1 == Iterations(n, a)
  {
    BudgetStep(n, a, k);
    BudgetZero(n, a, k + 1);
  }

  lemma FitsLess(data: seq<bv32>, x: nat, y: nat, w: nat)
    requires Fits(data, y, w) && x <= y
    ensures Fits(data, x, w)
  {
  }

  /** One sample of the raw reader: a value per channel, red first, each followed by a counter step. */
  method ReadSample(rm: RegisterMap, b: Bus, fifo: seq<bv8>, ghost vals: seq<bv32>, data: seq<bv32>, w: nat,
                    a: U8, chans: nat, t: nat, counter: nat, out: seq<bv32>, bus: Bus)
    returns (res: I2CResult, counter': nat, out': seq<bv32>, bus': Bus)
    requires chans == Channels(a)
    requires t + chans <= |vals| && Layout(vals, fifo) && Fits(data, t + chans, w)
    requires counter == Counter(t, w) && out == Scatter(data, vals[..t], w)
    requires bus == IssueMany(b, Burst(rm.fifoData, 3), t)
    ensures counter' == Counter(t + chans, w)
    ensures out' == Scatter(data, vals[..t + chans], w)
    ensures bus' == IssueMany(b, Burst(rm.fifoData, 3), t + chans)
    ensures res == Ack(b, t)
  {
    var ignored;
    FitsLess(data, t + 1, t + chans, w);
    res, out', bus' := ReadValue(rm, b, fifo, vals, data, w, t, counter, out, bus);
    counter' := Tick(counter, w);
    assert counter' == Counter(t + 1, w);
    if a > 1 {
      FitsLess(data, t + 2, t + chans, w);
      ignored, out', bus' := ReadValue(rm, b, fifo, vals, data, w, t + 1, counter', out', bus');
      counter' := Tick(counter', w);
      assert counter' == Counter(t + 2, w);
    }
    if a > 2 {
      ignored, out', bus' := ReadValue(rm, b, fifo, vals, data, w, t + 2, counter', out', bus');
      counter' := Tick(counter', w);
    }
  }

  /**
   One channel of the raw reader: a 3-byte burst from the FIFO data
   register, whose masked value is stored at the counter.  Value `t` of the
   run is the `t`-th transaction since the run began.
   */
  method ReadValue(rm: RegisterMap, b: Bus, fifo: seq<bv8>, ghost vals: seq<bv32>, data: seq<bv32>, w: nat,
                   t: nat, counter: nat, out: seq<bv32>, bus: Bus)
    returns (res: I2CResult, out': seq<bv32>, bus': Bus)
    requires t < |vals| && Layout(vals, fifo) && Fits(data, t + 1, w)
    requires counter == Counter(t, w) && out == Scatter(data, vals[..t], w)
    requires bus == IssueMany(b, Burst(rm.fifoData, 3), t)
    ensures out' == Scatter(data, vals[..t + 1], w)
    ensures bus' == IssueMany(b, Burst(rm.fifoData, 3), t + 1)
    ensures res == Ack(b, t)
  {
    var rd := PeripheralReadMulti(bus, rm.fifoData, 3);
    assert vals[..t + 1][..t] == vals[..t];
    IssueManyStep(b, Burst(rm.fifoData, 3), t);
    res, out', bus' := rd.result, out[counter := ValueAt(fifo, t)], rd.bus;
  }

  /**
   The flat layout of the raw reader: channel `c` (0 red, 1 IR, 2 green) of
   sample `k` is value `Channels(a) * k + c` of the run, decoded from the
   triplet at byte `3 (Channels(a) * k + c)`.
   */
  lemma RawSampleLayout(fifo: seq<bv8>, n: U8, a: U8, k: nat, c: nat)
    requires 3 * Values(n, a) <= |fifo| && k < Iterations(n, a) && c < Channels(a)
    ensures Channels(a) * k + c < Values(n, a)
    ensures RawValues(fifo, Values(n, a))[Channels(a) * k + c] == ValueAt(fifo, Channels(a) * k + c)
  {
    ValuesCount(n, a);
    MulStep(Channels(a), k);
    MulMono(Channels(a), k + 1, Iterations(n, a));
    RawValuesLayout(fifo, Values(n, a), Channels(a) * k + c);
  }

  /** `ReadRawFIFO` as written: the store index is a `uint8_t` counter. */
  method ReadRawFIFO(rm: RegisterMap, b: Bus, n: U8, a: U8, fifo: seq<bv8>, data: seq<bv32>)
    returns (r: RawRead)
    requires 3 * Values(n, a) <= |fifo|
    requires Fits(data, Values(n, a), 0x100)
    ensures r.data == Scatter(data, RawValues(fifo, Values(n, a)), 0x100)
    ensures Values(n, a) <= 0x100 ==> r.data[..Values(n, a)] == RawValues(fifo, Values(n, a))
    ensures r.bus.regs == b.regs
    ensures r.bus.log == b.log + Repeat(Burst(rm.fifoData, 3), Values(n, a))
    ensures r.error == if Iterations(n, a) == 0 then None else Some(Ack(b, LastRed(n, a)))
  {
    r := ReadRawInto(rm, b, n, a, fifo, data, 0x100);
    var total := Values(n, a);
    if total <= 0x100 {
      ScatterInOrder(data, RawValues(fifo, total), 0x100);
    }
  }

  /** `ReadRawFIFO` with a counter wide enough for every count (at most 765 values), as evidently intended. */
  method ReadRawFIFOWide(rm: RegisterMap, b: Bus, n: U8, a: U8, fifo: seq<bv8>, data: seq<bv32>)
    returns (r: RawRead)
    requires 3 * Values(n, a) <= |fifo|
    requires Values(n, a) <= |data|
    ensures |r.data| == |data|
    ensures r.data[..Values(n, a)] == RawValues(fifo, Values(n, a))
    ensures r.data[Values(n, a)..] == data[Values(n, a)..]
    ensures r.bus.regs == b.regs
    ensures r.bus.log == b.log + Repeat(Burst(rm.fifoData, 3), Values(n, a))
    ensures r.error == if Iterations(n, a) == 0 then None else Some(Ack(b, LastRed(n, a)))
  {
    var total := Values(n, a);
    r := ReadRawInto(rm, b, n, a, fifo, data, 0x10000);
    ScatterInOrder(data, RawValues(fifo, total), 0x10000);
  }

  /**
   The 8-bit counter loses samples: reading 86 samples of three channels
   (258 values) leaves value 256 where value 0 belongs and value 257 where
   value 1 belongs.
   */
  lemma RawCounterWraps(fifo: seq<bv8>, data: seq<bv32>)
    requires |fifo| == 3 * 258 && |data| == 0x100
    ensures Values(86, 3) == 258
    ensures var d := Scatter(data, RawValues(fifo, 258), 0x100);
      d[0] == ValueAt(fifo, 256) && d[1] == ValueAt(fifo, 257)
  {
    ScatterWraps(data, RawValues(fifo, 258), 0);
    ScatterWraps(data, RawValues(fifo, 258), 1);
    RawValuesLayout(fifo, 258, 256);
    RawValuesLayout(fifo, 258, 257);
  }
}
