/**
 The sample store `ReadFIFO` fills (MAX30101_RateTesting.cydsn/MAX30101.c,
 lines 453-523): three parallel arrays red, IR and green of one common
 capacity (BUFFER_STORAGE_SIZE, whose header is not part of this model, so
 the capacity is the arrays' length) and a `head` index.  Each sample group
 first advances `head` modulo the capacity and then stores its red value,
 its IR value when the group has one, and its green value when it has three.
 */
module SampleStore {
  import opened Modular

  datatype Store = Store(red: seq<bv32>, ir: seq<bv32>, green: seq<bv32>, head: nat) {
    /** The three arrays share one positive capacity. */
    predicate Valid() {
      0 < |red| && |ir| == |red| && |green| == |red|
    }

    function Capacity(): nat {
      |red|
    }
  }

  /** A sample group holds one to three channel values: red, then IR, then green. */
  ghost predicate Groups(gs: seq<seq<bv32>>) {
    forall k :: 0 <= k < |gs| ==> 1 <= |gs[k]| <= 3
  }

  /** Every group has at most `c` channels. */
  ghost predicate AtMost(gs: seq<seq<bv32>>, c: nat) {
    forall k :: 0 <= k < |gs| ==> |gs[k]| <= c
  }

  /** `after` agrees with `before` at every index but `i`. */
  ghost predicate SameBut(before: seq<bv32>, after: seq<bv32>, i: nat) {
    |after| == |before| && forall j :: 0 <= j < |before| && j != i ==> after[j] == before[j]
  }

  /** Store one group: advance and wrap `head`, then write the channels the group carries. */
  function Append(s: Store, g: seq<bv32>): (s': Store)
    requires s.Valid() && 1 <= |g| <= 3
    ensures s'.Valid() && s'.Capacity() == s.Capacity()
    ensures s'.head == (s.head + 1) % s.Capacity()
  {
    var h := (s.head + 1) % |s.red|;
    Store(s.red[h := g[0]],
          if |g| > 1 then s.ir[h := g[1]] else s.ir,
          if |g| > 2 then s.green[h := g[2]] else s.green,
          h)
  }

  /**
   What storing a group writes: its channels at the new head, in the arrays
   the group carries, and nothing anywhere else.
   */
  lemma AppendWrites(s: Store, g: seq<bv32>)
    requires s.Valid() && 1 <= |g| <= 3
    ensures var s' := Append(s, g);
      && s'.red[s'.head] == g[0] && SameBut(s.red, s'.red, s'.head)
      && (if |g| > 1 then s'.ir[s'.head] == g[1] && SameBut(s.ir, s'.ir, s'.head) else s'.ir == s.ir)
      && (if |g| > 2 then s'.green[s'.head] == g[2] && SameBut(s.green, s'.green, s'.head) else s'.green == s.green)
  {
  }

  /** Store the groups one after another, oldest first. */
  function AppendAll(s: Store, gs: seq<seq<bv32>>): (s': Store)
    requires s.Valid() && Groups(gs)
    ensures s'.Valid() && s'.Capacity() == s.Capacity()
    decreases |gs|
  {
    if |gs| == 0 then s
    else Append(AppendAll(s, gs[..|gs| - 1]), gs[|gs| - 1])
  }

  /** Groups without an IR value leave the IR array alone; groups without a green value, the green array. */
  lemma {:induction false} NarrowRun(s: Store, gs: seq<seq<bv32>>)
    requires s.Valid() && Groups(gs)
    ensures AtMost(gs, 1) ==> AppendAll(s, gs).ir == s.ir
    ensures AtMost(gs, 2) ==> AppendAll(s, gs).green == s.green
    decreases |gs|
  {
    if |gs| > 0 {
      var front := gs[..|gs| - 1];
      assert Groups(front);
      assert AtMost(gs, 1) ==> AtMost(front, 1);
      assert AtMost(gs, 2) ==> AtMost(front, 2);
      NarrowRun(s, front);
      AppendAllLast(s, gs);
      AppendWrites(AppendAll(s, front), gs[|gs| - 1]);
    }
  }

  /** The head after a non-empty run of `k` groups, as a fact on its own. */
  lemma {:induction false} HeadAfter(s: Store, gs: seq<seq<bv32>>, k: nat)
    requires s.Valid() && Groups(gs) && |gs| == k > 0
    ensures AppendAll(s, gs).head == (s.head + k) % s.Capacity()
    decreases k
  {
    AppendAllLast(s, gs);
    if k > 1 {
      HeadAfter(s, gs[..k - 1], k - 1);
      ModStep(s.head + k - 1, s.Capacity());
    } else {
      assert AppendAll(s, gs[..0]) == s;
    }
  }

  /** The slot the `k`-th group (counting from 0) of a run starting at `head` lands in. */
  function Slot(head: nat, k: nat, cap: nat): (i: nat)
    requires 0 < cap
    ensures i < cap
  {
    (head + k + 1) % cap
  }

  /** Within one lap of the buffer, different groups land in different slots. */
  lemma {:induction false} SlotsDistinct(head: nat, i: nat, j: nat, cap: nat)
    requires 0 < cap && i < j < cap
    ensures Slot(head, i, cap) != Slot(head, j, cap)
  {
    var x, d := head + i + 1, j - i;
    var r := (x + d) % cap;
    ModSub(x + d, d, cap);
    if r - d >= 0 {
      ModUnique(r - d, 0, r - d, cap);
    } else {
      ModUnique(r - d, -1, r - d + cap, cap);
    }
  }

  /** Group `k` of a run is stored in full at slot `i`. */
  ghost predicate Holds(t: Store, i: nat, g: seq<bv32>)
    requires t.Valid() && i < t.Capacity() && 1 <= |g| <= 3
  {
    t.red[i] == g[0]
    && (|g| > 1 ==> t.ir[i] == g[1])
    && (|g| > 2 ==> t.green[i] == g[2])
  }

  /** Slot `i` of `t` holds what it held in `s`, in all three arrays. */
  ghost predicate Kept(s: Store, t: Store, i: nat)
    requires s.Valid() && t.Valid() && i < s.Capacity() == t.Capacity()
  {
    t.red[i] == s.red[i] && t.ir[i] == s.ir[i] && t.green[i] == s.green[i]
  }

  /**
   As long as no more groups than the capacity are stored, group `k` ends up
   in slot `Slot(head, k, cap)` in full.
   */
  lemma {:induction false} Placement(s: Store, gs: seq<seq<bv32>>)
    requires s.Valid() && Groups(gs) && |gs| <= s.Capacity()
    ensures forall k :: 0 <= k < |gs| ==> Holds(AppendAll(s, gs), Slot(s.head, k, s.Capacity()), gs[k])
    decreases |gs|
  {
    if |gs| > 0 {
      var n, cap := |gs| - 1, s.Capacity();
      var front := gs[..n];
      assert Groups(front);
      Placement(s, front);
      AppendAllLast(s, gs);
      LastSlot(s, gs);
      HoldAll(AppendAll(s, front), s.head, gs);
    }
  }

  /**
   Storing one more group keeps every earlier group of the run in its slot,
   as long as the run has not yet gone once round the buffer.
   */
  lemma HoldAll(rest: Store, head: nat, gs: seq<seq<bv32>>)
    requires rest.Valid() && Groups(gs) && 0 < |gs| <= rest.Capacity()
    requires Append(rest, gs[|gs| - 1]).head == Slot(head, |gs| - 1, rest.Capacity())
    requires forall k :: 0 <= k < |gs| - 1 ==> Holds(rest, Slot(head, k, rest.Capacity()), gs[k])
    ensures forall k :: 0 <= k < |gs| ==> Holds(Append(rest, gs[|gs| - 1]), Slot(head, k, rest.Capacity()), gs[k])
  {
    var n, cap := |gs| - 1, rest.Capacity();
    var t := Append(rest, gs[n]);
    AppendWrites(rest, gs[n]);
    forall k | 0 <= k < |gs|
      ensures Holds(t, Slot(head, k, cap), gs[k])
    {
      if k < n {
        SlotsDistinct(head, k, n, cap);
        KeepsHolding(rest, gs[n], Slot(head, k, cap), gs[k]);
      }
    }
  }

  /** The last group of a non-empty run is stored after the others, at the run's last slot. */
  lemma AppendAllLast(s: Store, gs: seq<seq<bv32>>)
    requires s.Valid() && Groups(gs) && |gs| > 0
    ensures Groups(gs[..|gs| - 1])
    ensures AppendAll(s, gs) == Append(AppendAll(s, gs[..|gs| - 1]), gs[|gs| - 1])
  {
  }

  /** A non-empty run leaves the head at the slot of its last group. */
  lemma LastSlot(s: Store, gs: seq<seq<bv32>>)
    requires s.Valid() && Groups(gs) && |gs| > 0
    ensures AppendAll(s, gs).head == Slot(s.head, |gs| - 1, s.Capacity())
  {
    HeadAfter(s, gs, |gs|);
  }

  /** A group held at a slot other than the new head is still held after one more group is stored. */
  lemma KeepsHolding(t: Store, g: seq<bv32>, i: nat, h: seq<bv32>)
    requires t.Valid() && 1 <= |g| <= 3 && 1 <= |h| <= 3 && i < t.Capacity()
    requires Holds(t, i, h) && i != Append(t, g).head
    ensures Holds(Append(t, g), i, h)
  {
    AppendWrites(t, g);
  }

  /** A slot none of the stored groups reached keeps its old contents. */
  lemma {:induction false} Unreached(s: Store, gs: seq<seq<bv32>>)
    requires s.Valid() && Groups(gs)
    ensures forall i :: 0 <= i < s.Capacity() && Untouched(s.head, |gs|, s.Capacity(), i) ==> Kept(s, AppendAll(s, gs), i)
    decreases |gs|
  {
    if |gs| > 0 {
      var n, cap := |gs| - 1, s.Capacity();
      var front := gs[..n];
      assert Groups(front);
      Unreached(s, front);
      var rest := AppendAll(s, front);
      var t := AppendAll(s, gs);
      AppendAllLast(s, gs);
      LastSlot(s, gs);
      forall i | 0 <= i < cap && Untouched(s.head, |gs|, cap, i)
        ensures Kept(s, t, i)
      {
        assert i != Slot(s.head, n, cap);
        assert Untouched(s.head, n, cap, i);
        assert Kept(s, rest, i);
        AppendElsewhere(rest, gs[n], i);
      }
    }
  }

  /** Storing a group leaves every slot but the new head as it was. */
  lemma AppendElsewhere(s: Store, g: seq<bv32>, i: nat)
    requires s.Valid() && 1 <= |g| <= 3 && i < s.Capacity()
    ensures i != Append(s, g).head ==> Kept(s, Append(s, g), i)
  {
    AppendWrites(s, g);
  }

  /** Slot `i` is reached by none of the first `count` groups of a run starting at `head`. */
  ghost predicate Untouched(head: nat, count: nat, cap: nat, i: nat)
    requires 0 < cap
  {
    forall k: nat :: k < count ==> Slot(head, k, cap) != i
  }

  /** Once more groups than the capacity are stored, the oldest are overwritten: group `cap` takes group 0's slot. */
  lemma Overwrite(s: Store, gs: seq<seq<bv32>>)
    requires s.Valid() && Groups(gs) && |gs| == s.Capacity() + 1
    ensures Slot(s.head, s.Capacity(), s.Capacity()) == Slot(s.head, 0, s.Capacity())
    ensures AppendAll(s, gs).red[Slot(s.head, 0, s.Capacity())] == gs[s.Capacity()][0]
  {
    var cap := s.Capacity();
    ModShift(s.head + 1, 1, cap);
    AppendAllLast(s, gs);
    LastSlot(s, gs);
    AppendWrites(AppendAll(s, gs[..cap]), gs[cap]);
  }
}
