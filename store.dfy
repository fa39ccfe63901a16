/**
 * The fixed-capacity sample store of src/store.c: a global array of
 * `CFG_RETAINED_SAMPLES` slots and a fill cursor `write_position`.
 * Held samples occupy slots [0, write_position) from oldest to newest;
 * every slot past the cursor holds 0.
 */
module Store {

  function Min(a: int, b: int): int {
    if a <= b then a else b
  }

  /** The last `min(|s|, capacity)` elements of `s`. */
  function Newest(s: seq<nat>, capacity: nat): (r: seq<nat>)
    ensures |r| == Min(|s|, capacity)
    ensures r == s[|s| - |r|..]
  {
    if |s| <= capacity then s else s[|s| - capacity..]
  }

  /** A run of `n` zero slots, the value of a vacated slot. */
  function Zeros(n: nat): (z: seq<nat>)
    ensures |z| == n
    ensures forall i :: 0 <= i < n ==> z[i] == 0
  {
    seq(n, _ => 0)
  }

  // ---------------------------------------------------------------------
  // Specification of the store on sequences
  // ---------------------------------------------------------------------

  /**
   * Slot contents after removing the `n` oldest samples as intended:
   * every survivor moves `n` places towards the front and the `n`
   * vacated slots at the end read 0.
   */
  function ShiftLeft(s: seq<nat>, n: nat): (r: seq<nat>)
    requires n <= |s|
    ensures |r| == |s|
    ensures forall i :: 0 <= i < |s| - n ==> r[i] == s[n + i]
    ensures forall i :: |s| - n <= i < |s| ==> r[i] == 0
  {
    s[n..] + Zeros(n)
  }

  /**
   * Slot contents after the loop of remove_from_store as written, for a
   * count n that is not negative: for i = 0, 1, ... while i + n < |s| it
   * copies slot n + i to slot i and then writes 0 to slot n + i. With n == 0 the second write clears the
   * slot the first one just kept; a slot below n that no iteration reaches
   * keeps its old value.
   */
  function AsWritten(s: seq<nat>, n: nat): (r: seq<nat>)
    ensures |r| == |s|
  {
    seq(|s|, i requires 0 <= i < |s| =>
      if n == 0 then 0
      else if i + n < |s| then s[i + n]
      else if n <= i then 0
      else s[i])
  }

  /**
   * The held samples after add_to_store: when the batch does not fit, the
   * oldest `|held| + |batch| - capacity` samples are evicted first, then
   * the whole batch is appended.
   */
  function Appended(held: seq<nat>, batch: seq<nat>, capacity: nat): (r: seq<nat>)
    requires |held| <= capacity && |batch| <= capacity
    ensures r == Newest(held + batch, capacity)
    ensures |r| == Min(|held| + |batch|, capacity)
    ensures r[|r| - |batch|..] == batch
  {
    var evicted := if |batch| + |held| > capacity then |held| + |batch| - capacity else 0;
    assert (held + batch)[evicted..] == held[evicted..] + batch;
    held[evicted..] + batch
  }

  /**
   * The batch get_batch_from_store copies out: the `size` oldest slots,
   * which read 0 wherever fewer than `size` samples are held.
   */
  function Peek(held: seq<nat>, size: nat): (r: seq<nat>)
    ensures |r| == size
    ensures forall i :: 0 <= i < size && i < |held| ==> r[i] == held[i]
    ensures forall i :: |held| <= i < size ==> r[i] == 0
  {
    (held + Zeros(size))[..size]
  }

  /** All samples of a sequence of batches, in arrival order. */
  function Flatten(batches: seq<seq<nat>>): seq<nat>
  {
    if |batches| == 0 then [] else Flatten(batches[..|batches| - 1]) + batches[|batches| - 1]
  }

  /** The held samples after adding `batches` one by one to an empty store. */
  function Fill(batches: seq<seq<nat>>, capacity: nat): (r: seq<nat>)
    requires forall i :: 0 <= i < |batches| ==> |batches[i]| <= capacity
    ensures |r| <= capacity
  {
    if |batches| == 0 then []
    else Appended(Fill(batches[..|batches| - 1], capacity), batches[|batches| - 1], capacity)
  }

  /** The slots after the first `i` iterations of the remove_from_store loop. */
  ghost function AsWrittenAfter(s: seq<nat>, n: nat, i: nat): seq<nat>
  {
    seq(|s|, k requires 0 <= k < |s| =>
      if k < i then (if n == 0 then 0 else if k + n < |s| then s[k + n] else s[k])
      else if n <= k < n + i then 0
      else s[k])
  }

  /** One iteration of the loop: copy slot n + i to slot i, then clear slot n + i. */
  lemma AsWrittenStep(s: seq<nat>, n: nat, i: nat)
    requires i + n < |s|
    ensures AsWrittenAfter(s, n, i + 1)
         == AsWrittenAfter(s, n, i)[i := AsWrittenAfter(s, n, i)[n + i]][n + i := 0]
  {
  }

  /** When the loop guard fails, the slots are those of AsWritten. */
  lemma AsWrittenDone(s: seq<nat>, n: nat, i: nat)
    requires i + n >= |s| && (i + n <= |s| || i == 0)
    ensures AsWrittenAfter(s, n, i) == AsWritten(s, n)
  {
  }

  // ---------------------------------------------------------------------
  // Lemmas
  // ---------------------------------------------------------------------

  /** When the batch fits, nothing is evicted and the batch is appended whole. */
  lemma AppendedWithoutEviction(held: seq<nat>, batch: seq<nat>, capacity: nat)
    requires |batch| <= capacity && |held| + |batch| <= capacity
    ensures Appended(held, batch, capacity) == held + batch
  {
  }

  /**
   * When the batch does not fit, exactly `|held| + |batch| - capacity` of the
   * oldest samples are evicted, which leaves `capacity - |batch|` survivors
   * in front of the batch, and the store is full afterwards.
   */
  lemma AppendedEvictsExactly(held: seq<nat>, batch: seq<nat>, capacity: nat)
    requires |held| <= capacity && |batch| <= capacity && |held| + |batch| > capacity
    ensures |Appended(held, batch, capacity)| == capacity
    ensures Appended(held, batch, capacity) == ShiftLeft(held, |held| + |batch| - capacity)[..capacity - |batch|] + batch
  {
    var n := |held| + |batch| - capacity;
    var r := Appended(held, batch, capacity);
    var kept := ShiftLeft(held, n)[..capacity - |batch|];
    assert kept == held[n..];
    assert r == (held + batch)[n..];
    assert (held + batch)[n..] == held[n..] + batch;
  }

  /** A suffix of a concatenation that starts inside its first part. */
  lemma SuffixOfConcat(xs: seq<nat>, ys: seq<nat>, j: nat)
    requires j <= |xs|
    ensures (xs + ys)[j..] == xs[j..] + ys
  {
  }

  /**
   * Adding a batch to a store that holds the newest samples of a stream
   * leaves it holding the newest samples of the extended stream.
   */
  lemma AppendedToNewest(xs: seq<nat>, batch: seq<nat>, capacity: nat)
    requires |batch| <= capacity
    ensures Appended(Newest(xs, capacity), batch, capacity) == Newest(xs + batch, capacity)
  {
    var held := Newest(xs, capacity);
    if |xs| + |batch| <= capacity {
      assert held == xs;
      AppendedWithoutEviction(xs, batch, capacity);
    } else {
      var cut := |xs| + |batch| - capacity;
      assert Newest(xs + batch, capacity) == (xs + batch)[cut..];
      SuffixOfConcat(xs, batch, cut);
      var e := |held| + |batch| - capacity;
      assert held[e..] == xs[cut..];
      assert Appended(held, batch, capacity) == held[e..] + batch;
    }
  }

  /**
   * After any number of additions to an empty store, the store holds exactly
   * `Min(total, capacity)` samples: the most recently added ones, in their
   * original order.
   */
  lemma {:induction false} FillKeepsNewest(batches: seq<seq<nat>>, capacity: nat)
    requires forall i :: 0 <= i < |batches| ==> |batches[i]| <= capacity
    ensures Fill(batches, capacity) == Newest(Flatten(batches), capacity)
  {
    if |batches| > 0 {
      var init := batches[..|batches| - 1];
      var last := batches[|batches| - 1];
      FillKeepsNewest(init, capacity);
      assert Fill(batches, capacity) == Appended(Newest(Flatten(init), capacity), last, capacity);
      assert Flatten(batches) == Flatten(init) + last;
      AppendedToNewest(Flatten(init), last, capacity);
    }
  }

  /**
   * With 75 retained slots and batches of 25, four additions to an empty
   * store without any removal leave the store full, holding samples 26 to
   * 100 of the stream (indices 25 to 99).
   */
  lemma FourBatchesScenario(stream: seq<nat>)
    requires |stream| == 100
    ensures var batches := [stream[..25], stream[25..50], stream[50..75], stream[75..]];
            |Fill(batches, 75)| == 75 && Fill(batches, 75) == stream[25..]
  {
    var batches := [stream[..25], stream[25..50], stream[50..75], stream[75..]];
    assert Flatten(batches[..0]) == [];
    assert batches[..1][..0] == batches[..0];
    assert batches[..2][..1] == batches[..1];
    assert batches[..3][..2] == batches[..2];
    assert batches[..3] == batches[..|batches| - 1];
    assert Flatten(batches[..1]) == stream[..25];
    assert Flatten(batches[..2]) == stream[..50];
    assert Flatten(batches[..3]) == stream[..75];
    assert Flatten(batches) == stream;
    FillKeepsNewest(batches, 75);
  }

  /** Peeking at a store holding at least `size` samples yields its oldest ones. */
  lemma PeekOldest(held: seq<nat>, size: nat)
    requires size <= |held|
    ensures Peek(held, size) == held[..size]
  {
  }

  /** The loop as written keeps every survivor at its new place when n >= 1. */
  lemma AsWrittenKeepsSurvivors(s: seq<nat>, n: nat)
    requires 1 <= n <= |s|
    ensures |AsWritten(s, n)| == |s|
    ensures AsWritten(s, n)[..|s| - n] == s[n..]
  {
  }

  /**
   * The eviction inside add_to_store runs the loop as written. Its stale
   * slots all lie in the last `|batch|` slots, which the copy loop then
   * overwrites, so evicting with the loop as written and copying the batch
   * in gives exactly the held samples of Appended.
   */
  lemma AsWrittenEvictionThenCopy(s: seq<nat>, wp: nat, batch: seq<nat>)
    requires wp <= |s| && |batch| <= |s| && wp + |batch| > |s|
    ensures AsWritten(s, wp + |batch| - |s|)[..|s| - |batch|] + batch
         == Appended(s[..wp], batch, |s|)
  {
    var n := wp + |batch| - |s|;
    var kept := AsWritten(s, n)[..|s| - |batch|];
    forall i | 0 <= i < |s| - |batch| ensures kept[i] == s[n + i] {
      assert i + n < |s|;
    }
    assert kept == s[n..wp];
    assert s[..wp][n..] == s[n..wp];
  }

  /**
   * When at most half the slots are vacated (1 <= n and 2n <= |s|), the loop
   * as written zeroes every vacated slot, so it agrees with ShiftLeft.
   */
  lemma AsWrittenMatchesShiftLeft(s: seq<nat>, n: nat)
    requires 1 <= n && 2 * n <= |s|
    ensures AsWritten(s, n) == ShiftLeft(s, n)
  {
    var a, b := AsWritten(s, n), ShiftLeft(s, n);
    forall i | 0 <= i < |s| ensures a[i] == b[i] {
      if i >= |s| - n {
        assert n <= i;
      }
    }
  }

  /**
   * When more than half the slots are vacated, a vacated slot below n is
   * never visited by the loop as written and keeps its old value instead of 0.
   */
  lemma AsWrittenLeavesStale(s: seq<nat>, n: nat, i: nat)
    requires 1 <= n <= |s| && |s| - n <= i < n
    ensures AsWritten(s, n)[i] == s[i]
    ensures ShiftLeft(s, n)[i] == 0
  {
  }

  /** A concrete instance: five slots [1, 2, 3, 4, 5] and n = 4. */
  lemma AsWrittenLeavesStaleExample()
    ensures AsWritten([1, 2, 3, 4, 5], 4) == [5, 2, 3, 4, 0]
    ensures ShiftLeft([1, 2, 3, 4, 5], 4) == [5, 0, 0, 0, 0]
  {
    var s: seq<nat> := [1, 2, 3, 4, 5];
    assert AsWritten(s, 4)[0] == 5;
    assert ShiftLeft(s, 4) == [5] + [0, 0, 0, 0];
  }

  /**
   * Removing zero samples with the loop as written erases every slot, while
   * the intended removal leaves the slots unchanged.
   */
  lemma AsWrittenZeroErases(s: seq<nat>)
    ensures AsWritten(s, 0) == Zeros(|s|)
    ensures ShiftLeft(s, 0) == s
  {
  }

  /** Removing more than `|s|` samples runs no iteration of the loop. */
  lemma AsWrittenBeyondCapacity(s: seq<nat>, n: nat)
    requires n > |s|
    ensures AsWritten(s, n) == s
  {
  }

  // ---------------------------------------------------------------------
  // The store itself
  // ---------------------------------------------------------------------

  /**
   * The globals of src/store.c as one object. `retained` and `batchSize`
   * stand for CFG_RETAINED_SAMPLES and CFG_BATCH_SIZE of the configuration.
   */
  class SampleStore {
    const retained: nat
    const batchSize: nat
    const store: array<nat>
    var writePosition: int

    /** Cursor within bounds and every slot past the cursor reads 0. */
    ghost predicate Valid()
      reads this, store
    {
      && 0 < batchSize <= retained
      && store.Length == retained
      && 0 <= writePosition <= retained
      && forall k :: writePosition <= k < retained ==> store[k] == 0
    }

    /** The held samples, oldest first. */
    ghost function Held(): (h: seq<nat>)
      reads this, store
      requires Valid()
      ensures |h| == writePosition
    {
      store[..writePosition]
    }

    /** The zero-initialised globals: an empty store. */
    constructor (retained: nat, batchSize: nat)
      requires 0 < batchSize <= retained
      ensures Valid() && fresh(store)
      ensures this.retained == retained && this.batchSize == batchSize
      ensures Held() == [] && store[..] == Zeros(retained)
    {
      this.retained := retained;
      this.batchSize := batchSize;
      store := new nat[retained](_ => 0);
      writePosition := 0;
    }

    /** The slots as a whole: the held samples followed by zeros. */
    lemma SlotsAreHeldThenZeros()
      requires Valid()
      ensures store[..] == Held() + Zeros(retained - writePosition)
    {
    }

    /** has_stored_data: true exactly when some sample is held. */
    function HasStoredData(): (r: bool)
      reads this, store
      requires Valid()
      ensures r <==> Held() != []
    {
      writePosition > 0
    }

    /**
     * add_to_store: evicts the oldest samples when the batch does not fit,
     * then copies the batch in after the held samples, advancing the cursor.
     */
    method Add(newData: seq<nat>)
      requires Valid() && |newData| == batchSize
      modifies this, store
      ensures Valid()
      ensures writePosition == Min(old(writePosition) + batchSize, retained)
      ensures Held() == Appended(old(Held()), newData, retained)
    {
      ghost var before := Held();
      ghost var evicted := 0;
      if batchSize + writePosition > retained {
        evicted := writePosition + batchSize - retained;
        Remove(writePosition + batchSize - retained);
      }
      ghost var kept := Held();
      assert kept == before[evicted..];
      CopyIn(newData);
      assert Held() == kept + newData;
      assert Appended(before, newData, retained) == before[evicted..] + newData;
    }

    /**
     * The copy loop of add_to_store: writes the batch into the slots at the
     * cursor, one sample at a time, advancing the cursor after each.
     */
    method CopyIn(newData: seq<nat>)
      requires Valid() && writePosition + |newData| <= retained
      modifies this, store
      ensures Valid()
      ensures writePosition == old(writePosition) + |newData|
      ensures Held() == old(Held()) + newData
    {
      ghost var start := writePosition;
      var i := 0;
      while i < |newData|
        invariant 0 <= i <= |newData|
        invariant writePosition == start + i
        invariant forall k :: 0 <= k < start ==> store[k] == old(store[k])
        invariant forall k :: 0 <= k < i ==> store[start + k] == newData[k]
        invariant forall k :: start + i <= k < retained ==> store[k] == 0
      {
        store[writePosition] := newData[i];
        writePosition := writePosition + 1;
        i := i + 1;
      }
      assert Held() == old(Held()) + newData;
    }

    /**
     * remove_from_store with the vacated tail zeroed as intended: the `n`
     * oldest samples are dropped, the survivors move to the front in order,
     * the cursor moves back by `n` and the vacated slots read 0.
     */
    method Remove(n: nat)
      requires Valid() && n <= writePosition
      modifies this, store
      ensures Valid()
      ensures writePosition == old(writePosition) - n
      ensures Held() == old(Held())[n..]
      ensures store[..] == ShiftLeft(old(store[..]), n)
    {
      var i := 0;
      while i + n < retained
        invariant 0 <= i <= retained - n
        invariant writePosition == old(writePosition)
        invariant forall k :: 0 <= k < i ==> store[k] == old(store[k + n])
        invariant forall k :: i <= k < retained ==> store[k] == old(store[k])
      {
        store[i] := store[n + i];
        i := i + 1;
      }
      while i < retained
        invariant retained - n <= i <= retained
        invariant writePosition == old(writePosition)
        invariant forall k :: 0 <= k < retained - n ==> store[k] == old(store[k + n])
        invariant forall k :: retained - n <= k < i ==> store[k] == 0
      {
        store[i] := 0;
        i := i + 1;
      }
      writePosition := writePosition - n;
      assert store[..] == ShiftLeft(old(store[..]), n);
      assert Held() == old(Held())[n..];
    }

    /**
     * remove_from_store as written, for a count that is not negative: the
     * in-place loop of AsWritten, then the cursor moves back by `n` with no
     * check, so it goes negative when `n` exceeds it.
     */
    method RemoveAsWritten(n: nat)
      requires Valid()
      modifies this, store
      ensures writePosition == old(writePosition) - n
      ensures store[..] == AsWritten(old(store[..]), n)
    {
      ghost var slots := store[..];
      var i := 0;
      while i + n < retained
        invariant 0 <= i && (i + n <= retained || i == 0)
        invariant writePosition == old(writePosition)
        invariant store[..] == AsWrittenAfter(slots, n, i)
      {
        AsWrittenStep(slots, n, i);
        store[i] := store[n + i];
        store[n + i] := 0;
        i := i + 1;
      }
      AsWrittenDone(slots, n, i);
      writePosition := writePosition - n;
    }

    /**
     * get_batch_from_store: copies the `batchSize` oldest slots into the
     * caller's buffer; the store itself is left alone.
     */
    method GetBatch(batch: array<nat>)
      requires Valid() && batch.Length >= batchSize && batch != store
      modifies batch
      ensures batch[..batchSize] == Peek(Held(), batchSize)
      ensures forall k :: batchSize <= k < batch.Length ==> batch[k] == old(batch[k])
    {
      var i := 0;
      while i < batchSize
        invariant 0 <= i <= batchSize
        invariant forall k :: 0 <= k < i ==> batch[k] == store[k]
        invariant forall k :: i <= k < batch.Length ==> batch[k] == old(batch[k])
      {
        batch[i] := store[i];
        i := i + 1;
      }
      SlotsAreHeldThenZeros();
      assert batch[..batchSize] == Peek(Held(), batchSize);
    }
  }

  /**
   * Peeking twice with nothing in between yields the same batch, and the
   * store is untouched by either peek.
   */
  method PeekTwice(st: SampleStore, first: array<nat>, second: array<nat>)
    requires st.Valid()
    requires first.Length >= st.batchSize && second.Length >= st.batchSize
    requires first != st.store && second != st.store && first != second
    modifies first, second
    ensures st.Valid() && st.Held() == old(st.Held())
    ensures first[..st.batchSize] == second[..st.batchSize]
  {
    st.GetBatch(first);
    st.GetBatch(second);
  }
}
