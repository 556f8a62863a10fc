/**
 * The bit pool the allocator keeps its ids in. A pool of length n has
 * slots 0 .. n-1; in a config record a set bit marks a declared id, in an
 * oper record it marks an id that is currently free. Only the three bitset
 * operations the allocator calls are modelled: `NextSet`, `Set`, `Clear`.
 */
module BitPool {
  import opened Outcomes

  type Pool = seq<bool>

  /** Slot i exists and its bit is set; slots past the end read as clear. */
  predicate IsFree(p: Pool, i: nat) {
    i < |p| && p[i]
  }

  ghost predicate HasFree(p: Pool) {
    exists i: nat :: IsFree(p, i)
  }

  /** k is the lowest set bit of p. */
  ghost predicate IsLeastFree(p: Pool, k: nat) {
    IsFree(p, k) && forall j: nat :: j < k ==> !IsFree(p, j)
  }

  /** `after` is `before` with bit i cleared and nothing else changed. */
  ghost predicate Taken(before: Pool, after: Pool, i: nat) {
    && |after| == |before|
    && forall j: nat :: IsFree(after, j) <==> j != i && IsFree(before, j)
  }

  /**
   * `after` is `before` with bit i set and nothing else changed; a pool too
   * short to hold slot i is lengthened to exactly i + 1 slots.
   */
  ghost predicate Released(before: Pool, after: Pool, i: nat) {
    && |after| == (if i < |before| then |before| else i + 1)
    && forall j: nat :: IsFree(after, j) <==> j == i || IsFree(before, j)
  }

  /** The first set bit at or after `from`, or None when there is none. */
  function NextSet(p: Pool, from: nat): (r: Option<nat>)
    ensures r.Some? ==> from <= r.value && IsFree(p, r.value)
    ensures r.Some? ==> forall j: nat :: from <= j < r.value ==> !IsFree(p, j)
    ensures r.None? ==> forall j: nat :: from <= j ==> !IsFree(p, j)
    decreases |p| - from
  {
    if from >= |p| then None
    else if p[from] then Some(from)
    else NextSet(p, from + 1)
  }

  /** Marks slot i; the bitset grows to hold an index past its end. */
  function SetBit(p: Pool, i: nat): (r: Pool)
    ensures Released(p, r, i)
  {
    if i < |p| then p[i := true]
    else
      var r := p + seq(i - |p|, _ => false) + [true];
      assert forall j: nat :: j < |p| ==> r[j] == p[j];
      assert forall j: nat :: |p| <= j < i ==> !r[j];
      r
  }

  /** Unmarks slot i; an index past the end leaves the pool as it is. */
  function ClearBit(p: Pool, i: nat): (r: Pool)
    ensures Taken(p, r, i)
  {
    if i < |p| then p[i := false] else p
  }

  /** The number of set bits. */
  function CountFree(p: Pool): nat {
    if |p| == 0 then 0 else (if p[0] then 1 else 0) + CountFree(p[1..])
  }

  /** Two pools of one length that agree on every bit are the same pool. */
  lemma PoolsEqual(a: Pool, b: Pool)
    requires |a| == |b|
    requires forall j: nat :: IsFree(a, j) <==> IsFree(b, j)
    ensures a == b
  {
    forall j | 0 <= j < |a|
      ensures a[j] == b[j]
    {
      assert IsFree(a, j) <==> IsFree(b, j);
    }
  }

  /** `Taken` pins the pool down: it is the pool `ClearBit` computes. */
  lemma TakenIsClearBit(before: Pool, after: Pool, i: nat)
    requires Taken(before, after, i)
    ensures after == ClearBit(before, i)
  {
    PoolsEqual(after, ClearBit(before, i));
  }

  /** `Released` pins the pool down: it is the pool `SetBit` computes. */
  lemma ReleasedIsSetBit(before: Pool, after: Pool, i: nat)
    requires Released(before, after, i)
    ensures after == SetBit(before, i)
  {
    PoolsEqual(after, SetBit(before, i));
  }

  /** A scan from 0 finds k exactly when k is the lowest set bit. */
  lemma NextSetIsLeast(p: Pool, k: nat)
    ensures NextSet(p, 0) == Some(k) <==> IsLeastFree(p, k)
  {
  }

  /** A scan from 0 finds something exactly when some bit is set. */
  lemma NextSetFindsAny(p: Pool)
    ensures NextSet(p, 0).Some? <==> HasFree(p)
  {
  }

  /** Setting a bit just cleared gives back the pool. */
  lemma SetAfterClear(p: Pool, i: nat)
    requires IsFree(p, i)
    ensures SetBit(ClearBit(p, i), i) == p
  {
  }

  /** Clearing a bit just set gives back the pool, when the slot was there and clear. */
  lemma ClearAfterSet(p: Pool, i: nat)
    requires i < |p| && !p[i]
    ensures ClearBit(SetBit(p, i), i) == p
  {
  }

  /** Setting a bit that is already set changes nothing. */
  lemma SetWhenFree(p: Pool, i: nat)
    requires IsFree(p, i)
    ensures SetBit(p, i) == p
  {
  }

  /** Clearing one set bit lowers the count by exactly one. */
  lemma {:induction false} CountAfterClear(p: Pool, i: nat)
    requires IsFree(p, i)
    ensures CountFree(ClearBit(p, i)) + 1 == CountFree(p)
  {
    var q := ClearBit(p, i);
    if i == 0 {
      assert q[1..] == p[1..];
    } else {
      assert IsFree(p[1..], i - 1);
      assert q[1..] == ClearBit(p[1..], i - 1);
      CountAfterClear(p[1..], i - 1);
    }
  }

  /** A pool with no set bit counts zero. */
  lemma {:induction false} CountWhenNoneFree(p: Pool)
    requires !HasFree(p)
    ensures CountFree(p) == 0
  {
    if |p| > 0 {
      assert !IsFree(p, 0);
      if HasFree(p[1..]) {
        var j: nat :| IsFree(p[1..], j);
        assert IsFree(p, j + 1);
      }
      CountWhenNoneFree(p[1..]);
    }
  }

  /** A pool with a set bit counts at least one. */
  lemma {:induction false} CountWhenFree(p: Pool, i: nat)
    requires IsFree(p, i)
    ensures CountFree(p) > 0
  {
    if i > 0 && !p[0] {
      assert IsFree(p[1..], i - 1);
      CountWhenFree(p[1..], i - 1);
    }
  }

  /** A positive count means a scan from 0 succeeds. */
  lemma CountedMeansFound(p: Pool)
    requires CountFree(p) > 0
    ensures NextSet(p, 0).Some?
  {
    if !HasFree(p) {
      CountWhenNoneFree(p);
    }
    NextSetFindsAny(p);
  }

  /** A pool of n slots that are all set counts n. */
  lemma {:induction false} CountFull(n: nat)
    ensures CountFree(seq(n, _ => true)) == n
  {
    if n > 0 {
      assert seq(n, _ => true)[1..] == seq(n - 1, _ => true);
      CountFull(n - 1);
    }
  }
}
