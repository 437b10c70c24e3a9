/** The store-wide counters a scope buffer may touch while it holds its own lock. */
module Budgets {
  import opened Types
  import opened ScopeSpec

  class Budget {
    const maxBytes: int
    var totalBytes: int
    var totalItems: int
    var lastWriteTs: int

    constructor (maxBytes: int)
      ensures this.maxBytes == maxBytes && totalBytes == 0 && totalItems == 0 && lastWriteTs == 0
    {
      this.maxBytes := maxBytes;
      totalBytes, totalItems, lastWriteTs := 0, 0, 0;
    }

    /** The successful turn of the compare-and-swap loop, or the refusal. What other threads may do
        between two turns is the subject of module Protocol. */
    method ReserveBytes(delta: int) returns (ok: bool, current: int)
      modifies this`totalBytes
      ensures ok == CanReserve(old(totalBytes), maxBytes, delta)
      ensures totalBytes == current == if ok then old(totalBytes) + delta else old(totalBytes)
    {
      if delta <= 0 {
        totalBytes := totalBytes + delta;
        return true, totalBytes;
      }
      current := totalBytes;
      if delta > maxBytes - current {
        return false, current;
      }
      totalBytes := current + delta;
      return true, totalBytes;
    }

    method BumpLastWriteTs(now: int)
      modifies this`lastWriteTs
      ensures lastWriteTs == Max(old(lastWriteTs), now)
    {
      if now > lastWriteTs {
        lastWriteTs := now;
      }
    }
  }

  // ---------- Signed 64-bit arithmetic of the cap check ----------

  /** What a Go int64 holds after arithmetic whose exact result is `x`. */
  function Wrap64(x: int): int {
    (x - MIN_INT64) % 0x1_0000_0000_0000_0000 + MIN_INT64
  }

  predicate IsInt64(x: int) {
    MIN_INT64 <= x <= MAX_INT64
  }

  /** The subtractive cap check decides the exact inequality if and only if the free space itself
      fits in 64 bits; a counter of at least zero is enough for that. Otherwise it refuses a write
      that would have fitted: it never fails open. */
  lemma SubtractiveCheckIsExact(total: int, max: int, delta: int)
    requires IsInt64(total) && IsInt64(delta) && 0 < delta && 0 < max <= MAX_INT64
    ensures (delta > Wrap64(max - total) <==> total + delta > max) <==> max - total <= MAX_INT64
    ensures 0 <= total ==> max - total <= MAX_INT64
    ensures total + delta > max ==> delta > Wrap64(max - total)
  {
    if max - total <= MAX_INT64 {
      assert Wrap64(max - total) == max - total;
    } else {
      assert Wrap64(max - total) == max - total - 0x1_0000_0000_0000_0000;
    }
  }

  /** The additive form admits a write past the cap exactly when the sum leaves 64 bits. */
  lemma AdditiveCheckFailsOpen(total: int, max: int, delta: int)
    requires 0 <= total <= max <= MAX_INT64 && 0 < delta <= MAX_INT64
    ensures (total + delta > max && !(Wrap64(total + delta) > max)) <==> total + delta > MAX_INT64
  {
    if total + delta > MAX_INT64 {
      assert Wrap64(total + delta) == total + delta - 0x1_0000_0000_0000_0000;
    } else {
      assert Wrap64(total + delta) == total + delta;
    }
  }

  function AddClamped(a: int, b: int): (r: int)
    requires IsInt64(a) && IsInt64(b)
    ensures IsInt64(r)
    ensures IsInt64(a + b) ==> r == a + b
    ensures a + b > MAX_INT64 ==> r == MAX_INT64
    ensures a + b < MIN_INT64 ==> r == MIN_INT64
  {
    if b > 0 && a > MAX_INT64 - b then MAX_INT64
    else if b < 0 && a < MIN_INT64 - b then MIN_INT64
    else a + b
  }
}
