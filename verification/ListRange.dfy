/** LRANGE over all 64-bit indices. */
module ListRange {
  import opened Decimal
  import opened Keyspace

  /** No index computation overflows 64 bits or leaves the list. */
  lemma {:induction false} IndicesAreSafe(list: seq<string>, start: int, end: int)
    requires list != [] && |list| <= INT64_MAX && InInt64(start) && InInt64(end)
    ensures InInt64(Absolute(start, |list|)) && InInt64(Absolute(end, |list|))
    ensures 0 <= Clamp(Absolute(start, |list|), |list|) < |list|
    ensures 0 <= Clamp(Absolute(end, |list|), |list|) < |list|
  {
  }

  /** In range, a negative index means the same as counting from the front. */
  lemma {:induction false} NegativeIndicesAgree(list: seq<string>, start: int, end: int)
    requires 0 <= start < |list| && 0 <= end < |list|
    ensures Slice(list, start, end) == Slice(list, start - |list|, end)
         == Slice(list, start, end - |list|) == Slice(list, start - |list|, end - |list|)
         == if start <= end then list[start..end + 1] else []
  {
  }

  /** LRANGE shows position `p`, told without clamping: it lies between the two ends, counted from the
      back when negative, except that a start past the list still shows its last element and an end
      before the list its first. */
  predicate Shows(p: nat, start: int, end: int, size: nat) {
    && ((if start < 0 then start <= p - size else start <= p) || p + 1 == size)
    && ((if end < 0 then p - size <= end else p <= end) || p == 0)
  }

  /** The shown elements among the first `count`. */
  function Shown(list: seq<string>, start: int, end: int, count: nat): seq<string>
    requires count <= |list|
  {
    if count == 0 then []
    else
      var last := if Shows(count - 1, start, end, |list|) then [list[count - 1]] else [];
      Shown(list, start, end, count - 1) + last
  }

  lemma {:induction false} ShowsBetween(p: nat, start: int, end: int, size: nat)
    requires p < size
    ensures Shows(p, start, end, size) <==> Clamp(Absolute(start, size), size) <= p <= Clamp(Absolute(end, size), size)
  {
  }

  lemma {:induction false} ShownPrefix(list: seq<string>, start: int, end: int, count: nat, a: nat, b: nat)
    requires count <= |list| && a < |list| && b < |list|
    requires a == Clamp(Absolute(start, |list|), |list|) && b == Clamp(Absolute(end, |list|), |list|)
    ensures Shown(list, start, end, count) ==
      if a < count && a <= b then list[a..if b + 1 < count then b + 1 else count] else []
  {
    hide Clamp, Absolute, Shows;
    if count == 0 {
    } else {
      ShowsBetween(count - 1, start, end, |list|);
      ShownPrefix(list, start, end, count - 1, a, b);
    }
  }

  /** The slice is exactly the shown elements, in order, for all indices. */
  lemma {:induction false} SliceIsShown(list: seq<string>, start: int, end: int)
    ensures Slice(list, start, end) == Shown(list, start, end, |list|)
  {
    if list == [] {
    } else {
      var a, b := Clamp(Absolute(start, |list|), |list|), Clamp(Absolute(end, |list|), |list|);
      ShownPrefix(list, start, end, |list|, a, b);
    }
  }

  /** The cut points at which two adjacent LRANGEs meet without overlap: a proper inner position,
      written from the front or from the back. */
  predicate ProperCut(k: int, size: int) {
    0 <= k < size - 1 || -size <= k < -1
  }

  /** `LRANGE 0 k` followed by `LRANGE k+1 -1` rebuilds a non-empty list exactly at a proper cut:
      everywhere else clamping makes the two ranges overlap. */
  lemma {:induction false} CutsRebuild(list: seq<string>, k: int)
    requires list != []
    ensures Slice(list, 0, k) + Slice(list, k + 1, -1) == list <==> ProperCut(k, |list|)
  {
    var left, right := Slice(list, 0, k), Slice(list, k + 1, -1);
    if ProperCut(k, |list|) {
      var cut := Absolute(k, |list|);
      assert left == list[..cut + 1] && right == list[cut + 1..];
    } else {
      assert |left| + |right| > |list|;
    }
  }
}
