/**
 * The pagination arithmetic both list pages share: the page count
 * `Math.ceil(n / size)`, the offset `(selected * size) % n` computed when a
 * page link is clicked, and the displayed slice `list.slice(offset, offset + size)`.
 */
module Paging {

  /** A JavaScript offset: a non-negative integer, or `NaN` (the result of `x % 0`). */
  datatype Offset = At(index: nat) | NotANumber

  function Min(a: int, b: int): int { if a <= b then a else b }

  /** `Math.ceil(total / size)`: the least page count whose pages hold `total` items. */
  function PageCount(total: nat, size: nat): (r: nat)
    requires size > 0
    ensures r * size >= total
    ensures total > 0 ==> (r - 1) * size < total
    ensures total == 0 <==> r == 0
  {
    (total + size - 1) / size
  }

  /** `(selected * size) % total`; `NaN` when `total` is zero. */
  function PageOffset(selected: nat, size: nat, total: nat): (r: Offset)
    ensures r.At? <==> total > 0
    ensures r.At? ==> r.index < total
  {
    if total == 0 then NotANumber else At((selected * size) % total)
  }

  /** For a page link that the page count lists, the modulo is the identity: page `p` starts at `p * size`. */
  lemma OffsetOfListedPage(selected: nat, size: nat, total: nat)
    requires size > 0
    requires selected < PageCount(total, size)
    ensures PageOffset(selected, size, total) == At(selected * size)
  {
    var pc := PageCount(total, size);
    MulLeq(selected, pc - 1, size);
    assert selected * size < total;
    ModSmall(selected * size, total);
  }

  lemma MulLeq(a: nat, b: nat, c: nat)
    requires a <= b
    ensures a * c <= b * c
  {
  }

  lemma ModSmall(x: nat, m: nat)
    requires x < m
    ensures x % m == x
  {
  }

  /**
   * `items.slice(offset, offset + size)` with JavaScript's clamping: both ends
   * are cut to the length, and a `NaN` offset reads as zero at both ends.
   */
  function Page<T>(items: seq<T>, offset: Offset, size: nat): (r: seq<T>)
    ensures |r| <= size
    ensures offset.NotANumber? ==> r == []
    ensures offset.At? && offset.index >= |items| ==> r == []
    ensures offset.At? && offset.index < |items| ==> |r| == Min(size, |items| - offset.index)
    ensures offset.At? && r != [] ==> offset.index + |r| <= |items|
    ensures offset.At? ==> forall k :: 0 <= k < |r| ==> r[k] == items[offset.index + k]
  {
    match offset
    case NotANumber => []
    case At(o) =>
      var start := Min(o, |items|);
      var end := Min(o + size, |items|);
      items[start..end]
  }

  /**
   * Paging over the list that is actually displayed: item `i` of `items` is
   * shown at position `i % size` of page `i / size`, and that page is one the
   * page count lists.
   */
  lemma {:induction false} EveryItemOnItsPage<T>(items: seq<T>, size: nat, i: nat)
    requires size > 0
    requires i < |items|
    ensures i / size < PageCount(|items|, size)
    ensures var page := Page(items, PageOffset(i / size, size, |items|), size);
            i % size < |page| && page[i % size] == items[i]
  {
    var p := i / size;
    var pc := PageCount(|items|, size);
    assert p * size + i % size == i;
    assert p * size <= i;
    if p >= pc {
      MulLeq(pc, p, size);
      assert false;
    }
    OffsetOfListedPage(p, size, |items|);
  }

  /**
   * An offset taken from a longer list than the one sliced can fall past the
   * end of the sliced list: with more than one page of items but at most one
   * page of them kept, the second page link is listed and shows nothing.
   */
  lemma SecondPageOfShortList<T>(kept: seq<T>, size: nat, total: nat)
    requires size > 0
    requires 0 < |kept| <= size < total
    ensures 1 < PageCount(total, size)
    ensures PageOffset(1, size, total) == At(size)
    ensures Page(kept, PageOffset(1, size, total), size) == []
  {
    MorePagesThanOne(size, total);
    assert 1 * size == size;
    ModSmall(size, total);
  }

  lemma MorePagesThanOne(size: nat, total: nat)
    requires 0 < size < total
    ensures 1 < PageCount(total, size)
  {
  }
}
