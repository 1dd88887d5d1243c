/** Page-based pagination as the services build it: page index `from / size`
    (integer division), page size `size`, the page being the slice that starts at
    `page * size`. */
module Paging {

  function PageStart(from: int, size: int): (lo: int)
    requires from >= 0 && size > 0
    ensures 0 <= lo <= from < lo + size
    ensures from - lo == from % size
  {
    assert from == size * (from / size) + from % size;
    from / size * size
  }

  function Page<T>(s: seq<T>, from: int, size: int): (r: seq<T>)
    requires from >= 0 && size > 0
    ensures |r| <= size
    ensures forall i :: 0 <= i < |r| ==> PageStart(from, size) + i < |s| && r[i] == s[PageStart(from, size) + i]
    ensures |r| == if PageStart(from, size) >= |s| then 0
                   else if |s| - PageStart(from, size) < size then |s| - PageStart(from, size)
                   else size
  {
    var lo := PageStart(from, size);
    if lo >= |s| then []
    else if |s| - lo < size then s[lo..]
    else s[lo..lo + size]
  }

  /** An offset that is not a multiple of the page size is moved back to the start
      of the page that holds it. */
  lemma OffsetTruncated<T>(s: seq<T>, from: int, size: int)
    requires from >= 0 && size > 0
    ensures Page(s, from, size) == Page(s, PageStart(from, size), size)
  {
    var lo := PageStart(from, size);
    DivOfMultiple(from / size, size);
    assert PageStart(lo, size) == lo;
  }

  /** Asking with offset `j` returns a page that holds row `j`, at position `j % size`. */
  lemma RowOnItsPage<T>(s: seq<T>, j: int, size: int)
    requires 0 <= j < |s| && size > 0
    ensures j % size < |Page(s, j, size)|
    ensures Page(s, j, size)[j % size] == s[j]
  {
    assert PageStart(j, size) + j % size == j;
  }

  lemma DivOfMultiple(q: int, size: int)
    requires q >= 0 && size > 0
    ensures q * size / size == q
  {
    var n := q * size;
    var d := n / size;
    assert n == size * d + n % size;
    assert 0 <= n % size < size;
    if d < q {
      assert size * q - size * d == size * (q - d);
      MulAtLeast(size, q - d);
    } else if d > q {
      assert false;
    }
  }

  lemma {:induction false} MulAtLeast(a: int, k: int)
    requires a > 0 && k >= 1
    ensures a * k >= a
  {
    if k > 1 {
      MulAtLeast(a, k - 1);
      assert a * k == a * (k - 1) + a;
    }
  }
}
