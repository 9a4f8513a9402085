/**
  The pagination shared by the list handlers: a page number and a page size
  from the request become a LIMIT and an OFFSET, with the offset computed as
  `(PageID - 1) * PageSize` in Go's int32 arithmetic, which wraps around.
 */
module Paging {
  import opened Ints

  /** The `page_id` / `page_size` pair most list requests carry. */
  datatype PageRequest = PageRequest(pageId: int32, pageSize: int32)

  /** The `Limit` / `Offset` pair of the generated list queries. */
  datatype LimitOffset = LimitOffset(limit: int32, offset: int32)

  /** The parameters of a list query that filters on a key before paging. */
  datatype FilteredPage<+K> = FilteredPage(key: K, limit: int32, offset: int32)

  /** `(PageID - 1) * PageSize`, each operation in int32. */
  function Offset(pageId: int32, pageSize: int32): (r: int32)
    ensures MinInt32 <= (pageId - 1) * pageSize <= MaxInt32 ==> r == (pageId - 1) * pageSize
  {
    var prev := Wrap32(pageId - 1);
    WrapProduct(pageId - 1, pageSize);
    Wrap32(prev * pageSize)
  }

  /** The binding tags `required,min=1` on page_id and `required,min=minSize` on page_size. */
  predicate PageValid(q: PageRequest, minSize: int)
    requires minSize >= 1
  {
    q.pageId >= 1 && q.pageSize >= minSize
  }

  /** `Limit: req.PageSize, Offset: (req.PageID - 1) * req.PageSize`. */
  function PageParams(q: PageRequest): LimitOffset {
    LimitOffset(q.pageSize, Offset(q.pageId, q.pageSize))
  }

  /** Wrapping an operand before multiplying does not change the wrapped product. */
  lemma WrapProduct(a: int, b: int)
    ensures Wrap32(Wrap32(a) * b) == Wrap32(a * b)
  {
    var m := 0x1_0000_0000;
    var k := (a - Wrap32(a)) / m;
    assert a == Wrap32(a) + k * m;
    assert a * b == Wrap32(a) * b + (k * b) * m;
    ShiftWrap(Wrap32(a) * b, k * b);
  }

  /** Adding a multiple of 2^32 does not change the wrapped value. */
  lemma ShiftWrap(x: int, j: int)
    ensures Wrap32(x + j * 0x1_0000_0000) == Wrap32(x)
  {
    var m := 0x1_0000_0000;
    var y := x - MinInt32;
    assert (y + j * m) % m == y % m;
  }

  /** Multiplying by a non-negative size keeps the order of page numbers. */
  lemma MulMonotone(x: int, y: int, size: int)
    requires x <= y && size >= 0
    ensures x * size <= y * size
  {
    var d := y - x;
    assert y * size == x * size + d * size;
  }

  /**
    Without overflow, page p + 1 starts exactly where page p ends: the pages
    tile the result set with no gap and no overlap.
   */
  lemma NextPageFollows(pageId: int32, pageSize: int32)
    requires 1 <= pageId < MaxInt32 && pageSize >= 1
    requires pageId * pageSize <= MaxInt32
    ensures Offset(pageId + 1, pageSize) == Offset(pageId, pageSize) + pageSize
  {
    MulMonotone(0, pageId - 1, pageSize);
    MulMonotone(pageId - 1, pageId, pageSize);
    assert pageId * pageSize == (pageId - 1) * pageSize + pageSize;
  }

  /**
    Without overflow, two different pages select disjoint windows
    [Offset, Offset + PageSize) of the result set.
   */
  lemma PagesDisjoint(p: int32, q: int32, pageSize: int32)
    requires 1 <= p < q && pageSize >= 1
    requires q * pageSize <= MaxInt32
    ensures Offset(p, pageSize) + pageSize <= Offset(q, pageSize)
  {
    MulMonotone(0, p - 1, pageSize);
    MulMonotone(p - 1, q - 1, pageSize);
    MulMonotone(p, q - 1, pageSize);
    MulMonotone(q - 1, q, pageSize);
    assert (p - 1) * pageSize + pageSize == p * pageSize;
  }

  /**
    A large page number that passes `min=1` wraps the int32 offset to a
    negative value, which the database then refuses.
   */
  lemma LargePageWrapsOffset()
    ensures Offset(214748366, 10) == -2147483646
  {
  }
}
