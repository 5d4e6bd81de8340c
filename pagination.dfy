/**
 * `apply_pagination` of utils.py: the page count and the slice of records
 * a list endpoint returns for a requested page.
 */
module Pagination {

  /** `math.ceil(n / d)` for a positive divisor: the least number of
      d-sized pieces that cover n, counted by taking d away at a time. */
  function CeilDiv(n: nat, d: nat): (q: nat)
    requires d > 0
    ensures n <= q * d
    ensures q > 0 ==> (q - 1) * d < n
    ensures q == 0 <==> n == 0
    decreases n
  {
    if n == 0 then 0
    else if n <= d then 1
    else
      var rest := CeilDiv(n - d, d);
      MulSucc(rest, d);
      rest + 1
  }

  lemma MulSucc(k: nat, d: nat)
    ensures (k + 1) * d == k * d + d
  {
  }

  function Min(a: nat, b: nat): nat
  {
    if a <= b then a else b
  }

  /** Python's `s[lo:hi]` for non-negative bounds: out-of-range bounds are
      clamped to the length. */
  function Slice<T>(s: seq<T>, lo: nat, hi: nat): (r: seq<T>)
    ensures |r| == if lo < Min(hi, |s|) then Min(hi, |s|) - lo else 0
    ensures forall i :: 0 <= i < |r| ==> r[i] == s[lo + i]
  {
    if lo < Min(hi, |s|) then s[lo..Min(hi, |s|)] else []
  }

  /** The page a list endpoint returns. */
  datatype Page<T> = Page(currentPage: nat, pagesCount: nat, records: seq<T>)

  /** The page count: the pieces of `perPage` records that cover them all,
      and at least one page even when there are no records. */
  function PagesCount(recordsCount: nat, perPage: nat): (n: nat)
    requires perPage > 0
    ensures n >= 1
    ensures recordsCount == 0 ==> n == 1
    ensures recordsCount <= n * perPage
    ensures recordsCount > 0 ==> (n - 1) * perPage < recordsCount
  {
    var pages := CeilDiv(recordsCount, perPage);
    if pages == 0 then 1 else pages
  }

  /** The records of one page: from (page - 1) * perPage on, at most
      perPage of them. */
  function PageRecords<T>(records: seq<T>, page: nat, perPage: nat): (r: seq<T>)
    requires page >= 1 && perPage > 0
    ensures |r| == if (page - 1) * perPage < |records|
                   then Min(perPage, |records| - (page - 1) * perPage) else 0
    ensures |r| <= perPage
    ensures r != [] ==> (page - 1) * perPage + |r| <= |records|
    ensures forall i :: 0 <= i < |r| ==> r[i] == records[(page - 1) * perPage + i]
    ensures (page - 1) * perPage < |records| ==> r != []
  {
    var start := (page - 1) * perPage;
    var end := page * perPage;
    assert end == start + perPage;
    Slice(records, start, end)
  }

  /** `apply_pagination`: a requested page beyond the last falls back to the
      first; the records are that page's slice. */
  function ApplyPagination<T>(currentPage: nat, perPage: nat, records: seq<T>): (p: Page<T>)
    requires perPage > 0 && currentPage >= 1
    ensures p.pagesCount == PagesCount(|records|, perPage)
    ensures p.currentPage == if currentPage > p.pagesCount then 1 else currentPage
    ensures 1 <= p.currentPage <= p.pagesCount
    ensures p.records == PageRecords(records, p.currentPage, perPage)
    ensures p.records == [] <==> records == []
  {
    var pagesCount := PagesCount(|records|, perPage);
    var page := if currentPage > pagesCount then 1 else currentPage;
    assert records != [] ==> (page - 1) * perPage < |records| by {
      MulMonotone(page - 1, pagesCount - 1, perPage);
    }
    Page(page, pagesCount, PageRecords(records, page, perPage))
  }

  lemma MulMonotone(a: nat, b: nat, c: nat)
    requires a <= b
    ensures a * c <= b * c
  {
  }

  // ---------------------------------------------------------------------
  // A reference definition: the records cut into consecutive pages

  /** The records cut into pieces of `perPage`, the last possibly shorter;
      no piece for no records. */
  function Chunks<T>(records: seq<T>, perPage: nat): (pages: seq<seq<T>>)
    requires perPage > 0
    decreases |records|
  {
    if records == [] then []
    else if |records| <= perPage then [records]
    else [records[..perPage]] + Chunks(records[perPage..], perPage)
  }

  /** There are as many pieces as `math.ceil(|records| / perPage)`. */
  lemma {:induction false} ChunksCount<T>(records: seq<T>, perPage: nat)
    requires perPage > 0
    ensures |Chunks(records, perPage)| == CeilDiv(|records|, perPage)
    decreases |records|
  {
    if |records| > perPage {
      ChunksCount(records[perPage..], perPage);
    }
  }

  /** Slicing after dropping a prefix is slicing further along. */
  lemma SliceShift<T>(records: seq<T>, d: nat, lo: nat, hi: nat)
    requires d <= |records|
    ensures Slice(records[d..], lo, hi) == Slice(records, lo + d, hi + d)
  {
    var left := Slice(records[d..], lo, hi);
    var right := Slice(records, lo + d, hi + d);
    assert |left| == |right|;
    forall i | 0 <= i < |left|
      ensures left[i] == right[i]
    {
    }
  }

  /** Piece k of the cut holds the records from k * perPage on. */
  lemma {:induction false} ChunkAt<T>(records: seq<T>, perPage: nat, k: nat)
    requires perPage > 0
    requires k < |Chunks(records, perPage)|
    ensures Chunks(records, perPage)[k] == Slice(records, k * perPage, (k + 1) * perPage)
    decreases |records|
  {
    var chunks := Chunks(records, perPage);
    if k == 0 {
      assert k * perPage == 0 && (k + 1) * perPage == perPage;
    } else {
      var rest := records[perPage..];
      assert chunks[k] == Chunks(rest, perPage)[k - 1];
      ChunkAt(rest, perPage, k - 1);
      var lo := (k - 1) * perPage;
      var hi := k * perPage;
      MulSucc(k - 1, perPage);
      MulSucc(k, perPage);
      assert lo + perPage == hi && hi + perPage == (k + 1) * perPage;
      SliceShift(records, perPage, lo, hi);
    }
  }

  /** Pagination agrees with the cut: there are as many pages as pieces,
      every page in range returns its piece, and no records (no piece) still
      make one page, which is empty whatever page is asked for. */
  lemma PaginationMatchesChunks<T>(perPage: nat, records: seq<T>, k: nat)
    requires perPage > 0 && 1 <= k
    ensures records != [] ==> PagesCount(|records|, perPage) == |Chunks(records, perPage)|
    ensures records == [] ==>
      && Chunks(records, perPage) == []
      && PagesCount(0, perPage) == 1
      && ApplyPagination(k, perPage, records) == Page(1, 1, [])
    ensures k <= |Chunks(records, perPage)| ==>
      ApplyPagination(k, perPage, records).records == Chunks(records, perPage)[k - 1]
  {
    if records == [] {
      assert PagesCount(0, perPage) == 1;
      assert PageRecords(records, 1, perPage) == [];
    } else {
      ChunksCount(records, perPage);
      if k <= |Chunks(records, perPage)| {
        ChunkAt(records, perPage, k - 1);
      }
    }
  }
}
