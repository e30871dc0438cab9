/** Page arithmetic shared by the listing pages: `Math.max(1, Math.ceil(n / size))` pages,
    the slice `(page - 1) * size .. page * size`, and Prev/Next buttons that keep the page
    between 1 and the page count. */
module Paging {
  import opened Strings
  import SessionStore

  /** The fewest pages of `size` items that hold `n` items, and at least one. */
  function PageCount(n: nat, size: nat): (r: nat)
    requires size >= 1
    ensures r >= 1
    ensures n <= r * size
    ensures r == 1 || (r - 1) * size < n
  {
    Max(1, (n + size - 1) / size)
  }

  /** `list.slice((page - 1) * size, page * size)`. */
  function PageItems<T>(list: seq<T>, page: nat, size: nat): (r: seq<T>)
    requires page >= 1
    ensures |r| <= size && (page - 1) * size + |r| <= Max(|list|, (page - 1) * size)
    ensures forall i :: 0 <= i < |r| ==> r[i] == list[(page - 1) * size + i]
  {
    var start := (page - 1) * size;
    SliceWindow(list, start, size);
    Slice(list, start, start + size)
  }

  lemma SliceWindow<T>(list: seq<T>, start: nat, size: nat)
    ensures |Slice(list, start, start + size)| <= size
    ensures start + |Slice(list, start, start + size)| <= Max(|list|, start)
  {
  }

  /** Every item is shown once: item k is on page k / size + 1, at place k % size, and
      that page is within the page count. */
  lemma ItemPage<T>(list: seq<T>, size: nat, k: nat)
    requires size >= 1 && k < |list|
    ensures 1 <= k / size + 1 <= PageCount(|list|, size)
    ensures k % size < |PageItems(list, k / size + 1, size)|
    ensures PageItems(list, k / size + 1, size)[k % size] == list[k]
  {
    var p, q := k / size, k % size;
    DivSplit(k, size);
    PageWithin(|list|, size, p);
    PageItemAt(list, size, p, q);
  }

  lemma DivSplit(k: nat, size: nat)
    requires size >= 1
    ensures (k / size) * size + k % size == k && k % size < size
  {
  }

  /** A page that starts before the end of the list is within the page count. */
  lemma PageWithin(n: nat, size: nat, p: nat)
    requires size >= 1 && p * size < n
    ensures p + 1 <= PageCount(n, size)
  {
    var r := PageCount(n, size);
    if r < p + 1 {
      MulLe(r, p, size);
      assert false;
    }
  }

  /** Place `q` of page `p + 1` is item `p * size + q`. */
  lemma PageItemAt<T>(list: seq<T>, size: nat, p: nat, q: nat)
    requires q < size && p * size + q < |list|
    ensures q < |PageItems(list, p + 1, size)|
    ensures PageItems(list, p + 1, size)[q] == list[p * size + q]
  {
    var start := p * size;
    assert (p + 1 - 1) * size == start;
    var items := PageItems(list, p + 1, size);
    assert items == Slice(list, start, start + size);
  }

  lemma MulLe(a: nat, b: nat, c: nat)
    requires a <= b
    ensures a * c <= b * c
  {
  }

  /** `Prev`: one page back, never below 1. */
  function PrevPage(page: int): (r: int)
    ensures r >= 1
    ensures page > 1 ==> r == page - 1
  {
    Max(1, page - 1)
  }

  /** `Next` on the pages that know their page count: one page on, never past the last. */
  function NextPage(page: int, pageCount: nat): (r: int)
    ensures r <= pageCount
    ensures page < pageCount ==> r == page + 1
  {
    Min(pageCount, page + 1)
  }

  /** Prev and Next keep a page within [1, pageCount]; Next moves exactly when the page
      is not the last, which is when the page disables it. */
  lemma PagesStayInRange(page: int, pageCount: nat)
    requires 1 <= page <= pageCount
    ensures 1 <= PrevPage(page) <= pageCount
    ensures 1 <= NextPage(page, pageCount) <= pageCount
    ensures page < pageCount ==> NextPage(page, pageCount) == page + 1
    ensures page >= pageCount ==> NextPage(page, pageCount) == page
  {
  }

  // ---------------------------------------------------------------- pages counted by the store

  /** The session list and the minutes page know only the total the store reports
      (`null` until it answers); their Next button is disabled when the total is known
      and the pages so far hold all of it, and it moves on without a bound. */
  predicate NextDisabled(page: int, size: nat, total: Option<int>) {
    total.Some? && page * size >= total.value
  }

  predicate PrevDisabled(page: int) { page <= 1 }

  /** With the total the store reports, Next is enabled exactly when the next page the
      store serves holds sessions. */
  lemma NextMeansMore(records: seq<SessionStore.Record>, page: int, size: nat)
    requires page >= 1 && 1 <= size <= SessionStore.MaxPageSize
    ensures !NextDisabled(page, size, Some(|records|))
        <==> SessionStore.GetPage(records, SessionStore.Number(page + 1), SessionStore.Number(size)).0 != []
  {
    SessionStore.GetPageStart(records, page + 1, size);
    assert (page + 1 - 1) * size == page * size;
    SessionStore.PageItems(records, page * size, size);
  }

  /** Previous is disabled exactly on page 1 and below; elsewhere it goes one page back. */
  lemma PrevStopsAtFirst(page: int)
    ensures PrevDisabled(page) <==> page <= 1
    ensures !PrevDisabled(page) ==> PrevPage(page) == page - 1
  {
  }
}
