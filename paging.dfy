/** Paginated listing calls: a first call, then "continue" calls that each pass the
    cursor of the page before, for as long as a page says more results follow.
    The remote side is a finite list of the pages it returns, in order. */
module Paging {

  /** One page of results: its items, whether more pages follow, and the cursor
      that fetches the next page. */
  datatype Page<T> = Page(items: seq<T>, hasMore: bool, cursor: string)

  /** `pages` is exactly what a drain receives: at least one page, every page but
      the last says more follow, and the last one says none do. */
  predicate Drains<T>(pages: seq<Page<T>>) {
    && |pages| > 0
    && (forall k :: 0 <= k < |pages| - 1 ==> pages[k].hasMore)
    && !pages[|pages| - 1].hasMore
  }

  /** While the page at `k` of a drained list says more follow, a next page exists. */
  lemma DrainsHasNext<T>(pages: seq<Page<T>>, k: nat)
    requires Drains(pages) && k < |pages| && pages[k].hasMore
    ensures k + 1 < |pages|
  {
  }

  /** Every item of every page, in page order and then in order within a page. */
  function Items<T>(pages: seq<Page<T>>): seq<T> {
    if pages == [] then []
    else Items(pages[..|pages| - 1]) + pages[|pages| - 1].items
  }

  /** An item is listed exactly when some page holds it. */
  lemma {:induction false} ItemsMember<T>(pages: seq<Page<T>>, x: T)
    ensures x in Items(pages) <==> exists k :: 0 <= k < |pages| && x in pages[k].items
  {
    if pages != [] {
      var n := |pages| - 1;
      var init := pages[..n];
      ItemsMember(init, x);
      assert Items(pages) == Items(init) + pages[n].items;
      if x in Items(init) {
        var k :| 0 <= k < |init| && x in init[k].items;
        assert x in pages[k].items;
      } else if exists k :: 0 <= k < |pages| && x in pages[k].items {
        var k :| 0 <= k < |pages| && x in pages[k].items;
        if k < n {
          assert x in init[k].items;
        }
      }
    }
  }

  lemma ItemsMembers<T>(pages: seq<Page<T>>)
    ensures forall x :: x in Items(pages) <==> exists k :: 0 <= k < |pages| && x in pages[k].items
  {
    forall x {
      ItemsMember(pages, x);
    }
  }

  /** The items of a list of pages are those of its first page followed by those of the rest. */
  lemma {:induction false} ItemsCons<T>(page: Page<T>, pages: seq<Page<T>>)
    ensures Items([page] + pages) == page.items + Items(pages)
  {
    if pages != [] {
      var init := pages[..|pages| - 1];
      assert ([page] + pages)[..|pages|] == [page] + init;
      ItemsCons(page, init);
    }
  }

  /** The items of the pages with repetitions removed. */
  function ItemSet<T>(pages: seq<Page<T>>): set<T> {
    set x | x in Items(pages)
  }

  /** The calls a drain of `pages` issues: `first`, then one `next(cursor)` per later
      page, carrying the cursor of the page before it. */
  function DrainCalls<T, C>(first: C, next: string -> C, pages: seq<Page<T>>): (r: seq<C>)
    ensures |r| == |pages|
    ensures |pages| > 0 ==> r[0] == first
    ensures forall k :: 1 <= k < |pages| ==> r[k] == next(pages[k - 1].cursor)
  {
    if pages == [] then []
    else if |pages| == 1 then [first]
    else DrainCalls(first, next, pages[..|pages| - 1]) + [next(pages[|pages| - 2].cursor)]
  }

  /** One more page of a drain adds its items and one continue call with the cursor
      of the page before it. */
  lemma DrainStep<T, C>(first: C, next: string -> C, pages: seq<Page<T>>, k: nat)
    requires k + 1 < |pages|
    ensures DrainCalls(first, next, pages[..k + 2]) == DrainCalls(first, next, pages[..k + 1]) + [next(pages[k].cursor)]
    ensures Items(pages[..k + 2]) == Items(pages[..k + 1]) + pages[k + 1].items
    ensures var next := pages[k + 1];
      ItemSet(pages[..k + 2]) == ItemSet(pages[..k + 1]) + set x | x in next.items
  {
    assert pages[..k + 2][..k + 1] == pages[..k + 1];
  }
}
