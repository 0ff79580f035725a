/**
 * `getActiveMarkets`: count the active market addresses, plan one page
 * request per 50 of them, fetch every page and concatenate the pages in
 * page order. The contract read behind a page is a function parameter
 * `fetch(page, limit)` giving the detail records of that page.
 */
module Pagination {
  import opened Market

  const PageSize: nat := 50

  /** `Math.ceil(n / d)` on naturals: the fewest pages of size d that hold n items. */
  function CeilDiv(n: nat, d: nat): (r: nat)
    requires d > 0
    ensures r * d >= n
    ensures r == 0 || (r - 1) * d < n
  {
    (n + d - 1) / d
  }

  /** `Array.from({ length: pages }, (_, page) => page)`: the page numbers requested, in order. */
  function PageNumbers(pages: nat): (ps: seq<nat>)
    ensures |ps| == pages
    ensures forall i :: 0 <= i < pages ==> ps[i] == i
  {
    if pages == 0 then [] else PageNumbers(pages - 1) + [pages - 1]
  }

  /** `allMarkets.flat()`: the pages concatenated in order. */
  function Flatten<T>(pages: seq<seq<T>>): (r: seq<T>)
    ensures |r| == TotalLength(pages)
  {
    if pages == [] then [] else pages[0] + Flatten(pages[1..])
  }

  function TotalLength<T>(pages: seq<seq<T>>): nat
  {
    if pages == [] then 0 else |pages[0]| + TotalLength(pages[1..])
  }

  /** `getAllActiveMarketDetails(page, limit)`: fetch a page of details and convert each. */
  function PageEvents(fetch: (nat, nat) -> seq<MarketDetail>, page: nat, limit: nat): (es: seq<PredictionMarketEvent>)
    ensures |es| == |fetch(page, limit)|
    ensures forall i :: 0 <= i < |es| ==> es[i] == Convert(fetch(page, limit)[i])
  {
    ConvertAll(fetch(page, limit))
  }

  /** The number of page requests for `count` addresses. */
  function PageCount(count: nat): (pages: nat)
    ensures pages == 0 <==> count == 0
    ensures pages * PageSize >= count
    ensures pages > 0 ==> (pages - 1) * PageSize < count
  {
    if count == 0 then 0 else CeilDiv(count, PageSize)
  }

  /** `Promise.all(marketPromises)`: the events of each requested page, in request order. */
  function PageResults(fetch: (nat, nat) -> seq<MarketDetail>, requests: seq<nat>): (rs: seq<seq<PredictionMarketEvent>>)
    ensures |rs| == |requests|
    ensures forall i :: 0 <= i < |requests| ==> |rs[i]| == |fetch(requests[i], PageSize)|
  {
    seq(|requests|, i requires 0 <= i < |requests| => PageEvents(fetch, requests[i], PageSize))
  }

  /** `getActiveMarkets` for the list `addresses` the helper contract reports. */
  function ActiveMarkets(addresses: seq<string>, fetch: (nat, nat) -> seq<MarketDetail>): (es: seq<PredictionMarketEvent>)
    ensures |addresses| == 0 ==> es == []
    ensures |es| == TotalLength(PageResults(fetch, PageNumbers(PageCount(|addresses|))))
  {
    if |addresses| == 0 then []
    else Flatten(PageResults(fetch, PageNumbers(CeilDiv(|addresses|, PageSize))))
  }

  // ---------------------------------------------------------------------------
  // Properties
  // ---------------------------------------------------------------------------

  lemma {:induction false} FlattenAppend<T>(a: seq<seq<T>>, b: seq<seq<T>>)
    ensures Flatten(a + b) == Flatten(a) + Flatten(b)
  {
    if a == [] {
      assert a + b == b;
    } else {
      var c := a + b;
      assert c[0] == a[0] && c[1..] == a[1..] + b;
      calc {
        Flatten(c);
        a[0] + Flatten(a[1..] + b);
        { FlattenAppend(a[1..], b); }
        a[0] + (Flatten(a[1..]) + Flatten(b));
        (a[0] + Flatten(a[1..])) + Flatten(b);
      }
    }
  }

  lemma {:induction false} FlattenLength<T>(pages: seq<seq<T>>)
    ensures |Flatten(pages)| == TotalLength(pages)
  {
    if pages != [] {
      FlattenLength(pages[1..]);
    }
  }

  lemma FlattenSingle<T>(page: seq<T>)
    ensures Flatten([page]) == page
  {
    assert [page][1..] == [];
  }

  lemma {:induction false} TotalLengthAppend<T>(a: seq<seq<T>>, b: seq<seq<T>>)
    ensures TotalLength(a + b) == TotalLength(a) + TotalLength(b)
  {
    FlattenAppend(a, b);
    FlattenLength(a + b);
    FlattenLength(a);
    FlattenLength(b);
  }

  /** Where page k starts in the flattened result: the total length of the pages before it. */
  lemma FlattenAt<T>(pages: seq<seq<T>>, k: nat, j: nat)
    requires k < |pages| && j < |pages[k]|
    ensures TotalLength(pages[..k]) + j < |Flatten(pages)|
    ensures Flatten(pages)[TotalLength(pages[..k]) + j] == pages[k][j]
  {
    assert pages == pages[..k] + ([pages[k]] + pages[k + 1..]);
    FlattenAppend(pages[..k], [pages[k]] + pages[k + 1..]);
    FlattenAppend([pages[k]], pages[k + 1..]);
    FlattenSingle(pages[k]);
    FlattenLength(pages[..k]);
  }

  /** The first k pages, when all full, hold 50k items. */
  lemma {:induction false} FullPagesLength<T>(pages: seq<seq<T>>, k: nat)
    requires k <= |pages|
    requires forall q :: 0 <= q < k ==> |pages[q]| == PageSize
    ensures TotalLength(pages[..k]) == PageSize * k
  {
    if k > 0 {
      FullPagesLength(pages, k - 1);
      assert pages[..k] == pages[..k - 1] + [pages[k - 1]];
      TotalLengthAppend(pages[..k - 1], [pages[k - 1]]);
      assert [pages[k - 1]][1..] == [];
    }
  }

  // ---------------------------------------------------------------------------
  // The same properties for `getActiveMarkets`
  // ---------------------------------------------------------------------------

  lemma ConvertAllAppend(a: seq<MarketDetail>, b: seq<MarketDetail>)
    ensures ConvertAll(a + b) == ConvertAll(a) + ConvertAll(b)
  {
    var lhs := ConvertAll(a + b);
    var rhs := ConvertAll(a) + ConvertAll(b);
    forall i | 0 <= i < |a + b| ensures lhs[i] == rhs[i] {
      if i < |a| {
        assert (a + b)[i] == a[i];
      } else {
        assert (a + b)[i] == b[i - |a|];
      }
    }
  }

  /** Converting each page then concatenating equals concatenating the details then converting. */
  lemma {:induction false} ConvertAllFlatten(pages: seq<seq<MarketDetail>>)
    ensures Flatten(seq(|pages|, i requires 0 <= i < |pages| => ConvertAll(pages[i]))) == ConvertAll(Flatten(pages))
  {
    if pages != [] {
      var conv := seq(|pages|, i requires 0 <= i < |pages| => ConvertAll(pages[i]));
      var rest := pages[1..];
      ConvertAllFlatten(rest);
      assert conv[1..] == seq(|rest|, i requires 0 <= i < |rest| => ConvertAll(rest[i]));
      ConvertAllAppend(pages[0], Flatten(rest));
    }
  }

  /** With no active addresses `getActiveMarkets` returns the empty list. */
  lemma ActiveMarketsEmpty(fetch: (nat, nat) -> seq<MarketDetail>)
    ensures ActiveMarkets([], fetch) == []
  {
  }

  /** The events are those of pages 0 .. ceil(N/50)-1, requested in increasing order, concatenated in that order. */
  lemma ActiveMarketsInPageOrder(addresses: seq<string>, fetch: (nat, nat) -> seq<MarketDetail>)
    ensures var pages := PageCount(|addresses|);
      && ActiveMarkets(addresses, fetch) == Flatten(PageResults(fetch, PageNumbers(pages)))
      && forall p :: 0 <= p < pages ==> PageResults(fetch, PageNumbers(pages))[p] == ConvertAll(fetch(p, PageSize))
  {
  }

  /** Equivalently, the events are the conversion of all pages' details concatenated in page order. */
  lemma ActiveMarketsConvertsPages(addresses: seq<string>, fetch: (nat, nat) -> seq<MarketDetail>)
    ensures var pages := PageCount(|addresses|);
      ActiveMarkets(addresses, fetch) == ConvertAll(Flatten(seq(pages, p requires 0 <= p < pages => fetch(p, PageSize))))
  {
    var pages := PageCount(|addresses|);
    var details := seq(pages, p requires 0 <= p < pages => fetch(p, PageSize));
    ActiveMarketsInPageOrder(addresses, fetch);
    ConvertAllFlatten(details);
    var viaDetails := seq(|details|, i requires 0 <= i < |details| => ConvertAll(details[i]));
    assert PageResults(fetch, PageNumbers(pages)) == viaDetails;
  }

  /** Detail j of page p becomes event 50*p + j of the result when the earlier pages are full. */
  lemma ActiveMarketsPosition(addresses: seq<string>, fetch: (nat, nat) -> seq<MarketDetail>, p: nat, j: nat)
    requires p < PageCount(|addresses|)
    requires forall q :: 0 <= q < p ==> |fetch(q, PageSize)| == PageSize
    requires j < |fetch(p, PageSize)|
    ensures PageSize * p + j < |ActiveMarkets(addresses, fetch)|
    ensures ActiveMarkets(addresses, fetch)[PageSize * p + j] == Convert(fetch(p, PageSize)[j])
  {
    var requests := PageNumbers(PageCount(|addresses|));
    var pages := PageResults(fetch, requests);
    forall q | 0 <= q < p ensures |pages[q]| == PageSize {
      assert requests[q] == q;
    }
    assert requests[p] == p;
    assert |pages[p]| == |fetch(p, PageSize)|;
    PagedPosition(pages, p, j);
    assert pages[p] == PageEvents(fetch, p, PageSize);
  }

  /** Item j of page p sits at offset 50p + j of the flattened pages when the pages before p are full. */
  lemma PagedPosition<T>(pages: seq<seq<T>>, p: nat, j: nat)
    requires p < |pages| && j < |pages[p]|
    requires forall q :: 0 <= q < p ==> |pages[q]| == PageSize
    ensures PageSize * p + j < |Flatten(pages)|
    ensures Flatten(pages)[PageSize * p + j] == pages[p][j]
  {
    FullPagesLength(pages, p);
    FlattenAt(pages, p, j);
  }

  /** Pages of min(50, N - 50p) items each, ceil(N/50) of them, hold N items in all. */
  lemma {:induction false} PagedLength<T>(pages: seq<seq<T>>, n: nat)
    requires n > 0 && |pages| == PageCount(n)
    requires forall p :: 0 <= p < |pages| ==>
      |pages[p]| == if n - PageSize * p < PageSize then n - PageSize * p else PageSize
    ensures |Flatten(pages)| == n
  {
    var count := |pages|;
    FlattenLength(pages);
    assert pages == pages[..count - 1] + [pages[count - 1]];
    TotalLengthAppend(pages[..count - 1], [pages[count - 1]]);
    FullPagesLength(pages, count - 1);
    assert [pages[count - 1]][1..] == [];
  }

  /** When page p holds min(50, N - 50p) details, `getActiveMarkets` returns exactly N events. */
  lemma ActiveMarketsLength(addresses: seq<string>, fetch: (nat, nat) -> seq<MarketDetail>)
    requires forall p: nat :: p < PageCount(|addresses|) ==>
      |fetch(p, PageSize)| == if |addresses| - PageSize * p < PageSize then |addresses| - PageSize * p else PageSize
    ensures |ActiveMarkets(addresses, fetch)| == |addresses|
  {
    var n := |addresses|;
    if n > 0 {
      var requests := PageNumbers(PageCount(n));
      var pages := PageResults(fetch, requests);
      forall p | 0 <= p < |pages|
        ensures |pages[p]| == if n - PageSize * p < PageSize then n - PageSize * p else PageSize
      {
        assert requests[p] == p;
      }
      PagedLength(pages, n);
    }
  }

  /**
   * A contract that pages one list of details: page p is the slice from 50p,
   * at most 50 long.
   */
  function SlicePage(all: seq<MarketDetail>, page: nat, limit: nat): (ds: seq<MarketDetail>)
    ensures |ds| <= limit
    ensures page * limit >= |all| ==> ds == []
    ensures page * limit < |all| ==>
      ds == all[page * limit..if page * limit + limit < |all| then page * limit + limit else |all|]
  {
    var from := if page * limit < |all| then page * limit else |all|;
    var to := if from + limit < |all| then from + limit else |all|;
    all[from..to]
  }

  /** The first k slices concatenate to the first min(50k, N) details. */
  lemma {:induction false} SlicesFlatten(all: seq<MarketDetail>, k: nat)
    ensures var upto := if PageSize * k < |all| then PageSize * k else |all|;
      Flatten(seq(k, p requires 0 <= p < k => SlicePage(all, p, PageSize))) == all[..upto]
  {
    if k > 0 {
      SlicesFlatten(all, k - 1);
      var last := SlicePage(all, k - 1, PageSize);
      var prev := seq(k - 1, p requires 0 <= p < k - 1 => SlicePage(all, p, PageSize));
      assert seq(k, p requires 0 <= p < k => SlicePage(all, p, PageSize)) == prev + [last];
      FlattenAppend(prev, [last]);
      FlattenSingle(last);
    }
  }

  /** The ceil(N/50) slices of a list of N details concatenate back to the list. */
  lemma SlicesCoverAll(all: seq<MarketDetail>)
    ensures var pages := PageCount(|all|);
      Flatten(seq(pages, p requires 0 <= p < pages => SlicePage(all, p, PageSize))) == all
  {
    SlicesFlatten(all, PageCount(|all|));
    assert all[..|all|] == all;
  }

  /** Fetching every page of a contract that pages N details yields all N, converted, in order. */
  lemma ActiveMarketsOfSlicedList(addresses: seq<string>, all: seq<MarketDetail>, fetch: (nat, nat) -> seq<MarketDetail>)
    requires |all| == |addresses|
    requires forall p: nat, l: nat :: fetch(p, l) == SlicePage(all, p, l)
    ensures ActiveMarkets(addresses, fetch) == ConvertAll(all)
  {
    var pages := PageCount(|addresses|);
    var fetched := seq(pages, p requires 0 <= p < pages => fetch(p, PageSize));
    var sliced := seq(pages, p requires 0 <= p < pages => SlicePage(all, p, PageSize));
    calc {
      ActiveMarkets(addresses, fetch);
      { ActiveMarketsConvertsPages(addresses, fetch); }
      ConvertAll(Flatten(fetched));
      { assert fetched == sliced; SlicesCoverAll(all); }
      ConvertAll(all);
    }
  }
}
