/** The paging arithmetic shared by every paginated handler of server.js and server.ts:
    the skip/limit window for a page number and the response envelope
    `{ medicines, totalPages, currentPage, totalItems }`. */
module Envelope {
  import opened Store

  /** `ITEMS_PER_PAGE`. */
  const ItemsPerPage: nat := 20

  /** `Math.ceil(total / ITEMS_PER_PAGE)` on a count: the fewest pages that hold `total` records. */
  function TotalPages(total: nat): (n: nat)
    ensures n * ItemsPerPage >= total
    ensures n > 0 ==> (n - 1) * ItemsPerPage < total
    ensures n == 0 <==> total == 0
  {
    (total + ItemsPerPage - 1) / ItemsPerPage
  }

  /** The JSON body of a successful paginated response. */
  datatype Page = Page(medicines: seq<Medicine>, totalPages: nat, currentPage: int, totalItems: nat)

  /** What a paginated handler sends: the envelope, or the 500 `{ error: 'Internal server error' }`. */
  datatype Response = Ok(body: Page) | InternalError

  /** `(page - 1) * ITEMS_PER_PAGE`. */
  function Skip(page: int): (skip: int)
    ensures skip < 0 <==> page < 1
    ensures skip % ItemsPerPage == 0
    ensures page >= 1 ==> skip / ItemsPerPage == page - 1
  {
    (page - 1) * ItemsPerPage
  }

  /** One paginated request over filter `f`: `find(f).skip(..).limit(20)` and `countDocuments(f)`
      read the same snapshot; a negative skip (a page below 1) is refused by the database and
      the handler answers 500. */
  function Respond(store: seq<Medicine>, f: Filter, page: int): (r: Response)
    requires Supported(f)
    ensures r.InternalError? <==> page < 1
    ensures r.Ok? ==> r.body.currentPage == page
    ensures r.Ok? ==> r.body.totalItems == |Find(store, f)|
    ensures r.Ok? ==> r.body.totalPages == TotalPages(|Find(store, f)|)
    ensures r.Ok? ==> |r.body.medicines| <= ItemsPerPage && |r.body.medicines| <= r.body.totalItems
    ensures r.Ok? ==> forall i :: 0 <= i < |r.body.medicines| ==>
                        (page - 1) * ItemsPerPage + i < |Find(store, f)| &&
                        r.body.medicines[i] == Find(store, f)[(page - 1) * ItemsPerPage + i]
    ensures r.Ok? && (page - 1) * ItemsPerPage < |Find(store, f)| ==>
              |r.body.medicines| == Min(ItemsPerPage, |Find(store, f)| - (page - 1) * ItemsPerPage)
  {
    if Skip(page) < 0 then InternalError
    else
      var total := CountDocuments(store, f);
      CountIsFindLength(store, f);
      Ok(Page(Window(Find(store, f), Skip(page), ItemsPerPage), TotalPages(total), page, total))
  }

  /** A page past the last one is empty and still reports the same totals as page 1. */
  lemma PastLastPage(store: seq<Medicine>, f: Filter, page: int)
    requires Supported(f)
    requires page >= 1
    requires page > Respond(store, f, 1).body.totalPages
    ensures Respond(store, f, page).Ok?
    ensures Respond(store, f, page).body.medicines == []
    ensures Respond(store, f, page).body.totalItems == Respond(store, f, 1).body.totalItems
    ensures Respond(store, f, page).body.totalPages == Respond(store, f, 1).body.totalPages
    ensures Respond(store, f, page).body.currentPage == page
  {
    var n := TotalPages(|Find(store, f)|);
    assert n * ItemsPerPage <= (page - 1) * ItemsPerPage;
  }

  /** The totals of an answered request do not depend on the page asked for. */
  lemma TotalsIndependentOfPage(store: seq<Medicine>, f: Filter, p: int, q: int)
    requires Supported(f)
    requires p >= 1 && q >= 1
    ensures Respond(store, f, p).body.totalItems == Respond(store, f, q).body.totalItems
    ensures Respond(store, f, p).body.totalPages == Respond(store, f, q).body.totalPages
  {
  }

  /** Pages `first`, `first + 1`, … of a sequence, `count` of them, one after another. */
  function Pages<T>(s: seq<T>, first: nat, count: nat): seq<T>
    decreases count
  {
    if count == 0 then [] else Window(s, first * ItemsPerPage, ItemsPerPage) + Pages(s, first + 1, count - 1)
  }

  lemma {:induction false} PagesAreSlice<T>(s: seq<T>, first: nat, count: nat)
    ensures Pages(s, first, count) == s[Min(first * ItemsPerPage, |s|)..Min((first + count) * ItemsPerPage, |s|)]
    decreases count
  {
    if count > 0 {
      PagesAreSlice(s, first + 1, count - 1);
      var k, e := first * ItemsPerPage, (first + count) * ItemsPerPage;
      assert (first + 1) * ItemsPerPage == k + 20 && e >= k + 20;
      var lo, mid, hi := Min(k, |s|), Min(k + 20, |s|), Min(e, |s|);
      assert Pages(s, first, count) == Window(s, k, 20) + s[mid..hi];
      WindowIsSlice(s, k, 20);
      SliceJoin(s, lo, mid, hi);
    }
  }

  /** A window is the slice between its clamped ends. */
  lemma WindowIsSlice<T>(s: seq<T>, skip: nat, limit: nat)
    ensures Window(s, skip, limit) == s[Min(skip, |s|)..Min(skip + limit, |s|)]
  {
  }

  /** Two adjacent slices make up the slice that spans both. */
  lemma SliceJoin<T>(s: seq<T>, lo: nat, mid: nat, hi: nat)
    requires lo <= mid <= hi <= |s|
    ensures s[lo..mid] + s[mid..hi] == s[lo..hi]
  {
  }

  /** Walking the pages 1 to `totalPages` visits every record of the filtered sequence once and in order. */
  lemma PagesCoverAll<T>(s: seq<T>)
    ensures Pages(s, 0, TotalPages(|s|)) == s
  {
    PagesAreSlice(s, 0, TotalPages(|s|));
  }

  /** The concatenated `medicines` of pages `page`, `page + 1`, … of a request, `count` of them. */
  function Listing(store: seq<Medicine>, f: Filter, page: int, count: nat): seq<Medicine>
    requires Supported(f)
    requires page >= 1
    decreases count
  {
    if count == 0 then [] else Respond(store, f, page).body.medicines + Listing(store, f, page + 1, count - 1)
  }

  lemma {:induction false} ListingIsPages(store: seq<Medicine>, f: Filter, page: int, count: nat)
    requires Supported(f)
    requires page >= 1
    ensures Listing(store, f, page, count) == Pages(Find(store, f), page - 1, count)
    decreases count
  {
    if count > 0 {
      ListingIsPages(store, f, page + 1, count - 1);
    }
  }

  /** Asking for pages 1 to `totalPages` in turn returns every selected record exactly once, in order. */
  lemma PagingVisitsEveryRecord(store: seq<Medicine>, f: Filter)
    requires Supported(f)
    ensures Listing(store, f, 1, Respond(store, f, 1).body.totalPages) == Find(store, f)
  {
    ListingIsPages(store, f, 1, TotalPages(|Find(store, f)|));
    PagesCoverAll(Find(store, f));
  }
}
