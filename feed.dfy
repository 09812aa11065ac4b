/**
 * The dashboard's CV feed (src/pages/Dashboard.js): CVs arrive five to a
 * page, a page at a time, until the server returns an empty page. A load is
 * split at its `await`: BeginLoad runs up to the request, FinishLoad takes
 * the server's answer; events that arrive in between see `loading` set.
 */
module Feed {
  import opened Js
  import opened Document

  /** A CV as the server stores it, with its `_id`. */
  datatype StoredCv = StoredCv(id: string, cv: Cv)

  const PageLimit: nat := 5

  datatype PageRequest = PageRequest(page: nat, limit: nat)

  /** The answer to `GET /api/cv?page=..&limit=5`: the page's CVs, or a thrown request. */
  datatype PageResponse = PageData(items: seq<StoredCv>) | RequestFailed

  class CvFeed {
    var cvs: seq<StoredCv>
    var page: nat
    var loading: bool
    var hasMore: bool

    ghost predicate Valid()
      reads this
    {
      page >= 1 && (loading ==> hasMore)
    }

    constructor ()
      ensures Valid() && cvs == [] && page == 1 && !loading && hasMore
    {
      cvs := [];
      page := 1;
      loading := false;
      hasMore := true;
    }

    /** loadCVs up to its request: nothing at all while a load runs or once the feed is exhausted. */
    method BeginLoad() returns (request: Option<PageRequest>)
      requires Valid()
      modifies this`loading
      ensures Valid()
      ensures request.None? <==> old(loading) || !hasMore
      ensures request.None? ==> loading == old(loading)
      ensures request.Some? ==> request.value == PageRequest(page, PageLimit) && loading
    {
      if loading || !hasMore {
        return None;
      }
      loading := true;
      request := Some(PageRequest(page, PageLimit));
    }

    /**
     * loadCVs after its request: an empty page ends the feed, a non-empty one
     * is appended in order and moves to the next page, a failure changes
     * nothing; `loading` is cleared in every case.
     */
    method FinishLoad(r: PageResponse)
      requires Valid() && loading
      modifies this`cvs, this`page, this`loading, this`hasMore
      ensures Valid() && !loading
      ensures r.PageData? && r.items == [] ==> !hasMore && cvs == old(cvs) && page == old(page)
      ensures r.PageData? && r.items != [] ==> hasMore && cvs == old(cvs) + r.items && page == old(page) + 1
      ensures r.RequestFailed? ==> hasMore == old(hasMore) && cvs == old(cvs) && page == old(page)
    {
      match r {
        case PageData(items) =>
          if |items| == 0 {
            hasMore := false;
          } else {
            cvs := cvs + items;
            page := page + 1;
          }
        case RequestFailed =>
      }
      loading := false;
    }

    /** One uninterrupted loadCVs call, with the response it receives if it sends a request. */
    method LoadCVs(r: PageResponse) returns (request: Option<PageRequest>)
      requires Valid() && !loading
      modifies this`cvs, this`page, this`loading, this`hasMore
      ensures Valid() && !loading
      ensures request.None? <==> !old(hasMore)
      ensures request.None? ==> cvs == old(cvs) && page == old(page) && !hasMore
      ensures request.Some? ==> request.value == PageRequest(old(page), PageLimit)
      ensures request.Some? && r.PageData? && r.items != [] ==> cvs == old(cvs) + r.items && page == old(page) + 1 && hasMore
      ensures request.Some? && r.PageData? && r.items == [] ==> cvs == old(cvs) && page == old(page) && !hasMore
      ensures request.Some? && r.RequestFailed? ==> cvs == old(cvs) && page == old(page) && hasMore
    {
      request := BeginLoad();
      if request.Some? {
        FinishLoad(r);
      }
    }

    /**
     * The window's scroll listener: loadCVs runs only when the viewport's
     * bottom is within 50 pixels of the page's end, and then sends its
     * request unless a load is running or the feed is exhausted.
     */
    method HandleScroll(innerHeight: real, scrollY: real, scrollHeight: real) returns (request: Option<PageRequest>)
      requires Valid()
      modifies this`loading
      ensures Valid()
      ensures request.Some? <==> ScrollTriggers(innerHeight, scrollY, scrollHeight) && !old(loading) && hasMore
      ensures request.None? ==> loading == old(loading)
      ensures request.Some? ==> request.value == PageRequest(page, PageLimit) && loading
    {
      if ScrollTriggers(innerHeight, scrollY, scrollHeight) {
        request := BeginLoad();
      } else {
        request := None;
      }
    }
  }

  /** A second trigger while the first load awaits its answer sends no request. */
  method OverlappingTriggersSendOneRequest(feed: CvFeed) returns (first: Option<PageRequest>, second: Option<PageRequest>)
    requires feed.Valid() && !feed.loading && feed.hasMore
    modifies feed`loading
    ensures first == Some(PageRequest(feed.page, PageLimit)) && second.None?
  {
    first := feed.BeginLoad();
    second := feed.BeginLoad();
  }

  /** Once a page comes back empty, no later load sends a request. */
  method ExhaustedFeedStaysQuiet(feed: CvFeed, later: PageResponse) returns (request: Option<PageRequest>)
    requires feed.Valid() && feed.loading
    modifies feed`cvs, feed`page, feed`loading, feed`hasMore
    ensures request.None? && !feed.hasMore
  {
    feed.FinishLoad(PageData([]));
    request := feed.LoadCVs(later);
  }

  /** The infinite-scroll condition: the viewport's bottom is within 50 pixels of the page's end. */
  predicate ScrollTriggers(innerHeight: real, scrollY: real, scrollHeight: real) {
    innerHeight + scrollY + 50.0 >= scrollHeight
  }

  /** What the dashboard shows below its header. */
  datatype Home = NewUserLayouts | Gallery(cvs: seq<StoredCv>)

  function HomeView(cvs: seq<StoredCv>): (h: Home)
    ensures h == NewUserLayouts <==> |cvs| == 0
    ensures h.Gallery? ==> h.cvs == cvs
  {
    if |cvs| == 0 then NewUserLayouts else Gallery(cvs)
  }

  /**
   * Pages only ever append to the feed, so once the gallery is shown it stays,
   * showing every CV loaded before in the same order; the new-user layouts
   * show only while nothing at all has been loaded.
   */
  lemma GalleryStays(cvs: seq<StoredCv>, more: seq<StoredCv>)
    ensures HomeView(cvs).Gallery? ==> HomeView(cvs + more).Gallery? && HomeView(cvs + more).cvs[..|cvs|] == cvs
    ensures HomeView(cvs + more) == NewUserLayouts <==> cvs == [] && more == []
  {
    assert (cvs + more)[..|cvs|] == cvs;
  }
}
