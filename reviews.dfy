/**
 * Review bundling as `get_user_reviews` does it: one shared, mutable buffer
 * of review texts (`self.user_reviews`), cleared and refilled for each
 * movie, and bundles `{'name', 'reviews'}` that all hold a reference to that
 * same buffer rather than a copy of it.
 *
 * The review scrape itself (`scrape_movie_reviews`, with its page loads,
 * clicks and pagination) is abstracted as a function from the review-page
 * URL to the texts it appends.
 */
module Reviews {
  import opened Optional
  import opened Records

  /** The path appended to a movie's URL to reach its reviews. */
  const ReviewPath: string := "reviews/by/activity/"

  /** The review-listing URL of a movie: its URL followed by the review path, no validation. */
  function ReviewUrl(url: string): (page: string)
    ensures |page| == |url| + |ReviewPath|
    ensures page[..|url|] == url && page[|url|..] == ReviewPath
  {
    url + ReviewPath
  }

  /** The review texts collected for the movie being processed: `self.user_reviews`. */
  class ReviewBuffer {
    var items: seq<string>

    constructor ()
      ensures items == []
    {
      items := [];
    }

    /** `list.clear()`, in place: every holder of this buffer sees it empty. */
    method Clear()
      modifies this
      ensures items == []
    {
      items := [];
    }

    /** The scrape's final step: each review text appended in page order. */
    method Append(reviews: seq<string>)
      modifies this
      ensures items == old(items) + reviews
    {
      var i := 0;
      while i < |reviews|
        invariant 0 <= i <= |reviews|
        invariant items == old(items) + reviews[..i]
      {
        items := items + [reviews[i]];
        assert reviews[..i + 1] == reviews[..i] + [reviews[i]];
        i := i + 1;
      }
      assert reviews[..|reviews|] == reviews;
    }
  }

  /** The dict appended to `movie_reviews`: a name and a reference to the buffer. */
  datatype Bundle = Bundle(name: string, reviews: ReviewBuffer)

  /** What a bundle shows when it is read: a name and the texts it lists. */
  datatype ReviewBundle = ReviewBundle(name: string, reviews: seq<string>)

  /** How far `get_user_reviews` gets: the number of movies before the first one whose URL is absent. */
  function Reachable(movies: seq<MovieRecord>): (k: nat)
    ensures k <= |movies|
  {
    if movies == [] || movies[0].url.None? then 0 else 1 + Reachable(movies[1..])
  }

  /** Every movie before `Reachable` has a URL, and the movie at `Reachable`, if any, has none. */
  lemma {:induction false} ReachableStops(movies: seq<MovieRecord>)
    ensures forall j :: 0 <= j < Reachable(movies) ==> movies[j].url.Some?
    ensures Reachable(movies) < |movies| ==> movies[Reachable(movies)].url.None?
    decreases |movies|
  {
    if movies != [] && movies[0].url.Some? {
      ReachableStops(movies[1..]);
      forall j | 0 < j <= Reachable(movies) && j < |movies|
        ensures movies[j] == movies[1..][j - 1]
      {
      }
    }
  }

  /** The loop gets through all the movies exactly when every one has a URL. */
  lemma ReachableAll(movies: seq<MovieRecord>)
    ensures Reachable(movies) == |movies| <==> forall j :: 0 <= j < |movies| ==> movies[j].url.Some?
  {
    ReachableStops(movies);
  }

  /** One bundle holding `buf` per movie, in movie order, up to the first movie without a URL. */
  function Bundles(movies: seq<MovieRecord>, buf: ReviewBuffer): (bs: seq<Bundle>)
    ensures |bs| == Reachable(movies)
  {
    if movies == [] || movies[0].url.None? then []
    else [Bundle(movies[0].name, buf)] + Bundles(movies[1..], buf)
  }

  /** The `j`th bundle carries the `j`th movie's name and holds `buf`. */
  lemma {:induction false} BundlesAt(movies: seq<MovieRecord>, buf: ReviewBuffer)
    ensures forall j :: 0 <= j < |Bundles(movies, buf)| ==> Bundles(movies, buf)[j] == Bundle(movies[j].name, buf)
    decreases |movies|
  {
    if movies != [] && movies[0].url.Some? {
      BundlesAt(movies[1..], buf);
      forall j | 0 < j < |Bundles(movies, buf)|
        ensures Bundles(movies, buf)[j] == Bundles(movies[1..], buf)[j - 1] && movies[j] == movies[1..][j - 1]
      {
      }
    }
  }

  /** Every one of `bundles` holds the buffer `buf`. */
  predicate AllHold(bundles: seq<Bundle>, buf: ReviewBuffer) {
    forall j :: 0 <= j < |bundles| ==> bundles[j].reviews == buf
  }

  /** Appending bundles that hold `buf` keeps every bundle holding it. */
  lemma AllHoldAppend(a: seq<Bundle>, b: seq<Bundle>, buf: ReviewBuffer)
    requires AllHold(a, buf) && AllHold(b, buf)
    ensures AllHold(a + b, buf)
  {
    forall j | 0 <= j < |a + b| ensures (a + b)[j].reviews == buf {
      if j >= |a| {
        assert (a + b)[j] == b[j - |a|];
      }
    }
  }

  /** The `name` of every element, in order: `movie['name']` for movies, the `'name'` key for bundles. */
  function NameList<T>(xs: seq<T>, name: T -> string): (names: seq<string>)
    ensures |names| == |xs|
    ensures forall j :: 0 <= j < |xs| ==> names[j] == name(xs[j])
  {
    if xs == [] then [] else [name(xs[0])] + NameList(xs[1..], name)
  }

  function MovieName(m: MovieRecord): string { m.name }

  function BundleName(b: Bundle): string { b.name }

  /** The names of stored bundles followed by the new bundles for `movies`. */
  lemma NamesBundles(a: seq<Bundle>, movies: seq<MovieRecord>, buf: ReviewBuffer)
    ensures NameList(a + Bundles(movies, buf), BundleName) == NameList(a, BundleName) + NameList(movies[..Reachable(movies)], MovieName)
  {
    BundlesAt(movies, buf);
    var lhs := NameList(a + Bundles(movies, buf), BundleName);
    var rhs := NameList(a, BundleName) + NameList(movies[..Reachable(movies)], MovieName);
    forall j | 0 <= j < |lhs| ensures lhs[j] == rhs[j] {
      if j >= |a| {
        assert (a + Bundles(movies, buf))[j] == Bundles(movies, buf)[j - |a|];
      }
    }
  }

  /** What bundles with these names show when they all hold one buffer containing `items`. */
  function Shared(names: seq<string>, items: seq<string>): (view: seq<ReviewBundle>)
    ensures |view| == |names|
    ensures forall j :: 0 <= j < |names| ==> view[j] == ReviewBundle(names[j], items)
  {
    if names == [] then [] else [ReviewBundle(names[0], items)] + Shared(names[1..], items)
  }

  /** What a sequence of bundles shows when read now. */
  ghost function View(bundles: seq<Bundle>): seq<ReviewBundle>
    reads set j | 0 <= j < |bundles| :: bundles[j].reviews
  {
    if bundles == [] then [] else [ReviewBundle(bundles[0].name, bundles[0].reviews.items)] + View(bundles[1..])
  }

  /** Bundles that all hold one buffer all show that buffer's current contents. */
  lemma {:induction false} ViewShared(bundles: seq<Bundle>, buf: ReviewBuffer)
    requires AllHold(bundles, buf)
    ensures View(bundles) == Shared(NameList(bundles, BundleName), buf.items)
    decreases |bundles|
  {
    if bundles != [] {
      ViewShared(bundles[1..], buf);
      assert NameList(bundles, BundleName)[1..] == NameList(bundles[1..], BundleName);
    }
  }

  /** The texts the scrape appends for a movie's review page. */
  function OwnReviews(movie: MovieRecord, scrape: string -> seq<string>): seq<string>
    requires movie.url.Some?
  {
    scrape(ReviewUrl(movie.url.value))
  }

  /**
   * The intended bundling: each bundle keeps a copy of its own movie's
   * reviews. Like the source it stops at the first movie without a URL.
   */
  function SnapshotBundles(movies: seq<MovieRecord>, scrape: string -> seq<string>): (bs: seq<ReviewBundle>)
    ensures |bs| == Reachable(movies)
    ensures forall j :: 0 <= j < |bs| ==>
      movies[j].url.Some? && bs[j] == ReviewBundle(movies[j].name, OwnReviews(movies[j], scrape))
  {
    if movies == [] || movies[0].url.None? then []
    else [ReviewBundle(movies[0].name, OwnReviews(movies[0], scrape))] + SnapshotBundles(movies[1..], scrape)
  }

  /** Every movie's scrape returns the same texts as the last movie's. */
  predicate SameAsLast(movies: seq<MovieRecord>, scrape: string -> seq<string>)
    requires movies != [] && forall j :: 0 <= j < |movies| ==> movies[j].url.Some?
  {
    forall j :: 0 <= j < |movies| ==> OwnReviews(movies[j], scrape) == OwnReviews(movies[|movies| - 1], scrape)
  }

  /**
   * The shared buffer shows every movie its own reviews exactly when every
   * movie's reviews equal the last movie's.
   */
  lemma {:induction false} SharedIsSnapshotIff(movies: seq<MovieRecord>, scrape: string -> seq<string>)
    requires movies != [] && forall j :: 0 <= j < |movies| ==> movies[j].url.Some?
    ensures Shared(NameList(movies, MovieName), OwnReviews(movies[|movies| - 1], scrape)) == SnapshotBundles(movies, scrape)
      <==> SameAsLast(movies, scrape)
  {
    var shared := Shared(NameList(movies, MovieName), OwnReviews(movies[|movies| - 1], scrape));
    var snap := SnapshotBundles(movies, scrape);
    ReachableAll(movies);
    if shared == snap {
      forall j | 0 <= j < |movies|
        ensures OwnReviews(movies[j], scrape) == OwnReviews(movies[|movies| - 1], scrape)
      {
        assert shared[j].reviews == snap[j].reviews;
      }
    }
  }

  /** For two movies whose scrapes differ, the shared buffer loses the first movie's reviews. */
  lemma ExampleAliasing(a: MovieRecord, b: MovieRecord, r1: string, r2: string)
    requires a.url == Some("/film/a/") && b.url == Some("/film/b/")
    ensures var scrape := (page: string) => if page == "/film/a/reviews/by/activity/" then [r1, r2] else [];
      && SnapshotBundles([a, b], scrape) == [ReviewBundle(a.name, [r1, r2]), ReviewBundle(b.name, [])]
      && Shared(NameList([a, b], MovieName), scrape(ReviewUrl(b.url.value))) == [ReviewBundle(a.name, []), ReviewBundle(b.name, [])]
  {
    assert ReviewUrl("/film/a/") == "/film/a/reviews/by/activity/";
    assert ReviewUrl("/film/b/") != "/film/a/reviews/by/activity/";
  }
}
