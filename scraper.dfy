/**
 * The scraper object: its accumulator fields and the operations that
 * update them in place. Browser work (page loads, waits, scrolling,
 * pagination) is outside the model; what the browser supplies arrives as
 * plain parameters: the tiles of a page and the review texts per page.
 */
module Scraper {
  import opened Optional
  import opened TitlePattern
  import opened Records
  import opened Reviews

  class MovieScraper {
    const baseUrl: string
    const listsToSearch: int
    /** URLs of catalogues to scrape. */
    var catalogueToScrape: seq<string>
    /** Every movie record scraped so far. */
    var movieData: seq<MovieRecord>
    /** The review buffer for the movie in progress; never replaced, only cleared. */
    const userReviews: ReviewBuffer
    /** The bundles collected by every call of `GetUserReviews`, never reset. */
    var movieReviews: seq<Bundle>

    /** Every bundle ever stored holds the one shared review buffer. */
    ghost predicate Valid()
      reads this`movieReviews
    {
      AllHold(movieReviews, userReviews)
    }

    /** What the stored bundles show when read now. */
    ghost function Observed(): seq<ReviewBundle>
      reads this, set j | 0 <= j < |movieReviews| :: movieReviews[j].reviews
    {
      View(movieReviews)
    }

    /** Because every bundle holds the one buffer, every bundle shows its current contents. */
    lemma ObservedShared()
      requires Valid()
      ensures Observed() == Shared(NameList(movieReviews, BundleName), userReviews.items)
    {
      ViewShared(movieReviews, userReviews);
    }

    /**
     * After a run over movies that all have a URL, every stored bundle, old
     * or new, shows the reviews scraped for the last movie of the run.
     */
    lemma {:induction false} ObservedAfterRun(before: seq<Bundle>, movies: seq<MovieRecord>, scrape: string -> seq<string>)
      requires Valid() && movies != []
      requires forall j :: 0 <= j < |movies| ==> movies[j].url.Some?
      requires movieReviews == before + Bundles(movies, userReviews)
      requires userReviews.items == OwnReviews(movies[|movies| - 1], scrape)
      ensures Observed() == Shared(NameList(before, BundleName) + NameList(movies, MovieName), OwnReviews(movies[|movies| - 1], scrape))
    {
      ObservedShared();
      NamesBundles(before, movies, userReviews);
      ReachableAll(movies);
      assert movies[..Reachable(movies)] == movies;
    }

    constructor (baseUrl: string, listsToSearch: int)
      ensures this.baseUrl == baseUrl && this.listsToSearch == listsToSearch
      ensures catalogueToScrape == [] && movieData == [] && movieReviews == []
      ensures fresh(userReviews) && userReviews.items == []
      ensures Valid()
    {
      this.baseUrl := baseUrl;
      this.listsToSearch := listsToSearch;
      catalogueToScrape := [];
      movieData := [];
      userReviews := new ReviewBuffer();
      movieReviews := [];
    }

    /** Appends the record of a matching title, and nothing otherwise. */
    method ParseAndStoreMovieData(movieInfo: string, movieUrl: Option<string>)
      modifies this`movieData
      ensures movieData == old(movieData) + Stored(ParsedRecord(movieInfo, movieUrl))
    {
      var parsed := ParseTitle(movieInfo);
      if parsed.Some? {
        var t := parsed.value;
        var rating := if t.rating != "" then t.rating else NoRating;
        movieData := movieData + [MovieRecord(movieUrl, t.name, t.year, rating)];
      }
    }

    /** The body of the tile loop: read the two attributes, and parse the title when it is present and non-empty. */
    method StoreTile(tile: Tile)
      modifies this`movieData
      ensures movieData == old(movieData) + Stored(TileRecord(tile))
    {
      var movieUrl := tile.href;
      var movieInfo := tile.title;
      if movieInfo.Some? && movieInfo.value != "" {
        ParseAndStoreMovieData(movieInfo.value, movieUrl);
      }
    }

    /** The tile loop of one catalogue page: tiles without a title are skipped, the rest parsed in order. */
    method StoreTiles(tiles: seq<Tile>)
      modifies this`movieData
      ensures movieData == old(movieData) + TileRecords(tiles)
    {
      var i := 0;
      while i < |tiles|
        invariant 0 <= i <= |tiles|
        invariant movieData == old(movieData) + TileRecords(tiles[..i])
      {
        StoreTile(tiles[i]);
        TileRecordsSnoc(tiles, i);
        i := i + 1;
      }
      assert tiles[..|tiles|] == tiles;
    }

    /**
     * One pass of the review loop: clear the shared buffer, build the review
     * URL, let the scrape append that page's texts, and store a bundle that
     * holds the buffer itself. A movie without a URL raises the `TypeError`
     * of `None + str` right after the clear: `ok` is then false and nothing
     * is stored.
     */
    method ReviewMovie(movie: MovieRecord, scrape: string -> seq<string>)
      returns (ok: bool)
      requires Valid()
      modifies this`movieReviews, userReviews
      ensures Valid()
      ensures ok <==> movie.url.Some?
      ensures ok ==> movieReviews == old(movieReviews) + [Bundle(movie.name, userReviews)]
      ensures ok ==> userReviews.items == OwnReviews(movie, scrape)
      ensures !ok ==> movieReviews == old(movieReviews) && userReviews.items == []
    {
      userReviews.Clear();
      if movie.url.None? {
        return false;
      }
      var reviewPage := ReviewUrl(movie.url.value);
      userReviews.Append(scrape(reviewPage));
      movieReviews := movieReviews + [Bundle(movie.name, userReviews)];
      AllHoldAppend(old(movieReviews), [Bundle(movie.name, userReviews)], userReviews);
      ok := true;
    }

    /**
     * `get_user_reviews`: one pass of `ReviewMovie` per movie, in order,
     * then the list of every bundle stored so far. The first movie without
     * a URL ends the call with `ok` false, the movies before it bundled.
     */
    method GetUserReviews(movies: seq<MovieRecord>, scrape: string -> seq<string>)
      returns (ok: bool, result: seq<Bundle>)
      requires Valid()
      modifies this`movieReviews, userReviews
      ensures Valid()
      ensures ok <==> forall j :: 0 <= j < |movies| ==> movies[j].url.Some?
      ensures movieReviews == old(movieReviews) + Bundles(movies, userReviews)
      ensures ok ==> result == movieReviews
      ensures !ok ==> userReviews.items == []
      ensures ok && movies == [] ==> userReviews.items == old(userReviews.items)
      ensures ok && movies != [] ==> userReviews.items == OwnReviews(movies[|movies| - 1], scrape)
    {
      ok, result := true, [];
      var i := 0;
      while i < |movies|
        invariant 0 <= i <= |movies|
        invariant Reachable(movies) == i + Reachable(movies[i..])
        invariant Valid()
        invariant old(movieReviews) + Bundles(movies, userReviews) == movieReviews + Bundles(movies[i..], userReviews)
        invariant i > 0 ==> movies[i - 1].url.Some? && userReviews.items == OwnReviews(movies[i - 1], scrape)
        invariant i == 0 ==> userReviews.items == old(userReviews.items)
      {
        ghost var before := movieReviews;
        var reviewed := ReviewMovie(movies[i], scrape);
        if !reviewed {
          ok := false;
          ReachableAll(movies);
          return;
        }
        ghost var rest := movies[i + 1..];
        assert movies[i..][1..] == rest;
        assert before + ([Bundle(movies[i].name, userReviews)] + Bundles(rest, userReviews))
            == (before + [Bundle(movies[i].name, userReviews)]) + Bundles(rest, userReviews);
        i := i + 1;
      }
      ReachableAll(movies);
      result := movieReviews;
    }
  }

  /**
   * Two movies whose review pages hold two texts and none: afterwards both
   * bundles show no reviews, the first having lost its own two.
   */
  method AliasingDemo() returns (first: seq<string>, second: seq<string>)
    ensures first == [] && second == []
  {
    var scraper := new MovieScraper("https://letterboxd.com/search/lists/tamil/", 1);
    var a := MovieRecord(Some("https://letterboxd.com/film/a/"), "Movie A", "2019", "★★★★");
    var b := MovieRecord(Some("https://letterboxd.com/film/b/"), "Movie B", "2021", "★★★½");
    var pageA := ReviewUrl("https://letterboxd.com/film/a/");
    var scrape := (page: string) => if page == pageA then ["r1", "r2"] else [];
    var ok, result := scraper.GetUserReviews([a, b], scrape);
    first := scraper.movieReviews[0].reviews.items;
    second := scraper.movieReviews[1].reviews.items;
  }

  /**
   * Two calls, one movie each: the second call's reviews show in the first
   * call's bundle too, since the bundles are never reset and share the buffer.
   */
  method AccumulationDemo() returns (names: seq<string>, first: seq<string>)
    ensures names == ["Movie A", "Movie B"] && first == ["b1"]
  {
    var scraper := new MovieScraper("https://letterboxd.com/search/lists/tamil/", 1);
    var a := MovieRecord(Some("https://letterboxd.com/film/a/"), "Movie A", "2019", "★★★★");
    var b := MovieRecord(Some("https://letterboxd.com/film/b/"), "Movie B", "2021", "★★★½");
    var pageA := ReviewUrl("https://letterboxd.com/film/a/");
    var scrape := (page: string) => if page == pageA then ["a1", "a2"] else ["b1"];
    var ok, result := scraper.GetUserReviews([a], scrape);
    ok, result := scraper.GetUserReviews([b], scrape);
    names := [scraper.movieReviews[0].name, scraper.movieReviews[1].name];
    first := scraper.movieReviews[0].reviews.items;
  }
}
