# Letterboxd movie scraper: the record-building core in Dafny

`scraper.py` drives a browser through Letterboxd search results, catalogue
pages and review pages. Between the browser calls it does three things
with the text the browser returns, and those three things are modelled here:

1. **Title parsing** (`parse_and_store_movie_data`). A tile title such as
   `Movie B (2021) ★★★½` is matched against
   `^(.*?)\s\((\d{4})\)\s(★{1,5}½?)$`. On a match one record
   `{url, name, year, rating}` is appended to `movie_data`.
2. **The tile loop** in `extract_movie_data_from_catalogue`. For each tile it
   reads `href` and `data-original-title`, skips tiles whose title is absent
   or empty, and parses the rest in page order.
3. **Review bundling** (`get_user_reviews`). For each movie it clears the
   shared list `self.user_reviews`, builds the review URL
   `url + 'reviews/by/activity/'`, and lets the review scrape append texts to
   that list. It then appends `{'name': …, 'reviews': self.user_reviews}` to
   `movie_reviews`. That is the same list object every time.

Modules:

- `optional.dfy`: `Optional`, the `Option` type. `get_attribute` may return `None`.
- `title_pattern.dfy`: `TitlePattern`, written as pure functions and lemmas.
  - `Matches(s, t)` says declaratively when `re.match` succeeds on `s` with groups `t`.
  - `ParseTitle` is a splitter that reads the title from its end.
  - The lemmas prove the two agree in both directions and that a match is unique.
  - The source's pattern is a Unicode pattern; the model narrows its classes to ASCII. `\s` is space, tab, line feed, vertical tab, form feed or carriage return, and `\d` is `0`–`9`, so a no-break space as a separator, which Python accepts, is rejected here.
  - `.` excludes the line feed, and `$` also matches before one final line feed.
- `records.dfy`: `Records`, the movie record, the record one tile yields, and the records of a page of tiles.
- `reviews.dfy`: `Reviews` holds the review buffer, the bundles and what they show.
  - `ReviewBuffer` is a class whose `seq<string>` field is updated in place.
  - A `Bundle` holds a reference to a buffer.
  - `View` reads what stored bundles show now.
  - `SnapshotBundles` is the bundling with a copy per movie.
- `scraper.dfy`: `Scraper`, the `MovieScraper` class.
  - It has the accumulator fields of `__init__`.
  - `userReviews` is a `const` reference to the one buffer object.
  - The methods mirror the source: `ParseAndStoreMovieData`, the tile loop `StoreTiles` with its body `StoreTile`, and `GetUserReviews` with its body `ReviewMovie`.
  - `Valid()` says that every stored bundle holds `userReviews`. That is exactly the aliasing the source creates.

What the browser supplies becomes a parameter:

- a page's tiles are a `seq<Tile>` of optional `href` and title;
- the review scrape `scrape_movie_reviews` is a function `scrape` from the review-page URL to the texts it appends.

A movie without a URL (`get_attribute('href')` returned `None`) makes `None + str` raise `TypeError`. This happens right after the buffer was cleared. The model reports it as `ok == false`, with the movies before it already bundled.

Three consequences of the code that the model states outright:

- The year stays the four-character string that group 2 captured (scraper.py:82); it is never converted to a number.
- The `'No rating'` fallback at scraper.py:83 is dead code: group 3 requires at least one `★` (scraper.py:76), so a title without a star produces no record at all.
- All bundles share one list (scraper.py:139; see Findings).

## Model

| member | source | states |
|---|---|---|
| TitlePattern.Matches | scraper.py:76-77 | the declarative reading of `re.match`: `s` is a well-formed name, year and rating joined by the pattern's separators and parentheses, with at most one final line feed. It has no contract of its own; `TitlePattern.ParseIff`, `TitlePattern.MatchUnique` and `TitlePattern.ParseNoneIff` tie it to the splitter |
| TitlePattern.ParseTitle | scraper.py:76-77 | a successful split yields a name without a line feed, a four-digit year and a rating of one to five stars with an optional half, and leaves at least nine characters for the fixed suffix |
| TitlePattern.ParseSound | scraper.py:76-82 | whenever the splitter accepts a title, the title is the pattern's reading of the whole string: name, `\s`, `(`, year, `)`, `\s`, rating, and at most one final line feed |
| TitlePattern.ParseAssemble | scraper.py:76-82 | round trip: the splitter recovers the groups of every string the pattern can produce, for any choice of whitespace and with or without the final line feed |
| TitlePattern.ParseIff | scraper.py:76-79 | the pattern matches with groups `t` exactly when the splitter returns `t` |
| TitlePattern.MatchUnique | scraper.py:76 | a title matches in at most one way, so the lazy `.*?` has no choice to make |
| TitlePattern.ParseNoneIff | scraper.py:77-79 | the splitter fails exactly on the titles no reading of the pattern matches |
| TitlePattern.StarRunAfter | scraper.py:76 | a run of stars after a non-star begins right after it (the scan the splitter uses for group 3) |
| TitlePattern.RatingStartAfter | scraper.py:76 | in a string that ends in `\s` and a valid rating, the suffix the splitter takes as group 3 begins right after the `\s` |
| TitlePattern.RejectAt | scraper.py:76-79 | at the cut points the splitter finds, a malformed block or a line feed in the name means no match |
| TitlePattern.ExampleTwoYears | scraper.py:76 | `Foo (2019) (2020) ★` gives the name `Foo (2019)` |
| TitlePattern.ExampleTrailingNewline | scraper.py:76 | `A (2019) ★★★½` followed by a line feed matches, and the rating excludes the line feed |
| TitlePattern.ExampleSixStars | scraper.py:76 | six stars do not match |
| TitlePattern.ExampleNoStars | scraper.py:76 | a title with no star, or with only a half star, does not match |
| TitlePattern.ExampleTwoNewlines | scraper.py:76 | two final line feeds do not match |
| TitlePattern.ExampleNewlineInName | scraper.py:76 | a line feed inside the name prevents the match |
| TitlePattern.ExampleShortYear | scraper.py:76 | a two-digit year and a year with a letter do not match |
| TitlePattern.ExampleNoYear | scraper.py:76 | `Bad Title` does not match |
| Records.ParsedRecord | scraper.py:79-91 | the record `parse_and_store_movie_data` appends, with the `'No rating'` fallback. It has no contract of its own; `Records.ParsedRecordIff` states when it exists and what it holds |
| Records.TileRecord | scraper.py:65-69 | the record the loop stores for one tile, skipping a missing or empty title. It has no contract of its own; `Records.EmptyTitleNeverParses` and `Records.TileRecordOfTitle` carry its meaning |
| Records.TileRecords | scraper.py:64-69 | the records the tile loop appends for a page, in tile order. It has no contract of its own; `Records.TileRecordsAppend`, `Records.TileRecordsSnoc`, `Records.TileRecordsFrom` and `Records.TileRecordsLength` carry its meaning |
| Records.ParsedRecordIff | scraper.py:76-91 | a record is produced exactly when the title matches. It keeps the url as given and holds the three groups. The year is a four-digit string. The rating is never `No rating` |
| Records.EmptyTitleNeverParses | scraper.py:68 | the loop's truthiness guard skips only titles that could not have matched |
| Records.TileRecordsAppend | scraper.py:64-69 | the records of two runs of tiles are the records of each, in order |
| Records.TileRecordsSnoc | scraper.py:64-69 | one more tile adds at most its own record, at the end |
| Records.TileRecordsFrom | scraper.py:64-69 | a record is stored exactly when some tile yields it |
| Records.TileRecordsLength | scraper.py:64-69 | at most one record per tile, and exactly one each when every tile's title matches |
| Records.TileRecordsSingle | scraper.py:64-69 | a page of one tile stores that tile's record or nothing |
| Records.TileRecordsPair | scraper.py:64-69 | a page of two tiles stores their records in page order |
| Records.TileRecordOfTitle | scraper.py:65-69 | a tile whose title is a well-formed pattern instance yields the record of its groups and its `href` |
| Records.ExampleTileA | scraper.py:65-69 | the tile `Movie A (2019) ★★★★` yields its record |
| Records.ExampleTileB | scraper.py:65-69 | the tile `Movie B (2021) ★★★½` yields its record |
| Records.ExampleTileBad | scraper.py:65-69 | the tile `Bad Title` yields nothing |
| Records.ExamplePageA | scraper.py:64-69 | a catalogue page with the one tile `Movie A (2019) ★★★★` stores one record |
| Records.ExamplePageB | scraper.py:64-69 | the page `Movie B (2021) ★★★½`, `Bad Title` stores only Movie B |
| Reviews.ReviewUrl | scraper.py:134 | the review URL is the movie URL followed by `reviews/by/activity/`, with no validation |
| Reviews.ReviewBuffer.constructor | scraper.py:15 | a new buffer is empty |
| Reviews.ReviewBuffer.Clear | scraper.py:133 | `clear()` empties the buffer in place |
| Reviews.ReviewBuffer.Append | scraper.py:124-125 | the scrape appends each review text in page order to the end of the buffer |
| Reviews.OwnReviews | scraper.py:134-135 | the texts the scrape appends for one movie's review page. It has no contract of its own; `Scraper.MovieScraper.ReviewMovie` and `Reviews.SnapshotBundles` use it |
| Reviews.Reachable | scraper.py:131-134 | the number of movies the loop gets through before a movie without a URL |
| Reviews.ReachableStops | scraper.py:131-134 | every movie before that point has a URL, and the movie at that point has none |
| Reviews.ReachableAll | scraper.py:131-134 | the loop gets through every movie exactly when all of them have a URL |
| Reviews.Bundles | scraper.py:137-140 | one bundle per movie the loop reaches |
| Reviews.BundlesAt | scraper.py:137-140 | the `j`th bundle has the `j`th movie's name and holds the given buffer |
| Reviews.AllHoldAppend | scraper.py:139 | appending bundles that hold the buffer keeps every bundle holding it |
| Reviews.NameList | scraper.py:137-138 | the names of a sequence of movies or bundles, one per element, in order |
| Reviews.NamesBundles | scraper.py:137-138 | bundle names are the old names followed by the names of the movies reached, in input order |
| Reviews.Shared | scraper.py:139 | bundles that share one buffer all show its one content |
| Reviews.View | scraper.py:139 | what stored bundles show when read now: each bundle's name with its buffer's current contents. It has no contract of its own; `Reviews.ViewShared` and `Scraper.MovieScraper.ObservedShared` carry its meaning |
| Reviews.ViewShared | scraper.py:139 | bundles that all hold one buffer show, when read, that buffer's current contents, each under its own name |
| Reviews.SnapshotBundles | scraper.py:137-140 | corrected bundling: each bundle reached carries its own movie's name and a copy of that movie's scraped reviews |
| Reviews.SharedIsSnapshotIff | scraper.py:137-140 | the shared buffer shows every movie its own reviews exactly when every movie's reviews equal the last movie's |
| Reviews.ExampleAliasing | scraper.py:133-140 | two movies with reviews `[r1, r2]` and none: the snapshots differ, but the shared buffer shows both as empty |
| Scraper.MovieScraper.ObservedShared | scraper.py:139 | every bundle stored in the scraper shows the current contents of `user_reviews` |
| Scraper.MovieScraper.ObservedAfterRun | scraper.py:131-142 | after a run over movies that all have a URL, every stored bundle, including those from earlier calls, shows the last movie's reviews |
| Scraper.MovieScraper.constructor | scraper.py:10-16 | the four accumulators start empty, the review buffer is a new object, and no bundle exists yet |
| Scraper.MovieScraper.ParseAndStoreMovieData | scraper.py:73-91 | `movie_data` becomes its old value followed by the record the title yields, or stays unchanged when the title does not match |
| Scraper.MovieScraper.StoreTile | scraper.py:65-69 | one tile appends the record it yields, and a missing or empty title appends nothing |
| Scraper.MovieScraper.StoreTiles | scraper.py:64-69 | `movie_data` becomes its old value followed by the records of the tiles, in tile order |
| Scraper.MovieScraper.ReviewMovie | scraper.py:132-140 | clears the shared buffer. A movie without a URL then fails, leaving the buffer empty and storing nothing. Otherwise the buffer holds exactly that movie's scraped reviews and one bundle that holds the buffer is appended |
| Scraper.MovieScraper.GetUserReviews | scraper.py:129-142 | fails exactly when some movie lacks a URL. `movie_reviews` keeps its old bundles and gains one per movie reached, in input order, all holding the shared buffer. The buffer ends empty after a failure, otherwise with the last movie's reviews. On success the result equals `movie_reviews` |
| Scraper.AliasingDemo | scraper.py:131-140 | movies A (reviews `r1`, `r2`) and B (no reviews): afterwards both bundles show no reviews |
| Scraper.AccumulationDemo | scraper.py:129-142 | two calls with one movie each keep both bundles, and the first shows the second call's reviews |

## Left out

- Browser setup and shutdown (`setup_driver`, `driver.quit`) are browser plumbing with no logic of their own.
- `load_paginated_content` is a click-and-wait loop whose outcome depends entirely on the browser's DOM and `WebDriverWait`.
- `scrape_catalogues_from_search`, `scroll_to_load_content`, and the page load, `window.stop` and element lookup in `extract_movie_data_from_catalogue` are navigation, sleeps and scrolling. What they produce enters the model as the `tiles` parameter of `StoreTiles`.
- `load_paginated_content_for_movies` is also left out. Its `while next_button.is_enabled()` loop ends only when the bare `except` swallows a browser exception, and that behaviour is not visible in the code.
- `scrape_movie_reviews`, with its click expansion and DOM text reads, is the abstract `scrape` function. The loop at scraper.py:124-125 appends one page's texts, and the pagination at scraper.py:127 calls `scrape_movie_reviews` again, so that loop runs once per review page. In the model one `ReviewBuffer.Append` call adds everything `scrape` yields over all pages of a movie.
- `find_tamil_movies`, `time.sleep`, the `print` calls and the `__main__` block are orchestration and side effects with no logic.
- `TitlePattern.ParseTitle`: Python's Unicode `\s` and `\d` classes are restricted to their ASCII members.
- `catalogueToScrape` and the constructor arguments are only initialised. The code that fills and reads them is navigation and is left out.
- `Scraper.MovieScraper.GetUserReviews`: Python returns the list object `self.movie_reviews` itself. The model returns its value, and on failure the result is unspecified because the source raises instead of returning.

## Findings

| source | as written | input that shows it | evidently intended | confidence | as-written member | corrected member |
|---|---|---|---|---|---|---|
| scraper.py:137-140 | each bundle stores `self.user_reviews`, the one list that the next iteration clears and refills | two movies whose review pages hold `[r1, r2]` and `[]`: both bundles end up showing `[]` | each bundle keeps a copy of its own movie's reviews, e.g. `list(self.user_reviews)` | high, not executed | Scraper.MovieScraper.GetUserReviews, Reviews.ExampleAliasing, Scraper.AliasingDemo | Reviews.SnapshotBundles, Reviews.SharedIsSnapshotIff |
