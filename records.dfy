/**
 * Movie records built from catalogue tiles: the dict that
 * `parse_and_store_movie_data` appends, and the sequence of them that the
 * tile loop of `extract_movie_data_from_catalogue` produces for one page.
 */
module Records {
  import opened Optional
  import opened TitlePattern

  /** One rendered tile: its `href` and `data-original-title` attributes, either of which may be absent. */
  datatype Tile = Tile(href: Option<string>, title: Option<string>)

  /** The dict `{url, name, year, rating}`; the year stays the four-character string. */
  datatype MovieRecord = MovieRecord(url: Option<string>, name: string, year: string, rating: string)

  const NoRating: string := "No rating"

  /** The record `parse_and_store_movie_data(info, url)` appends, or None when it appends nothing. */
  function ParsedRecord(info: string, url: Option<string>): Option<MovieRecord> {
    match ParseTitle(info)
    case None => None
    case Some(t) => Some(MovieRecord(url, t.name, t.year, if t.rating != "" then t.rating else NoRating))
  }

  /** The record the tile loop stores for one tile: tiles without a (non-empty) title are skipped. */
  function TileRecord(tile: Tile): Option<MovieRecord> {
    if tile.title.None? || tile.title.value == "" then None
    else ParsedRecord(tile.title.value, tile.href)
  }

  /** What one call appends to `movie_data`: the record, or nothing. */
  function Stored(r: Option<MovieRecord>): seq<MovieRecord> {
    match r
    case None => []
    case Some(m) => [m]
  }

  /** The records the tile loop appends for a page of tiles, in tile order. */
  function TileRecords(tiles: seq<Tile>): seq<MovieRecord> {
    if tiles == [] then [] else Stored(TileRecord(tiles[0])) + TileRecords(tiles[1..])
  }

  /**
   * A record is produced exactly when the title matches the pattern; it then
   * keeps the url as given, holds the pattern's three groups, a four-digit
   * year string and a rating of one to five stars with an optional half, so
   * the "No rating" fallback never appears.
   */
  lemma ParsedRecordIff(info: string, url: Option<string>)
    ensures ParsedRecord(info, url).Some? <==> exists t :: Matches(info, t)
    ensures ParsedRecord(info, url).Some? ==>
      var r := ParsedRecord(info, url).value;
      && r.url == url
      && Matches(info, Title(r.name, r.year, r.rating))
      && IsYear(r.year) && IsRating(r.rating) && r.rating != NoRating
  {
    ParseNoneIff(info);
    if ParseTitle(info).Some? {
      ParseSound(info);
    }
  }

  /** An empty title would not have matched anyway: the loop's guard skips nothing the parser keeps. */
  lemma EmptyTitleNeverParses(url: Option<string>)
    ensures ParsedRecord("", url) == None
    ensures forall t :: !Matches("", t)
  {
    ParseNoneIff("");
  }

  /** The records of two runs of tiles are the records of each, in order. */
  lemma {:induction false} TileRecordsAppend(a: seq<Tile>, b: seq<Tile>)
    ensures TileRecords(a + b) == TileRecords(a) + TileRecords(b)
    decreases |a|
  {
    if a == [] {
      assert a + b == b;
    } else {
      assert (a + b)[1..] == a[1..] + b;
      TileRecordsAppend(a[1..], b);
    }
  }

  /** Extending a run of tiles by one appends that tile's record, if any. */
  lemma TileRecordsSnoc(tiles: seq<Tile>, i: nat)
    requires i < |tiles|
    ensures TileRecords(tiles[..i + 1]) == TileRecords(tiles[..i]) + Stored(TileRecord(tiles[i]))
  {
    assert [tiles[i]][1..] == [];
    assert tiles[..i + 1] == tiles[..i] + [tiles[i]];
    TileRecordsAppend(tiles[..i], [tiles[i]]);
  }

  /** Each stored record comes from some tile, and each matching tile's record is stored. */
  lemma {:induction false} TileRecordsFrom(tiles: seq<Tile>, r: MovieRecord)
    ensures r in TileRecords(tiles) <==> exists j :: 0 <= j < |tiles| && TileRecord(tiles[j]) == Some(r)
    decreases |tiles|
  {
    if tiles != [] {
      var rest := tiles[1..];
      TileRecordsFrom(rest, r);
      assert r in TileRecords(tiles) <==> r in Stored(TileRecord(tiles[0])) || r in TileRecords(rest);
      assert r in Stored(TileRecord(tiles[0])) <==> TileRecord(tiles[0]) == Some(r);
      if exists j :: 0 <= j < |tiles| && TileRecord(tiles[j]) == Some(r) {
        var j :| 0 <= j < |tiles| && TileRecord(tiles[j]) == Some(r);
        if j > 0 {
          assert rest[j - 1] == tiles[j];
        }
      }
      if exists j :: 0 <= j < |rest| && TileRecord(rest[j]) == Some(r) {
        var j :| 0 <= j < |rest| && TileRecord(rest[j]) == Some(r);
        assert tiles[j + 1] == rest[j];
      }
    }
  }

  /** At most one record per tile; exactly one per tile when every title matches. */
  lemma {:induction false} TileRecordsLength(tiles: seq<Tile>)
    ensures |TileRecords(tiles)| <= |tiles|
    ensures (forall j :: 0 <= j < |tiles| ==> TileRecord(tiles[j]).Some?) ==> |TileRecords(tiles)| == |tiles|
    decreases |tiles|
  {
    if tiles != [] {
      TileRecordsLength(tiles[1..]);
      if forall j :: 0 <= j < |tiles| ==> TileRecord(tiles[j]).Some? {
        assert forall j :: 0 <= j < |tiles[1..]| ==> tiles[1..][j] == tiles[j + 1];
      }
    }
  }

  /** The tile of a well-formed title yields the record of its groups and its href. */
  lemma TileRecordOfTitle(href: Option<string>, t: Title, sep1: char, sep2: char, newline: bool)
    requires WellFormed(t) && IsSpace(sep1) && IsSpace(sep2)
    ensures TileRecord(Tile(href, Some(Assemble(t, sep1, sep2, newline))))
         == Some(MovieRecord(href, t.name, t.year, t.rating))
  {
    ParseAssemble(t, sep1, sep2, newline);
  }

  /** The records of a page of two tiles. */
  lemma TileRecordsPair(t1: Tile, t2: Tile)
    ensures TileRecords([t1, t2]) == Stored(TileRecord(t1)) + Stored(TileRecord(t2))
  {
    assert [t1, t2] == [t1] + [t2];
    TileRecordsAppend([t1], [t2]);
    TileRecordsSingle(t1);
    TileRecordsSingle(t2);
  }

  /** A page of one tile. */
  lemma TileRecordsSingle(t: Tile)
    ensures TileRecords([t]) == Stored(TileRecord(t))
  {
    assert [t][1..] == [];
  }

  /** The tile of page A. */
  lemma ExampleTileA()
    ensures TileRecord(Tile(Some("/film/a/"), Some("Movie A (2019) ★★★★")))
         == Some(MovieRecord(Some("/film/a/"), "Movie A", "2019", "★★★★"))
  {
    var a := Title("Movie A", "2019", "★★★★");
    assert Assemble(a, ' ', ' ', false) == "Movie A (2019) ★★★★";
    TileRecordOfTitle(Some("/film/a/"), a, ' ', ' ', false);
  }

  /** A one-tile page whose title matches. */
  lemma ExamplePageA()
    ensures TileRecords([Tile(Some("/film/a/"), Some("Movie A (2019) ★★★★"))])
         == [MovieRecord(Some("/film/a/"), "Movie A", "2019", "★★★★")]
  {
    ExampleTileA();
    assert [Tile(Some("/film/a/"), Some("Movie A (2019) ★★★★"))][1..] == [];
  }

  /** The first tile of page B. */
  lemma ExampleTileB()
    ensures TileRecord(Tile(Some("/film/b/"), Some("Movie B (2021) ★★★½")))
         == Some(MovieRecord(Some("/film/b/"), "Movie B", "2021", "★★★½"))
  {
    var b := Title("Movie B", "2021", "★★★½");
    assert Assemble(b, ' ', ' ', false) == "Movie B (2021) ★★★½";
    TileRecordOfTitle(Some("/film/b/"), b, ' ', ' ', false);
  }

  /** A tile whose title has no year and rating is skipped. */
  lemma ExampleTileBad()
    ensures TileRecord(Tile(Some("/film/x/"), Some("Bad Title"))) == None
  {
    ExampleNoYear();
  }

  /** A two-tile page whose second title does not match. */
  lemma ExamplePageB()
    ensures TileRecords([Tile(Some("/film/b/"), Some("Movie B (2021) ★★★½")), Tile(Some("/film/x/"), Some("Bad Title"))])
         == [MovieRecord(Some("/film/b/"), "Movie B", "2021", "★★★½")]
  {
    ExampleTileB();
    ExampleTileBad();
    TileRecordsPair(Tile(Some("/film/b/"), Some("Movie B (2021) ★★★½")), Tile(Some("/film/x/"), Some("Bad Title")));
  }
}
