/**
 * The tile-title pattern of the scraper, `^(.*?)\s\((\d{4})\)\s(★{1,5}½?)$`,
 * as Python's `re.match` applies it, written out by hand.
 *
 * `Matches` says declaratively when a title string is an instance of the
 * pattern; `ParseTitle` is a splitter that reads the title from its end and
 * returns the three capture groups. The lemmas prove that the two agree in
 * both directions and that a match is unique, so the lazy `.*?` of the
 * pattern has no choice to make.
 *
 * The pattern is a Unicode pattern; this model narrows its classes to ASCII:
 * `\s` is one of space, tab, line feed, vertical tab, form feed and carriage
 * return, and `\d` is an ASCII digit.
 * The pattern's `.` matches anything but a line feed, and `$` matches at the
 * end of the string or just before one final line feed.
 */
module TitlePattern {
  import opened Optional

  const Star: char := '★'
  const Half: char := '½'

  /** `\s` narrowed to ASCII: space and the five control characters tab .. carriage return. */
  predicate IsSpace(c: char) {
    c == ' ' || '\t' <= c <= '\r'
  }

  /** `\d` narrowed to ASCII. */
  predicate IsDigit(c: char) {
    '0' <= c <= '9'
  }

  predicate AllDigits(s: string) {
    forall i :: 0 <= i < |s| ==> IsDigit(s[i])
  }

  predicate AllStars(s: string) {
    forall i :: 0 <= i < |s| ==> s[i] == Star
  }

  /** What `.*` can consume: `.` does not match a line feed. */
  predicate NoNewline(s: string) {
    forall i :: 0 <= i < |s| ==> s[i] != '\n'
  }

  /** Group 2, `\d{4}`. */
  predicate IsYear(y: string) {
    |y| == 4 && AllDigits(y)
  }

  /** Group 3, `★{1,5}½?`: one to five stars, then at most one half. */
  predicate IsRating(r: string) {
    || (1 <= |r| <= 5 && AllStars(r))
    || (2 <= |r| <= 6 && AllStars(r[..|r| - 1]) && r[|r| - 1] == Half)
  }

  /** The three capture groups of a successful match. */
  datatype Title = Title(name: string, year: string, rating: string)

  predicate WellFormed(t: Title) {
    NoNewline(t.name) && IsYear(t.year) && IsRating(t.rating)
  }

  /** What the fixed middle `\s\((\d{4})\)\s` consumes. */
  function Block(sep1: char, year: string, sep2: char): string {
    [sep1, '('] + year + [')', sep2]
  }

  /** The optional line feed that `$` lets through. */
  function Tail(newline: bool): string {
    if newline then "\n" else ""
  }

  /**
   * The string that the pattern reads as `t`, with `sep1` and `sep2` the
   * characters matched by the two `\s` and `newline` telling whether a final
   * line feed follows the rating.
   */
  function Assemble(t: Title, sep1: char, sep2: char, newline: bool): string {
    t.name + Block(sep1, t.year, sep2) + t.rating + Tail(newline)
  }

  /** `re.match(pattern, s)` succeeds with groups `t`. */
  ghost predicate Matches(s: string, t: Title) {
    && WellFormed(t)
    && exists sep1: char, sep2: char, newline: bool ::
         IsSpace(sep1) && IsSpace(sep2) && s == Assemble(t, sep1, sep2, newline)
  }

  /** Where the run of stars that ends at index `end` of `s` begins. */
  function StarRunStart(s: string, end: nat): (r: nat)
    requires end <= |s|
    ensures r <= end
    ensures forall i :: r <= i < end ==> s[i] == Star
    ensures r > 0 ==> s[r - 1] != Star
    decreases end
  {
    if end > 0 && s[end - 1] == Star then StarRunStart(s, end - 1) else end
  }

  /** `s` without the one final line feed that `$` tolerates. */
  function StripNewline(s: string): (body: string)
    ensures s == body + Tail(|s| > 0 && s[|s| - 1] == '\n')
  {
    if |s| > 0 && s[|s| - 1] == '\n' then s[..|s| - 1] else s
  }

  /**
   * Where the longest suffix of `body` of the form `★*½?` begins: the only
   * candidate for group 3, since the pattern's `\s` before it is not a star.
   */
  function RatingStart(body: string): (cut: nat)
    ensures cut <= |body|
  {
    var half := if |body| > 0 && body[|body| - 1] == Half then 1 else 0;
    StarRunStart(body, |body| - half)
  }

  /** The fixed middle `\s\((\d{4})\)\s`, as an eight-character string. */
  predicate IsBlock(b: string) {
    && |b| == 8 && IsSpace(b[0]) && b[1] == '(' && AllDigits(b[2..6])
    && b[6] == ')' && IsSpace(b[7])
  }

  /**
   * Splits a title into name, year and rating, or returns None when the
   * pattern does not match. It peels off, from the end: the optional final
   * line feed, the rating, then the eight-character middle block; what
   * remains is the name.
   */
  function ParseTitle(s: string): (r: Option<Title>)
    ensures r.Some? ==> WellFormed(r.value)
    ensures r.Some? ==> |r.value.name| + 9 <= |s|
  {
    var body := StripNewline(s);
    var cut := RatingStart(body);
    if cut < 8 || !IsRating(body[cut..]) then
      None
    else
      var n := cut - 8;
      var block := body[n..cut];
      if IsBlock(block) && NoNewline(body[..n]) then
        Some(Title(body[..n], block[2..6], body[cut..]))
      else
        None
  }

  /** A run of stars after a non-star at index `p` begins just after `p`. */
  lemma {:induction false} StarRunAfter(s: string, p: nat, end: nat)
    requires p < end <= |s| && s[p] != Star
    requires forall i :: p < i < end ==> s[i] == Star
    ensures StarRunStart(s, end) == p + 1
    decreases end
  {
    if end > p + 1 {
      StarRunAfter(s, p, end - 1);
    }
  }

  /** The eight characters of a `Block`, one by one. */
  lemma BlockAt(b: string, sep1: char, year: string, sep2: char)
    requires |year| == 4
    ensures b == Block(sep1, year, sep2) <==>
      |b| == 8 && b[0] == sep1 && b[1] == '(' && b[2..6] == year && b[6] == ')' && b[7] == sep2
  {
    var blk := Block(sep1, year, sep2);
    assert |blk| == 8 && blk[2..6] == year;
    if |b| == 8 && b[0] == sep1 && b[1] == '(' && b[2..6] == year && b[6] == ')' && b[7] == sep2 {
      forall i | 0 <= i < 8 ensures b[i] == blk[i] {
        if 2 <= i < 6 {
          assert b[i] == b[2..6][i - 2];
        }
      }
    }
  }

  /** Whenever the splitter succeeds, the title is the pattern's reading of `s`. */
  lemma ParseSound(s: string)
    requires ParseTitle(s).Some?
    ensures Matches(s, ParseTitle(s).value)
  {
    var t := ParseTitle(s).value;
    var body := StripNewline(s);
    var cut := RatingStart(body);
    var n := cut - 8;
    var block := body[n..cut];
    BlockAt(block, block[0], t.year, block[7]);
    assert body == body[..n] + block + body[cut..];
    assert s == Assemble(t, block[0], block[7], |s| > 0 && s[|s| - 1] == '\n');
  }


  /** Group 3 preceded by the `\s` begins exactly where `RatingStart` says. */
  lemma RatingStartAfter(head: string, sep2: char, rating: string)
    requires IsSpace(sep2) && IsRating(rating)
    ensures RatingStart(head + [sep2] + rating) == |head| + 1
  {
    var body := head + [sep2] + rating;
    assert body[|body| - 1] == rating[|rating| - 1];
    var half := if rating[|rating| - 1] == Half then 1 else 0;
    var run := rating[..|rating| - half];
    assert AllStars(run);
    forall i | |head| < i < |body| - half ensures body[i] == Star {
      assert body[i] == run[i - |head| - 1];
    }
    StarRunAfter(body, |head|, |body| - half);
  }

  /** The splitter's result, given the cut points it finds. */
  lemma ParseAt(s: string, body: string, cut: nat)
    requires StripNewline(s) == body && 8 <= cut <= |body|
    requires RatingStart(body) == cut && IsRating(body[cut..])
    requires IsBlock(body[cut - 8..cut]) && NoNewline(body[..cut - 8])
    ensures ParseTitle(s) == Some(Title(body[..cut - 8], body[cut - 8..cut][2..6], body[cut..]))
  {
  }

  /** The splitter fails when, at the cut points it finds, the block or the name is wrong. */
  lemma RejectAt(s: string, body: string, cut: nat)
    requires StripNewline(s) == body && 8 <= cut <= |body| && RatingStart(body) == cut
    requires !IsBlock(body[cut - 8..cut]) || !NoNewline(body[..cut - 8])
    ensures ParseTitle(s) == None
  {
  }

  /** Removing the tolerated line feed leaves name, block and rating. */
  lemma StripAssemble(t: Title, sep1: char, sep2: char, newline: bool)
    requires IsRating(t.rating)
    ensures StripNewline(Assemble(t, sep1, sep2, newline)) == t.name + Block(sep1, t.year, sep2) + t.rating
  {
    var line := t.name + Block(sep1, t.year, sep2) + t.rating;
    assert line[|line| - 1] == t.rating[|t.rating| - 1];
  }

  /** The three pieces of a line can be sliced back out of it. */
  lemma LineSlices(name: string, block: string, rating: string)
    requires |block| == 8
    ensures var line := name + block + rating; var n := |name|;
      line[..n] == name && line[n..n + 8] == block && line[n + 8..] == rating
  {
  }

  /** Round trip: the splitter recovers every title the pattern can produce. */
  lemma ParseAssemble(t: Title, sep1: char, sep2: char, newline: bool)
    requires WellFormed(t) && IsSpace(sep1) && IsSpace(sep2)
    ensures ParseTitle(Assemble(t, sep1, sep2, newline)) == Some(t)
  {
    var s := Assemble(t, sep1, sep2, newline);
    var block := Block(sep1, t.year, sep2);
    var line := t.name + block + t.rating;
    StripAssemble(t, sep1, sep2, newline);
    var head := t.name + [sep1, '('] + t.year + [')'];
    assert line == head + [sep2] + t.rating;
    RatingStartAfter(head, sep2, t.rating);
    BlockAt(block, sep1, t.year, sep2);
    LineSlices(t.name, block, t.rating);
    ParseAt(s, line, |t.name| + 8);
  }

  /** Matches and the splitter agree in both directions. */
  lemma ParseIff(s: string, t: Title)
    ensures Matches(s, t) <==> ParseTitle(s) == Some(t)
  {
    if Matches(s, t) {
      var sep1: char, sep2: char, newline: bool :|
        IsSpace(sep1) && IsSpace(sep2) && s == Assemble(t, sep1, sep2, newline);
      ParseAssemble(t, sep1, sep2, newline);
    }
    if ParseTitle(s) == Some(t) {
      ParseSound(s);
    }
  }

  /** The pattern reads a string in at most one way, so the lazy name has nothing to choose. */
  lemma MatchUnique(s: string, t1: Title, t2: Title)
    requires Matches(s, t1) && Matches(s, t2)
    ensures t1 == t2
  {
    ParseIff(s, t1);
    ParseIff(s, t2);
  }

  /** The splitter fails exactly on the strings the pattern rejects. */
  lemma ParseNoneIff(s: string)
    ensures ParseTitle(s).None? <==> forall t :: !Matches(s, t)
  {
    if ParseTitle(s).Some? {
      ParseSound(s);
    } else {
      forall t ensures !Matches(s, t) {
        ParseIff(s, t);
      }
    }
  }

  /** The name runs up to the last `(`: an earlier bracketed year stays in the name. */
  lemma ExampleTwoYears()
    ensures ParseTitle("Foo (2019) (2020) ★") == Some(Title("Foo (2019)", "2020", "★"))
  {
    var t := Title("Foo (2019)", "2020", "★");
    assert Assemble(t, ' ', ' ', false) == "Foo (2019) (2020) ★";
    ParseAssemble(t, ' ', ' ', false);
  }

  /** `$` lets one final line feed through, and the rating does not include it. */
  lemma ExampleTrailingNewline()
    ensures ParseTitle("A (2019) ★★★½\n") == Some(Title("A", "2019", "★★★½"))
  {
    var t := Title("A", "2019", "★★★½");
    assert Assemble(t, ' ', ' ', true) == "A (2019) ★★★½\n";
    ParseAssemble(t, ' ', ' ', true);
  }

  /** More than five stars: the run is too long and nothing else can be group 3. */
  lemma ExampleSixStars()
    ensures ParseTitle("A (2019) ★★★★★★") == None
  {
  }

  /** No star at all: group 3 needs at least one. */
  lemma ExampleNoStars()
    ensures ParseTitle("A (2019) ") == None
    ensures ParseTitle("A (2019) ½") == None
  {
  }

  /** `$` tolerates one final line feed, not two. */
  lemma ExampleTwoNewlines()
    ensures ParseTitle("A (2019) ★\n\n") == None
  {
  }

  /** `.` does not match a line feed, so the name cannot contain one. */
  lemma ExampleNewlineInName()
    ensures ParseTitle("A\nB (2019) ★") == None
  {
    var s := "A\nB (2019) ★";
    assert s == "A\nB (2019)" + [' '] + "★";
    assert StripNewline(s) == s;
    RatingStartAfter("A\nB (2019)", ' ', "★");
    assert s[..3][1] == '\n';
    RejectAt(s, s, 11);
  }

  /** The year must be exactly four digits. */
  lemma ExampleShortYear()
    ensures ParseTitle("A (19) ★") == None
    ensures ParseTitle("A (20x9) ★") == None
  {
    var s := "A (20x9) ★";
    assert s == "A (20x9)" + [' '] + "★";
    assert StripNewline(s) == s;
    RatingStartAfter("A (20x9)", ' ', "★");
    assert s[1..9][2..6][2] == 'x';
    RejectAt(s, s, 9);
  }

  /** A title without the year and rating suffix does not match. */
  lemma ExampleNoYear()
    ensures ParseTitle("Bad Title") == None
  {
  }
}
