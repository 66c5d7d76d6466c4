/** Splitting a book into chapters at its heading lines. */
module Chapters {
  import opened Wrappers
  import opened PyText

  datatype Heading = Heading(number: string, title: string)

  /** A heading line and where it stands. */
  datatype Match = Match(start: nat, end: nat, heading: Heading)

  datatype Chapter = Chapter(title: string, content: string)

  datatype Failure = NoHeadings

  const WORD := "CHAPTER "

  // ------------------------------------------------------------------ headings

  function Render(h: Heading): string {
    WORD + h.number + ". " + h.title
  }

  /** What `CHAPTER_RE` accepts as a whole line. */
  ghost predicate WellFormed(h: Heading) {
    Numeric(h.number) && h.title != ""
  }

  function DigitsEnd(s: string, i: nat): (d: nat)
    requires i <= |s|
    ensures i <= d <= |s| && (d < |s| ==> !IsDigit(s[d]))
    ensures forall j :: i <= j < d ==> IsDigit(s[j])
    decreases |s| - i
  {
    if i < |s| && IsDigit(s[i]) then DigitsEnd(s, i + 1) else i
  }

  function ParseHeading(line: string): Option<Heading> {
    if |line| < 8 || line[..8] != WORD then None
    else
      var d := DigitsEnd(line, 8);
      if d > 8 && d + 2 < |line| && line[d] == '.' && line[d + 1] == ' ' then Some(Heading(line[8..d], line[d + 2..]))
      else None
  }

  /** Parsing a line undoes rendering a heading, and accepts nothing else. */
  lemma ParseHeadingIff(line: string, h: Heading)
    ensures ParseHeading(line) == Some(h) <==> WellFormed(h) && line == Render(h)
  {
    if ParseHeading(line) == Some(h) {
      var d := DigitsEnd(line, 8);
      assert line == line[..8] + line[8..d] + [line[d], line[d + 1]] + line[d + 2..];
    }
    if WellFormed(h) && line == Render(h) {
      var d := 8 + |h.number|;
      assert line[..8] == WORD && line[8..d] == h.number;
      assert line[d] == '.' && line[d + 1] == ' ' && line[d + 2..] == h.title;
      assert forall j :: 8 <= j < d ==> line[j] == h.number[j - 8];
      assert DigitsEnd(line, 8) == d;
    }
  }

  datatype Span = Span(start: nat, end: nat)

  predicate LineStart(body: string, p: nat) {
    p <= |body| && (p == 0 || body[p - 1] == '\n')
  }

  predicate NoBreak(s: string, from: nat, to: nat)
    requires to <= |s|
  {
    forall i :: from <= i < to ==> s[i] != '\n'
  }

  /** A whole line, without its line break. */
  predicate IsLine(body: string, l: Span) {
    && LineStart(body, l.start) && l.start <= l.end <= |body| && NoBreak(body, l.start, l.end)
    && (l.end < |body| ==> body[l.end] == '\n')
  }

  /** The lines of the body from the one at `start` on, read up to `i`. */
  function Lines(body: string, start: nat, i: nat): (ls: seq<Span>)
    requires start <= i <= |body|
    ensures forall l :: l in ls ==> start <= l.start <= l.end <= |body|
    decreases |body| - i
  {
    if i == |body| then [Span(start, i)]
    else if body[i] == '\n' then [Span(start, i)] + Lines(body, i + 1, i + 1)
    else Lines(body, start, i + 1)
  }

  /** At the break after a line: that line, or one further on. */
  lemma LineHereOrLater(body: string, start: nat, i: nat, l: Span)
    requires IsLine(body, Span(start, i)) && i < |body|
    ensures IsLine(body, l) && l.start >= start <==> l == Span(start, i) || (IsLine(body, l) && l.start >= i + 1)
  {
  }

  lemma LastLine(body: string, start: nat, l: Span)
    requires IsLine(body, Span(start, |body|))
    ensures IsLine(body, l) && l.start >= start <==> l == Span(start, |body|)
  {
  }

  lemma {:induction false} LinesExact(body: string, start: nat, i: nat, l: Span)
    requires LineStart(body, start) && start <= i <= |body| && NoBreak(body, start, i)
    ensures l in Lines(body, start, i) <==> IsLine(body, l) && l.start >= start
    decreases |body| - i
  {
    if i == |body| {
      LastLine(body, start, l);
    } else if body[i] == '\n' {
      LineHereOrLater(body, start, i, l);
      LinesExact(body, i + 1, i + 1, l);
    } else {
      LinesExact(body, start, i + 1, l);
    }
  }

  /** Each line ends before the next one starts. */
  predicate Apart(ls: seq<Span>) {
    forall i, j :: 0 <= i < j < |ls| ==> ls[i].end < ls[j].start
  }

  lemma ApartCons(l: Span, ls: seq<Span>)
    requires Apart(ls) && forall k :: k in ls ==> l.end < k.start
    ensures Apart([l] + ls)
  {
  }

  lemma {:induction false} LinesApart(body: string, start: nat, i: nat)
    requires start <= i <= |body|
    ensures Apart(Lines(body, start, i))
    decreases |body| - i
  {
    if i < |body| && body[i] == '\n' {
      LinesApart(body, i + 1, i + 1);
      ApartCons(Span(start, i), Lines(body, i + 1, i + 1));
    } else if i < |body| {
      LinesApart(body, start, i + 1);
    }
  }

  /** The lines that `CHAPTER_RE` matches. */
  function MatchesIn(body: string, ls: seq<Span>): seq<Match>
    requires forall l :: l in ls ==> l.start <= l.end <= |body|
  {
    if ls == [] then []
    else
      var parsed := ParseHeading(body[ls[0].start..ls[0].end]);
      (if parsed.Some? then [Match(ls[0].start, ls[0].end, parsed.value)] else []) + MatchesIn(body, ls[1..])
  }

  predicate Ordered(ms: seq<Match>) {
    forall i, j :: 0 <= i < j < |ms| ==> ms[i].end < ms[j].start
  }

  lemma {:induction false} MatchesExact(body: string, ls: seq<Span>, m: Match)
    requires forall l :: l in ls ==> l.start <= l.end <= |body|
    ensures m in MatchesIn(body, ls) <==>
              Span(m.start, m.end) in ls && ParseHeading(body[m.start..m.end]) == Some(m.heading)
  {
    if ls != [] { MatchesExact(body, ls[1..], m); }
  }

  lemma {:induction false} MatchesOrdered(body: string, ls: seq<Span>)
    requires forall l :: l in ls ==> l.start <= l.end <= |body|
    requires Apart(ls)
    ensures Ordered(MatchesIn(body, ls))
  {
    if ls != [] {
      MatchesOrdered(body, ls[1..]);
      forall m | m in MatchesIn(body, ls[1..]) ensures ls[0].end < m.start {
        MatchesExact(body, ls[1..], m);
      }
    }
  }

  /** The matches of `CHAPTER_RE`. */
  function Headings(body: string): seq<Match> {
    MatchesIn(body, Lines(body, 0, 0))
  }

  /** A whole line of the body that is a heading. */
  ghost predicate IsHeading(body: string, m: Match) {
    && IsLine(body, Span(m.start, m.end))
    && WellFormed(m.heading) && body[m.start..m.end] == Render(m.heading)
  }

  /** The headings found are the lines that render a heading, in order. */
  lemma HeadingsExact(body: string)
    ensures Ordered(Headings(body))
    ensures forall m :: m in Headings(body) <==> IsHeading(body, m)
  {
    LinesApart(body, 0, 0);
    MatchesOrdered(body, Lines(body, 0, 0));
    forall m ensures m in Headings(body) <==> IsHeading(body, m) {
      LinesExact(body, 0, 0, Span(m.start, m.end));
      MatchesExact(body, Lines(body, 0, 0), m);
      if m.start <= m.end <= |body| { ParseHeadingIff(body[m.start..m.end], m.heading); }
    }
  }

  // -------------------------------------------------------------------- anchor

  function Number(m: Match): int {
    if Numeric(m.heading.number) then Value(m.heading.number) else -1
  }

  /** `a` is where the number of the first heading first comes back, or 0. */
  ghost predicate AnchoredAt(ms: seq<Match>, a: nat) {
    && a < |ms| && Number(ms[a]) == Number(ms[0])
    && (forall i :: 0 < i < |ms| && Number(ms[i]) == Number(ms[0]) ==> 0 < a <= i)
  }

  /** The first index from `i` on with the number of the first heading, else 0. */
  function RepeatFrom(ms: seq<Match>, i: nat): nat
    requires 0 < i
    decreases |ms| - i
  {
    if i >= |ms| then 0 else if Number(ms[i]) == Number(ms[0]) then i else RepeatFrom(ms, i + 1)
  }

  function Anchor(ms: seq<Match>): nat {
    RepeatFrom(ms, 1)
  }

  lemma {:induction false} RepeatFromFirst(ms: seq<Match>, i: nat)
    requires 0 < i
    requires ms != [] && forall j :: 0 < j < i && j < |ms| ==> Number(ms[j]) != Number(ms[0])
    ensures AnchoredAt(ms, RepeatFrom(ms, i))
    decreases |ms| - i
  {
    if i < |ms| && Number(ms[i]) != Number(ms[0]) { RepeatFromFirst(ms, i + 1); }
  }

  /** The anchor is the first repetition of the first heading's number, whatever
      that number is. */
  lemma AnchorIff(ms: seq<Match>, a: nat)
    requires ms != []
    ensures a == Anchor(ms) <==> AnchoredAt(ms, a)
  {
    RepeatFromFirst(ms, 1);
    if AnchoredAt(ms, a) { AnchorUnique(ms, a, Anchor(ms)); }
  }

  method FindAnchor(ms: seq<Match>) returns (bodyStart: nat)
    requires ms != []
    ensures bodyStart == Anchor(ms) < |ms|
  {
    var firstOne := Number(ms[0]);
    bodyStart := 0;
    for i := 0 to |ms|
      invariant bodyStart == 0
      invariant forall j :: 0 < j < i ==> Number(ms[j]) != firstOne
    {
      if i > 0 && Number(ms[i]) == firstOne {
        bodyStart := i;
        break;
      }
    }
    AnchorIff(ms, bodyStart);
  }

  lemma AnchorUnique(ms: seq<Match>, a: nat, b: nat)
    requires AnchoredAt(ms, a) && AnchoredAt(ms, b)
    ensures a == b
  {
  }

  /** Headings numbered 1 to n, twice. */
  ghost predicate TwiceNumbered(ms: seq<Match>, n: nat) {
    && |ms| == 2 * n > 0
    && (forall i :: 0 <= i < n ==> Number(ms[i]) == i + 1)
    && (forall i :: n <= i < 2 * n ==> Number(ms[i]) == i - n + 1)
  }

  lemma AnchorOfTwice(ms: seq<Match>, n: nat)
    requires TwiceNumbered(ms, n)
    ensures Anchor(ms) == n
  {
    AnchorIff(ms, n);
  }

  /** Heading `k` is the second one numbered 1. */
  ghost predicate SecondOne(ms: seq<Match>, k: nat) {
    && 0 < k < |ms| && Number(ms[k]) == 1
    && exists j :: OnlyOneBefore(ms, j, k)
  }

  ghost predicate OnlyOneBefore(ms: seq<Match>, j: int, k: int)
    requires k <= |ms|
  {
    0 <= j < k && forall i :: 0 <= i < k ==> (Number(ms[i]) == 1 <==> i == j)
  }

  /** The anchor is the second heading numbered 1, as documented, if and only if the
      very first heading is numbered 1. */
  lemma AnchorAtRestartIff(ms: seq<Match>, k: nat)
    requires SecondOne(ms, k)
    ensures Anchor(ms) == k <==> Number(ms[0]) == 1
  {
    AnchorIff(ms, k);
    AnchorIff(ms, Anchor(ms));
    var j :| OnlyOneBefore(ms, j, k);
    if Number(ms[0]) == 1 { assert j == 0; }
  }

  // --------------------------------------------------------------------- split

  ghost predicate Placed(body: string, ms: seq<Match>) {
    Ordered(ms) && forall i :: 0 <= i < |ms| ==> ms[i].start <= ms[i].end <= |body|
  }

  lemma HeadingsPlaced(body: string, a: nat)
    requires a <= |Headings(body)|
    ensures Placed(body, Headings(body)[a..])
    ensures forall i :: 0 <= i < |Headings(body)[a..]| ==> IsHeading(body, Headings(body)[a..][i])
  {
    HeadingsExact(body);
    var ms := Headings(body)[a..];
    forall i | 0 <= i < |ms| ensures IsHeading(body, ms[i]) && ms[i].start <= ms[i].end <= |body| {
      assert ms[i] in Headings(body);
    }
  }

  /** Where the text of chapter `i` stops: at the next heading, or at the end. */
  function Stop(body: string, ms: seq<Match>, i: nat): nat {
    if i + 1 < |ms| then ms[i + 1].start else |body|
  }

  /** The text between a kept heading and the next one. */
  function Raw(body: string, ms: seq<Match>, i: nat): string
    requires Placed(body, ms) && i < |ms|
  {
    body[ms[i].end..Stop(body, ms, i)]
  }

  function Title(h: Heading): string {
    WORD + h.number + ". " + Strip(h.title)
  }

  /** The chapters with their text untouched. */
  function Sections(body: string, ms: seq<Match>): seq<Chapter>
    requires Placed(body, ms)
  {
    seq(|ms|, i requires 0 <= i < |ms| => Chapter(Title(ms[i].heading), Raw(body, ms, i)))
  }

  /** The chapters with content, stripped. */
  function Collected(sections: seq<Chapter>): seq<Chapter> {
    if sections == [] then []
    else
      var last := sections[|sections| - 1];
      var content := Strip(last.content);
      Collected(sections[..|sections| - 1]) + (if content != "" then [Chapter(last.title, content)] else [])
  }

  /** The headings from the anchor on. */
  function Kept(body: string): (kept: seq<Match>)
    ensures Placed(body, kept)
  {
    var ms := Headings(body);
    if Anchor(ms) < |ms| then HeadingsPlaced(body, Anchor(ms)); ms[Anchor(ms)..] else []
  }

  function Split(body: string): Result<seq<Chapter>, Failure> {
    if Headings(body) == [] then Err(NoHeadings) else Ok(Collected(Sections(body, Kept(body))))
  }

  method CollectChapters(body: string, chapters: seq<Match>) returns (out: seq<Chapter>)
    requires Placed(body, chapters)
    ensures out == Collected(Sections(body, chapters))
  {
    out := [];
    ghost var sections := Sections(body, chapters);
    for i := 0 to |chapters|
      invariant out == Collected(sections[..i])
    {
      var title := Title(chapters[i].heading);
      var textEnd := if i + 1 < |chapters| then chapters[i + 1].start else |body|;
      var content := Strip(body[chapters[i].end..textEnd]);
      if content != "" {
        out := out + [Chapter(title, content)];
      }
      assert sections[..i + 1][..i] == sections[..i];
      assert sections[i] == Chapter(title, body[chapters[i].end..textEnd]);
    }
    assert sections[..|chapters|] == sections;
  }

  /** The sections listed at `at`, in order, are the ones whose text is not blank,
      and `out` holds them with their text stripped. */
  ghost predicate Selects(sections: seq<Chapter>, at: seq<int>, out: seq<Chapter>) {
    && |out| == |at|
    && (forall j, k :: 0 <= j < k < |at| ==> at[j] < at[k])
    && (forall i :: i in at <==> 0 <= i < |sections| && !Blank(sections[i].content))
    && (forall j :: 0 <= j < |at| ==> 0 <= at[j] < |sections| && Trimmed(sections[at[j]], out[j]))
  }

  ghost predicate Trimmed(section: Chapter, c: Chapter) {
    c.title == section.title && Stripped(section.content, c.content)
  }

  lemma SelectsStep(sections: seq<Chapter>, at: seq<int>, out: seq<Chapter>, s: Chapter, c: Chapter)
    requires Selects(sections, at, out)
    ensures Blank(s.content) ==> Selects(sections + [s], at, out)
    ensures !Blank(s.content) && Trimmed(s, c) ==> Selects(sections + [s], at + [|sections|], out + [c])
  {
    assert forall j :: 0 <= j < |at| ==> at[j] in at;
  }

  /** Only chapters with a blank text are dropped, and the others keep their order,
      their heading and their text. */
  lemma {:induction false} OnlyBlankDropped(sections: seq<Chapter>) returns (at: seq<int>)
    ensures Selects(sections, at, Collected(sections))
  {
    at := [];
    if sections != [] {
      var front, last := sections[..|sections| - 1], sections[|sections| - 1];
      at := OnlyBlankDropped(front);
      StripSpec(last.content);
      SelectsStep(front, at, Collected(front), last, Chapter(last.title, Strip(last.content)));
      assert front + [last] == sections;
      if !Blank(last.content) { at := at + [|front|]; }
    }
  }

  // ------------------------------------------------------------- what comes out

  /** The text of heading `i`: up to the next heading, or to the end. */
  ghost predicate TextOf(body: string, ms: seq<Match>, i: nat, text: string) {
    && i < |ms|
    && var stop := if i + 1 < |ms| then ms[i + 1].start else |body|;
       ms[i].end <= stop <= |body| && text == body[ms[i].end..stop]
  }

  /** Chapter `c` is heading `i` with its text: the word, the number and the stripped
      title, and the stripped text. */
  ghost predicate ChapterOf(body: string, ms: seq<Match>, i: nat, c: Chapter) {
    && i < |ms|
    && (exists t :: Stripped(ms[i].heading.title, t) && c.title == "CHAPTER " + ms[i].heading.number + ". " + t)
    && (exists text :: TextOf(body, ms, i, text) && !Blank(text) && Stripped(text, c.content))
  }

  /** There is something under heading `i`. */
  ghost predicate HasText(body: string, ms: seq<Match>, i: nat) {
    exists text :: TextOf(body, ms, i, text) && !Blank(text)
  }

  /** `out` has a chapter for each heading from `a` on whose text is not blank, and for
      no other, in order; `at` says which. */
  ghost predicate ChaptersFrom(body: string, ms: seq<Match>, a: nat, at: seq<nat>, out: seq<Chapter>) {
    && |out| == |at|
    && (forall j, k :: 0 <= j < k < |at| ==> at[j] < at[k])
    && (forall i: nat :: i in at <==> a <= i < |ms| && HasText(body, ms, i))
    && (forall j :: 0 <= j < |at| ==> ChapterOf(body, ms, at[j], out[j]))
  }

  /** The documented result, `ms` being the headings of the body in order: an error if
      there are none, and else the chapters from the anchor on. */
  ghost predicate Documented(body: string, ms: seq<Match>, r: Result<seq<Chapter>, Failure>) {
    && Ordered(ms) && (forall m :: m in ms <==> IsHeading(body, m))
    && (if ms == [] then r == Err(NoHeadings)
        else r.Ok? && exists a, at :: AnchoredAt(ms, a) && ChaptersFrom(body, ms, a, at, r.value))
  }

  lemma SectionText(body: string, ms: seq<Match>, a: nat, i: nat)
    requires Placed(body, ms) && a <= i < |ms| && Placed(body, ms[a..])
    ensures TextOf(body, ms, i, Sections(body, ms[a..])[i - a].content)
    ensures Sections(body, ms[a..])[i - a].title == Title(ms[i].heading)
  {
    assert ms[a..][i - a] == ms[i];
    if i + 1 < |ms| { assert ms[a..][i - a + 1] == ms[i + 1]; }
  }

  lemma HasTextIff(body: string, ms: seq<Match>, a: nat, i: nat)
    requires Placed(body, ms) && a <= i < |ms| && Placed(body, ms[a..])
    ensures HasText(body, ms, i) <==> !Blank(Sections(body, ms[a..])[i - a].content)
  {
    SectionText(body, ms, a, i);
  }

  lemma TitleMeans(h: Heading)
    ensures exists t :: Stripped(h.title, t) && Title(h) == "CHAPTER " + h.number + ". " + t
  {
    StripSpec(h.title);
  }

  lemma SectionChapter(body: string, ms: seq<Match>, a: nat, i: nat, c: Chapter)
    requires Placed(body, ms) && a <= i < |ms| && Placed(body, ms[a..])
    requires Trimmed(Sections(body, ms[a..])[i - a], c) && !Blank(Sections(body, ms[a..])[i - a].content)
    ensures ChapterOf(body, ms, i, c)
  {
    SectionText(body, ms, a, i);
    TitleMeans(ms[i].heading);
  }

  /** The same positions, counted from the first heading. */
  function Moved(at: seq<int>, a: nat): (r: seq<nat>)
    requires forall j :: 0 <= j < |at| ==> at[j] >= 0
    ensures |r| == |at| && forall j :: 0 <= j < |at| ==> r[j] == at[j] + a
  {
    seq(|at|, j requires 0 <= j < |at| => (at[j] + a) as nat)
  }

  lemma MovedMembers(at: seq<int>, a: nat, i: nat)
    requires forall j :: 0 <= j < |at| ==> at[j] >= 0
    ensures i in Moved(at, a) <==> i - a in at
  {
    if i in Moved(at, a) {
      var j :| 0 <= j < |at| && Moved(at, a)[j] == i;
      assert at[j] == i - a;
    }
    if i - a in at {
      var j :| 0 <= j < |at| && at[j] == i - a;
      assert Moved(at, a)[j] == i;
    }
  }

  /** Selecting from the sections from heading `a` on is selecting headings. */
  lemma SelectedChapters(body: string, ms: seq<Match>, a: nat, at: seq<int>, out: seq<Chapter>)
    requires Placed(body, ms) && a <= |ms| && Placed(body, ms[a..])
    requires Selects(Sections(body, ms[a..]), at, out)
    ensures forall j :: 0 <= j < |at| ==> at[j] >= 0
    ensures ChaptersFrom(body, ms, a, Moved(at, a), out)
  {
    var sections := Sections(body, ms[a..]);
    assert forall j :: 0 <= j < |at| ==> at[j] in at;
    var at' := Moved(at, a);
    forall i: nat ensures i in at' <==> a <= i < |ms| && HasText(body, ms, i) {
      MovedMembers(at, a, i);
      if a <= i < |ms| { HasTextIff(body, ms, a, i); }
    }
    forall j | 0 <= j < |at| ensures ChapterOf(body, ms, at'[j], out[j]) {
      assert at[j] in at && Trimmed(sections[at[j]], out[j]);
      SectionChapter(body, ms, a, at'[j], out[j]);
    }
  }

  lemma SplitMeans(body: string)
    ensures Documented(body, Headings(body), Split(body))
  {
    var ms := Headings(body);
    HeadingsExact(body);
    if ms != [] {
      var a := Anchor(ms);
      AnchorIff(ms, a);
      assert ms[0..] == ms;
      HeadingsPlaced(body, 0);
      HeadingsPlaced(body, a);
      var at := OnlyBlankDropped(Sections(body, ms[a..]));
      SelectedChapters(body, ms, a, at, Split(body).value);
      assert AnchoredAt(ms, a) && ChaptersFrom(body, ms, a, Moved(at, a), Split(body).value);
    }
  }

  /** A body with headings 1 to n listed twice gives chapters of the second listing
      only: their titles are those of some of its headings, in order. */
  lemma SecondListingOnly(body: string, n: nat) returns (at: seq<nat>)
    requires TwiceNumbered(Headings(body), n)
    ensures Split(body).Ok? && ChaptersFrom(body, Headings(body), n, at, Split(body).value)
    ensures forall j :: 0 <= j < |at| ==> n <= at[j] < 2 * n
  {
    var ms := Headings(body);
    SplitMeans(body);
    var a: nat, out: seq<nat> :| AnchoredAt(ms, a) && ChaptersFrom(body, ms, a, out, Split(body).value);
    AnchorOfTwice(ms, n);
    AnchorIff(ms, a);
    at := out;
    assert forall j :: 0 <= j < |at| ==> at[j] in at;
  }

  method SplitChapters(body: string) returns (r: Result<seq<Chapter>, Failure>)
    ensures r == Split(body)
    ensures exists ms :: Documented(body, ms, r)
  {
    SplitMeans(body);
    var matches := Headings(body);
    if matches == [] {
      return Err(NoHeadings);
    }
    var bodyStart := FindAnchor(matches);
    HeadingsPlaced(body, bodyStart);
    var out := CollectChapters(body, matches[bodyStart..]);
    return Ok(out);
  }

  // -------------------------------------------------------------- main results

  /** Headings and raw contents from chapter `i` on. */
  function Pieces(body: string, ms: seq<Match>, i: nat): string
    requires Placed(body, ms) && i <= |ms|
    decreases |ms| - i
  {
    if i == |ms| then "" else Render(ms[i].heading) + Raw(body, ms, i) + Pieces(body, ms, i + 1)
  }

  lemma Adjacent(body: string, i: nat, j: nat, k: nat)
    requires i <= j <= k <= |body|
    ensures body[i..] == body[i..j] + body[j..k] + body[k..]
  {
  }

  ghost predicate Rendered(body: string, m: Match) {
    m.start <= m.end <= |body| && body[m.start..m.end] == Render(m.heading)
  }

  lemma {:induction false} PiecesTile(body: string, ms: seq<Match>, i: nat)
    requires Placed(body, ms) && i < |ms| && forall j :: 0 <= j < |ms| ==> Rendered(body, ms[j])
    ensures Pieces(body, ms, i) == body[ms[i].start..]
    decreases |ms| - i
  {
    assert Rendered(body, ms[i]);
    Adjacent(body, ms[i].start, ms[i].end, Stop(body, ms, i));
    if i + 1 < |ms| { PiecesTile(body, ms, i + 1); }
  }

  /** The split fails only on a body without heading lines. */
  lemma SplitFailsIff(body: string)
    ensures Split(body).Err? <==> forall m :: !IsHeading(body, m)
  {
    HeadingsExact(body);
    if Headings(body) != [] { assert Headings(body)[0] in Headings(body); }
  }

  /** From the first kept heading on, headings and raw contents tile the body. */
  lemma {:induction false} SplitTiles(body: string)
    requires Split(body).Ok?
    ensures Kept(body) != [] && Kept(body)[0].start <= |body|
    ensures Pieces(body, Kept(body), 0) == body[Kept(body)[0].start..]
  {
    KeptRendered(body);
    PiecesTile(body, Kept(body), 0);
  }

  lemma KeptRendered(body: string)
    requires Headings(body) != []
    ensures Kept(body) != [] && forall j :: 0 <= j < |Kept(body)| ==> Rendered(body, Kept(body)[j])
  {
    AnchorIff(Headings(body), Anchor(Headings(body)));
    HeadingsPlaced(body, Anchor(Headings(body)));
    forall j | 0 <= j < |Kept(body)| ensures Rendered(body, Kept(body)[j]) {
      assert IsHeading(body, Kept(body)[j]);
    }
  }

  /** Of headings 1 to n listed twice, exactly the second n are kept. */
  lemma SecondListingKept(body: string, n: nat)
    requires TwiceNumbered(Headings(body), n)
    ensures Kept(body) == Headings(body)[n..]
  {
    AnchorOfTwice(Headings(body), n);
  }

  /** The documented place, the second heading numbered 1, is where the kept text
      starts if and only if the first heading of the body is numbered 1. */
  lemma KeptFromRestartIff(body: string, k: nat)
    requires SecondOne(Headings(body), k)
    ensures Kept(body) == Headings(body)[k..] <==> Number(Headings(body)[0]) == 1
  {
    var ms := Headings(body);
    AnchorAtRestartIff(ms, k);
    AnchorIff(ms, Anchor(ms));
    assert |ms[Anchor(ms)..]| == |ms| - Anchor(ms) && |ms[k..]| == |ms| - k;
  }

  // ----------------------------------------------------------- a book of headings

  /** A body made of heading lines only. */
  function Book(hs: seq<Heading>): string {
    if hs == [] then "" else Render(hs[0]) + "\n" + Book(hs[1..])
  }

  ghost predicate Printable(hs: seq<Heading>) {
    forall i :: 0 <= i < |hs| ==> WellFormed(hs[i]) && '\n' !in hs[i].title
  }

  function HeadingOf(ms: seq<Match>): seq<Heading> {
    seq(|ms|, i requires 0 <= i < |ms| => ms[i].heading)
  }

  lemma RenderOneLine(h: Heading)
    requires WellFormed(h) && '\n' !in h.title
    ensures '\n' !in Render(h)
  {
    assert '\n' !in WORD && '\n' !in ". ";
    assert '\n' !in h.number;
  }

  /** Reading on from the middle of a line. */
  lemma {:induction false} LinesToBreak(body: string, start: nat, i: nat, stop: nat)
    requires start <= i <= stop < |body| && body[stop] == '\n' && NoBreak(body, i, stop)
    ensures Lines(body, start, i) == [Span(start, stop)] + Lines(body, stop + 1, stop + 1)
    decreases stop - i
  {
    if i < stop { LinesToBreak(body, start, i + 1, stop); }
  }

  lemma OneLineNoMatch(body: string, l: Span)
    requires l.start <= l.end <= |body| && ParseHeading(body[l.start..l.end]) == None
    ensures MatchesIn(body, [l]) == []
  {
    var ls := [l];
    assert ls[1..] == [];
    assert MatchesIn(body, ls[1..]) == [];
  }

  lemma ShortIsNoHeading(line: string)
    requires line == ""
    ensures ParseHeading(line) == None
  {
  }

  lemma LinesAtEnd(body: string)
    ensures Lines(body, |body|, |body|) == [Span(|body|, |body|)]
  {
  }

  lemma LastLineEmpty(body: string, ls: seq<Span>)
    requires ls == [Span(|body|, |body|)]
    ensures MatchesIn(body, ls) == []
  {
    ShortIsNoHeading(body[|body|..|body|]);
    OneLineNoMatch(body, ls[0]);
  }

  /** The search reads a printed heading line and goes on behind it. */
  lemma BookStep(body: string, start: nat, h: Heading)
    requires WellFormed(h) && '\n' !in h.title
    requires start + |Render(h)| < |body| && body[start + |Render(h)|] == '\n'
    requires body[start..start + |Render(h)|] == Render(h)
    ensures var stop := start + |Render(h)|;
            MatchesIn(body, Lines(body, start, start))
            == [Match(start, stop, h)] + MatchesIn(body, Lines(body, stop + 1, stop + 1))
  {
    var stop := start + |Render(h)|;
    RenderOneLine(h);
    forall i | start <= i < stop ensures body[i] != '\n' {
      assert body[start..stop][i - start] == body[i];
    }
    LinesToBreak(body, start, start, stop);
    ParseHeadingIff(body[start..stop], h);
    var more := Lines(body, stop + 1, stop + 1);
    assert ([Span(start, stop)] + more)[1..] == more;
  }

  /** The headings from position `p` on. */
  function HeadingsAt(body: string, p: nat): seq<Heading>
    requires p <= |body|
  {
    HeadingOf(MatchesIn(body, Lines(body, p, p)))
  }

  lemma HeadingsAtLine(pre: string, h: Heading, rest: string)
    requires WellFormed(h) && '\n' !in h.title
    ensures var body := pre + (Render(h) + "\n" + rest);
            HeadingsAt(body, |pre|) == [h] + HeadingsAt(body, |pre + Render(h) + "\n"|)
  {
    var body, next := pre + (Render(h) + "\n" + rest), |pre| + |Render(h)| + 1;
    LineBehind(pre, Render(h), rest);
    BookStep(body, |pre|, h);
    HeadingOfCons(Match(|pre|, next - 1, h), MatchesIn(body, Lines(body, next, next)));
  }

  lemma HeadingsAtEnd(body: string)
    ensures HeadingsAt(body, |body|) == []
  {
    LinesAtEnd(body);
    LastLineEmpty(body, Lines(body, |body|, |body|));
  }

  lemma {:induction false} BookFrom(pre: string, hs: seq<Heading>)
    requires Printable(hs)
    ensures HeadingsAt(pre + Book(hs), |pre|) == hs
    decreases |hs|
  {
    if hs == [] {
      assert pre + Book(hs) == pre;
      HeadingsAtEnd(pre);
    } else {
      var next := pre + Render(hs[0]) + "\n";
      assert WellFormed(hs[0]) && '\n' !in hs[0].title;
      HeadingsAtLine(pre, hs[0], Book(hs[1..]));
      LineBehind(pre, Render(hs[0]), Book(hs[1..]));
      BookFrom(next, hs[1..]);
      assert hs == [hs[0]] + hs[1..];
    }
  }

  lemma LineBehind(pre: string, line: string, rest: string)
    ensures var body := pre + (line + "\n" + rest);
            && body == (pre + line + "\n") + rest
            && body[|pre|..|pre| + |line|] == line && body[|pre| + |line|] == '\n'
  {
  }

  lemma HeadingOfCons(m: Match, ms: seq<Match>)
    ensures HeadingOf([m] + ms) == [m.heading] + HeadingOf(ms)
  {
  }

  /** The headings of a printed book are the ones printed. */
  lemma HeadingsOfBook(hs: seq<Heading>)
    requires Printable(hs)
    ensures HeadingOf(Headings(Book(hs))) == hs
  {
    BookFrom("", hs);
    assert "" + Book(hs) == Book(hs);
  }

  /** A listing that starts at chapter 2. */
  const TWO_ONE: seq<Heading> := [Heading("2", "b"), Heading("1", "a"), Heading("2", "b"), Heading("1", "a")]

  /** On that book the kept text starts at the second chapter 2, not at the second
      chapter 1, which is the last heading. */
  lemma RestartMissed()
    ensures SecondOne(Headings(Book(TWO_ONE)), 3)
    ensures Kept(Book(TWO_ONE)) == Headings(Book(TWO_ONE))[2..] != Headings(Book(TWO_ONE))[3..]
  {
    var hs := TWO_ONE;
    var ms := Headings(Book(hs));
    HeadingsOfBook(hs);
    forall i | 0 <= i < 4 ensures |ms| == 4 && Number(ms[i]) == (if i % 2 == 0 then 2 else 1) {
      assert HeadingOf(ms)[i] == hs[i];
      OneDigit(ms[i].heading.number);
    }
    assert OnlyOneBefore(ms, 1, 3);
    AnchorIff(ms, 2);
  }

  lemma OneDigit(number: string)
    requires Numeric(number) && |number| == 1
    ensures Value(number) == DigitValue(number[0])
  {
    assert number[..0] == "";
  }
}
