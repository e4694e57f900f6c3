/** The command line of src/kbol/cli.py: its own search, the per-book
    statistics, the chunk-file validator, the list of books, and the
    book filter and ordering of the query command. */
module Cli {
  import opened Common
  import opened Ordering
  import opened ChunkFile
  import opened Search

  //
  // search_chunks (lines 55-71): like the library search, but without
  // the threshold, the empty-store test or the error prefix.
  //

  function CliSearch(files: seq<StoredFile>, score: RawChunk -> Result<real>, topK: int): Result<seq<Hit>>
  {
    match Loaded(files)
    case Err(e) => Err(e)
    case Ok(chunks) =>
      match Scored(chunks, score)
      case Err(e) => Err(e)
      case Ok(hits) => Ok(Ranked(hits, topK))
  }

  /** Every loaded chunk competes: a successful search returns
      min(top_k, n) of the n chunks, most similar first. */
  lemma CliSearchResults(files: seq<StoredFile>, score: RawChunk -> Result<real>, topK: int)
    requires topK >= 0 && CliSearch(files, score, topK).Ok?
    ensures var rs := CliSearch(files, score, topK).value;
      && |rs| == Min(topK, |Flatten(files)|)
      && forall i, j :: 0 <= i < j < |rs| ==> rs[i].similarity >= rs[j].similarity
  {
    LoadedIff(files);
    var chunks := Loaded(files).value;
    ScoredPositional(chunks, score);
    var hits := Scored(chunks, score).value;
    RankedLength(hits, topK);
    RankedDescending(hits, topK);
  }

  method SearchChunks(files: seq<StoredFile>, score: RawChunk -> Result<real>, topK: int) returns (r: Result<seq<Hit>>)
    ensures r == CliSearch(files, score, topK)
  {
    var loaded := LoadAll(files);
    if loaded.Err? {
      return Err(loaded.error);
    }
    var hits := ScoreAll(loaded.value, score);
    if hits.Err? {
      return Err(hits.error);
    }
    return Ok(Ranked(hits.value, topK));
  }

  //
  // stats (lines 111-163)
  //

  /** Lines 137-149: a file's row; None when opening, parsing or summing
      its token counts raised (line 150). An empty array gives a row of
      zeros. */
  function StatsRow(f: StoredFile): (r: Option<Row>)
    ensures r.Some? <==> f.chunks.Ok? && TokenTotal(f.chunks.value).Some?
    ensures r.Some? ==>
      r.value.book == f.stem && r.value.chunks == |f.chunks.value| && r.value.tokens == TokenTotal(f.chunks.value).value
    ensures r.Some? && r.value.chunks > 0 ==>
      r.value.average * r.value.chunks <= r.value.tokens < (r.value.average + 1) * r.value.chunks
    ensures r.Some? && r.value.chunks == 0 ==> r.value.average == 0
  {
    if f.chunks.Err? then None
    else
      var total := TokenTotal(f.chunks.value);
      if total.None? then None
      else
        var n := |f.chunks.value|;
        if n != 0 then
          FloorDivision(total.value, n);
          Some(Row(f.stem, n, total.value, total.value / n))
        else Some(Row(f.stem, n, total.value, 0))
  }

  datatype StatsReport = NoProcessedBooks | StatsTable(rows: seq<Row>, total: Option<Row>)

  /** Lines 116-161: nothing to list without a chunk file; otherwise a row
      per readable file and a TOTAL row when there is a chunk at all. */
  function Statistics(files: seq<StoredFile>): StatsReport
  {
    if files == [] then NoProcessedBooks
    else
      var rows := RowsOf(files, StatsRow);
      var chunks, tokens := ChunkSum(rows), TokenSum(rows);
      StatsTable(rows, if chunks > 0 then Some(Row("TOTAL", chunks, tokens, tokens / chunks)) else None)
  }

  lemma {:induction false} StatsRowsCount(files: seq<StoredFile>)
    ensures forall i :: 0 <= i < |RowsOf(files, StatsRow)| ==> RowsOf(files, StatsRow)[i].chunks >= 0
  {
    if files != [] {
      StatsRowsCount(files[1..]);
    }
  }

  /** The TOTAL row appears exactly when some readable file has a chunk,
      and then holds the sums over the readable files. */
  lemma StatsTotal(files: seq<StoredFile>)
    requires files != []
    ensures var rows := RowsOf(files, StatsRow);
      Statistics(files).total.Some? <==> exists i :: 0 <= i < |rows| && rows[i].chunks > 0
    ensures Statistics(files).total.Some? ==>
      var rows := RowsOf(files, StatsRow);
      Statistics(files).total.value.chunks == ChunkSum(rows) && Statistics(files).total.value.tokens == TokenSum(rows)
  {
    StatsRowsCount(files);
    ChunkSumPositive(RowsOf(files, StatsRow));
  }

  /** A file that cannot be read changes neither the rows nor the totals. */
  lemma UnreadableFileIgnored(a: seq<StoredFile>, f: StoredFile, b: seq<StoredFile>)
    requires f.chunks.Err? && a + b != []
    ensures Statistics(a + [f] + b) == Statistics(a + b)
  {
    RowlessFileIgnored(a, f, b, StatsRow);
  }

  /** The loop of lines 136-151. */
  method Stats(files: seq<StoredFile>) returns (report: StatsReport)
    ensures report == Statistics(files)
  {
    if files == [] {
      return NoProcessedBooks;
    }
    var rows: seq<Row> := [];
    var totalChunks, totalTokens := 0, 0;
    var i := 0;
    while i < |files|
      invariant i <= |files|
      invariant rows == RowsOf(files[..i], StatsRow)
      invariant totalChunks == ChunkSum(rows) && totalTokens == TokenSum(rows)
    {
      var row := StatsRow(files[i]);
      RowsStep(files, i, StatsRow);
      if row.Some? {
        SumsAppend(rows, [row.value]);
        rows := rows + [row.value];
        totalChunks := totalChunks + row.value.chunks;
        totalTokens := totalTokens + row.value.tokens;
      }
      i := i + 1;
    }
    assert files[..i] == files;
    var total := None;
    if totalChunks > 0 {
      total := Some(Row("TOTAL", totalChunks, totalTokens, totalTokens / totalChunks));
    }
    return StatsTable(rows, total);
  }

  //
  // list_books (lines 247-266)
  //

  /** The distinct books, in ascending order; empty when there are none
      (the "No processed books found." case). */
  method ListBooks(files: seq<StoredFile>) returns (books: seq<string>)
    ensures StrictlyIncreasing(books)
    ensures forall b :: b in books <==> b in BookSet(files)
  {
    var all: set<string> := {};
    var i := 0;
    while i < |files|
      invariant i <= |files|
      invariant all == BookSet(files[..i])
    {
      BookSetStep(files, i);
      if files[i].chunks.Ok? {
        all := all + set b | b in BookPrefix(files[i].chunks.value);
      }
      i := i + 1;
    }
    assert files[..i] == files;
    books := SortedElements(all);
  }

  //
  // validate (lines 269-304)
  //

  /** The embedding length the validator expects (line 287). */
  const Dimension: nat := 384

  /** The keys every chunk must have. */
  datatype Field = Book | Page | Content | Embedding

  function FieldName(f: Field): string
  {
    match f
    case Book => "book"
    case Page => "page"
    case Content => "content"
    case Embedding => "embedding"
  }

  /** The order they are checked in (line 282). */
  const Fields: seq<Field> := [Book, Page, Content, Embedding]

  datatype Issue =
    | MissingField(file: string, index: nat, field: Field)
    | WrongDimension(file: string, index: nat)
    | EmptyContent(file: string, index: nat)
    | Unreadable(file: string, error: string)

  /** `field in chunk` */
  predicate Has(c: RawChunk, field: Field)
  {
    match field
    case Book => c.book.Some?
    case Page => c.page.Some?
    case Content => c.content.Some?
    case Embedding => c.embedding.Some?
  }

  /** Lines 282-284, for the 1-based chunk number i. */
  function MissingFields(file: string, i: nat, c: RawChunk, fields: seq<Field>): seq<Issue>
  {
    if fields == [] then []
    else (if !Has(c, fields[0]) then [MissingField(file, i, fields[0])] else []) + MissingFields(file, i, c, fields[1..])
  }

  /** Lines 281-294. */
  function ChunkIssues(file: string, i: nat, c: RawChunk): seq<Issue>
  {
    MissingFields(file, i, c, Fields)
    + (if c.embedding.Some? && |c.embedding.value| != Dimension then [WrongDimension(file, i)] else [])
    + (if c.content.Some? && IsBlank(c.content.value) then [EmptyContent(file, i)] else [])
  }

  /** Line 280: the chunks numbered from i. */
  function ChunksIssues(file: string, chunks: seq<RawChunk>, i: nat): seq<Issue>
  {
    if chunks == [] then [] else ChunkIssues(file, i, chunks[0]) + ChunksIssues(file, chunks[1..], i + 1)
  }

  /** Lines 276-297: a file that cannot be opened or parsed is one issue. */
  function FileIssues(f: StoredFile): seq<Issue>
  {
    if f.chunks.Err? then [Unreadable(FileName(f), f.chunks.error)] else ChunksIssues(FileName(f), f.chunks.value, 1)
  }

  function Issues(files: seq<StoredFile>): seq<Issue>
  {
    if files == [] then [] else FileIssues(files[0]) + Issues(files[1..])
  }

  function DigitChar(d: nat): char
    requires d < 10
  {
    ('0' as int + d) as char
  }

  /** str(n) for a natural number. */
  function NatToString(n: nat): string
  {
    if n < 10 then [DigitChar(n)] else NatToString(n / 10) + [DigitChar(n % 10)]
  }

  /** Lines 284, 289, 294 and 297. */
  function Message(issue: Issue): string
  {
    match issue
    case MissingField(file, i, field) => file + ":chunk" + NatToString(i) + " missing " + FieldName(field)
    case WrongDimension(file, i) => file + ":chunk" + NatToString(i) + " has wrong embedding dimension"
    case EmptyContent(file, i) => file + ":chunk" + NatToString(i) + " has empty content"
    case Unreadable(file, error) => file + ": " + error
  }

  function Messages(issues: seq<Issue>): (r: seq<string>)
    ensures |r| == |issues| && forall i :: 0 <= i < |issues| ==> r[i] == Message(issues[i])
  {
    seq(|issues|, i requires 0 <= i < |issues| => Message(issues[i]))
  }

  /** A chunk passes exactly when it has all four keys, an embedding of
      the expected length and content that is not blank. */
  lemma ChunkIssuesIff(file: string, i: nat, c: RawChunk)
    ensures ChunkIssues(file, i, c) == [] <==>
      && c.book.Some? && c.page.Some? && c.content.Some? && c.embedding.Some?
      && |c.embedding.value| == Dimension && !IsBlank(c.content.value)
  {
    MissingFieldsEmpty(file, i, c, Fields);
    assert Fields[0] == Book && Fields[1] == Page && Fields[2] == Content && Fields[3] == Embedding;
  }

  lemma {:induction false} MissingFieldsEmpty(file: string, i: nat, c: RawChunk, fields: seq<Field>)
    ensures MissingFields(file, i, c, fields) == [] <==> forall j :: 0 <= j < |fields| ==> Has(c, fields[j])
  {
    if fields != [] {
      MissingFieldsEmpty(file, i, c, fields[1..]);
      assert forall j :: 0 < j < |fields| ==> fields[j] == fields[1..][j - 1];
    }
  }

  lemma {:induction false} MissingFieldsExact(file: string, i: nat, c: RawChunk, fields: seq<Field>, issue: Issue)
    requires issue.MissingField?
    ensures issue in MissingFields(file, i, c, fields) <==>
      issue.file == file && issue.index == i && issue.field in fields && !Has(c, issue.field)
  {
    if fields != [] {
      MissingFieldsExact(file, i, c, fields[1..], issue);
      assert fields == [fields[0]] + fields[1..];
    }
  }

  /** A missing key is reported exactly for the chunks that lack it,
      under their 1-based number, and no others. */
  lemma {:induction false} MissingReported(file: string, chunks: seq<RawChunk>, i: nat, issue: Issue)
    requires issue.MissingField?
    ensures issue in ChunksIssues(file, chunks, i) <==>
      issue.file == file && i <= issue.index < i + |chunks| && !Has(chunks[issue.index - i], issue.field)
  {
    if chunks != [] {
      MissingReported(file, chunks[1..], i + 1, issue);
      MissingInChunk(file, i, chunks[0], issue);
      MissingStep(file, chunks, i, issue, ChunkIssues(file, i, chunks[0]), ChunksIssues(file, chunks[1..], i + 1));
    }
  }

  /** The step of MissingReported on the first chunk's issues and the
      rest's, taken as plain sequences. */
  lemma MissingStep(file: string, chunks: seq<RawChunk>, i: nat, issue: Issue, head: seq<Issue>, tail: seq<Issue>)
    requires issue.MissingField? && chunks != []
    requires issue in head <==> issue.file == file && issue.index == i && !Has(chunks[0], issue.field)
    requires issue in tail <==>
      issue.file == file && i + 1 <= issue.index < i + |chunks| && !Has(chunks[1..][issue.index - (i + 1)], issue.field)
    ensures issue in head + tail <==>
      issue.file == file && i <= issue.index < i + |chunks| && !Has(chunks[issue.index - i], issue.field)
  {
    if i + 1 <= issue.index < i + |chunks| {
      assert chunks[1..][issue.index - (i + 1)] == chunks[issue.index - i];
    }
  }

  lemma MissingInChunk(file: string, i: nat, c: RawChunk, issue: Issue)
    requires issue.MissingField?
    ensures issue in ChunkIssues(file, i, c) <==>
      issue.file == file && issue.index == i && !Has(c, issue.field)
  {
    MissingFieldsExact(file, i, c, Fields, issue);
    assert issue.field in Fields by {
      match issue.field
      case Book => assert Fields[0] == Book;
      case Page => assert Fields[1] == Page;
      case Content => assert Fields[2] == Content;
      case Embedding => assert Fields[3] == Embedding;
    }
  }

  method CheckChunks(file: string, chunks: seq<RawChunk>) returns (issues: seq<Issue>)
    ensures issues == ChunksIssues(file, chunks, 1)
  {
    issues := [];
    var k := 0;
    while k < |chunks|
      invariant k <= |chunks|
      invariant issues + ChunksIssues(file, chunks[k..], k + 1) == ChunksIssues(file, chunks, 1)
    {
      assert chunks[k..][0] == chunks[k] && chunks[k..][1..] == chunks[k + 1..];
      var found := ChunkIssues(file, k + 1, chunks[k]);
      AppendAssoc(issues, found, ChunksIssues(file, chunks[k + 1..], k + 2));
      issues := issues + found;
      k := k + 1;
    }
    assert issues + [] == issues;
  }

  /** The issues of every file, rendered in the order found. */
  method Validate(files: seq<StoredFile>) returns (report: seq<string>)
    ensures report == Messages(Issues(files))
  {
    var issues: seq<Issue> := [];
    var i := 0;
    while i < |files|
      invariant i <= |files|
      invariant issues + Issues(files[i..]) == Issues(files)
    {
      assert files[i..][0] == files[i] && files[i..][1..] == files[i + 1..];
      var found: seq<Issue>;
      if files[i].chunks.Err? {
        found := [Unreadable(FileName(files[i]), files[i].chunks.error)];
      } else {
        found := CheckChunks(FileName(files[i]), files[i].chunks.value);
      }
      AppendAssoc(issues, found, Issues(files[i + 1..]));
      issues := issues + found;
      i := i + 1;
    }
    assert issues + [] == issues;
    report := Messages(issues);
  }

  //
  // The book filter and ordering of query (lines 195-212).
  //

  datatype Selection = NoContent | NoBookMatch | Selected(chunks: seq<Hit>)

  function BookOf(h: Hit): string
  {
    if h.chunk.book.Some? then h.chunk.book.value else ""
  }

  /** `x.get("page", 0)` */
  function PageOf(h: Hit): int
  {
    if h.chunk.page.Some? then h.chunk.page.value else 0
  }

  /** `book_filter.lower() in c["book"].lower()` */
  predicate BookMatches(filter: string, h: Hit)
  {
    Contains(Lower(BookOf(h)), Lower(filter))
  }

  /** Lines 202-204: the hits whose book matches, in order; the first hit
      without a "book" raises. */
  function ByBook(hits: seq<Hit>, filter: string): Result<seq<Hit>>
  {
    if hits == [] then Ok([])
    else if hits[0].chunk.book.None? then Err(KeyError("book"))
    else Prepend(if BookMatches(filter, hits[0]) then [hits[0]] else [], ByBook(hits[1..], filter))
  }

  /** The filter fails exactly when a hit has no book, and otherwise
      keeps exactly the matching hits, each as often as it was found. */
  lemma {:induction false} ByBookExact(hits: seq<Hit>, filter: string)
    ensures ByBook(hits, filter).Ok? <==> forall i :: 0 <= i < |hits| ==> hits[i].chunk.book.Some?
    ensures ByBook(hits, filter).Ok? ==>
      forall h :: h in ByBook(hits, filter).value <==> h in hits && BookMatches(filter, h)
    ensures ByBook(hits, filter).Ok? ==>
      forall h :: multiset(ByBook(hits, filter).value)[h] == if BookMatches(filter, h) then multiset(hits)[h] else 0
  {
    if hits != [] {
      ByBookExact(hits[1..], filter);
      SplitFirst(hits);
      assert forall i :: 0 < i < |hits| ==> hits[i] == hits[1..][i - 1];
    }
    if ByBook(hits, filter).Ok? {
      ByBookCounts(hits, filter);
    }
  }

  lemma {:induction false} ByBookCounts(hits: seq<Hit>, filter: string)
    requires ByBook(hits, filter).Ok?
    ensures forall h :: multiset(ByBook(hits, filter).value)[h] == if BookMatches(filter, h) then multiset(hits)[h] else 0
  {
    if hits != [] {
      var kept := ByBook(hits[1..], filter).value;
      ByBookCounts(hits[1..], filter);
      var head := if BookMatches(filter, hits[0]) then [hits[0]] else [];
      assert ByBook(hits, filter).value == head + kept;
      SplitFirst(hits);
      assert multiset(hits) == multiset([hits[0]]) + multiset(hits[1..]);
    }
  }

  /** The condition of the comprehension at line 203. */
  function BookMatching(filter: string): Hit -> bool
  {
    (h: Hit) => BookMatches(filter, h)
  }

  /** When no hit lacks a book, the comprehension keeps the matching hits
      in their search order: the hits at exactly the matching positions,
      in increasing position order. */
  lemma {:induction false} ByBookIsFilter(hits: seq<Hit>, filter: string) returns (idx: seq<int>)
    requires ByBook(hits, filter).Ok?
    ensures FilteredAt(ByBook(hits, filter).value, hits, BookMatching(filter), idx)
  {
    if hits == [] {
      FilterEmpty(BookMatching(filter));
      idx := [];
    } else {
      var rest := ByBookIsFilter(hits[1..], filter);
      FilterCons(hits[0], hits[1..], ByBook(hits[1..], filter).value, BookMatching(filter), rest);
      SplitFirst(hits);
      idx := (if BookMatches(filter, hits[0]) then [0] else []) + Shift(rest);
    }
  }

  /** `key=lambda x: (x["book"], x.get("page", 0))`: by book, then by
      page. */
  function ByBookAndPage(): (Hit, Hit) -> bool
  {
    (a: Hit, b: Hit) => StrLt(BookOf(a), BookOf(b)) || (BookOf(a) == BookOf(b) && PageOf(a) <= PageOf(b))
  }

  lemma ByBookAndPageIsPreorder()
    ensures TotalPreorder(ByBookAndPage())
  {
    var le := ByBookAndPage();
    forall a, b ensures le(a, b) || le(b, a) {
      if BookOf(a) != BookOf(b) {
        StrLtTotal(BookOf(a), BookOf(b));
      }
    }
    forall a, b, c | le(a, b) && le(b, c) ensures le(a, c) {
      if StrLt(BookOf(a), BookOf(b)) && StrLt(BookOf(b), BookOf(c)) {
        StrLtTransitive(BookOf(a), BookOf(b), BookOf(c));
      }
    }
  }

  /** Hits that rank equal by (book, page) have the same book. */
  lemma SameRankSameBook(a: Hit, b: Hit)
    requires Equivalent(ByBookAndPage(), a, b)
    ensures BookOf(a) == BookOf(b)
  {
    if BookOf(a) != BookOf(b) {
      StrLtAsymmetric(BookOf(a), BookOf(b));
    }
  }

  /** A hit whose book matches ranks equal only to hits of the same book,
      which match too, so the filter keeps its whole (book, page) class,
      in search order. */
  lemma {:induction false} ByBookKeepsTies(hits: seq<Hit>, filter: string, y: Hit)
    requires ByBook(hits, filter).Ok? && BookMatches(filter, y)
    ensures SameRank(ByBook(hits, filter).value, ByBookAndPage(), y) == SameRank(hits, ByBookAndPage(), y)
  {
    if hits != [] {
      ByBookKeepsTies(hits[1..], filter, y);
      SameRankCons(hits[0], hits[1..], ByBookAndPage(), y);
      SplitFirst(hits);
      if BookMatches(filter, hits[0]) {
        SameRankCons(hits[0], ByBook(hits[1..], filter).value, ByBookAndPage(), y);
      } else {
        assert ByBook(hits, filter).value == ByBook(hits[1..], filter).value;
        if Equivalent(ByBookAndPage(), hits[0], y) {
          SameRankSameBook(hits[0], y);
          assert false;
        }
      }
    }
  }

  /** The hits query keeps: all of them without a (non-empty) book
      filter, else those whose book matches. */
  predicate Wanted(filter: Option<string>, h: Hit)
  {
    !(filter.Some? && filter.value != "") || BookMatches(filter.value, h)
  }

  /** Lines 195-212: nothing found; nothing in the named book; or the hits
      to answer from, ordered by book and page. */
  function Select(hits: seq<Hit>, filter: Option<string>): Result<Selection>
  {
    if hits == [] then Ok(NoContent)
    else if filter.Some? && filter.value != "" then
      match ByBook(hits, filter.value)
      case Err(e) => Err(e)
      case Ok(kept) => if kept == [] then Ok(NoBookMatch) else Ok(Selected(SortBy(kept, ByBookAndPage())))
    else if exists i :: 0 <= i < |hits| && hits[i].chunk.book.None? then Err(KeyError("book"))
    else Ok(Selected(SortBy(hits, ByBookAndPage())))
  }

  /** The selected hits are the matching ones, each as often as found,
      ordered by book and then page, ties in search order: the selected
      hits of a wanted (book, page) are all the searched hits of that
      book and page, in the order the search returned them. */
  lemma SelectResult(hits: seq<Hit>, filter: Option<string>, y: Hit)
    requires Select(hits, filter).Ok? && Select(hits, filter).value.Selected?
    ensures var cs := Select(hits, filter).value.chunks;
      var kept := if filter.Some? && filter.value != "" then ByBook(hits, filter.value).value else hits;
      && SortedBy(cs, ByBookAndPage())
      && multiset(cs) == multiset(kept)
      && SameRank(cs, ByBookAndPage(), y) == SameRank(kept, ByBookAndPage(), y)
      && (forall h :: h in cs ==> h in hits && h.chunk.book.Some?)
      && (filter.Some? && filter.value != "" ==> forall h :: h in cs ==> BookMatches(filter.value, h))
      && (forall h :: multiset(cs)[h] == if Wanted(filter, h) then multiset(hits)[h] else 0)
      && (Wanted(filter, y) ==> SameRank(cs, ByBookAndPage(), y) == SameRank(hits, ByBookAndPage(), y))
  {
    var kept := if filter.Some? && filter.value != "" then ByBook(hits, filter.value).value else hits;
    ByBookAndPageIsPreorder();
    SortIsSorted(kept, ByBookAndPage());
    SortIsPermutation(kept, ByBookAndPage());
    SortIsStable(kept, ByBookAndPage(), y);
    if filter.Some? && filter.value != "" {
      ByBookExact(hits, filter.value);
      if BookMatches(filter.value, y) {
        ByBookKeepsTies(hits, filter.value, y);
      }
    }
    var cs := SortBy(kept, ByBookAndPage());
    forall h | h in cs ensures h in kept {
      assert h in multiset(cs);
    }
  }
}
