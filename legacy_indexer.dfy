/** The older BookIndexer (src/kbol/indexer.py), as written. Its page loop
    calls `self.chunk_text`, which the class never defines, and its final
    statistics divide by total_chunks without a guard. */
module LegacyIndexer {
  import opened Common
  import opened Chunker
  import opened Embedder
  import opened Processor

  /** What looking up the missing method raises (line 86). */
  const MissingChunkText: string := "'BookIndexer' object has no attribute 'chunk_text'"

  /** What `total_tokens / total_chunks` raises when total_chunks is 0. */
  const DivisionByZero: string := "division by zero"

  /** Lines 71-132. PdfReader raises before the try; the first non-blank
      page raises on line 86, before any batch, record or checkpoint; a
      PDF whose pages are all blank is written as an empty final file and
      counted. */
  function PdfOutcome(pdf: Pdf, stats: Stats, files: Files): Outcome
  {
    if pdf.pages.Err? then Outcome(Err(pdf.pages.error), stats, files)
    else if !AllBlank(pdf.pages.value) then
      Outcome(Err(MissingChunkText), stats, files)
    else Outcome(Ok([]), stats.(processedBooks := stats.processedBooks + 1), files[OutputPath(pdf.stem) := []])
  }

  predicate AllBlank(pages: seq<string>)
  {
    forall j :: 0 <= j < |pages| ==> IsBlank(pages[j])
  }

  lemma AllBlankStep(pages: seq<string>, k: int)
    requires 0 <= k < |pages| && AllBlank(pages[..k]) && IsBlank(pages[k])
    ensures AllBlank(pages[..k + 1])
  {
    assert forall j :: 0 <= j < k ==> pages[..k + 1][j] == pages[..k][j];
  }

  /** Lines 150-160: the PDFs from index i on, every failure caught. */
  function BooksFrom(pdfs: seq<Pdf>, i: nat, all: seq<ChunkRecord>, stats: Stats, files: Files): Outcome
    decreases |pdfs| - i
  {
    if i >= |pdfs| then Outcome(Ok(all), stats, files)
    else
      var o := PdfOutcome(pdfs[i], stats, files);
      BooksFrom(pdfs, i + 1, if o.result.Ok? then all + o.result.value else all, o.stats, o.files)
  }

  /** Lines 134-175: no PDF gives []; otherwise the statistics panel is
      built whatever the totals, and its average divides by
      total_chunks. */
  function RunOutcome(pdfs: seq<Pdf>, stats: Stats, files: Files): Outcome
  {
    if pdfs == [] then Outcome(Ok([]), stats, files)
    else
      var o := BooksFrom(pdfs, 0, [], stats, files);
      if o.stats.totalChunks == 0 then Outcome(Err(DivisionByZero), o.stats, o.files) else o
  }

  /** No page ever gets past line 86, so no chunk is ever recorded and
      the chunk, token and failure counts never move. */
  lemma {:induction false} BooksKeepTotals(pdfs: seq<Pdf>, i: nat, all: seq<ChunkRecord>, stats: Stats, files: Files)
    ensures var o := BooksFrom(pdfs, i, all, stats, files);
      && o.result == Ok(all)
      && o.stats.(processedBooks := stats.processedBooks) == stats
    decreases |pdfs| - i
  {
    if i < |pdfs| {
      var o := PdfOutcome(pdfs[i], stats, files);
      assert o.result.Ok? ==> all + o.result.value == all;
      BooksKeepTotals(pdfs, i + 1, all, o.stats, o.files);
    }
  }

  /** Any PDF with a non-blank page fails, and leaves the statistics and
      files as they were. */
  lemma NonBlankPageRaises(pdf: Pdf, stats: Stats, files: Files, j: int)
    requires pdf.pages.Ok? && 0 <= j < |pdf.pages.value| && !IsBlank(pdf.pages.value[j])
    ensures PdfOutcome(pdf, stats, files) == Outcome(Err(MissingChunkText), stats, files)
  {
  }

  /** Every run over a non-empty list of PDFs, starting from zero chunks
      (as a new indexer does), raises ZeroDivisionError out of
      process_books. */
  lemma EveryRunRaises(pdfs: seq<Pdf>, stats: Stats, files: Files)
    requires pdfs != [] && stats.totalChunks == 0
    ensures RunOutcome(pdfs, stats, files).result == Err(DivisionByZero)
  {
    BooksKeepTotals(pdfs, 0, [], stats, files);
  }

  class BookIndexer {
    const ollamaUrl: string
    const embedModel: string
    const chunkSize: int
    const chunkOverlap: int
    const batchSize: int
    /** Stored and never used (line 37). */
    const maxRetries: int
    const tokenizer: Tokenizer
    /** One POST to ollamaUrl/api/embeddings for embedModel. */
    const service: string -> Response
    var stats: Stats
    /** The contents of data/processed. */
    var files: Files

    /** Lines 23-45. */
    constructor (ollamaUrl: string, embedModel: string, chunkSize: int, chunkOverlap: int, batchSize: int,
                 maxRetries: int, tokenizer: Tokenizer, service: string -> Response, files: Files)
      ensures this.ollamaUrl == ollamaUrl && this.embedModel == embedModel
      ensures this.chunkSize == chunkSize && this.chunkOverlap == chunkOverlap
      ensures this.batchSize == batchSize && this.maxRetries == maxRetries
      ensures this.tokenizer == tokenizer && this.service == service
      ensures stats == Stats(0, 0, 0, 0) && this.files == files
    {
      this.ollamaUrl := ollamaUrl;
      this.embedModel := embedModel;
      this.chunkSize := chunkSize;
      this.chunkOverlap := chunkOverlap;
      this.batchSize := batchSize;
      this.maxRetries := maxRetries;
      this.tokenizer := tokenizer;
      this.service := service;
      stats := Stats(0, 0, 0, 0);
      this.files := files;
    }

    /** Lines 47-69: the same request and mapping as the package's
        Embedder. */
    method GetEmbeddingsBatch(texts: seq<string>) returns (r: Result<seq<Option<Vector>>>)
      ensures r == Embeddings(Gather(service, texts))
    {
      var client := new Embedder(ollamaUrl, embedModel, service);
      r := client.GetEmbeddingsBatch(texts);
    }

    /** Lines 71-132. */
    method ProcessPdf(pdf: Pdf) returns (r: Result<seq<ChunkRecord>>)
      modifies this
      ensures Outcome(r, stats, files) == PdfOutcome(pdf, old(stats), old(files))
    {
      if pdf.pages.Err? {
        return Err(pdf.pages.error);
      }
      var pages := pdf.pages.value;
      var chunks: seq<ChunkRecord> := [];
      var k := 0;
      while k < |pages|
        invariant k <= |pages|
        invariant AllBlank(pages[..k])
        invariant stats == old(stats) && files == old(files)
      {
        StripEmptyIffBlank(pages[k]);
        if Strip(pages[k]) != [] {
          // line 86: self.chunk_text raises AttributeError; the error is
          // reported and re-raised (lines 126-128)
          return Err(MissingChunkText);
        }
        AllBlankStep(pages, k);
        k := k + 1;
      }
      assert pages[..k] == pages;
      files := files[OutputPath(pdf.stem) := chunks];
      stats := stats.(processedBooks := stats.processedBooks + 1);
      return Ok(chunks);
    }

    /** Lines 134-175. */
    method ProcessBooks(pdfs: seq<Pdf>) returns (r: Result<seq<ChunkRecord>>)
      modifies this
      ensures Outcome(r, stats, files) == RunOutcome(pdfs, old(stats), old(files))
    {
      if pdfs == [] {
        return Ok([]);
      }
      var allChunks := [];
      var i := 0;
      ghost var final := BooksFrom(pdfs, 0, [], stats, files);
      while i < |pdfs|
        invariant i <= |pdfs|
        invariant BooksFrom(pdfs, i, allChunks, stats, files) == final
      {
        var chunks := ProcessPdf(pdfs[i]);
        if chunks.Ok? {
          allChunks := allChunks + chunks.value;
        }
        i := i + 1;
      }
      if stats.totalChunks == 0 {
        // the average of line 170 divides by zero
        return Err(DivisionByZero);
      }
      return Ok(allChunks);
    }
  }
}
