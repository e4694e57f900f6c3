/** BookIndexer (src/kbol/indexer/core/processor.py): a PDF's pages are
    chunked, the chunks embedded batch by batch, the embedded ones kept as
    chunk records, with running statistics, a checkpoint every ten pages
    and a final file per book. */
module Processor {
  import opened Common
  import opened Chunker
  import opened Embedder

  /** One chunk of the output files (lines 76-83), without its
      processed_at timestamp. */
  datatype ChunkRecord = ChunkRecord(book: string, page: int, content: string, embedding: Vector, tokenCount: int)

  /** self.stats (lines 41-46). */
  datatype Stats = Stats(totalChunks: int, totalTokens: int, failedChunks: int, processedBooks: int)

  /** A PDF as the indexer sees it: its file stem and the extracted text of
      each page, or the error PdfReader raises on opening it. */
  datatype Pdf = Pdf(stem: string, pages: Result<seq<string>>)

  /** The files under data/processed, each holding a list of chunk records. */
  type Files = map<string, seq<ChunkRecord>>

  function OutputPath(stem: string): string
  {
    "data/processed/" + stem + ".json"
  }

  /** output_path.with_suffix('.tmp.json'): the checkpoint file. */
  function TempPath(stem: string): string
  {
    "data/processed/" + stem + ".tmp.json"
  }

  lemma OutputIsNotTemp(stem: string)
    ensures OutputPath(stem) != TempPath(stem)
  {
    assert |OutputPath(stem)| != |TempPath(stem)|;
  }

  /** What `range(0, n, 0)` raises. */
  const RangeStepZero: string := "range() arg 3 must not be zero"

  /** The indexer's parameters. */
  datatype Setup = Setup(tok: Tokenizer, chunkSize: int, chunkOverlap: int, batchSize: int, service: string -> Response)

  /** The chunker's window loop ends (see Chunker.Terminates). */
  predicate Valid(s: Setup)
  {
    Terminates(s.chunkSize, s.chunkOverlap)
  }

  //
  // The reference result: which records a document yields and how the
  // statistics move, stated without the loops.
  //

  function TokenSum(rs: seq<ChunkRecord>): int
  {
    if rs == [] then 0 else rs[0].tokenCount + TokenSum(rs[1..])
  }

  /** Statistics after recording the chunks rs and `missed` chunks whose
      embedding was None. */
  function Add(st: Stats, rs: seq<ChunkRecord>, missed: int): Stats
  {
    Stats(st.totalChunks + |rs|, st.totalTokens + TokenSum(rs), st.failedChunks + missed, st.processedBooks)
  }

  function RecordOf(s: Setup, stem: string, page: int, content: string, v: Vector): ChunkRecord
  {
    ChunkRecord(stem, page, content, v, |s.tok.encode(content)|)
  }

  /** The record chunk c of a page yields: one when its embedding came
      back, none otherwise. */
  function Head(s: Setup, stem: string, page: int, c: string): seq<ChunkRecord>
  {
    if Embedded(s.service(c)) then [RecordOf(s, stem, page, c, s.service(c).body.value.embedding.value)] else []
  }

  function Miss(s: Setup, c: string): int
  {
    if Embedded(s.service(c)) then 0 else 1
  }

  /** The records of a page's chunks cs, in order. */
  function Kept(s: Setup, stem: string, page: int, cs: seq<string>): seq<ChunkRecord>
  {
    if cs == [] then [] else Head(s, stem, page, cs[0]) + Kept(s, stem, page, cs[1..])
  }

  /** The number of chunks of cs without an embedding. */
  function Missed(s: Setup, cs: seq<string>): int
  {
    if cs == [] then 0 else Miss(s, cs[0]) + Missed(s, cs[1..])
  }

  /** A blank page, or a non-positive batch size (for which the batch
      range is empty), yields nothing. */
  function PageRecords(s: Setup, stem: string, page: int, text: string): seq<ChunkRecord>
    requires Valid(s)
  {
    if IsBlank(text) || s.batchSize <= 0 then [] else Kept(s, stem, page, Chunks(s.tok, s.chunkSize, s.chunkOverlap, text))
  }

  function PageMissed(s: Setup, text: string): int
    requires Valid(s)
  {
    if IsBlank(text) || s.batchSize <= 0 then 0 else Missed(s, Chunks(s.tok, s.chunkSize, s.chunkOverlap, text))
  }

  /** The records of pages k.. (page numbers count from 1). */
  function Expected(s: Setup, stem: string, pages: seq<string>, k: nat): seq<ChunkRecord>
    requires Valid(s)
    decreases |pages| - k
  {
    if k >= |pages| then [] else PageRecords(s, stem, k + 1, pages[k]) + Expected(s, stem, pages, k + 1)
  }

  function ExpectedMissed(s: Setup, pages: seq<string>, k: nat): int
    requires Valid(s)
    decreases |pages| - k
  {
    if k >= |pages| then 0 else PageMissed(s, pages[k]) + ExpectedMissed(s, pages, k + 1)
  }

  /** The chunks of cs from position i on. */
  function Rest(cs: seq<string>, i: nat): seq<string>
  {
    if i < |cs| then cs[i..] else []
  }

  /** The slice page_chunks[i : i + batch_size] (line 71). */
  function Batch(cs: seq<string>, i: nat, size: int): seq<string>
    requires i < |cs| && size > 0
  {
    cs[i..Min(i + size, |cs|)]
  }

  /** Every batch of cs from i on comes back without a reply that is not
      JSON. */
  predicate BatchesOk(s: Setup, cs: seq<string>, i: nat)
    requires s.batchSize > 0
    decreases |cs| - i
  {
    i >= |cs| || (Embeddings(Gather(s.service, Batch(cs, i, s.batchSize))).Ok? && BatchesOk(s, cs, i + s.batchSize))
  }

  /** A page is processed without raising. */
  predicate PageOk(s: Setup, text: string)
    requires Valid(s)
  {
    IsBlank(text) || s.batchSize < 0 || (s.batchSize > 0 && BatchesOk(s, Chunks(s.tok, s.chunkSize, s.chunkOverlap, text), 0))
  }

  //
  // The loops of process_pdf, pass by pass.
  //

  /** What the loops have built so far: the returned list, the statistics
      and the files. */
  datatype Acc = Acc(chunks: seq<ChunkRecord>, stats: Stats, files: Files)

  /** The state reached and the exception raised, if any. */
  datatype Step = Step(acc: Acc, error: Option<string>)

  /** Lines 75-88: one (chunk, embedding) pair. */
  function Record(s: Setup, stem: string, page: int, c: string, e: Option<Vector>, a: Acc): Acc
  {
    if e.Some? then
      var rec := RecordOf(s, stem, page, c, e.value);
      a.(chunks := a.chunks + [rec],
         stats := a.stats.(totalChunks := a.stats.totalChunks + 1, totalTokens := a.stats.totalTokens + rec.tokenCount))
    else a.(stats := a.stats.(failedChunks := a.stats.failedChunks + 1))
  }

  /** Lines 74-88: the pairs of a batch from position i on. */
  function Pairs(s: Setup, stem: string, page: int, batch: seq<string>, embs: seq<Option<Vector>>, i: nat, a: Acc): Acc
    requires |batch| == |embs| && i <= |batch|
    decreases |batch| - i
  {
    if i == |batch| then a else Pairs(s, stem, page, batch, embs, i + 1, Record(s, stem, page, batch[i], embs[i], a))
  }

  /** Lines 70-88: the batches of a page's chunks from position i on. */
  function Batches(s: Setup, stem: string, page: int, cs: seq<string>, i: nat, a: Acc): Step
    requires s.batchSize > 0
    decreases |cs| - i
  {
    if i >= |cs| then Step(a, None)
    else
      var batch := Batch(cs, i, s.batchSize);
      var r := Embeddings(Gather(s.service, batch));
      if r.Err? then Step(a, Some(r.error))
      else Batches(s, stem, page, cs, i + s.batchSize, Pairs(s, stem, page, batch, r.value, 0, a))
  }

  /** Lines 63-95: one page. */
  function PageStep(s: Setup, stem: string, page: int, text: string, a: Acc): Step
    requires Valid(s)
  {
    if IsBlank(text) then Step(a, None)
    else if s.batchSize == 0 then Step(a, Some(RangeStepZero))
    else
      var r := if s.batchSize < 0 then Step(a, None)
               else Batches(s, stem, page, Chunks(s.tok, s.chunkSize, s.chunkOverlap, text), 0, a);
      if r.error.Some? then r
      else if page % 10 == 0 then Step(r.acc.(files := r.acc.files[TempPath(stem) := r.acc.chunks]), None)
      else r
  }

  /** Lines 62-95: the pages from index k on, the exception of the first
      page that raises ending the walk. */
  function Pages(s: Setup, stem: string, pages: seq<string>, k: nat, a: Acc): Step
    requires Valid(s)
    decreases |pages| - k
  {
    if k >= |pages| then Step(a, None)
    else
      var r := PageStep(s, stem, k + 1, pages[k], a);
      if r.error.Some? then r else Pages(s, stem, pages, k + 1, r.acc)
  }

  /** The result of process_pdf with the statistics and files after it. */
  datatype Outcome = Outcome(result: Result<seq<ChunkRecord>>, stats: Stats, files: Files)

  /** Lines 80-114. PdfReader raises before the try (line 83), leaving
      everything as it was; an exception inside the try removes the
      checkpoint and propagates; success writes the final file, removes
      the checkpoint and counts the book. */
  function ProcessPdfSpec(s: Setup, pdf: Pdf, stats: Stats, files: Files): Outcome
    requires Valid(s)
  {
    if pdf.pages.Err? then Outcome(Err(pdf.pages.error), stats, files)
    else
      var r := Pages(s, pdf.stem, pdf.pages.value, 0, Acc([], stats, files));
      if r.error.Some? then Outcome(Err(r.error.value), r.acc.stats, r.acc.files - {TempPath(pdf.stem)})
      else Outcome(Ok(r.acc.chunks), r.acc.stats.(processedBooks := r.acc.stats.processedBooks + 1),
                   r.acc.files[OutputPath(pdf.stem) := r.acc.chunks] - {TempPath(pdf.stem)})
  }

  //
  // The loops against the reference result.
  //

  lemma {:induction false} TokenSumAppend(a: seq<ChunkRecord>, b: seq<ChunkRecord>)
    ensures TokenSum(a + b) == TokenSum(a) + TokenSum(b)
  {
    if a != [] {
      assert (a + b)[1..] == a[1..] + b;
      TokenSumAppend(a[1..], b);
    } else {
      assert a + b == b;
    }
  }

  lemma AddAdd(st: Stats, r1: seq<ChunkRecord>, m1: int, r2: seq<ChunkRecord>, m2: int)
    ensures Add(Add(st, r1, m1), r2, m2) == Add(st, r1 + r2, m1 + m2)
  {
    TokenSumAppend(r1, r2);
  }

  lemma {:induction false} KeptAppend(s: Setup, stem: string, page: int, a: seq<string>, b: seq<string>)
    ensures Kept(s, stem, page, a + b) == Kept(s, stem, page, a) + Kept(s, stem, page, b)
    ensures Missed(s, a + b) == Missed(s, a) + Missed(s, b)
  {
    if a != [] {
      assert (a + b)[0] == a[0] && (a + b)[1..] == a[1..] + b;
      KeptAppend(s, stem, page, a[1..], b);
      AppendAssoc(Head(s, stem, page, a[0]), Kept(s, stem, page, a[1..]), Kept(s, stem, page, b));
    } else {
      assert a + b == b;
    }
  }

  lemma KeptStep(s: Setup, stem: string, page: int, cs: seq<string>, i: nat)
    requires i < |cs|
    ensures Kept(s, stem, page, cs[i..]) == Head(s, stem, page, cs[i]) + Kept(s, stem, page, cs[i + 1..])
    ensures Missed(s, cs[i..]) == Miss(s, cs[i]) + Missed(s, cs[i + 1..])
  {
    assert cs[i..][0] == cs[i] && cs[i..][1..] == cs[i + 1..];
  }

  /** Recording a chunk with the embedding its reply carries adds its
      records and its miss to the statistics. */
  lemma RecordIsHead(s: Setup, stem: string, page: int, c: string, a: Acc)
    requires !Unparsable(s.service(c))
    ensures Record(s, stem, page, c, EmbeddingOf(s.service(c)), a)
      == Acc(a.chunks + Head(s, stem, page, c), Add(a.stats, Head(s, stem, page, c), Miss(s, c)), a.files)
  {
    var h := Head(s, stem, page, c);
    if Embedded(s.service(c)) {
      assert TokenSum(h) == h[0].tokenCount + TokenSum([]);
    } else {
      assert a.chunks + h == a.chunks;
    }
  }

  /** The pairs of a batch from position i on add the records and misses
      of the rest of the batch. */
  lemma {:induction false} PairsExact(s: Setup, stem: string, page: int, batch: seq<string>,
                                      embs: seq<Option<Vector>>, i: nat, a: Acc)
    requires |batch| == |embs| && i <= |batch|
    requires forall j :: 0 <= j < |batch| ==> !Unparsable(s.service(batch[j])) && embs[j] == EmbeddingOf(s.service(batch[j]))
    ensures var rest := batch[i..];
      Pairs(s, stem, page, batch, embs, i, a)
      == Acc(a.chunks + Kept(s, stem, page, rest), Add(a.stats, Kept(s, stem, page, rest), Missed(s, rest)), a.files)
    decreases |batch| - i
  {
    if i == |batch| {
      assert batch[i..] == [] && a.chunks + [] == a.chunks;
    } else {
      var c := batch[i];
      var h, m := Head(s, stem, page, c), Miss(s, c);
      RecordIsHead(s, stem, page, c, a);
      var a' := Record(s, stem, page, c, embs[i], a);
      PairsExact(s, stem, page, batch, embs, i + 1, a');
      KeptStep(s, stem, page, batch, i);
      var k' := Kept(s, stem, page, batch[i + 1..]);
      AppendAssoc(a.chunks, h, k');
      AddAdd(a.stats, h, m, k', Missed(s, batch[i + 1..]));
    }
  }

  /** The batches never touch the files or the book count. */
  lemma {:induction false} BatchesFrame(s: Setup, stem: string, page: int, cs: seq<string>, i: nat, a: Acc)
    requires s.batchSize > 0
    ensures Batches(s, stem, page, cs, i, a).acc.files == a.files
    ensures Batches(s, stem, page, cs, i, a).acc.stats.processedBooks == a.stats.processedBooks
    decreases |cs| - i
  {
    if i < |cs| {
      var batch := Batch(cs, i, s.batchSize);
      var r := Embeddings(Gather(s.service, batch));
      if r.Ok? {
        EmbeddingsPositional(Gather(s.service, batch));
        PairsFrame(s, stem, page, batch, r.value, 0, a);
        BatchesFrame(s, stem, page, cs, i + s.batchSize, Pairs(s, stem, page, batch, r.value, 0, a));
      }
    }
  }

  lemma {:induction false} PairsFrame(s: Setup, stem: string, page: int, batch: seq<string>,
                                      embs: seq<Option<Vector>>, i: nat, a: Acc)
    requires |batch| == |embs| && i <= |batch|
    ensures Pairs(s, stem, page, batch, embs, i, a).files == a.files
    ensures Pairs(s, stem, page, batch, embs, i, a).stats.processedBooks == a.stats.processedBooks
    decreases |batch| - i
  {
    if i < |batch| {
      PairsFrame(s, stem, page, batch, embs, i + 1, Record(s, stem, page, batch[i], embs[i], a));
    }
  }

  /** The batches raise exactly when some batch has a reply that is not
      JSON. */
  lemma {:induction false} BatchesFailIff(s: Setup, stem: string, page: int, cs: seq<string>, i: nat, a: Acc)
    requires s.batchSize > 0
    ensures Batches(s, stem, page, cs, i, a).error == None <==> BatchesOk(s, cs, i)
    decreases |cs| - i
  {
    if i < |cs| {
      var batch := Batch(cs, i, s.batchSize);
      var r := Embeddings(Gather(s.service, batch));
      if r.Ok? {
        EmbeddingsPositional(Gather(s.service, batch));
        BatchesFailIff(s, stem, page, cs, i + s.batchSize, Pairs(s, stem, page, batch, r.value, 0, a));
      }
    }
  }

  lemma RestSplit(cs: seq<string>, i: nat, size: int)
    requires i < |cs| && size > 0
    ensures Rest(cs, i) == Batch(cs, i, size) + Rest(cs, i + size)
  {
  }

  /** Batches that do not raise add the records and misses of the rest of
      the chunks. */
  lemma {:induction false} BatchesExact(s: Setup, stem: string, page: int, cs: seq<string>, i: nat, a: Acc)
    requires s.batchSize > 0
    ensures var r, rest := Batches(s, stem, page, cs, i, a), Rest(cs, i);
      r.error == None ==>
        r.acc == Acc(a.chunks + Kept(s, stem, page, rest), Add(a.stats, Kept(s, stem, page, rest), Missed(s, rest)), a.files)
    decreases |cs| - i
  {
    if i >= |cs| {
      assert a.chunks + [] == a.chunks;
    } else {
      var batch := Batch(cs, i, s.batchSize);
      var rs := Gather(s.service, batch);
      var r := Embeddings(rs);
      if r.Ok? {
        BatchesLoopStep(s, stem, page, cs, i, a, r.value);
        var a' := Pairs(s, stem, page, batch, r.value, 0, a);
        var later := Rest(cs, i + s.batchSize);
        var kb, mb, kl, ml := Kept(s, stem, page, batch), Missed(s, batch), Kept(s, stem, page, later), Missed(s, later);
        PairsOfBatch(s, stem, page, cs, i, a, r.value);
        KeptRestSplit(s, stem, page, cs, i);
        BatchesExact(s, stem, page, cs, i + s.batchSize, a');
        var next := Batches(s, stem, page, cs, i + s.batchSize, a');
        assert next.error == None ==> next.acc == Acc(a'.chunks + kl, Add(a'.stats, kl, ml), a'.files);
        if next.error == None {
          Combine(a, a', next.acc, kb, mb, kl, ml, Kept(s, stem, page, Rest(cs, i)), Missed(s, Rest(cs, i)));
        }
      }
    }
  }

  lemma PairsOfBatch(s: Setup, stem: string, page: int, cs: seq<string>, i: nat, a: Acc, embs: seq<Option<Vector>>)
    requires s.batchSize > 0 && i < |cs|
    requires Embeddings(Gather(s.service, Batch(cs, i, s.batchSize))) == Ok(embs)
    ensures |embs| == |Batch(cs, i, s.batchSize)|
    ensures var batch := Batch(cs, i, s.batchSize);
      Pairs(s, stem, page, batch, embs, 0, a)
      == Acc(a.chunks + Kept(s, stem, page, batch), Add(a.stats, Kept(s, stem, page, batch), Missed(s, batch)), a.files)
  {
    var batch := Batch(cs, i, s.batchSize);
    EmbeddingsPositional(Gather(s.service, batch));
    PairsExact(s, stem, page, batch, embs, 0, a);
    assert batch[0..] == batch;
  }

  lemma KeptRestSplit(s: Setup, stem: string, page: int, cs: seq<string>, i: nat)
    requires s.batchSize > 0 && i < |cs|
    ensures var batch, later := Batch(cs, i, s.batchSize), Rest(cs, i + s.batchSize);
      && Kept(s, stem, page, Rest(cs, i)) == Kept(s, stem, page, batch) + Kept(s, stem, page, later)
      && Missed(s, Rest(cs, i)) == Missed(s, batch) + Missed(s, later)
  {
    RestSplit(cs, i, s.batchSize);
    KeptAppend(s, stem, page, Batch(cs, i, s.batchSize), Rest(cs, i + s.batchSize));
  }

  /** Two stretches of recording, one after the other. */
  lemma Combine(a: Acc, b: Acc, c: Acc, r1: seq<ChunkRecord>, m1: int, r2: seq<ChunkRecord>, m2: int,
                r: seq<ChunkRecord>, m: int)
    requires b == Acc(a.chunks + r1, Add(a.stats, r1, m1), a.files)
    requires c == Acc(b.chunks + r2, Add(b.stats, r2, m2), b.files)
    requires r == r1 + r2 && m == m1 + m2
    ensures c == Acc(a.chunks + r, Add(a.stats, r, m), a.files)
  {
    AppendAssoc(a.chunks, r1, r2);
    AddAdd(a.stats, r1, m1, r2, m2);
  }

  /** One page: it raises exactly when PageOk fails; otherwise it adds its
      records and misses. The only file it may write is the checkpoint. */
  lemma PageStepExact(s: Setup, stem: string, page: int, text: string, a: Acc)
    requires Valid(s)
    ensures var r := PageStep(s, stem, page, text, a);
      && (r.error == None <==> PageOk(s, text))
      && r.acc.files - {TempPath(stem)} == a.files - {TempPath(stem)}
      && r.acc.stats.processedBooks == a.stats.processedBooks
      && (r.error == None ==>
            && r.acc.chunks == a.chunks + PageRecords(s, stem, page, text)
            && r.acc.stats == Add(a.stats, PageRecords(s, stem, page, text), PageMissed(s, text)))
  {
    var t := TempPath(stem);
    if IsBlank(text) || s.batchSize <= 0 {
      assert a.chunks + [] == a.chunks;
    } else {
      var cs := Chunks(s.tok, s.chunkSize, s.chunkOverlap, text);
      BatchesExact(s, stem, page, cs, 0, a);
      BatchesFrame(s, stem, page, cs, 0, a);
      BatchesFailIff(s, stem, page, cs, 0, a);
      assert Rest(cs, 0) == cs;
      var r := Batches(s, stem, page, cs, 0, a);
      assert r.acc.files[t := r.acc.chunks] - {t} == r.acc.files - {t};
    }
  }

  /** The pages from index k on: they raise exactly when some page from k
      on fails PageOk; otherwise they add the records and misses Expected
      and ExpectedMissed count. Only the checkpoint file can change. */
  lemma {:induction false} PagesExact(s: Setup, stem: string, pages: seq<string>, k: nat, a: Acc)
    requires Valid(s) && k <= |pages|
    ensures var r := Pages(s, stem, pages, k, a);
      && (r.error == None <==> forall j :: k <= j < |pages| ==> PageOk(s, pages[j]))
      && r.acc.files - {TempPath(stem)} == a.files - {TempPath(stem)}
      && r.acc.stats.processedBooks == a.stats.processedBooks
      && (r.error == None ==>
            && r.acc.chunks == a.chunks + Expected(s, stem, pages, k)
            && r.acc.stats == Add(a.stats, Expected(s, stem, pages, k), ExpectedMissed(s, pages, k)))
    decreases |pages| - k
  {
    if k == |pages| {
      assert a.chunks + [] == a.chunks;
    } else {
      PageStepExact(s, stem, k + 1, pages[k], a);
      var r := PageStep(s, stem, k + 1, pages[k], a);
      if r.error == None {
        PagesExact(s, stem, pages, k + 1, r.acc);
        var p, e := PageRecords(s, stem, k + 1, pages[k]), Expected(s, stem, pages, k + 1);
        AppendAssoc(a.chunks, p, e);
        AddAdd(a.stats, p, PageMissed(s, pages[k]), e, ExpectedMissed(s, pages, k + 1));
      }
    }
  }

  /** The document succeeds exactly when it opens and every page is
      processed without raising. */
  predicate Succeeds(s: Setup, pdf: Pdf)
    requires Valid(s)
  {
    pdf.pages.Ok? && forall j :: 0 <= j < |pdf.pages.value| ==> PageOk(s, pdf.pages.value[j])
  }

  /** process_pdf, stated without its loops. It fails exactly when the PDF
      does not open or some page raises. On success it returns the
      records of every non-blank page in page order, each page's in chunk
      order, without the chunks whose embedding was None; it writes them
      as the final file, removes the checkpoint, and counts the book once;
      the chunk and token totals grow by the records' number and token
      sum, and failed_chunks by the number of chunks left out. On failure
      the book is not counted, the final file is not written, and the
      checkpoint is gone unless the PDF did not open at all. */
  lemma ProcessPdfExact(s: Setup, pdf: Pdf, stats: Stats, files: Files)
    requires Valid(s)
    ensures var o, t, out := ProcessPdfSpec(s, pdf, stats, files), TempPath(pdf.stem), OutputPath(pdf.stem);
      && (o.result.Ok? <==> Succeeds(s, pdf))
      && (o.result.Ok? ==>
            var ex := Expected(s, pdf.stem, pdf.pages.value, 0);
            && o.result.value == ex
            && o.files == (files - {t})[out := ex]
            && o.stats == Add(stats, ex, ExpectedMissed(s, pdf.pages.value, 0)).(processedBooks := stats.processedBooks + 1))
      && (o.result.Err? ==>
            && o.stats.processedBooks == stats.processedBooks
            && o.files - {t} == files - {t}
            && (pdf.pages.Ok? ==> t !in o.files)
            && (pdf.pages.Err? ==> o.files == files))
  {
    if pdf.pages.Ok? {
      var t, out := TempPath(pdf.stem), OutputPath(pdf.stem);
      PagesExact(s, pdf.stem, pdf.pages.value, 0, Acc([], stats, files));
      var r := Pages(s, pdf.stem, pdf.pages.value, 0, Acc([], stats, files));
      OutputIsNotTemp(pdf.stem);
      if r.error == None {
        assert [] + Expected(s, pdf.stem, pdf.pages.value, 0) == Expected(s, pdf.stem, pdf.pages.value, 0);
        assert r.acc.files[out := r.acc.chunks] - {t} == (r.acc.files - {t})[out := r.acc.chunks];
      } else {
        assert r.acc.files - {t} - {t} == r.acc.files - {t};
      }
    }
  }

  /** A blank page writes nothing and counts nothing, even when its number
      is a multiple of ten. */
  lemma BlankPageSkipped(s: Setup, stem: string, page: int, text: string, a: Acc)
    requires Valid(s) && IsBlank(text)
    ensures PageStep(s, stem, page, text, a) == Step(a, None)
  {
  }

  /** After a non-blank page whose number is a multiple of ten, the
      checkpoint holds every record gathered so far. */
  lemma CheckpointHoldsChunks(s: Setup, stem: string, page: int, text: string, a: Acc)
    requires Valid(s) && !IsBlank(text) && page % 10 == 0
    ensures var r := PageStep(s, stem, page, text, a);
      r.error == None ==> TempPath(stem) in r.acc.files && r.acc.files[TempPath(stem)] == r.acc.chunks
  {
  }

  /** The checkpoint is written only after a page that succeeds and whose
      number is a multiple of ten: any other page, and any page that
      raises, leaves every file as it was. */
  lemma CheckpointOnlyEveryTenth(s: Setup, stem: string, page: int, text: string, a: Acc)
    requires Valid(s)
    ensures var r := PageStep(s, stem, page, text, a);
      (r.error.Some? || page % 10 != 0) ==> r.acc.files == a.files
  {
    if !IsBlank(text) && s.batchSize > 0 {
      BatchesFrame(s, stem, page, Chunks(s.tok, s.chunkSize, s.chunkOverlap, text), 0, a);
    }
  }

  /** A batch size of 0 makes the batch range raise on the first
      non-blank page. */
  lemma ZeroBatchSizeFails(s: Setup, pdf: Pdf)
    requires Valid(s) && s.batchSize == 0 && pdf.pages.Ok?
    requires exists j :: 0 <= j < |pdf.pages.value| && !IsBlank(pdf.pages.value[j])
    ensures !Succeeds(s, pdf)
  {
    var j :| 0 <= j < |pdf.pages.value| && !IsBlank(pdf.pages.value[j]);
    assert !PageOk(s, pdf.pages.value[j]);
  }

  /** A record as process_pdf writes it: the token count of its content,
      a non-blank chunk as content, and the embedding the service
      returned for that content. */
  predicate WellFormed(s: Setup, r: ChunkRecord)
  {
    && r.tokenCount == |s.tok.encode(r.content)|
    && NonBlankChunk(r.content)
    && Embedded(s.service(r.content))
    && r.embedding == s.service(r.content).body.value.embedding.value
  }

  /** Well-formed records of the book `stem`, from pages lo..hi, in
      non-decreasing page order. */
  predicate Shaped(s: Setup, stem: string, lo: int, hi: int, rs: seq<ChunkRecord>)
  {
    && (forall i :: 0 <= i < |rs| ==> WellFormed(s, rs[i]) && rs[i].book == stem && lo <= rs[i].page <= hi)
    && (forall i, j :: 0 <= i < j < |rs| ==> rs[i].page <= rs[j].page)
  }

  lemma ShapedConcat(s: Setup, stem: string, lo: int, mid: int, hi: int, p: seq<ChunkRecord>, e: seq<ChunkRecord>)
    requires lo <= mid <= hi
    requires Shaped(s, stem, lo, mid, p) && Shaped(s, stem, mid, hi, e)
    ensures Shaped(s, stem, lo, hi, p + e)
  {
    var x := p + e;
    forall i | 0 <= i < |x| ensures WellFormed(s, x[i]) && x[i].book == stem && lo <= x[i].page <= hi {
      if i < |p| {
        assert x[i] == p[i];
      } else {
        assert x[i] == e[i - |p|];
      }
    }
    forall i, j | 0 <= i < j < |x| ensures x[i].page <= x[j].page {
      if j < |p| {
        assert x[i] == p[i] && x[j] == p[j];
      } else if i < |p| {
        assert x[i] == p[i] && x[j] == e[j - |p|];
      } else {
        assert x[i] == e[i - |p|] && x[j] == e[j - |p|];
      }
    }
  }

  lemma ShapedWiden(s: Setup, stem: string, lo: int, lo': int, hi: int, rs: seq<ChunkRecord>)
    requires lo <= lo' && Shaped(s, stem, lo', hi, rs)
    ensures Shaped(s, stem, lo, hi, rs)
  {
  }

  /** The records of one page's chunks. */
  lemma {:induction false} KeptShape(s: Setup, stem: string, page: int, cs: seq<string>)
    requires forall c :: c in cs ==> NonBlankChunk(c)
    ensures Shaped(s, stem, page, page, Kept(s, stem, page, cs))
  {
    if cs != [] {
      assert forall c :: c in cs[1..] ==> c in cs;
      KeptShape(s, stem, page, cs[1..]);
      assert cs[0] in cs;
      ShapedConcat(s, stem, page, page, page, Head(s, stem, page, cs[0]), Kept(s, stem, page, cs[1..]));
    }
  }

  /** Every chunk of a page is non-blank. */
  lemma ChunksNonBlank(tok: Tokenizer, chunkSize: int, chunkOverlap: int, text: string)
    requires Terminates(chunkSize, chunkOverlap)
    ensures forall c :: c in Chunks(tok, chunkSize, chunkOverlap, text) ==> NonBlankChunk(c)
  {
    if !IsBlank(text) {
      var tokens := tok.encode(text);
      DecodedChunksNonBlank(tok, tokens, WindowsFrom(tok, chunkSize, chunkOverlap, tokens, 0));
    }
  }

  /** The records of pages k.. in order: each carries the book's stem,
      the 1-based number of a page from k on, the token count of its
      content and the embedding the service returned for that content;
      the content is a non-blank chunk; pages never decrease along the
      list. */
  lemma {:induction false} ExpectedShape(s: Setup, stem: string, pages: seq<string>, k: nat)
    requires Valid(s) && k <= |pages|
    ensures Shaped(s, stem, k + 1, |pages|, Expected(s, stem, pages, k))
    decreases |pages| - k
  {
    if k < |pages| {
      ExpectedShape(s, stem, pages, k + 1);
      var p := PageRecords(s, stem, k + 1, pages[k]);
      if !IsBlank(pages[k]) && s.batchSize > 0 {
        ChunksNonBlank(s.tok, s.chunkSize, s.chunkOverlap, pages[k]);
        KeptShape(s, stem, k + 1, Chunks(s.tok, s.chunkSize, s.chunkOverlap, pages[k]));
      }
      ShapedWiden(s, stem, k + 1, k + 2, |pages|, Expected(s, stem, pages, k + 1));
      ShapedConcat(s, stem, k + 1, k + 1, |pages|, p, Expected(s, stem, pages, k + 1));
    }
  }

  //
  // process_books.
  //

  /** The statistics panel (lines 137-151): shown only when some chunk was
      recorded; with no PDF at all, nothing but the warning of line 120. */
  datatype Summary =
    | NoPdfFiles
    | NoChunks
    | Statistics(processedBooks: int, pdfCount: int, totalChunks: int, totalTokens: int, failedChunks: int)

  /** Lines 137-151. The average chunk size divides by total_chunks only
      in the branch where it is positive. */
  function BooksSummary(stats: Stats, pdfCount: int): (r: Summary)
    ensures r.Statistics? <==> stats.totalChunks > 0
    ensures r.Statistics? ==> r.totalChunks > 0 && r.processedBooks == stats.processedBooks && r.pdfCount == pdfCount
  {
    if stats.totalChunks > 0
    then Statistics(stats.processedBooks, pdfCount, stats.totalChunks, stats.totalTokens, stats.failedChunks)
    else NoChunks
  }

  /** Lines 125-135: the PDFs from index i on, every failure caught. */
  function Books(s: Setup, pdfs: seq<Pdf>, i: nat, all: seq<ChunkRecord>, stats: Stats, files: Files): Outcome
    requires Valid(s)
    decreases |pdfs| - i
  {
    if i >= |pdfs| then Outcome(Ok(all), stats, files)
    else
      var o := ProcessPdfSpec(s, pdfs[i], stats, files);
      Books(s, pdfs, i + 1, if o.result.Ok? then all + o.result.value else all, o.stats, o.files)
  }

  /** The records of the PDFs from index i on that succeed, in order. */
  function SuccessfulRecords(s: Setup, pdfs: seq<Pdf>, i: nat): seq<ChunkRecord>
    requires Valid(s)
    decreases |pdfs| - i
  {
    if i >= |pdfs| then []
    else (if Succeeds(s, pdfs[i]) then Expected(s, pdfs[i].stem, pdfs[i].pages.value, 0) else [])
         + SuccessfulRecords(s, pdfs, i + 1)
  }

  function SuccessCount(s: Setup, pdfs: seq<Pdf>, i: nat): int
    requires Valid(s)
    decreases |pdfs| - i
  {
    if i >= |pdfs| then 0 else (if Succeeds(s, pdfs[i]) then 1 else 0) + SuccessCount(s, pdfs, i + 1)
  }

  /** process_books returns the concatenation, in listing order, of the
      records of the PDFs that succeed, and counts exactly those books. */
  lemma {:induction false} BooksExact(s: Setup, pdfs: seq<Pdf>, i: nat, all: seq<ChunkRecord>, stats: Stats, files: Files)
    requires Valid(s)
    ensures var o := Books(s, pdfs, i, all, stats, files);
      && o.result == Ok(all + SuccessfulRecords(s, pdfs, i))
      && o.stats.processedBooks == stats.processedBooks + SuccessCount(s, pdfs, i)
    decreases |pdfs| - i
  {
    if i >= |pdfs| {
      assert all + [] == all;
    } else {
      ProcessPdfExact(s, pdfs[i], stats, files);
      var o := ProcessPdfSpec(s, pdfs[i], stats, files);
      var all' := if o.result.Ok? then all + o.result.value else all;
      BooksExact(s, pdfs, i + 1, all', o.stats, o.files);
      var mine := if Succeeds(s, pdfs[i]) then Expected(s, pdfs[i].stem, pdfs[i].pages.value, 0) else [];
      AppendAssoc(all, mine, SuccessfulRecords(s, pdfs, i + 1));
      assert [] + SuccessfulRecords(s, pdfs, i + 1) == SuccessfulRecords(s, pdfs, i + 1);
    }
  }

  /** A book's records do not depend on what was indexed before it. */
  lemma ResultIndependent(s: Setup, pdf: Pdf, st1: Stats, f1: Files, st2: Stats, f2: Files)
    requires Valid(s)
    ensures ProcessPdfSpec(s, pdf, st1, f1).result.Ok? == ProcessPdfSpec(s, pdf, st2, f2).result.Ok?
    ensures ProcessPdfSpec(s, pdf, st1, f1).result.Ok? ==>
      ProcessPdfSpec(s, pdf, st1, f1).result == ProcessPdfSpec(s, pdf, st2, f2).result
  {
    ProcessPdfExact(s, pdf, st1, f1);
    ProcessPdfExact(s, pdf, st2, f2);
  }

  //
  // Step lemmas for the methods' loops.
  //

  lemma PairsLoopStep(s: Setup, stem: string, page: int, batch: seq<string>, embs: seq<Option<Vector>>,
                      j: nat, a: Acc, final: Acc)
    requires |batch| == |embs| && j < |batch|
    requires Pairs(s, stem, page, batch, embs, j, a) == final
    ensures Pairs(s, stem, page, batch, embs, j + 1, Record(s, stem, page, batch[j], embs[j], a)) == final
  {
  }

  lemma BatchesLoopStep(s: Setup, stem: string, page: int, cs: seq<string>, i: nat, a: Acc, embs: seq<Option<Vector>>)
    requires s.batchSize > 0 && i < |cs|
    requires Embeddings(Gather(s.service, Batch(cs, i, s.batchSize))) == Ok(embs)
    ensures |embs| == |Batch(cs, i, s.batchSize)|
    ensures Batches(s, stem, page, cs, i, a)
      == Batches(s, stem, page, cs, i + s.batchSize, Pairs(s, stem, page, Batch(cs, i, s.batchSize), embs, 0, a))
  {
    EmbeddingsPositional(Gather(s.service, Batch(cs, i, s.batchSize)));
  }

  lemma PageStepAfter(s: Setup, stem: string, page: int, text: string, a: Acc, r: Step)
    requires Valid(s) && !IsBlank(text) && s.batchSize != 0
    requires r == if s.batchSize < 0 then Step(a, None)
                  else Batches(s, stem, page, Chunks(s.tok, s.chunkSize, s.chunkOverlap, text), 0, a)
    ensures PageStep(s, stem, page, text, a)
      == if r.error.Some? || page % 10 != 0 then r
         else Step(r.acc.(files := r.acc.files[TempPath(stem) := r.acc.chunks]), None)
  {
  }

  lemma PagesLoopStep(s: Setup, stem: string, pages: seq<string>, k: nat, a: Acc, r: Step)
    requires Valid(s) && k < |pages|
    requires r == PageStep(s, stem, k + 1, pages[k], a)
    ensures r.error.Some? ==> Pages(s, stem, pages, k, a) == r
    ensures r.error.None? ==> Pages(s, stem, pages, k, a) == Pages(s, stem, pages, k + 1, r.acc)
  {
  }

  lemma BooksLoopStep(s: Setup, pdfs: seq<Pdf>, i: nat, all: seq<ChunkRecord>, stats: Stats, files: Files, o: Outcome)
    requires Valid(s) && i < |pdfs|
    requires o == ProcessPdfSpec(s, pdfs[i], stats, files)
    ensures Books(s, pdfs, i, all, stats, files)
      == Books(s, pdfs, i + 1, if o.result.Ok? then all + o.result.value else all, o.stats, o.files)
  {
  }

  class BookIndexer {
    const chunker: TextChunker
    const embedder: Embedder
    const batchSize: int
    /** Stored and never used (line 39). */
    const maxRetries: int
    var stats: Stats
    /** The contents of data/processed. */
    var files: Files

    /** The parameters process_pdf works with. */
    function Config(): Setup
    {
      Setup(chunker.tokenizer, chunker.chunkSize, chunker.chunkOverlap, batchSize, embedder.service)
    }

    /** Lines 16-46: a chunker and an embedder built from the arguments,
        and zero statistics; `files` is what data/processed holds. */
    constructor (embedModel: string, ollamaUrl: string, chunkSize: int, chunkOverlap: int,
                 batchSize: int, maxRetries: int, tokenizer: Tokenizer, service: string -> Response, files: Files)
      ensures Config() == Setup(tokenizer, chunkSize, chunkOverlap, batchSize, service)
      ensures embedder.model == embedModel && embedder.url == ollamaUrl && this.maxRetries == maxRetries
      ensures stats == Stats(0, 0, 0, 0) && this.files == files
    {
      chunker := new TextChunker(chunkSize, chunkOverlap, tokenizer);
      embedder := new Embedder(ollamaUrl, embedModel, service);
      this.batchSize := batchSize;
      this.maxRetries := maxRetries;
      stats := Stats(0, 0, 0, 0);
      this.files := files;
    }

    /** Lines 80-114. */
    method ProcessPdf(pdf: Pdf) returns (r: Result<seq<ChunkRecord>>)
      requires Valid(Config())
      modifies this
      ensures Outcome(r, stats, files) == ProcessPdfSpec(Config(), pdf, old(stats), old(files))
    {
      if pdf.pages.Err? {
        return Err(pdf.pages.error);
      }
      var pages := pdf.pages.value;
      var tempPath := TempPath(pdf.stem);
      ghost var final := Pages(Config(), pdf.stem, pages, 0, Acc([], stats, files));
      var chunks := [];
      var k := 0;
      while k < |pages|
        invariant k <= |pages|
        invariant Pages(Config(), pdf.stem, pages, k, Acc(chunks, stats, files)) == final
        decreases |pages| - k
      {
        ghost var before := Acc(chunks, stats, files);
        var error;
        chunks, error := ProcessPage(pdf.stem, k + 1, pages[k], chunks);
        PagesLoopStep(Config(), pdf.stem, pages, k, before, Step(Acc(chunks, stats, files), error));
        if error.Some? {
          files := files - {tempPath};
          return Err(error.value);
        }
        k := k + 1;
      }
      files := files[OutputPath(pdf.stem) := chunks];
      files := files - {tempPath};
      stats := stats.(processedBooks := stats.processedBooks + 1);
      return Ok(chunks);
    }

    /** Lines 63-95: one page of the page loop. */
    method ProcessPage(stem: string, page: int, text: string, chunks: seq<ChunkRecord>)
      returns (chunks': seq<ChunkRecord>, error: Option<string>)
      requires Valid(Config())
      modifies this
      ensures Step(Acc(chunks', stats, files), error) == PageStep(Config(), stem, page, text, Acc(chunks, old(stats), old(files)))
    {
      StripEmptyIffBlank(text);
      if Strip(text) == [] {
        return chunks, None;
      }
      var pageChunks := chunker.ChunkText(text);
      if batchSize == 0 {
        return chunks, Some(RangeStepZero);
      }
      ghost var a := Acc(chunks, stats, files);
      chunks', error := chunks, None;
      if batchSize > 0 {
        chunks', error := EmbedPage(stem, page, pageChunks, chunks);
      }
      ghost var r := Step(Acc(chunks', stats, files), error);
      PageStepAfter(Config(), stem, page, text, a, r);
      if error.Some? {
        return;
      }
      if page % 10 == 0 {
        files := files[TempPath(stem) := chunks'];
      }
    }

    /** Lines 70-88: the batches of one page's chunks. */
    method EmbedPage(stem: string, page: int, pageChunks: seq<string>, chunks: seq<ChunkRecord>)
      returns (chunks': seq<ChunkRecord>, error: Option<string>)
      requires batchSize > 0
      modifies this
      ensures Step(Acc(chunks', stats, files), error) == Batches(Config(), stem, page, pageChunks, 0, Acc(chunks, old(stats), old(files)))
    {
      chunks' := chunks;
      var i := 0;
      ghost var final := Batches(Config(), stem, page, pageChunks, 0, Acc(chunks, stats, files));
      while i < |pageChunks|
        invariant Batches(Config(), stem, page, pageChunks, i, Acc(chunks', stats, files)) == final
        decreases |pageChunks| - i
      {
        var batch := Batch(pageChunks, i, batchSize);
        var embeddings := embedder.GetEmbeddingsBatch(batch);
        if embeddings.Err? {
          return chunks', Some(embeddings.error);
        }
        BatchesLoopStep(Config(), stem, page, pageChunks, i, Acc(chunks', stats, files), embeddings.value);
        chunks' := RecordPairs(stem, page, batch, embeddings.value, chunks');
        i := i + batchSize;
      }
      error := None;
    }

    /** Lines 74-88: the (chunk, embedding) pairs of one batch. */
    method RecordPairs(stem: string, page: int, batch: seq<string>, embeddings: seq<Option<Vector>>,
                       chunks: seq<ChunkRecord>) returns (chunks': seq<ChunkRecord>)
      requires |batch| == |embeddings|
      modifies this
      ensures Acc(chunks', stats, files) == Pairs(Config(), stem, page, batch, embeddings, 0, Acc(chunks, old(stats), old(files)))
    {
      ghost var final := Pairs(Config(), stem, page, batch, embeddings, 0, Acc(chunks, stats, files));
      chunks' := chunks;
      var j := 0;
      while j < |batch|
        invariant j <= |batch|
        invariant Pairs(Config(), stem, page, batch, embeddings, j, Acc(chunks', stats, files)) == final
      {
        PairsLoopStep(Config(), stem, page, batch, embeddings, j, Acc(chunks', stats, files), final);
        var chunkText, embedding := batch[j], embeddings[j];
        if embedding.Some? {
          var record := ChunkRecord(stem, page, chunkText, embedding.value, |chunker.tokenizer.encode(chunkText)|);
          chunks' := chunks' + [record];
          stats := stats.(totalChunks := stats.totalChunks + 1, totalTokens := stats.totalTokens + record.tokenCount);
        } else {
          stats := stats.(failedChunks := stats.failedChunks + 1);
        }
        j := j + 1;
      }
    }

    /** Lines 116-154: every PDF in listing order, a failing one reported
        and passed over; then the statistics panel. */
    method ProcessBooks(pdfs: seq<Pdf>) returns (allChunks: seq<ChunkRecord>, summary: Summary)
      requires Valid(Config())
      modifies this
      ensures pdfs == [] ==> allChunks == [] && summary == NoPdfFiles && stats == old(stats) && files == old(files)
      ensures pdfs != [] ==>
        && Outcome(Ok(allChunks), stats, files) == Books(Config(), pdfs, 0, [], old(stats), old(files))
        && summary == BooksSummary(stats, |pdfs|)
    {
      if pdfs == [] {
        return [], NoPdfFiles;
      }
      allChunks := [];
      var i := 0;
      ghost var final := Books(Config(), pdfs, 0, [], stats, files);
      while i < |pdfs|
        invariant i <= |pdfs|
        invariant Books(Config(), pdfs, i, allChunks, stats, files) == final
      {
        ghost var before, allBefore := Outcome(Ok(allChunks), stats, files), allChunks;
        var chunks := ProcessPdf(pdfs[i]);
        BooksLoopStep(Config(), pdfs, i, allBefore, before.stats, before.files, Outcome(chunks, stats, files));
        if chunks.Ok? {
          allChunks := allChunks + chunks.value;
        }
        i := i + 1;
      }
      summary := BooksSummary(stats, |pdfs|);
    }
  }
}
