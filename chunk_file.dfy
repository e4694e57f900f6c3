/** The chunk files under data/processed as the command line and the
    scripts read them back: a JSON array per file, each element an object
    whose keys may be missing. */
module ChunkFile {
  import opened Common

  /** One element of a chunk file. Files the processor writes have every
      key; files edited by hand or by other tools may not. */
  datatype RawChunk = RawChunk(
    book: Option<string>,
    page: Option<int>,
    content: Option<string>,
    embedding: Option<seq<real>>,
    tokenCount: Option<int>)

  /** A *.json file: its stem, and the array json.load produced or the
      text of the error that opening or parsing it raised. */
  datatype StoredFile = StoredFile(stem: string, chunks: Result<seq<RawChunk>>)

  function FileName(f: StoredFile): string
  {
    f.stem + ".json"
  }

  /** str(e) for the KeyError that `chunk[key]` raises. */
  function KeyError(key: string): string
  {
    "'" + key + "'"
  }

  /** The books that a loop reading `chunk["book"]` element by element
      has collected when it stops: those of the chunks before the first
      one without a "book" key (where the KeyError is raised). */
  function BookPrefix(chunks: seq<RawChunk>): (r: seq<string>)
    ensures |r| <= |chunks|
    ensures forall i :: 0 <= i < |r| ==> chunks[i].book == Some(r[i])
    ensures |r| < |chunks| ==> chunks[|r|].book.None?
  {
    if chunks == [] || chunks[0].book.None? then []
    else [chunks[0].book.value] + BookPrefix(chunks[1..])
  }

  /** Every chunk has a book exactly when none of them stops the loop. */
  lemma BookPrefixComplete(chunks: seq<RawChunk>)
    ensures |BookPrefix(chunks)| == |chunks| <==> forall i :: 0 <= i < |chunks| ==> chunks[i].book.Some?
  {
  }

  /** `sum(c["token_count"] for c in chunks)`: None when a chunk has no
      "token_count" (the KeyError the sum raises). */
  function TokenTotal(chunks: seq<RawChunk>): (r: Option<int>)
    ensures r.Some? <==> forall i :: 0 <= i < |chunks| ==> chunks[i].tokenCount.Some?
  {
    if chunks == [] then Some(0)
    else if chunks[0].tokenCount.None? then None
    else
      var rest := TokenTotal(chunks[1..]);
      assert forall i :: 0 < i < |chunks| ==> chunks[i] == chunks[1..][i - 1];
      if rest.None? then None else Some(chunks[0].tokenCount.value + rest.value)
  }

  /** One row of the statistics table: a file's stem, its chunk and token
      counts and the average chunk size. */
  datatype Row = Row(book: string, chunks: int, tokens: int, average: int)

  /** The rows of the files that give one, in file order. */
  function RowsOf(files: seq<StoredFile>, rowOf: StoredFile -> Option<Row>): seq<Row>
  {
    if files == [] then []
    else (if rowOf(files[0]).Some? then [rowOf(files[0]).value] else []) + RowsOf(files[1..], rowOf)
  }

  lemma {:induction false} RowsOfAppend(a: seq<StoredFile>, b: seq<StoredFile>, rowOf: StoredFile -> Option<Row>)
    ensures RowsOf(a + b, rowOf) == RowsOf(a, rowOf) + RowsOf(b, rowOf)
  {
    if a == [] {
      assert a + b == b;
    } else {
      assert (a + b)[0] == a[0] && (a + b)[1..] == a[1..] + b;
      RowsOfAppend(a[1..], b, rowOf);
      var head := if rowOf(a[0]).Some? then [rowOf(a[0]).value] else [];
      AppendAssoc(head, RowsOf(a[1..], rowOf), RowsOf(b, rowOf));
    }
  }

  /** One more file read by a loop over the listing. */
  lemma RowsStep(files: seq<StoredFile>, i: int, rowOf: StoredFile -> Option<Row>)
    requires 0 <= i < |files|
    ensures RowsOf(files[..i + 1], rowOf) ==
      RowsOf(files[..i], rowOf) + if rowOf(files[i]).Some? then [rowOf(files[i]).value] else []
  {
    assert files[..i + 1] == files[..i] + [files[i]];
    RowsOfAppend(files[..i], [files[i]], rowOf);
    assert RowsOf([files[i]], rowOf) == (if rowOf(files[i]).Some? then [rowOf(files[i]).value] else []) + RowsOf([], rowOf);
  }

  /** A file that gives no row (unreadable, or skipped) can be added
      anywhere in the listing without changing the table. */
  lemma RowlessFileIgnored(a: seq<StoredFile>, f: StoredFile, b: seq<StoredFile>, rowOf: StoredFile -> Option<Row>)
    requires rowOf(f).None?
    ensures RowsOf(a + [f] + b, rowOf) == RowsOf(a + b, rowOf)
  {
    RowsOfAppend(a + [f], b, rowOf);
    RowsOfAppend(a, [f], rowOf);
    RowsOfAppend(a, b, rowOf);
    assert RowsOf([f], rowOf) == [] + RowsOf([], rowOf);
  }

  function ChunkSum(rows: seq<Row>): int
  {
    if rows == [] then 0 else rows[0].chunks + ChunkSum(rows[1..])
  }

  function TokenSum(rows: seq<Row>): int
  {
    if rows == [] then 0 else rows[0].tokens + TokenSum(rows[1..])
  }

  lemma {:induction false} SumsAppend(a: seq<Row>, b: seq<Row>)
    ensures ChunkSum(a + b) == ChunkSum(a) + ChunkSum(b)
    ensures TokenSum(a + b) == TokenSum(a) + TokenSum(b)
  {
    if a == [] {
      assert a + b == b;
    } else {
      assert (a + b)[0] == a[0] && (a + b)[1..] == a[1..] + b;
      SumsAppend(a[1..], b);
    }
  }

  /** With no negative chunk count, the chunk total is positive exactly
      when some row has a chunk. */
  lemma {:induction false} ChunkSumPositive(rows: seq<Row>)
    requires forall i :: 0 <= i < |rows| ==> rows[i].chunks >= 0
    ensures ChunkSum(rows) >= 0
    ensures ChunkSum(rows) > 0 <==> exists i :: 0 <= i < |rows| && rows[i].chunks > 0
  {
    if rows != [] {
      ChunkSumPositive(rows[1..]);
      assert forall i :: 0 < i < |rows| ==> rows[i] == rows[1..][i - 1];
      if ChunkSum(rows[1..]) > 0 {
        var i :| 0 <= i < |rows[1..]| && rows[1..][i].chunks > 0;
        assert rows[i + 1].chunks > 0;
      }
    }
  }

  /** Python's `t // n` for n > 0 (Dafny's division agrees with floor
      division when the divisor is positive). */
  lemma FloorDivision(t: int, n: int)
    requires n > 0
    ensures (t / n) * n <= t < (t / n + 1) * n
  {
  }

  /** The books a loop over the files collects when it reads
      `chunk["book"]` of every chunk and catches each file's error: for
      each readable file, those before its first chunk without a book. */
  function BookSet(files: seq<StoredFile>): (r: set<string>)
    ensures forall b :: b in r <==>
      exists i :: 0 <= i < |files| && files[i].chunks.Ok? && b in BookPrefix(files[i].chunks.value)
  {
    if files == [] then {}
    else
      var rest := BookSet(files[1..]);
      assert forall i :: 0 < i < |files| ==> files[i] == files[1..][i - 1];
      (if files[0].chunks.Ok? then set b | b in BookPrefix(files[0].chunks.value) else {}) + rest
  }

  lemma BookSetStep(files: seq<StoredFile>, i: int)
    requires 0 <= i < |files|
    ensures BookSet(files[..i + 1]) ==
      BookSet(files[..i]) + if files[i].chunks.Ok? then set b | b in BookPrefix(files[i].chunks.value) else {}
  {
    assert files[..i + 1] == files[..i] + [files[i]];
    BookSetAppend(files[..i], [files[i]]);
  }

  lemma BookSetAppend(a: seq<StoredFile>, b: seq<StoredFile>)
    ensures BookSet(a + b) == BookSet(a) + BookSet(b)
  {
    forall x | x in BookSet(a + b) ensures x in BookSet(a) + BookSet(b) {
      var i :| 0 <= i < |a + b| && (a + b)[i].chunks.Ok? && x in BookPrefix((a + b)[i].chunks.value);
      if i >= |a| {
        assert b[i - |a|] == (a + b)[i];
      }
    }
    forall x | x in BookSet(a) ensures x in BookSet(a + b) {
      var i :| 0 <= i < |a| && a[i].chunks.Ok? && x in BookPrefix(a[i].chunks.value);
      assert (a + b)[i] == a[i];
    }
    forall x | x in BookSet(b) ensures x in BookSet(a + b) {
      var i :| 0 <= i < |b| && b[i].chunks.Ok? && x in BookPrefix(b[i].chunks.value);
      assert (a + b)[|a| + i] == b[i];
    }
  }
}
