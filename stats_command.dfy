/** The stats command of the command-line package
    (src/kbol/cli/commands/stats.py): one row per non-empty chunk file and
    a TOTAL row, or a message when there is nothing to show. */
module StatsCommand {
  import opened Common
  import opened ChunkFile

  /** Lines 48-62: a file's row; None when the file holds an empty array
      (line 50-51) or when opening, parsing or summing it raised (lines
      66-67). */
  function CommandRow(f: StoredFile): (r: Option<Row>)
    ensures r.Some? <==> f.chunks.Ok? && f.chunks.value != [] && TokenTotal(f.chunks.value).Some?
    ensures r.Some? ==>
      && r.value.book == f.stem && r.value.chunks == |f.chunks.value| >= 1
      && r.value.tokens == TokenTotal(f.chunks.value).value
      && r.value.average * r.value.chunks <= r.value.tokens < (r.value.average + 1) * r.value.chunks
  {
    if f.chunks.Err? || f.chunks.value == [] then None
    else
      var total := TokenTotal(f.chunks.value);
      if total.None? then None
      else
        var n := |f.chunks.value|;
        FloorDivision(total.value, n);
        Some(Row(f.stem, n, total.value, total.value / n))
  }

  datatype Report = NoProcessedFiles | NoChunkData | Table(rows: seq<Row>, total: Row)

  /** Lines 15-80. */
  function Statistics(files: seq<StoredFile>): Report
  {
    if files == [] then NoProcessedFiles
    else
      var rows := RowsOf(files, CommandRow);
      var chunks, tokens := ChunkSum(rows), TokenSum(rows);
      if chunks > 0 then Table(rows, Row("TOTAL", chunks, tokens, tokens / chunks)) else NoChunkData
  }

  lemma {:induction false} RowsOccupied(files: seq<StoredFile>)
    ensures forall i :: 0 <= i < |RowsOf(files, CommandRow)| ==> RowsOf(files, CommandRow)[i].chunks >= 1
  {
    if files != [] {
      RowsOccupied(files[1..]);
    }
  }

  /** The table is shown exactly when some file holds a readable,
      non-empty array; its totals are the sums over those files. */
  lemma TableIff(files: seq<StoredFile>)
    requires files != []
    ensures Statistics(files).Table? <==> RowsOf(files, CommandRow) != []
    ensures Statistics(files).Table? ==>
      var rows := RowsOf(files, CommandRow);
      Statistics(files).total.chunks == ChunkSum(rows) && Statistics(files).total.tokens == TokenSum(rows)
  {
    var rows := RowsOf(files, CommandRow);
    RowsOccupied(files);
    ChunkSumPositive(rows);
    if rows != [] {
      assert rows[0].chunks > 0;
    }
  }

  /** A file holding an empty array, or one that cannot be read, changes
      nothing. */
  lemma SkippedFileIgnored(a: seq<StoredFile>, f: StoredFile, b: seq<StoredFile>)
    requires f.chunks.Err? || f.chunks.value == []
    requires a + b != []
    ensures Statistics(a + [f] + b) == Statistics(a + b)
  {
    RowlessFileIgnored(a, f, b, CommandRow);
  }

  /** The loop of lines 46-67 and the decision of lines 69-80. */
  method Stats(files: seq<StoredFile>) returns (report: Report)
    ensures report == Statistics(files)
  {
    if files == [] {
      return NoProcessedFiles;
    }
    var rows: seq<Row> := [];
    var totalChunks, totalTokens := 0, 0;
    var i := 0;
    while i < |files|
      invariant i <= |files|
      invariant rows == RowsOf(files[..i], CommandRow)
      invariant totalChunks == ChunkSum(rows) && totalTokens == TokenSum(rows)
    {
      var row := CommandRow(files[i]);
      RowsStep(files, i, CommandRow);
      if row.Some? {
        SumsAppend(rows, [row.value]);
        rows := rows + [row.value];
        totalChunks := totalChunks + row.value.chunks;
        totalTokens := totalTokens + row.value.tokens;
      }
      i := i + 1;
    }
    assert files[..i] == files;
    if totalChunks > 0 {
      return Table(rows, Row("TOTAL", totalChunks, totalTokens, totalTokens / totalChunks));
    }
    return NoChunkData;
  }
}
