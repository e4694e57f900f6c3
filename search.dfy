/** Retrieval (src/kbol/core/search.py): load every chunk file, score each
    chunk against the query, keep those above the threshold, and return
    the best top_k, most similar first. */
module Search {
  import opened Common
  import opened Ordering
  import opened ChunkFile

  /** A loaded chunk with the "similarity" key the search sets on it. */
  datatype Hit = Hit(chunk: RawChunk, similarity: real)

  const SearchFailed: string := "Error searching chunks: "

  /** The chunks of the files that could be read, in file order. */
  function Flatten(files: seq<StoredFile>): seq<RawChunk>
  {
    if files == [] then []
    else (if files[0].chunks.Ok? then files[0].chunks.value else []) + Flatten(files[1..])
  }

  /** Lines 17-20: each file is opened and parsed in turn and its array
      appended; the first file that fails raises out of the loop. */
  function Loaded(files: seq<StoredFile>): Result<seq<RawChunk>>
  {
    if files == [] then Ok([])
    else if files[0].chunks.Err? then Err(files[0].chunks.error)
    else Prepend(files[0].chunks.value, Loaded(files[1..]))
  }

  /** Loading succeeds exactly when every file can be read, and then
      yields all their chunks in order; otherwise it reports the first
      file that failed. */
  lemma {:induction false} LoadedIff(files: seq<StoredFile>)
    ensures Loaded(files).Ok? <==> forall i :: 0 <= i < |files| ==> files[i].chunks.Ok?
    ensures Loaded(files).Ok? ==> Loaded(files).value == Flatten(files)
    ensures Loaded(files).Err? ==>
      exists i ::
        && 0 <= i < |files| && files[i].chunks.Err?
        && Loaded(files).error == files[i].chunks.error
        && forall j :: 0 <= j < i ==> files[j].chunks.Ok?
  {
    if files != [] {
      LoadedIff(files[1..]);
      if files[0].chunks.Ok? && Loaded(files[1..]).Err? {
        var i :| 0 <= i < |files[1..]| && files[1..][i].chunks.Err?
          && Loaded(files[1..]).error == files[1..][i].chunks.error
          && forall j :: 0 <= j < i ==> files[1..][j].chunks.Ok?;
        assert files[i + 1].chunks.Err?;
        assert forall j :: 0 < j <= i ==> files[j] == files[1..][j - 1];
      }
      if forall i :: 0 <= i < |files| ==> files[i].chunks.Ok? {
        assert forall i :: 0 <= i < |files[1..]| ==> files[1..][i] == files[i + 1];
      }
    }
  }

  /** Lines 26-27: the similarity of each chunk, in order. `score` is the
      cosine similarity with the query's embedding; it fails when the
      chunk has no usable "embedding", and the first failure raises. */
  function Scored(chunks: seq<RawChunk>, score: RawChunk -> Result<real>): Result<seq<Hit>>
  {
    if chunks == [] then Ok([])
    else if score(chunks[0]).Err? then Err(score(chunks[0]).error)
    else Prepend([Hit(chunks[0], score(chunks[0]).value)], Scored(chunks[1..], score))
  }

  /** Every loaded chunk gets its similarity set, positionally. */
  lemma {:induction false} ScoredPositional(chunks: seq<RawChunk>, score: RawChunk -> Result<real>)
    ensures Scored(chunks, score).Ok? <==> forall i :: 0 <= i < |chunks| ==> score(chunks[i]).Ok?
    ensures Scored(chunks, score).Ok? ==>
      var hits := Scored(chunks, score).value;
      |hits| == |chunks| && forall i :: 0 <= i < |chunks| ==> hits[i] == Hit(chunks[i], score(chunks[i]).value)
  {
    if chunks != [] {
      ScoredPositional(chunks[1..], score);
      assert forall i :: 0 < i < |chunks| ==> chunks[1..][i - 1] == chunks[i];
    }
  }

  /** Lines 30-32: the chunks whose similarity is strictly above the
      threshold, in their original order. */
  function Above(hits: seq<Hit>, threshold: real): seq<Hit>
  {
    if hits == [] then []
    else (if hits[0].similarity > threshold then [hits[0]] else []) + Above(hits[1..], threshold)
  }

  /** The filter keeps exactly the hits above the threshold, each as
      often as it occurs. */
  lemma {:induction false} AboveExact(hits: seq<Hit>, threshold: real)
    ensures forall h :: multiset(Above(hits, threshold))[h] == (if h.similarity > threshold then multiset(hits)[h] else 0)
  {
    if hits != [] {
      AboveExact(hits[1..], threshold);
      assert hits == [hits[0]] + hits[1..];
    }
  }

  /** The condition of the comprehension at line 31. */
  function AboveThreshold(threshold: real): Hit -> bool
  {
    (h: Hit) => h.similarity > threshold
  }

  /** The comprehension keeps the hits above the threshold in their order
      and with their multiplicity: the hits at exactly the positions above
      the threshold, in increasing position order. */
  lemma {:induction false} AboveIsFilter(hits: seq<Hit>, threshold: real) returns (idx: seq<int>)
    ensures FilteredAt(Above(hits, threshold), hits, AboveThreshold(threshold), idx)
  {
    if hits == [] {
      FilterEmpty(AboveThreshold(threshold));
      idx := [];
    } else {
      var rest := AboveIsFilter(hits[1..], threshold);
      FilterCons(hits[0], hits[1..], Above(hits[1..], threshold), AboveThreshold(threshold), rest);
      SplitFirst(hits);
      idx := (if hits[0].similarity > threshold then [0] else []) + Shift(rest);
    }
  }

  /** `sorted(..., key=similarity, reverse=True)`: a may stand before b
      when it is at least as similar. */
  function Descending(): (Hit, Hit) -> bool
  {
    (a: Hit, b: Hit) => a.similarity >= b.similarity
  }

  lemma DescendingIsPreorder()
    ensures TotalPreorder(Descending())
  {
  }

  /** A hit above the threshold ranks equal only to hits above the
      threshold, so the filter keeps its whole similarity class, in order. */
  lemma {:induction false} AboveKeepsTies(hits: seq<Hit>, threshold: real, y: Hit)
    requires y.similarity > threshold
    ensures SameRank(Above(hits, threshold), Descending(), y) == SameRank(hits, Descending(), y)
  {
    if hits != [] {
      AboveKeepsTies(hits[1..], threshold, y);
      SameRankCons(hits[0], hits[1..], Descending(), y);
      SplitFirst(hits);
      if hits[0].similarity > threshold {
        SameRankCons(hits[0], Above(hits[1..], threshold), Descending(), y);
      } else {
        assert Above(hits, threshold) == Above(hits[1..], threshold);
        assert !Equivalent(Descending(), hits[0], y);
      }
    }
  }

  /** Line 33-35: the first top_k hits, most similar first, ties in their
      original order. */
  function Ranked(hits: seq<Hit>, topK: int): seq<Hit>
  {
    PySlice(SortBy(hits, Descending()), 0, topK)
  }

  /** Lines 22-37. Failures while loading or scoring are re-raised with
      the SearchFailed prefix; an empty store gives no results. */
  function Search(files: seq<StoredFile>, score: RawChunk -> Result<real>, topK: int, threshold: real): (r: Result<seq<Hit>>)
    ensures r.Err? ==> |r.error| >= |SearchFailed| && r.error[..|SearchFailed|] == SearchFailed
  {
    match Loaded(files)
    case Err(e) => Err(SearchFailed + e)
    case Ok(chunks) =>
      if chunks == [] then Ok([])
      else
        match Scored(chunks, score)
        case Err(e) => Err(SearchFailed + e)
        case Ok(hits) => Ok(Ranked(Above(hits, threshold), topK))
  }

  /** The ranked hits are a prefix of the whole sorted list. */
  lemma RankedPrefix(hits: seq<Hit>, topK: int) returns (m: nat)
    ensures m <= |hits| && |SortBy(hits, Descending())| == |hits|
    ensures Ranked(hits, topK) == SortBy(hits, Descending())[..m]
    ensures topK >= 0 ==> m == Min(topK, |hits|)
  {
    var s := SortBy(hits, Descending());
    SortIsPermutation(hits, Descending());
    m := SliceBound(topK, |s|);
  }

  /** Results come out in non-increasing similarity. */
  lemma RankedDescending(hits: seq<Hit>, topK: int)
    ensures forall i, j :: 0 <= i < j < |Ranked(hits, topK)| ==>
      Ranked(hits, topK)[i].similarity >= Ranked(hits, topK)[j].similarity
  {
    var m := RankedPrefix(hits, topK);
    DescendingIsPreorder();
    SortIsSorted(hits, Descending());
    var s := SortBy(hits, Descending());
    assert forall i, j :: 0 <= i < j < m ==> Descending()(s[i], s[j]);
  }

  /** For a non-negative top_k there are min(top_k, n) results, all taken
      from the input. */
  lemma RankedLength(hits: seq<Hit>, topK: int)
    requires topK >= 0
    ensures |Ranked(hits, topK)| == Min(topK, |hits|)
    ensures multiset(Ranked(hits, topK)) <= multiset(hits)
  {
    var m := RankedPrefix(hits, topK);
    var s := SortBy(hits, Descending());
    SortIsPermutation(hits, Descending());
    assert s == s[..m] + s[m..];
  }

  /** No hit left out of the results is more similar than one returned. */
  lemma RankedKeepsBest(hits: seq<Hit>, topK: int, h: Hit)
    requires multiset(Ranked(hits, topK))[h] < multiset(hits)[h]
    ensures forall y :: y in Ranked(hits, topK) ==> y.similarity >= h.similarity
  {
    var m := RankedPrefix(hits, topK);
    var s := SortBy(hits, Descending());
    SortIsPermutation(hits, Descending());
    SortIsSorted(hits, Descending());
    DescendingIsPreorder();
    assert s == s[..m] + s[m..];
    assert multiset(s) == multiset(s[..m]) + multiset(s[m..]);
    assert h in multiset(s[m..]);
    var j :| 0 <= j < |s[m..]| && s[m..][j] == h;
    forall y | y in s[..m] ensures y.similarity >= h.similarity {
      var i :| 0 <= i < m && s[..m][i] == y;
      assert Descending()(s[i], s[m + j]);
    }
  }

  /** Ties keep load order: the results of equal similarity are the first
      ones of that similarity in the input. */
  lemma RankedStable(hits: seq<Hit>, topK: int, y: Hit)
    ensures var tied := SameRank(Ranked(hits, topK), Descending(), y);
      |tied| <= |SameRank(hits, Descending(), y)| && tied == SameRank(hits, Descending(), y)[..|tied|]
  {
    var m := RankedPrefix(hits, topK);
    var s := SortBy(hits, Descending());
    DescendingIsPreorder();
    SortIsStable(hits, Descending(), y);
    assert s == s[..m] + s[m..];
    SameRankAppend(s[..m], s[m..], Descending(), y);
  }

  /** In a successful search every result was loaded and scored, is above
      the threshold and at least as similar as any hit above the threshold
      that was left out; results are most similar first and there are
      min(top_k, n) of them. */
  lemma SearchResults(files: seq<StoredFile>, score: RawChunk -> Result<real>, topK: int, threshold: real)
    requires Search(files, score, topK, threshold).Ok?
    ensures Loaded(files).Ok?
    ensures var rs := Search(files, score, topK, threshold).value;
      && (forall i :: 0 <= i < |rs| ==> rs[i].similarity > threshold && rs[i].chunk in Flatten(files))
      && (forall i, j :: 0 <= i < j < |rs| ==> rs[i].similarity >= rs[j].similarity)
  {
    LoadedIff(files);
    var chunks := Loaded(files).value;
    if chunks != [] {
      var hits := Scored(chunks, score).value;
      ScoredPositional(chunks, score);
      var above := Above(hits, threshold);
      var rs := Ranked(above, topK);
      RankedDescending(above, topK);
      AboveExact(hits, threshold);
      var m := RankedPrefix(above, topK);
      SortIsPermutation(above, Descending());
      var s := SortBy(above, Descending());
      forall i | 0 <= i < |rs| ensures rs[i].similarity > threshold && rs[i].chunk in chunks {
        assert rs[i] == s[i];
        assert s[i] in multiset(above);
        assert rs[i] in multiset(hits);
        var k :| 0 <= k < |hits| && hits[k] == rs[i];
        assert chunks[k] == rs[i].chunk;
      }
    }
  }

  /** Ties keep load order: in a successful search the results of any
      similarity above the threshold are the first loaded chunks of that
      similarity, in the order they were loaded and scored. */
  lemma SearchStable(files: seq<StoredFile>, score: RawChunk -> Result<real>, topK: int, threshold: real, y: Hit)
    requires Search(files, score, topK, threshold).Ok? && y.similarity > threshold
    ensures Loaded(files).Ok? && Scored(Loaded(files).value, score).Ok?
    ensures var rs, hits := Search(files, score, topK, threshold).value, Scored(Loaded(files).value, score).value;
      var tied, all := SameRank(rs, Descending(), y), SameRank(hits, Descending(), y);
      |tied| <= |all| && tied == all[..|tied|]
  {
    var chunks := Loaded(files).value;
    if chunks != [] {
      var hits := Scored(chunks, score).value;
      RankedStable(Above(hits, threshold), topK, y);
      AboveKeepsTies(hits, threshold, y);
    }
  }

  /** Lines 17-20 as a loop. */
  method LoadAll(files: seq<StoredFile>) returns (r: Result<seq<RawChunk>>)
    ensures r == Loaded(files)
  {
    var all: seq<RawChunk> := [];
    var i := 0;
    assert files[i..] == files;
    PrependEmpty(Loaded(files));
    while i < |files|
      invariant i <= |files|
      invariant Prepend(all, Loaded(files[i..])) == Loaded(files)
    {
      assert files[i..][0] == files[i] && files[i..][1..] == files[i + 1..];
      if files[i].chunks.Err? {
        return Err(files[i].chunks.error);
      }
      PrependPrepend(all, files[i].chunks.value, Loaded(files[i + 1..]));
      all := all + files[i].chunks.value;
      i := i + 1;
    }
    assert files[i..] == [];
    assert all + [] == all;
    return Ok(all);
  }

  /** Lines 26-27 as a loop. */
  method ScoreAll(chunks: seq<RawChunk>, score: RawChunk -> Result<real>) returns (r: Result<seq<Hit>>)
    ensures r == Scored(chunks, score)
  {
    var hits: seq<Hit> := [];
    var i := 0;
    assert chunks[i..] == chunks;
    PrependEmpty(Scored(chunks, score));
    while i < |chunks|
      invariant i <= |chunks|
      invariant Prepend(hits, Scored(chunks[i..], score)) == Scored(chunks, score)
    {
      assert chunks[i..][0] == chunks[i] && chunks[i..][1..] == chunks[i + 1..];
      var s := score(chunks[i]);
      if s.Err? {
        return Err(s.error);
      }
      PrependPrepend(hits, [Hit(chunks[i], s.value)], Scored(chunks[i + 1..], score));
      hits := hits + [Hit(chunks[i], s.value)];
      i := i + 1;
    }
    assert chunks[i..] == [];
    assert hits + [] == hits;
    return Ok(hits);
  }

  /** search_chunks (lines 7-37). The query's embedding is folded into
      `score`. */
  method SearchChunks(files: seq<StoredFile>, score: RawChunk -> Result<real>, topK: int, threshold: real)
    returns (r: Result<seq<Hit>>)
    ensures r == Search(files, score, topK, threshold)
  {
    var loaded := LoadAll(files);
    if loaded.Err? {
      return Err(SearchFailed + loaded.error);
    }
    if loaded.value == [] {
      return Ok([]);
    }
    var hits := ScoreAll(loaded.value, score);
    if hits.Err? {
      return Err(SearchFailed + hits.error);
    }
    var relevant := Above(hits.value, threshold);
    return Ok(Ranked(relevant, topK));
  }
}
