/** TextChunker (src/kbol/indexer/core/chunker.py): token windows over a
    page's text, snapped back to the last '.' of the window's overlap
    region, decoded, stripped, and empty decodes dropped. */
module Chunker {
  import opened Common

  /** The tokenizer (tiktoken's cl100k_base) as the model sees it: two
      deterministic functions about which nothing else is known. */
  datatype Tokenizer = Tokenizer(encode: string -> seq<int>, decode: seq<int> -> string)

  /** The constructor accepts any pair of integers. The window loop is
      guaranteed to advance, whatever the tokenizer, exactly when this
      holds (see WindowEnd and the two Stall lemmas). */
  predicate Terminates(chunkSize: int, chunkOverlap: int)
  {
    chunkOverlap < chunkSize && 2 * chunkOverlap <= chunkSize
  }

  /** The region whose decoded text is searched for a '.' (lines 28-29). */
  function OverlapStart(chunkSize: int, chunkOverlap: int, start: int): int
  {
    Max(0, start + chunkSize - chunkOverlap)
  }

  function OverlapText(tok: Tokenizer, chunkSize: int, chunkOverlap: int, tokens: seq<int>, start: int): string
  {
    tok.decode(PySlice(tokens, OverlapStart(chunkSize, chunkOverlap, start), start + chunkSize))
  }

  /** The (unclamped) end of the window that starts at `start` (lines
      23-36): start + chunkSize, unless the window is not the last one and
      the decoded overlap region holds a '.'. Under Terminates the next
      window starts strictly later. */
  function WindowEnd(tok: Tokenizer, chunkSize: int, chunkOverlap: int, tokens: seq<int>, start: int): (r: int)
    ensures Terminates(chunkSize, chunkOverlap) ==> r - chunkOverlap > start
  {
    var end := start + chunkSize;
    if end < |tokens| then
      var overlapStart := OverlapStart(chunkSize, chunkOverlap, start);
      var segment := OverlapText(tok, chunkSize, chunkOverlap, tokens, start);
      // `len(text_segment.split('.')) > 1` holds exactly when '.' occurs
      if '.' in segment then overlapStart + LastIndexOf(segment, '.') + 1 else end
    else end
  }

  /** The final window, and any window whose overlap text has no '.',
      keeps its full size; a snapped window ends right after the last '.'
      of the overlap text, counting that '.''s CHARACTER offset in the
      decoded text as a number of tokens, as line 36 does. */
  lemma WindowEndSnapsToLastDot(tok: Tokenizer, chunkSize: int, chunkOverlap: int, tokens: seq<int>, start: int)
    ensures var r := WindowEnd(tok, chunkSize, chunkOverlap, tokens, start);
      && (start + chunkSize >= |tokens| ==> r == start + chunkSize)
      && ('.' !in OverlapText(tok, chunkSize, chunkOverlap, tokens, start) ==> r == start + chunkSize)
      && (r != start + chunkSize ==>
            var os := OverlapStart(chunkSize, chunkOverlap, start);
            var text := OverlapText(tok, chunkSize, chunkOverlap, tokens, start);
            && start + chunkSize < |tokens|
            && '.' in text
            && os < r <= os + |text|
            && text[r - os - 1] == '.'
            && forall j :: r - os <= j < |text| ==> text[j] != '.')
  {
  }

  /** A tokenizer whose decoded text never holds a '.'. */
  function NoSentences(): Tokenizer
  {
    Tokenizer(t => [], ids => "")
  }

  /** A tokenizer whose decoded text is always a lone '.'. */
  function AllSentences(): Tokenizer
  {
    Tokenizer(t => [], ids => ".")
  }

  /** The loop's `start` after n passes from `start`, each pass moving
      it to the window's unclamped end minus chunkOverlap (line 39). */
  function StartAfter(tok: Tokenizer, chunkSize: int, chunkOverlap: int, tokens: seq<int>, start: int, n: nat): int
    decreases n
  {
    if n == 0 then start
    else StartAfter(tok, chunkSize, chunkOverlap, tokens, WindowEnd(tok, chunkSize, chunkOverlap, tokens, start) - chunkOverlap, n - 1)
  }

  /** With chunkOverlap >= chunkSize the window starting at 0 of a
      one-token text yields a next start <= 0, and so does every later
      pass: `start < len(tokens)` holds forever and the loop never ends. */
  lemma StallWithoutOverlapBelowSize(chunkSize: int, chunkOverlap: int)
    requires chunkOverlap >= chunkSize
    ensures WindowEnd(NoSentences(), chunkSize, chunkOverlap, [0], 0) - chunkOverlap <= 0
    ensures forall n: nat :: StartAfter(NoSentences(), chunkSize, chunkOverlap, [0], 0, n) <= 0
  {
    forall n: nat ensures StartAfter(NoSentences(), chunkSize, chunkOverlap, [0], 0, n) <= 0 {
      StallsWithoutSentences(chunkSize, chunkOverlap, 0, n);
    }
  }

  lemma {:induction false} StallsWithoutSentences(chunkSize: int, chunkOverlap: int, start: int, n: nat)
    requires chunkOverlap >= chunkSize && start <= 0
    ensures StartAfter(NoSentences(), chunkSize, chunkOverlap, [0], start, n) <= 0
    decreases n
  {
    if n > 0 {
      var next := WindowEnd(NoSentences(), chunkSize, chunkOverlap, [0], start) - chunkOverlap;
      assert next <= start;
      StallsWithoutSentences(chunkSize, chunkOverlap, next, n - 1);
    }
  }

  /** Even with chunkOverlap < chunkSize, if 2 * chunkOverlap > chunkSize a
      '.' at the start of the overlap text snaps the window back so far
      that the next start is <= 0; the same happens at every later pass,
      so the loop never ends. */
  lemma StallWhenSnappedEarly(chunkSize: int, chunkOverlap: int)
    requires chunkOverlap < chunkSize < 2 * chunkOverlap
    ensures chunkSize >= 0
    ensures WindowEnd(AllSentences(), chunkSize, chunkOverlap, LongerThan(chunkSize), 0) - chunkOverlap <= 0
    ensures forall n: nat :: StartAfter(AllSentences(), chunkSize, chunkOverlap, LongerThan(chunkSize), 0, n) <= 0
  {
    var tokens := LongerThan(chunkSize);
    SnappedStep(chunkSize, chunkOverlap, 0);
    forall n: nat ensures StartAfter(AllSentences(), chunkSize, chunkOverlap, tokens, 0, n) <= 0 {
      StallsWhenSnapped(chunkSize, chunkOverlap, 0, n);
    }
  }

  /** A text of chunkSize + 1 tokens, all of them token 0: just long
      enough that the window at 0 is not the last one. */
  function LongerThan(chunkSize: int): seq<int>
  {
    seq(Max(chunkSize + 1, 0), i => 0)
  }

  /** One pass from a start <= 0 over the chunkSize + 1 tokens. */
  lemma SnappedStep(chunkSize: int, chunkOverlap: int, start: int)
    requires chunkOverlap < chunkSize < 2 * chunkOverlap && start <= 0
    ensures WindowEnd(AllSentences(), chunkSize, chunkOverlap, LongerThan(chunkSize), start) - chunkOverlap <= 0
  {
    var tokens := LongerThan(chunkSize);
    assert OverlapText(AllSentences(), chunkSize, chunkOverlap, tokens, start) == ".";
    assert LastIndexOf(".", '.') == 0;
  }

  lemma {:induction false} StallsWhenSnapped(chunkSize: int, chunkOverlap: int, start: int, n: nat)
    requires chunkOverlap < chunkSize < 2 * chunkOverlap && start <= 0
    ensures StartAfter(AllSentences(), chunkSize, chunkOverlap, LongerThan(chunkSize), start, n) <= 0
    decreases n
  {
    if n > 0 {
      var tokens := LongerThan(chunkSize);
      SnappedStep(chunkSize, chunkOverlap, start);
      var next := WindowEnd(AllSentences(), chunkSize, chunkOverlap, tokens, start) - chunkOverlap;
      StallsWhenSnapped(chunkSize, chunkOverlap, next, n - 1);
    }
  }

  /** The snapping quirk can make a window longer than chunkSize tokens:
      the '.' found at character 6 of a 7-character overlap text moves the
      end of a 4-token window at 0 to token 9. */
  lemma SnapCanLengthenWindow()
    ensures Terminates(4, 2)
    ensures WindowEnd(Tokenizer(t => [], ids => "abcdef."), 4, 2, seq(10, i => 0), 0) == 9
  {
    var tokens := seq(10, i => 0);
    assert OverlapText(Tokenizer(t => [], ids => "abcdef."), 4, 2, tokens, 0) == "abcdef.";
    assert LastIndexOf("abcdef.", '.') == 6;
  }

  /** The windows recorded from `start` on (lines 21-39): each clamped to
      the token count, the next one starting at the unclamped end minus
      chunkOverlap. */
  function WindowsFrom(tok: Tokenizer, chunkSize: int, chunkOverlap: int, tokens: seq<int>, start: int): seq<(int, int)>
    requires Terminates(chunkSize, chunkOverlap)
    decreases |tokens| - start
  {
    if start >= |tokens| then []
    else
      var end := WindowEnd(tok, chunkSize, chunkOverlap, tokens, start);
      [(start, Min(end, |tokens|))] + WindowsFrom(tok, chunkSize, chunkOverlap, tokens, end - chunkOverlap)
  }

  lemma WindowsFromStep(tok: Tokenizer, chunkSize: int, chunkOverlap: int, tokens: seq<int>, start: int)
    requires Terminates(chunkSize, chunkOverlap) && start < |tokens|
    ensures var end := WindowEnd(tok, chunkSize, chunkOverlap, tokens, start);
      && end - chunkOverlap > start
      && WindowsFrom(tok, chunkSize, chunkOverlap, tokens, start)
         == [(start, Min(end, |tokens|))] + WindowsFrom(tok, chunkSize, chunkOverlap, tokens, end - chunkOverlap)
  {
  }

  /** The shape of the recorded windows: starts strictly increase from
      `start`, each start is a token position, each end is the (possibly
      snapped) window end clamped to the token count, each next start is
      the unclamped end minus chunkOverlap, and after the last window that
      next start is past the tokens. */
  ghost predicate WindowChain(tok: Tokenizer, chunkSize: int, chunkOverlap: int, tokens: seq<int>, start: int, ws: seq<(int, int)>)
  {
    && (start < |tokens| <==> ws != [])
    && (ws != [] ==> ws[0].0 == start)
    && (forall i :: 0 <= i < |ws| ==>
          && start <= ws[i].0 < |tokens|
          && ws[i].1 == Min(WindowEnd(tok, chunkSize, chunkOverlap, tokens, ws[i].0), |tokens|))
    && (forall i :: 0 <= i < |ws| - 1 ==>
          ws[i + 1].0 == WindowEnd(tok, chunkSize, chunkOverlap, tokens, ws[i].0) - chunkOverlap)
    && (forall i, j :: 0 <= i < j < |ws| ==> ws[i].0 < ws[j].0)
    && (ws != [] ==> WindowEnd(tok, chunkSize, chunkOverlap, tokens, ws[|ws| - 1].0) - chunkOverlap >= |tokens|)
  }

  lemma {:induction false} WindowsFromChain(tok: Tokenizer, chunkSize: int, chunkOverlap: int, tokens: seq<int>, start: int)
    requires Terminates(chunkSize, chunkOverlap)
    ensures WindowChain(tok, chunkSize, chunkOverlap, tokens, start, WindowsFrom(tok, chunkSize, chunkOverlap, tokens, start))
    decreases |tokens| - start
  {
    if start < |tokens| {
      var end := WindowEnd(tok, chunkSize, chunkOverlap, tokens, start);
        var next := end - chunkOverlap;
      WindowsFromChain(tok, chunkSize, chunkOverlap, tokens, next);
      var rest := WindowsFrom(tok, chunkSize, chunkOverlap, tokens, next);
      var ws := [(start, Min(end, |tokens|))] + rest;
      assert WindowsFrom(tok, chunkSize, chunkOverlap, tokens, start) == ws;
      forall i, j | 0 <= i < j < |ws| ensures ws[i].0 < ws[j].0 {
        if i > 0 {
          assert ws[i] == rest[i - 1] && ws[j] == rest[j - 1];
        } else {
          assert ws[j] == rest[j - 1];
        }
      }
      forall i | 0 <= i < |ws| - 1
        ensures ws[i + 1].0 == WindowEnd(tok, chunkSize, chunkOverlap, tokens, ws[i].0) - chunkOverlap
      {
        if i > 0 {
          assert ws[i] == rest[i - 1] && ws[i + 1] == rest[i];
        }
      }
    }
  }

  /** The loop's windows over all the tokens, starting at 0. */
  lemma WindowsChain(tok: Tokenizer, chunkSize: int, chunkOverlap: int, tokens: seq<int>)
    requires Terminates(chunkSize, chunkOverlap)
    ensures WindowChain(tok, chunkSize, chunkOverlap, tokens, 0, WindowsFrom(tok, chunkSize, chunkOverlap, tokens, 0))
  {
    WindowsFromChain(tok, chunkSize, chunkOverlap, tokens, 0);
  }

  /** The stripped decode of one window (line 44). */
  function WindowText(tok: Tokenizer, tokens: seq<int>, w: (int, int)): string
  {
    Strip(tok.decode(PySlice(tokens, w.0, w.1)))
  }

  /** Lines 42-46: each window's stripped decode, in window order, with the
      empty ones left out. */
  function DecodeWindows(tok: Tokenizer, tokens: seq<int>, ws: seq<(int, int)>): seq<string>
  {
    if ws == [] then []
    else
      var c := WindowText(tok, tokens, ws[0]);
      (if c != [] then [c] else []) + DecodeWindows(tok, tokens, ws[1..])
  }

  /** The stripped text of every window, in window order. */
  function WindowTexts(tok: Tokenizer, tokens: seq<int>, ws: seq<(int, int)>): (r: seq<string>)
    ensures |r| == |ws|
    ensures forall i :: 0 <= i < |ws| ==> r[i] == WindowText(tok, tokens, ws[i])
  {
    seq(|ws|, i requires 0 <= i < |ws| => WindowText(tok, tokens, ws[i]))
  }

  /** The non-empty strings of ts, in order. */
  function DropEmpty(ts: seq<string>): seq<string>
  {
    if ts == [] then []
    else (if ts[0] != [] then [ts[0]] else []) + DropEmpty(ts[1..])
  }

  lemma {:induction false} DecodeWindowsDropsEmpty(tok: Tokenizer, tokens: seq<int>, ws: seq<(int, int)>)
    ensures DecodeWindows(tok, tokens, ws) == DropEmpty(WindowTexts(tok, tokens, ws))
  {
    if ws != [] {
      DecodeWindowsDropsEmpty(tok, tokens, ws[1..]);
      assert WindowTexts(tok, tokens, ws)[1..] == WindowTexts(tok, tokens, ws[1..]);
    }
  }

  /** The positions of the non-empty strings of ts, in order. */
  function KeptPositions(ts: seq<string>): seq<int>
  {
    if ts == [] then []
    else (if ts[0] != [] then [0] else []) + Shift(KeptPositions(ts[1..]))
  }

  /** The k-th kept string is the string at the k-th kept position. */
  lemma {:induction false} KeptAtPositions(ts: seq<string>)
    ensures |KeptPositions(ts)| == |DropEmpty(ts)|
    ensures forall k :: 0 <= k < |KeptPositions(ts)| ==>
      0 <= KeptPositions(ts)[k] < |ts| && DropEmpty(ts)[k] == ts[KeptPositions(ts)[k]]
  {
    if ts != [] {
      var tail := ts[1..];
      KeptAtPositions(tail);
      var p, q := KeptPositions(tail), DropEmpty(tail);
      var d := if ts[0] != [] then 1 else 0;
      assert KeptPositions(ts) == (if ts[0] != [] then [0] else []) + Shift(p);
      assert DropEmpty(ts) == (if ts[0] != [] then [ts[0]] else []) + q;
      forall k | d <= k < |KeptPositions(ts)|
        ensures 0 <= KeptPositions(ts)[k] < |ts| && DropEmpty(ts)[k] == ts[KeptPositions(ts)[k]]
      {
        assert KeptPositions(ts)[k] == p[k - d] + 1;
        assert DropEmpty(ts)[k] == q[k - d] == tail[p[k - d]];
      }
    }
  }

  /** The kept positions increase strictly. */
  lemma {:induction false} KeptPositionsIncrease(ts: seq<string>)
    ensures forall k, l :: 0 <= k < l < |KeptPositions(ts)| ==> KeptPositions(ts)[k] < KeptPositions(ts)[l]
    ensures forall k :: 0 <= k < |KeptPositions(ts)| ==> 0 <= KeptPositions(ts)[k]
  {
    if ts != [] {
      var tail := ts[1..];
      KeptPositionsIncrease(tail);
      var p := KeptPositions(tail);
      var d := if ts[0] != [] then 1 else 0;
      assert KeptPositions(ts) == (if ts[0] != [] then [0] else []) + Shift(p);
      assert forall k :: d <= k < |KeptPositions(ts)| ==> KeptPositions(ts)[k] == p[k - d] + 1;
    }
  }

  /** Every non-empty string's position is kept. */
  lemma {:induction false} NonEmptyKept(ts: seq<string>, i: int)
    requires 0 <= i < |ts| && ts[i] != []
    ensures i in KeptPositions(ts)
  {
    var d := if ts[0] != [] then 1 else 0;
    var tail := ts[1..];
    assert KeptPositions(ts) == (if ts[0] != [] then [0] else []) + Shift(KeptPositions(tail));
    if i > 0 {
      assert tail[i - 1] == ts[i];
      NonEmptyKept(tail, i - 1);
      var k :| 0 <= k < |KeptPositions(tail)| && KeptPositions(tail)[k] == i - 1;
      assert KeptPositions(ts)[k + d] == i;
    }
  }

  /** The decoded chunks are exactly the non-empty stripped window texts,
      in window order: the k-th chunk is the text of the k-th window
      whose text is non-empty, those windows come in increasing order, and
      every window whose text is non-empty is among them. */
  lemma DecodeWindowsSelects(tok: Tokenizer, tokens: seq<int>, ws: seq<(int, int)>)
    ensures var texts, chunks, idx := WindowTexts(tok, tokens, ws), DecodeWindows(tok, tokens, ws), KeptPositions(WindowTexts(tok, tokens, ws));
      && |idx| == |chunks|
      && (forall k :: 0 <= k < |idx| ==> 0 <= idx[k] < |ws| && chunks[k] == WindowText(tok, tokens, ws[idx[k]]))
      && (forall k, l :: 0 <= k < l < |idx| ==> idx[k] < idx[l])
      && (forall i :: 0 <= i < |ws| && WindowText(tok, tokens, ws[i]) != [] ==> i in idx)
  {
    var texts := WindowTexts(tok, tokens, ws);
    DecodeWindowsDropsEmpty(tok, tokens, ws);
    KeptAtPositions(texts);
    KeptPositionsIncrease(texts);
    forall i | 0 <= i < |ws| && WindowText(tok, tokens, ws[i]) != [] ensures i in KeptPositions(texts) {
      NonEmptyKept(texts, i);
    }
  }

  lemma DecodeWindowsStep(tok: Tokenizer, tokens: seq<int>, ws: seq<(int, int)>, i: int)
    requires 0 <= i < |ws|
    ensures var c := WindowText(tok, tokens, ws[i]);
      DecodeWindows(tok, tokens, ws[i..]) == (if c != [] then [c] else []) + DecodeWindows(tok, tokens, ws[i + 1..])
  {
    assert ws[i..][0] == ws[i] && ws[i..][1..] == ws[i + 1..];
  }

  /** What chunk_text returns for `text`. */
  function Chunks(tok: Tokenizer, chunkSize: int, chunkOverlap: int, text: string): seq<string>
    requires Terminates(chunkSize, chunkOverlap)
  {
    if IsBlank(text) then []
    else
      var tokens := tok.encode(text);
      DecodeWindows(tok, tokens, WindowsFrom(tok, chunkSize, chunkOverlap, tokens, 0))
  }

  /** A chunk as it comes out of line 44-45: non-empty, beginning and
      ending with a non-space. */
  predicate NonBlankChunk(c: string)
  {
    c != [] && !IsSpace(c[0]) && !IsSpace(c[|c| - 1])
  }

  /** Every chunk is non-empty and begins and ends with a non-space. */
  lemma {:induction false} DecodedChunksNonBlank(tok: Tokenizer, tokens: seq<int>, ws: seq<(int, int)>)
    ensures forall c :: c in DecodeWindows(tok, tokens, ws) ==> NonBlankChunk(c)
  {
    if ws != [] {
      DecodedChunksNonBlank(tok, tokens, ws[1..]);
      var c := WindowText(tok, tokens, ws[0]);
      assert c != [] ==> NonBlankChunk(c);
      assert DecodeWindows(tok, tokens, ws) == (if c != [] then [c] else []) + DecodeWindows(tok, tokens, ws[1..]);
    }
  }

  //
  // Single steps of the two loops of chunk_text, each against the
  // function it computes.
  //

  lemma EndSnapped(tok: Tokenizer, chunkSize: int, chunkOverlap: int, tokens: seq<int>, start: int, overlapStart: int, segment: string)
    requires start + chunkSize < |tokens| && overlapStart == Max(0, start + chunkSize - chunkOverlap)
    requires segment == tok.decode(PySlice(tokens, overlapStart, start + chunkSize)) && '.' in segment
    ensures WindowEnd(tok, chunkSize, chunkOverlap, tokens, start) == overlapStart + LastIndexOf(segment, '.') + 1
  {
  }

  lemma EndUnsnapped(tok: Tokenizer, chunkSize: int, chunkOverlap: int, tokens: seq<int>, start: int, overlapStart: int, segment: string)
    requires start + chunkSize < |tokens| && overlapStart == Max(0, start + chunkSize - chunkOverlap)
    requires segment == tok.decode(PySlice(tokens, overlapStart, start + chunkSize)) && '.' !in segment
    ensures WindowEnd(tok, chunkSize, chunkOverlap, tokens, start) == start + chunkSize
  {
  }

  lemma WindowLoopStep(tok: Tokenizer, chunkSize: int, chunkOverlap: int, tokens: seq<int>,
                       done: seq<(int, int)>, start: int, end: int, all: seq<(int, int)>)
    requires Terminates(chunkSize, chunkOverlap)
    requires done + WindowsFrom(tok, chunkSize, chunkOverlap, tokens, start) == all
    requires start < |tokens| && end == WindowEnd(tok, chunkSize, chunkOverlap, tokens, start)
    ensures (done + [(start, Min(end, |tokens|))]) + WindowsFrom(tok, chunkSize, chunkOverlap, tokens, end - chunkOverlap) == all
    ensures end - chunkOverlap > start
  {
    WindowsFromStep(tok, chunkSize, chunkOverlap, tokens, start);
    AppendAssoc(done, [(start, Min(end, |tokens|))], WindowsFrom(tok, chunkSize, chunkOverlap, tokens, end - chunkOverlap));
  }

  lemma DecodeLoopStep(tok: Tokenizer, tokens: seq<int>, done: seq<string>, ws: seq<(int, int)>, i: int, c: string)
    requires 0 <= i < |ws| && done + DecodeWindows(tok, tokens, ws[i..]) == DecodeWindows(tok, tokens, ws)
    requires c == Strip(tok.decode(PySlice(tokens, ws[i].0, ws[i].1)))
    ensures (if c != [] then done + [c] else done) + DecodeWindows(tok, tokens, ws[i + 1..]) == DecodeWindows(tok, tokens, ws)
  {
    DecodeWindowsStep(tok, tokens, ws, i);
    var later := DecodeWindows(tok, tokens, ws[i + 1..]);
    if c != [] {
      AppendAssoc(done, [c], later);
    } else {
      assert [] + later == later;
    }
  }

  class TextChunker {
    const chunkSize: int
    const chunkOverlap: int
    const tokenizer: Tokenizer

    /** Lines 5-8: the sizes are stored as given; nothing is checked. */
    constructor (chunkSize: int, chunkOverlap: int, tokenizer: Tokenizer)
      ensures this.chunkSize == chunkSize && this.chunkOverlap == chunkOverlap
      ensures this.tokenizer == tokenizer
    {
      this.chunkSize := chunkSize;
      this.chunkOverlap := chunkOverlap;
      this.tokenizer := tokenizer;
    }

    /** Lines 12-48: whitespace-only text yields no chunks; otherwise the
        windows of the text's tokens, each decoded and stripped, with the
        empty ones dropped. */
    method ChunkText(text: string) returns (chunks: seq<string>)
      requires Terminates(chunkSize, chunkOverlap)
      ensures chunks == Chunks(tokenizer, chunkSize, chunkOverlap, text)
      ensures IsBlank(text) ==> chunks == []
      ensures forall c :: c in chunks ==> NonBlankChunk(c)
    {
      StripEmptyIffBlank(text);
      if Strip(text) == [] {
        return [];
      }
      var tokens := tokenizer.encode(text);
      var chunkIndices := WindowBounds(tokens);

      chunks := [];
      var i := 0;
      while i < |chunkIndices|
        invariant 0 <= i <= |chunkIndices|
        invariant chunks + DecodeWindows(tokenizer, tokens, chunkIndices[i..])
          == DecodeWindows(tokenizer, tokens, chunkIndices)
      {
        var (s, e) := chunkIndices[i];
        var chunkText := Strip(tokenizer.decode(PySlice(tokens, s, e)));
        DecodeLoopStep(tokenizer, tokens, chunks, chunkIndices, i, chunkText);
        if chunkText != [] {
          chunks := chunks + [chunkText];
        }
        i := i + 1;
      }
      assert chunkIndices[i..] == [];
      DecodedChunksNonBlank(tokenizer, tokens, chunkIndices);
    }

    /** The window loop of lines 18-39: the (start, end) pairs recorded in
        chunk_indices. */
    method WindowBounds(tokens: seq<int>) returns (chunkIndices: seq<(int, int)>)
      requires Terminates(chunkSize, chunkOverlap)
      ensures chunkIndices == WindowsFrom(tokenizer, chunkSize, chunkOverlap, tokens, 0)
    {
      ghost var windows := WindowsFrom(tokenizer, chunkSize, chunkOverlap, tokens, 0);
      chunkIndices := [];
      var start := 0;
      while start < |tokens|
        invariant chunkIndices + WindowsFrom(tokenizer, chunkSize, chunkOverlap, tokens, start) == windows
        decreases |tokens| - start
      {
        var end := SnappedEnd(tokens, start);
        WindowLoopStep(tokenizer, chunkSize, chunkOverlap, tokens, chunkIndices, start, end, windows);
        chunkIndices := chunkIndices + [(start, Min(end, |tokens|))];
        start := end - chunkOverlap;
      }
    }

    /** Lines 23-36, one pass of the window loop's body: the end of the
        window that starts at `start`, snapped to the last '.' of the
        overlap region unless the window is the final one. */
    method SnappedEnd(tokens: seq<int>, start: int) returns (end: int)
      ensures end == WindowEnd(tokenizer, chunkSize, chunkOverlap, tokens, start)
    {
      end := start + chunkSize;
      if end < |tokens| {
        var overlapStart := Max(0, end - chunkOverlap);
        var segment := tokenizer.decode(PySlice(tokens, overlapStart, end));
        if '.' in segment {
          var lastSentence := LastIndexOf(segment, '.');
          EndSnapped(tokenizer, chunkSize, chunkOverlap, tokens, start, overlapStart, segment);
          end := overlapStart + lastSentence + 1;
        } else {
          EndUnsnapped(tokenizer, chunkSize, chunkOverlap, tokens, start, overlapStart, segment);
        }
      }
    }
  }
}
