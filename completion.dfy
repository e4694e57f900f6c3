/** The streaming completion client (src/kbol/core/llm.py): the server
    answers with one JSON object per line; each line is skipped, ends the
    stream with an error, or contributes a fragment of the answer, and
    get_completion joins the fragments. */
module Completion {
  import opened Common

  /** What json.loads makes of a non-blank line: not JSON at all, or an
      object, seen through its "error" and "response" keys (the error
      value as the f-string renders it). */
  datatype Decoded = Malformed | Object(error: Option<string>, response: Option<string>)

  /** The POST to /api/generate: it failed outright, or the server
      answered with a status, the message raise_for_status would raise
      for it, and the body's lines. */
  datatype Exchange = Unreachable(error: string) | Answered(status: int, statusError: string, lines: seq<string>)

  /** How one line of the body is handled. */
  datatype Line = Skip | Abort(message: string) | Fragment(text: string)

  /** The yielded fragments, and the error the stream ended on, if any. */
  datatype Stream = Stream(fragments: seq<string>, error: Option<string>)

  const OllamaError: string := "Ollama error: "
  const StreamFailed: string := "Error streaming completion: "
  const CompletionFailed: string := "Error getting completion: "

  predicate StartsWith(s: string, prefix: string)
  {
    |prefix| <= |s| && s[..|prefix|] == prefix
  }

  /** Lines 34-43: blank lines and lines that are not JSON are skipped; an
      "error" key ends the stream, and is looked at before "response";
      a "response" key yields its text; anything else yields nothing. */
  function Classify(line: string, parse: string -> Decoded): Line
  {
    if IsBlank(line) then Skip
    else match parse(line)
      case Malformed => Skip
      case Object(error, response) =>
        if error.Some? then Abort(OllamaError + error.value)
        else if response.Some? then Fragment(response.value)
        else Skip
  }

  /** Lines 33-43: the lines in order, until one aborts. */
  function Walk(lines: seq<string>, parse: string -> Decoded): Stream
  {
    if lines == [] then Stream([], None)
    else match Classify(lines[0], parse)
      case Skip => Walk(lines[1..], parse)
      case Abort(m) => Stream([], Some(m))
      case Fragment(t) =>
        var w := Walk(lines[1..], parse);
        Stream([t] + w.fragments, w.error)
  }

  /** stream_completion (lines 13-46): a non-2xx status raises before any
      line is read; every failure is re-raised with the StreamFailed
      prefix. */
  function StreamCompletion(x: Exchange, parse: string -> Decoded): (s: Stream)
    ensures s.error.Some? ==> StartsWith(s.error.value, StreamFailed)
    ensures x.Answered? && !(200 <= x.status < 300) ==> s.fragments == []
  {
    match x
    case Unreachable(e) => Stream([], Some(StreamFailed + e))
    case Answered(status, statusError, lines) =>
      if !(200 <= status < 300) then Stream([], Some(StreamFailed + statusError))
      else
        var w := Walk(lines, parse);
        Stream(w.fragments, if w.error.Some? then Some(StreamFailed + w.error.value) else None)
  }

  /** "".join(parts) */
  function Concat(parts: seq<string>): string
  {
    if parts == [] then "" else parts[0] + Concat(parts[1..])
  }

  lemma {:induction false} ConcatAppend(a: seq<string>, b: seq<string>)
    ensures Concat(a + b) == Concat(a) + Concat(b)
  {
    if a != [] {
      assert (a + b)[1..] == a[1..] + b;
      ConcatAppend(a[1..], b);
      AppendAssoc(a[0], Concat(a[1..]), Concat(b));
    } else {
      assert a + b == b;
    }
  }

  /** get_completion (lines 49-71): the fragments joined in order, or the
      stream's error wrapped once more. */
  function Completion(x: Exchange, parse: string -> Decoded): (r: Result<string>)
    ensures r.Err? ==> StartsWith(r.error, CompletionFailed + StreamFailed)
  {
    var s := StreamCompletion(x, parse);
    if s.error.Some? then Err(CompletionFailed + s.error.value) else Ok(Concat(s.fragments))
  }

  //
  // An independent description of the stream: the fragments of every
  // line before the first that aborts.
  //

  function Texts(lines: seq<string>, parse: string -> Decoded): seq<string>
  {
    if lines == [] then []
    else
      var k := Classify(lines[0], parse);
      (if k.Fragment? then [k.text] else []) + Texts(lines[1..], parse)
  }

  /** The index of the first aborting line, or |lines| when none aborts. */
  function FirstAbort(lines: seq<string>, parse: string -> Decoded): (n: nat)
    ensures n <= |lines|
    ensures forall j :: 0 <= j < n ==> !Classify(lines[j], parse).Abort?
    ensures n < |lines| ==> Classify(lines[n], parse).Abort?
  {
    if lines == [] || Classify(lines[0], parse).Abort? then 0
    else
      var n := FirstAbort(lines[1..], parse);
      assert forall j :: 0 < j <= n ==> lines[j] == lines[1..][j - 1];
      n + 1
  }

  /** The stream yields exactly the fragments before the first aborting
      line, in line order, and ends with that line's error. */
  lemma {:induction false} WalkUntilAbort(lines: seq<string>, parse: string -> Decoded)
    ensures var n := FirstAbort(lines, parse);
      Walk(lines, parse) == Stream(Texts(lines[..n], parse),
                                   if n < |lines| then Some(Classify(lines[n], parse).message) else None)
  {
    if lines != [] {
      WalkUntilAbort(lines[1..], parse);
      var n := FirstAbort(lines, parse);
      if n > 0 {
        assert lines[..n][1..] == lines[1..][..n - 1];
        assert lines[..n][0] == lines[0];
      }
    }
  }

  /** A line that is skipped may be added anywhere without changing the
      stream: blank lines, malformed lines, and objects with neither
      key. */
  lemma {:induction false} SkippedLineIrrelevant(a: seq<string>, line: string, b: seq<string>, parse: string -> Decoded)
    requires Classify(line, parse).Skip?
    ensures Walk(a + [line] + b, parse) == Walk(a + b, parse)
  {
    if a == [] {
      assert a + [line] + b == [line] + b && ([line] + b)[1..] == b && a + b == b;
    } else {
      assert (a + [line] + b)[0] == a[0] && (a + [line] + b)[1..] == a[1..] + [line] + b;
      assert (a + b)[0] == a[0] && (a + b)[1..] == a[1..] + b;
      SkippedLineIrrelevant(a[1..], line, b, parse);
    }
  }

  /** The completion succeeds exactly when the status is 2xx and no line
      aborts, and it is then the join of every fragment in order. */
  lemma CompletionIff(x: Exchange, parse: string -> Decoded)
    ensures Completion(x, parse).Ok? <==>
      x.Answered? && 200 <= x.status < 300 && FirstAbort(x.lines, parse) == |x.lines|
    ensures Completion(x, parse).Ok? ==> Completion(x, parse).value == Concat(Texts(x.lines, parse))
  {
    if x.Answered? {
      WalkUntilAbort(x.lines, parse);
      assert x.lines[..|x.lines|] == x.lines;
    }
  }

  /** A line carrying an "error" key, reached before any other error,
      fails the whole completion with that error, doubly wrapped. */
  lemma ErrorLineFails(x: Exchange, parse: string -> Decoded, n: nat, e: string)
    requires x.Answered? && 200 <= x.status < 300
    requires n < |x.lines| && !IsBlank(x.lines[n]) && parse(x.lines[n]).Object? && parse(x.lines[n]).error == Some(e)
    requires forall j :: 0 <= j < n ==> !Classify(x.lines[j], parse).Abort?
    ensures Completion(x, parse) == Err(CompletionFailed + (StreamFailed + (OllamaError + e)))
  {
    WalkUntilAbort(x.lines, parse);
    assert FirstAbort(x.lines, parse) == n;
  }

  /** The Stream left to build after the lines before i: what was
      collected, in front of what the rest gives. */
  function After(done: seq<string>, w: Stream): Stream
  {
    Stream(done + w.fragments, w.error)
  }

  /** get_completion with stream_completion's loop inlined: chunks grows
      by one fragment per response line (line 65). */
  method GetCompletion(x: Exchange, parse: string -> Decoded) returns (r: Result<string>)
    ensures r == Completion(x, parse)
  {
    if x.Unreachable? {
      return Err(CompletionFailed + (StreamFailed + x.error));
    }
    if !(200 <= x.status < 300) {
      return Err(CompletionFailed + (StreamFailed + x.statusError));
    }
    var lines := x.lines;
    var chunks: seq<string> := [];
    var i := 0;
    assert lines[i..] == lines && [] + Walk(lines, parse).fragments == Walk(lines, parse).fragments;
    while i < |lines|
      invariant i <= |lines|
      invariant After(chunks, Walk(lines[i..], parse)) == Walk(lines, parse)
    {
      assert lines[i..][0] == lines[i] && lines[i..][1..] == lines[i + 1..];
      var kind := Classify(lines[i], parse);
      if kind.Abort? {
        return Err(CompletionFailed + (StreamFailed + kind.message));
      }
      if kind.Fragment? {
        AppendAssoc(chunks, [kind.text], Walk(lines[i + 1..], parse).fragments);
        chunks := chunks + [kind.text];
      }
      i := i + 1;
    }
    assert lines[i..] == [] && chunks + [] == chunks;
    return Ok(Concat(chunks));
  }
}
