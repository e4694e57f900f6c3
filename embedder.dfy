/** Embedder (src/kbol/indexer/core/embedder.py): one embedding request
    per text, all awaited together, and each reply mapped, by position, to
    its "embedding" field or to None. */
module Embedder {
  import opened Common

  /** An embedding vector as the service returns it; its numbers are only
      passed along. */
  type Vector = seq<real>

  /** The parsed JSON object of a reply; `embedding` is None when the key
      is absent. */
  datatype Reply = Reply(embedding: Option<Vector>)

  /** What asyncio.gather(..., return_exceptions=True) hands back for one
      request: the exception the request raised, or the response, whose
      `.json()` either parses or raises (the error). */
  datatype Response = Raised(error: string) | Answered(body: Result<Reply>)

  /** The reply whose body is not JSON: `response.json()` raises. */
  predicate Unparsable(r: Response)
  {
    r.Answered? && r.body.Err?
  }

  /** Lines 26-30 for one reply that is not Unparsable. */
  function EmbeddingOf(r: Response): Option<Vector>
    requires !Unparsable(r)
  {
    if r.Raised? then None else r.body.value.embedding
  }

  /** A present embedding for `text`: the request neither raised nor came
      back with a body lacking "embedding". */
  predicate Embedded(r: Response)
  {
    r.Answered? && r.body.Ok? && r.body.value.embedding.Some?
  }

  /** The replies gathered for `texts`, one per text, in the texts' order
      (asyncio.gather keeps the order of its arguments, whatever order the
      requests complete in). */
  function Gather(service: string -> Response, texts: seq<string>): (rs: seq<Response>)
    ensures |rs| == |texts|
    ensures forall i :: 0 <= i < |texts| ==> rs[i] == service(texts[i])
  {
    seq(|texts|, i requires 0 <= i < |texts| => service(texts[i]))
  }

  /** Lines 23-32: the replies mapped in order; the first reply whose body
      is not JSON raises out of the whole batch. */
  function Embeddings(rs: seq<Response>): (r: Result<seq<Option<Vector>>>)
    ensures r.Ok? ==> |r.value| == |rs|
  {
    if rs == [] then Ok([])
    else if Unparsable(rs[0]) then Err(rs[0].body.error)
    else
      var rest := Embeddings(rs[1..]);
      if rest.Err? then rest else Ok([EmbeddingOf(rs[0])] + rest.value)
  }

  /** A successful batch has one entry per reply, the i-th being the i-th
      reply's "embedding" field, or None when its request raised. */
  lemma {:induction false} EmbeddingsPositional(rs: seq<Response>)
    ensures Embeddings(rs).Ok? ==>
      && |Embeddings(rs).value| == |rs|
      && forall i :: 0 <= i < |rs| ==> !Unparsable(rs[i]) && Embeddings(rs).value[i] == EmbeddingOf(rs[i])
  {
    if rs != [] && !Unparsable(rs[0]) {
      EmbeddingsPositional(rs[1..]);
      var rest := Embeddings(rs[1..]);
      if rest.Ok? {
        forall i | 0 <= i < |rs| ensures !Unparsable(rs[i]) && Embeddings(rs).value[i] == EmbeddingOf(rs[i]) {
          if i > 0 {
            assert rs[i] == rs[1..][i - 1];
          }
        }
      }
    }
  }

  /** The batch fails exactly when some reply is not JSON, and then with
      the error of the first such reply. */
  lemma {:induction false} EmbeddingsFailIff(rs: seq<Response>)
    ensures Embeddings(rs).Err? <==> exists i :: 0 <= i < |rs| && Unparsable(rs[i])
    ensures Embeddings(rs).Err? ==>
      exists i :: 0 <= i < |rs| && Unparsable(rs[i]) && Embeddings(rs).error == rs[i].body.error
        && forall j :: 0 <= j < i ==> !Unparsable(rs[j])
  {
    if rs != [] && !Unparsable(rs[0]) {
      EmbeddingsFailIff(rs[1..]);
      if exists i :: 0 <= i < |rs| && Unparsable(rs[i]) {
        var i :| 0 <= i < |rs| && Unparsable(rs[i]);
        assert rs[1..][i - 1] == rs[i];
      }
      if Embeddings(rs).Err? {
        var i :| 0 <= i < |rs[1..]| && Unparsable(rs[1..][i]) && Embeddings(rs[1..]).error == rs[1..][i].body.error
          && forall j :: 0 <= j < i ==> !Unparsable(rs[1..][j]);
        assert rs[i + 1] == rs[1..][i];
        forall j | 0 <= j < i + 1 ensures !Unparsable(rs[j]) {
          if j > 0 {
            assert rs[j] == rs[1..][j - 1];
          }
        }
      }
    } else if rs != [] {
      assert Unparsable(rs[0]);
    }
  }


  lemma EmbeddingsStep(rs: seq<Response>, done: seq<Option<Vector>>, i: int)
    requires 0 <= i < |rs| && !Unparsable(rs[i])
    requires Prepend(done, Embeddings(rs[i..])) == Embeddings(rs)
    ensures Prepend(done + [EmbeddingOf(rs[i])], Embeddings(rs[i + 1..])) == Embeddings(rs)
  {
    assert rs[i..][0] == rs[i] && rs[i..][1..] == rs[i + 1..];
    var rest := Embeddings(rs[i + 1..]);
    if rest.Ok? {
      AppendAssoc(done, [EmbeddingOf(rs[i])], rest.value);
    }
  }

  lemma EmbeddingsStop(rs: seq<Response>, done: seq<Option<Vector>>, i: int)
    requires 0 <= i < |rs| && Unparsable(rs[i])
    requires Prepend(done, Embeddings(rs[i..])) == Embeddings(rs)
    ensures Embeddings(rs) == Err(rs[i].body.error)
  {
    assert rs[i..][0] == rs[i];
  }

  class Embedder {
    const url: string
    const model: string
    /** One POST of {"model": model, "prompt": text} to url/api/embeddings,
        as a deterministic function of the text. */
    const service: string -> Response

    /** Lines 6-8. */
    constructor (url: string, model: string, service: string -> Response)
      ensures this.url == url && this.model == model && this.service == service
    {
      this.url := url;
      this.model := model;
      this.service := service;
    }

    /** Lines 10-32: one entry per text, in the texts' order. */
    method GetEmbeddingsBatch(texts: seq<string>) returns (r: Result<seq<Option<Vector>>>)
      ensures r == Embeddings(Gather(service, texts))
      ensures r.Ok? ==> |r.value| == |texts|
    {
      // lines 13-22: one request per text, all awaited together
      var responses := Gather(service, texts);
      var embeddings: seq<Option<Vector>> := [];
      var i := 0;
      assert responses[i..] == responses;
      assert Embeddings(responses).Ok? ==> [] + Embeddings(responses).value == Embeddings(responses).value;
      while i < |responses|
        invariant 0 <= i <= |responses|
        invariant Prepend(embeddings, Embeddings(responses[i..])) == Embeddings(responses)
      {
        var response := responses[i];
        if Unparsable(response) {
          EmbeddingsStop(responses, embeddings, i);
          return Err(response.body.error);
        }
        EmbeddingsStep(responses, embeddings, i);
        embeddings := embeddings + [EmbeddingOf(response)];
        i := i + 1;
      }
      assert responses[i..] == [] && embeddings + [] == embeddings;
      return Ok(embeddings);
    }
  }
}
