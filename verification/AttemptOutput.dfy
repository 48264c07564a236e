/** The output accumulator of an attempt (OutputAccumulator in attempt-runner.mjs) against the
    acceptor's stream checks (validateOutputStream in attempt-evidence.mjs). */
module AttemptOutput {
  import opened Text

  newtype byte = x: int | 0 <= x < 256

  /** The evidence of one stream; the digest stands for SHA-256 of everything received. */
  datatype Output = Output(bytes: nat, digest: string, excerpt: seq<byte>, truncated: bool, complete: bool,
                           error: Option<string>)

  function Flatten(chunks: seq<seq<byte>>): seq<byte>
    decreases |chunks|
  {
    if chunks == [] then [] else Flatten(chunks[..|chunks| - 1]) + chunks[|chunks| - 1]
  }

  function Head(content: seq<byte>, limit: nat): seq<byte> {
    if |content| <= limit then content else content[..limit]
  }

  /** The evidence a stream's content, end and error determine, however it was cut up. */
  function OutputOf(content: seq<byte>, limit: nat, ended: bool, error: Option<string>,
                    digest: seq<byte> -> string): Output
  {
    Output(|content|, digest(content), Head(content, limit), |content| > limit, ended && error.None?, error)
  }

  /** validateOutputStream: the acceptor sees the excerpt, not the content. */
  predicate AcceptsOutput(o: Output, digest: seq<byte> -> string) {
    && o.bytes >= |o.excerpt| && o.truncated == (o.bytes > |o.excerpt|)
    && (!o.truncated ==> digest(o.excerpt) == o.digest)
    && (o.complete ==> o.error.None?)
  }

  class OutputAccumulator {
    const limit: nat
    var bytes: nat
    var hashed: seq<byte>
    var excerpt: seq<seq<byte>>
    var excerptBytes: nat
    var ended: bool
    var error: Option<string>
    var finalized: bool

    ghost predicate Valid() reads this {
      && bytes == |hashed| && excerptBytes == |Flatten(excerpt)|
      && Flatten(excerpt) == Head(hashed, limit)
    }

    constructor (limit: nat)
      ensures Valid() && hashed == [] && !ended && error == None && !finalized && this.limit == limit
    {
      this.limit := limit;
      bytes, hashed, excerpt, excerptBytes, ended, error, finalized := 0, [], [], 0, false, None, false;
    }

    method OnData(chunk: seq<byte>)
      requires Valid()
      modifies this
      ensures Valid() && hashed == old(hashed) + chunk
      ensures ended == old(ended) && error == old(error) && finalized == old(finalized)
    {
      bytes := bytes + |chunk|;
      hashed := hashed + chunk;
      var available := limit - excerptBytes;
      if available > 0 {
        var retained := if |chunk| <= available then chunk else chunk[..available];
        assert (excerpt + [retained])[..|excerpt|] == excerpt;
        excerpt := excerpt + [retained];
        excerptBytes := excerptBytes + |retained|;
      }
      assert Flatten(excerpt) == Head(hashed, limit);
    }

    method OnEnd()
      requires Valid()
      modifies this`ended
      ensures Valid() && ended
    {
      ended := true;
    }

    method OnError(code: string)
      requires Valid()
      modifies this`error
      ensures Valid() && error == Some(code)
    {
      error := Some(code);
    }

    /** The result depends on the content alone, not on its chunks. */
    method Finish(digest: seq<byte> -> string) returns (o: Option<Output>)
      requires Valid()
      modifies this`finalized
      ensures o.None? <==> old(finalized)
      ensures o.Some? ==> finalized && o.value == OutputOf(hashed, limit, ended, error, digest)
    {
      if finalized { return None; }
      finalized := true;
      var joined := [];
      for i := 0 to |excerpt|
        invariant joined == Flatten(excerpt[..i])
      {
        assert excerpt[..i + 1][..i] == excerpt[..i];
        joined := joined + excerpt[i];
      }
      assert excerpt[..|excerpt|] == excerpt;
      return Some(Output(bytes, digest(hashed), joined, bytes > |joined|, ended && error.None?, error));
    }
  }

  /** Feeding any chunks and finishing gives the evidence of their concatenation, and the
      acceptor takes it. */
  method Accumulate(chunks: seq<seq<byte>>, limit: nat, ends: bool, error: Option<string>, digest: seq<byte> -> string)
    returns (o: Output)
    ensures o == OutputOf(Flatten(chunks), limit, ends, error, digest) && AcceptsOutput(o, digest)
  {
    var a := new OutputAccumulator(limit);
    for i := 0 to |chunks|
      invariant a.Valid() && a.limit == limit && a.hashed == Flatten(chunks[..i])
      invariant !a.ended && a.error == None && !a.finalized
    {
      assert chunks[..i + 1][..i] == chunks[..i];
      a.OnData(chunks[i]);
    }
    assert chunks[..|chunks|] == chunks;
    if ends { a.OnEnd(); }
    if error.Some? { a.OnError(error.value); }
    var result := a.Finish(digest);
    return result.value;
  }

  /** With an injective digest, an accepted untruncated excerpt is the whole content. */
  lemma AcceptedExcerptIsWhole(o: Output, content: seq<byte>, digest: seq<byte> -> string)
    requires AcceptsOutput(o, digest) && !o.truncated && o.digest == digest(content)
    requires forall a, b :: digest(a) == digest(b) ==> a == b
    ensures o.excerpt == content && o.bytes == |content|
  {
    assert digest(o.excerpt) == digest(content);
  }
}
