/** Chunked, retrying delivery of events to a server that may do anything. */
module Delivery {
  import opened Prelude
  import opened Event
  import opened Spool

  // ---- one request ---------------------------------------------------------------------------

  /** What the network does with one request: an I/O failure, or a response text. */
  datatype Reply = Failed | Answered(response: string)

  datatype Outcome = Acked | Retryable | NonRetryable

  /** The first line of the response, without its line end. */
  function StatusLine(response: string): string {
    if response == "" || response[0] == '\n' || "\r\n" <= response then ""
    else [response[0]] + StatusLine(response[1..])
  }

  function Classify(reply: Reply): Outcome {
    if reply.Failed? then Retryable
    else
      var status := StatusLine(reply.response);
      if "HTTP/1.1 2" <= status || "HTTP/1.0 2" <= status then Acked
      else if "HTTP/1.1 4" <= status || "HTTP/1.0 4" <= status then NonRetryable
      else Retryable
  }

  /** One request, the reply to it, and what the spool file held when it was sent. */
  datatype Attempt = Attempt(body: string, reply: Reply, onDisk: string)

  /** Every one of these requests was sent with that text on disk. */
  predicate SentWith(attempts: seq<Attempt>, text: string) {
    forall i :: 0 <= i < |attempts| ==> attempts[i].onDisk == text
  }

  const MAX_ATTEMPTS := 3

  /** What the server's history shows of one `post_body`: the attempts made for one body. */
  predicate Tries(body: string, attempts: seq<Attempt>, ok: bool) {
    1 <= |attempts| <= MAX_ATTEMPTS
    && (forall i :: 0 <= i < |attempts| ==> attempts[i].body == body)
    && (forall i :: 0 <= i < |attempts| - 1 ==> Classify(attempts[i].reply) == Retryable)
    && (ok <==> Classify(attempts[|attempts| - 1].reply) == Acked)
    && (Classify(attempts[|attempts| - 1].reply) == Retryable ==> |attempts| == MAX_ATTEMPTS)
  }

  // ---- chunks --------------------------------------------------------------------------------

  /** `slice::chunks` */
  function Chunks(lines: seq<string>, size: nat): seq<seq<string>>
    requires size > 0
  {
    if lines == [] then []
    else if |lines| <= size then [lines]
    else [lines[..size]] + Chunks(lines[size..], size)
  }

  function Bodies(chunks: seq<seq<string>>): (bodies: seq<string>)
    ensures |bodies| == |chunks|
  {
    if chunks == [] then [] else [Framed(chunks[0])] + Bodies(chunks[1..])
  }

  function Concat(texts: seq<string>): string {
    if texts == [] then "" else texts[0] + Concat(texts[1..])
  }

  /** Whatever the chunk size, the request bodies together are the spooled text. */
  lemma {:induction false} BodiesAreTheSpool(lines: seq<string>, size: nat)
    requires size > 0
    ensures Concat(Bodies(Chunks(lines, size))) == Framed(lines)
  {
    if lines == [] {
    } else if |lines| <= size {
      assert Bodies([lines]) == [Framed(lines)];
      assert Concat([Framed(lines)]) == Framed(lines) + "";
    } else {
      var first, more := lines[..size], lines[size..];
      BodiesAreTheSpool(more, size);
      FramedAppend(first, more);
      assert first + more == lines;
      var chunks := [first] + Chunks(more, size);
      assert chunks[1..] == Chunks(more, size);
      assert Bodies(chunks)[1..] == Bodies(Chunks(more, size));
    }
  }

  /** No chunk is empty or too long, and only the last may be short. */
  lemma {:induction false} ChunksAreFull(lines: seq<string>, size: nat, i: nat)
    requires size > 0 && i < |Chunks(lines, size)|
    ensures 1 <= |Chunks(lines, size)[i]| <= size
    ensures i < |Chunks(lines, size)| - 1 ==> |Chunks(lines, size)[i]| == size
  {
    if |lines| > size && i > 0 {
      ChunksAreFull(lines[size..], size, i - 1);
    }
  }

  // ---- the history of one posting --------------------------------------------------------------

  function Flatten(groups: seq<seq<Attempt>>): seq<Attempt> {
    if groups == [] then [] else groups[0] + Flatten(groups[1..])
  }

  /** One group of attempts per chunk, in order; every group but a failing last one ends acknowledged. */
  predicate Delivered(bodies: seq<string>, groups: seq<seq<Attempt>>, ok: bool) {
    if groups == [] then ok && bodies == []
    else
      bodies != [] &&
      if |groups| == 1 && !ok then Tries(bodies[0], groups[0], false)
      else Tries(bodies[0], groups[0], true) && Delivered(bodies[1..], groups[1..], ok)
  }

  function AckedBodies(attempts: seq<Attempt>): seq<string> {
    if attempts == [] then []
    else (if Classify(attempts[0].reply) == Acked then [attempts[0].body] else []) + AckedBodies(attempts[1..])
  }

  lemma {:induction false} AckedAppend(a: seq<Attempt>, b: seq<Attempt>)
    ensures AckedBodies(a + b) == AckedBodies(a) + AckedBodies(b)
  {
    if a == [] {
      assert a + b == b;
    } else {
      AckedAppend(a[1..], b);
      var head := if Classify(a[0].reply) == Acked then [a[0].body] else [];
      assert (a + b)[1..] == a[1..] + b && (a + b)[0] == a[0];
      assert AckedBodies(a + b) == head + AckedBodies(a[1..] + b);
      ConcatAssociates(head, AckedBodies(a[1..]), AckedBodies(b));
    }
  }

  lemma {:induction false} NoneAcked(attempts: seq<Attempt>)
    requires forall i :: 0 <= i < |attempts| ==> Classify(attempts[i].reply) != Acked
    ensures AckedBodies(attempts) == []
  {
    if attempts != [] {
      NoneAcked(attempts[1..]);
    }
  }

  lemma TriesAck(body: string, attempts: seq<Attempt>, ok: bool)
    requires Tries(body, attempts, ok)
    ensures AckedBodies(attempts) == if ok then [body] else []
  {
    var n := |attempts| - 1;
    var last := attempts[n];
    NoneAcked(attempts[..n]);
    AckedAppend(attempts[..n], [last]);
    assert attempts == attempts[..n] + [last];
    assert AckedBodies([last]) == (if ok then [body] else []) + AckedBodies([]);
  }

  /** Success means every chunk was acknowledged once and in order; failure means a proper prefix was. */
  lemma {:induction false} AcknowledgedInOrder(bodies: seq<string>, groups: seq<seq<Attempt>>, ok: bool)
    requires Delivered(bodies, groups, ok)
    ensures ok ==> AckedBodies(Flatten(groups)) == bodies
    ensures !ok ==> 0 < |groups| <= |bodies| && AckedBodies(Flatten(groups)) == bodies[..|groups| - 1]
  {
    if groups != [] {
      var done := !(|groups| == 1 && !ok);
      TriesAck(bodies[0], groups[0], done);
      AckedAppend(groups[0], Flatten(groups[1..]));
      if done {
        AcknowledgedInOrder(bodies[1..], groups[1..], ok);
        assert bodies == [bodies[0]] + bodies[1..];
      } else {
        assert groups[1..] == [];
      }
    }
  }

  /** A request that was rejected is the last one ever sent. */
  lemma {:induction false} NothingAfterRejection(bodies: seq<string>, groups: seq<seq<Attempt>>, ok: bool, i: nat)
    requires Delivered(bodies, groups, ok)
    requires i < |Flatten(groups)| && Classify(Flatten(groups)[i].reply) == NonRetryable
    ensures !ok && i == |Flatten(groups)| - 1
  {
    var n := |groups[0]|;
    assert i < n ==> Flatten(groups)[i] == groups[0][i];
    if |groups| == 1 && !ok {
      assert groups[1..] == [] && Flatten(groups) == groups[0];
    } else if i >= n {
      NothingAfterRejection(bodies[1..], groups[1..], ok, i - n);
    }
  }

  /** The acknowledged text is a prefix of the spooled text, and all of it exactly on success. */
  lemma AcknowledgedText(lines: seq<string>, size: nat, groups: seq<seq<Attempt>>, ok: bool)
    requires size > 0 && Delivered(Bodies(Chunks(lines, size)), groups, ok)
    ensures Concat(AckedBodies(Flatten(groups))) <= Framed(lines)
    ensures ok ==> Concat(AckedBodies(Flatten(groups))) == Framed(lines)
  {
    var bodies := Bodies(Chunks(lines, size));
    AcknowledgedInOrder(bodies, groups, ok);
    BodiesAreTheSpool(lines, size);
    if !ok {
      ConcatPrefix(bodies, |groups| - 1);
    }
  }

  lemma {:induction false} ConcatPrefix(texts: seq<string>, n: nat)
    requires n <= |texts|
    ensures Concat(texts[..n]) <= Concat(texts)
  {
    if n > 0 {
      ConcatPrefix(texts[1..], n - 1);
      assert texts[..n][1..] == texts[1..][..n - 1];
    }
  }

  // ---- posting ---------------------------------------------------------------------------------

  datatype PostResult = Posted | ZeroChunkSize | NotDelivered

  class HttpEndpoint {
    /** The server's reply to the n-th request it is ever sent. */
    const server: nat -> Reply
    var sent: seq<Attempt>

    /** The record is what the server answered. */
    ghost predicate Honest()
      reads this
    {
      forall i :: 0 <= i < |sent| ==> sent[i].reply == server(i)
    }

    constructor (server: nat -> Reply)
      ensures this.server == server && sent == [] && Honest()
    {
      this.server := server;
      sent := [];
    }

    method PostBodyOnce(body: string, spool: JsonlSpool) returns (outcome: Outcome)
      requires Honest()
      modifies this`sent
      ensures Honest()
      ensures sent == old(sent) + [Attempt(body, server(|old(sent)|), spool.text)]
      ensures outcome == Classify(server(|old(sent)|))
    {
      var reply := server(|sent|);
      sent := sent + [Attempt(body, reply, spool.text)];
      outcome := Classify(reply);
    }

    /** `post_body`: up to three attempts, stopping at the first answer that is not retryable. */
    method PostBody(body: string, spool: JsonlSpool) returns (ok: bool, ghost attempts: seq<Attempt>)
      requires Honest()
      modifies this`sent
      ensures Honest()
      ensures sent == old(sent) + attempts && Tries(body, attempts, ok) && SentWith(attempts, spool.text)
    {
      attempts := [];
      for attempt := 0 to MAX_ATTEMPTS
        invariant Honest()
        invariant sent == old(sent) + attempts && |attempts| == attempt
        invariant SentWith(attempts, spool.text)
        invariant forall i :: 0 <= i < |attempts| ==> attempts[i].body == body && Classify(attempts[i].reply) == Retryable
      {
        ghost var reply := server(|sent|);
        var outcome := PostBodyOnce(body, spool);
        attempts := attempts + [Attempt(body, reply, spool.text)];
        if outcome == Acked {
          return true, attempts;
        } else if outcome == NonRetryable {
          return false, attempts;
        }
      }
      ok := false;
    }

    /** `post_events_chunked` */
    method PostEventsChunked(events: seq<Event>, chunkSize: nat, spool: JsonlSpool)
      returns (result: PostResult, ghost groups: seq<seq<Attempt>>)
      requires Honest()
      modifies this`sent
      ensures Honest()
      ensures sent == old(sent) + Flatten(groups)
      ensures SentWith(Flatten(groups), spool.text)
      ensures events == [] ==> result == Posted && groups == []
      ensures result == ZeroChunkSize <==> events != [] && chunkSize == 0
      ensures result == ZeroChunkSize ==> groups == []
      ensures result != ZeroChunkSize && chunkSize > 0 ==>
                Delivered(Bodies(Chunks(Texts(events), chunkSize)), groups, result == Posted)
    {
      groups := [];
      if events == [] {
        return Posted, [];
      }
      if chunkSize == 0 {
        return ZeroChunkSize, [];
      }
      var ok;
      ok, groups := PostChunks(Texts(events), chunkSize, spool);
      result := if ok then Posted else NotDelivered;
    }

    /** The chunk loop. */
    method PostChunks(lines: seq<string>, chunkSize: nat, spool: JsonlSpool)
      returns (ok: bool, ghost groups: seq<seq<Attempt>>)
      requires chunkSize > 0
      requires Honest()
      modifies this`sent
      ensures Honest()
      ensures sent == old(sent) + Flatten(groups)
      ensures Delivered(Bodies(Chunks(lines, chunkSize)), groups, ok) && SentWith(Flatten(groups), spool.text)
    {
      groups := [];
      var rest := lines;
      ghost var start, bodies := sent, Bodies(Chunks(lines, chunkSize));
      while rest != []
        invariant Honest()
        invariant Progress(bodies, Bodies(Chunks(rest, chunkSize)), groups, start, sent, spool.text)
        decreases |rest|
      {
        var size := Min(chunkSize, |rest|);
        var body := JoinLines(rest[..size]);
        ChunksStep(rest, chunkSize);
        ghost var attempts, before := [], sent;
        ok, attempts := PostBody(body, spool);
        ProgressStep(bodies, body, Bodies(Chunks(rest[size..], chunkSize)), groups, attempts, ok, start, before, spool.text);
        groups := groups + [attempts];
        rest := rest[size..];
        if !ok {
          return;
        }
      }
      assert bodies[..|groups|] == bodies;
      ok := true;
    }
  }

  /** Some chunks acknowledged, the bodies of the others still to be posted. */
  ghost predicate Progress(bodies: seq<string>, left: seq<string>, groups: seq<seq<Attempt>>,
                           start: seq<Attempt>, sent: seq<Attempt>, text: string)
  {
    && |groups| <= |bodies| && left == bodies[|groups|..] && sent == start + Flatten(groups)
    && Delivered(bodies[..|groups|], groups, true) && SentWith(Flatten(groups), text)
  }

  lemma ProgressStep(bodies: seq<string>, body: string, left: seq<string>, groups: seq<seq<Attempt>>, attempts: seq<Attempt>,
                     ok: bool, start: seq<Attempt>, sent: seq<Attempt>, text: string)
    requires Progress(bodies, [body] + left, groups, start, sent, text)
    requires Tries(body, attempts, ok) && SentWith(attempts, text)
    ensures sent + attempts == start + Flatten(groups + [attempts]) && SentWith(Flatten(groups + [attempts]), text)
    ensures ok ==> Progress(bodies, left, groups + [attempts], start, sent + attempts, text)
    ensures !ok ==> Delivered(bodies, groups + [attempts], false)
  {
    assert bodies[|groups|..][0] == body && bodies[|groups|..][1..] == bodies[|groups| + 1..];
    DeliveredNext(bodies, groups, attempts, ok);
    FlattenOnto(start, groups, attempts);
    SentOnto(groups, attempts, text);
  }

  /** The body loop: push each text and a newline. */
  method JoinLines(lines: seq<string>) returns (body: string)
    ensures body == Framed(lines)
  {
    body := "";
    for i := 0 to |lines|
      invariant body == Framed(lines[..i])
    {
      FramedNext(lines, i);
      body := body + (lines[i] + "\n");
    }
    assert lines[..|lines|] == lines;
  }

  lemma {:induction false} FlattenAppend(groups: seq<seq<Attempt>>, last: seq<Attempt>)
    ensures Flatten(groups + [last]) == Flatten(groups) + last
  {
    if groups == [] {
      assert groups + [last] == [last] && [last][1..] == [];
    } else {
      FlattenAppend(groups[1..], last);
      assert (groups + [last])[1..] == groups[1..] + [last];
    }
  }

  lemma FlattenOnto(start: seq<Attempt>, groups: seq<seq<Attempt>>, last: seq<Attempt>)
    ensures start + Flatten(groups) + last == start + Flatten(groups + [last])
  {
    FlattenAppend(groups, last);
  }

  lemma SentOnto(groups: seq<seq<Attempt>>, last: seq<Attempt>, text: string)
    requires SentWith(Flatten(groups), text) && SentWith(last, text)
    ensures SentWith(Flatten(groups + [last]), text)
  {
    FlattenAppend(groups, last);
  }

  lemma ChunksStep(lines: seq<string>, size: nat)
    requires size > 0 && lines != []
    ensures var n := Min(size, |lines|);
            Bodies(Chunks(lines, size)) == [Framed(lines[..n])] + Bodies(Chunks(lines[n..], size))
  {
    if |lines| <= size {
      assert lines[..|lines|] == lines && lines[|lines|..] == [];
      assert [lines][1..] == [];
    } else {
      var chunks := Chunks(lines, size);
      assert chunks[1..] == Chunks(lines[size..], size);
    }
  }

  /** One more chunk acknowledged, or the failing last one. */
  lemma {:induction false} DeliveredNext(bodies: seq<string>, groups: seq<seq<Attempt>>, attempts: seq<Attempt>, ok: bool)
    requires |groups| < |bodies| && Delivered(bodies[..|groups|], groups, true)
    requires Tries(bodies[|groups|], attempts, ok)
    ensures ok ==> Delivered(bodies[..|groups| + 1], groups + [attempts], true)
    ensures !ok ==> Delivered(bodies, groups + [attempts], false)
  {
    var all := groups + [attempts];
    if groups == [] {
      assert all[1..] == [] && bodies[..1][1..] == [];
    } else {
      assert bodies[1..][..|groups[1..]|] == bodies[..|groups|][1..];
      DeliveredNext(bodies[1..], groups[1..], attempts, ok);
      assert all[1..] == groups[1..] + [attempts];
      assert bodies[..|groups| + 1][1..] == bodies[1..][..|groups|];
    }
  }

  // ---- spool first, then post ------------------------------------------------------------------

  lemma AllStored(lines: seq<string>, disk: seq<Disk>)
    requires |lines| == |disk|
    ensures Stored(lines, |lines|, disk) == Framed(lines)
  {
    assert lines[..|lines|] == lines && Framed(lines) + "" == Framed(lines);
  }

  datatype EmitResult = Emitted | SpoolFailed | PostFailed

  /**
   The end of `collect_and_emit`: whatever is sent, and there is nothing to send to without a
   backend, is sent after every event has reached the disk.
   */
  method EmitEvents(spool: JsonlSpool, backend: HttpEndpoint?, events: seq<Event>, disk: seq<Disk>, chunkSize: nat)
    returns (result: EmitResult, ghost groups: seq<seq<Attempt>>)
    requires |disk| == |events| && (backend != null ==> backend.Honest())
    modifies spool, backend
    ensures backend != null ==> backend.Honest() && backend.sent == old(backend.sent) + Flatten(groups)
    ensures spool.text == old(spool.text) + Stored(Texts(events), FirstFailure(disk, 0), disk)
    ensures result == SpoolFailed <==> FirstFailure(disk, 0) < |events|
    ensures result == SpoolFailed || backend == null ==> groups == []
    ensures SentWith(Flatten(groups), old(spool.text) + Framed(Texts(events)))
    ensures backend == null && result != SpoolFailed ==> result == Emitted
    ensures backend != null && result != SpoolFailed && chunkSize > 0 ==>
              Delivered(Bodies(Chunks(Texts(events), chunkSize)), groups, result == Emitted)
  {
    groups := [];
    var ok, stored := spool.AppendAll(events, disk);
    if !ok {
      return SpoolFailed, [];
    }
    if backend == null {
      return Emitted, [];
    }
    AllStored(Texts(events), disk);
    var posted;
    posted, groups := backend.PostEventsChunked(events, chunkSize, spool);
    result := if posted == Posted then Emitted else PostFailed;
  }
}
