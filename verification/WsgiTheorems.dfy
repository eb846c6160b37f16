// What reaches the client of a wrapped WSGI application, for every behaviour of the application.
module WsgiTheorems {
  import opened Wrappers
  import opened Utf8
  import opened Wsgi

  // ---------------------------------------------------------------------------------------
  // The grammar of a response
  // ---------------------------------------------------------------------------------------

  // Nothing, or a start and then bodies that announce more.
  predicate OpenTrace(sent: seq<Message>) {
    sent == []
    || (sent[0].ResponseStart? && forall k | 1 <= k < |sent| :: sent[k].ResponseBody? && sent[k].moreBody)
  }

  // One start, any number of bodies that announce more, one final empty body.
  predicate CompleteTrace(sent: seq<Message>) {
    && |sent| >= 2
    && OpenTrace(sent[..|sent| - 1])
    && sent[|sent| - 1] == ResponseBody([], false)
  }

  predicate Consistent(p: Progress) {
    OpenTrace(p.sent) && (p.response.started <==> p.sent != [])
      && (p.response.start.Some? ==> p.response.start.value.ResponseStart?)
  }

  lemma CloseCompletes(p: Progress)
    requires Consistent(p)
    ensures Close(p).finished ==> CompleteTrace(Close(p).progress.sent)
    ensures !Close(p).finished ==> Close(p).progress.sent == []
  {
    var (p', ok) := EnsureStarted(p);
    if ok {
      assert (p'.sent + [ResponseBody([], false)])[..|p'.sent|] == p'.sent;
    }
  }

  // For every application: what was sent is complete exactly when run_wsgi_app came to its end,
  // and otherwise it is the beginning of a response.
  lemma {:induction false} ResponseGrammar(p: Progress, script: seq<Step>, parseInt: Numbers)
    requires Consistent(p)
    ensures var o := Serve(p, script, parseInt);
      if o.finished then CompleteTrace(o.progress.sent) else OpenTrace(o.progress.sent)
    decreases |script|
  {
    if script == [] {
      CloseCompletes(p);
    } else {
      match script[0]
      case Raise =>
      case Call(c, _) =>
        ResponseGrammar(p.(response := StartResponse(p.response, c, parseInt).0), script[1..], parseInt);
      case Chunk(output) =>
        var (p', ok) := EnsureStarted(p.(pulled := p.pulled + 1));
        if ok {
          CloseCompletes(SendChunk(p', output));
          ResponseGrammar(SendChunk(p', output), script[1..], parseInt);
        }
    }
  }

  // ---------------------------------------------------------------------------------------
  // Content-Length
  // ---------------------------------------------------------------------------------------

  // The chunks an application gives from here on, up to its first exception. The response has
  // started, so every call of start_response fails.
  function Delivered(script: seq<Step>): seq<Bytes> {
    if script == [] then []
    else
      match script[0]
      case Raise => []
      case Call(_, catches) => if catches then Delivered(script[1..]) else []
      case Chunk(b) => [b] + Delivered(script[1..])
  }

  predicate EndsNormally(script: seq<Step>) {
    script == [] || (script[0] != Raise && (script[0].Call? ==> script[0].catches) && EndsNormally(script[1..]))
  }

  function Flat(chunks: seq<Bytes>): Bytes {
    if chunks == [] then [] else chunks[0] + Flat(chunks[1..])
  }

  // The chunks as far as a declared length lets them through; a negative one stops nothing.
  function Cut(chunks: seq<Bytes>, limit: Option<int>): seq<Bytes> {
    if limit.None? || chunks == [] then chunks
    else
      var first := Trimmed(chunks[0], limit.value);
      var left := limit.value - |first|;
      [first] + (if left == 0 then [] else Cut(chunks[1..], Some(left)))
  }

  predicate Reaches(chunks: seq<Bytes>, limit: Option<int>) {
    limit.Some? && limit.value >= 0 && chunks != [] && |Flat(chunks)| >= limit.value
  }

  function Bodies(chunks: seq<Bytes>): seq<Message> {
    if chunks == [] then [] else [ResponseBody(chunks[0], true)] + Bodies(chunks[1..])
  }

  function Remaining(p: Progress): Option<int> {
    if p.response.length.None? then None else Some(p.response.length.value - p.bytesSent)
  }

  function Final(finished: bool): seq<Message> {
    if finished then [ResponseBody([], false)] else []
  }

  // What is sent, pulled and finished from a started response on.
  ghost predicate ServesFrom(p: Progress, script: seq<Step>, parseInt: Numbers) {
    var o, chunks, limit := Serve(p, script, parseInt), Delivered(script), Remaining(p);
    && o.progress.response == p.response
    && o.progress.sent == p.sent + Bodies(Cut(chunks, limit)) + Final(o.finished)
    && o.progress.pulled == p.pulled + |Cut(chunks, limit)|
    && (o.finished <==> EndsNormally(script) || Reaches(chunks, limit))
  }

  // One chunk, cut; it is the last one if it reaches the length.
  lemma CutOne(p: Progress, output: Bytes, rest: seq<Bytes>)
    ensures var out, p' := Clamped(p, output), SendChunk(p, output);
      Cut([output] + rest, Remaining(p)) == [out] + (if EnoughSent(p') then [] else Cut(rest, Remaining(p')))
  {
    assert ([output] + rest)[1..] == rest;
  }

  lemma ReachesOne(p: Progress, output: Bytes, rest: seq<Bytes>)
    ensures var p' := SendChunk(p, output);
      Reaches([output] + rest, Remaining(p)) <==> EnoughSent(p') || Reaches(rest, Remaining(p'))
  {
    assert ([output] + rest)[1..] == rest;
    assert rest == [] ==> Flat(rest) == [];
  }

  lemma Regroup(sent: seq<Message>, m: Message, more: seq<Message>, end: seq<Message>)
    ensures (sent + [m]) + more + end == sent + ([m] + more) + end
  {
  }

  lemma ServeOneChunk(p: Progress, script: seq<Step>, parseInt: Numbers)
    requires p.response.started && script != [] && script[0].Chunk?
    requires var p' := SendChunk(p.(pulled := p.pulled + 1), script[0].bytes);
      EnoughSent(p') || ServesFrom(p', script[1..], parseInt)
    ensures ServesFrom(p, script, parseInt)
  {
    var q, rest := p.(pulled := p.pulled + 1), Delivered(script[1..]);
    var out, p' := Clamped(p, script[0].bytes), SendChunk(q, script[0].bytes);
    var more := if EnoughSent(p') then [] else Cut(rest, Remaining(p'));
    CutOne(q, script[0].bytes, rest);
    ReachesOne(q, script[0].bytes, rest);
    BodiesCons(out, more);
    var o := Serve(p, script, parseInt);
    assert o == if EnoughSent(p') then Close(p') else Serve(p', script[1..], parseInt);
    Regroup(p.sent, ResponseBody(out, true), Bodies(more), Final(o.finished));
  }

  lemma BodiesCons(chunk: Bytes, rest: seq<Bytes>)
    ensures Bodies([chunk] + rest) == [ResponseBody(chunk, true)] + Bodies(rest)
  {
    assert ([chunk] + rest)[1..] == rest;
  }

  lemma {:induction false} ServeStarted(p: Progress, script: seq<Step>, parseInt: Numbers)
    requires p.response.started
    ensures ServesFrom(p, script, parseInt)
    decreases |script|
  {
    if script == [] {
      assert p.sent + Bodies([]) == p.sent;
    } else {
      match script[0]
      case Raise => assert p.sent + Bodies([]) + [] == p.sent;
      case Call(_, _) => ServeStarted(p, script[1..], parseInt);
      case Chunk(output) =>
        var p' := SendChunk(p.(pulled := p.pulled + 1), output);
        if !EnoughSent(p') {
          ServeStarted(p', script[1..], parseInt);
        }
        ServeOneChunk(p, script, parseInt);
    }
  }

  // ---------------------------------------------------------------------------------------
  // What the cut chunks are
  // ---------------------------------------------------------------------------------------

  function Min(a: int, b: int): int {
    if a < b then a else b
  }

  // The bytes sent are the first `limit` bytes of all chunks together, and every chunk but the
  // last is sent whole.
  lemma {:induction false} CutIsPrefix(chunks: seq<Bytes>, limit: int)
    requires limit >= 0
    ensures var cut := Cut(chunks, Some(limit));
      && Flat(cut) == Flat(chunks)[..Min(limit, |Flat(chunks)|)]
      && |cut| <= |chunks|
      && (forall k | 0 <= k < |cut| - 1 :: cut[k] == chunks[k])
    decreases |chunks|
  {
    if chunks != [] {
      var first, rest := chunks[0], chunks[1..];
      if |first| >= limit {
        assert Flat([Slice(first, limit)]) == Slice(first, limit);
      } else {
        CutIsPrefix(rest, limit - |first|);
      }
    }
  }

  // No chunk is pulled once the length is reached: before each one but the first, the total so
  // far is below it.
  lemma {:induction false} NoneTooMany(chunks: seq<Bytes>, limit: int, k: nat)
    requires limit >= 0 && 1 <= k < |Cut(chunks, Some(limit))|
    ensures k < |chunks| && |Flat(chunks[..k])| < limit
    decreases |chunks|
  {
    var rest := chunks[1..];
    assert |chunks[0]| < limit && Cut(chunks, Some(limit)) == [chunks[0]] + Cut(rest, Some(limit - |chunks[0]|));
    CutIsPrefix(rest, limit - |chunks[0]|);
    assert chunks[..k] == [chunks[0]] + rest[..k - 1];
    if k > 1 {
      NoneTooMany(rest, limit - |chunks[0]|, k - 1);
      assert Flat(chunks[..k]) == chunks[0] + Flat(rest[..k - 1]);
    } else {
      assert Flat(chunks[..k]) == chunks[0] + Flat([]);
    }
  }

  // The body of a response.
  function BodyBytes(sent: seq<Message>): Bytes {
    if sent == [] then []
    else (if sent[0].ResponseBody? then sent[0].body else []) + BodyBytes(sent[1..])
  }

  lemma {:induction false} BytesOfBodies(chunks: seq<Bytes>, finished: bool)
    ensures BodyBytes(Bodies(chunks) + Final(finished)) == Flat(chunks)
  {
    var sent := Bodies(chunks) + Final(finished);
    if chunks != [] {
      BytesOfBodies(chunks[1..], finished);
      assert sent[1..] == Bodies(chunks[1..]) + Final(finished);
    }
  }

  // ---------------------------------------------------------------------------------------
  // The calls before the first chunk
  // ---------------------------------------------------------------------------------------

  datatype Opening = Opening(response: Response, rest: seq<Step>, raised: bool)

  function Open(r: Response, script: seq<Step>, parseInt: Numbers): Opening
    decreases |script|
  {
    if script == [] || !script[0].Call? then Opening(r, script, false)
    else
      var (r', err) := StartResponse(r, script[0].call, parseInt);
      if err.Some? && !script[0].catches then Opening(r', script[1..], true) else Open(r', script[1..], parseInt)
  }

  lemma {:induction false} ServeOpens(p: Progress, script: seq<Step>, parseInt: Numbers)
    requires !p.response.started
    ensures var op := Open(p.response, script, parseInt);
      && !op.response.started
      && (op.rest == [] || !op.rest[0].Call? || op.raised)
      && Serve(p, script, parseInt) ==
           if op.raised then Outcome(p.(response := op.response), false)
           else Serve(p.(response := op.response), op.rest, parseInt)
    decreases |script|
  {
    if script != [] && script[0].Call? {
      var (r', err) := StartResponse(p.response, script[0].call, parseInt);
      ServeOpens(p.(response := r'), script[1..], parseInt);
    }
  }

  // The application goes on to give a chunk, or ends, after an accepted start_response.
  predicate Answers(op: Opening) {
    !op.raised && (op.rest == [] || op.rest[0].Chunk?) && op.response.start.Some?
  }

  // From the first chunk, or the end, with a start message in force.
  lemma ServeAnswer(r: Response, rest: seq<Step>, parseInt: Numbers)
    requires !r.started && r.start.Some?
    requires rest == [] || rest[0].Chunk?
    ensures var o, chunks := Serve(NOTHING_SENT.(response := r), rest, parseInt), Delivered(rest);
      && o.progress.sent == [r.start.value] + (Bodies(Cut(chunks, r.length)) + Final(o.finished))
      && o.progress.pulled == |Cut(chunks, r.length)|
      && (o.finished <==> EndsNormally(rest) || Reaches(chunks, r.length))
  {
    var p := NOTHING_SENT.(response := r);
    if rest != [] {
      var p' := EnsureStarted(p).0;
      assert p'.sent == [r.start.value];
      ServeStarted(p', rest, parseInt);
      var q := EnsureStarted(p.(pulled := 1)).0;
      assert q == p'.(pulled := 1) && Serve(p, rest, parseInt) == Serve(p', rest, parseInt);
    }
  }

  lemma ServeNoAnswer(r: Response, rest: seq<Step>, parseInt: Numbers)
    requires !r.started && (rest == [] || !rest[0].Call?) && (r.start.None? || (rest != [] && rest[0].Raise?))
    ensures var o := Serve(NOTHING_SENT.(response := r), rest, parseInt); o.progress.sent == [] && !o.finished
  {
  }

  // The whole response: if the application answers, the start in force, the chunks as far as the
  // length in force lets them, and the final body; and otherwise nothing at all.
  lemma ResponseIs(script: seq<Step>, parseInt: Numbers)
    ensures var op, o := Open(FRESH, script, parseInt), Serve(NOTHING_SENT, script, parseInt);
      && (!Answers(op) ==> o.progress.sent == [] && !o.finished)
      && (Answers(op) ==>
            var chunks, limit := Delivered(op.rest), op.response.length;
            && o.progress.sent == [op.response.start.value] + (Bodies(Cut(chunks, limit)) + Final(o.finished))
            && o.progress.pulled == |Cut(chunks, limit)|
            && (o.finished <==> EndsNormally(op.rest) || Reaches(chunks, limit)))
  {
    var op := Open(FRESH, script, parseInt);
    ServeOpens(NOTHING_SENT, script, parseInt);
    if !op.raised {
      if !Answers(op) {
        ServeNoAnswer(op.response, op.rest, parseInt);
      } else {
        ServeAnswer(op.response, op.rest, parseInt);
      }
    }
  }

  lemma BodyIs(script: seq<Step>, parseInt: Numbers)
    requires Answers(Open(FRESH, script, parseInt))
    ensures var op, o := Open(FRESH, script, parseInt), Serve(NOTHING_SENT, script, parseInt);
      BodyBytes(o.progress.sent) == Flat(Cut(Delivered(op.rest), op.response.length))
  {
    ResponseIs(script, parseInt);
    var op, o := Open(FRESH, script, parseInt), Serve(NOTHING_SENT, script, parseInt);
    var cut := Cut(Delivered(op.rest), op.response.length);
    BytesOfBodies(cut, o.finished);
    OpenStarts(FRESH, script, parseInt);
    var tail := Bodies(cut) + Final(o.finished);
    assert ([op.response.start.value] + tail)[1..] == tail;
  }

  // Content-Length: with a declared length n >= 0 the body is the first n bytes of what the
  // application gave, and no chunk was asked for beyond that. Without one, every chunk is sent
  // as it is.
  lemma ContentLength(script: seq<Step>, parseInt: Numbers)
    requires Answers(Open(FRESH, script, parseInt))
    requires var length := Open(FRESH, script, parseInt).response.length; length.Some? ==> length.value >= 0
    ensures var op, o := Open(FRESH, script, parseInt), Serve(NOTHING_SENT, script, parseInt);
      var chunks := Delivered(op.rest);
      match op.response.length
      case None =>
        o.progress.sent == [op.response.start.value] + (Bodies(chunks) + Final(o.finished))
          && o.progress.pulled == |chunks|
      case Some(n) =>
        && BodyBytes(o.progress.sent) == Flat(chunks)[..Min(n, |Flat(chunks)|)]
        && o.progress.pulled <= |chunks|
        && (forall k | 1 <= k < o.progress.pulled :: |Flat(chunks[..k])| < n)
  {
    ResponseIs(script, parseInt);
    BodyIs(script, parseInt);
    var op, o := Open(FRESH, script, parseInt), Serve(NOTHING_SENT, script, parseInt);
    var chunks := Delivered(op.rest);
    if op.response.length.Some? {
      var n := op.response.length.value;
      var cut := Cut(chunks, Some(n));
      CutIsPrefix(chunks, n);
      forall k | 1 <= k < o.progress.pulled ensures |Flat(chunks[..k])| < n {
        NoneTooMany(chunks, n, k);
      }
    }
  }

  lemma {:induction false} OpenStarts(r: Response, script: seq<Step>, parseInt: Numbers)
    requires r.start.Some? ==> r.start.value.ResponseStart?
    ensures var op := Open(r, script, parseInt); op.response.start.Some? ==> op.response.start.value.ResponseStart?
    decreases |script|
  {
    if script != [] && script[0].Call? {
      OpenStarts(StartResponse(r, script[0].call, parseInt).0, script[1..], parseInt);
    }
  }

  // Chunk `k` is sliced at what is left of the length after the bytes sent before it.
  predicate SlicedAt(cut: seq<Bytes>, chunks: seq<Bytes>, n: int, k: nat) {
    k < |cut| && k < |chunks| && cut[k] == Slice(chunks[k], n - |Flat(cut[..k])|)
  }

  // What a negative length does to the chunks: each loses bytes at its end, the more the more has
  // been sent, and none is held back as a whole.
  lemma {:induction false} NegativeCut(chunks: seq<Bytes>, n: int, k: nat)
    requires n < 0 && k < |chunks|
    ensures SlicedAt(Cut(chunks, Some(n)), chunks, n, k)
    decreases |chunks|
  {
    if k > 0 {
      var first, rest := Slice(chunks[0], n), chunks[1..];
      NegativeCut(rest, n - |first|, k - 1);
      var tail := Cut(rest, Some(n - |first|));
      var cut := [first] + tail;
      assert Cut(chunks, Some(n)) == cut && cut[..k] == [first] + tail[..k - 1];
      FlatCons(first, tail[..k - 1]);
    }
  }

  lemma {:induction false} NegativeCutsNone(chunks: seq<Bytes>, n: int)
    requires n < 0
    ensures |Cut(chunks, Some(n))| == |chunks|
    decreases |chunks|
  {
    if chunks != [] {
      NegativeCutsNone(chunks[1..], n - |Slice(chunks[0], n)|);
    }
  }

  lemma FlatCons(first: Bytes, rest: seq<Bytes>)
    ensures Flat([first] + rest) == first + Flat(rest)
  {
    assert ([first] + rest)[1..] == rest;
  }

  predicate NoneLonger(chunks: seq<Bytes>, m: int) {
    forall k | 0 <= k < |chunks| :: |chunks[k]| <= m
  }

  lemma NoneLongerCons(first: Bytes, rest: seq<Bytes>, m: int)
    ensures NoneLonger([first] + rest, m) <==> |first| <= m && NoneLonger(rest, m)
  {
    var all := [first] + rest;
    if NoneLonger(all, m) {
      assert all[0] == first;
      forall k | 0 <= k < |rest| ensures |rest[k]| <= m {
        assert all[k + 1] == rest[k];
      }
    }
  }

  lemma {:induction false} NegativeCutIsEmpty(chunks: seq<Bytes>, n: int)
    requires n < 0
    ensures Flat(Cut(chunks, Some(n))) == [] <==> NoneLonger(chunks, -n)
    decreases |chunks|
  {
    if chunks != [] {
      var first, rest := Slice(chunks[0], n), chunks[1..];
      var tail := Cut(rest, Some(n - |first|));
      assert Cut(chunks, Some(n)) == [first] + tail && chunks == [chunks[0]] + rest;
      FlatCons(first, tail);
      NoneLongerCons(chunks[0], rest, -n);
      if first == [] {
        NegativeCutIsEmpty(rest, n);
      } else {
        assert |first + Flat(tail)| > 0;
      }
    }
  }

  // With a negative length every chunk is asked for and sent as a slice from its end, and the
  // response ends as the application does. The body is empty if and only if no chunk is longer
  // than the length is negative.
  lemma NegativeLength(script: seq<Step>, parseInt: Numbers)
    requires Answers(Open(FRESH, script, parseInt))
    requires var length := Open(FRESH, script, parseInt).response.length; length.Some? && length.value < 0
    ensures var op, o := Open(FRESH, script, parseInt), Serve(NOTHING_SENT, script, parseInt);
      var chunks, n := Delivered(op.rest), op.response.length.value;
      var cut := Cut(chunks, Some(n));
      && o.progress.sent == [op.response.start.value] + (Bodies(cut) + Final(o.finished))
      && |cut| == |chunks| == o.progress.pulled
      && (forall k | 0 <= k < |chunks| :: SlicedAt(cut, chunks, n, k))
      && (o.finished <==> EndsNormally(op.rest))
      && (BodyBytes(o.progress.sent) == [] <==> NoneLonger(chunks, -n))
  {
    ResponseIs(script, parseInt);
    BodyIs(script, parseInt);
    var op := Open(FRESH, script, parseInt);
    NegativeChunks(Delivered(op.rest), op.response.length.value);
  }

  lemma NegativeChunks(chunks: seq<Bytes>, n: int)
    requires n < 0
    ensures var cut := Cut(chunks, Some(n));
      && |cut| == |chunks|
      && (forall k | 0 <= k < |chunks| :: SlicedAt(cut, chunks, n, k))
      && (Flat(cut) == [] <==> NoneLonger(chunks, -n))
  {
    var cut := Cut(chunks, Some(n));
    NegativeCutsNone(chunks, n);
    forall k | 0 <= k < |chunks| ensures SlicedAt(cut, chunks, n, k) {
      NegativeCut(chunks, n, k);
    }
    NegativeCutIsEmpty(chunks, n);
  }

  const MINUS_ONE := StartCall("200 OK", [("content-length", "-1")], false)

  // After that call, one byte is taken off a chunk of three, and two chunks of one byte give an
  // empty body.
  lemma NegativeLengthStillSends(parseInt: Numbers)
    requires parseInt("200") == Some(200) && parseInt("-1") == Some(-1)
    ensures Startable(MINUS_ONE, parseInt)
    ensures Serve(NOTHING_SENT, [Call(MINUS_ONE, false)] + [Chunk([1, 2, 3])], parseInt).progress.sent ==
      [StartOf(MINUS_ONE, parseInt)] + [ResponseBody([1, 2], true), ResponseBody([], false)]
    ensures BodyBytes(Serve(NOTHING_SENT, [Call(MINUS_ONE, false)] + [Chunk([7]), Chunk([8])],
                            parseInt).progress.sent) == []
  {
    MinusOneAccepted(parseInt);
    OneChunkOfThree(parseInt);
    TwoChunksOfOne(parseInt);
  }

  lemma MinusOneAccepted(parseInt: Numbers)
    requires parseInt("200") == Some(200) && parseInt("-1") == Some(-1)
    ensures Startable(MINUS_ONE, parseInt)
    ensures StartResponse(FRESH, MINUS_ONE, parseInt) ==
      (Response(false, Some(StartOf(MINUS_ONE, parseInt)), Some(-1)), None)
  {
    Codes(parseInt);
    OneHeader("-1", parseInt);
  }

  lemma OpensAfter(c: StartCall, r: Response, rest: seq<Step>, parseInt: Numbers)
    requires StartResponse(FRESH, c, parseInt) == (r, None)
    requires rest != [] && rest[0].Chunk?
    ensures Open(FRESH, [Call(c, false)] + rest, parseInt) == Opening(r, rest, false)
  {
    assert ([Call(c, false)] + rest)[1..] == rest;
  }

  lemma OneChunkOfThree(parseInt: Numbers)
    requires parseInt("200") == Some(200) && parseInt("-1") == Some(-1)
    ensures Startable(MINUS_ONE, parseInt)
    ensures Serve(NOTHING_SENT, [Call(MINUS_ONE, false)] + [Chunk([1, 2, 3])], parseInt).progress.sent ==
      [StartOf(MINUS_ONE, parseInt)] + [ResponseBody([1, 2], true), ResponseBody([], false)]
  {
    var rest := [Chunk([1, 2, 3])];
    MinusOneAccepted(parseInt);
    OpensAfter(MINUS_ONE, Response(false, Some(StartOf(MINUS_ONE, parseInt)), Some(-1)), rest, parseInt);
    ResponseIs([Call(MINUS_ONE, false)] + rest, parseInt);
    ThreeCut();
    assert rest[1..] == [] && EndsNormally(rest) && Delivered(rest) == [[1, 2, 3]];
  }

  lemma ThreeCut()
    ensures Bodies(Cut([[1, 2, 3]], Some(-1))) + Final(true) == [ResponseBody([1, 2], true), ResponseBody([], false)]
  {
    var three: Bytes := [1, 2, 3];
    assert Trimmed(three, -1) == three[..2] == [1, 2];
    assert [three][1..] == [] && Cut([three], Some(-1)) == [[1, 2]];
  }

  lemma TwoDelivered(a: Bytes, b: Bytes)
    ensures Delivered([Chunk(a), Chunk(b)]) == [a, b]
  {
    var script, last := [Chunk(a), Chunk(b)], [Chunk(b)];
    assert script[1..] == last && last[1..] == [];
    assert Delivered(last) == [b] + Delivered([]);
  }

  lemma TwoChunksOfOne(parseInt: Numbers)
    requires parseInt("200") == Some(200) && parseInt("-1") == Some(-1)
    ensures BodyBytes(Serve(NOTHING_SENT, [Call(MINUS_ONE, false)] + [Chunk([7]), Chunk([8])],
                            parseInt).progress.sent) == []
  {
    var rest := [Chunk([7]), Chunk([8])];
    MinusOneAccepted(parseInt);
    OpensAfter(MINUS_ONE, Response(false, Some(StartOf(MINUS_ONE, parseInt)), Some(-1)), rest, parseInt);
    BodyIs([Call(MINUS_ONE, false)] + rest, parseInt);
    TwoDelivered([7], [8]);
    NegativeCutIsEmpty([[7], [8]], -1);
  }

  // ---------------------------------------------------------------------------------------
  // Which call decides
  // ---------------------------------------------------------------------------------------

  function LeadingCalls(script: seq<Step>): seq<StartCall> {
    if script == [] || !script[0].Call? then [] else [script[0].call] + LeadingCalls(script[1..])
  }

  // Before the response starts: whether a call gets to the point where it resets the content
  // length, and whether it then returns. `again` says whether an earlier call returned.
  predicate Resets(again: bool, c: StartCall, parseInt: Numbers) {
    (again ==> c.excInfo) && StatusCode(c.status, parseInt).Some? && Encodable(c.headers)
  }

  predicate Accepts(again: bool, c: StartCall, parseInt: Numbers) {
    Resets(again, c, parseInt) && FindLength(c.headers, None, parseInt).1
  }

  function LastAccepted(again: bool, calls: seq<StartCall>, parseInt: Numbers): Option<StartCall>
    decreases |calls|
  {
    if calls == [] then None
    else
      var accepted := Accepts(again, calls[0], parseInt);
      var later := LastAccepted(again || accepted, calls[1..], parseInt);
      if later.Some? then later else if accepted then Some(calls[0]) else None
  }

  // The last call that failed at its Content-Length, if none was accepted after it.
  function LateFailure(again: bool, calls: seq<StartCall>, parseInt: Numbers): Option<StartCall>
    decreases |calls|
  {
    if calls == [] then None
    else
      var accepted := Accepts(again, calls[0], parseInt);
      var later := LateFailure(again || accepted, calls[1..], parseInt);
      if later.Some? then later
      else if LastAccepted(again || accepted, calls[1..], parseInt).Some? then None
      else if Resets(again, calls[0], parseInt) && !accepted then Some(calls[0])
      else None
  }

  function LengthLeftBy(c: StartCall, parseInt: Numbers): Option<int> {
    FindLength(c.headers, None, parseInt).0
  }

  predicate Startable(c: StartCall, parseInt: Numbers) {
    StatusCode(c.status, parseInt).Some? && Encodable(c.headers)
  }

  lemma {:induction false} CallsDecide(r: Response, script: seq<Step>, parseInt: Numbers)
    requires !r.started && !Open(r, script, parseInt).raised
    ensures var op, calls := Open(r, script, parseInt), LeadingCalls(script);
      var accepted, failed := LastAccepted(r.start.Some?, calls, parseInt), LateFailure(r.start.Some?, calls, parseInt);
      && (accepted.Some? ==> Startable(accepted.value, parseInt))
      && (accepted.Some? ==> op.response.start == Some(StartOf(accepted.value, parseInt)))
      && (accepted.None? ==> op.response.start == r.start)
      && op.response.length == if failed.Some? then LengthLeftBy(failed.value, parseInt)
                               else if accepted.Some? then LengthLeftBy(accepted.value, parseInt)
                               else r.length
    decreases |script|
  {
    if script != [] && script[0].Call? {
      var (r', err) := StartResponse(r, script[0].call, parseInt);
      CallsDecide(r', script[1..], parseInt);
      assert LeadingCalls(script)[1..] == LeadingCalls(script[1..]);
    }
  }

  // The start message in force is that of the last call that returned. The length in force is
  // that call's too, unless a later call failed at its Content-Length and left another one.
  lemma StartAndLengthUsed(script: seq<Step>, parseInt: Numbers)
    requires Answers(Open(FRESH, script, parseInt))
    ensures var op, calls := Open(FRESH, script, parseInt), LeadingCalls(script);
      var accepted, failed := LastAccepted(false, calls, parseInt), LateFailure(false, calls, parseInt);
      && accepted.Some? && Startable(accepted.value, parseInt)
      && op.response.start == Some(StartOf(accepted.value, parseInt))
      && (op.response.length == LengthLeftBy(accepted.value, parseInt)
          <==> failed.None? || LengthLeftBy(failed.value, parseInt) == LengthLeftBy(accepted.value, parseInt))
  {
    CallsDecide(FRESH, script, parseInt);
  }

  const THREE_BYTES := StartCall("200 OK", [("content-length", "3")], false)
  const BAD_LENGTH := StartCall("500 Oops", [("content-length", "x")], true)

  lemma TwoCalls(parseInt: Numbers)
    requires parseInt("200") == Some(200) && parseInt("500") == Some(500)
    requires parseInt("3") == Some(3) && parseInt("x") == None
    ensures Startable(THREE_BYTES, parseInt)
    ensures var r := Response(false, Some(StartOf(THREE_BYTES, parseInt)), Some(3));
      && StartResponse(FRESH, THREE_BYTES, parseInt) == (r, None)
      && StartResponse(r, BAD_LENGTH, parseInt) == (r.(length := None), Some(BadLength))
  {
    Codes(parseInt);
    OneHeader("3", parseInt);
    OneHeader("x", parseInt);
  }

  lemma OneHeader(v: string, parseInt: Numbers)
    requires IsAscii(v)
    ensures var headers := [("content-length", v)];
      Encodable(headers) && FindLength(headers, None, parseInt) == (parseInt(v), parseInt(v).Some?)
  {
    var headers := [("content-length", v)];
    LowerKeeps("content-length");
    assert headers[1..] == [];
  }

  // It does happen: a call that declares three bytes, then one with exc_info and a length that
  // is not a number, caught by the application. The response still declares three bytes and is
  // sent without any limit.
  lemma LateFailureLosesTheLength(parseInt: Numbers, chunk: Bytes)
    requires parseInt("200") == Some(200) && parseInt("500") == Some(500)
    requires parseInt("3") == Some(3) && parseInt("x") == None
    ensures var script := [Call(THREE_BYTES, false), Call(BAD_LENGTH, true), Chunk(chunk)];
      Startable(THREE_BYTES, parseInt)
      && Serve(NOTHING_SENT, script, parseInt).progress.sent ==
           [StartOf(THREE_BYTES, parseInt), ResponseBody(chunk, true), ResponseBody([], false)]
  {
    var script := [Call(THREE_BYTES, false), Call(BAD_LENGTH, true), Chunk(chunk)];
    TwoCalls(parseInt);
    assert script[1..] == [Call(BAD_LENGTH, true), Chunk(chunk)] && script[1..][1..] == [Chunk(chunk)]
      && [Chunk(chunk)][1..] == [];
    var p := NOTHING_SENT.(response := Response(false, Some(StartOf(THREE_BYTES, parseInt)), None));
    assert Serve(NOTHING_SENT, script, parseInt) == Serve(p, [Chunk(chunk)], parseInt);
    var p' := SendChunk(EnsureStarted(p.(pulled := 1)).0, chunk);
    assert Serve(p, [Chunk(chunk)], parseInt) == Serve(p', [], parseInt) == Close(p');
    assert p'.sent == [StartOf(THREE_BYTES, parseInt)] + [ResponseBody(chunk, true)];
  }

  lemma LowerKeeps(s: string)
    requires forall i | 0 <= i < |s| :: s[i] as int < 0x80 && !('A' <= s[i] <= 'Z')
    ensures Lower(s) == s
  {
  }

  lemma Codes(parseInt: Numbers)
    ensures StatusCode("200 OK", parseInt) == parseInt("200")
    ensures StatusCode("500 Oops", parseInt) == parseInt("500")
  {
    assert IndexOfSpace("200 OK") == 3 && "200 OK"[..3] == "200";
    assert IndexOfSpace("500 Oops") == 3 && "500 Oops"[..3] == "500";
  }
}
