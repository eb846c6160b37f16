/**
 * WsgiToAsgiInstance.start_response and run_wsgi_app: how the calls and chunks of a WSGI
 * application become the messages of an ASGI response, and how Content-Length limits them
 * (PEP 3333, "The start_response() Callable" and "Handling the Content-Length Header").
 */
module Wsgi {
  import opened Wrappers
  import opened Utf8
  import Environ

  type Bytes = seq<Byte>

  datatype Message =
    | ResponseStart(status: int, headers: seq<(Bytes, Bytes)>)
    | ResponseBody(body: Bytes, moreBody: bool)

  // One call of start_response; `excInfo` says whether exc_info was given.
  datatype StartCall = StartCall(status: string, headers: seq<(string, string)>, excInfo: bool)

  // What the application does next. A call whose error the application does not catch makes the
  // application raise it.
  datatype Step =
    | Call(call: StartCall, catches: bool)
    | Chunk(bytes: Bytes)
    | Raise

  datatype StartError = AlreadyStarted | SecondCall | BadStatus | NotAscii | BadLength

  // int(), as far as it matters: what number a text is, if any.
  type Numbers = string -> Option<int>

  // ---------------------------------------------------------------------------------------
  // start_response
  // ---------------------------------------------------------------------------------------

  datatype Response = Response(started: bool, start: Option<Message>, length: Option<int>)

  const FRESH := Response(false, None, None)

  // str.lower(), as far as the result can be ASCII: the Kelvin sign is the one character outside
  // ASCII that becomes an ASCII letter.
  function Lower(s: string): (t: string)
    ensures |t| == |s|
  {
    seq(|s|, i requires 0 <= i < |s| =>
      if 'A' <= s[i] <= 'Z' then (s[i] as int + 0x20) as char
      else if s[i] as int == 0x212A then 'k'
      else s[i])
  }

  predicate IsAscii(s: string) {
    forall i | 0 <= i < |s| :: s[i] as int < 0x80
  }

  function AsciiBytes(s: string): Bytes
    requires IsAscii(s)
  {
    seq(|s|, i requires 0 <= i < |s| => var b: Byte := s[i] as int; b)
  }

  function IndexOfSpace(s: string): (k: nat)
    ensures k <= |s| && (forall i | 0 <= i < k :: s[i] != ' ') && (k < |s| ==> s[k] == ' ')
  {
    if s == "" || s[0] == ' ' then 0 else 1 + IndexOfSpace(s[1..])
  }

  // status.split(" ", 1) needs a space, and int() a number in front of it.
  function StatusCode(status: string, parseInt: Numbers): Option<int> {
    var k := IndexOfSpace(status);
    if k == |status| then None else parseInt(status[..k])
  }

  predicate Encodable(headers: seq<(string, string)>) {
    forall i | 0 <= i < |headers| :: IsAscii(Lower(headers[i].0)) && IsAscii(headers[i].1)
  }

  function EncodedHeaders(headers: seq<(string, string)>): seq<(Bytes, Bytes)>
    requires Encodable(headers)
  {
    seq(|headers|, i requires 0 <= i < |headers| => (AsciiBytes(Lower(headers[i].0)), AsciiBytes(headers[i].1)))
  }

  predicate LengthHeader(h: (string, string)) {
    Lower(h.0) == "content-length"
  }

  // The loop over the headers: the length it ends with, and whether int() accepted every value.
  function FindLength(headers: seq<(string, string)>, sofar: Option<int>, parseInt: Numbers): (Option<int>, bool) {
    if headers == [] then (sofar, true)
    else if !LengthHeader(headers[0]) then FindLength(headers[1..], sofar, parseInt)
    else if parseInt(headers[0].1).None? then (sofar, false)
    else FindLength(headers[1..], parseInt(headers[0].1), parseInt)
  }

  // Everything up to the point where the content length is reset.
  function Precheck(r: Response, c: StartCall, parseInt: Numbers): Option<StartError> {
    if r.started then Some(AlreadyStarted)
    else if r.start.Some? && !c.excInfo then Some(SecondCall)
    else if StatusCode(c.status, parseInt).None? then Some(BadStatus)
    else if !Encodable(c.headers) then Some(NotAscii)
    else None
  }

  function StartOf(c: StartCall, parseInt: Numbers): Message
    requires StatusCode(c.status, parseInt).Some? && Encodable(c.headers)
  {
    ResponseStart(StatusCode(c.status, parseInt).value, EncodedHeaders(c.headers))
  }

  function StartResponse(r: Response, c: StartCall, parseInt: Numbers): (Response, Option<StartError>) {
    var failed := Precheck(r, c, parseInt);
    if failed.Some? then (r, failed)
    else
      var (length, ok) := FindLength(c.headers, None, parseInt);
      if ok then (r.(length := length, start := Some(StartOf(c, parseInt))), None)
      else (r.(length := length), Some(BadLength))
  }

  // ---------------------------------------------------------------------------------------
  // run_wsgi_app
  // ---------------------------------------------------------------------------------------

  // output[:n], which drops from the end when n is negative.
  function Slice(output: Bytes, n: int): (r: Bytes)
    ensures r <= output
    ensures n >= 0 ==> |r| == if n <= |output| then n else |output|
    ensures n < 0 ==> |r| == if |output| + n >= 0 then |output| + n else 0
  {
    if n >= |output| then output
    else if n >= 0 then output[..n]
    else if |output| + n >= 0 then output[..|output| + n]
    else []
  }

  datatype Progress = Progress(response: Response, sent: seq<Message>, bytesSent: int, pulled: nat)

  // Whether run_wsgi_app came to its end or an exception left it.
  datatype Outcome = Outcome(progress: Progress, finished: bool)

  // Before a body message: the start message, unless it is out. Without a start_response so far
  // there is no such attribute, and that is an exception.
  function EnsureStarted(p: Progress): (Progress, bool) {
    if p.response.started then (p, true)
    else
      var p' := p.(response := p.response.(started := true));
      if p.response.start.None? then (p', false) else (p'.(sent := p.sent + [p.response.start.value]), true)
  }

  function Trimmed(output: Bytes, allowed: int): Bytes {
    if |output| > allowed then Slice(output, allowed) else output
  }

  function Clamped(p: Progress, output: Bytes): Bytes {
    if p.response.length.None? then output else Trimmed(output, p.response.length.value - p.bytesSent)
  }

  function SendChunk(p: Progress, output: Bytes): Progress {
    var out := Clamped(p, output);
    p.(sent := p.sent + [ResponseBody(out, true)], bytesSent := p.bytesSent + |out|)
  }

  predicate EnoughSent(p: Progress) {
    p.response.length == Some(p.bytesSent)
  }

  function Close(p: Progress): Outcome {
    var (p', ok) := EnsureStarted(p);
    if ok then Outcome(p'.(sent := p'.sent + [ResponseBody([], false)]), true) else Outcome(p', false)
  }

  function Serve(p: Progress, script: seq<Step>, parseInt: Numbers): Outcome
    decreases |script|
  {
    if script == [] then Close(p)
    else
      match script[0]
      case Raise => Outcome(p, false)
      case Call(c, catches) =>
        var (r, err) := StartResponse(p.response, c, parseInt);
        if err.Some? && !catches then Outcome(p.(response := r), false)
        else Serve(p.(response := r), script[1..], parseInt)
      case Chunk(output) =>
        var (p', ok) := EnsureStarted(p.(pulled := p.pulled + 1));
        if !ok then Outcome(p', false)
        else
          var p'' := SendChunk(p', output);
          if EnoughSent(p'') then Close(p'') else Serve(p'', script[1..], parseInt)
  }

  const BAD_REQUEST := [
    ResponseStart(400, [(AsciiBytes("content-type"), AsciiBytes("text/plain"))]),
    ResponseBody(AsciiBytes("Bad Request: Too many duplicate headers"), false)
  ]

  const NOTHING_SENT := Progress(FRESH, [], 0, 0)

  class WsgiToAsgiInstance {
    const duplicateHeaderLimit: int
    const parseInt: Numbers
    var responseStarted: bool
    var responseStart: Option<Message>
    var responseContentLength: Option<int>
    var sent: seq<Message>

    constructor (limit: int, numbers: Numbers)
      ensures duplicateHeaderLimit == limit && parseInt == numbers && State() == FRESH && sent == []
    {
      duplicateHeaderLimit, parseInt := limit, numbers;
      responseStarted, responseStart, responseContentLength, sent := false, None, None, [];
    }

    function State(): Response
      reads this
    {
      Response(responseStarted, responseStart, responseContentLength)
    }

    method SyncSend(m: Message)
      modifies this`sent
      ensures sent == old(sent) + [m]
    {
      sent := sent + [m];
    }

    method Start(c: StartCall) returns (error: Option<StartError>)
      modifies this`responseStart, this`responseContentLength
      ensures (State(), error) == StartResponse(old(State()), c, parseInt)
    {
      if responseStarted {
        return Some(AlreadyStarted);
      }
      if responseStart.Some? && !c.excInfo {
        return Some(SecondCall);
      }
      var code := StatusCode(c.status, parseInt);
      if code.None? {
        return Some(BadStatus);
      }
      if !Encodable(c.headers) {
        return Some(NotAscii);
      }
      responseContentLength := None;
      var rest := c.headers;
      while rest != []
        invariant responseStart == old(responseStart)
        invariant FindLength(rest, responseContentLength, parseInt) == FindLength(c.headers, None, parseInt)
        decreases |rest|
      {
        if LengthHeader(rest[0]) {
          var n := parseInt(rest[0].1);
          if n.None? {
            return Some(BadLength);
          }
          responseContentLength := n;
        }
        rest := rest[1..];
      }
      responseStart := Some(ResponseStart(code.value, EncodedHeaders(c.headers)));
      return None;
    }

    // Raises (false) when there is no start message to send.
    method SendStart() returns (ok: bool)
      modifies this`responseStarted, this`sent
      ensures forall bytesSent, pulled ::
        EnsureStarted(Progress(old(State()), old(sent), bytesSent, pulled)) ==
          (Progress(State(), sent, bytesSent, pulled), ok)
    {
      if !responseStarted {
        responseStarted := true;
        if responseStart.None? {
          return false;
        }
        SyncSend(responseStart.value);
      }
      return true;
    }

    // The part after build_environ, for an application that behaves like `script`.
    method RunApplication(script: seq<Step>) returns (finished: bool, pulled: nat)
      modifies this
      ensures var o := Serve(Progress(old(State()), old(sent), 0, 0), script, parseInt);
        State() == o.progress.response && sent == o.progress.sent && pulled == o.progress.pulled
          && finished == o.finished
    {
      ghost var goal := Serve(Progress(State(), sent, 0, 0), script, parseInt);
      var bytesSent := 0;
      pulled := 0;
      var rest, enough := script, false;
      while rest != [] && !enough
        invariant !enough ==> Serve(Progress(State(), sent, bytesSent, pulled), rest, parseInt) == goal
        invariant enough ==> Close(Progress(State(), sent, bytesSent, pulled)) == goal
        decreases |rest|
      {
        match rest[0] {
        case Raise => return false, pulled;
        case Call(c, catches) =>
          var error := Start(c);
          if error.Some? && !catches {
            return false, pulled;
          }
        case Chunk(bytes) =>
          var output := bytes;
          pulled := pulled + 1;
          var ok := SendStart();
          if !ok {
            return false, pulled;
          }
          if responseContentLength.Some? {
            var bytesAllowed := responseContentLength.value - bytesSent;
            if |output| > bytesAllowed {
              output := Slice(output, bytesAllowed);
            }
          }
          SyncSend(ResponseBody(output, true));
          bytesSent := bytesSent + |output|;
          if responseContentLength == Some(bytesSent) {
            enough := true;
          }
        }
        rest := rest[1..];
      }
      finished := SendStart();
      if finished {
        SyncSend(ResponseBody([], false));
      }
    }

    // A request whose environ cannot be built is answered with 400; any other goes to the
    // application, started from the environ the headers give.
    method RunWsgiApp(scope: Environ.Scope, script: map<string, Environ.Entry> -> seq<Step>)
      returns (finished: bool, pulled: nat)
      requires State() == FRESH && sent == []
      modifies this
      ensures !Environ.Buildable(scope, duplicateHeaderLimit) ==>
        finished && pulled == 0 && sent == BAD_REQUEST
      ensures Environ.Buildable(scope, duplicateHeaderLimit) ==>
        exists environ :: Environ.IsEnviron(environ, scope)
          && var o := Serve(NOTHING_SENT, script(environ), parseInt);
             sent == o.progress.sent && pulled == o.progress.pulled && finished == o.finished
    {
      var built := Environ.BuildEnviron(scope, duplicateHeaderLimit);
      match built
      case Failure(_) =>
        SyncSend(BAD_REQUEST[0]);
        SyncSend(BAD_REQUEST[1]);
        assert sent == BAD_REQUEST[..2];
        return true, 0;
      case Success(environ) =>
        finished, pulled := RunApplication(script(environ));
    }
  }
}
