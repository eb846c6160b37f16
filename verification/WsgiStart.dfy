/**
 * What start_response makes of a call, said by position in its headers and by character: the
 * errors, the start message, and the declared length.
 */
module WsgiStart {
  import opened Wrappers
  import opened Utf8
  import opened Wsgi

  // ---------------------------------------------------------------------------------------
  // Names and values as bytes
  // ---------------------------------------------------------------------------------------

  predicate IsUpper(c: char) {
    'A' <= c <= 'Z'
  }

  // `low` is `s` with its letters in lower case, for text whose lower case is ASCII.
  predicate LowerOf(low: seq<Byte>, s: string) {
    |low| == |s| && forall k | 0 <= k < |s| ::
      if IsUpper(s[k]) then low[k] == s[k] as int + 32
      else if s[k] as int == 0x212A then low[k] == 'k' as int
      else low[k] == s[k] as int
  }

  // The same text but for the case of its letters.
  predicate SameButCase(s: string, low: string) {
    |s| == |low| && forall k | 0 <= k < |low| :: s[k] == low[k] || (IsUpper(s[k]) && s[k] as int + 32 == low[k] as int)
  }

  // A header is the content length's exactly when its name is that in any case.
  lemma LengthHeaderIs(h: (string, string))
    ensures LengthHeader(h) <==> SameButCase(h.0, "content-length")
  {
    var low := "content-length";
    assert |low| == 14 && forall k | 0 <= k < 14 :: low[k] != 'k' && !IsUpper(low[k]);
    if LengthHeader(h) {
      forall k | 0 <= k < |low| ensures h.0[k] == low[k] || (IsUpper(h.0[k]) && h.0[k] as int + 32 == low[k] as int) {
        assert Lower(h.0)[k] == low[k];
      }
    }
    if SameButCase(h.0, low) {
      forall k | 0 <= k < |low| ensures Lower(h.0)[k] == low[k] {
      }
      assert Lower(h.0) == low;
    }
  }

  // The headers of the message: in order, names in lower case, values as they are.
  predicate SameHeaders(bytes: seq<(Bytes, Bytes)>, headers: seq<(string, string)>) {
    |bytes| == |headers| && forall i | 0 <= i < |headers| ::
      LowerOf(bytes[i].0, headers[i].0) && Latin1(bytes[i].1) == headers[i].1
  }

  lemma EncodedHeadersAre(headers: seq<(string, string)>)
    requires Encodable(headers)
    ensures SameHeaders(EncodedHeaders(headers), headers)
  {
    var bytes := EncodedHeaders(headers);
    forall i | 0 <= i < |headers| ensures LowerOf(bytes[i].0, headers[i].0) && Latin1(bytes[i].1) == headers[i].1 {
      assert bytes[i] == (AsciiBytes(Lower(headers[i].0)), AsciiBytes(headers[i].1));
    }
  }

  // ---------------------------------------------------------------------------------------
  // The declared length
  // ---------------------------------------------------------------------------------------

  // The i-th header is a content length.
  predicate IsLength(headers: seq<(string, string)>, i: nat) {
    i < |headers| && SameButCase(headers[i].0, "content-length")
  }

  // The last content length among the first `n` headers.
  function LastLength(headers: seq<(string, string)>, n: nat): (last: Option<nat>)
    requires n <= |headers|
    ensures last.Some? ==> last.value < n && IsLength(headers, last.value)
    ensures last.Some? ==> forall j | last.value < j < n :: !IsLength(headers, j)
    ensures last.None? ==> forall j | 0 <= j < n :: !IsLength(headers, j)
  {
    if n == 0 then None else if IsLength(headers, n - 1) then Some(n - 1) else LastLength(headers, n - 1)
  }

  // What it says, or None without one.
  function LengthAmong(headers: seq<(string, string)>, n: nat, parseInt: Numbers): Option<int>
    requires n <= |headers|
  {
    var last := LastLength(headers, n);
    if last.None? then None else parseInt(headers[last.value].1)
  }

  // The first content length that is no number.
  predicate FirstBad(headers: seq<(string, string)>, k: nat, parseInt: Numbers) {
    && IsLength(headers, k) && parseInt(headers[k].1) == None
    && forall i | 0 <= i < k && IsLength(headers, i) :: parseInt(headers[i].1).Some?
  }

  predicate NumbersAmong(headers: seq<(string, string)>, n: nat, parseInt: Numbers) {
    forall i | 0 <= i < n && i < |headers| && IsLength(headers, i) :: parseInt(headers[i].1).Some?
  }

  // All of them are numbers and the last one counts, or the search stopped at the first that is none.
  predicate RightLength(headers: seq<(string, string)>, length: Option<int>, ok: bool, parseInt: Numbers) {
    && (ok <==> NumbersAmong(headers, |headers|, parseInt))
    && (ok ==> length == LengthAmong(headers, |headers|, parseInt))
    && (!ok ==> exists k | 0 <= k < |headers| ::
          FirstBad(headers, k, parseInt) && length == LengthAmong(headers, k, parseInt))
  }

  lemma StopsAtBad(headers: seq<(string, string)>, n: nat, length: Option<int>, parseInt: Numbers)
    requires n < |headers| && length == LengthAmong(headers, n, parseInt) && NumbersAmong(headers, n, parseInt)
    requires IsLength(headers, n) && parseInt(headers[n].1).None?
    ensures RightLength(headers, length, false, parseInt)
  {
    assert FirstBad(headers, n, parseInt);
  }

  // The declared length is that of the last content length, wherever it stands, if all of them are
  // numbers; otherwise the search stops at the first that is none.
  lemma {:induction false} FindsLastLength(headers: seq<(string, string)>, n: nat, sofar: Option<int>,
                                           parseInt: Numbers)
    requires n <= |headers| && sofar == LengthAmong(headers, n, parseInt) && NumbersAmong(headers, n, parseInt)
    ensures var (length, ok) := FindLength(headers[n..], sofar, parseInt);
      RightLength(headers, length, ok, parseInt)
    decreases |headers| - n
  {
    if n < |headers| {
      var h := headers[n];
      assert headers[n..][0] == h && headers[n..][1..] == headers[n + 1..];
      LengthHeaderIs(h);
      assert IsLength(headers, n) <==> LengthHeader(h);
      if !LengthHeader(h) {
        FindsLastLength(headers, n + 1, sofar, parseInt);
      } else if parseInt(h.1).Some? {
        FindsLastLength(headers, n + 1, parseInt(h.1), parseInt);
      } else {
        StopsAtBad(headers, n, sofar, parseInt);
      }
    }
  }

  // ---------------------------------------------------------------------------------------
  // The whole call
  // ---------------------------------------------------------------------------------------

  // Its status begins with a number and a space.
  predicate StatusIs(status: string, code: int, parseInt: Numbers) {
    exists k | 0 <= k < |status| :: status[k] == ' ' && ' ' !in status[..k] && parseInt(status[..k]) == Some(code)
  }

  predicate HasStatus(status: string, parseInt: Numbers) {
    exists k | 0 <= k < |status| :: status[k] == ' ' && ' ' !in status[..k] && parseInt(status[..k]).Some?
  }

  // Every character of it is ASCII once in lower case; the Kelvin sign is.
  predicate Plain(h: (string, string)) {
    (forall c | c in h.0 :: c as int < 0x80 || c as int == 0x212A) && (forall c | c in h.1 :: c as int < 0x80)
  }

  lemma StatusCodeIs(status: string, parseInt: Numbers)
    ensures StatusCode(status, parseInt).Some? <==> HasStatus(status, parseInt)
    ensures StatusCode(status, parseInt).Some? ==> StatusIs(status, StatusCode(status, parseInt).value, parseInt)
  {
    var k := IndexOfSpace(status);
    if k < |status| {
      assert ' ' !in status[..k];
      forall j | 0 <= j < |status| && status[j] == ' ' && ' ' !in status[..j] ensures j == k {
      }
    }
  }

  lemma EncodableIs(headers: seq<(string, string)>)
    ensures Encodable(headers) <==> forall h | h in headers :: Plain(h)
  {
    if Encodable(headers) {
      forall h | h in headers ensures Plain(h) {
        var i :| 0 <= i < |headers| && headers[i] == h;
        assert IsAscii(Lower(headers[i].0)) && IsAscii(headers[i].1);
        forall c | c in h.0 ensures c as int < 0x80 || c as int == 0x212A {
          var k :| 0 <= k < |h.0| && h.0[k] == c;
          assert Lower(h.0)[k] as int < 0x80;
        }
      }
    }
    if forall h | h in headers :: Plain(h) {
      forall i | 0 <= i < |headers| ensures IsAscii(Lower(headers[i].0)) && IsAscii(headers[i].1) {
        assert Plain(headers[i]);
        assert forall k | 0 <= k < |headers[i].0| :: headers[i].0[k] in headers[i].0;
        assert forall k | 0 <= k < |headers[i].1| :: headers[i].1[k] in headers[i].1;
      }
    }
  }

  // Which error a call ends with, in the order the code finds them, or none.
  lemma StartFails(r: Response, c: StartCall, parseInt: Numbers)
    ensures var error := StartResponse(r, c, parseInt).1;
      && (error == Some(AlreadyStarted) <==> r.started)
      && (error == Some(SecondCall) <==> !r.started && r.start.Some? && !c.excInfo)
      && (error == Some(BadStatus) <==>
            !r.started && (r.start.Some? ==> c.excInfo) && !HasStatus(c.status, parseInt))
      && (error == Some(NotAscii) <==>
            !r.started && (r.start.Some? ==> c.excInfo) && HasStatus(c.status, parseInt)
            && exists h | h in c.headers :: !Plain(h))
      && (error == Some(BadLength) <==>
            !r.started && (r.start.Some? ==> c.excInfo) && HasStatus(c.status, parseInt)
            && (forall h | h in c.headers :: Plain(h)) && !NumbersAmong(c.headers, |c.headers|, parseInt))
  {
    StatusCodeIs(c.status, parseInt);
    EncodableIs(c.headers);
    assert c.headers[0..] == c.headers;
    FindsLastLength(c.headers, 0, None, parseInt);
  }

  // What a call leaves: everything as it was, if it fails before the length; the length of the
  // headers before the bad one and the old message, if it fails there; and the message and length
  // its status and headers say, if it does not fail.
  lemma StartLeaves(r: Response, c: StartCall, parseInt: Numbers)
    ensures var (r', error) := StartResponse(r, c, parseInt);
      && r'.started == r.started
      && (error.Some? ==> r'.start == r.start)
      && (error.Some? && error.value != BadLength ==> r' == r)
      && (error == Some(BadLength) ==> exists k | 0 <= k < |c.headers| ::
            FirstBad(c.headers, k, parseInt) && r'.length == LengthAmong(c.headers, k, parseInt))
      && (error.None? ==> r'.length == LengthAmong(c.headers, |c.headers|, parseInt))
      && (error.None? ==> r'.start.Some? && r'.start.value.ResponseStart?)
      && (error.None? ==> StatusIs(c.status, r'.start.value.status, parseInt))
      && (error.None? ==> SameHeaders(r'.start.value.headers, c.headers))
  {
    StatusCodeIs(c.status, parseInt);
    assert c.headers[0..] == c.headers;
    FindsLastLength(c.headers, 0, None, parseInt);
    if Encodable(c.headers) {
      EncodedHeadersAre(c.headers);
    }
  }

  // The answer to a request that cannot be served.
  lemma BadRequestReads()
    ensures |BAD_REQUEST| == 2 && BAD_REQUEST[0].ResponseStart? && BAD_REQUEST[0].status == 400
    ensures SameHeaders(BAD_REQUEST[0].headers, [("content-type", "text/plain")])
    ensures BAD_REQUEST[1].ResponseBody? && !BAD_REQUEST[1].moreBody
    ensures Latin1(BAD_REQUEST[1].body) == "Bad Request: Too many duplicate headers"
  {
    var name := "content-type";
    assert |name| == 12 && forall k | 0 <= k < 12 :: !IsUpper(name[k]) && name[k] as int != 0x212A;
    assert Latin1(AsciiBytes("text/plain")) == "text/plain";
    assert Latin1(AsciiBytes("Bad Request: Too many duplicate headers")) == "Bad Request: Too many duplicate headers";
  }
}
