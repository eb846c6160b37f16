/**
 * WsgiToAsgiInstance.build_environ: the CGI variables of a request (section 4.1 of RFC 3875),
 * with repeated headers combined as section 3.2.2 of RFC 7230 describes.
 */
module Environ {
  import opened Wrappers
  import opened Utf8

  datatype Header = Header(name: seq<Byte>, value: seq<Byte>)

  datatype Scope = Scope(
    verb: string,
    rootPath: Option<string>,
    path: string,
    queryString: seq<Byte>,
    httpVersion: string,
    scheme: Option<string>,
    server: Option<(string, string)>,     // host, and port as text
    client: Option<string>,
    headers: seq<Header>
  )

  // What an environ holds: text, or one of the objects PEP 3333 asks for.
  datatype Entry = Text(s: string) | Version(major: nat, minor: nat) | Bool(b: bool) | InputStream | ErrorStream

  datatype EnvironError = QueryNotAscii | TooManyHeaders(name: string)

  // str.upper() of a character latin1 can decode to; "ß" becomes two letters, and "ÿ" and the
  // micro sign leave latin1.
  function Upper(c: char): string {
    var n := c as int;
    if 'a' <= c <= 'z' then [(n - 0x20) as char]
    else if n == 0xB5 then [0x39C as char]
    else if n == 0xDF then "SS"
    else if n == 0xFF then [0x178 as char]
    else if 0xE0 <= n < 0xFF && n != 0xF7 then [(n - 0x20) as char]
    else [c]
  }

  // name.upper().replace("-", "_")
  function UpperUnderscored(s: string): string {
    if s == "" then "" else (if s[0] == '-' then "_" else Upper(s[0])) + UpperUnderscored(s[1..])
  }

  // The variable a header goes to. Different headers may go to the same one.
  function CgiName(name: seq<Byte>): string {
    var n := Latin1(name);
    if n == "content-length" then "CONTENT_LENGTH"
    else if n == "content-type" then "CONTENT_TYPE"
    else "HTTP_" + UpperUnderscored(n)
  }

  // A header as it goes into the environ.
  datatype Field = Field(cgi: string, value: string)

  function Fields(hs: seq<Header>): (fs: seq<Field>)
    ensures |fs| == |hs|
    ensures forall i | 0 <= i < |hs| :: fs[i] == Field(CgiName(hs[i].name), Latin1(hs[i].value))
  {
    seq(|hs|, i requires 0 <= i < |hs| => Field(CgiName(hs[i].name), Latin1(hs[i].value)))
  }

  // The values that go to variable `cgi`, in order of arrival.
  function ValuesOf(fs: seq<Field>, cgi: string): seq<string> {
    if fs == [] then []
    else ValuesOf(fs[..|fs| - 1], cgi) + (if fs[|fs| - 1].cgi == cgi then [fs[|fs| - 1].value] else [])
  }

  function CgiNames(fs: seq<Field>): set<string> {
    set f | f in fs :: f.cgi
  }

  function JoinCommas(values: seq<string>): string {
    if values == [] then ""
    else if |values| == 1 then values[0]
    else values[0] + "," + JoinCommas(values[1..])
  }

  predicate WithinLimit(fs: seq<Field>, limit: int) {
    limit == 0 || forall cgi | cgi in CgiNames(fs) :: |ValuesOf(fs, cgi)| <= limit
  }

  predicate Ascii(bs: seq<Byte>) {
    forall b | b in bs :: b < 0x80
  }

  // Everything but the headers.
  function BaseEnviron(s: Scope): map<string, Entry> {
    var rootPath := if s.rootPath.Some? then s.rootPath.value else "";
    var paths := SplitPath(rootPath, s.path);
    var common := map[
      "REQUEST_METHOD" := Text(s.verb),
      "SCRIPT_NAME" := Text(paths.scriptName),
      "PATH_INFO" := Text(paths.pathInfo),
      "QUERY_STRING" := Text(Latin1(s.queryString)),
      "SERVER_PROTOCOL" := Text("HTTP/" + s.httpVersion),
      "wsgi.version" := Version(1, 0),
      "wsgi.url_scheme" := Text(if s.scheme.Some? then s.scheme.value else "http"),
      "wsgi.input" := InputStream,
      "wsgi.errors" := ErrorStream,
      "wsgi.multithread" := Bool(true),
      "wsgi.multiprocess" := Bool(true),
      "wsgi.run_once" := Bool(false)
    ];
    var server := if s.server.Some? then s.server.value else ("localhost", "80");
    var named := common["SERVER_NAME" := Text(server.0)]["SERVER_PORT" := Text(server.1)];
    if s.client.Some? then named["REMOTE_ADDR" := Text(s.client.value)] else named
  }

  // ---------------------------------------------------------------------------------------
  // What the grouping keeps
  // ---------------------------------------------------------------------------------------

  lemma OneMore(fs: seq<Field>, f: Field, cgi: string)
    ensures ValuesOf(fs + [f], cgi) == ValuesOf(fs, cgi) + (if f.cgi == cgi then [f.value] else [])
    ensures CgiNames(fs + [f]) == CgiNames(fs) + {f.cgi}
  {
    assert (fs + [f])[..|fs|] == fs;
  }

  lemma {:induction false} NoValuesElsewhere(fs: seq<Field>, cgi: string)
    ensures ValuesOf(fs, cgi) == [] <==> cgi !in CgiNames(fs)
  {
    if fs != [] {
      var init, last := fs[..|fs| - 1], fs[|fs| - 1];
      NoValuesElsewhere(init, cgi);
      OneMore(init, last, cgi);
      assert fs == init + [last];
    }
  }

  lemma {:induction false} ValuesGrow(fs: seq<Field>, more: seq<Field>, cgi: string)
    ensures ValuesOf(fs, cgi) <= ValuesOf(fs + more, cgi)
    decreases |more|
  {
    if more == [] {
      assert fs + more == fs;
    } else {
      var init, last := more[..|more| - 1], more[|more| - 1];
      ValuesGrow(fs, init, cgi);
      OneMore(fs + init, last, cgi);
      assert fs + more == (fs + init) + [last];
    }
  }

  // No value is lost or moved: the i-th header's value stands in its group right after those of
  // the earlier headers of the same group.
  lemma ValueInItsPlace(fs: seq<Field>, i: nat)
    requires i < |fs|
    ensures var cgi := fs[i].cgi;
      var k := |ValuesOf(fs[..i], cgi)|;
      k < |ValuesOf(fs, cgi)| && ValuesOf(fs, cgi)[k] == fs[i].value
  {
    OneMore(fs[..i], fs[i], fs[i].cgi);
    ValuesGrow(fs[..i] + [fs[i]], fs[i + 1..], fs[i].cgi);
    assert fs == fs[..i] + [fs[i]] + fs[i + 1..];
  }

  // Two headers of a group have different places.
  lemma PlacesDiffer(fs: seq<Field>, i: nat, j: nat)
    requires i < j < |fs| && fs[i].cgi == fs[j].cgi
    ensures |ValuesOf(fs[..i], fs[i].cgi)| < |ValuesOf(fs[..j], fs[i].cgi)|
  {
    assert fs[..j][..i] == fs[..i];
    ValueInItsPlace(fs[..j], i);
  }

  // No value is made up or doubled: every place in a group belongs to exactly one header.
  lemma {:induction false} PlaceHasItsHeader(fs: seq<Field>, cgi: string, k: nat) returns (i: nat)
    requires k < |ValuesOf(fs, cgi)|
    ensures i < |fs| && fs[i].cgi == cgi && |ValuesOf(fs[..i], cgi)| == k
    ensures forall j | 0 <= j < |fs| && j != i && fs[j].cgi == cgi :: |ValuesOf(fs[..j], cgi)| != k
    decreases |fs|
  {
    var init := fs[..|fs| - 1];
    if k < |ValuesOf(init, cgi)| {
      i := PlaceHasItsHeader(init, cgi, k);
      assert init[..i] == fs[..i];
    } else {
      i := |fs| - 1;
    }
    forall j | 0 <= j < |fs| && j != i && fs[j].cgi == cgi ensures |ValuesOf(fs[..j], cgi)| != k {
      if i < j {
        PlacesDiffer(fs, i, j);
      } else {
        PlacesDiffer(fs, j, i);
      }
    }
  }

  // What a recipient of the joined field takes apart again.
  function SplitCommas(s: string): (parts: seq<string>)
    ensures |parts| >= 1
  {
    if s == "" then [""]
    else
      var rest := SplitCommas(s[1..]);
      if s[0] == ',' then [""] + rest else [[s[0]] + rest[0]] + rest[1..]
  }

  lemma {:induction false} SplitFirst(v: string, rest: string)
    requires ',' !in v
    ensures SplitCommas(v + "," + rest) == [v] + SplitCommas(rest)
    ensures SplitCommas(v) == [v]
  {
    if v == "" {
      assert v + "," + rest == "," + rest && ("," + rest)[1..] == rest;
    } else {
      SplitFirst(v[1..], rest);
      assert (v + "," + rest)[1..] == v[1..] + "," + rest;
      assert v == [v[0]] + v[1..];
    }
  }

  // Values without commas come back one by one, in order.
  lemma {:induction false} JoinSplits(values: seq<string>)
    requires values != [] && forall v | v in values :: ',' !in v
    ensures SplitCommas(JoinCommas(values)) == values
  {
    assert values[0] in values;
    if |values| == 1 {
      SplitFirst(values[0], "");
    } else {
      SplitFirst(values[0], JoinCommas(values[1..]));
      JoinSplits(values[1..]);
    }
  }

  // Header variables never collide with the others.
  lemma HeadersApartFromBase(s: Scope, name: seq<Byte>)
    ensures CgiName(name) !in BaseEnviron(s)
  {
    var cgi := CgiName(name);
    if cgi != "CONTENT_LENGTH" && cgi != "CONTENT_TYPE" {
      assert cgi[0] == 'H' && cgi[1] == 'T';
      forall key | key in BaseEnviron(s) ensures key[0] != 'H' {
      }
    }
  }

  // ---------------------------------------------------------------------------------------
  // The loops
  // ---------------------------------------------------------------------------------------

  function Group(groups: map<string, seq<string>>, cgi: string): seq<string> {
    if cgi in groups then groups[cgi] else []
  }

  ghost predicate Grouped(groups: map<string, seq<string>>, fs: seq<Field>) {
    groups.Keys == CgiNames(fs) && forall cgi | cgi in groups :: groups[cgi] == ValuesOf(fs, cgi)
  }

  lemma GroupOneMore(groups: map<string, seq<string>>, fs: seq<Field>, f: Field)
    requires Grouped(groups, fs)
    ensures Group(groups, f.cgi) == ValuesOf(fs, f.cgi)
    ensures Grouped(groups[f.cgi := Group(groups, f.cgi) + [f.value]], fs + [f])
  {
    NoValuesElsewhere(fs, f.cgi);
    var groups' := groups[f.cgi := Group(groups, f.cgi) + [f.value]];
    OneMore(fs, f, f.cgi);
    forall cgi | cgi in groups' ensures groups'[cgi] == ValuesOf(fs + [f], cgi) {
      OneMore(fs, f, cgi);
    }
  }

  // One more header of a group that is not full, or of one that is.
  lemma LimitOneMore(fs: seq<Field>, f: Field, rest: seq<Field>, limit: int)
    requires limit != 0 && WithinLimit(fs, limit)
    ensures |ValuesOf(fs, f.cgi)| < limit ==> WithinLimit(fs + [f], limit)
    ensures |ValuesOf(fs, f.cgi)| >= limit ==>
      f.cgi in CgiNames(fs + [f] + rest) && |ValuesOf(fs + [f] + rest, f.cgi)| > limit
  {
    OneMore(fs, f, f.cgi);
    forall cgi | cgi in CgiNames(fs + [f])
      ensures |ValuesOf(fs + [f], cgi)| <= if cgi == f.cgi then |ValuesOf(fs, f.cgi)| + 1 else limit
    {
      OneMore(fs, f, cgi);
    }
    ValuesGrow(fs + [f], rest, f.cgi);
    assert f in fs + [f] + rest;
  }

  // The first loop, on decoded headers: `defaultdict(list)` filled one by one.
  method GroupHeaders(fs: seq<Field>, limit: int) returns (r: Result<map<string, seq<string>>, EnvironError>)
    ensures r.Success? <==> WithinLimit(fs, limit)
    ensures r.Success? ==> Grouped(r.value, fs)
    ensures r.Failure? ==>
      r.error.TooManyHeaders? && r.error.name in CgiNames(fs) && |ValuesOf(fs, r.error.name)| > limit
  {
    var headers: map<string, seq<string>> := map[];
    for i := 0 to |fs|
      invariant Grouped(headers, fs[..i])
      invariant WithinLimit(fs[..i], limit)
    {
      var f := fs[i];
      GroupOneMore(headers, fs[..i], f);
      assert fs[..i + 1] == fs[..i] + [f];
      if limit != 0 {
        LimitOneMore(fs[..i], f, fs[i + 1..], limit);
        assert fs == fs[..i] + [f] + fs[i + 1..];
        if |Group(headers, f.cgi)| >= limit {
          return Failure(TooManyHeaders(f.cgi));
        }
      }
      headers := headers[f.cgi := Group(headers, f.cgi) + [f.value]];
    }
    assert fs[..|fs|] == fs;
    return Success(headers);
  }

  // The groups outside `todo` have been joined into `environ`.
  ghost predicate Joined(environ: map<string, Entry>, base: map<string, Entry>, headers: map<string, seq<string>>,
                         todo: set<string>) {
    && environ.Keys == base.Keys + (headers.Keys - todo)
    && (forall name | name in headers && name !in todo :: environ[name] == Text(JoinCommas(headers[name])))
    && (forall key | key in base && key !in headers :: environ[key] == base[key])
  }

  lemma JoinOneMore(environ: map<string, Entry>, base: map<string, Entry>, headers: map<string, seq<string>>,
                    todo: set<string>, name: string)
    requires Joined(environ, base, headers, todo) && name in todo && name in headers
    ensures Joined(environ[name := Text(JoinCommas(headers[name]))], base, headers, todo - {name})
  {
  }

  // The second loop, which joins each group.
  method AddHeaders(base: map<string, Entry>, headers: map<string, seq<string>>) returns (environ: map<string, Entry>)
    ensures Joined(environ, base, headers, {})
  {
    environ := base;
    var todo := headers.Keys;
    while todo != {}
      invariant todo <= headers.Keys
      invariant Joined(environ, base, headers, todo)
      decreases |todo|
    {
      var name :| name in todo;
      JoinOneMore(environ, base, headers, todo, name);
      environ := environ[name := Text(JoinCommas(headers[name]))];
      todo := todo - {name};
    }
  }

  ghost predicate IsEnviron(environ: map<string, Entry>, s: Scope) {
    && environ.Keys == BaseEnviron(s).Keys + CgiNames(Fields(s.headers))
    && (forall key | key in BaseEnviron(s) :: environ[key] == BaseEnviron(s)[key])
    && (forall cgi | cgi in CgiNames(Fields(s.headers)) ::
          environ[cgi] == Text(JoinCommas(ValuesOf(Fields(s.headers), cgi))))
  }

  // An entry that is text and reads as `t` once its bytes are decoded, as PEP 3333 has it.
  predicate Reads(environ: map<string, Entry>, key: string, t: string) {
    key in environ && environ[key].Text? && FromNative(environ[key].s) == Some(t)
  }

  predicate Says(environ: map<string, Entry>, key: string, t: string) {
    key in environ && environ[key] == Text(t)
  }

  // Character for byte.
  predicate SaysBytes(environ: map<string, Entry>, key: string, bs: seq<Byte>) {
    && key in environ && environ[key].Text? && |environ[key].s| == |bs|
    && forall k | 0 <= k < |bs| :: environ[key].s[k] as int == bs[k]
  }

  // The root, and the path without it if the path begins with it.
  predicate TellsPath(environ: map<string, Entry>, s: Scope) {
    var root := if s.rootPath.Some? then s.rootPath.value else "";
    && Reads(environ, "SCRIPT_NAME", root)
    && Reads(environ, "PATH_INFO", if root <= s.path then s.path[|root|..] else s.path)
  }

  // The other fields of the request as they are.
  predicate TellsRequest(environ: map<string, Entry>, s: Scope) {
    && Says(environ, "REQUEST_METHOD", s.verb)
    && SaysBytes(environ, "QUERY_STRING", s.queryString)
    && Says(environ, "SERVER_PROTOCOL", "HTTP/" + s.httpVersion)
    && Says(environ, "wsgi.url_scheme", if s.scheme.Some? then s.scheme.value else "http")
  }

  // Both ends of the connection.
  predicate TellsPeers(environ: map<string, Entry>, s: Scope) {
    && Says(environ, "SERVER_NAME", if s.server.Some? then s.server.value.0 else "localhost")
    && Says(environ, "SERVER_PORT", if s.server.Some? then s.server.value.1 else "80")
    && ("REMOTE_ADDR" in environ <==> s.client.Some?)
    && (s.client.Some? ==> Says(environ, "REMOTE_ADDR", s.client.value))
  }

  // What PEP 3333 asks for besides.
  predicate TellsGateway(environ: map<string, Entry>) {
    && "wsgi.version" in environ && environ["wsgi.version"] == Version(1, 0)
    && "wsgi.input" in environ && environ["wsgi.input"] == InputStream
    && "wsgi.errors" in environ && environ["wsgi.errors"] == ErrorStream
    && "wsgi.multithread" in environ && environ["wsgi.multithread"] == Bool(true)
    && "wsgi.multiprocess" in environ && environ["wsgi.multiprocess"] == Bool(true)
    && "wsgi.run_once" in environ && environ["wsgi.run_once"] == Bool(false)
  }

  const GATEWAY_KEYS: set<string> := {"wsgi.version", "wsgi.url_scheme", "wsgi.input", "wsgi.errors",
    "wsgi.multithread", "wsgi.multiprocess", "wsgi.run_once"}

  const REQUEST_KEYS: set<string> := {"REQUEST_METHOD", "SCRIPT_NAME", "PATH_INFO", "QUERY_STRING",
    "SERVER_PROTOCOL", "SERVER_NAME", "SERVER_PORT"}

  // All of that, and no key but these and the headers'.
  predicate Tells(environ: map<string, Entry>, s: Scope) {
    && TellsPath(environ, s) && TellsRequest(environ, s) && TellsPeers(environ, s) && TellsGateway(environ)
    && environ.Keys == REQUEST_KEYS + GATEWAY_KEYS + (if s.client.Some? then {"REMOTE_ADDR"} else {})
      + CgiNames(Fields(s.headers))
  }

  lemma BasePaths(s: Scope)
    ensures var paths := SplitPath(if s.rootPath.Some? then s.rootPath.value else "", s.path);
      && Says(BaseEnviron(s), "SCRIPT_NAME", paths.scriptName)
      && Says(BaseEnviron(s), "PATH_INFO", paths.pathInfo)
  {
  }

  lemma BaseTellsPath(s: Scope)
    ensures TellsPath(BaseEnviron(s), s)
  {
    BasePaths(s);
    PathSplits(if s.rootPath.Some? then s.rootPath.value else "", s.path);
  }

  lemma BaseTellsRequest(s: Scope)
    ensures TellsRequest(BaseEnviron(s), s)
  {
  }

  lemma BaseTellsPeers(s: Scope)
    ensures TellsPeers(BaseEnviron(s), s)
  {
  }

  lemma BaseTellsGateway(s: Scope)
    ensures TellsGateway(BaseEnviron(s))
  {
  }

  lemma BaseKeys(s: Scope)
    ensures BaseEnviron(s).Keys ==
      REQUEST_KEYS + GATEWAY_KEYS + (if s.client.Some? then {"REMOTE_ADDR"} else {})
  {
  }

  lemma PathTold(environ: map<string, Entry>, s: Scope)
    requires IsEnviron(environ, s)
    ensures TellsPath(environ, s)
  {
    BaseTellsPath(s);
  }

  lemma RequestTold(environ: map<string, Entry>, s: Scope)
    requires IsEnviron(environ, s)
    ensures TellsRequest(environ, s)
  {
    BaseTellsRequest(s);
  }

  lemma PeersTold(environ: map<string, Entry>, s: Scope)
    requires IsEnviron(environ, s)
    ensures TellsPeers(environ, s)
  {
    BaseTellsPeers(s);
    NoHeaderIs(s, "REMOTE_ADDR");
  }

  lemma GatewayTold(environ: map<string, Entry>, s: Scope)
    requires IsEnviron(environ, s)
    ensures TellsGateway(environ)
  {
    BaseTellsGateway(s);
  }

  lemma NoHeaderIs(s: Scope, key: string)
    requires key != "" && key[0] != 'C' && key[0] != 'H'
    ensures key !in CgiNames(Fields(s.headers))
  {
    forall f | f in Fields(s.headers) ensures f.cgi != key {
      var i :| 0 <= i < |s.headers| && Fields(s.headers)[i] == f;
      assert f.cgi[0] == 'C' || f.cgi[0] == 'H';
    }
  }

  // No header touches any of it.
  lemma EnvironTells(environ: map<string, Entry>, s: Scope)
    requires IsEnviron(environ, s)
    ensures Tells(environ, s)
  {
    PathTold(environ, s);
    RequestTold(environ, s);
    PeersTold(environ, s);
    GatewayTold(environ, s);
    BaseKeys(s);
  }

  predicate Buildable(s: Scope, limit: int) {
    Ascii(s.queryString) && WithinLimit(Fields(s.headers), limit)
  }

  // It succeeds exactly when the query string is ASCII and every variable occurs at most `limit`
  // times (0 or None: any number of times). Then every header variable is the comma-join of its
  // values in order of arrival and all other variables are as without headers.
  method BuildEnviron(s: Scope, limit: int) returns (r: Result<map<string, Entry>, EnvironError>)
    ensures r.Success? <==> Buildable(s, limit)
    ensures r.Success? ==> IsEnviron(r.value, s)
    ensures r.Success? ==> Tells(r.value, s)
    ensures r.Failure? ==>
      match r.error
      case QueryNotAscii => !Ascii(s.queryString)
      case TooManyHeaders(name) => |ValuesOf(Fields(s.headers), name)| > limit
  {
    if !Ascii(s.queryString) {
      return Failure(QueryNotAscii);
    }
    var base := BaseEnviron(s);
    var grouped := GroupHeaders(Fields(s.headers), limit);
    if grouped.Failure? {
      return Failure(grouped.error);
    }
    AllHeadersApart(s);
    var environ := AddHeaders(base, grouped.value);
    EnvironTells(environ, s);
    return Success(environ);
  }

  lemma AllHeadersApart(s: Scope)
    ensures BaseEnviron(s).Keys !! CgiNames(Fields(s.headers))
  {
    forall f | f in Fields(s.headers) ensures f.cgi !in BaseEnviron(s) {
      var i :| 0 <= i < |s.headers| && Fields(s.headers)[i] == f;
      HeadersApartFromBase(s, s.headers[i].name);
    }
  }
}
