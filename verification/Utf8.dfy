/**
 * str.encode("utf8"), bytes.decode("latin1") and what build_environ relies on: UTF-8 (section 3
 * of RFC 3629) is a prefix code, so a test for a prefix of the encoded text is a test for a
 * prefix of the text.
 */
module Utf8 {
  import opened Wrappers

  type Byte = b: int | 0 <= b < 0x100

  // A `char` is a code point other than a surrogate, so a string can always be encoded.

  function EncodeOne(c: char): (bs: seq<Byte>)
    ensures 1 <= |bs| <= 4
  {
    var n := c as int;
    if n < 0x80 then [n]
    else if n < 0x800 then [0xC0 + n / 0x40, 0x80 + n % 0x40]
    else if n < 0x1_0000 then [0xE0 + n / 0x1000, 0x80 + n / 0x40 % 0x40, 0x80 + n % 0x40]
    else [0xF0 + n / 0x4_0000, 0x80 + n / 0x1000 % 0x40, 0x80 + n / 0x40 % 0x40, 0x80 + n % 0x40]
  }

  function Encode(s: string): (bs: seq<Byte>)
    ensures |bs| >= |s|
  {
    if s == [] then [] else EncodeOne(s[0]) + Encode(s[1..])
  }

  predicate Continues(b: Byte) {
    0x80 <= b < 0xC0
  }

  // The strict decoder: the first character and how many bytes it takes. Overlong forms,
  // surrogates and numbers above 0x10FFFF are refused.
  function DecodeOne(bs: seq<Byte>): (r: Option<(char, nat)>)
    ensures r.Some? ==> 1 <= r.value.1 <= |bs|
  {
    if bs == [] then None
    else
      var b: int := bs[0];
      if b < 0x80 then Some((b as char, 1))
      else if 0xC2 <= b < 0xE0 && |bs| >= 2 && Continues(bs[1]) then
        Some((Join(b - 0xC0, bs[1]) as char, 2))
      else if 0xE0 <= b < 0xF0 && |bs| >= 3 && Continues(bs[1]) && Continues(bs[2]) then
        var c := Join(Join(b - 0xE0, bs[1]), bs[2]);
        if 0x800 <= c < 0xD800 || 0xE000 <= c then Some((c as char, 3)) else None
      else if 0xF0 <= b < 0xF5 && |bs| >= 4 && Continues(bs[1]) && Continues(bs[2]) && Continues(bs[3]) then
        var c := Join(Join(Join(b - 0xF0, bs[1]), bs[2]), bs[3]);
        if 0x1_0000 <= c < 0x11_0000 then Some((c as char, 4)) else None
      else None
  }

  // Six more bits, from a continuation byte.
  function Join(high: int, b: Byte): (c: int)
    requires 0 <= high && Continues(b)
    ensures c / 0x40 == high && c % 0x40 == b - 0x80
  {
    high * 0x40 + (b as int - 0x80)
  }

  // bytes.decode("utf8"); None stands for the UnicodeDecodeError.
  function Decode(bs: seq<Byte>): Option<string> {
    if bs == [] then Some([])
    else
      var first := DecodeOne(bs);
      if first.None? then None
      else
        var rest := Decode(bs[first.value.1..]);
        if rest.None? then None else Some([first.value.0] + rest.value)
  }

  lemma Halves(c: int)
    requires 0 <= c
    ensures c == c / 0x40 * 0x40 + c % 0x40
    ensures c / 0x1000 == c / 0x40 / 0x40
    ensures c / 0x4_0000 == c / 0x1000 / 0x40
  {
  }

  // Reading a character back from any text that begins with its encoding.
  lemma EncodedOneDecodes(c: char, bs: seq<Byte>)
    requires EncodeOne(c) <= bs
    ensures DecodeOne(bs) == Some((c, |EncodeOne(c)|))
  {
    var n := c as int;
    Halves(n);
    Halves(n / 0x40);
    Halves(n / 0x1000);
    var e := EncodeOne(c);
    assert bs[0] == e[0];
    assert |e| > 1 ==> bs[1] == e[1];
    assert |e| > 2 ==> bs[2] == e[2];
    assert |e| > 3 ==> bs[3] == e[3];
  }

  // ... and only those texts give that character: the decoder takes no second form.
  lemma DecodedOneEncodes(bs: seq<Byte>)
    requires DecodeOne(bs).Some?
    ensures var (c, n) := DecodeOne(bs).value; EncodeOne(c) == bs[..n]
  {
    var (c, n) := DecodeOne(bs).value;
    Halves(c as int);
  }

  lemma {:induction false} RoundTrip(s: string)
    ensures Decode(Encode(s)) == Some(s)
  {
    if s != [] {
      var e, bs := EncodeOne(s[0]), Encode(s);
      EncodedOneDecodes(s[0], bs);
      assert bs[|e|..] == Encode(s[1..]);
      RoundTrip(s[1..]);
      assert s == [s[0]] + s[1..];
    }
  }

  lemma EncodeCons(c: char, s: string)
    ensures Encode([c] + s) == EncodeOne(c) + Encode(s)
  {
    assert ([c] + s)[1..] == s;
  }

  lemma DecodeCons(bs: seq<Byte>) returns (c: char, n: nat, rest: string)
    requires bs != [] && Decode(bs).Some?
    ensures 1 <= n <= |bs| && EncodeOne(c) == bs[..n]
    ensures Decode(bs[n..]) == Some(rest) && Decode(bs) == Some([c] + rest)
  {
    DecodedOneEncodes(bs);
    c, n := DecodeOne(bs).value.0, DecodeOne(bs).value.1;
    rest := Decode(bs[n..]).value;
  }

  lemma {:induction false} RoundTripBack(bs: seq<Byte>, s: string)
    requires Decode(bs) == Some(s)
    ensures Encode(s) == bs
    decreases |bs|
  {
    if bs != [] {
      var c, n, rest := DecodeCons(bs);
      RoundTripBack(bs[n..], rest);
      EncodeCons(c, rest);
      assert bs == bs[..n] + bs[n..];
    }
  }

  lemma {:induction false} EncodeAppend(s: string, t: string)
    ensures Encode(s + t) == Encode(s) + Encode(t)
  {
    if s == [] {
      assert s + t == t;
    } else {
      assert (s + t)[1..] == s[1..] + t;
      EncodeAppend(s[1..], t);
    }
  }

  // UTF-8 is a prefix code: encodings are prefixes of one another exactly when the texts are.
  lemma {:induction false} PrefixCode(s: string, t: string)
    ensures Encode(s) <= Encode(t) <==> s <= t
  {
    if s <= t {
      EncodeAppend(s, t[|s|..]);
      assert t == s + t[|s|..];
    }
    if Encode(s) <= Encode(t) {
      EncodedPrefix(s, t);
    }
  }

  lemma {:induction false} EncodedPrefix(s: string, t: string)
    requires Encode(s) <= Encode(t)
    ensures s <= t
  {
    if s != [] {
      assert EncodeOne(s[0]) <= Encode(s);
      EncodedOneDecodes(s[0], Encode(t));
      EncodedOneDecodes(t[0], Encode(t));
      var n := |EncodeOne(s[0])|;
      assert Encode(s)[n..] == Encode(s[1..]) && Encode(t)[n..] == Encode(t[1..]);
      EncodedPrefix(s[1..], t[1..]);
      assert s == [s[0]] + s[1..] && t == [t[0]] + t[1..];
    }
  }

  // ---------------------------------------------------------------------------------------
  // latin1
  // ---------------------------------------------------------------------------------------

  function Latin1(bs: seq<Byte>): (s: string)
    ensures |s| == |bs| && forall k | 0 <= k < |bs| :: s[k] as int == bs[k]
  {
    seq(|bs|, k requires 0 <= k < |bs| => bs[k] as char)
  }

  predicate IsLatin1(s: string) {
    forall c | c in s :: c as int < 0x100
  }

  // str.encode("latin1"); None stands for the UnicodeEncodeError.
  function ToLatin1(s: string): (bs: Option<seq<Byte>>)
    ensures bs.Some? <==> IsLatin1(s)
    ensures bs.Some? ==> Latin1(bs.value) == s
  {
    if s == [] then Some([])
    else
      var rest := ToLatin1(s[1..]);
      assert s == [s[0]] + s[1..] && s[0] in s && forall c | c in s[1..] :: c in s;
      if s[0] as int >= 0x100 || rest.None? then None
      else
        var b: Byte := s[0] as int;
        Some([b] + rest.value)
  }

  lemma Latin1Back(bs: seq<Byte>)
    ensures ToLatin1(Latin1(bs)) == Some(bs)
  {
    var s := Latin1(bs);
    assert IsLatin1(s);
    assert ToLatin1(s).value == bs;
  }

  lemma Latin1Prefix(bs: seq<Byte>, cs: seq<Byte>)
    ensures Latin1(bs) <= Latin1(cs) <==> bs <= cs
  {
    if bs <= cs {
      assert Latin1(cs)[..|bs|] == Latin1(bs);
    }
    if Latin1(bs) <= Latin1(cs) {
      assert forall k | 0 <= k < |bs| :: Latin1(bs)[k] == Latin1(cs)[k];
      assert cs[..|bs|] == bs;
    }
  }

  // ---------------------------------------------------------------------------------------
  // SCRIPT_NAME and PATH_INFO
  // ---------------------------------------------------------------------------------------

  // str.encode("utf8").decode("latin1"), the form WSGI wants strings in (PEP 3333).
  function Native(s: string): string {
    Latin1(Encode(s))
  }

  // The text a WSGI application gets back from such a string.
  function FromNative(s: string): Option<string> {
    var bs := ToLatin1(s);
    if bs.None? then None else Decode(bs.value)
  }

  datatype Paths = Paths(scriptName: string, pathInfo: string)

  function SplitPath(rootPath: string, path: string): Paths {
    var scriptName, pathInfo := Native(rootPath), Native(path);
    Paths(scriptName, if scriptName <= pathInfo then pathInfo[|scriptName|..] else pathInfo)
  }

  // The root is taken off exactly when it is a prefix of the path as text. Then the rest is the
  // encoding of the rest of the path, and both parts put together read as the path again.
  // Otherwise PATH_INFO is the whole path.
  lemma PathSplits(rootPath: string, path: string)
    ensures var p := SplitPath(rootPath, path);
      && FromNative(p.scriptName) == Some(rootPath)
      && (Native(rootPath) <= Native(path) <==> rootPath <= path)
      && (rootPath <= path ==>
            p.pathInfo == Native(path[|rootPath|..])
            && FromNative(p.pathInfo) == Some(path[|rootPath|..])
            && FromNative(p.scriptName + p.pathInfo) == Some(path))
      && (!(rootPath <= path) ==> FromNative(p.pathInfo) == Some(path))
  {
    NativeBack(rootPath);
    NativeBack(path);
    Latin1Prefix(Encode(rootPath), Encode(path));
    PrefixCode(rootPath, path);
    if rootPath <= path {
      NativeAppend(rootPath, path[|rootPath|..]);
      assert path == rootPath + path[|rootPath|..];
      NativeBack(path[|rootPath|..]);
    }
  }

  lemma NativeAppend(s: string, t: string)
    ensures Native(s + t) == Native(s) + Native(t)
  {
    EncodeAppend(s, t);
  }

  lemma NativeBack(s: string)
    ensures FromNative(Native(s)) == Some(s)
  {
    Latin1Back(Encode(s));
    RoundTrip(s);
  }
}
