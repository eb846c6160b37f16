/**
 * Which variable a header goes to, said by its characters, and what a recipient gets from a
 * joined entry when values themselves have commas in them.
 */
module EnvironHeaders {
  import opened Wrappers
  import opened Utf8
  import opened Environ

  // ---------------------------------------------------------------------------------------
  // Names
  // ---------------------------------------------------------------------------------------

  // The name is this text, case and all.
  predicate Named(name: seq<Byte>, t: string) {
    |name| == |t| && forall k | 0 <= k < |t| :: name[k] == t[k] as int
  }

  predicate Special(name: seq<Byte>) {
    Named(name, "content-length") || Named(name, "content-type")
  }

  // A byte of an ASCII name as it appears in the variable.
  function Folded(b: Byte): char {
    if b == '-' as int then '_' else if 'a' as int <= b <= 'z' as int then (b - 32) as char else b as char
  }

  predicate SameFolded(a: seq<Byte>, b: seq<Byte>) {
    |a| == |b| && forall k | 0 <= k < |a| :: Folded(a[k]) == Folded(b[k])
  }

  lemma {:induction false} UpperInTwo(s: string, t: string)
    ensures UpperUnderscored(s + t) == UpperUnderscored(s) + UpperUnderscored(t)
  {
    if s == "" {
      assert s + t == t;
    } else {
      assert (s + t)[1..] == s[1..] + t;
      UpperInTwo(s[1..], t);
    }
  }

  lemma {:induction false} UpperAscii(name: seq<Byte>, k: nat)
    requires Ascii(name) && k < |name|
    ensures |UpperUnderscored(Latin1(name))| == |name|
    ensures UpperUnderscored(Latin1(name))[k] == Folded(name[k])
  {
    var rest := name[1..];
    assert Latin1(name)[1..] == Latin1(rest) && name[0] in name && forall b | b in rest :: b in name;
    if rest != [] {
      UpperAscii(rest, if k == 0 then 0 else k - 1);
    }
  }

  lemma NamedIs(name: seq<Byte>, t: string)
    ensures Latin1(name) == t <==> Named(name, t)
  {
    if Named(name, t) {
      assert forall k | 0 <= k < |t| :: Latin1(name)[k] == t[k];
    }
  }

  // Two headers, named exactly so, have variables of their own. Any other name follows HTTP_, in
  // upper case and with `_` for `-`; an ASCII name letter by letter.
  lemma CgiNameIs(name: seq<Byte>)
    ensures CgiName(name) == "CONTENT_LENGTH" <==> Named(name, "content-length")
    ensures CgiName(name) == "CONTENT_TYPE" <==> Named(name, "content-type")
    ensures !Special(name) ==> "HTTP_" <= CgiName(name)
    ensures !Special(name) && Ascii(name) ==>
      |CgiName(name)| == 5 + |name| && forall k | 0 <= k < |name| :: CgiName(name)[5 + k] == Folded(name[k])
  {
    NamedIs(name, "content-length");
    NamedIs(name, "content-type");
    if !Special(name) {
      var upper := UpperUnderscored(Latin1(name));
      assert CgiName(name) == "HTTP_" + upper && CgiName(name)[0] == 'H';
      if Ascii(name) {
        forall k | 0 <= k < |name| ensures |upper| == |name| && upper[k] == Folded(name[k]) {
          UpperAscii(name, k);
        }
      }
    }
  }

  // Two headers with ASCII names share a variable exactly when their names differ at most in
  // case and in `-` for `_`; neither of the two special ones shares it with another name.
  lemma SharedVariable(a: seq<Byte>, b: seq<Byte>)
    requires Ascii(a) && Ascii(b)
    ensures CgiName(a) == CgiName(b) <==>
      a == b || (!Special(a) && !Special(b) && SameFolded(a, b))
  {
    CgiNameIs(a);
    CgiNameIs(b);
    if Special(a) || Special(b) {
      SpecialAlone(a, b);
    } else {
      if CgiName(a) == CgiName(b) {
        forall k | 0 <= k < |a| ensures Folded(a[k]) == Folded(b[k]) {
          assert CgiName(a)[5 + k] == CgiName(b)[5 + k];
        }
      }
      if SameFolded(a, b) {
        SameFoldedShare(a, b);
      }
    }
  }

  lemma SameFoldedShare(a: seq<Byte>, b: seq<Byte>)
    requires Ascii(a) && Ascii(b) && !Special(a) && !Special(b) && SameFolded(a, b)
    ensures CgiName(a) == CgiName(b)
  {
    CgiNameIs(a);
    CgiNameIs(b);
    assert CgiName(a)[..5] == "HTTP_" == CgiName(b)[..5];
    assert CgiName(a)[5..] == CgiName(b)[5..] by {
      forall k | 0 <= k < |a| ensures CgiName(a)[5..][k] == CgiName(b)[5..][k] {
        assert CgiName(a)[5 + k] == Folded(a[k]) == Folded(b[k]) == CgiName(b)[5 + k];
      }
    }
    assert CgiName(a) == CgiName(a)[..5] + CgiName(a)[5..];
    assert CgiName(b) == CgiName(b)[..5] + CgiName(b)[5..];
  }

  lemma SpecialAlone(a: seq<Byte>, b: seq<Byte>)
    requires Special(a) || Special(b)
    ensures CgiName(a) == CgiName(b) <==> a == b
  {
    CgiNameIs(a);
    CgiNameIs(b);
    if CgiName(a) == CgiName(b) {
      assert Special(a) && Special(b);
      assert |a| == |b|;
    }
  }

  // ---------------------------------------------------------------------------------------
  // Values with commas
  // ---------------------------------------------------------------------------------------

  // Every value taken apart, one after the other.
  function SplitAll(values: seq<string>): seq<string> {
    if values == [] then [] else SplitCommas(values[0]) + SplitAll(values[1..])
  }

  lemma SplitCons(c: char, s: string)
    ensures SplitCommas([c] + s) ==
      if c == ',' then [""] + SplitCommas(s) else [[c] + SplitCommas(s)[0]] + SplitCommas(s)[1..]
  {
    assert ([c] + s)[1..] == s;
  }

  lemma {:induction false} SplitInTwo(v: string, rest: string)
    ensures SplitCommas(v + "," + rest) == SplitCommas(v) + SplitCommas(rest)
  {
    if v == "" {
      SplitCons(',', rest);
      assert v + "," + rest == "," + rest;
    } else {
      var tail := v[1..] + "," + rest;
      SplitInTwo(v[1..], rest);
      SplitCons(v[0], v[1..]);
      SplitCons(v[0], tail);
      assert v + "," + rest == [v[0]] + tail && v == [v[0]] + v[1..];
      FirstOfTwo(v[0], SplitCommas(v[1..]), SplitCommas(rest));
    }
  }

  lemma FirstOfTwo(c: char, here: seq<string>, there: seq<string>)
    requires here != []
    ensures [[c] + (here + there)[0]] + (here + there)[1..] == ([[c] + here[0]] + here[1..]) + there
    ensures [""] + (here + there) == ([""] + here) + there
  {
  }

  // The joined entry reads as all the values, each taken apart at its own commas, in order.
  lemma {:induction false} JoinedReadsAll(values: seq<string>)
    requires values != []
    ensures SplitCommas(JoinCommas(values)) == SplitAll(values)
  {
    if |values| == 1 {
      assert SplitAll(values[1..]) == [];
    } else {
      SplitInTwo(values[0], JoinCommas(values[1..]));
      JoinedReadsAll(values[1..]);
    }
  }

  // Taking apart loses nothing, so no other entry reads the same.
  lemma {:induction false} JoinedAgain(s: string)
    ensures JoinCommas(SplitCommas(s)) == s
  {
    if s != "" {
      JoinedAgain(s[1..]);
      var rest := SplitCommas(s[1..]);
      assert s == [s[0]] + s[1..];
      if s[0] == ',' {
        assert ([""] + rest)[1..] == rest;
      } else {
        JoinedFirst(s[0], rest);
      }
    }
  }

  lemma JoinedFirst(c: char, parts: seq<string>)
    requires parts != []
    ensures JoinCommas([[c] + parts[0]] + parts[1..]) == [c] + JoinCommas(parts)
  {
    var all := [[c] + parts[0]] + parts[1..];
    assert all[1..] == parts[1..];
    if |parts| > 1 {
      assert [c] + parts[0] + "," + JoinCommas(parts[1..]) == [c] + (parts[0] + "," + JoinCommas(parts[1..]));
    }
  }

  // In every environ: a header's variable is there, and reads as the values of all headers that
  // share it, whatever commas they have.
  lemma HeaderReads(environ: map<string, Entry>, s: Scope, i: nat)
    requires IsEnviron(environ, s) && i < |s.headers|
    ensures var cgi := CgiName(s.headers[i].name);
      && cgi in environ && environ[cgi].Text?
      && SplitCommas(environ[cgi].s) == SplitAll(ValuesOf(Fields(s.headers), cgi))
  {
    var fs, cgi := Fields(s.headers), CgiName(s.headers[i].name);
    assert fs[i] in fs && fs[i].cgi == cgi && cgi in CgiNames(fs);
    NoValuesElsewhere(fs, cgi);
    JoinedReadsAll(ValuesOf(fs, cgi));
  }
}
