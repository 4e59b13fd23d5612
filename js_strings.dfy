/**
 * The JavaScript string operations the client relies on, written out with the
 * semantics of the ECMAScript built-ins: `split` with a non-empty separator,
 * `Array.prototype.join`, `trim`, `startsWith` and `endsWith`.
 */
module JsStrings {

  /** ECMAScript WhiteSpace and LineTerminator code points, which `trim` removes. */
  predicate IsJsWhitespace(c: char) {
    c in WhitespaceChars
  }

  const WhitespaceChars: set<char> := {
    '\U{9}', '\U{A}', '\U{B}', '\U{C}', '\U{D}', ' ', '\U{A0}', '\U{1680}',
    '\U{2000}', '\U{2001}', '\U{2002}', '\U{2003}', '\U{2004}', '\U{2005}',
    '\U{2006}', '\U{2007}', '\U{2008}', '\U{2009}', '\U{200A}',
    '\U{2028}', '\U{2029}', '\U{202F}', '\U{205F}', '\U{3000}', '\U{FEFF}'
  }

  predicate AllWhitespace(s: string) {
    forall i :: 0 <= i < |s| ==> IsJsWhitespace(s[i])
  }

  /** `s.trimStart()` */
  function TrimStart(s: string): string {
    if s != [] && IsJsWhitespace(s[0]) then TrimStart(s[1..]) else s
  }

  /** `s.trimEnd()` */
  function TrimEnd(s: string): string {
    if s != [] && IsJsWhitespace(s[|s| - 1]) then TrimEnd(s[..|s| - 1]) else s
  }

  /** `s.trim()`: whitespace removed from both ends. */
  function Trim(s: string): string {
    TrimEnd(TrimStart(s))
  }

  lemma AllWhitespaceConcat(a: string, b: string)
    requires AllWhitespace(a) && AllWhitespace(b)
    ensures AllWhitespace(a + b)
  {
    forall i | 0 <= i < |a + b| ensures IsJsWhitespace((a + b)[i]) {
      if i < |a| {
        assert (a + b)[i] == a[i];
      } else {
        assert (a + b)[i] == b[i - |a|];
      }
    }
  }

  /** `trimStart` keeps a suffix of the input and removes exactly the leading whitespace. */
  lemma {:induction false} TrimStartStrips(s: string)
    ensures var r := TrimStart(s);
            && |r| <= |s| && r == s[|s| - |r|..]
            && AllWhitespace(s[..|s| - |r|]) && (r == [] || !IsJsWhitespace(r[0]))
  {
    if s != [] && IsJsWhitespace(s[0]) {
      TrimStartStrips(s[1..]);
      var r := TrimStart(s);
      assert s[1..][|s| - 1 - |r|..] == s[|s| - |r|..];
      var lead := s[1..][..|s| - 1 - |r|];
      assert AllWhitespace([s[0]]);
      AllWhitespaceConcat([s[0]], lead);
      assert s[..|s| - |r|] == [s[0]] + lead;
    }
  }

  /** `trimEnd` keeps a prefix of the input and removes exactly the trailing whitespace. */
  lemma {:induction false} TrimEndStrips(s: string)
    ensures var r := TrimEnd(s);
            && |r| <= |s| && r == s[..|r|]
            && AllWhitespace(s[|r|..]) && (r == [] || !IsJsWhitespace(r[|r| - 1]))
  {
    if s != [] && IsJsWhitespace(s[|s| - 1]) {
      TrimEndStrips(s[..|s| - 1]);
      var r := TrimEnd(s);
      assert s[..|s| - 1][..|r|] == s[..|r|];
      var trail := s[..|s| - 1][|r|..];
      assert AllWhitespace([s[|s| - 1]]);
      AllWhitespaceConcat(trail, [s[|s| - 1]]);
      assert s[|r|..] == trail + [s[|s| - 1]];
    }
  }

  /**
   * `trim` cuts the input into leading whitespace, the result and trailing
   * whitespace: with `lead` the length of the leading whitespace, the input
   * from `lead` on is the result followed by whitespace only.
   */
  lemma TrimStrips(s: string)
    ensures |Trim(s)| <= |TrimStart(s)| <= |s|
    ensures var lead, r := |s| - |TrimStart(s)|, Trim(s);
            && s[lead..] == r + s[lead..][|r|..]
            && AllWhitespace(s[..lead]) && AllWhitespace(s[lead..][|r|..])
  {
    var t := TrimStart(s);
    TrimStartStrips(s);
    TrimEndStrips(t);
    var r := Trim(s);
    assert t == r + t[|r|..];
  }

  /** The result of `trim` neither starts nor ends with whitespace. */
  lemma TrimEnds(s: string)
    ensures var r := Trim(s);
            r == [] || (!IsJsWhitespace(r[0]) && !IsJsWhitespace(r[|r| - 1]))
  {
    var t := TrimStart(s);
    TrimStartStrips(s);
    TrimEndStrips(t);
    var r := Trim(s);
    if r != [] {
      assert r[0] == t[0];
    }
  }

  /** What `trim` keeps is one slice of the input. */
  lemma TrimIsSlice(s: string)
    ensures |Trim(s)| <= |TrimStart(s)| <= |s|
    ensures s[|s| - |TrimStart(s)|..][..|Trim(s)|] == Trim(s)
  {
    TrimStartStrips(s);
    TrimEndStrips(TrimStart(s));
  }

  /** Every character `trim` keeps comes from the input. */
  lemma TrimKeepsCharacters(s: string, c: char)
    requires c !in s
    ensures c !in Trim(s)
  {
    TrimIsSlice(s);
    var i, r := |s| - |TrimStart(s)|, Trim(s);
    forall j | 0 <= j < |r| ensures r[j] != c {
      assert r[j] == s[i..][..|r|][j] == s[i + j];
    }
  }

  /** `s.startsWith(p)` */
  predicate StartsWith(s: string, p: string) {
    p <= s
  }

  /** `s.endsWith(p)` */
  predicate EndsWith(s: string, p: string) {
    |p| <= |s| && s[|s| - |p|..] == p
  }

  /** `sep` occurs somewhere in `s`. */
  predicate Contains(s: string, sep: string)
    requires |sep| > 0
  {
    |s| >= |sep| && (s[..|sep|] == sep || Contains(s[1..], sep))
  }

  /** No non-empty proper prefix of `sep` is also a suffix of it ("; " and every
      one-character string qualify), so occurrences of `sep` cannot overlap. */
  predicate NoBorder(sep: string) {
    forall m :: 0 < m < |sep| ==> sep[m..] != sep[..|sep| - m]
  }

  /**
   * `s.split(sep)` for a non-empty separator: cut at every occurrence of `sep`,
   * scanning from the left; the empty string splits into `[""]`.
   */
  function Split(s: string, sep: string): (parts: seq<string>)
    requires |sep| > 0
    ensures |parts| >= 1
    ensures parts[0] <= s
    ensures forall i :: 0 <= i < |parts| ==> !Contains(parts[i], sep)
    decreases |s|
  {
    if |s| < |sep| then [s]
    else if s[..|sep|] == sep then [""] + Split(s[|sep|..], sep)
    else
      var rest := Split(s[1..], sep);
      assert !Contains([s[0]] + rest[0], sep) by {
        if |rest[0]| + 1 >= |sep| {
          assert ([s[0]] + rest[0])[..|sep|] == s[..|sep|];
          assert ([s[0]] + rest[0])[1..] == rest[0];
        }
      }
      [[s[0]] + rest[0]] + rest[1..]
  }

  /** `xs.join(sep)` */
  function Join(xs: seq<string>, sep: string): string {
    if xs == [] then ""
    else if |xs| == 1 then xs[0]
    else xs[0] + sep + Join(xs[1..], sep)
  }

  lemma JoinCons(x: string, xs: seq<string>, sep: string)
    requires xs != []
    ensures Join([x] + xs, sep) == x + sep + Join(xs, sep)
  {
    assert ([x] + xs)[1..] == xs;
  }

  lemma JoinSnoc(xs: seq<string>, x: string, sep: string)
    requires xs != []
    ensures Join(xs + [x], sep) == Join(xs, sep) + sep + x
  {
    if |xs| == 1 {
      assert xs + [x] == [xs[0]] + [x];
      JoinCons(xs[0], [x], sep);
    } else {
      assert xs + [x] == [xs[0]] + (xs[1..] + [x]);
      JoinCons(xs[0], xs[1..] + [x], sep);
      JoinSnoc(xs[1..], x, sep);
    }
  }

  /** Splitting and re-joining with the same separator gives the string back. */
  lemma {:induction false} SplitThenJoin(s: string, sep: string)
    requires |sep| > 0
    ensures Join(Split(s, sep), sep) == s
    decreases |s|
  {
    if |s| < |sep| {
    } else if s[..|sep|] == sep {
      SplitThenJoin(s[|sep|..], sep);
      JoinCons("", Split(s[|sep|..], sep), sep);
      assert s == s[..|sep|] + s[|sep|..];
    } else {
      var rest := Split(s[1..], sep);
      SplitThenJoin(s[1..], sep);
      if |rest| == 1 {
        assert s == [s[0]] + s[1..];
      } else {
        JoinCons([s[0]] + rest[0], rest[1..], sep);
        JoinCons(rest[0], rest[1..], sep);
        assert rest == [rest[0]] + rest[1..];
        assert s == [s[0]] + s[1..];
      }
    }
  }

  /** A string without the separator splits into itself. */
  lemma {:induction false} SplitFree(x: string, sep: string)
    requires |sep| > 0 && !Contains(x, sep)
    ensures Split(x, sep) == [x]
    decreases |x|
  {
    if |x| >= |sep| {
      SplitFree(x[1..], sep);
      assert [x[0]] + x[1..] == x;
    }
  }

  /** The first occurrence of a border-free separator after a separator-free
      prefix is the one right after that prefix. */
  lemma {:induction false} SplitAfterFree(x: string, sep: string, rest: string)
    requires |sep| > 0 && NoBorder(sep) && !Contains(x, sep)
    ensures Split(x + sep + rest, sep) == [x] + Split(rest, sep)
    decreases |x|
  {
    var s := x + sep + rest;
    if x == [] {
      assert s[..|sep|] == sep && s[|sep|..] == rest;
    } else {
      assert s[..|sep|] != sep by {
        if |x| >= |sep| {
          assert s[..|sep|] == x[..|sep|];
        } else {
          var m := |x|;
          assert s[..|sep|] == x + sep[..|sep| - m];
          assert sep[m..] != sep[..|sep| - m];
        }
      }
      assert !Contains(x[1..], sep);
      SplitAfterFree(x[1..], sep, rest);
      assert s[1..] == x[1..] + sep + rest;
      assert [x[0]] + x[1..] == x;
    }
  }

  /** Joining separator-free pieces and splitting again gives the pieces back. */
  lemma {:induction false} JoinThenSplit(ws: seq<string>, sep: string)
    requires |sep| > 0 && NoBorder(sep) && ws != []
    requires forall i :: 0 <= i < |ws| ==> !Contains(ws[i], sep)
    ensures Split(Join(ws, sep), sep) == ws
  {
    if |ws| == 1 {
      SplitFree(ws[0], sep);
    } else {
      JoinCons(ws[0], ws[1..], sep);
      JoinThenSplit(ws[1..], sep);
      SplitAfterFree(ws[0], sep, Join(ws[1..], sep));
      assert ws == [ws[0]] + ws[1..];
    }
  }

  /** The text before the first `c`, or all of `s` when there is none. */
  function BeforeFirst(s: string, c: char): string {
    if s == [] || s[0] == c then [] else [s[0]] + BeforeFirst(s[1..], c)
  }

  /**
   * `BeforeFirst` is the longest prefix free of `c`: it stops just before
   * the first `c`, or takes the whole input when there is none.
   */
  lemma {:induction false} BeforeFirstFacts(s: string, c: char)
    ensures var r := BeforeFirst(s, c);
            && r <= s && c !in r
            && (c in s ==> |r| < |s| && s[|r|] == c)
            && (c !in s ==> r == s)
  {
    if s != [] && s[0] != c {
      BeforeFirstFacts(s[1..], c);
      assert c in s ==> c in s[1..];
    }
  }

  /** `BeforeFirst` is `s.split(c)[0]`. */
  lemma {:induction false} BeforeFirstIsFirstPiece(s: string, c: char)
    ensures Split(s, [c])[0] == BeforeFirst(s, c)
    decreases |s|
  {
    if |s| >= 1 && s[..1] != [c] {
      BeforeFirstIsFirstPiece(s[1..], c);
    }
  }

  lemma {:induction false} ContainsAt(s: string, sep: string, i: nat)
    requires |sep| > 0 && i + |sep| <= |s| && s[i..i + |sep|] == sep
    ensures Contains(s, sep)
    decreases i
  {
    if i > 0 {
      assert s[1..][i - 1..i - 1 + |sep|] == s[i..i + |sep|];
      ContainsAt(s[1..], sep, i - 1);
    }
  }

  /** An occurrence of `sep` puts its first character into the string. */
  lemma {:induction false} ContainsHasHead(s: string, sep: string)
    requires |sep| > 0 && Contains(s, sep)
    ensures sep[0] in s
    decreases |s|
  {
    if s[..|sep|] == sep {
      assert s[0] == sep[0];
    } else {
      ContainsHasHead(s[1..], sep);
    }
  }
}
