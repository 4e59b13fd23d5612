/**
 * The loops of `updateCookies` (net.ts:109-138), written as the client runs
 * them: two `forEach` passes that `set` into a fresh `Map`, then the
 * accumulator that renders the map into a `Cookie` header. Each loop is
 * proved to compute the function of module Cookies that specifies it.
 */
module CookieUpdate {
  import opened JsStrings
  import opened JsMaps
  import opened Cookies

  /** `c.split('=')[0].trim()`, as the client writes it, is the name `KeyOf` gives. */
  function NameOf(c: string): (k: string)
    ensures k == KeyOf(c)
  {
    BeforeFirstIsFirstPiece(c, '=');
    Trim(Split(c, "=")[0])
  }

  /** `cookie.split(';')[0].trim()`, as the client writes it, is the part `PairOf` gives. */
  function NameValueOf(cookie: string): (c: string)
    ensures c == PairOf(cookie)
  {
    BeforeFirstIsFirstPiece(cookie, ';');
    Trim(Split(cookie, ";")[0])
  }

  /**
   * The first `forEach` (net.ts:112-117): split the old header on "; " and
   * store each piece under its name.
   */
  method ParseCookieHeader(cookies: string) returns (jar: Jar)
    ensures jar == ParseHeader(cookies)
  {
    jar := Empty();
    var parts := Split(cookies, Separator);
    ghost var kvs := Keyed(parts);
    var i := 0;
    while i < |parts|
      invariant 0 <= i <= |parts|
      invariant jar == SetAll(Empty(), kvs[..i])
    {
      SetAllStep(Empty(), kvs, i);
      var c := parts[i];
      var k := NameOf(c);
      jar := jar.Set(k, c);
      i := i + 1;
    }
    assert kvs[..i] == kvs;
  }

  /**
   * The second `forEach` (net.ts:119-126): store the `name=value` part of
   * each Set-Cookie value under its name.
   */
  method ApplySetCookieValues(start: Jar, setCookies: seq<string>) returns (jar: Jar)
    requires start.Valid()
    ensures jar == ApplySetCookies(start, setCookies)
  {
    jar := start;
    ghost var kvs := Keyed(Pairs(setCookies));
    var j := 0;
    while j < |setCookies|
      invariant 0 <= j <= |setCookies|
      invariant jar == SetAll(start, kvs[..j])
    {
      SetAllStep(start, kvs, j);
      var c := NameValueOf(setCookies[j]);
      var k := NameOf(c);
      jar := jar.Set(k, c);
      j := j + 1;
    }
    assert kvs[..j] == kvs;
  }

  /** With "; " between joined pieces, one more value extends the accumulator as the loop does. */
  lemma {:induction false} DropLeadingEmptySnoc(vs: seq<string>, v: string)
    ensures DropLeadingEmpty(vs) == [] ==> DropLeadingEmpty(vs + [v]) == (if v == "" then [] else [v])
    ensures DropLeadingEmpty(vs) != [] ==> DropLeadingEmpty(vs + [v]) == DropLeadingEmpty(vs) + [v]
  {
    if vs != [] && vs[0] == "" {
      assert (vs + [v])[1..] == vs[1..] + [v];
      DropLeadingEmptySnoc(vs[1..], v);
    }
  }

  /** A join of pieces starting with a non-empty piece is not empty. */
  lemma {:induction false} JoinStartsWithHead(ws: seq<string>)
    requires ws != []
    ensures ws[0] <= Join(ws, Separator)
  {
    if |ws| > 1 {
      JoinCons(ws[0], ws[1..], Separator);
      assert ws == [ws[0]] + ws[1..];
    }
  }

  /** Appending one value to joined pieces that start with a non-empty piece (or are none). */
  lemma JoinAccumulate(ws: seq<string>, v: string, next: seq<string>)
    requires ws == [] || ws[0] != ""
    requires ws == [] ==> next == (if v == "" then [] else [v])
    requires ws != [] ==> next == ws + [v]
    ensures var acc := Join(ws, Separator);
            Join(next, Separator) == (if acc != "" then acc + Separator else "") + v
  {
    if ws == [] {
      assert Join(ws, Separator) == "";
      if v == "" {
        assert Join(next, Separator) == "" == "" + v;
      } else {
        assert Join(next, Separator) == v == "" + v;
      }
    } else {
      JoinSnoc(ws, v, Separator);
      JoinStartsWithHead(ws);
      assert Join(ws, Separator) != "" by { assert ws[0] != ""; }
    }
  }

  /** One pass of `if (cookies != '') cookies += '; '; cookies += v`. */
  lemma AccumulateStep(vs: seq<string>, v: string)
    ensures var acc := Join(DropLeadingEmpty(vs), Separator);
            Join(DropLeadingEmpty(vs + [v]), Separator) == (if acc != "" then acc + Separator else "") + v
  {
    DropLeadingEmptySnoc(vs, v);
    JoinAccumulate(DropLeadingEmpty(vs), v, DropLeadingEmpty(vs + [v]));
  }

  lemma SerializeStep(jar: Jar, i: nat)
    requires jar.Valid() && i < |jar.order|
    ensures var acc := Join(DropLeadingEmpty(ValuesOf(jar.order[..i], jar.entries)), Separator);
            Join(DropLeadingEmpty(ValuesOf(jar.order[..i + 1], jar.entries)), Separator)
              == (if acc != "" then acc + Separator else "") + jar.entries[jar.order[i]]
  {
    assert jar.order[..i + 1][..i] == jar.order[..i];
    assert ValuesOf(jar.order[..i + 1], jar.entries)
        == ValuesOf(jar.order[..i], jar.entries) + [jar.entries[jar.order[i]]];
    AccumulateStep(ValuesOf(jar.order[..i], jar.entries), jar.entries[jar.order[i]]);
  }

  /**
   * The accumulator that renders a jar into a `Cookie` header
   * (net.ts:128-135): it visits the values in insertion order and puts "; "
   * before each one once something has been written.
   */
  method SerializeJar(jar: Jar) returns (header: string)
    requires jar.Valid()
    ensures header == Serialize(jar)
  {
    header := "";
    var i := 0;
    while i < |jar.order|
      invariant 0 <= i <= |jar.order|
      invariant header == Join(DropLeadingEmpty(ValuesOf(jar.order[..i], jar.entries)), Separator)
    {
      var v := jar.entries[jar.order[i]];
      SerializeStep(jar, i);
      if header != "" {
        header := header + Separator;
      }
      header := header + v;
      i := i + 1;
    }
    assert jar.order[..i] == jar.order;
  }

  /**
   * The same accumulator as a recursion over the keys still to visit:
   * each value is appended, after "; " once something has been written.
   */
  function Render(order: seq<string>, entries: map<string, string>, acc: string): string
    requires forall k :: k in order ==> k in entries
  {
    if order == [] then acc
    else Render(order[1..], entries, (if acc != "" then acc + Separator else "") + entries[order[0]])
  }

  /** The header the accumulator renders a jar into. */
  function Rendered(jar: Jar): string
    requires jar.Valid()
  {
    Render(jar.order, jar.entries, "")
  }

  /** Rendering the rest of the keys onto the header of the first `i` gives the header of the whole jar. */
  lemma {:induction false} RenderFrom(jar: Jar, i: nat)
    requires jar.Valid() && i <= |jar.order|
    ensures Render(jar.order[i..], jar.entries, Join(DropLeadingEmpty(ValuesOf(jar.order[..i], jar.entries)), Separator))
         == Serialize(jar)
    decreases |jar.order| - i
  {
    if i == |jar.order| {
      assert jar.order[..i] == jar.order;
    } else {
      SerializeStep(jar, i);
      assert jar.order[i..][1..] == jar.order[i + 1..];
      RenderFrom(jar, i + 1);
    }
  }

  /** The accumulator computes `Serialize`: the values joined by "; " after the leading empty ones. */
  lemma RenderedIsSerialize(jar: Jar)
    requires jar.Valid()
    ensures Rendered(jar) == Serialize(jar)
  {
    RenderFrom(jar, 0);
    assert jar.order[0..] == jar.order;
  }

  /**
   * `updateCookies(cookies, setCookies)` (net.ts:109-138): the merged jar,
   * every entry of it under its own name, and the header it renders into.
   */
  method UpdateCookies(cookies: string, setCookies: seq<string>) returns (header: string, jar: Jar)
    ensures jar == MergedJar(cookies, setCookies) && WellKeyed(jar)
    ensures header == Serialize(jar)
  {
    jar := ParseCookieHeader(cookies);
    jar := ApplySetCookieValues(jar, setCookies);
    header := SerializeJar(jar);
    MergedWellKeyed(cookies, setCookies);
  }
}
