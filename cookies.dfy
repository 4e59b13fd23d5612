/**
 * The cookie jar of net.ts: `updateCookies` merges a `Cookie` header with the
 * `Set-Cookie` values of a response, keyed by cookie name, and renders the
 * result back into a header with the accumulator loop the client uses
 * everywhere it builds a `Cookie` header. This module holds the functions that
 * say what the merge computes and the lemmas about them; the loops themselves
 * are in module CookieUpdate.
 */
module Cookies {
  import opened Wrappers
  import opened JsStrings
  import opened JsMaps

  /** Cookie name to its `name=value` text, in first-insertion order. */
  type Jar = JsMap<string, string>

  const Separator: string := "; "

  /** `c.split('=')[0].trim()`: the name under which a `name=value` text is stored. */
  function KeyOf(c: string): string {
    Trim(BeforeFirst(c, '='))
  }

  /** `cookie.split(';')[0].trim()`: the `name=value` part of one Set-Cookie value. */
  function PairOf(setCookie: string): string {
    Trim(BeforeFirst(setCookie, ';'))
  }

  /** The `name=value` part of a Set-Cookie value holds no ';', so no "; " either. */
  lemma PairOfFree(setCookie: string)
    ensures ';' !in PairOf(setCookie)
    ensures !Contains(PairOf(setCookie), Separator)
  {
    var c := PairOf(setCookie);
    BeforeFirstFacts(setCookie, ';');
    TrimKeepsCharacters(BeforeFirst(setCookie, ';'), ';');
    if Contains(c, Separator) {
      ContainsHasHead(c, Separator);
    }
  }

  /** The empty text is stored under the empty name. */
  lemma KeyOfEmpty()
    ensures KeyOf("") == ""
  {
    assert BeforeFirst("", '=') == "";
    assert TrimStart("") == "";
  }

  lemma SeparatorHasNoBorder()
    ensures NoBorder(Separator)
  {
    forall m | 0 < m < |Separator| ensures Separator[m..] != Separator[..|Separator| - m] {
      assert m == 1;
      assert Separator[1..][0] == ' ' && Separator[..1][0] == ';';
    }
  }

  /** Every entry is stored under its own name and holds no "; ". */
  ghost predicate WellKeyed(jar: Jar) {
    && jar.Valid()
    && (forall k :: k in jar.entries ==> KeyOf(jar.entries[k]) == k)
    && (forall k :: k in jar.entries ==> !Contains(jar.entries[k], Separator))
  }

  // ---------------------------------------------------------------------------
  // What `updateCookies` computes

  /** Each text paired with the name it is stored under. */
  function Keyed(texts: seq<string>): (kvs: seq<(string, string)>)
    ensures |kvs| == |texts|
    ensures forall i :: 0 <= i < |texts| ==> kvs[i] == (KeyOf(texts[i]), texts[i])
  {
    seq(|texts|, i requires 0 <= i < |texts| => (KeyOf(texts[i]), texts[i]))
  }

  /** The `name=value` part of each Set-Cookie value. */
  function Pairs(setCookies: seq<string>): (cs: seq<string>)
    ensures |cs| == |setCookies|
    ensures forall i :: 0 <= i < |setCookies| ==> cs[i] == PairOf(setCookies[i])
  {
    seq(|setCookies|, i requires 0 <= i < |setCookies| => PairOf(setCookies[i]))
  }

  /** The jar a `Cookie` header holds: each "; "-separated piece under its name, left to right (net.ts:112-117). */
  function ParseHeader(header: string): (jar: Jar)
    ensures jar.Valid()
  {
    SetAll(Empty(), Keyed(Split(header, Separator)))
  }

  /** Store the `name=value` part of each Set-Cookie value under its name, left to right (net.ts:119-126). */
  function ApplySetCookies(jar: Jar, setCookies: seq<string>): (r: Jar)
    requires jar.Valid()
    ensures r.Valid()
  {
    SetAll(jar, Keyed(Pairs(setCookies)))
  }

  /** The jar `updateCookies(cookies, setCookies)` returns as `cookieMap`. */
  function MergedJar(cookies: string, setCookies: seq<string>): (jar: Jar)
    ensures jar.Valid()
  {
    ApplySetCookies(ParseHeader(cookies), setCookies)
  }

  /** The `name=value` part of the last Set-Cookie value stored under `k`, if any. */
  function LastSetFor(setCookies: seq<string>, k: string): Option<string> {
    LastFor(Keyed(Pairs(setCookies)), k)
  }

  /**
   * A name some Set-Cookie value sets holds the `name=value` part of the
   * last such value; every other name keeps what the old header gave it.
   */
  lemma MergeGet(cookies: string, setCookies: seq<string>, k: string)
    ensures MergedJar(cookies, setCookies).Get(k)
         == if LastSetFor(setCookies, k).Some? then LastSetFor(setCookies, k) else ParseHeader(cookies).Get(k)
  {
    SetAllGet(ParseHeader(cookies), Keyed(Pairs(setCookies)), k);
  }

  /** The names of the old header keep their positions, and new names follow them. */
  lemma MergeKeepsOrder(cookies: string, setCookies: seq<string>)
    ensures ParseHeader(cookies).order <= MergedJar(cookies, setCookies).order
  {
    SetAllOrder(ParseHeader(cookies), Keyed(Pairs(setCookies)));
  }

  /** The values with their leading empty strings removed. */
  function DropLeadingEmpty(vs: seq<string>): (r: seq<string>)
    ensures r == [] || r[0] != ""
    ensures |r| <= |vs| && r == vs[|vs| - |r|..]
  {
    if vs != [] && vs[0] == "" then DropLeadingEmpty(vs[1..]) else vs
  }

  lemma DropLeadingEmptyHead(vs: seq<string>)
    requires vs != [] && vs[0] == ""
    ensures DropLeadingEmpty(vs) == DropLeadingEmpty(vs[1..])
  {
  }

  /**
   * The `Cookie` header the accumulator loop `if (cookies != '') cookies += '; ';
   * cookies += v` builds from a jar: the values joined by "; ", where empty
   * values before the first non-empty one contribute nothing, not even a
   * separator.
   */
  function Serialize(jar: Jar): string
    requires jar.Valid()
  {
    Join(DropLeadingEmpty(jar.Values()), Separator)
  }

  // ---------------------------------------------------------------------------
  // Every entry of a jar built this way sits under its own name

  /** Storing "; "-free texts under their names keeps every entry under its own name. */
  lemma SetAllWellKeyed(jar: Jar, texts: seq<string>)
    requires WellKeyed(jar)
    requires forall i :: 0 <= i < |texts| ==> !Contains(texts[i], Separator)
    ensures WellKeyed(SetAll(jar, Keyed(texts)))
  {
    var kvs := Keyed(texts);
    var r := SetAll(jar, kvs);
    forall k | k in r.entries
      ensures KeyOf(r.entries[k]) == k && !Contains(r.entries[k], Separator)
    {
      SetAllGet(jar, kvs, k);
      if LastFor(kvs, k).Some? {
        var i := LastForIndex(kvs, k);
        assert kvs[i] == (KeyOf(texts[i]), texts[i]);
      } else {
        assert r.entries[k] == jar.entries[k];
      }
    }
  }

  lemma ParseHeaderWellKeyed(header: string)
    ensures WellKeyed(ParseHeader(header))
  {
    SetAllWellKeyed(Empty(), Split(header, Separator));
  }

  /** Every cookie of the merged jar is stored under its own name. */
  lemma MergedWellKeyed(cookies: string, setCookies: seq<string>)
    ensures WellKeyed(MergedJar(cookies, setCookies))
  {
    ParseHeaderWellKeyed(cookies);
    var cs := Pairs(setCookies);
    forall i | 0 <= i < |cs| ensures !Contains(cs[i], Separator) {
      PairOfFree(setCookies[i]);
    }
    SetAllWellKeyed(ParseHeader(cookies), cs);
  }

  // ---------------------------------------------------------------------------
  // Reading back the header a jar renders into

  /** The jar without its first entry when that entry's value is empty. */
  function DropEmptyHead(jar: Jar): (d: Jar)
    requires jar.Valid()
    ensures d.Valid()
  {
    if jar.order != [] && jar.entries[jar.order[0]] == "" then DropFirst(jar) else jar
  }

  /** Only the empty name holds the empty value. */
  ghost predicate EmptyOnlyUnnamed(jar: Jar) {
    forall k :: k in jar.entries && jar.entries[k] == "" ==> k == ""
  }

  /** In a well-keyed jar only the empty name can hold the empty value. */
  lemma WellKeyedEmptyOnlyUnnamed(jar: Jar)
    requires WellKeyed(jar)
    ensures EmptyOnlyUnnamed(jar)
  {
    KeyOfEmpty();
  }

  /** Dropping an entry keeps the others under their own names. */
  lemma DropEmptyHeadWellKeyed(jar: Jar)
    requires WellKeyed(jar)
    ensures WellKeyed(DropEmptyHead(jar))
  {
    var d := DropEmptyHead(jar);
    assert forall k :: k in d.entries ==> k in jar.entries && d.entries[k] == jar.entries[k];
  }

  /**
   * The values the accumulator loop joins are those of the jar without an
   * empty first entry, and what remains starts with a non-empty value.
   */
  lemma SerializedValues(jar: Jar)
    requires jar.Valid() && EmptyOnlyUnnamed(jar)
    ensures var d := DropEmptyHead(jar);
            && DropLeadingEmpty(jar.Values()) == d.Values()
            && (d.order == [] || d.entries[d.order[0]] != "")
  {
    var vs, d := jar.Values(), DropEmptyHead(jar);
    if jar.order != [] && jar.entries[jar.order[0]] == "" {
      DropFirstValues(jar);
      if d.order != [] {
        assert d.order[0] == jar.order[1] != jar.order[0];
      }
      DropLeadingEmptyHead(vs);
    }
  }

  /** Parsing the values of a well-keyed jar, in order, gives the jar back. */
  lemma ParseValues(jar: Jar)
    requires WellKeyed(jar)
    ensures SetAll(Empty(), Keyed(jar.Values())) == jar
  {
    assert Keyed(jar.Values()) == Entries(jar);
    SetAllEntries(jar);
  }

  /** The jar `ParseHeader("")` holds: the empty name with the empty value. */
  function EmptyNameJar(): (jar: Jar)
    ensures jar.Valid() && jar.order == [""] && jar.Get("") == Some("")
  {
    JsMap([""], map["" := ""])
  }

  /** `""` splits into one empty piece, stored under the empty name. */
  lemma ParseEmptyHeader()
    ensures ParseHeader("") == EmptyNameJar()
  {
    assert Split("", Separator) == [""];
    KeyOfEmpty();
    assert Keyed([""]) == [("", "")];
    SetAllStep(Empty(), [("", "")], 0);
    assert [("", "")][..1] == [("", "")];
  }

  /**
   * Reading back the header a well-keyed jar renders into gives the jar
   * without an empty first entry; a jar with nothing else renders into "",
   * which reads back as the empty name with the empty value.
   */
  lemma ReparseSerialized(jar: Jar)
    requires WellKeyed(jar)
    ensures var d := DropEmptyHead(jar);
            ParseHeader(Serialize(jar)) == if d.order == [] then EmptyNameJar() else d
  {
    var d := DropEmptyHead(jar);
    WellKeyedEmptyOnlyUnnamed(jar);
    SerializedValues(jar);
    DropEmptyHeadWellKeyed(jar);
    var ws := d.Values();
    if ws == [] {
      ParseEmptyHeader();
    } else {
      SeparatorHasNoBorder();
      JoinThenSplit(ws, Separator);
      ParseValues(d);
    }
  }

  // ---------------------------------------------------------------------------
  // Merging the same Set-Cookie values twice

  /**
   * A name that some Set-Cookie value sets to a non-empty text is still there
   * once the empty first entry is dropped.
   */
  lemma SetNameSurvives(cookies: string, setCookies: seq<string>, k: string)
    requires forall i :: 0 <= i < |setCookies| ==> PairOf(setCookies[i]) != ""
    requires LastSetFor(setCookies, k).Some?
    ensures var jar := MergedJar(cookies, setCookies);
            DropEmptyHead(jar).order != [] && DropEmptyHead(jar).Get(k) == LastSetFor(setCookies, k)
  {
    var jar, kvs := MergedJar(cookies, setCookies), Keyed(Pairs(setCookies));
    var i := LastForIndex(kvs, k);
    SetAllGet(ParseHeader(cookies), kvs, k);
    assert jar.Get(k) == Some(PairOf(setCookies[i]));
    assert k in jar.order;
    if jar.order != [] && jar.entries[jar.order[0]] == "" {
      assert k in jar.order[1..];
    }
  }

  /** Rendering the jar read back from a rendered header gives that header again. */
  lemma SerializeReparse(jar: Jar)
    requires WellKeyed(jar)
    ensures Serialize(ParseHeader(Serialize(jar))) == Serialize(jar)
  {
    var d := DropEmptyHead(jar);
    WellKeyedEmptyOnlyUnnamed(jar);
    SerializedValues(jar);
    ReparseSerialized(jar);
    if d.order == [] {
      assert EmptyNameJar().Values() == [""];
    }
  }

  /**
   * Once a merge has rendered its header, the same Set-Cookie values change
   * nothing in the jar that header reads back as, provided none of them has
   * an empty `name=value` part.
   */
  lemma MergeAgainChangesNothing(cookies: string, setCookies: seq<string>)
    requires forall i :: 0 <= i < |setCookies| ==> PairOf(setCookies[i]) != ""
    ensures var again := ParseHeader(Serialize(MergedJar(cookies, setCookies)));
            ApplySetCookies(again, setCookies) == again
  {
    var jar := MergedJar(cookies, setCookies);
    MergedWellKeyed(cookies, setCookies);
    ReparseSerialized(jar);
    var again := ParseHeader(Serialize(jar));
    forall k | LastSetFor(setCookies, k).Some?
      ensures again.Get(k) == LastSetFor(setCookies, k)
    {
      SetNameSurvives(cookies, setCookies, k);
    }
    SetAllFixpoint(again, Keyed(Pairs(setCookies)));
  }

  /**
   * Merging the same Set-Cookie values into the header a merge produced gives
   * that header again, provided no Set-Cookie value has an empty `name=value`
   * part (net.ts:109-138).
   */
  lemma HeaderIdempotent(cookies: string, setCookies: seq<string>)
    requires forall i :: 0 <= i < |setCookies| ==> PairOf(setCookies[i]) != ""
    ensures var header := Serialize(MergedJar(cookies, setCookies));
            Serialize(MergedJar(header, setCookies)) == header
  {
    MergedWellKeyed(cookies, setCookies);
    SerializeReparse(MergedJar(cookies, setCookies));
    MergeAgainChangesNothing(cookies, setCookies);
  }
}

/**
 * Why `Cookies.HeaderIdempotent` asks for non-empty `name=value` parts: a
 * Set-Cookie value with an empty one is stored under the empty name, and where
 * that entry lands decides whether it leaves a trailing "; " behind.
 */
module CookieExamples {
  import opened Wrappers
  import opened JsStrings
  import opened JsMaps
  import opened Cookies

  /** A cookie named "a" with no value, then a Set-Cookie value with an empty `name=value` part. */
  const Overwriting: seq<string> := ["a", ""]

  lemma PairOfExample()
    ensures PairOf("a") == "a" && PairOf("") == ""
  {
    assert BeforeFirst("a", ';') == "a";
    assert TrimStart("a") == "a" && TrimEnd("a") == "a";
    assert BeforeFirst("", ';') == "";
    assert TrimStart("") == "";
  }

  lemma KeyOfExample()
    ensures KeyOf("a") == "a"
  {
    assert BeforeFirst("a", '=') == "a";
    assert TrimStart("a") == "a" && TrimEnd("a") == "a";
  }

  lemma OverwritingPairs()
    ensures Keyed(Pairs(Overwriting)) == [("a", "a"), ("", "")]
  {
    PairOfExample();
    KeyOfExample();
    KeyOfEmpty();
    assert Pairs(Overwriting) == ["a", ""];
  }

  /** The jar the header "a" reads back as. */
  function JarA(): (jar: Jar)
    ensures jar.Valid() && jar.order == ["a"] && jar.Get("a") == Some("a") && jar.Get("") == None
  {
    JsMap(["a"], map["a" := "a"])
  }

  lemma ParseA()
    ensures ParseHeader("a") == JarA()
  {
    assert Split("a", Separator) == ["a"];
    KeyOfExample();
    assert Keyed(["a"]) == [("a", "a")];
    SetAllStep(Empty(), [("a", "a")], 0);
    assert [("a", "a")][..1] == [("a", "a")];
  }

  /** `SetAll` over two pairs is two `set`s. */
  lemma SetTwo(m: Jar, p: (string, string), q: (string, string))
    requires m.Valid()
    ensures SetAll(m, [p, q]) == m.Set(p.0, p.1).Set(q.0, q.1)
  {
    SetAllStep(m, [p, q], 0);
    SetAllStep(m, [p, q], 1);
    assert [p, q][..2] == [p, q];
    assert [p, q][..0] == [];
  }

  /** The values of a two-entry jar. */
  lemma ValuesTwo(m: Jar, k1: string, k2: string)
    requires m.Valid() && m.order == [k1, k2]
    ensures m.Values() == [m.entries[k1], m.entries[k2]]
  {
  }

  /** `["a", ""]` sets "a" to "a", then the empty name to "". */
  lemma MergeSteps(cookies: string, setCookies: seq<string>)
    requires setCookies == Overwriting
    ensures var m := ParseHeader(cookies);
            MergedJar(cookies, setCookies) == m.Set("a", "a").Set("", "")
  {
    OverwritingPairs();
    SetTwo(ParseHeader(cookies), ("a", "a"), ("", ""));
  }

  lemma FirstMergeValues()
    ensures EmptyNameJar().Set("a", "a").Set("", "").Values() == ["", "a"]
  {
    var once := EmptyNameJar().Set("a", "a");
    ValuesTwo(once.Set("", ""), "", "a");
  }

  lemma SecondMergeValues()
    ensures JarA().Set("a", "a").Set("", "").Values() == ["a", ""]
  {
    var once := JarA().Set("a", "a");
    assert once.order == ["a"];
    var twice := once.Set("", "");
    assert twice.order == ["a", ""];
    ValuesTwo(twice, "a", "");
  }

  lemma FirstMerge(cookies: string, setCookies: seq<string>)
    requires cookies == "" && setCookies == Overwriting
    ensures MergedJar(cookies, setCookies).Values() == ["", "a"]
  {
    ParseEmptyHeader();
    MergeSteps(cookies, setCookies);
    FirstMergeValues();
  }

  lemma SecondMerge(cookies: string, setCookies: seq<string>)
    requires cookies == "a" && setCookies == Overwriting
    ensures MergedJar(cookies, setCookies).Values() == ["a", ""]
  {
    ParseA();
    MergeSteps(cookies, setCookies);
    SecondMergeValues();
  }

  lemma FirstHeader(jar: Jar)
    requires jar.Valid() && jar.Values() == ["", "a"]
    ensures Serialize(jar) == "a"
  {
    DropLeadingEmptyHead(["", "a"]);
    assert ["", "a"][1..] == ["a"];
  }

  lemma SecondHeader(jar: Jar)
    requires jar.Valid() && jar.Values() == ["a", ""]
    ensures Serialize(jar) == "a; "
  {
    var vs: seq<string> := ["a", ""];
    assert DropLeadingEmpty(vs) == vs;
    assert Join(vs, Separator) == vs[0] + Separator + Join(vs[1..], Separator);
    assert vs[1..] == [""];
  }

  /**
   * From an empty header, `["a", ""]` renders as "a" (the empty entry comes
   * first and leaves no separator); merging the same values into "a"
   * renders as "a; " (now the empty entry comes last).
   */
  lemma HeaderNotIdempotentWithEmptyPair(cookies: string, setCookies: seq<string>)
    requires cookies == "" && setCookies == Overwriting
    ensures var header := Serialize(MergedJar(cookies, setCookies));
            && header == "a"
            && Serialize(MergedJar(header, setCookies)) == "a; " != header
  {
    FirstMerge(cookies, setCookies);
    FirstHeader(MergedJar(cookies, setCookies));
    var header := Serialize(MergedJar(cookies, setCookies));
    SecondMerge(header, setCookies);
    SecondHeader(MergedJar(header, setCookies));
  }
}
