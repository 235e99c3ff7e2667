/**
 * Properties of the ASCII grammar as a whole, for any layout of the words
 * into lines. A facet is written as 21 words; a file whose body is such
 * facets and then `endsolid` parses to exactly those triangles; a file cut
 * off inside a facet's numbers fails without a diagnostic; a number that
 * does not convert costs only its own facet; a stray word between facets is
 * reported but does not make Parse fail; an empty file and a bad header are
 * reported as such.
 */
module GrammarFacts {
  import opened Wrappers
  import opened Geometry
  import opened Keywords
  import opened Lexer
  import opened Diagnostics
  import opened Grammar

  /** The number of words of one facet. */
  const FACET_WORDS: nat := 21

  /** The words of tokens i to i + 2 convert to the coordinates of p. */
  predicate PointReads(ts: seq<Token>, i: nat, p: Vec3, parse: string -> Option<real>) {
    i + 3 <= |ts| &&
    parse(ts[i].word) == Some(p.x) && parse(ts[i + 1].word) == Some(p.y) && parse(ts[i + 2].word) == Some(p.z)
  }

  /** Word k of a facet is one of its numbers. */
  predicate IsNumberWord(k: nat) {
    2 <= k <= 4 || 8 <= k <= 10 || 12 <= k <= 14 || 16 <= k <= 18
  }

  /** The keyword that word k of a facet spells, when it is not a number. */
  function FacetKeyword(k: nat): Keyword {
    if k == 0 then Facet else if k == 1 then Normal else if k == 5 then Outer else if k == 6 then Loop
    else if k == 19 then Endloop else if k == 20 then Endfacet else Vertex
  }

  /**
   * ts opens with the 21 words of a facet for t, on whatever lines: `facet
   * normal P outer loop vertex P vertex P vertex P endloop endfacet`, where
   * the normal and the three vertices of t are what the numbers convert to.
   */
  predicate FacetReads(ts: seq<Token>, t: Triangle, parse: string -> Option<real>) {
    |ts| >= FACET_WORDS &&
    (forall k :: 0 <= k < FACET_WORDS && !IsNumberWord(k) ==> ts[k].word == Text(FacetKeyword(k))) &&
    PointReads(ts, 2, t.normal, parse) && PointReads(ts, 8, t.v0, parse) &&
    PointReads(ts, 12, t.v1, parse) && PointReads(ts, 16, t.v2, parse)
  }

  /** ts opens with the facets of tris, one after the other. */
  predicate FacetsRead(ts: seq<Token>, tris: seq<Triangle>, parse: string -> Option<real>)
    decreases |tris|
  {
    tris == [] || (FacetReads(ts, tris[0], parse) && FacetsRead(ts[FACET_WORDS..], tris[1..], parse))
  }

  /** The word of token n is `endsolid`. */
  predicate EndsolidAt(ts: seq<Token>, n: nat) {
    n < |ts| && ts[n].word == Text(Endsolid)
  }

  /** The word at which item stage of the facet grammar starts. */
  function Offset(stage: nat): (n: nat)
    requires stage <= FACET_ITEMS
    ensures n <= FACET_WORDS && (stage < FACET_ITEMS ==> n < FACET_WORDS)
  {
    match stage
    case 0 => 0
    case 1 => 1
    case 2 => 2
    case 3 => 5
    case 4 => 6
    case 5 => 7
    case 6 => 8
    case 7 => 11
    case 8 => 12
    case 9 => 15
    case 10 => 16
    case 11 => 19
    case 12 => 20
    case _ => 21
  }

  /** The point of t stored into slot: 0 is the normal, 1 to 3 the vertices. */
  function Corner(t: Triangle, slot: nat): Vec3 {
    if slot == 0 then t.normal else if slot == 1 then t.v0 else if slot == 2 then t.v1 else t.v2
  }

  /** The triangle parseFacet holds before item stage when reading a facet for t. */
  function Stored(t: Triangle, stage: nat): Triangle {
    var o := ZERO_TRIANGLE.normal;
    Triangle(if stage > 2 then t.normal else o, if stage > 6 then t.v0 else o,
             if stage > 8 then t.v1 else o, if stage > 10 then t.v2 else o)
  }

  /** Item stage of the grammar sits at word Offset(stage) of a facet for t. */
  lemma {:induction false} ItemLayout(stage: nat, fs: seq<Token>, t: Triangle, parse: string -> Option<real>)
    requires stage < FACET_ITEMS && FacetReads(fs, t, parse)
    ensures ItemAt(stage).Word? ==>
              fs[Offset(stage)].word == Text(ItemAt(stage).k) &&
              Offset(stage + 1) == Offset(stage) + 1 && Stored(t, stage + 1) == Stored(t, stage)
    ensures ItemAt(stage).Coordinates? ==>
              var slot := ItemAt(stage).slot;
              PointReads(fs, Offset(stage), Corner(t, slot), parse) &&
              Offset(stage + 1) == Offset(stage) + 3 && Stored(t, stage + 1) == Store(Stored(t, stage), slot, Corner(t, slot))
  {
  }

  /** A keyword item over word j, which spells it, moves on to word j + 1. */
  lemma {:induction false} WordAt(stage: nat, k: Keyword, toks: seq<Token>, j: nat, u: Triangle, eofLine: nat, parse: string -> Option<real>)
    requires stage < FACET_ITEMS && ItemAt(stage) == Word(k)
    requires j < |toks| && toks[j].word == Text(k)
    ensures FacetFrom(stage, toks[j..], u, eofLine, parse) == FacetFrom(stage + 1, toks[j + 1..], u, eofLine, parse)
  {
    WordStep(stage, k, toks[j..], u, eofLine, parse);
    assert toks[j..][1..] == toks[j + 1..];
  }

  /** A point item over words j to j + 2, which convert to p, stores p and moves on to word j + 3. */
  lemma {:induction false} PointAt(stage: nat, slot: nat, toks: seq<Token>, j: nat, p: Vec3, u: Triangle, eofLine: nat,
                parse: string -> Option<real>)
    requires stage < FACET_ITEMS && ItemAt(stage) == Coordinates(slot)
    requires PointReads(toks, j, p, parse)
    ensures FacetFrom(stage, toks[j..], u, eofLine, parse) ==
            FacetFrom(stage + 1, toks[j + 3..], Store(u, slot, p), eofLine, parse)
  {
    var ts := toks[j..];
    PointStep(stage, slot, ts, u, eofLine, parse);
    var ts1, ts2 := ts[1..], ts[2..];
    assert ts1[1..] == ts2 && ts2[1..] == toks[j + 3..];
    assert ts[0] == toks[j] && ts1[0] == toks[j + 1] && ts2[0] == toks[j + 2];
    assert Point(ts, parse) == Done(p, toks[j + 3..]);
  }

  /** Item p of a facet for t, over tokens with the same words, moves on to item p + 1. */
  lemma {:induction false} ItemStep(p: nat, toks: seq<Token>, fs: seq<Token>, t: Triangle, eofLine: nat, parse: string -> Option<real>)
    requires p < FACET_ITEMS && FacetReads(fs, t, parse) && Offset(p + 1) <= |toks|
    requires forall j :: 0 <= j < Offset(p + 1) ==> toks[j].word == fs[j].word
    ensures FacetFrom(p, toks[Offset(p)..], Stored(t, p), eofLine, parse) ==
            FacetFrom(p + 1, toks[Offset(p + 1)..], Stored(t, p + 1), eofLine, parse)
  {
    var j := Offset(p);
    ItemLayout(p, fs, t, parse);
    match ItemAt(p)
    case Word(k) =>
      WordAt(p, k, toks, j, Stored(t, p), eofLine, parse);
    case Coordinates(slot) =>
      assert toks[j].word == fs[j].word && toks[j + 1].word == fs[j + 1].word && toks[j + 2].word == fs[j + 2].word;
      PointAt(p, slot, toks, j, Corner(t, slot), Stored(t, p), eofLine, parse);
  }

  /**
   * Tokens whose words are those of a facet for t up to item s: parseFacet
   * reaches item s with the points of the items before it stored.
   */
  lemma {:induction false} StepsTo(s: nat, toks: seq<Token>, fs: seq<Token>, t: Triangle, eofLine: nat,
                                   parse: string -> Option<real>)
    requires s <= FACET_ITEMS && FacetsRead(fs, [t], parse) && Offset(s) <= |toks|
    requires forall j :: 0 <= j < Offset(s) ==> toks[j].word == fs[j].word
    ensures FacetFrom(0, toks, ZERO_TRIANGLE, eofLine, parse) ==
            FacetFrom(s, toks[Offset(s)..], Stored(t, s), eofLine, parse)
    decreases s
  {
    assert FacetReads(fs, t, parse) by {
      assert [t][0] == t;
    }
    if s == 0 {
      assert toks[0..] == toks;
    } else {
      var p := s - 1;
      assert Offset(p) < Offset(s) by {
        ItemLayout(p, fs, t, parse);
      }
      StepsTo(p, toks, fs, t, eofLine, parse);
      ItemStep(p, toks, fs, t, eofLine, parse);
    }
  }

  /** A facet for t parses to exactly t and consumes exactly its 21 words. */
  lemma {:induction false} FacetReadsBack(toks: seq<Token>, t: Triangle, eofLine: nat, parse: string -> Option<real>)
    requires FacetReads(toks, t, parse)
    ensures FacetRule(toks, eofLine, parse) == Done(t, toks[FACET_WORDS..])
  {
    var rest := toks[FACET_WORDS..];
    assert Offset(FACET_ITEMS) == FACET_WORDS && Stored(t, FACET_ITEMS) == t;
    assert FacetFrom(FACET_ITEMS, rest, t, eofLine, parse) == Done(t, rest);
    assert FacetFrom(0, toks, ZERO_TRIANGLE, eofLine, parse) == FacetFrom(FACET_ITEMS, rest, t, eofLine, parse) by {
      assert FacetsRead(toks, [t], parse) by {
        assert [t][0] == t && [t][1..] == [];
      }
      StepsTo(FACET_ITEMS, toks, toks, t, eofLine, parse);
    }
  }

  /** The point item that word c belongs to. */
  function NumberItem(c: nat): (s: nat)
    requires IsNumberWord(c)
    ensures s < FACET_ITEMS && ItemAt(s).Coordinates? && Offset(s) <= c < Offset(s) + 3
  {
    if c <= 4 then 2 else if c <= 10 then 6 else if c <= 14 then 8 else 10
  }

  /**
   * A point whose first d numbers convert, then the input ends or a word
   * does not convert: it fails silently at the end, with "Unable to parse
   * float" otherwise.
   */
  lemma {:induction false} PointFails(ts: seq<Token>, d: nat, parse: string -> Option<real>)
    requires d < 3 && d <= |ts| && forall i :: 0 <= i < d ==> parse(ts[i].word).Some?
    requires d == |ts| || parse(ts[d].word).None?
    ensures Point(ts, parse) ==
            if d == |ts| then Failed([], []) else Failed(ts[d..], [Diagnostic(ts[d].line, BAD_FLOAT)])
  {
    var fail := if d == |ts| then Failed([], []) else Failed(ts[d..], [Diagnostic(ts[d].line, BAD_FLOAT)]);
    if d == 0 {
      assert ts[0..] == ts;
      assert Number(ts, parse) == fail;
    } else {
      var ts1 := ts[1..];
      assert Number(ts, parse) == Done(parse(ts[0].word).value, ts1);
      if d == 1 {
        assert ts1[0..] == ts[1..];
        assert Number(ts1, parse) == fail;
      } else {
        var ts2 := ts1[1..];
        assert ts1[0] == ts[1] && ts2 == ts[2..];
        assert Number(ts1, parse) == Done(parse(ts[1].word).value, ts2);
        assert Number(ts2, parse) == fail;
      }
    }
  }

  /**
   * A point item over tokens o onwards whose numbers convert up to token c,
   * where the input ends or a word does not convert: the facet fails there.
   */
  lemma {:induction false} PointStopsAt(s: nat, toks: seq<Token>, o: nat, c: nat, u: Triangle, eofLine: nat,
                                        parse: string -> Option<real>)
    requires s < FACET_ITEMS && ItemAt(s).Coordinates? && o <= c < o + 3 && c <= |toks|
    requires forall i :: o <= i < c ==> parse(toks[i].word).Some?
    requires c == |toks| || parse(toks[c].word).None?
    ensures FacetFrom(s, toks[o..], u, eofLine, parse) ==
            if c == |toks| then Failed([], []) else Failed(toks[c..], [Diagnostic(toks[c].line, BAD_FLOAT)])
  {
    var rest := toks[o..];
    PointStep(s, ItemAt(s).slot, rest, u, eofLine, parse);
    var d := c - o;
    forall i | 0 <= i < d ensures parse(rest[i].word).Some? {
      assert rest[i] == toks[o + i];
    }
    if c < |toks| {
      assert rest[d] == toks[c] && rest[d..] == toks[c..];
    }
    PointFails(rest, d, parse);
  }

  /**
   * Tokens whose words are those of a facet for t up to its number c, where
   * the input ends or a word that does not convert sits: the facet fails,
   * with no diagnostic at the end of the input and with one "Unable to
   * parse float" on the word's line otherwise.
   */
  lemma {:induction false} FacetStopsAt(toks: seq<Token>, fs: seq<Token>, t: Triangle, c: nat, eofLine: nat,
                                        parse: string -> Option<real>)
    requires FacetsRead(fs, [t], parse) && IsNumberWord(c) && c <= |toks|
    requires forall j :: 0 <= j < c ==> toks[j].word == fs[j].word
    requires c == |toks| || parse(toks[c].word).None?
    ensures FacetRule(toks, eofLine, parse) ==
            if c == |toks| then Failed([], []) else Failed(toks[c..], [Diagnostic(toks[c].line, BAD_FLOAT)])
  {
    var s := NumberItem(c);
    var o := Offset(s);
    forall i | o <= i < c ensures parse(toks[i].word).Some? {
      assert [t][0] == t;
      ItemLayout(s, fs, t, parse);
    }
    PointStopsAt(s, toks, o, c, Stored(t, s), eofLine, parse);
    StepsTo(s, toks, fs, t, eofLine, parse);
  }

  /** One round of the triangle loop over the first facet of tris appends its triangle and goes on after its 21 words. */
  lemma {:induction false} LoopFacet(toks: seq<Token>, tris: seq<Triangle>, eofLine: nat, parse: string -> Option<real>)
    requires tris != [] && FacetsRead(toks, tris, parse)
    ensures FACET_WORDS <= |toks|
    ensures TriangleLoop(toks, eofLine, parse) ==
            After([tris[0]], [], false, TriangleLoop(toks[FACET_WORDS..], eofLine, parse))
  {
    FacetReadsBack(toks, tris[0], eofLine, parse);
    FacetFirst(toks, eofLine, parse);
  }

  /** The facets of tris take 21 tokens each. */
  lemma {:induction false} FacetsLength(toks: seq<Token>, tris: seq<Triangle>, parse: string -> Option<real>)
    requires FacetsRead(toks, tris, parse)
    ensures FACET_WORDS * |tris| <= |toks|
    decreases |tris|
  {
    if tris != [] {
      FacetsLength(toks[FACET_WORDS..], tris[1..], parse);
    }
  }

  /**
   * Over the facets of tris, the triangle loop appends each triangle once,
   * in order, records nothing, and goes on after them.
   */
  lemma {:induction false} LoopReads(toks: seq<Token>, tris: seq<Triangle>, eofLine: nat, parse: string -> Option<real>)
    requires FacetsRead(toks, tris, parse)
    ensures FACET_WORDS * |tris| <= |toks|
    ensures TriangleLoop(toks, eofLine, parse) ==
            After(tris, [], false, TriangleLoop(toks[FACET_WORDS * |tris|..], eofLine, parse))
    decreases |tris|
  {
    FacetsLength(toks, tris, parse);
    if tris == [] {
      assert toks[0..] == toks;
      var o := TriangleLoop(toks, eofLine, parse);
      assert [] + o.triangles == o.triangles && [] + o.diags == o.diags;
    } else {
      var toks1, tris1 := toks[FACET_WORDS..], tris[1..];
      var n1, n := FACET_WORDS * |tris1|, FACET_WORDS * |tris|;
      assert FacetsRead(toks1, tris1, parse);
      assert n1 <= |toks1| && toks1[n1..] == toks[n..];
      assert [tris[0]] + tris1 == tris;
      LoopReads(toks1, tris1, eofLine, parse);
      LoopFacet(toks, tris, eofLine, parse);
      AfterAfter([tris[0]], [], false, tris1, [], false, TriangleLoop(toks[n..], eofLine, parse));
    }
  }

  /** Resynchronising skips a prefix that holds neither `facet` nor `endsolid`. */
  lemma {:induction false} SkipPast(ts: seq<Token>, n: nat)
    requires n <= |ts| && forall j :: 0 <= j < n ==> !IsIdent(ts[j].word, SYNC)
    ensures SkipTo(ts, SYNC) == SkipTo(ts[n..], SYNC)
    decreases n
  {
    if n == 0 {
      assert ts[0..] == ts;
    } else {
      forall j | 0 <= j < n - 1 ensures !IsIdent(ts[1..][j].word, SYNC) {
        assert ts[1..][j] == ts[j + 1];
      }
      SkipPast(ts[1..], n - 1);
      assert ts[1..][n - 1..] == ts[n..];
    }
  }

  /** Resynchronising on `facet` or `endsolid` does not move. */
  lemma {:induction false} SyncHere(ts: seq<Token>)
    requires ts != [] && (ts[0].word == Text(Facet) || ts[0].word == Text(Endsolid))
    ensures SkipTo(ts, SYNC) == ts
  {
    assert Facet in SYNC && Endsolid in SYNC;
  }

  /** Facets of tris, then `endsolid`: the first word is `facet` or `endsolid`. */
  lemma {:induction false} SyncFirst(ts: seq<Token>, tris: seq<Triangle>, parse: string -> Option<real>)
    requires FacetsRead(ts, tris, parse) && EndsolidAt(ts, FACET_WORDS * |tris|)
    ensures ts != [] && (ts[0].word == Text(Facet) || ts[0].word == Text(Endsolid))
  {
    if tris == [] {
      assert FACET_WORDS * |tris| == 0;
    }
  }

  /** The loop stops in front of `endsolid` without appending or recording anything. */
  lemma {:induction false} LoopStops(ts: seq<Token>, eofLine: nat, parse: string -> Option<real>)
    requires EndsolidAt(ts, 0)
    ensures TriangleLoop(ts, eofLine, parse) == LoopOutcome([], [], false, ts)
  {
  }

  /** The facets of tris and then `endsolid`: the loop appends tris and stops in front of `endsolid`. */
  lemma {:induction false} LoopToEnd(toks: seq<Token>, tris: seq<Triangle>, eofLine: nat, parse: string -> Option<real>)
    requires FacetsRead(toks, tris, parse) && EndsolidAt(toks, FACET_WORDS * |tris|)
    ensures TriangleLoop(toks, eofLine, parse) == LoopOutcome(tris, [], false, toks[FACET_WORDS * |tris|..])
  {
    var n := FACET_WORDS * |tris|;
    LoopReads(toks, tris, eofLine, parse);
    var rest := toks[n..];
    assert rest[0] == toks[n];
    LoopStops(rest, eofLine, parse);
    assert tris + [] == tris;
  }

  /** The line number of the first word of the input, which Parse takes as the header line. */
  function HeaderNumber(lines: seq<Line>): (h: nat)
    requires Tokens(lines, 0) != []
    ensures 1 <= h <= |lines|
  {
    TokenLines(lines, 0);
    Tokens(lines, 0)[0].line
  }

  /** The input has a word, and the line of its first word starts with "solid ". */
  predicate SolidHeader(lines: seq<Line>) {
    Tokens(lines, 0) != [] &&
    var text := lines[HeaderNumber(lines) - 1].text;
    |text| >= |HEADER_PREFIX| && text[..|HEADER_PREFIX|] == HEADER_PREFIX
  }

  /** The header line after "solid ", from which the name is taken. */
  function NameText(lines: seq<Line>): string
    requires SolidHeader(lines)
  {
    lines[HeaderNumber(lines) - 1].text[|HEADER_PREFIX|..]
  }

  /** The tokens after the header line: what the triangle loop reads. */
  function Body(lines: seq<Line>): seq<Token>
    requires Tokens(lines, 0) != []
  {
    Tokens(lines, HeaderNumber(lines))
  }

  /** The name Parse takes from a good header line. */
  lemma {:induction false} HeaderNameOf(lines: seq<Line>, conv: Conversions)
    requires SolidHeader(lines)
    ensures HeaderName(lines[HeaderNumber(lines) - 1].text, conv) == Some(conv.asciiString(NameText(lines)))
  {
  }

  /**
   * Parse before its last statement, when the header line gives the name nm:
   * the triangle loop over the body, with no diagnostic of the header's own.
   */
  lemma {:induction false} HeaderAndLoopOf(lines: seq<Line>, nm: string, conv: Conversions)
    requires Tokens(lines, 0) != [] && HeaderName(lines[HeaderNumber(lines) - 1].text, conv) == Some(nm)
    ensures var o := TriangleLoop(Body(lines), |lines|, conv.parseFloat32);
            HeaderAndLoop(lines, conv) == (ParseOutcome(false, Some(nm), o.triangles, o.diags, false, o.skipped), o.rest)
  {
    var o := TriangleLoop(Body(lines), |lines|, conv.parseFloat32);
    assert [] + o.diags == o.diags;
  }

  /** With a good header, Parse is the triangle loop over the body followed by the final check. */
  lemma {:induction false} SolidFile(lines: seq<Line>, conv: Conversions)
    requires SolidHeader(lines)
    ensures var o := TriangleLoop(Body(lines), |lines|, conv.parseFloat32);
            ParseSpec(lines, conv) ==
            FinalCheck(ParseOutcome(false, Some(conv.asciiString(NameText(lines))), o.triangles, o.diags, false, o.skipped),
                       o.rest, |lines|)
  {
    HeaderNameOf(lines, conv);
    HeaderAndLoopOf(lines, conv.asciiString(NameText(lines)), conv);
  }

  /**
   * A well-formed file: a "solid " header line, then, however the words are
   * laid out in lines, the facets of tris and `endsolid` (anything after it
   * is not read). Parse succeeds with the header's name and exactly the
   * triangles tris, in order, and records no diagnostic.
   */
  lemma {:induction false} WellFormedFile(lines: seq<Line>, tris: seq<Triangle>, conv: Conversions)
    requires SolidHeader(lines)
    requires FacetsRead(Body(lines), tris, conv.parseFloat32)
    requires EndsolidAt(Body(lines), FACET_WORDS * |tris|)
    ensures ParseSpec(lines, conv) == ParseOutcome(true, Some(conv.asciiString(NameText(lines))), tris, [], false, false)
  {
    var o := TriangleLoop(Body(lines), |lines|, conv.parseFloat32);
    assert o.triangles == tris && o.diags == [] && !o.skipped && o.rest != [] && o.rest[0].word == Text(Endsolid) by {
      LoopToEnd(Body(lines), tris, |lines|, conv.parseFloat32);
    }
    SolidFile(lines, conv);
  }

  /** Facets read from a prefix are read the same from any longer input. */
  lemma {:induction false} ReadsExtend(pre: seq<Token>, post: seq<Token>, tris: seq<Triangle>, parse: string -> Option<real>)
    requires FacetsRead(pre, tris, parse)
    ensures FacetsRead(pre + post, tris, parse)
    decreases |tris|
  {
    if tris != [] {
      assert FacetReads(pre, tris[0], parse);
      assert forall j :: 0 <= j < FACET_WORDS ==> (pre + post)[j] == pre[j];
      assert FacetReads(pre + post, tris[0], parse);
      assert (pre + post)[FACET_WORDS..] == pre[FACET_WORDS..] + post;
      ReadsExtend(pre[FACET_WORDS..], post, tris[1..], parse);
    }
  }

  /** Tokens made of the facets of tris and then post: the loop appends tris and goes on with post. */
  lemma {:induction false} LoopReadsThen(pre: seq<Token>, post: seq<Token>, tris: seq<Triangle>, eofLine: nat,
                                         parse: string -> Option<real>)
    requires FacetsRead(pre, tris, parse) && |pre| == FACET_WORDS * |tris|
    ensures TriangleLoop(pre + post, eofLine, parse) == After(tris, [], false, TriangleLoop(post, eofLine, parse))
  {
    ReadsExtend(pre, post, tris, parse);
    assert (pre + post)[FACET_WORDS * |tris|..] == post;
    LoopReads(pre + post, tris, eofLine, parse);
  }

  /** Facets read in front of an outcome are appended in front of its triangles. */
  lemma AfterOnce(before: seq<Triangle>, after: seq<Triangle>, diags: seq<Diagnostic>, skipped: bool, rest: seq<Token>)
    ensures After(before, [], false, LoopOutcome(after, diags, skipped, rest)) == LoopOutcome(before + after, diags, skipped, rest)
  {
    assert [] + diags == diags;
  }

  /**
   * The first c words of a facet for t, c being one of its numbers, and
   * nothing after them: the facet fails without a diagnostic, triangles are
   * marked as skipped and the loop ends on the exhausted input.
   */
  lemma {:induction false} CutFacet(cut: seq<Token>, fs: seq<Token>, t: Triangle, c: nat, eofLine: nat,
                                    parse: string -> Option<real>)
    requires FacetsRead(fs, [t], parse) && IsNumberWord(c)
    requires |cut| == c && forall j :: 0 <= j < c ==> cut[j].word == fs[j].word
    ensures TriangleLoop(cut, eofLine, parse) == LoopOutcome([], [], true, [])
  {
    assert cut[0].word == Text(Facet) by {
      assert [t][0] == t;
      assert FacetKeyword(0) == Facet;
    }
    assert FacetRule(cut, eofLine, parse) == Failed([], []) by {
      FacetStopsAt(cut, fs, t, c, eofLine, parse);
    }
    FacetFirst(cut, eofLine, parse);
  }

  /**
   * The facets of tris and then the first c words of a facet for t, c being
   * one of its numbers: the cut facet fails without a diagnostic and the
   * loop ends with tris appended and triangles marked as skipped.
   */
  lemma {:induction false} LoopTruncated(pre: seq<Token>, cut: seq<Token>, tris: seq<Triangle>, fs: seq<Token>, t: Triangle,
                                         c: nat, eofLine: nat, parse: string -> Option<real>)
    requires FacetsRead(pre, tris, parse) && |pre| == FACET_WORDS * |tris|
    requires FacetsRead(fs, [t], parse) && IsNumberWord(c)
    requires |cut| == c && forall j :: 0 <= j < c ==> cut[j].word == fs[j].word
    ensures TriangleLoop(pre + cut, eofLine, parse) == LoopOutcome(tris, [], true, [])
  {
    AfterOnce(tris, [], [], true, []);
    assert tris + [] == tris;
    assert TriangleLoop(cut, eofLine, parse) == LoopOutcome([], [], true, []) by {
      CutFacet(cut, fs, t, c, eofLine, parse);
    }
    LoopReadsThen(pre, cut, tris, eofLine, parse);
  }

  /**
   * A file whose body, however its words are laid out in lines, is the
   * facets of tris and then the first c words of a facet for t, c being one
   * of its numbers: that facet fails without a diagnostic, triangles are
   * marked as skipped, and Parse fails having recorded no diagnostic at all,
   * with the triangles before the cut appended in order.
   */
  lemma {:induction false} TruncatedFacet(lines: seq<Line>, pre: seq<Token>, cut: seq<Token>, tris: seq<Triangle>,
                                          fs: seq<Token>, t: Triangle, c: nat, conv: Conversions)
    requires SolidHeader(lines) && Body(lines) == pre + cut
    requires FacetsRead(pre, tris, conv.parseFloat32) && |pre| == FACET_WORDS * |tris|
    requires FacetsRead(fs, [t], conv.parseFloat32) && IsNumberWord(c)
    requires |cut| == c && forall j :: 0 <= j < c ==> cut[j].word == fs[j].word
    ensures ParseSpec(lines, conv) == ParseOutcome(false, Some(conv.asciiString(NameText(lines))), tris, [], false, true)
  {
    var o := TriangleLoop(Body(lines), |lines|, conv.parseFloat32);
    assert o == LoopOutcome(tris, [], true, []) by {
      LoopTruncated(pre, cut, tris, fs, t, c, |lines|, conv.parseFloat32);
    }
    SolidFile(lines, conv);
  }

  /**
   * Tokens bs whose words are those of a facet for t except number c, which
   * does not convert and is neither `facet` nor `endsolid`.
   */
  predicate BadNumberFacet(bs: seq<Token>, fs: seq<Token>, t: Triangle, c: nat, parse: string -> Option<real>) {
    FacetsRead(fs, [t], parse) && IsNumberWord(c) && |bs| >= FACET_WORDS &&
    forall j :: 0 <= j < FACET_WORDS ==>
      if j == c then parse(bs[j].word).None? && bs[j].word != Text(Facet) && bs[j].word != Text(Endsolid)
      else bs[j].word == fs[j].word
  }

  /** The words the loop resynchronises on are `facet` and `endsolid`. */
  lemma {:induction false} SyncWords(w: string)
    ensures IsIdent(w, SYNC) <==> w == Text(Facet) || w == Text(Endsolid)
  {
    if IsIdent(w, SYNC) {
      var k :| k in SYNC && Text(k) == w;
    } else {
      assert Facet in SYNC && Endsolid in SYNC;
    }
  }

  /** The other keywords do not stop resynchronisation. */
  lemma {:induction false} KeywordNotSync(k: Keyword)
    requires k != Facet && k != Endsolid
    ensures !IsIdent(Text(k), SYNC)
  {
    SyncWords(Text(k));
    TextInjective(k, Facet);
    TextInjective(k, Endsolid);
  }

  /**
   * No word of a facet after its first stops resynchronisation, given that
   * `facet` and `endsolid` are not numbers.
   */
  lemma {:induction false} FacetWordNotSync(fs: seq<Token>, t: Triangle, i: nat, parse: string -> Option<real>)
    requires FacetsRead(fs, [t], parse) && 0 < i < FACET_WORDS
    requires parse(Text(Facet)).None? && parse(Text(Endsolid)).None?
    ensures !IsIdent(fs[i].word, SYNC)
  {
    assert [t][0] == t;
    SyncWords(fs[i].word);
    if !IsNumberWord(i) {
      KeywordNotSync(FacetKeyword(i));
    }
  }

  /** Resynchronising from a bad number lands on the word after its facet. */
  lemma {:induction false} BadNumberSkips(toks: seq<Token>, fs: seq<Token>, t: Triangle, c: nat,
                                          parse: string -> Option<real>)
    requires BadNumberFacet(toks, fs, t, c, parse)
    requires parse(Text(Facet)).None? && parse(Text(Endsolid)).None?
    requires FACET_WORDS < |toks| && (toks[FACET_WORDS].word == Text(Facet) || toks[FACET_WORDS].word == Text(Endsolid))
    ensures SkipTo(toks[c..], SYNC) == toks[FACET_WORDS..]
  {
    var after := toks[c..];
    SyncWords(toks[c].word);
    forall j | 0 <= j < FACET_WORDS - c ensures !IsIdent(after[j].word, SYNC) {
      assert after[j] == toks[c + j];
      if j > 0 {
        FacetWordNotSync(fs, t, c + j, parse);
      }
    }
    SkipPast(after, FACET_WORDS - c);
    assert after[FACET_WORDS - c..] == toks[FACET_WORDS..];
    SyncHere(toks[FACET_WORDS..]);
  }

  /** Over a facet with a bad number, the loop records one diagnostic, marks triangles as skipped and resumes after it. */
  lemma {:induction false} BadNumberRound(toks: seq<Token>, fs: seq<Token>, t: Triangle, c: nat, eofLine: nat,
                                          parse: string -> Option<real>)
    requires BadNumberFacet(toks, fs, t, c, parse)
    requires parse(Text(Facet)).None? && parse(Text(Endsolid)).None?
    requires FACET_WORDS < |toks| && (toks[FACET_WORDS].word == Text(Facet) || toks[FACET_WORDS].word == Text(Endsolid))
    ensures TriangleLoop(toks, eofLine, parse) ==
            After([], [Diagnostic(toks[c].line, BAD_FLOAT)], true, TriangleLoop(toks[FACET_WORDS..], eofLine, parse))
  {
    assert FacetRule(toks, eofLine, parse) == Failed(toks[c..], [Diagnostic(toks[c].line, BAD_FLOAT)]) by {
      FacetStopsAt(toks, fs, t, c, eofLine, parse);
    }
    FacetFirst(toks, eofLine, parse);
    BadNumberSkips(toks, fs, t, c, parse);
  }

  /** A bad-number facet read from the front of a longer input is read the same. */
  lemma {:induction false} BadExtend(bad: seq<Token>, post: seq<Token>, fs: seq<Token>, t: Triangle, c: nat,
                                     parse: string -> Option<real>)
    requires BadNumberFacet(bad, fs, t, c, parse)
    ensures BadNumberFacet(bad + post, fs, t, c, parse)
  {
    assert forall j :: 0 <= j < FACET_WORDS ==> (bad + post)[j] == bad[j];
  }

  /**
   * A facet whose number c does not convert, then the facets of after and
   * `endsolid`: one "Unable to parse float", triangles marked as skipped,
   * after appended, and the loop stops in front of `endsolid`.
   */
  lemma {:induction false} BadThenEnd(bad: seq<Token>, post: seq<Token>, fs: seq<Token>, t: Triangle, c: nat,
                                      after: seq<Triangle>, eofLine: nat, parse: string -> Option<real>)
    requires parse(Text(Facet)).None? && parse(Text(Endsolid)).None?
    requires BadNumberFacet(bad, fs, t, c, parse) && |bad| == FACET_WORDS
    requires FacetsRead(post, after, parse) && EndsolidAt(post, FACET_WORDS * |after|)
    ensures TriangleLoop(bad + post, eofLine, parse) ==
            LoopOutcome(after, [Diagnostic(bad[c].line, BAD_FLOAT)], true, post[FACET_WORDS * |after|..])
  {
    var toks := bad + post;
    var d := Diagnostic(bad[c].line, BAD_FLOAT);
    BadExtend(bad, post, fs, t, c, parse);
    SyncFirst(post, after, parse);
    assert toks[FACET_WORDS..] == post && toks[FACET_WORDS] == post[0] && toks[c] == bad[c];
    assert [] + after == after && [d] + [] == [d];
    BadNumberRound(toks, fs, t, c, eofLine, parse);
    LoopToEnd(post, after, eofLine, parse);
  }

  /**
   * The facets of before, a facet whose number c does not convert, the
   * facets of after and `endsolid`: the loop appends before and after,
   * records one "Unable to parse float" and marks triangles as skipped.
   */
  lemma {:induction false} LoopBadNumber(pre: seq<Token>, bad: seq<Token>, post: seq<Token>, before: seq<Triangle>,
                                         after: seq<Triangle>, fs: seq<Token>, t: Triangle, c: nat, eofLine: nat,
                                         parse: string -> Option<real>)
    requires parse(Text(Facet)).None? && parse(Text(Endsolid)).None?
    requires FacetsRead(pre, before, parse) && |pre| == FACET_WORDS * |before|
    requires BadNumberFacet(bad, fs, t, c, parse) && |bad| == FACET_WORDS
    requires FacetsRead(post, after, parse) && EndsolidAt(post, FACET_WORDS * |after|)
    ensures TriangleLoop(pre + bad + post, eofLine, parse) ==
            LoopOutcome(before + after, [Diagnostic(bad[c].line, BAD_FLOAT)], true, post[FACET_WORDS * |after|..])
  {
    var d := Diagnostic(bad[c].line, BAD_FLOAT);
    assert pre + bad + post == pre + (bad + post);
    AfterOnce(before, after, [d], true, post[FACET_WORDS * |after|..]);
    assert TriangleLoop(bad + post, eofLine, parse) == LoopOutcome(after, [d], true, post[FACET_WORDS * |after|..]) by {
      BadThenEnd(bad, post, fs, t, c, after, eofLine, parse);
    }
    LoopReadsThen(pre, bad + post, before, eofLine, parse);
  }

  /**
   * A file whose body, however its words are laid out in lines, is the
   * facets of before, a facet whose number c does not convert, the facets
   * of after and `endsolid`: every triangle of before and after is appended
   * in order, exactly one "Unable to parse float" is recorded, on the bad
   * word's line, triangles are marked as skipped and Parse fails without
   * looking for `endsolid`. The conversion is taken to reject the words
   * `facet` and `endsolid`, as `strconv.ParseFloat` does.
   */
  lemma {:induction false} BadNumber(lines: seq<Line>, pre: seq<Token>, bad: seq<Token>, post: seq<Token>,
                                     before: seq<Triangle>, after: seq<Triangle>, fs: seq<Token>, t: Triangle, c: nat,
                                     conv: Conversions)
    requires conv.parseFloat32(Text(Facet)).None? && conv.parseFloat32(Text(Endsolid)).None?
    requires SolidHeader(lines) && Body(lines) == pre + bad + post
    requires FacetsRead(pre, before, conv.parseFloat32) && |pre| == FACET_WORDS * |before|
    requires BadNumberFacet(bad, fs, t, c, conv.parseFloat32) && |bad| == FACET_WORDS
    requires FacetsRead(post, after, conv.parseFloat32) && EndsolidAt(post, FACET_WORDS * |after|)
    ensures ParseSpec(lines, conv) ==
            ParseOutcome(false, Some(conv.asciiString(NameText(lines))), before + after,
                         [Diagnostic(bad[c].line, BAD_FLOAT)], false, true)
  {
    var d := Diagnostic(bad[c].line, BAD_FLOAT);
    var o := TriangleLoop(Body(lines), |lines|, conv.parseFloat32);
    assert [d] + [] == [d];
    assert o.triangles == before + after && o.diags == [d] && o.skipped by {
      LoopBadNumber(pre, bad, post, before, after, fs, t, c, |lines|, conv.parseFloat32);
    }
    SolidFile(lines, conv);
  }

  /**
   * A word that is neither `facet` nor `endsolid`, followed by one of them:
   * the loop reports it and resumes on the next word.
   */
  lemma {:induction false} StrayRound(toks: seq<Token>, eofLine: nat, parse: string -> Option<real>)
    requires 1 < |toks| && toks[0].word != Text(Facet) && toks[0].word != Text(Endsolid)
    requires toks[1].word == Text(Facet) || toks[1].word == Text(Endsolid)
    ensures TriangleLoop(toks, eofLine, parse) ==
            After([], [Diagnostic(toks[0].line, FACET_OR_ENDSOLID)], false, TriangleLoop(toks[1..], eofLine, parse))
  {
    SyncWords(toks[0].word);
    StrayFirst(toks, eofLine, parse);
    SkipPast(toks, 1);
    SyncHere(toks[1..]);
  }

  /**
   * A word w that is neither `facet` nor `endsolid`, then the facets of
   * after and `endsolid`: one `"facet" or "endsolid" expected`, after
   * appended, and the loop stops in front of `endsolid`.
   */
  lemma {:induction false} StrayThenEnd(w: Token, post: seq<Token>, after: seq<Triangle>, eofLine: nat,
                                        parse: string -> Option<real>)
    requires w.word != Text(Facet) && w.word != Text(Endsolid)
    requires FacetsRead(post, after, parse) && EndsolidAt(post, FACET_WORDS * |after|)
    ensures TriangleLoop([w] + post, eofLine, parse) ==
            LoopOutcome(after, [Diagnostic(w.line, FACET_OR_ENDSOLID)], false, post[FACET_WORDS * |after|..])
  {
    var toks := [w] + post;
    var d := Diagnostic(w.line, FACET_OR_ENDSOLID);
    SyncFirst(post, after, parse);
    assert toks[0] == w && toks[1..] == post && toks[1] == post[0];
    assert [] + after == after && [d] + [] == [d];
    StrayRound(toks, eofLine, parse);
    LoopToEnd(post, after, eofLine, parse);
  }

  /**
   * The facets of before, a word w that is neither `facet` nor `endsolid`,
   * the facets of after and `endsolid`: the loop appends before and after
   * and records one `"facet" or "endsolid" expected`.
   */
  lemma {:induction false} LoopStrayWord(pre: seq<Token>, w: Token, post: seq<Token>, before: seq<Triangle>,
                                         after: seq<Triangle>, eofLine: nat, parse: string -> Option<real>)
    requires FacetsRead(pre, before, parse) && |pre| == FACET_WORDS * |before|
    requires w.word != Text(Facet) && w.word != Text(Endsolid)
    requires FacetsRead(post, after, parse) && EndsolidAt(post, FACET_WORDS * |after|)
    ensures TriangleLoop(pre + [w] + post, eofLine, parse) ==
            LoopOutcome(before + after, [Diagnostic(w.line, FACET_OR_ENDSOLID)], false, post[FACET_WORDS * |after|..])
  {
    var d := Diagnostic(w.line, FACET_OR_ENDSOLID);
    assert pre + [w] + post == pre + ([w] + post);
    AfterOnce(before, after, [d], false, post[FACET_WORDS * |after|..]);
    assert TriangleLoop([w] + post, eofLine, parse) == LoopOutcome(after, [d], false, post[FACET_WORDS * |after|..]) by {
      StrayThenEnd(w, post, after, eofLine, parse);
    }
    LoopReadsThen(pre, [w] + post, before, eofLine, parse);
  }

  /**
   * A file whose body, however its words are laid out in lines, is the
   * facets of before, one word w that is neither `facet` nor `endsolid`, the
   * facets of after and `endsolid`: every triangle is appended in order and
   * exactly one `"facet" or "endsolid" expected` is recorded, on w's line,
   * yet Parse succeeds, because only the two flags and `endsolid` decide its
   * result.
   */
  lemma {:induction false} StrayWord(lines: seq<Line>, pre: seq<Token>, w: Token, post: seq<Token>,
                                     before: seq<Triangle>, after: seq<Triangle>, conv: Conversions)
    requires SolidHeader(lines) && Body(lines) == pre + [w] + post
    requires FacetsRead(pre, before, conv.parseFloat32) && |pre| == FACET_WORDS * |before|
    requires w.word != Text(Facet) && w.word != Text(Endsolid)
    requires FacetsRead(post, after, conv.parseFloat32) && EndsolidAt(post, FACET_WORDS * |after|)
    ensures ParseSpec(lines, conv) ==
            ParseOutcome(true, Some(conv.asciiString(NameText(lines))), before + after,
                         [Diagnostic(w.line, FACET_OR_ENDSOLID)], false, false)
  {
    var d := Diagnostic(w.line, FACET_OR_ENDSOLID);
    var k := FACET_WORDS * |after|;
    var o := TriangleLoop(Body(lines), |lines|, conv.parseFloat32);
    assert [d] + [] == [d];
    assert post[k..][0] == post[k];
    assert o.triangles == before + after && o.diags == [d] && !o.skipped && o.rest == post[k..] by {
      LoopStrayWord(pre, w, post, before, after, |lines|, conv.parseFloat32);
    }
    SolidFile(lines, conv);
  }

  /** A file whose lines hold no word is reported as empty, on its last line. */
  lemma {:induction false} EmptyFile(lines: seq<Line>, conv: Conversions)
    requires forall j :: 0 <= j < |lines| ==> lines[j].words == []
    ensures ParseSpec(lines, conv) == ParseOutcome(false, None, [], [Diagnostic(|lines|, FILE_IS_EMPTY)], true, false)
  {
    TokensEmpty(lines, 0);
  }

  /**
   * A first line that has words but does not start with "solid ": the
   * header is reported on line 1, no name is taken, and Parse fails
   * whatever follows, without looking for `endsolid`.
   */
  lemma {:induction false} BadHeader(lines: seq<Line>, conv: Conversions)
    requires |lines| > 0 && lines[0].words != []
    requires !(|lines[0].text| >= |HEADER_PREFIX| && lines[0].text[..|HEADER_PREFIX|] == HEADER_PREFIX)
    ensures var p := ParseSpec(lines, conv);
            !p.success && p.headerError && p.name.None? && |p.diags| > 0 && p.diags[0] == Diagnostic(1, BAD_HEADER)
  {
    assert Tokens(lines, 0)[0] == Token(lines[0].words[0], 1);
  }

  /**
   * A header line, wherever the first word sits, that does not start with
   * "solid ": the header is reported on that line, no name is taken, the
   * triangle loop still runs over the rest and its diagnostics follow the
   * header's, and Parse fails without looking for `endsolid`.
   */
  lemma {:induction false} BadHeaderLoop(lines: seq<Line>, conv: Conversions)
    requires Tokens(lines, 0) != [] && !SolidHeader(lines)
    ensures var o := TriangleLoop(Body(lines), |lines|, conv.parseFloat32);
            ParseSpec(lines, conv) ==
            ParseOutcome(false, None, o.triangles, [Diagnostic(HeaderNumber(lines), BAD_HEADER)] + o.diags, true, o.skipped)
  {
  }

  /**
   * A file that is well formed but for its header line: every triangle is
   * still appended in order, the header diagnostic is the only one, and
   * Parse fails.
   */
  lemma {:induction false} BadHeaderFile(lines: seq<Line>, tris: seq<Triangle>, conv: Conversions)
    requires Tokens(lines, 0) != [] && !SolidHeader(lines)
    requires FacetsRead(Body(lines), tris, conv.parseFloat32)
    requires EndsolidAt(Body(lines), FACET_WORDS * |tris|)
    ensures ParseSpec(lines, conv) == ParseOutcome(false, None, tris, [Diagnostic(HeaderNumber(lines), BAD_HEADER)], true, false)
  {
    BadHeaderLoop(lines, conv);
    LoopToEnd(Body(lines), tris, |lines|, conv.parseFloat32);
  }
}
