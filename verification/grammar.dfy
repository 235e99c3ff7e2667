/**
 * What the ASCII parser computes, as pure functions over the token sequence
 * that is still ahead of its cursor. Each grammar step either succeeds with
 * a value and the tokens after it, or fails where it stopped with the
 * diagnostics it recorded; the class in module AsciiParser is proved to
 * follow these functions step by step.
 */
module Grammar {
  import opened Wrappers
  import opened Geometry
  import opened Keywords
  import opened Lexer
  import opened Diagnostics

  /**
   * The two foreign conversions the parser relies on: `strconv.ParseFloat`
   * with 32-bit precision (None for a word it rejects) and the extraction
   * of the solid's name from the rest of the header line.
   */
  datatype Conversions = Conversions(parseFloat32: string -> Option<real>, asciiString: string -> string)

  const FILE_IS_EMPTY: string := "File is empty"
  const UNEXPECTED_EOF: string := "unexpected end of file"
  const BAD_HEADER: string := "ASCII header must start with \"solid \""
  const FACET_OR_ENDSOLID: string := "\"facet\" or \"endsolid\" expected"
  const BAD_FLOAT: string := "Unable to parse float"
  const HEADER_PREFIX: string := "solid "

  function Expected(k: Keyword): string {
    "\"" + Text(k) + "\" expected"
  }

  /**
   * The parser's line counter when ts is what is left: the line of the
   * current word, or the number of lines read once the input is exhausted.
   */
  function LineAt(ts: seq<Token>, eofLine: nat): nat {
    if ts == [] then eofLine else ts[0].line
  }

  /** The outcome of one grammar step. */
  datatype Step<+T> = Done(value: T, rest: seq<Token>) | Failed(at: seq<Token>, diags: seq<Diagnostic>)
  {
    predicate IsFailure() {
      Failed?
    }

    function PropagateFailure<U>(): Step<U>
      requires Failed?
    {
      Failed(at, diags)
    }

    function Extract(): (T, seq<Token>)
      requires Done?
    {
      (value, rest)
    }

    /** Where the cursor is after the step. */
    function Remaining(): seq<Token> {
      if Done? then rest else at
    }

    /** The diagnostics the step recorded. */
    function Recorded(): seq<Diagnostic> {
      if Done? then [] else diags
    }
  }

  /** consumeToken: the current word must spell k; it is then skipped. */
  function Expect(ts: seq<Token>, eofLine: nat, k: Keyword): (r: Step<()>)
    ensures r.Done? <==> ts != [] && ts[0].word == Text(k)
    ensures r.Done? ==> r.rest == ts[1..]
    ensures r.Failed? ==> r.at == ts && r.diags == [Diagnostic(LineAt(ts, eofLine), Expected(k))]
  {
    if ts != [] && ts[0].word == Text(k) then Done((), ts[1..])
    else Failed(ts, [Diagnostic(LineAt(ts, eofLine), Expected(k))])
  }

  /**
   * parseFloat64: the current word as a number. Running out of input fails
   * without a diagnostic; a word the conversion rejects fails with one.
   */
  function Number(ts: seq<Token>, parse: string -> Option<real>): (r: Step<real>)
    ensures r.Done? <==> ts != [] && parse(ts[0].word).Some?
    ensures r.Done? ==> r.value == parse(ts[0].word).value && r.rest == ts[1..]
    ensures r.Failed? ==> r.at == ts
    ensures r.Failed? ==> (r.diags == [] <==> ts == [])
  {
    if ts == [] then Failed([], [])
    else match parse(ts[0].word)
      case None => Failed(ts, [Diagnostic(ts[0].line, BAD_FLOAT)])
      case Some(x) => Done(x, ts[1..])
  }

  /** parsePoint: three numbers. */
  function Point(ts: seq<Token>, parse: string -> Option<real>): (r: Step<Vec3>)
    ensures r.Done? ==> |r.rest| + 3 == |ts|
    ensures r.Failed? ==> |r.at| <= |ts| && |r.diags| <= 1
  {
    var x :- Number(ts, parse);
    var y :- Number(x.1, parse);
    var z :- Number(y.1, parse);
    Done(Vec3(x.0, y.0, z.0), z.1)
  }

  /** One item of the facet grammar: a keyword, or a point stored into a slot of the triangle. */
  datatype FacetItem = Word(k: Keyword) | Coordinates(slot: nat)

  /** Number of items in the facet grammar. */
  const FACET_ITEMS: nat := 13

  /**
   * Item number stage of `facet normal P outer loop vertex P vertex P
   * vertex P endloop endfacet`; slot 0 is the normal and slots 1 to 3 are
   * the vertices.
   */
  function ItemAt(stage: nat): FacetItem
    requires stage < FACET_ITEMS
  {
    match stage
    case 0 => Word(Facet)
    case 1 => Word(Normal)
    case 2 => Coordinates(0)
    case 3 => Word(Outer)
    case 4 => Word(Loop)
    case 5 => Word(Vertex)
    case 6 => Coordinates(1)
    case 7 => Word(Vertex)
    case 8 => Coordinates(2)
    case 9 => Word(Vertex)
    case 10 => Coordinates(3)
    case 11 => Word(Endloop)
    case _ => Word(Endfacet)
  }

  /** The triangle with point p stored into the given slot. */
  function Store(t: Triangle, slot: nat, p: Vec3): Triangle {
    if slot == 0 then t.(normal := p)
    else if slot == 1 then t.(v0 := p)
    else if slot == 2 then t.(v1 := p)
    else t.(v2 := p)
  }

  /** The zero value of a triangle, which parseFacet fills in. */
  const ZERO_TRIANGLE: Triangle := Triangle(Vec3(0.0, 0.0, 0.0), Vec3(0.0, 0.0, 0.0), Vec3(0.0, 0.0, 0.0), Vec3(0.0, 0.0, 0.0))

  /** The facet grammar from item `stage` on, with t filled in so far. */
  function FacetFrom(stage: nat, ts: seq<Token>, t: Triangle, eofLine: nat, parse: string -> Option<real>): (r: Step<Triangle>)
    requires stage <= FACET_ITEMS
    ensures r.Done? ==> |r.rest| <= |ts| && (stage < FACET_ITEMS ==> |r.rest| < |ts|)
    ensures r.Failed? ==> |r.at| <= |ts| && |r.diags| <= 1
    decreases FACET_ITEMS - stage
  {
    if stage == FACET_ITEMS then Done(t, ts)
    else match ItemAt(stage)
      case Word(k) =>
        (match Expect(ts, eofLine, k)
         case Done(_, next) => FacetFrom(stage + 1, next, t, eofLine, parse)
         case Failed(at, ds) => Failed(at, ds))
      case Coordinates(slot) =>
        (match Point(ts, parse)
         case Done(p, next) => FacetFrom(stage + 1, next, Store(t, slot, p), eofLine, parse)
         case Failed(at, ds) => Failed(at, ds))
  }

  /** A keyword item of the facet grammar: Expect, then the items after it. */
  lemma WordStep(stage: nat, k: Keyword, ts: seq<Token>, t: Triangle, eofLine: nat, parse: string -> Option<real>)
    requires stage < FACET_ITEMS && ItemAt(stage) == Word(k)
    ensures var s := Expect(ts, eofLine, k);
            FacetFrom(stage, ts, t, eofLine, parse) ==
              if s.Done? then FacetFrom(stage + 1, s.rest, t, eofLine, parse) else Failed(s.at, s.diags)
  {
  }

  /** A point item of the facet grammar: Point, stored into its slot, then the items after it. */
  lemma PointStep(stage: nat, slot: nat, ts: seq<Token>, t: Triangle, eofLine: nat, parse: string -> Option<real>)
    requires stage < FACET_ITEMS && ItemAt(stage) == Coordinates(slot)
    ensures var s := Point(ts, parse);
            FacetFrom(stage, ts, t, eofLine, parse) ==
              if s.Done? then FacetFrom(stage + 1, s.rest, Store(t, slot, s.value), eofLine, parse) else Failed(s.at, s.diags)
  {
  }

  /** parseFacet: the whole facet, all or nothing. */
  function FacetRule(ts: seq<Token>, eofLine: nat, parse: string -> Option<real>): (r: Step<Triangle>)
    ensures r.Done? ==> |r.rest| < |ts|
    ensures r.Failed? ==> |r.at| <= |ts| && |r.diags| <= 1
    ensures r.Failed? && ts != [] && ts[0].word == Text(Facet) ==> |r.at| < |ts|
  {
    FacetFrom(0, ts, ZERO_TRIANGLE, eofLine, parse)
  }

  /**
   * skipToToken: the tokens from the first word that matches ks on, or
   * nothing when no word does. The current word itself may match.
   */
  function SkipTo(ts: seq<Token>, ks: set<Keyword>): (r: seq<Token>)
    ensures |r| <= |ts|
    ensures r != [] ==> IsIdent(r[0].word, ks)
  {
    if ts == [] then []
    else if IsIdent(ts[0].word, ks) then ts
    else SkipTo(ts[1..], ks)
  }

  /** Skipping drops a prefix in which no word matches ks. */
  lemma {:induction false} SkipToSuffix(ts: seq<Token>, ks: set<Keyword>)
    ensures var r := SkipTo(ts, ks);
            r == ts[|ts| - |r|..] && forall j :: 0 <= j < |ts| - |r| ==> !IsIdent(ts[j].word, ks)
  {
    if ts != [] && !IsIdent(ts[0].word, ks) {
      SkipToSuffix(ts[1..], ks);
      var r := SkipTo(ts, ks);
      assert ts[1..][|ts| - 1 - |r|..] == ts[|ts| - |r|..];
      forall j | 0 <= j < |ts| - |r| ensures !IsIdent(ts[j].word, ks) {
        if j > 0 {
          assert ts[j] == ts[1..][j - 1];
        }
      }
    }
  }

  /** What the triangle loop produced: triangles appended, diagnostics, the skipped flag, the cursor. */
  datatype LoopOutcome = LoopOutcome(triangles: seq<Triangle>, diags: seq<Diagnostic>, skipped: bool, rest: seq<Token>)

  /** An outcome preceded by triangles, diagnostics and a skipped flag recorded earlier. */
  function After(triangles: seq<Triangle>, diags: seq<Diagnostic>, skipped: bool, o: LoopOutcome): LoopOutcome {
    LoopOutcome(triangles + o.triangles, diags + o.diags, skipped || o.skipped, o.rest)
  }

  /** Outcomes recorded one after the other combine by concatenation. */
  lemma AfterAfter(triangles: seq<Triangle>, diags: seq<Diagnostic>, skipped: bool,
                   triangles': seq<Triangle>, diags': seq<Diagnostic>, skipped': bool, o: LoopOutcome)
    ensures After(triangles, diags, skipped, After(triangles', diags', skipped', o)) ==
            After(triangles + triangles', diags + diags', skipped || skipped', o)
  {
    AppendAssoc(triangles, triangles', o.triangles);
    AppendAssoc(diags, diags', o.diags);
  }

  /** A report with no triangle, followed by a round, is that round with the report in front. */
  lemma AfterStray(diags: seq<Diagnostic>, triangles': seq<Triangle>, diags': seq<Diagnostic>, skipped': bool,
                   o: LoopOutcome)
    ensures After([], diags, false, After(triangles', diags', skipped', o)) ==
            After(triangles', diags + diags', skipped', o)
  {
    AppendAssoc(diags, diags', o.diags);
    assert [] + (triangles' + o.triangles) == triangles' + o.triangles;
  }

  /** Whether the triangle loop stops in front of ts: the input is exhausted or at `endsolid`. */
  predicate AtLoopEnd(ts: seq<Token>) {
    ts == [] || ts[0].word == Text(Endsolid)
  }

  /**
   * The triangle loop of Parse. A word other than `facet` is reported and
   * the parser resynchronises on the next `facet` or `endsolid`; the loop
   * goes on only if that is a `facet`, which then starts the next round. A
   * facet that parses is appended; one that fails marks triangles as
   * skipped and the parser resynchronises before the next round.
   */
  function TriangleLoop(ts: seq<Token>, eofLine: nat, parse: string -> Option<real>): (o: LoopOutcome)
    ensures |o.rest| <= |ts|
    ensures AtLoopEnd(o.rest)
    decreases |ts|
  {
    if AtLoopEnd(ts) then LoopOutcome([], [], false, ts)
    else if ts[0].word != Text(Facet) then
      assert !IsIdent(ts[0].word, SYNC);
      After([], [Diagnostic(ts[0].line, FACET_OR_ENDSOLID)], false, TriangleLoop(SkipTo(ts, SYNC), eofLine, parse))
    else
      var f := FacetRule(ts, eofLine, parse);
      if f.Done? then After([f.value], [], false, TriangleLoop(f.rest, eofLine, parse))
      else After([], f.diags, true, TriangleLoop(SkipTo(f.at, SYNC), eofLine, parse))
  }

  /** Resynchronising from a word that is neither `facet` nor `endsolid` moves past that word. */
  lemma SkipStray(ts: seq<Token>)
    requires !AtLoopEnd(ts) && ts[0].word != Text(Facet)
    ensures SkipTo(ts, SYNC) == SkipTo(ts[1..], SYNC)
    ensures |SkipTo(ts, SYNC)| < |ts|
  {
    assert !IsIdent(ts[0].word, SYNC);
  }

  /** A round that starts on a stray word: it is reported and the loop resynchronises. */
  lemma StrayFirst(ts: seq<Token>, eofLine: nat, parse: string -> Option<real>)
    requires !AtLoopEnd(ts) && ts[0].word != Text(Facet)
    ensures TriangleLoop(ts, eofLine, parse) ==
            After([], [Diagnostic(ts[0].line, FACET_OR_ENDSOLID)], false, TriangleLoop(SkipTo(ts, SYNC), eofLine, parse))
  {
  }

  /** Resynchronising stops on `facet` exactly when the loop goes on. */
  lemma SyncStop(r: seq<Token>, found: Option<Keyword>)
    requires found.Some? <==> r != []
    requires found.Some? ==> found.value in SYNC && Text(found.value) == r[0].word
    ensures found == Some(Facet) <==> !AtLoopEnd(r)
  {
    if found.Some? {
      TextInjective(found.value, Endsolid);
    }
  }

  /** A round that starts on `facet`: the facet is appended, or it marks triangles as skipped. */
  lemma FacetFirst(ts: seq<Token>, eofLine: nat, parse: string -> Option<real>)
    requires ts != [] && ts[0].word == Text(Facet)
    ensures TriangleLoop(ts, eofLine, parse) ==
            var f := FacetRule(ts, eofLine, parse);
            if f.Done? then After([f.value], [], false, TriangleLoop(f.rest, eofLine, parse))
            else After([], f.diags, true, TriangleLoop(SkipTo(f.at, SYNC), eofLine, parse))
  {
    assert !AtLoopEnd(ts);
  }

  /** The solid's name from the header line, when the line starts with "solid ". */
  function HeaderName(text: string, conv: Conversions): (r: Option<string>)
    ensures r.Some? <==> |text| >= |HEADER_PREFIX| && text[..|HEADER_PREFIX|] == HEADER_PREFIX
  {
    if |text| >= |HEADER_PREFIX| && text[..|HEADER_PREFIX|] == HEADER_PREFIX
    then Some(conv.asciiString(text[|HEADER_PREFIX|..]))
    else None
  }

  /** Everything Parse leaves behind. */
  datatype ParseOutcome = ParseOutcome(
    success: bool,
    name: Option<string>,
    triangles: seq<Triangle>,
    diags: seq<Diagnostic>,
    headerError: bool,
    trianglesSkipped: bool)

  /**
   * What Parse has done on a fresh parser over lines before its last
   * statement: the header line and the triangle loop, or the report of an
   * empty file. The tokens left over come second; success is not yet set.
   */
  function HeaderAndLoop(lines: seq<Line>, conv: Conversions): (ParseOutcome, seq<Token>) {
    var ts := Tokens(lines, 0);
    TokenLines(lines, 0);
    if ts == [] then
      (ParseOutcome(false, None, [], [Diagnostic(|lines|, FILE_IS_EMPTY)], true, false), [])
    else
      var h := ts[0].line;
      var name := HeaderName(lines[h - 1].text, conv);
      var headerDiags := if name.None? then [Diagnostic(h, BAD_HEADER)] else [];
      var o := TriangleLoop(Tokens(lines, h), |lines|, conv.parseFloat32);
      (ParseOutcome(false, name, o.triangles, headerDiags + o.diags, name.None?, o.skipped), o.rest)
  }

  /**
   * Parse's last statement: `endsolid` is looked for, and reported when
   * missing, only if neither the header nor a facet failed.
   */
  function FinalCheck(p: ParseOutcome, rest: seq<Token>, eofLine: nat): ParseOutcome {
    var checked := !p.headerError && !p.trianglesSkipped;
    var final := if checked then Expect(rest, eofLine, Endsolid) else Done((), rest);
    p.(success := checked && final.Done?, diags := p.diags + final.Recorded())
  }

  /** Parse on a fresh parser over lines. */
  function ParseSpec(lines: seq<Line>, conv: Conversions): ParseOutcome {
    var (p, rest) := HeaderAndLoop(lines, conv);
    FinalCheck(p, rest, |lines|)
  }
}
