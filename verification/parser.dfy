/**
 * The ASCII STL parser: a cursor over the input lines with a line counter,
 * the current line and word, an end-of-file flag and the list of
 * diagnostics, driving the grammar of module Grammar. Every method is
 * proved to do to the remaining tokens, the diagnostics and the writer
 * what the corresponding grammar function says.
 */
module AsciiParser {
  import opened Wrappers
  import opened Geometry
  import opened Keywords
  import opened Lexer
  import opened Diagnostics
  import opened Grammar
  import Solids

  class Parser {
    /** What the line scanner delivers, line by line. */
    const lines: seq<Line>
    /** The float and name conversions the parser calls out to. */
    const conv: Conversions

    /** Number of lines read so far; the line number of the current word. */
    var line: nat
    /** How many words of the current line the word scanner has handed out. */
    var used: nat
    var currentWord: string
    var currentLine: string
    var eof: bool
    var errors: seq<Diagnostic>
    var headerError: bool
    var trianglesSkipped: bool
    var errorText: string

    /** The scanners' position: a line is current unless the input is exhausted. */
    ghost predicate Positioned()
      reads this`line, this`used, this`currentWord, this`currentLine, this`eof
    {
      line <= |lines| &&
      (eof ==> line == |lines| && currentWord == "" && currentLine == "") &&
      (!eof ==> 1 <= line && used <= |lines[line - 1].words| && currentLine == lines[line - 1].text)
    }

    /** Positioned, and the current word is the last word handed out. */
    ghost predicate Valid()
      reads this`line, this`used, this`currentWord, this`currentLine, this`eof
    {
      Positioned() && (!eof ==> 1 <= used && currentWord == lines[line - 1].words[used - 1])
    }

    /** The tokens the scanners have not handed out yet. */
    ghost function Pending(): seq<Token>
      reads this`line, this`used, this`currentWord, this`currentLine, this`eof
      requires Positioned()
    {
      if eof then [] else TokensFrom(lines, line, used)
    }

    /** The tokens ahead of the cursor, the current word first. */
    ghost function Rest(): seq<Token>
      reads this`line, this`used, this`currentWord, this`currentLine, this`eof
      requires Valid()
    {
      if eof then [] else TokensFrom(lines, line, used - 1)
    }

    /** The tokens ahead are the current word, then those not handed out yet. */
    lemma RestSplit()
      requires Valid()
      ensures eof <==> Rest() == []
      ensures !eof ==> Rest()[0] == Token(currentWord, line) && Rest()[1..] == Pending()
    {
      if !eof {
        var ts := Rest();
        assert ts == [Token(currentWord, line)] + Pending();
        assert ts[1..] == Pending();
      }
    }

    /** newParser: reads up to the first word of the input. */
    constructor (lines: seq<Line>, conv: Conversions)
      ensures this.lines == lines && this.conv == conv
      ensures Valid() && Rest() == Tokens(lines, 0)
      ensures errors == [] && !headerError && !trianglesSkipped && errorText == ""
    {
      this.lines := lines;
      this.conv := conv;
      line, used, currentWord, currentLine, eof := 0, 0, "", "", false;
      errors, headerError, trianglesSkipped, errorText := [], false, false, "";
      new;
      var _ := NextLine();
    }

    /** addError: records msg under the current line number. */
    method AddError(msg: string)
      modifies this`errors
      ensures errors == old(errors) + [Diagnostic(line, msg)]
    {
      errors := errors + [Diagnostic(line, msg)];
    }

    /** nextWord: the next word of the current line, or of the next line that has one. */
    method NextWord() returns (more: bool)
      requires Positioned()
      modifies this`line, this`used, this`currentWord, this`currentLine, this`eof
      ensures Valid() && Rest() == old(Pending())
      ensures more == !eof && old(line) <= line
      decreases |lines| - line, 1
    {
      if eof {
        return false;
      }
      var words := lines[line - 1].words;
      if used < |words| {
        currentWord := words[used];
        used := used + 1;
        return true;
      }
      if line < |lines| {
        TokensFromStart(lines, line + 1);
      }
      more := NextLine();
    }

    /** nextLine: starts reading the next line, or hits the end of the input. */
    method NextLine() returns (more: bool)
      requires line <= |lines| && (eof ==> line == |lines|)
      modifies this`line, this`used, this`currentWord, this`currentLine, this`eof
      ensures Valid() && Rest() == Tokens(lines, old(line))
      ensures more == !eof && old(line) <= line
      decreases |lines| - line, 0
    {
      if line < |lines| {
        currentLine := lines[line].text;
        line := line + 1;
        used := 0;
        TokensFromStart(lines, line);
        more := NextWord();
        return;
      }
      currentLine, currentWord, eof := "", "", true;
      more := false;
    }

    /** isCurrentTokenIdent: whether the current word matches the pattern ks. */
    function IsCurrentTokenIdent(ks: set<Keyword>): (b: bool)
      reads this
      requires Valid()
      ensures b <==> Rest() != [] && IsIdent(Rest()[0].word, ks)
    {
      RestSplit();
      IsIdent(currentWord, ks)
    }

    /**
     * skipToToken: moves forward to the first word matching ks, the current
     * one included, and says which keyword it found (None at the end).
     */
    method SkipToToken(ks: set<Keyword>) returns (found: Option<Keyword>)
      requires Valid()
      modifies this`line, this`used, this`currentWord, this`currentLine, this`eof
      ensures Valid()
      ensures Rest() == SkipTo(old(Rest()), ks)
      ensures found.Some? <==> Rest() != []
      ensures found.Some? ==> found.value in ks && Text(found.value) == Rest()[0].word
    {
      while true
        invariant Valid()
        invariant SkipTo(Rest(), ks) == SkipTo(old(Rest()), ks)
        decreases |Rest()|
      {
        RestSplit();
        if IsIdent(currentWord, ks) {
          var k :| k in ks && Text(k) == currentWord;
          return Some(k);
        }
        ghost var ts := Rest();
        var more := NextWord();
        if !more {
          return None;
        }
        assert Rest() == ts[1..];
      }
    }

    /** consumeToken: skips the current word if it spells k, otherwise reports it. */
    method ConsumeToken(k: Keyword) returns (ok: bool)
      requires Valid()
      modifies this`line, this`used, this`currentWord, this`currentLine, this`eof, this`errors
      ensures Valid() && old(line) <= line
      ensures var s := Expect(old(Rest()), |lines|, k);
              ok == s.Done? && Rest() == s.Remaining()
      ensures var s := Expect(old(Rest()), |lines|, k);
              ok ==> errors == old(errors)
      ensures var s := Expect(old(Rest()), |lines|, k);
              !ok ==> errors == old(errors) + s.diags
    {
      RestSplit();
      IsIdentSingle(currentWord, k);
      if !IsIdent(currentWord, {k}) {
        AddError(Expected(k));
        return false;
      }
      var _ := NextWord();
      return true;
    }

    /** parseFloat64: the current word as a number; at the end of the input, fails silently. */
    method ParseFloat() returns (ok: bool, f: real)
      requires Valid()
      modifies this`line, this`used, this`currentWord, this`currentLine, this`eof, this`errors
      ensures Valid() && old(line) <= line
      ensures var s := Number(old(Rest()), conv.parseFloat32);
              ok == s.Done? && Rest() == s.Remaining()
      ensures var s := Number(old(Rest()), conv.parseFloat32);
              ok ==> errors == old(errors) && f == s.value
      ensures var s := Number(old(Rest()), conv.parseFloat32);
              !ok ==> errors == old(errors) + s.diags
    {
      RestSplit();
      if eof {
        return false, 0.0;
      }
      var parsed := conv.parseFloat32(currentWord);
      if parsed.None? {
        AddError(BAD_FLOAT);
        return false, 0.0;
      }
      f := parsed.value;
      var _ := NextWord();
      ok := true;
    }

    /** parsePoint: three numbers, stopping at the first that fails. */
    method ParsePoint() returns (ok: bool, pt: Vec3)
      requires Valid()
      modifies this`line, this`used, this`currentWord, this`currentLine, this`eof, this`errors
      ensures Valid() && old(line) <= line
      ensures var s := Point(old(Rest()), conv.parseFloat32);
              ok == s.Done? && Rest() == s.Remaining()
      ensures var s := Point(old(Rest()), conv.parseFloat32);
              ok ==> errors == old(errors) && pt == s.value
      ensures var s := Point(old(Rest()), conv.parseFloat32);
              !ok ==> errors == old(errors) + s.diags
    {
      pt := Vec3(0.0, 0.0, 0.0);
      ghost var ts, e0 := Rest(), errors;
      var x, y, z;
      ok, x := ParseFloat();
      if !ok {
        return;
      }
      ghost var ts1, e1 := Rest(), errors;
      assert ts1 == ts[1..] && e1 == e0;
      ok, y := ParseFloat();
      if !ok {
        return;
      }
      ghost var ts2, e2 := Rest(), errors;
      assert ts2 == ts1[1..] && e2 == e0;
      ok, z := ParseFloat();
      if !ok {
        return;
      }
      pt := Vec3(x, y, z);
    }

    /**
     * `vertex P` at item stage of the facet grammar, the point going into
     * the given slot of t: one link of the parseFacet chain.
     */
    method ParseVertex(ghost stage: nat, slot: nat, t: Triangle) returns (ok: bool, u: Triangle)
      requires Valid() && stage + 2 <= FACET_ITEMS
      requires ItemAt(stage) == Word(Vertex) && ItemAt(stage + 1) == Coordinates(slot)
      modifies this`line, this`used, this`currentWord, this`currentLine, this`eof, this`errors
      ensures Valid()
      ensures ok ==> errors == old(errors) &&
                     FacetFrom(stage, old(Rest()), t, |lines|, conv.parseFloat32) == FacetFrom(stage + 2, Rest(), u, |lines|, conv.parseFloat32)
      ensures !ok ==> var s := FacetFrom(stage, old(Rest()), t, |lines|, conv.parseFloat32);
                      s.Failed? && Rest() == s.at && errors == old(errors) + s.diags
    {
      u := t;
      ghost var r := Rest();
      WordStep(stage, Vertex, r, t, |lines|, conv.parseFloat32);
      ok := ConsumeToken(Vertex);
      if !ok { return; }
      r := Rest();
      PointStep(stage + 1, slot, r, t, |lines|, conv.parseFloat32);
      var p: Vec3;
      ok, p := ParsePoint();
      if !ok { return; }
      u := Store(t, slot, p);
    }

    /** The three `vertex P` lines of a facet, into slots 1 to 3. */
    method ParseVertices(t: Triangle) returns (ok: bool, u: Triangle)
      requires Valid()
      modifies this`line, this`used, this`currentWord, this`currentLine, this`eof, this`errors
      ensures Valid()
      ensures ok ==> errors == old(errors) &&
                     FacetFrom(5, old(Rest()), t, |lines|, conv.parseFloat32) == FacetFrom(11, Rest(), u, |lines|, conv.parseFloat32)
      ensures !ok ==> var s := FacetFrom(5, old(Rest()), t, |lines|, conv.parseFloat32);
                      s.Failed? && Rest() == s.at && errors == old(errors) + s.diags
    {
      ok, u := ParseVertex(5, 1, t);
      if !ok { return; }
      ok, u := ParseVertex(7, 2, u);
      if !ok { return; }
      ok, u := ParseVertex(9, 3, u);
    }

    /** `outer loop vertex P vertex P vertex P endloop`: the middle links of the parseFacet chain. */
    method ParseLoop(t: Triangle) returns (ok: bool, u: Triangle)
      requires Valid()
      modifies this`line, this`used, this`currentWord, this`currentLine, this`eof, this`errors
      ensures Valid()
      ensures ok ==> errors == old(errors) &&
                     FacetFrom(3, old(Rest()), t, |lines|, conv.parseFloat32) == FacetFrom(12, Rest(), u, |lines|, conv.parseFloat32)
      ensures !ok ==> var s := FacetFrom(3, old(Rest()), t, |lines|, conv.parseFloat32);
                      s.Failed? && Rest() == s.at && errors == old(errors) + s.diags
    {
      u := t;
      ghost var r := Rest();
      WordStep(3, Outer, r, t, |lines|, conv.parseFloat32);
      ok := ConsumeToken(Outer);
      if !ok { return; }
      r := Rest();
      WordStep(4, Loop, r, t, |lines|, conv.parseFloat32);
      ok := ConsumeToken(Loop);
      if !ok { return; }
      ok, u := ParseVertices(u);
      if !ok { return; }
      r := Rest();
      WordStep(11, Endloop, r, u, |lines|, conv.parseFloat32);
      ok := ConsumeToken(Endloop);
    }

    /**
     * parseFacet: one facet, stopping at the first step that fails. The
     * chain of steps is grouped as the blocks of the format nest.
     */
    method ParseFacet() returns (ok: bool, t: Triangle)
      requires Valid()
      modifies this`line, this`used, this`currentWord, this`currentLine, this`eof, this`errors
      ensures Valid()
      ensures var s := FacetRule(old(Rest()), |lines|, conv.parseFloat32);
              ok == s.Done? && Rest() == s.Remaining()
      ensures var s := FacetRule(old(Rest()), |lines|, conv.parseFloat32);
              ok ==> errors == old(errors) && t == s.value
      ensures var s := FacetRule(old(Rest()), |lines|, conv.parseFloat32);
              !ok ==> errors == old(errors) + s.diags
    {
      t := ZERO_TRIANGLE;
      ghost var r := Rest();
      WordStep(0, Facet, r, t, |lines|, conv.parseFloat32);
      ok := ConsumeToken(Facet);
      if !ok { return; }
      r := Rest();
      WordStep(1, Normal, r, t, |lines|, conv.parseFloat32);
      ok := ConsumeToken(Normal);
      if !ok { return; }
      r := Rest();
      PointStep(2, 0, r, t, |lines|, conv.parseFloat32);
      var normal: Vec3;
      ok, normal := ParsePoint();
      if !ok { return; }
      t := t.(normal := normal);
      ok, t := ParseLoop(t);
      if !ok { return; }
      r := Rest();
      WordStep(12, Endfacet, r, t, |lines|, conv.parseFloat32);
      ok := ConsumeToken(Endfacet);
    }

    /**
     * parseASCIIHeaderLine: the current line must start with "solid "; the
     * rest of it names the solid. The whole line is consumed either way.
     */
    method ParseHeaderLine(sw: Solids.Solid) returns (ok: bool)
      requires Valid()
      modifies this`line, this`used, this`currentWord, this`currentLine, this`eof, this`errors, sw`name
      ensures Valid() && Rest() == Tokens(lines, old(line))
      ensures old(eof) ==> !ok && sw.name == old(sw.name) && errors == old(errors) + [Diagnostic(old(line), UNEXPECTED_EOF)]
      ensures !old(eof) ==>
                var name := HeaderName(old(currentLine), conv);
                ok == name.Some? &&
                sw.name == (if ok then name.value else old(sw.name)) &&
                errors == old(errors) + (if ok then [] else [Diagnostic(old(line), BAD_HEADER)])
    {
      if eof {
        AddError(UNEXPECTED_EOF);
        ok := false;
      } else if !(|currentLine| >= |HEADER_PREFIX| && currentLine[..|HEADER_PREFIX|] == HEADER_PREFIX) {
        AddError(BAD_HEADER);
        ok := false;
      } else {
        var name := conv.asciiString(currentLine[|HEADER_PREFIX|..]);
        sw.SetName(name);
        ok := true;
      }
      var _ := NextLine();
    }

    /**
     * Parse on a fresh parser: the header line, the triangle loop, then the
     * final `endsolid`, which is looked for only when neither the header nor
     * a facet failed; the error text is generated last.
     */
    method Parse(sw: Solids.Solid) returns (success: bool)
      requires Valid() && Rest() == Tokens(lines, 0) && !trianglesSkipped && sw.Valid()
      modifies this`line, this`used, this`currentWord, this`currentLine, this`eof, this`errors,
               this`headerError, this`trianglesSkipped, this`errorText, sw`name, sw`triangles, sw`capacity
      ensures Valid() && sw.Valid()
      ensures var o := ParseSpec(lines, conv);
              success == o.success && headerError == o.headerError && trianglesSkipped == o.trianglesSkipped
      ensures var o := ParseSpec(lines, conv);
              errors == old(errors) + o.diags && sw.triangles == old(sw.triangles) + o.triangles
      ensures var o := ParseSpec(lines, conv);
              sw.name == if o.name.Some? then o.name.value else old(sw.name)
      ensures errorText == ErrorText(trianglesSkipped, errors)
    {
      ghost var body := HeaderAndLoop(lines, conv);
      ghost var e0 := errors;
      HeaderOrEmpty(sw);
      success := CheckEndAndReport(e0, body.0, body.1);
    }

    /** Parse up to its last statement: an empty file is reported, otherwise the header and the triangles are read. */
    method HeaderOrEmpty(sw: Solids.Solid)
      requires Valid() && Rest() == Tokens(lines, 0) && !trianglesSkipped && sw.Valid()
      modifies this`line, this`used, this`currentWord, this`currentLine, this`eof, this`errors,
               this`headerError, this`trianglesSkipped, sw`name, sw`triangles, sw`capacity
      ensures Valid() && sw.Valid()
      ensures var p := HeaderAndLoop(lines, conv).0;
              headerError == p.headerError && trianglesSkipped == p.trianglesSkipped &&
              Rest() == HeaderAndLoop(lines, conv).1
      ensures var p := HeaderAndLoop(lines, conv).0;
              errors == old(errors) + p.diags && sw.triangles == old(sw.triangles) + p.triangles
      ensures var p := HeaderAndLoop(lines, conv).0;
              sw.name == if p.name.Some? then p.name.value else old(sw.name)
    {
      if eof {
        headerError := true;
        AddError(FILE_IS_EMPTY);
        assert sw.triangles == old(sw.triangles) + [];
      } else {
        RestSplit();
        assert Tokens(lines, 0)[0].line == line;
        ghost var e0 := errors;
        ghost var header := if HeaderName(currentLine, conv).None? then [Diagnostic(line, BAD_HEADER)] else [];
        ghost var o := TriangleLoop(Tokens(lines, line), |lines|, conv.parseFloat32);
        ParseBody(sw);
        AppendAssoc(e0, header, o.diags);
      }
    }

    /**
     * Parse's last statement: `endsolid` is consumed only if neither the
     * header nor a facet failed; then the error text is generated.
     */
    method CheckEndAndReport(ghost before: seq<Diagnostic>, ghost p: ParseOutcome, ghost rest: seq<Token>)
      returns (success: bool)
      requires Valid() && Rest() == rest && errors == before + p.diags
      requires headerError == p.headerError && trianglesSkipped == p.trianglesSkipped
      modifies this`line, this`used, this`currentWord, this`currentLine, this`eof, this`errors, this`errorText
      ensures Valid()
      ensures var o := FinalCheck(p, rest, |lines|);
              success == o.success && errors == before + o.diags
      ensures errorText == ErrorText(trianglesSkipped, errors)
    {
      success := !headerError && !trianglesSkipped;
      if success {
        ghost var e1 := errors;
        success := ConsumeToken(Endsolid);
        AppendAssoc(before, p.diags, Expect(rest, |lines|, Endsolid).Recorded());
      } else {
        assert errors == before + (p.diags + []);
      }
      GenerateErrorText();
    }

    /** The header line and the triangle loop of Parse, on input that has words. */
    method ParseBody(sw: Solids.Solid)
      requires Valid() && !eof && !trianglesSkipped && sw.Valid()
      modifies this`line, this`used, this`currentWord, this`currentLine, this`eof, this`errors,
               this`headerError, this`trianglesSkipped, sw`name, sw`triangles, sw`capacity
      ensures Valid() && sw.Valid()
      ensures var name := HeaderName(old(currentLine), conv);
              headerError == name.None? && sw.name == (if name.Some? then name.value else old(sw.name))
      ensures var name := HeaderName(old(currentLine), conv);
              var o := TriangleLoop(Tokens(lines, old(line)), |lines|, conv.parseFloat32);
              errors == old(errors) + (if name.None? then [Diagnostic(old(line), BAD_HEADER)] else []) + o.diags &&
              sw.triangles == old(sw.triangles) + o.triangles &&
              trianglesSkipped == o.skipped && Rest() == o.rest
    {
      var ok := ParseHeaderLine(sw);
      headerError := !ok;
      RunTriangleLoop(sw);
    }

    /** The loop labelled TriangleLoop in Parse: rounds until the end of the input or `endsolid`. */
    method RunTriangleLoop(sw: Solids.Solid)
      requires Valid() && sw.Valid()
      modifies this`line, this`used, this`currentWord, this`currentLine, this`eof, this`errors,
               this`trianglesSkipped, sw`triangles, sw`capacity
      ensures Valid() && sw.Valid()
      ensures var o := TriangleLoop(old(Rest()), |lines|, conv.parseFloat32);
              sw.triangles == old(sw.triangles) + o.triangles && errors == old(errors) + o.diags &&
              trianglesSkipped == (old(trianglesSkipped) || o.skipped) && Rest() == o.rest
    {
      ghost var start, n0, e0, s0 := Rest(), sw.triangles, errors, trianglesSkipped;
      ghost var added: seq<Triangle>, recorded: seq<Diagnostic>, skipped := [], [], false;
      assert sw.triangles == n0 + added && errors == e0 + recorded;
      ghost var o := TriangleLoop(start, |lines|, conv.parseFloat32);
      assert [] + o.triangles == o.triangles && [] + o.diags == o.diags;
      while !eof && !IsCurrentTokenIdent({Endsolid})
        invariant Valid() && sw.Valid()
        invariant sw.triangles == n0 + added && errors == e0 + recorded && trianglesSkipped == (s0 || skipped)
        invariant TriangleLoop(start, |lines|, conv.parseFloat32) ==
                  After(added, recorded, skipped, TriangleLoop(Rest(), |lines|, conv.parseFloat32))
        decreases |Rest()|
      {
        RestSplit();
        IsIdentSingle(currentWord, Endsolid);
        var stop, a, r, k := TriangleLoopRound(sw);
        AfterAfter(added, recorded, skipped, a, r, k, TriangleLoop(Rest(), |lines|, conv.parseFloat32));
        AppendAssoc(n0, added, a);
        AppendAssoc(e0, recorded, r);
        added, recorded, skipped := added + a, recorded + r, skipped || k;
        if stop {
          break;
        }
      }
      RestSplit();
      IsIdentSingle(currentWord, Endsolid);
      assert AtLoopEnd(Rest());
      assert added + [] == added && recorded + [] == recorded;
    }

    /**
     * One round of Parse's triangle loop, entered with the cursor neither at
     * the end of the input nor on `endsolid`. A stray word is reported and
     * the cursor moves on to the next `facet` or `endsolid`; unless that is a
     * `facet` the round asks the loop to stop.
     */
    method TriangleLoopRound(sw: Solids.Solid) returns (stop: bool, ghost added: seq<Triangle>,
                                                       ghost recorded: seq<Diagnostic>, ghost skipped: bool)
      requires Valid() && sw.Valid() && !AtLoopEnd(Rest())
      modifies this`line, this`used, this`currentWord, this`currentLine, this`eof, this`errors,
               this`trianglesSkipped, sw`triangles, sw`capacity
      ensures Valid() && sw.Valid() && |Rest()| < |old(Rest())|
      ensures stop ==> AtLoopEnd(Rest())
      ensures sw.triangles == old(sw.triangles) + added
      ensures errors == old(errors) + recorded
      ensures trianglesSkipped == (old(trianglesSkipped) || skipped)
      ensures TriangleLoop(old(Rest()), |lines|, conv.parseFloat32) ==
              After(added, recorded, skipped, TriangleLoop(Rest(), |lines|, conv.parseFloat32))
    {
      ghost var ts := Rest();
      RestSplit();
      IsIdentSingle(currentWord, Facet);
      if IsCurrentTokenIdent({Facet}) {
        stop := false;
        added, recorded, skipped := FacetRound(sw);
        return;
      }
      ghost var e0, n0 := errors, sw.triangles;
      StrayFirst(ts, |lines|, conv.parseFloat32);
      var found := ReportStray();
      recorded := [Diagnostic(ts[0].line, FACET_OR_ENDSOLID)];
      if found != Some(Facet) {
        assert sw.triangles == n0 + [];
        return true, [], recorded, false;
      }
      ghost var a, r, k;
      a, r, k := FacetRound(sw);
      AfterStray(recorded, a, r, k, TriangleLoop(Rest(), |lines|, conv.parseFloat32));
      AppendAssoc(e0, recorded, r);
      stop, added, recorded, skipped := false, a, recorded + r, k;
    }

    /**
     * A word other than `facet` or `endsolid` where a facet should start:
     * reported, then skipped together with everything up to the next
     * `facet` or `endsolid`.
     */
    method ReportStray() returns (found: Option<Keyword>)
      requires Valid() && !AtLoopEnd(Rest()) && Rest()[0].word != Text(Facet)
      modifies this`line, this`used, this`currentWord, this`currentLine, this`eof, this`errors
      ensures Valid() && Rest() == SkipTo(old(Rest()), SYNC) && |Rest()| < |old(Rest())|
      ensures errors == old(errors) + [Diagnostic(old(Rest())[0].line, FACET_OR_ENDSOLID)]
      ensures found == Some(Facet) <==> !AtLoopEnd(Rest())
    {
      ghost var ts := Rest();
      RestSplit();
      SkipStray(ts);
      AddError(FACET_OR_ENDSOLID);
      found := SkipToToken(SYNC);
      SyncStop(Rest(), found);
    }

    /**
     * The rest of a round, from a `facet` word on: a facet that parses goes
     * to the writer; one that fails marks triangles as skipped, and the
     * cursor moves on to the next `facet` or `endsolid`.
     */
    method FacetRound(sw: Solids.Solid) returns (ghost added: seq<Triangle>, ghost recorded: seq<Diagnostic>, ghost skipped: bool)
      requires Valid() && sw.Valid() && Rest() != [] && Rest()[0].word == Text(Facet)
      modifies this`line, this`used, this`currentWord, this`currentLine, this`eof, this`errors,
               this`trianglesSkipped, sw`triangles, sw`capacity
      ensures Valid() && sw.Valid() && |Rest()| < |old(Rest())|
      ensures sw.triangles == old(sw.triangles) + added
      ensures errors == old(errors) + recorded
      ensures trianglesSkipped == (old(trianglesSkipped) || skipped)
      ensures TriangleLoop(old(Rest()), |lines|, conv.parseFloat32) ==
              After(added, recorded, skipped, TriangleLoop(Rest(), |lines|, conv.parseFloat32))
    {
      ghost var at := Rest();
      FacetFirst(at, |lines|, conv.parseFloat32);
      var ok, t := ParseFacet();
      if ok {
        sw.AppendTriangle(t);
        added, recorded, skipped := [t], [], false;
      } else {
        trianglesSkipped := true;
        ghost var stopped := Rest();
        added, recorded, skipped := [], FacetRule(at, |lines|, conv.parseFloat32).diags, true;
        var _ := SkipToToken(SYNC);
      }
    }

    /** generateErrorText: the banner if triangles were skipped, then one line per diagnostic. */
    method GenerateErrorText()
      modifies this`errorText
      ensures errorText == ErrorText(trianglesSkipped, errors)
    {
      var buf := if trianglesSkipped then SKIPPED_BANNER else "";
      var i := 0;
      while i < |errors|
        invariant 0 <= i <= |errors|
        invariant buf == ErrorText(trianglesSkipped, errors[..i])
      {
        assert errors[..i + 1] == errors[..i] + [errors[i]];
        ErrorTextStep(trianglesSkipped, errors[..i], errors[i]);
        buf := buf + DiagnosticLine(errors[i]);
        i := i + 1;
      }
      assert errors[..i] == errors;
      errorText := buf;
    }
  }
}
