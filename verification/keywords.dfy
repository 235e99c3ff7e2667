/**
 * The nine keywords of the ASCII STL grammar and whole-word matching
 * against them. A keyword set stands for one of the source's identifier
 * patterns: a single keyword, or the resynchronisation pair
 * {Facet, Endsolid}.
 */
module Keywords {
  import opened Wrappers

  datatype Keyword = Solid | Facet | Normal | Outer | Loop | Vertex | Endloop | Endfacet | Endsolid

  /** The spelling of a keyword in the file. */
  function Text(k: Keyword): string {
    match k
    case Solid => "solid"
    case Facet => "facet"
    case Normal => "normal"
    case Outer => "outer"
    case Loop => "loop"
    case Vertex => "vertex"
    case Endloop => "endloop"
    case Endfacet => "endfacet"
    case Endsolid => "endsolid"
  }

  /** The keyword a word spells, if any: patterns match the whole word only. */
  function Classify(w: string): (r: Option<Keyword>)
    ensures r.Some? ==> Text(r.value) == w
    ensures forall k: Keyword :: Text(k) == w ==> r == Some(k)
  {
    if w == "solid" then Some(Solid)
    else if w == "facet" then Some(Facet)
    else if w == "normal" then Some(Normal)
    else if w == "outer" then Some(Outer)
    else if w == "loop" then Some(Loop)
    else if w == "vertex" then Some(Vertex)
    else if w == "endloop" then Some(Endloop)
    else if w == "endfacet" then Some(Endfacet)
    else if w == "endsolid" then Some(Endsolid)
    else None
  }

  /** Whether word w matches the pattern of the keyword set ks: it spells one of them, as a whole. */
  predicate IsIdent(w: string, ks: set<Keyword>) {
    exists k :: k in ks && Text(k) == w
  }

  /** The pattern the triangle loop resynchronises on. */
  const SYNC: set<Keyword> := {Facet, Endsolid}

  /** Matching a pattern is classifying the word as one of its keywords. */
  lemma IsIdentClassify(w: string, ks: set<Keyword>)
    ensures IsIdent(w, ks) <==> Classify(w).Some? && Classify(w).value in ks
  {
    if IsIdent(w, ks) {
      var k :| k in ks && Text(k) == w;
      assert Classify(w) == Some(k);
    }
  }

  /** A single-keyword pattern matches exactly that keyword's spelling. */
  lemma IsIdentSingle(w: string, k: Keyword)
    ensures IsIdent(w, {k}) <==> w == Text(k)
  {
    if w == Text(k) {
      assert k in {k} && Text(k) == w;
    }
  }

  /** No two keywords are spelt alike, so a word names at most one keyword. */
  lemma TextInjective(k: Keyword, j: Keyword)
    ensures Text(k) == Text(j) ==> k == j
  {
    var _ := Classify(Text(k));
  }
}
