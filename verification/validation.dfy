/**
 * What Solid.Validate reports: the per-triangle findings record, its
 * allocate-on-first-use accessors, and the reference definition of the whole
 * findings map in terms of the mesh.
 */
module Validation {
  import opened Wrappers
  import opened Geometry
  import opened EdgeIndex

  /** The findings for one edge of one triangle. */
  datatype EdgeError = EdgeError(sameEdgeTriangles: set<nat>, counterEdgeTriangles: set<nat>)
  {
    /** The same directed edge is used by another triangle. */
    predicate IsUsedInOtherTriangles() {
      |sameEdgeTriangles| != 0
    }

    /** More than one other triangle holds the edge in the opposite direction. */
    predicate HasMultipleCounterEdges() {
      |counterEdgeTriangles| > 1
    }

    /** No other triangle holds the edge in the opposite direction (per the record). */
    predicate HasNoCounterEdge() {
      |counterEdgeTriangles| == 0
    }
  }

  /** A freshly allocated EdgeError: both lists empty. */
  const NO_EDGE_ERROR := EdgeError({}, {})

  /** Per-edge records indexed by the edge's first vertex; None is the source's nil. */
  type EdgeErrors = s: seq<Option<EdgeError>> | |s| == 3 witness [None, None, None]

  /** The findings for one triangle. */
  datatype TriangleErrors = TriangleErrors(
    hasEqualVertices: bool,
    normalDoesNotMatch: bool,
    edgeErrors: EdgeErrors)

  /** A freshly allocated TriangleErrors: no flag set, no edge record. */
  const NO_TRIANGLE_ERRORS := TriangleErrors(false, false, [None, None, None])

  /** `triangleErrorsMap.item`: the entry for i, a fresh record on first use. */
  function Item(m: map<nat, TriangleErrors>, i: nat): TriangleErrors {
    if i in m then m[i] else NO_TRIANGLE_ERRORS
  }

  /** `TriangleErrors.edge`: the record of edge e, a fresh one on first use. */
  function EdgeRecord(te: TriangleErrors, e: nat): EdgeError
    requires e < 3
  {
    if te.edgeErrors[e].Some? then te.edgeErrors[e].value else NO_EDGE_ERROR
  }

  /** `edge(e).SameEdgeTriangles = s` on a value. */
  function WithSame(te: TriangleErrors, e: nat, s: set<nat>): TriangleErrors
    requires e < 3
  {
    te.(edgeErrors := te.edgeErrors[e := Some(EdgeRecord(te, e).(sameEdgeTriangles := s))])
  }

  /** `edge(e).CounterEdgeTriangles = s` on a value. */
  function WithCounter(te: TriangleErrors, e: nat, s: set<nat>): TriangleErrors
    requires e < 3
  {
    te.(edgeErrors := te.edgeErrors[e := Some(EdgeRecord(te, e).(counterEdgeTriangles := s))])
  }

  /**
   * What Validate records for one edge, given the other triangles holding it
   * in the same and in the opposite direction: same-direction sharers are
   * always an error, and the counter list is recorded unless it has exactly
   * one element.
   */
  function EdgeOutcome(same: set<nat>, counter: set<nat>): Option<EdgeError> {
    if |same| > 0 || |counter| != 1 then Some(EdgeError(same, if |counter| != 1 then counter else {}))
    else None
  }

  /** The other triangles of ts holding edge e of triangle i in the same direction. */
  function SameSharers(ts: seq<Triangle>, i: nat, e: nat): set<nat>
    requires i < |ts| && e < 3
  {
    Sharers(ts, EdgeOf(ts[i], e)) - {i}
  }

  /** The other triangles of ts holding edge e of triangle i in the opposite direction. */
  function CounterSharers(ts: seq<Triangle>, i: nat, e: nat): set<nat>
    requires i < |ts| && e < 3
  {
    Sharers(ts, Reversed(EdgeOf(ts[i], e))) - {i}
  }

  /** What Validate records for edge e of triangle i of ts. */
  function EdgeFinding(ts: seq<Triangle>, i: nat, e: nat): Option<EdgeError>
    requires i < |ts| && e < 3
  {
    EdgeOutcome(SameSharers(ts, i, e), CounterSharers(ts, i, e))
  }

  /** The complete record of triangle i of ts: both flags and the finding of every edge. */
  function Record(ts: seq<Triangle>, normalMatches: Triangle -> bool, i: nat): TriangleErrors
    requires i < |ts|
  {
    TriangleErrors(HasEqualVertices(ts[i]), !normalMatches(ts[i]),
                   seq(3, e requires 0 <= e < 3 => EdgeFinding(ts, i, e)))
  }

  /** Record te as it stands once only its edges below upto are examined. */
  function Prefix(te: TriangleErrors, upto: nat): (r: TriangleErrors)
    ensures r.hasEqualVertices == te.hasEqualVertices && r.normalDoesNotMatch == te.normalDoesNotMatch
    ensures forall e :: 0 <= e < 3 ==> r.edgeErrors[e] == if e < upto then te.edgeErrors[e] else None
  {
    te.(edgeErrors := [if 0 < upto then te.edgeErrors[0] else None,
                       if 1 < upto then te.edgeErrors[1] else None,
                       if 2 < upto then te.edgeErrors[2] else None])
  }

  /** With all three edges examined the record is complete. */
  lemma PrefixAll(te: TriangleErrors)
    ensures Prefix(te, 3) == te
  {
    assert Prefix(te, 3).edgeErrors == te.edgeErrors;
  }

  /** The records of all triangles of ts, in order. */
  function Records(ts: seq<Triangle>, normalMatches: Triangle -> bool): (rs: seq<TriangleErrors>)
    ensures |rs| == |ts|
  {
    seq(|ts|, k requires 0 <= k < |ts| => Record(ts, normalMatches, k))
  }

  /** The map entry for triangle i with record te: present only when te holds a finding. */
  function Entry(te: TriangleErrors, i: nat): map<nat, TriangleErrors> {
    if te != NO_TRIANGLE_ERRORS then map[i := te] else map[]
  }

  /** The entries of the first n records. */
  function FindingsOf(rs: seq<TriangleErrors>, n: nat): map<nat, TriangleErrors>
    requires n <= |rs|
  {
    map k: nat | k < n && rs[k] != NO_TRIANGLE_ERRORS :: rs[k]
  }

  /** The findings map of the first n triangles of ts. */
  function Findings(ts: seq<Triangle>, normalMatches: Triangle -> bool, n: nat): map<nat, TriangleErrors>
    requires n <= |ts|
  {
    FindingsOf(Records(ts, normalMatches), n)
  }

  /** Whether triangle i of ts has a finding: a flag, or a finding on one of its edges. */
  predicate HasFinding(ts: seq<Triangle>, normalMatches: Triangle -> bool, i: nat)
    requires i < |ts|
  {
    HasEqualVertices(ts[i]) || !normalMatches(ts[i]) ||
    EdgeFinding(ts, i, 0).Some? || EdgeFinding(ts, i, 1).Some? || EdgeFinding(ts, i, 2).Some?
  }

  /**
   * The findings map has a key k exactly when triangle k (among the first n)
   * has at least one finding, and then holds both its flags and the finding
   * of each of its edges.
   */
  lemma FindingsAt(ts: seq<Triangle>, normalMatches: Triangle -> bool, n: nat, k: nat)
    requires n <= |ts|
    ensures k in Findings(ts, normalMatches, n) <==> k < n && HasFinding(ts, normalMatches, k)
    ensures k in Findings(ts, normalMatches, n) ==>
              var te := Findings(ts, normalMatches, n)[k];
              te.hasEqualVertices == HasEqualVertices(ts[k]) && te.normalDoesNotMatch == !normalMatches(ts[k]) &&
              forall e :: 0 <= e < 3 ==> te.edgeErrors[e] == EdgeFinding(ts, k, e)
  {
    if k < n {
      var te := Record(ts, normalMatches, k);
      assert Records(ts, normalMatches)[k] == te;
      IsFresh(te);
    }
  }

  /** A record is the fresh one exactly when no flag is set and no edge has a record. */
  lemma IsFresh(te: TriangleErrors)
    ensures te == NO_TRIANGLE_ERRORS <==>
            !te.hasEqualVertices && !te.normalDoesNotMatch &&
            te.edgeErrors[0] == None && te.edgeErrors[1] == None && te.edgeErrors[2] == None
  {
    if te.edgeErrors[0] == None && te.edgeErrors[1] == None && te.edgeErrors[2] == None {
      assert te.edgeErrors == [None, None, None];
    }
  }

  /** Adding the entry of record i extends the map from i records to i + 1. */
  lemma FindingsOfNext(rs: seq<TriangleErrors>, i: nat)
    requires i < |rs|
    ensures FindingsOf(rs, i + 1) == FindingsOf(rs, i) + Entry(rs[i], i)
  {
    var next, m := FindingsOf(rs, i + 1), FindingsOf(rs, i) + Entry(rs[i], i);
    forall k | k in next ensures k in m && m[k] == next[k] {
      if k == i {
        assert k in Entry(rs[i], i);
      }
    }
  }

  /** Before triangle i is examined, `item(i)` is a fresh record. */
  lemma ItemFresh(rs: seq<TriangleErrors>, i: nat)
    requires i <= |rs|
    ensures Item(FindingsOf(rs, i), i) == NO_TRIANGLE_ERRORS
  {
  }

  /** While triangle i is being examined, `item(i)` yields the record so far. */
  lemma ItemEntry(m: map<nat, TriangleErrors>, te: TriangleErrors, i: nat)
    requires i !in m
    ensures Item(m + Entry(te, i), i) == te
  {
  }

  /** The two flag checks of Validate's second loop enter record te with no edge examined. */
  lemma FlagStep(m: map<nat, TriangleErrors>, i: nat, te: TriangleErrors)
    requires i !in m
    ensures var m1 := if te.hasEqualVertices then m[i := Item(m, i).(hasEqualVertices := true)] else m;
            var m2 := if te.normalDoesNotMatch then m1[i := Item(m1, i).(normalDoesNotMatch := true)] else m1;
            m2 == m + Entry(Prefix(te, 0), i)
  {
    var p := Prefix(te, 0);
    assert p.edgeErrors == [None, None, None];
  }

  /** The two updates of one edge, on the record value, store EdgeOutcome for that edge. */
  lemma EdgeUpdate(te: TriangleErrors, e: nat, same: set<nat>, counter: set<nat>)
    requires e < 3 && te.edgeErrors[e] == None
    ensures var t1 := if |same| > 0 then WithSame(te, e, same) else te;
            var t2 := if |counter| != 1 then WithCounter(t1, e, counter) else t1;
            t2 == te.(edgeErrors := te.edgeErrors[e := EdgeOutcome(same, counter)])
  {
  }

  /** Examining edge e stores that edge's entry of te in the record built so far. */
  lemma PrefixStep(te: TriangleErrors, e: nat)
    requires e < 3
    ensures Prefix(te, e + 1) == Prefix(te, e).(edgeErrors := Prefix(te, e).edgeErrors[e := te.edgeErrors[e]])
  {
    var p, p' := Prefix(te, e), Prefix(te, e + 1);
    assert p'.edgeErrors == p.edgeErrors[e := te.edgeErrors[e]];
  }

  /** The two updates of one edge, on the map, replace the entry of i by the extended record. */
  lemma EntryUpdate(m: map<nat, TriangleErrors>, i: nat, p: TriangleErrors, e: nat, same: set<nat>, counter: set<nat>)
    requires i !in m && e < 3 && p.edgeErrors[e] == None
    ensures var m0 := m + Entry(p, i);
            var m1 := if |same| > 0 then m0[i := WithSame(Item(m0, i), e, same)] else m0;
            var m2 := if |counter| != 1 then m1[i := WithCounter(Item(m1, i), e, counter)] else m1;
            m2 == m + Entry(p.(edgeErrors := p.edgeErrors[e := EdgeOutcome(same, counter)]), i)
  {
    EdgeUpdate(p, e, same, counter);
    var p' := p.(edgeErrors := p.edgeErrors[e := EdgeOutcome(same, counter)]);
    var m0 := m + Entry(p, i);
    var m1 := if |same| > 0 then m0[i := WithSame(Item(m0, i), e, same)] else m0;
    var m2 := if |counter| != 1 then m1[i := WithCounter(Item(m1, i), e, counter)] else m1;
    ItemEntry(m, p, i);
    if p' == p {
      assert m2 == m0;
    } else {
      assert m2 == m[i := p'];
    }
  }

  /**
   * The two updates of edge e, on the map, extend the entry of i by the
   * finding of that edge, provided the record te has EdgeOutcome there.
   */
  lemma EdgeStep(m: map<nat, TriangleErrors>, i: nat, te: TriangleErrors, e: nat, same: set<nat>, counter: set<nat>)
    requires i !in m && e < 3 && te.edgeErrors[e] == EdgeOutcome(same, counter)
    ensures var m0 := m + Entry(Prefix(te, e), i);
            var m1 := if |same| > 0 then m0[i := WithSame(Item(m0, i), e, same)] else m0;
            var m2 := if |counter| != 1 then m1[i := WithCounter(Item(m1, i), e, counter)] else m1;
            m2 == m + Entry(Prefix(te, e + 1), i)
  {
    PrefixStep(te, e);
    EntryUpdate(m, i, Prefix(te, e), e, same, counter);
  }
}
