/** Shared mesh topology (Mesh.cpp). Vertex and face pointers of the
    original become indices: a face is the list of its vertex indices, and an
    edge holds its two vertex indices and the indices of the (at most two)
    faces that own it.

    `generateEdges` walks every side of every face, including the wrap from
    the last vertex back to the first, and either records a new edge or marks
    the existing one as shared. `EdgesOf` states what the result is, in terms
    of the sequence of sides alone: no unordered vertex pair twice, every side
    covered, each edge oriented as and owned by the first side that introduced
    it, its second face the last later side on the same pair, and edges in
    order of introduction. */
module Meshes {
  import opened Wrappers
  import opened Geometry
  import opened Arrays

  datatype Edge = Edge(a: nat, b: nat, faceA: Option<nat>, faceB: Option<nat>)

  /** One side of a face: the face index and the two vertex indices. */
  datatype Side = Side(face: nat, a: nat, b: nat)

  /** findEdge's test: the edge joins a and b, in either direction. */
  predicate SameEdge(e: Edge, a: nat, b: nat)
  {
    (a == e.a && b == e.b) || (a == e.b && b == e.a)
  }

  /** Side s lies on the unordered vertex pair {a, b}. */
  predicate OnPair(s: Side, a: nat, b: nat)
  {
    (s.a == a && s.b == b) || (s.a == b && s.b == a)
  }

  /** The sides of face f in the order generateEdges visits them: vertex j to
      vertex (j + 1) mod n. */
  function FaceSides(f: nat, vs: seq<nat>): (ss: seq<Side>)
    ensures |ss| == |vs|
  {
    seq(|vs|, j requires 0 <= j < |vs| => Side(f, vs[j], vs[(j + 1) % |vs|]))
  }

  /** The sides of faces 0 .. n - 1, face by face. */
  function SidesUpTo(faces: seq<seq<nat>>, n: nat): seq<Side>
    requires n <= |faces|
  {
    if n == 0 then [] else SidesUpTo(faces, n - 1) + FaceSides(n - 1, faces[n - 1])
  }

  function Sides(faces: seq<seq<nat>>): seq<Side>
  {
    SidesUpTo(faces, |faces|)
  }

  /** The positions in ss of the sides on pair {a, b}, in increasing order. */
  function Matches(ss: seq<Side>, a: nat, b: nat): (ms: seq<nat>)
    ensures forall k :: 0 <= k < |ms| ==> ms[k] < |ss| && OnPair(ss[ms[k]], a, b)
    ensures forall k, l :: 0 <= k < l < |ms| ==> ms[k] < ms[l]
  {
    if |ss| == 0 then []
    else Matches(ss[..|ss| - 1], a, b) + (if OnPair(ss[|ss| - 1], a, b) then [|ss| - 1] else [])
  }

  lemma MatchesAppend(ss: seq<Side>, s: Side, a: nat, b: nat)
    ensures Matches(ss + [s], a, b) == Matches(ss, a, b) + (if OnPair(s, a, b) then [|ss|] else [])
  {
    assert (ss + [s])[..|ss|] == ss;
  }

  /** Every side on the pair is listed. */
  lemma {:induction false} MatchesComplete(ss: seq<Side>, a: nat, b: nat, m: nat)
    requires m < |ss| && OnPair(ss[m], a, b)
    ensures m in Matches(ss, a, b)
  {
    if m < |ss| - 1 {
      MatchesComplete(ss[..|ss| - 1], a, b, m);
    }
  }

  lemma MatchesSymmetric(ss: seq<Side>, a: nat, b: nat)
    ensures Matches(ss, a, b) == Matches(ss, b, a)
  {
  }

  /** What the edge list says about one edge: it is oriented as, and owned
      by, the first side on its pair; its second face is that of the last
      side on its pair, if there is more than one. */
  predicate EdgeRecord(ss: seq<Side>, e: Edge)
  {
    var ms := Matches(ss, e.a, e.b);
    |ms| > 0 && ss[ms[0]].a == e.a && ss[ms[0]].b == e.b && e.faceA == Some(ss[ms[0]].face)
    && e.faceB == (if |ms| == 1 then None else Some(ss[ms[|ms| - 1]].face))
  }

  function FirstSide(ss: seq<Side>, e: Edge): nat
    requires |Matches(ss, e.a, e.b)| > 0
  {
    Matches(ss, e.a, e.b)[0]
  }

  /** No unordered vertex pair is recorded twice. */
  predicate Distinct(es: seq<Edge>)
  {
    forall i, j :: 0 <= i < j < |es| ==> !SameEdge(es[i], es[j].a, es[j].b)
  }

  /** Some recorded edge joins a and b. */
  ghost predicate Recorded(es: seq<Edge>, a: nat, b: nat)
  {
    exists i :: 0 <= i < |es| && SameEdge(es[i], a, b)
  }

  /** Every side lies on a recorded edge. */
  ghost predicate Covers(ss: seq<Side>, es: seq<Edge>)
  {
    forall m :: 0 <= m < |ss| ==> Recorded(es, ss[m].a, ss[m].b)
  }

  predicate Records(ss: seq<Side>, es: seq<Edge>)
  {
    forall i :: 0 <= i < |es| ==> EdgeRecord(ss, es[i])
  }

  /** Edges appear in the order their first sides were visited. */
  predicate InOrder(ss: seq<Side>, es: seq<Edge>)
    requires Records(ss, es)
  {
    forall i, j :: 0 <= i < j < |es| ==> FirstSide(ss, es[i]) < FirstSide(ss, es[j])
  }

  /** The edge list generateEdges produces from the sides ss. */
  ghost predicate EdgesOf(ss: seq<Side>, es: seq<Edge>)
  {
    Distinct(es) && Covers(ss, es) && Records(ss, es) && InOrder(ss, es)
  }

  lemma EdgesOfEmpty()
    ensures EdgesOf([], [])
  {
  }

  /** How the side lists of the existing edges change when s is shared with edge k. */
  lemma SharedMatches(ss: seq<Side>, es: seq<Edge>, s: Side, k: nat, i: nat)
    requires Distinct(es) && k < |es| && i < |es| && SameEdge(es[k], s.a, s.b)
    ensures Matches(ss + [s], es[i].a, es[i].b) ==
      Matches(ss, es[i].a, es[i].b) + (if i == k then [|ss|] else [])
  {
    MatchesAppend(ss, s, es[i].a, es[i].b);

  }

  /** A side on an existing edge marks that edge as shared with its face. */
  lemma EdgesOfShared(ss: seq<Side>, es: seq<Edge>, s: Side, k: nat)
    requires EdgesOf(ss, es) && k < |es| && SameEdge(es[k], s.a, s.b)
    ensures EdgesOf(ss + [s], es[k := es[k].(faceB := Some(s.face))])
  {
    SharedRecords(ss, es, s, k);
    SharedCovers(ss, es, s, k);
    SharedDistinct(es, k, Some(s.face));
  }

  /** Replacing an edge's second face keeps the pairs distinct. */
  lemma SharedDistinct(es: seq<Edge>, k: nat, f: Option<nat>)
    requires Distinct(es) && k < |es|
    ensures Distinct(es[k := es[k].(faceB := f)])
  {
    var es' := es[k := es[k].(faceB := f)];
    assert forall i :: 0 <= i < |es| ==> es'[i].a == es[i].a && es'[i].b == es[i].b;
  }

  lemma SharedRecords(ss: seq<Side>, es: seq<Edge>, s: Side, k: nat)
    requires Distinct(es) && Records(ss, es) && k < |es| && SameEdge(es[k], s.a, s.b)
    ensures Records(ss + [s], es[k := es[k].(faceB := Some(s.face))])
    ensures forall i :: 0 <= i < |es| ==>
      FirstSide(ss + [s], es[k := es[k].(faceB := Some(s.face))][i]) == FirstSide(ss, es[i])
  {
    var ss' := ss + [s];
    var es' := es[k := es[k].(faceB := Some(s.face))];
    forall i | 0 <= i < |es'|
      ensures EdgeRecord(ss', es'[i]) && FirstSide(ss', es'[i]) == FirstSide(ss, es[i])
    {
      SharedMatches(ss, es, s, k, i);
      assert EdgeRecord(ss, es[i]);
    }
  }

  lemma SharedCovers(ss: seq<Side>, es: seq<Edge>, s: Side, k: nat)
    requires Covers(ss, es) && k < |es| && SameEdge(es[k], s.a, s.b)
    ensures Covers(ss + [s], es[k := es[k].(faceB := Some(s.face))])
  {
    var ss' := ss + [s];
    var es' := es[k := es[k].(faceB := Some(s.face))];
    forall m | 0 <= m < |ss'|
      ensures Recorded(es', ss'[m].a, ss'[m].b)
    {
      if m < |ss| {
        assert ss'[m] == ss[m];
        var i :| 0 <= i < |es| && SameEdge(es[i], ss[m].a, ss[m].b);
        assert SameEdge(es'[i], ss'[m].a, ss'[m].b);
      } else {
        assert SameEdge(es'[k], ss'[m].a, ss'[m].b);
      }
    }
  }

  /** A side on no recorded edge has no earlier side on its pair. */
  lemma NewHasNoMatches(ss: seq<Side>, es: seq<Edge>, s: Side)
    requires Covers(ss, es) && !Recorded(es, s.a, s.b)
    ensures Matches(ss, s.a, s.b) == []
  {
    if |Matches(ss, s.a, s.b)| > 0 {
      assert false;
    }
  }

  /** A side on no existing edge is recorded as a new edge owned by its face. */
  lemma EdgesOfNew(ss: seq<Side>, es: seq<Edge>, s: Side)
    requires EdgesOf(ss, es) && !Recorded(es, s.a, s.b)
    ensures EdgesOf(ss + [s], es + [Edge(s.a, s.b, Some(s.face), None)])
  {
    var e := Edge(s.a, s.b, Some(s.face), None);
    NewRecords(ss, es, s);
    NewCovers(ss, es, s);
    NewDistinct(es, e);
    NewInOrder(ss, es, s);
  }

  /** Appending an edge on an unrecorded pair keeps the pairs distinct. */
  lemma NewDistinct(es: seq<Edge>, e: Edge)
    requires Distinct(es) && !Recorded(es, e.a, e.b)
    ensures Distinct(es + [e])
  {
    var es' := es + [e];
    forall i, j | 0 <= i < j < |es'|
      ensures !SameEdge(es'[i], es'[j].a, es'[j].b)
    {
      if j == |es| {
        assert es'[i] == es[i];
      }
    }
  }

  /** The new edge's first side comes after those of all existing edges. */
  lemma NewInOrder(ss: seq<Side>, es: seq<Edge>, s: Side)
    requires Covers(ss, es) && Records(ss, es) && InOrder(ss, es) && !Recorded(es, s.a, s.b)
    ensures Records(ss + [s], es + [Edge(s.a, s.b, Some(s.face), None)])
    ensures InOrder(ss + [s], es + [Edge(s.a, s.b, Some(s.face), None)])
  {
    var ss' := ss + [s];
    var es' := es + [Edge(s.a, s.b, Some(s.face), None)];
    NewRecords(ss, es, s);
    forall i, j | 0 <= i < j < |es'|
      ensures FirstSide(ss', es'[i]) < FirstSide(ss', es'[j])
    {
      NewFirstSides(ss, es, s, i, j);
    }
  }

  lemma NewFirstSides(ss: seq<Side>, es: seq<Edge>, s: Side, i: nat, j: nat)
    requires Covers(ss, es) && Records(ss, es) && InOrder(ss, es) && !Recorded(es, s.a, s.b)
    requires i < j <= |es|
    ensures Records(ss + [s], es + [Edge(s.a, s.b, Some(s.face), None)])
    ensures FirstSide(ss + [s], (es + [Edge(s.a, s.b, Some(s.face), None)])[i])
      < FirstSide(ss + [s], (es + [Edge(s.a, s.b, Some(s.face), None)])[j])
  {
    var es' := es + [Edge(s.a, s.b, Some(s.face), None)];
    NewRecords(ss, es, s);
    assert es'[i] == es[i] && EdgeRecord(ss, es[i]);
    if j < |es| {
      assert es'[j] == es[j];
    }
  }

  lemma NewRecords(ss: seq<Side>, es: seq<Edge>, s: Side)
    requires Covers(ss, es) && Records(ss, es) && !Recorded(es, s.a, s.b)
    ensures Records(ss + [s], es + [Edge(s.a, s.b, Some(s.face), None)])
    ensures FirstSide(ss + [s], Edge(s.a, s.b, Some(s.face), None)) == |ss|
    ensures forall i :: 0 <= i < |es| ==> FirstSide(ss + [s], es[i]) == FirstSide(ss, es[i])
  {
    var ss' := ss + [s];
    var e := Edge(s.a, s.b, Some(s.face), None);
    var es' := es + [e];
    NewHasNoMatches(ss, es, s);
    MatchesAppend(ss, s, s.a, s.b);
    assert Matches(ss', e.a, e.b) == [|ss|];
    forall i | 0 <= i < |es|
      ensures EdgeRecord(ss', es'[i]) && FirstSide(ss', es'[i]) == FirstSide(ss, es[i])
    {
      MatchesAppend(ss, s, es[i].a, es[i].b);
      assert EdgeRecord(ss, es[i]);
      if OnPair(s, es[i].a, es[i].b) {
        assert SameEdge(es[i], s.a, s.b);
        assert false;
      }
    }
    assert EdgeRecord(ss', es'[|es|]);
  }

  lemma NewCovers(ss: seq<Side>, es: seq<Edge>, s: Side)
    requires Covers(ss, es)
    ensures Covers(ss + [s], es + [Edge(s.a, s.b, Some(s.face), None)])
  {
    var ss' := ss + [s];
    var es' := es + [Edge(s.a, s.b, Some(s.face), None)];
    forall m | 0 <= m < |ss'|
      ensures Recorded(es', ss'[m].a, ss'[m].b)
    {
      if m < |ss| {
        assert ss'[m] == ss[m];
        var i :| 0 <= i < |es| && SameEdge(es[i], ss[m].a, ss[m].b);
        assert SameEdge(es'[i], ss'[m].a, ss'[m].b);
      } else {
        assert SameEdge(es'[|es|], ss'[m].a, ss'[m].b);
      }
    }
  }

  /** The sides of the first i faces come first among those of the first n. */
  lemma {:induction false} SidesUpToPrefix(faces: seq<seq<nat>>, i: nat, n: nat)
    requires i <= n <= |faces|
    ensures SidesUpTo(faces, i) <= SidesUpTo(faces, n)
    decreases n
  {
    if i < n {
      SidesUpToPrefix(faces, i, n - 1);
    }
  }

  /** The unordered vertex pair {a, b}, smaller index first. */
  function Pair(a: nat, b: nat): (nat, nat)
  {
    if a <= b then (a, b) else (b, a)
  }

  /** The distinct unordered vertex pairs the sides lie on. */
  function Pairs(ss: seq<Side>): set<(nat, nat)>
  {
    set m | 0 <= m < |ss| :: Pair(ss[m].a, ss[m].b)
  }

  /** The unordered vertex pairs the edges join. */
  function EdgePairs(es: seq<Edge>): set<(nat, nat)>
  {
    set i | 0 <= i < |es| :: Pair(es[i].a, es[i].b)
  }

  lemma SubsetCard<T>(a: set<T>, b: set<T>)
    requires a <= b
    ensures |a| <= |b|
  {
    assert b == a + (b - a);
  }

  /** Each edge joins a pair some side lies on. */
  lemma EdgePairsOfSides(ss: seq<Side>, es: seq<Edge>)
    requires Records(ss, es)
    ensures EdgePairs(es) <= Pairs(ss)
  {
    forall i | 0 <= i < |es|
      ensures Pair(es[i].a, es[i].b) in Pairs(ss)
    {
      assert EdgeRecord(ss, es[i]);
      var m := FirstSide(ss, es[i]);
      assert Pair(ss[m].a, ss[m].b) == Pair(es[i].a, es[i].b);
    }
  }

  /** Each side lies on a pair some edge joins. */
  lemma SidePairsOfEdges(ss: seq<Side>, es: seq<Edge>)
    requires Covers(ss, es)
    ensures Pairs(ss) <= EdgePairs(es)
  {
    forall m | 0 <= m < |ss|
      ensures Pair(ss[m].a, ss[m].b) in EdgePairs(es)
    {
      var i :| 0 <= i < |es| && SameEdge(es[i], ss[m].a, ss[m].b);
      assert Pair(es[i].a, es[i].b) == Pair(ss[m].a, ss[m].b);
    }
  }

  /** The edges of a generated edge list join exactly the pairs the sides lie on. */
  lemma EdgePairsAreSidePairs(ss: seq<Side>, es: seq<Edge>)
    requires EdgesOf(ss, es)
    ensures EdgePairs(es) == Pairs(ss)
  {
    EdgePairsOfSides(ss, es);
    SidePairsOfEdges(ss, es);
  }

  /** Edges on distinct pairs join as many pairs as there are edges. */
  lemma {:induction false} DistinctPairCount(es: seq<Edge>)
    requires Distinct(es)
    ensures |EdgePairs(es)| == |es|
  {
    if |es| > 0 {
      var n := |es| - 1;
      var prefix := es[..n];
      assert Distinct(prefix) by {
        forall i, j | 0 <= i < j < n
          ensures !SameEdge(prefix[i], prefix[j].a, prefix[j].b)
        {
          assert prefix[i] == es[i] && prefix[j] == es[j];
        }
      }
      DistinctPairCount(prefix);
      var p := Pair(es[n].a, es[n].b);
      assert EdgePairs(es) == EdgePairs(prefix) + {p} by {
        forall i | 0 <= i < n
          ensures Pair(es[i].a, es[i].b) in EdgePairs(prefix)
        {
          assert prefix[i] == es[i];
        }
      }
    }
  }

  /** generateEdges keeps one edge per distinct unordered vertex pair among
      the sides, so the edge list determines its own length. */
  lemma EdgesOfCount(ss: seq<Side>, es: seq<Edge>)
    requires EdgesOf(ss, es)
    ensures |es| == |Pairs(ss)|
  {
    EdgePairsAreSidePairs(ss, es);
    DistinctPairCount(es);
  }

  /** A prefix of the sides lies on no more pairs than the whole list. */
  lemma PairsPrefix(ss: seq<Side>, all: seq<Side>)
    requires ss <= all
    ensures Pairs(ss) <= Pairs(all) && |Pairs(ss)| <= |Pairs(all)|
  {
    forall m | 0 <= m < |ss|
      ensures Pair(ss[m].a, ss[m].b) in Pairs(all)
    {
      assert ss[m] == all[m];
    }
    SubsetCard(Pairs(ss), Pairs(all));
  }

  /** The pairs of two side lists one after the other. */
  lemma PairsAppend(ss: seq<Side>, ts: seq<Side>)
    ensures Pairs(ss + ts) == Pairs(ss) + Pairs(ts)
  {
    forall m | 0 <= m < |ss + ts|
      ensures Pair((ss + ts)[m].a, (ss + ts)[m].b) in Pairs(ss) + Pairs(ts)
    {
      if m >= |ss| {
        assert (ss + ts)[m] == ts[m - |ss|];
      }
    }
    forall m | 0 <= m < |ss|
      ensures Pair(ss[m].a, ss[m].b) in Pairs(ss + ts)
    {
      assert (ss + ts)[m] == ss[m];
    }
    forall m | 0 <= m < |ts|
      ensures Pair(ts[m].a, ts[m].b) in Pairs(ss + ts)
    {
      assert (ss + ts)[|ss| + m] == ts[m];
    }
  }

  /** A side on no recorded edge lies on a pair no earlier side lies on, so
      pushing its edge needs room the whole side list asks for anyway. */
  lemma RoomForNew(ss: seq<Side>, es: seq<Edge>, s: Side, all: seq<Side>)
    requires EdgesOf(ss, es) && !Recorded(es, s.a, s.b) && ss + [s] <= all
    ensures |es| < |Pairs(all)|
  {
    EdgesOfCount(ss, es);
    EdgePairsAreSidePairs(ss, es);
    NewPair(ss, es, s);
    PairsPrefix(ss + [s], all);
  }

  /** The pair of a side on no recorded edge is new to the side list. */
  lemma NewPair(ss: seq<Side>, es: seq<Edge>, s: Side)
    requires EdgePairs(es) == Pairs(ss) && !Recorded(es, s.a, s.b)
    ensures |Pairs(ss + [s])| == |Pairs(ss)| + 1
  {
    var p := Pair(s.a, s.b);
    PairsAppend(ss, [s]);
    assert Pairs([s]) == {p} by {
      assert [s][0] == s;
    }
  }

  /** Every side of a well-formed face list names a face and two vertices in range. */
  lemma {:induction false} SidesInRange(faces: seq<seq<nat>>, vertexCount: nat, n: nat)
    requires n <= |faces|
    requires forall f, j :: 0 <= f < |faces| && 0 <= j < |faces[f]| ==> faces[f][j] < vertexCount
    ensures forall m :: 0 <= m < |SidesUpTo(faces, n)| ==>
      SidesUpTo(faces, n)[m].face < n && SidesUpTo(faces, n)[m].a < vertexCount && SidesUpTo(faces, n)[m].b < vertexCount
  {
    if n > 0 {
      SidesInRange(faces, vertexCount, n - 1);
      var ss := SidesUpTo(faces, n);
      var prev := SidesUpTo(faces, n - 1);
      forall m | 0 <= m < |ss|
        ensures ss[m].face < n && ss[m].a < vertexCount && ss[m].b < vertexCount
      {
        if m >= |prev| {
          var j := m - |prev|;
          assert ss[m] == FaceSides(n - 1, faces[n - 1])[j];
        } else {
          assert ss[m] == prev[m];
        }
      }
    }
  }

  /** The edges of a well-formed face list join vertices in range and name faces in range. */
  lemma EdgesInRange(faces: seq<seq<nat>>, vertexCount: nat, es: seq<Edge>)
    requires forall f, j :: 0 <= f < |faces| && 0 <= j < |faces[f]| ==> faces[f][j] < vertexCount
    requires Records(Sides(faces), es)
    ensures forall i :: 0 <= i < |es| ==> EdgeInRange(es[i], vertexCount, |faces|)
  {
    SidesInRange(faces, vertexCount, |faces|);
    forall i | 0 <= i < |es|
      ensures EdgeInRange(es[i], vertexCount, |faces|)
    {
      assert EdgeRecord(Sides(faces), es[i]);
      var ms := Matches(Sides(faces), es[i].a, es[i].b);
      assert ms[|ms| - 1] < |Sides(faces)|;
    }
  }

  predicate EdgeInRange(e: Edge, vertexCount: nat, faceCount: nat)
  {
    e.a < vertexCount && e.b < vertexCount
    && (e.faceA.Some? ==> e.faceA.value < faceCount)
    && (e.faceB.Some? ==> e.faceB.value < faceCount)
  }

  /** findEdge: the first edge in the buffer joining a and b, in either
      direction, or None when there is none. */
  method FindEdge(a: nat, b: nat, edges: Buffer<Edge>) returns (r: Option<nat>)
    requires edges.Valid()
    ensures r.Some? ==> r.value < edges.Size() && SameEdge(edges.Contents()[r.value], a, b)
    ensures r.Some? ==> forall i :: 0 <= i < r.value ==> !SameEdge(edges.Contents()[i], a, b)
    ensures r.None? <==> !Recorded(edges.Contents(), a, b)
  {
    var i := 0;
    while i < edges.Size()
      invariant i <= edges.Size()
      invariant forall k :: 0 <= k < i ==> !SameEdge(edges.Contents()[k], a, b)
    {
      var edge := edges.Get(i);
      if (a == edge.a && b == edge.b) || (a == edge.b && b == edge.a) {
        return Some(i);
      }
      i := i + 1;
    }
    return None;
  }

  /** One step of generateEdges: the side (a, b) of face f either marks its
      existing edge as shared or is pushed as a new edge; only the push needs
      room. */
  method RecordSide(edgeBuffer: Buffer<Edge>, ghost ss: seq<Side>, f: nat, a: nat, b: nat)
    requires edgeBuffer.Valid() && EdgesOf(ss, edgeBuffer.Contents())
    requires edgeBuffer.Size() < edgeBuffer.Capacity() || Recorded(edgeBuffer.Contents(), a, b)
    modifies edgeBuffer, edgeBuffer.elements
    ensures edgeBuffer.Valid() && EdgesOf(ss + [Side(f, a, b)], edgeBuffer.Contents())
  {
    var existing := FindEdge(a, b, edgeBuffer);
    match existing {
      case Some(k) =>
        EdgesOfShared(ss, edgeBuffer.Contents(), Side(f, a, b), k);
        var edge := edgeBuffer.Get(k);
        edgeBuffer.Set(k, edge.(faceB := Some(f)));
      case None =>
        EdgesOfNew(ss, edgeBuffer.Contents(), Side(f, a, b));
        edgeBuffer.Push(Edge(a, b, Some(f), None));
    }
  }

  /** The sides visited once the first j sides of face f have been recorded. */
  function Visited(done: seq<Side>, f: nat, vs: seq<nat>, j: nat): seq<Side>
    requires j <= |vs|
  {
    done + FaceSides(f, vs)[..j]
  }

  lemma VisitedStep(done: seq<Side>, f: nat, vs: seq<nat>, j: nat)
    requires j < |vs|
    ensures Visited(done, f, vs, j + 1) == Visited(done, f, vs, j) + [Side(f, vs[j], vs[(j + 1) % |vs|])]
  {
    var sides := FaceSides(f, vs);
    assert sides[..j + 1] == sides[..j] + [sides[j]];
  }

  lemma VisitedEnds(done: seq<Side>, f: nat, vs: seq<nat>)
    ensures Visited(done, f, vs, 0) == done
    ensures Visited(done, f, vs, |vs|) == done + FaceSides(f, vs)
  {
    assert FaceSides(f, vs)[..|vs|] == FaceSides(f, vs);
  }

  /** The sides visited so far are the first of all the sides through face f. */
  lemma VisitedPrefix(done: seq<Side>, f: nat, vs: seq<nat>, j: nat)
    requires j <= |vs|
    ensures Visited(done, f, vs, j) <= done + FaceSides(f, vs)
  {
    var all := done + FaceSides(f, vs);
    assert Visited(done, f, vs, j) == all[..|done| + j];
  }

  /** The inner loop of generateEdges: every side of face f, vertex j to
      vertex (j + 1) mod n, in turn. The buffer must hold an edge for every
      distinct pair. */
  method RecordFace(edgeBuffer: Buffer<Edge>, ghost done: seq<Side>, f: nat, vs: seq<nat>)
    requires edgeBuffer.Valid() && EdgesOf(done, edgeBuffer.Contents())
    requires |Pairs(done + FaceSides(f, vs))| <= edgeBuffer.Capacity()
    modifies edgeBuffer, edgeBuffer.elements
    ensures edgeBuffer.Valid() && EdgesOf(done + FaceSides(f, vs), edgeBuffer.Contents())
  {
    var n := |vs|;
    VisitedEnds(done, f, vs);
    for j := 0 to n
      invariant edgeBuffer.Valid()
      invariant EdgesOf(Visited(done, f, vs, j), edgeBuffer.Contents())
    {
      VisitedStep(done, f, vs, j);
      if !Recorded(edgeBuffer.Contents(), vs[j], vs[(j + 1) % n]) {
        VisitedPrefix(done, f, vs, j + 1);
        RoomForNew(Visited(done, f, vs, j), edgeBuffer.Contents(), Side(f, vs[j], vs[(j + 1) % n]),
                   done + FaceSides(f, vs));
      }
      RecordSide(edgeBuffer, Visited(done, f, vs, j), f, vs[j], vs[(j + 1) % n]);
    }
  }

  /** One pass of the outer loop of generateEdges: face i after faces 0 .. i - 1. */
  method RecordFaceAt(edgeBuffer: Buffer<Edge>, faces: seq<seq<nat>>, i: nat)
    requires i < |faces| && |Pairs(Sides(faces))| <= edgeBuffer.Capacity()
    requires edgeBuffer.Valid() && EdgesOf(SidesUpTo(faces, i), edgeBuffer.Contents())
    modifies edgeBuffer, edgeBuffer.elements
    ensures edgeBuffer.Valid()
    ensures EdgesOf(SidesUpTo(faces, i + 1), edgeBuffer.Contents())
  {
    SidesUpToPrefix(faces, i + 1, |faces|);
    PairsPrefix(SidesUpTo(faces, i + 1), Sides(faces));
    ghost var done := SidesUpTo(faces, i);
    assert SidesUpTo(faces, i + 1) == done + FaceSides(i, faces[i]);
    RecordFace(edgeBuffer, done, i, faces[i]);
  }

  /** generateEdges. The buffer capacity VOLTAGE_MESH_MAX_EDGES is defined
      outside the files modelled here, so it is the parameter maxEdges; the
      pushes are unchecked, so every distinct vertex pair must fit. */
  method GenerateEdges(faces: seq<seq<nat>>, maxEdges: nat) returns (edges: seq<Edge>)
    requires |Pairs(Sides(faces))| <= maxEdges
    ensures EdgesOf(Sides(faces), edges)
    ensures |edges| == |Pairs(Sides(faces))|
  {
    var edgeBuffer := new Buffer<Edge>(maxEdges);
    EdgesOfEmpty();
    for i := 0 to |faces|
      invariant edgeBuffer.Valid() && edgeBuffer.Capacity() == maxEdges
      invariant EdgesOf(SidesUpTo(faces, i), edgeBuffer.Contents())
    {
      RecordFaceAt(edgeBuffer, faces, i);
    }
    edges := edgeBuffer.elements[..edgeBuffer.Size()];
    assert edges == edgeBuffer.Contents();
    EdgesOfCount(Sides(faces), edges);
  }

  /** The two steps of the face-list constructor that build its topology:
      generateEdges, then addFaceToEdgePointers over the generated edges. */
  method Topology(faces: seq<seq<nat>>, vertexCount: nat, maxEdges: nat)
    returns (edges: seq<Edge>, faceEdges: seq<seq<nat>>)
    requires FacesInRange(faces, vertexCount)
    requires |Pairs(Sides(faces))| <= maxEdges
    ensures EdgesOf(Sides(faces), edges) && |edges| == |Pairs(Sides(faces))|
    ensures TopologyInRange(faces, edges, faceEdges, vertexCount)
    ensures |faceEdges| == |faces|
    ensures forall f :: 0 <= f < |faces| ==> faceEdges[f] == FaceEdges(edges, f)
  {
    edges := GenerateEdges(faces, maxEdges);
    EdgesInRange(faces, vertexCount, edges);
    FaceEdgesFit(edges, |faces|, maxEdges);
    faceEdges := AddFaceToEdgePointers(|faces|, edges, maxEdges);
    forall f, k | 0 <= f < |faceEdges| && 0 <= k < |faceEdges[f]|
      ensures faceEdges[f][k] < |edges|
    {
      assert faceEdges[f] == FaceEdges(edges, f);
    }
  }

  /** A fresh array holding the given vertices in order. */
  method VertexArray(vertices: seq<Vector3>) returns (a: array<Vector3>)
    ensures fresh(a) && a[..] == vertices
  {
    a := new Vector3[|vertices|](i requires 0 <= i < |vertices| => vertices[i]);
  }

  /** Edge e has face f as one of its owners. */
  predicate Owns(e: Edge, f: nat)
  {
    e.faceA == Some(f) || e.faceB == Some(f)
  }

  /** The indices of the edges owned by face f, in edge-array order. */
  function FaceEdges(es: seq<Edge>, f: nat): (r: seq<nat>)
    ensures |r| <= |es|
    ensures forall k :: 0 <= k < |r| ==> r[k] < |es| && Owns(es[r[k]], f)
    ensures forall k, l :: 0 <= k < l < |r| ==> r[k] < r[l]
  {
    if |es| == 0 then []
    else FaceEdges(es[..|es| - 1], f) + (if Owns(es[|es| - 1], f) then [|es| - 1] else [])
  }

  /** Every edge the face owns is listed. */
  lemma {:induction false} FaceEdgesComplete(es: seq<Edge>, f: nat, j: nat)
    requires j < |es| && Owns(es[j], f)
    ensures j in FaceEdges(es, f)
  {
    if j < |es| - 1 {
      FaceEdgesComplete(es[..|es| - 1], f, j);
    }
  }

  /** The edges a face owns among the first j edges are the first of those
      it owns among all of them. */
  lemma {:induction false} FaceEdgesPrefix(es: seq<Edge>, f: nat, j: nat)
    requires j <= |es|
    ensures FaceEdges(es[..j], f) <= FaceEdges(es, f)
  {
    if j < |es| {
      var n := |es| - 1;
      assert es[..n][..j] == es[..j];
      FaceEdgesPrefix(es[..n], f, j);
    } else {
      assert es[..j] == es;
    }
  }

  /** A buffer that holds every edge holds every face's own edges. */
  lemma FaceEdgesFit(es: seq<Edge>, faceCount: nat, maxEdges: nat)
    requires |es| <= maxEdges
    ensures forall f :: 0 <= f < faceCount ==> |FaceEdges(es, f)| <= maxEdges
  {
  }

  /** addFaceToEdgePointers: for each face, the edges whose first or second
      face is that face, collected in one reused buffer. The buffer is
      cleared for every face, so only each face's own edges must fit in it.
      An empty list stands for the unallocated `face.edges`. */
  method AddFaceToEdgePointers(faceCount: nat, edges: seq<Edge>, maxEdges: nat) returns (faceEdges: seq<seq<nat>>)
    requires forall f :: 0 <= f < faceCount ==> |FaceEdges(edges, f)| <= maxEdges
    ensures |faceEdges| == faceCount
    ensures forall f :: 0 <= f < faceCount ==> faceEdges[f] == FaceEdges(edges, f)
  {
    var edgePointers := new Buffer<nat>(maxEdges);
    faceEdges := [];
    for i := 0 to faceCount
      invariant edgePointers.Valid() && edgePointers.Capacity() == maxEdges
      invariant |faceEdges| == i
      invariant forall f :: 0 <= f < i ==> faceEdges[f] == FaceEdges(edges, f)
    {
      edgePointers.Clear();
      for j := 0 to |edges|
        invariant edgePointers.Valid() && edgePointers.Capacity() == maxEdges
        invariant edgePointers.Contents() == FaceEdges(edges[..j], i)
      {
        assert edges[..j + 1][..j] == edges[..j];
        FaceEdgesPrefix(edges, i, j + 1);
        if edges[j].faceA == Some(i) {
          edgePointers.Push(j);
        } else if edges[j].faceB == Some(i) {
          edgePointers.Push(j);
        }
      }
      assert edges[..|edges|] == edges;
      faceEdges := faceEdges + [edgePointers.elements[..edgePointers.Size()]];
    }
  }

  /** On a closed mesh, where every side shares its pair with some other
      side, every edge ends up with both faces set. */
  lemma ClosedMeshEdgesShared(ss: seq<Side>, es: seq<Edge>)
    requires EdgesOf(ss, es)
    requires forall m :: 0 <= m < |ss| ==> |Matches(ss, ss[m].a, ss[m].b)| >= 2
    ensures forall i :: 0 <= i < |es| ==> es[i].faceA.Some? && es[i].faceB.Some?
  {
    forall i | 0 <= i < |es|
      ensures es[i].faceA.Some? && es[i].faceB.Some?
    {
      assert EdgeRecord(ss, es[i]);
      var m := FirstSide(ss, es[i]);
      MatchesSymmetric(ss, es[i].a, es[i].b);
      assert |Matches(ss, ss[m].a, ss[m].b)| >= 2;
    }
  }

  /** Every index a mesh's topology holds names a vertex, a face or an edge
      that exists. */
  predicate TopologyInRange(faces: seq<seq<nat>>, edges: seq<Edge>, faceEdges: seq<seq<nat>>, vertexCount: nat)
  {
    FacesInRange(faces, vertexCount)
    && (forall i :: 0 <= i < |edges| ==> EdgeInRange(edges[i], vertexCount, |faces|))
    && (forall f, k :: 0 <= f < |faceEdges| && 0 <= k < |faceEdges[f]| ==> faceEdges[f][k] < |edges|)
  }

  /** Every vertex index of every face lies below vertexCount. */
  predicate FacesInRange(faces: seq<seq<nat>>, vertexCount: nat)
  {
    forall f, j :: 0 <= f < |faces| && 0 <= j < |faces[f]| ==> faces[f][j] < vertexCount
  }

  /** An EdgeDefinition: vertex indices and face indices, -1 for "no face". */
  datatype EdgeDefinition = EdgeDefinition(a: nat, b: nat, faceA: int, faceB: int)

  /** The edge-definition constructor's face wiring: an index above -1 names
      that face, anything else is no face. */
  function FaceRef(index: int): (r: Option<nat>)
    ensures r.Some? <==> index > -1
    ensures r.Some? ==> r.value == index
  {
    if index > -1 then Some(index) else None
  }

  function FromDefinition(d: EdgeDefinition): Edge
  {
    Edge(d.a, d.b, FaceRef(d.faceA), FaceRef(d.faceB))
  }

  /** The edges of the edge-definition constructor, one per definition, in order. */
  function FromDefinitions(ds: seq<EdgeDefinition>): (es: seq<Edge>)
    ensures |es| == |ds|
    ensures forall i :: 0 <= i < |ds| ==> es[i] == FromDefinition(ds[i])
  {
    seq(|ds|, i requires 0 <= i < |ds| => FromDefinition(ds[i]))
  }

  /** Where a clipped edge's endpoint lives: a mesh vertex, or a vertex the
      near/far clipper created in the pipeline's scratch buffer. */
  datatype VertexRef = MeshVertex(index: nat) | ClippedVertex(index: nat)

  /** Mesh: topology fixed at construction (faces, edges, per-face edge
      lists, all as indices) and per-vertex, per-face and per-edge state the
      object pipeline rewrites every frame. */
  class Mesh {
    const original: array<Vector3>
    const transformed: array<Vector4>
    const vertexVisible: array<bool>
    const faces: seq<seq<nat>>
    const faceVisible: array<bool>
    const faceEdges: seq<seq<nat>>
    const edges: seq<Edge>
    const edgeVisible: array<bool>
    const edgeCulled: array<bool>
    const clipped: array<(VertexRef, VertexRef)>

    function VertexCount(): nat { original.Length }

    ghost predicate Valid()
    {
      transformed.Length == original.Length && vertexVisible.Length == original.Length
      && faceVisible.Length == |faces| && |faceEdges| == |faces|
      && edgeVisible.Length == |edges| && edgeCulled.Length == |edges| && clipped.Length == |edges|
      && FacesInRange(faces, original.Length)
      && (forall i :: 0 <= i < |edges| ==> EdgeInRange(edges[i], original.Length, |faces|))
      && (forall f, k :: 0 <= f < |faceEdges| && 0 <= k < |faceEdges[f]| ==> faceEdges[f][k] < |edges|)
      && vertexVisible != faceVisible && vertexVisible != edgeVisible && vertexVisible != edgeCulled
      && faceVisible != edgeVisible && faceVisible != edgeCulled && edgeVisible != edgeCulled
    }

    /** Mesh(vertices, faces): wires the faces to the vertices, generates the
        edges and the per-face edge lists. */
    constructor (vertices: seq<Vector3>, faceDefinitions: seq<seq<nat>>, maxEdges: nat)
      requires FacesInRange(faceDefinitions, |vertices|)
      requires |Pairs(Sides(faceDefinitions))| <= maxEdges
      ensures Valid()
      ensures original[..] == vertices && faces == faceDefinitions
      ensures EdgesOf(Sides(faces), edges) && |edges| == |Pairs(Sides(faces))|
      ensures forall f :: 0 <= f < |faces| ==> faceEdges[f] == FaceEdges(edges, f)
      ensures fresh(original) && fresh(transformed) && fresh(vertexVisible) && fresh(faceVisible)
      ensures fresh(edgeVisible) && fresh(edgeCulled) && fresh(clipped)
    {
      var generated, lists := Topology(faceDefinitions, |vertices|, maxEdges);
      var vertexArray := VertexArray(vertices);
      original := vertexArray;
      transformed := new Vector4[|vertices|];
      vertexVisible := new bool[|vertices|];
      faces := faceDefinitions;
      faceVisible := new bool[|faceDefinitions|];
      edges := generated;
      faceEdges := lists;
      edgeVisible := new bool[|generated|];
      edgeCulled := new bool[|generated|];
      clipped := new (VertexRef, VertexRef)[|generated|];
    }

    /** Mesh(vertices, faces, edges): the edges come from their definitions,
        face index -1 standing for no face. */
    constructor WithEdges(vertices: seq<Vector3>, faceDefinitions: seq<seq<nat>>,
                          edgeDefinitions: seq<EdgeDefinition>, maxEdges: nat)
      requires FacesInRange(faceDefinitions, |vertices|)
      requires forall i :: 0 <= i < |edgeDefinitions| ==>
        EdgeInRange(FromDefinition(edgeDefinitions[i]), |vertices|, |faceDefinitions|)
      requires forall f :: 0 <= f < |faceDefinitions| ==> |FaceEdges(FromDefinitions(edgeDefinitions), f)| <= maxEdges
      ensures Valid()
      ensures original[..] == vertices && faces == faceDefinitions
      ensures |edges| == |edgeDefinitions|
      ensures forall i :: 0 <= i < |edges| ==> edges[i] == FromDefinition(edgeDefinitions[i])
      ensures forall f :: 0 <= f < |faces| ==> faceEdges[f] == FaceEdges(edges, f)
      ensures fresh(original) && fresh(transformed) && fresh(vertexVisible) && fresh(faceVisible)
      ensures fresh(edgeVisible) && fresh(edgeCulled) && fresh(clipped)
    {
      var defined := FromDefinitions(edgeDefinitions);
      var lists := AddFaceToEdgePointers(|faceDefinitions|, defined, maxEdges);
      var vertexArray := VertexArray(vertices);
      original := vertexArray;
      transformed := new Vector4[|vertices|];
      vertexVisible := new bool[|vertices|];
      faces := faceDefinitions;
      faceVisible := new bool[|faceDefinitions|];
      edges := defined;
      faceEdges := lists;
      edgeVisible := new bool[|defined|];
      edgeCulled := new bool[|defined|];
      clipped := new (VertexRef, VertexRef)[|defined|];
    }

    /** scale: every original vertex multiplied by value; nothing else changes. */
    method Scale(value: real)
      modifies original
      ensures forall i :: 0 <= i < original.Length ==> original[i] == Scale3(old(original[i]), value)
    {
      for i := 0 to original.Length
        invariant forall k :: 0 <= k < i ==> original[k] == Scale3(old(original[k]), value)
        invariant forall k :: i <= k < original.Length ==> original[k] == old(original[k])
      {
        original[i] := Scale3(original[i], value);
      }
    }
  }
}
