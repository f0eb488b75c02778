/** Mesh construction helpers (MeshBuilder.h): the plane and cube tables,
    the undirected edge test, the de-duplicating edge buffer, the midpoint
    cache and one round of icosphere subdivision, plus the icosphere size
    formulas. Edges here are plain index pairs (the `Edge` of Mesh.h). */
module MeshBuilder {
  import opened Wrappers
  import opened Geometry
  import opened Arrays
  import opened Meshes
  import opened MatrixUtils

  /** An index pair (Mesh.h's Edge: aIndex, bIndex). */
  datatype IndexEdge = IndexEdge(aIndex: nat, bIndex: nat)

  datatype Triangle = Triangle(aIndex: nat, bIndex: nat, cIndex: nat)

  /** A cached midpoint: the pair it lies between and its vertex index. */
  datatype EdgeMidpoint = EdgeMidpoint(aIndex: nat, bIndex: nat, index: nat)

  function PlaneVertices(size: real): (vs: seq<Vector3>)
    ensures |vs| == 4
  {
    var half := size / 2.0;
    [Vector3(-half, 0.0, half), Vector3(-half, 0.0, -half), Vector3(half, 0.0, -half), Vector3(half, 0.0, half)]
  }

  const PlaneFaces: seq<seq<nat>> := [[0, 1, 2, 3]]

  function CubeVertices(size: real): (vs: seq<Vector3>)
    ensures |vs| == 8
  {
    var half := size / 2.0;
    [Vector3(-half, half, half), Vector3(half, half, half), Vector3(half, half, -half),
     Vector3(-half, half, -half), Vector3(-half, -half, half), Vector3(half, -half, half),
     Vector3(half, -half, -half), Vector3(-half, -half, -half)]
  }

  const CubeFaces: seq<seq<nat>> :=
    [[0, 1, 2, 3], [4, 5, 6, 7], [0, 4, 5, 1], [1, 5, 6, 2], [2, 6, 7, 3], [3, 7, 4, 0]]

  /** The plane is one quad over 4 vertices, the cube six quads over 8, every
      index in range; they have 4 and 24 sides. */
  lemma TablesWellFormed()
    ensures |PlaneFaces| == 1 && |PlaneFaces[0]| == 4 && FacesInRange(PlaneFaces, 4)
    ensures |CubeFaces| == 6 && (forall f :: 0 <= f < 6 ==> |CubeFaces[f]| == 4) && FacesInRange(CubeFaces, 8)
    ensures |Sides(PlaneFaces)| == 4 && |Sides(CubeFaces)| == 24
  {
    assert |SidesUpTo(CubeFaces, 1)| == 4;
    assert |SidesUpTo(CubeFaces, 2)| == 8;
    assert |SidesUpTo(CubeFaces, 3)| == 12;
    assert |SidesUpTo(CubeFaces, 4)| == 16;
    assert |SidesUpTo(CubeFaces, 5)| == 20;
    assert |SidesUpTo(PlaneFaces, 1)| == 4;
  }

  /** A quad's sides, written out. */
  lemma QuadSides(f: nat, vs: seq<nat>)
    requires |vs| == 4
    ensures FaceSides(f, vs) == [Side(f, vs[0], vs[1]), Side(f, vs[1], vs[2]), Side(f, vs[2], vs[3]), Side(f, vs[3], vs[0])]
  {
  }

  /** A quad's four sides lie on the pairs of its consecutive corners. */
  lemma QuadPairs(f: nat, vs: seq<nat>)
    requires |vs| == 4
    ensures Pairs(FaceSides(f, vs)) == {Pair(vs[0], vs[1]), Pair(vs[1], vs[2]), Pair(vs[2], vs[3]), Pair(vs[3], vs[0])}
  {
    QuadSides(f, vs);
    var ss := FaceSides(f, vs);
    assert Pair(ss[0].a, ss[0].b) in Pairs(ss) && Pair(ss[1].a, ss[1].b) in Pairs(ss);
    assert Pair(ss[2].a, ss[2].b) in Pairs(ss) && Pair(ss[3].a, ss[3].b) in Pairs(ss);
  }

  /** The pairs of the first n + 1 faces: those of the first n and face n's. */
  lemma PairsUpTo(faces: seq<seq<nat>>, n: nat)
    requires n < |faces|
    ensures Pairs(SidesUpTo(faces, n + 1)) == Pairs(SidesUpTo(faces, n)) + Pairs(FaceSides(n, faces[n]))
  {
    PairsAppend(SidesUpTo(faces, n), FaceSides(n, faces[n]));
  }

  /** The plane's sides lie on its 4 outline pairs. */
  lemma PlanePairs()
    ensures |Pairs(Sides(PlaneFaces))| == 4
  {
    PairsUpTo(PlaneFaces, 0);
    QuadPairs(0, PlaneFaces[0]);
    assert Pairs(Sides(PlaneFaces)) == {(0, 1), (1, 2), (2, 3), (0, 3)};
  }

  /** The cube's 24 sides, face by face. */
  const CubeSideList: seq<Side> :=
    [Side(0, 0, 1), Side(0, 1, 2), Side(0, 2, 3), Side(0, 3, 0)] +
    [Side(1, 4, 5), Side(1, 5, 6), Side(1, 6, 7), Side(1, 7, 4)] +
    [Side(2, 0, 4), Side(2, 4, 5), Side(2, 5, 1), Side(2, 1, 0)] +
    [Side(3, 1, 5), Side(3, 5, 6), Side(3, 6, 2), Side(3, 2, 1)] +
    [Side(4, 2, 6), Side(4, 6, 7), Side(4, 7, 3), Side(4, 3, 2)] +
    [Side(5, 3, 7), Side(5, 7, 4), Side(5, 4, 0), Side(5, 0, 3)]

  /** Six faces' sides, face by face. */
  lemma SixFaceSides(faces: seq<seq<nat>>)
    requires |faces| == 6
    ensures Sides(faces) == FaceSides(0, faces[0]) + FaceSides(1, faces[1]) + FaceSides(2, faces[2])
      + FaceSides(3, faces[3]) + FaceSides(4, faces[4]) + FaceSides(5, faces[5])
  {
    assert SidesUpTo(faces, 1) == FaceSides(0, faces[0]);
    assert SidesUpTo(faces, 2) == SidesUpTo(faces, 1) + FaceSides(1, faces[1]);
    assert SidesUpTo(faces, 3) == SidesUpTo(faces, 2) + FaceSides(2, faces[2]);
    assert SidesUpTo(faces, 4) == SidesUpTo(faces, 3) + FaceSides(3, faces[3]);
    assert SidesUpTo(faces, 5) == SidesUpTo(faces, 4) + FaceSides(4, faces[4]);
  }

  lemma CubeSides()
    ensures Sides(CubeFaces) == CubeSideList
  {
    SixFaceSides(CubeFaces);
    QuadSides(0, CubeFaces[0]);
    assert FaceSides(0, CubeFaces[0]) == [Side(0, 0, 1), Side(0, 1, 2), Side(0, 2, 3), Side(0, 3, 0)];
    QuadSides(1, CubeFaces[1]);
    assert FaceSides(1, CubeFaces[1]) == [Side(1, 4, 5), Side(1, 5, 6), Side(1, 6, 7), Side(1, 7, 4)];
    QuadSides(2, CubeFaces[2]);
    assert FaceSides(2, CubeFaces[2]) == [Side(2, 0, 4), Side(2, 4, 5), Side(2, 5, 1), Side(2, 1, 0)];
    QuadSides(3, CubeFaces[3]);
    assert FaceSides(3, CubeFaces[3]) == [Side(3, 1, 5), Side(3, 5, 6), Side(3, 6, 2), Side(3, 2, 1)];
    QuadSides(4, CubeFaces[4]);
    assert FaceSides(4, CubeFaces[4]) == [Side(4, 2, 6), Side(4, 6, 7), Side(4, 7, 3), Side(4, 3, 2)];
    QuadSides(5, CubeFaces[5]);
    assert FaceSides(5, CubeFaces[5]) == [Side(5, 3, 7), Side(5, 7, 4), Side(5, 4, 0), Side(5, 0, 3)];
  }

  /** The cube's 12 corner pairs: the two rings and the four uprights. */
  const CubeCornerPairs: set<(nat, nat)> :=
    {(0, 1), (1, 2), (2, 3), (0, 3), (4, 5), (5, 6), (6, 7), (4, 7), (0, 4), (1, 5), (2, 6), (3, 7)}

  lemma CubeCornerPairsCount()
    ensures |CubeCornerPairs| == 12
  {
  }

  /** The pairs of four sides. */
  lemma FourPairs(s0: Side, s1: Side, s2: Side, s3: Side)
    ensures Pairs([s0, s1, s2, s3]) == {Pair(s0.a, s0.b), Pair(s1.a, s1.b), Pair(s2.a, s2.b), Pair(s3.a, s3.b)}
  {
    var ss := [s0, s1, s2, s3];
    assert Pair(ss[0].a, ss[0].b) in Pairs(ss) && Pair(ss[1].a, ss[1].b) in Pairs(ss);
    assert Pair(ss[2].a, ss[2].b) in Pairs(ss) && Pair(ss[3].a, ss[3].b) in Pairs(ss);
  }

  /** The pairs of each cube face. */
  lemma CubeQuadPairs()
    ensures Pairs([Side(0, 0, 1), Side(0, 1, 2), Side(0, 2, 3), Side(0, 3, 0)]) == {(0, 1), (1, 2), (2, 3), (0, 3)}
    ensures Pairs([Side(1, 4, 5), Side(1, 5, 6), Side(1, 6, 7), Side(1, 7, 4)]) == {(4, 5), (5, 6), (6, 7), (4, 7)}
    ensures Pairs([Side(2, 0, 4), Side(2, 4, 5), Side(2, 5, 1), Side(2, 1, 0)]) == {(0, 4), (4, 5), (1, 5), (0, 1)}
    ensures Pairs([Side(3, 1, 5), Side(3, 5, 6), Side(3, 6, 2), Side(3, 2, 1)]) == {(1, 5), (5, 6), (2, 6), (1, 2)}
    ensures Pairs([Side(4, 2, 6), Side(4, 6, 7), Side(4, 7, 3), Side(4, 3, 2)]) == {(2, 6), (6, 7), (3, 7), (2, 3)}
    ensures Pairs([Side(5, 3, 7), Side(5, 7, 4), Side(5, 4, 0), Side(5, 0, 3)]) == {(3, 7), (4, 7), (0, 4), (0, 3)}
  {
    FourPairs(Side(0, 0, 1), Side(0, 1, 2), Side(0, 2, 3), Side(0, 3, 0));
    FourPairs(Side(1, 4, 5), Side(1, 5, 6), Side(1, 6, 7), Side(1, 7, 4));
    FourPairs(Side(2, 0, 4), Side(2, 4, 5), Side(2, 5, 1), Side(2, 1, 0));
    FourPairs(Side(3, 1, 5), Side(3, 5, 6), Side(3, 6, 2), Side(3, 2, 1));
    FourPairs(Side(4, 2, 6), Side(4, 6, 7), Side(4, 7, 3), Side(4, 3, 2));
    FourPairs(Side(5, 3, 7), Side(5, 7, 4), Side(5, 4, 0), Side(5, 0, 3));
  }

  /** The pairs of six side lists joined: the union of their pairs. */
  lemma SixPairs(q0: seq<Side>, q1: seq<Side>, q2: seq<Side>, q3: seq<Side>, q4: seq<Side>, q5: seq<Side>)
    ensures Pairs(q0 + q1 + q2 + q3 + q4 + q5) == Pairs(q0) + Pairs(q1) + Pairs(q2) + Pairs(q3) + Pairs(q4) + Pairs(q5)
  {
    PairsAppend(q0, q1);
    PairsAppend(q0 + q1, q2);
    PairsAppend(q0 + q1 + q2, q3);
    PairsAppend(q0 + q1 + q2 + q3, q4);
    PairsAppend(q0 + q1 + q2 + q3 + q4, q5);
  }

  /** The pairs of the cube's side list, face by face. */
  lemma CubeListPairs()
    ensures Pairs(CubeSideList) ==
      {(0, 1), (1, 2), (2, 3), (0, 3)} + {(4, 5), (5, 6), (6, 7), (4, 7)} +
      {(0, 4), (4, 5), (1, 5), (0, 1)} + {(1, 5), (5, 6), (2, 6), (1, 2)} + {(2, 6), (6, 7), (3, 7), (2, 3)} + {(3, 7), (4, 7), (0, 4), (0, 3)}
  {
    CubeQuadPairs();
    SixPairs([Side(0, 0, 1), Side(0, 1, 2), Side(0, 2, 3), Side(0, 3, 0)], [Side(1, 4, 5), Side(1, 5, 6), Side(1, 6, 7), Side(1, 7, 4)], [Side(2, 0, 4), Side(2, 4, 5), Side(2, 5, 1), Side(2, 1, 0)], [Side(3, 1, 5), Side(3, 5, 6), Side(3, 6, 2), Side(3, 2, 1)], [Side(4, 2, 6), Side(4, 6, 7), Side(4, 7, 3), Side(4, 3, 2)], [Side(5, 3, 7), Side(5, 7, 4), Side(5, 4, 0), Side(5, 0, 3)]);
  }

  /** The six faces' pairs together are the 12 corner pairs. */
  lemma CubeUnion()
    ensures {(0, 1), (1, 2), (2, 3), (0, 3)} + {(4, 5), (5, 6), (6, 7), (4, 7)} +
      {(0, 4), (4, 5), (1, 5), (0, 1)} + {(1, 5), (5, 6), (2, 6), (1, 2)} + {(2, 6), (6, 7), (3, 7), (2, 3)} + {(3, 7), (4, 7), (0, 4), (0, 3)} == CubeCornerPairs
  {
  }

  /** The cube's 24 sides lie on its 12 corner pairs. */
  lemma CubePairs()
    ensures Pairs(Sides(CubeFaces)) == CubeCornerPairs && |Pairs(Sides(CubeFaces))| == 12
  {
    CubeSides();
    CubeListPairs();
    CubeUnion();
    CubeCornerPairsCount();
  }

  /** For each cube side, the position of the other face's side on the same pair. */
  const CubePartners: seq<nat> := [11, 15, 19, 23, 9, 13, 17, 21, 22, 4, 12, 0, 10, 5, 16, 1, 14, 6, 20, 2, 18, 7, 8, 3]

  /** Two different sides on the pair make at least two matches. */
  lemma TwoMatches(ss: seq<Side>, a: nat, b: nat, m: nat, p: nat)
    requires m < |ss| && p < |ss| && m != p
    requires OnPair(ss[m], a, b) && OnPair(ss[p], a, b)
    ensures |Matches(ss, a, b)| >= 2
  {
    MatchesComplete(ss, a, b, m);
    MatchesComplete(ss, a, b, p);
    var ms := Matches(ss, a, b);
    var i :| 0 <= i < |ms| && ms[i] == m;
    var j :| 0 <= j < |ms| && ms[j] == p;
    assert i != j;
  }

  /** The cube is closed: every side's pair is shared by at least two sides. */
  lemma CubeClosed()
    ensures forall m :: 0 <= m < |Sides(CubeFaces)| ==>
      |Matches(Sides(CubeFaces), Sides(CubeFaces)[m].a, Sides(CubeFaces)[m].b)| >= 2
  {
    CubeSides();
    var cs := CubeSideList;
    forall m | 0 <= m < |cs|
      ensures |Matches(cs, cs[m].a, cs[m].b)| >= 2
    {
      var p := CubePartners[m];
      assert m == 0 || m == 1 || m == 2 || m == 3 || m == 4 || m == 5 || m == 6 || m == 7 || m == 8 ||
        m == 9 || m == 10 || m == 11 || m == 12 || m == 13 || m == 14 || m == 15 || m == 16 || m == 17 ||
        m == 18 || m == 19 || m == 20 || m == 21 || m == 22 || m == 23;
      TwoMatches(cs, cs[m].a, cs[m].b, m, p);
    }
  }

  /** The edges generated for a closed mesh: one per distinct pair, each
      shared by two faces. */
  lemma ClosedEdges(ss: seq<Side>, es: seq<Edge>)
    requires EdgesOf(ss, es)
    requires forall m :: 0 <= m < |ss| ==> |Matches(ss, ss[m].a, ss[m].b)| >= 2
    ensures |es| == |Pairs(ss)|
    ensures forall i :: 0 <= i < |es| ==> es[i].faceA.Some? && es[i].faceB.Some?
  {
    EdgesOfCount(ss, es);
    ClosedMeshEdgesShared(ss, es);
  }

  /** The edges generated for the cube: 12, each shared by two faces. */
  lemma CubeEdges(es: seq<Edge>)
    requires EdgesOf(Sides(CubeFaces), es)
    ensures |es| == 12
    ensures forall i :: 0 <= i < |es| ==> es[i].faceA.Some? && es[i].faceB.Some?
  {
    CubePairs();
    CubeClosed();
    ClosedEdges(Sides(CubeFaces), es);
  }

  /** createPlane: the mesh over the plane table, with its 4 outline edges. */
  method CreatePlane(size: real, maxEdges: nat) returns (mesh: Mesh)
    requires 4 <= maxEdges
    ensures mesh.Valid() && mesh.original[..] == PlaneVertices(size) && mesh.faces == PlaneFaces
    ensures EdgesOf(Sides(PlaneFaces), mesh.edges) && |mesh.edges| == 4
  {
    TablesWellFormed();
    PlanePairs();
    mesh := new Mesh(PlaneVertices(size), PlaneFaces, maxEdges);
  }

  /** createCube: the mesh over the cube table, with its 12 edges each
      shared by two faces. */
  method CreateCube(size: real, maxEdges: nat) returns (mesh: Mesh)
    requires 12 <= maxEdges
    ensures mesh.Valid() && mesh.original[..] == CubeVertices(size) && mesh.faces == CubeFaces
    ensures EdgesOf(Sides(CubeFaces), mesh.edges) && |mesh.edges| == 12
    ensures forall i :: 0 <= i < |mesh.edges| ==> mesh.edges[i].faceA.Some? && mesh.edges[i].faceB.Some?
  {
    TablesWellFormed();
    CubePairs();
    mesh := new Mesh(CubeVertices(size), CubeFaces, maxEdges);
    CubeEdges(mesh.edges);
  }

  /** edgeEquals: the pair is (aIndex, bIndex) in either order. */
  predicate EdgeEquals(edge: IndexEdge, aIndex: nat, bIndex: nat)
  {
    (edge.aIndex == aIndex && edge.bIndex == bIndex) || (edge.aIndex == bIndex && edge.bIndex == aIndex)
  }

  /** edgeEquals holds exactly when the two pairs are equal as unordered
      pairs, and it is symmetric in both of its arguments. */
  lemma EdgeEqualsUnordered(edge: IndexEdge, aIndex: nat, bIndex: nat)
    ensures EdgeEquals(edge, aIndex, bIndex) <==> multiset{edge.aIndex, edge.bIndex} == multiset{aIndex, bIndex}
    ensures EdgeEquals(edge, aIndex, bIndex) == EdgeEquals(edge, bIndex, aIndex)
    ensures EdgeEquals(edge, aIndex, bIndex) == EdgeEquals(IndexEdge(aIndex, bIndex), edge.aIndex, edge.bIndex)
  {
    var m := multiset{edge.aIndex, edge.bIndex};
    if m == multiset{aIndex, bIndex} {
      assert aIndex in m && bIndex in m;
      if edge.aIndex != aIndex {
        assert m[aIndex] == 1;
        assert edge.bIndex == aIndex;
        assert m[edge.aIndex] >= 1;
      }
    }
  }

  /** Some entry of es equals e as an unordered pair. */
  ghost predicate Listed(es: seq<IndexEdge>, e: IndexEdge)
  {
    exists i :: 0 <= i < |es| && EdgeEquals(e, es[i].aIndex, es[i].bIndex)
  }

  /** No two entries are equal as unordered pairs. */
  predicate Unique(es: seq<IndexEdge>)
  {
    forall i, j :: 0 <= i < j < |es| ==> !EdgeEquals(es[i], es[j].aIndex, es[j].bIndex)
  }

  /** The buffer after addEdge(e). */
  ghost function Added(es: seq<IndexEdge>, e: IndexEdge): seq<IndexEdge>
  {
    if Listed(es, e) then es else es + [e]
  }

  /** addEdge keeps the buffer free of repeated pairs, and afterwards e is listed. */
  lemma AddedUnique(es: seq<IndexEdge>, e: IndexEdge)
    requires Unique(es)
    ensures Unique(Added(es, e)) && Listed(Added(es, e), e)
    ensures |Added(es, e)| == if Listed(es, e) then |es| else |es| + 1
  {
    if !Listed(es, e) {
      var es' := es + [e];
      forall i | 0 <= i < |es|
        ensures !EdgeEquals(es[i], e.aIndex, e.bIndex)
      {
        EdgeEqualsUnordered(e, es[i].aIndex, es[i].bIndex);
        EdgeEqualsUnordered(es[i], e.aIndex, e.bIndex);
      }
      assert EdgeEquals(e, es'[|es|].aIndex, es'[|es|].bIndex);
    }
  }

  /** addEdge: scans the whole buffer for the pair, then pushes it if absent. */
  method AddEdge(edge: IndexEdge, buffer: Buffer<IndexEdge>)
    requires buffer.Valid() && (buffer.Size() < buffer.Capacity() || Listed(buffer.Contents(), edge))
    modifies buffer, buffer.elements
    ensures buffer.Valid() && buffer.Contents() == Added(old(buffer.Contents()), edge)
  {
    var found := false;
    for i := 0 to buffer.Size()
      invariant found <==> exists k :: 0 <= k < i && EdgeEquals(edge, buffer.Contents()[k].aIndex, buffer.Contents()[k].bIndex)
    {
      var entry := buffer.Get(i);
      if EdgeEquals(edge, entry.aIndex, entry.bIndex) {
        found := true;
      }
    }
    if !found {
      buffer.Push(edge);
    }
  }

  /** The buffer after addEdge(p) for each p of ps in turn. */
  ghost function AddedAll(es: seq<IndexEdge>, ps: seq<IndexEdge>): seq<IndexEdge>
  {
    if |ps| == 0 then es else Added(AddedAll(es, ps[..|ps| - 1]), ps[|ps| - 1])
  }

  lemma {:induction false} AddedAllConcat(es: seq<IndexEdge>, ps: seq<IndexEdge>, qs: seq<IndexEdge>)
    ensures AddedAll(es, ps + qs) == AddedAll(AddedAll(es, ps), qs)
  {
    if |qs| == 0 {
      assert ps + qs == ps;
    } else {
      var n := |qs| - 1;
      assert (ps + qs)[..|ps + qs| - 1] == ps + qs[..n];
      AddedAllConcat(es, ps, qs[..n]);
    }
  }

  lemma AddedAllFirst(es: seq<IndexEdge>, p: IndexEdge, qs: seq<IndexEdge>)
    ensures AddedAll(es, [p] + qs) == AddedAll(Added(es, p), qs)
  {
    AddedAllConcat(es, [p], qs);
    assert [p][..0] == [];
  }

  /** Folding addEdge only appends. */
  lemma {:induction false} AddedAllGrows(es: seq<IndexEdge>, ps: seq<IndexEdge>)
    ensures es <= AddedAll(es, ps)
  {
    if |ps| > 0 {
      AddedAllGrows(es, ps[..|ps| - 1]);
    }
  }

  /** Folding a longer list of pairs leaves a longer buffer. */
  lemma AddedAllPrefix(es: seq<IndexEdge>, ps: seq<IndexEdge>, qs: seq<IndexEdge>)
    requires ps <= qs
    ensures AddedAll(es, ps) <= AddedAll(es, qs)
  {
    assert qs == ps + qs[|ps|..];
    AddedAllConcat(es, ps, qs[|ps|..]);
    AddedAllGrows(AddedAll(es, ps), qs[|ps|..]);
  }

  /** Folding addEdge over ps lists every pair of ps. */
  lemma {:induction false} AddedAllListed(es: seq<IndexEdge>, ps: seq<IndexEdge>)
    ensures forall k :: 0 <= k < |ps| ==> Listed(AddedAll(es, ps), ps[k])
  {
    if |ps| > 0 {
      var n := |ps| - 1;
      var before := AddedAll(es, ps[..n]);
      var r := AddedAll(es, ps);
      AddedAllListed(es, ps[..n]);
      assert before <= r;
      forall k | 0 <= k < |ps|
        ensures Listed(r, ps[k])
      {
        if k < n {
          assert ps[..n][k] == ps[k];
          var i :| 0 <= i < |before| && EdgeEquals(ps[k], before[i].aIndex, before[i].bIndex);
          assert r[i] == before[i];
        } else if !Listed(before, ps[n]) {
          assert r[|before|] == ps[n];
        }
      }
    }
  }

  /** Folding addEdge over ps keeps the old entries in front and adds at most
      |ps| entries, each a pair of ps. */
  lemma {:induction false} AddedAllFrom(es: seq<IndexEdge>, ps: seq<IndexEdge>)
    ensures es <= AddedAll(es, ps) && |AddedAll(es, ps)| <= |es| + |ps|
    ensures forall k :: |es| <= k < |AddedAll(es, ps)| ==> AddedAll(es, ps)[k] in ps
  {
    if |ps| > 0 {
      var n := |ps| - 1;
      var before := AddedAll(es, ps[..n]);
      var r := AddedAll(es, ps);
      AddedAllFrom(es, ps[..n]);
      forall k | |es| <= k < |r|
        ensures r[k] in ps
      {
        if k < |before| {
          assert r[k] == before[k] && before[k] in ps[..n];
        }
      }
    }
  }

  /** Folding addEdge over a buffer without repeated pairs keeps it so. */
  lemma {:induction false} AddedAllUnique(es: seq<IndexEdge>, ps: seq<IndexEdge>)
    requires Unique(es)
    ensures Unique(AddedAll(es, ps))
  {
    if |ps| > 0 {
      AddedAllUnique(es, ps[..|ps| - 1]);
      AddedUnique(AddedAll(es, ps[..|ps| - 1]), ps[|ps| - 1]);
    }
  }

  /** The sides of t in the order the loops visit them: ab, bc, ca. */
  function TrianglePairs(t: Triangle): seq<IndexEdge>
  {
    [IndexEdge(t.aIndex, t.bIndex), IndexEdge(t.bIndex, t.cIndex), IndexEdge(t.cIndex, t.aIndex)]
  }

  /** The sides of the triangles ts, triangle by triangle. */
  function SidePairs(ts: seq<Triangle>): (ps: seq<IndexEdge>)
    ensures |ps| == 3 * |ts|
  {
    if |ts| == 0 then [] else SidePairs(ts[..|ts| - 1]) + TrianglePairs(ts[|ts| - 1])
  }

  lemma SidePairsStep(ts: seq<Triangle>, j: nat)
    requires j < |ts|
    ensures SidePairs(ts[..j + 1]) == SidePairs(ts[..j]) + TrianglePairs(ts[j])
  {
    assert ts[..j + 1][..j] == ts[..j];
  }

  lemma {:induction false} SidePairsPrefix(ts: seq<Triangle>, j: nat)
    requires j <= |ts|
    ensures SidePairs(ts[..j]) <= SidePairs(ts)
    decreases |ts| - j
  {
    if j < |ts| {
      SidePairsStep(ts, j);
      SidePairsPrefix(ts, j + 1);
    } else {
      assert ts[..j] == ts;
    }
  }

  /** Triangle j's sides sit at 3j .. 3j + 2. */
  lemma SidePairsAt(ts: seq<Triangle>, j: nat)
    requires j < |ts|
    ensures SidePairs(ts)[3 * j..3 * j + 3] == TrianglePairs(ts[j])
  {
    SidePairsStep(ts, j);
    SidePairsPrefix(ts, j + 1);
  }

  /** Every pair of SidePairs(ts) is a side of one of the triangles. */
  lemma {:induction false} SidePairsFrom(ts: seq<Triangle>, p: IndexEdge)
    requires p in SidePairs(ts)
    ensures exists j :: 0 <= j < |ts| && p in TrianglePairs(ts[j])
  {
    var n := |ts| - 1;
    if p in SidePairs(ts[..n]) {
      SidePairsFrom(ts[..n], p);
      var j :| 0 <= j < n && p in TrianglePairs(ts[..n][j]);
      assert ts[..n][j] == ts[j];
    }
  }

  /** The stored vertex index of the first record on pair {a, b}, if any. */
  function Lookup(ms: seq<EdgeMidpoint>, a: nat, b: nat): (r: Option<nat>)
    ensures r.Some? <==> exists i :: 0 <= i < |ms| && EdgeEquals(IndexEdge(ms[i].aIndex, ms[i].bIndex), a, b)
  {
    if |ms| == 0 then None
    else if EdgeEquals(IndexEdge(ms[0].aIndex, ms[0].bIndex), a, b) then Some(ms[0].index)
    else
      var rest := Lookup(ms[1..], a, b);
      assert forall i :: 1 <= i < |ms| ==> ms[i] == ms[1..][i - 1];
      rest
  }

  /** Folding addEdge over the sides of one more triangle: the fold over the
      first j + 1 triangles continues the fold over the first j, and stays
      within the fold over all of them. */
  lemma FoldStep(es: seq<IndexEdge>, ts: seq<Triangle>, j: nat)
    requires j < |ts|
    ensures AddedAll(es, SidePairs(ts[..j + 1])) == AddedAll(AddedAll(es, SidePairs(ts[..j])), TrianglePairs(ts[j]))
    ensures |AddedAll(es, SidePairs(ts[..j + 1]))| <= |AddedAll(es, SidePairs(ts))|
  {
    SidePairsStep(ts, j);
    AddedAllConcat(es, SidePairs(ts[..j]), TrianglePairs(ts[j]));
    SidePairsPrefix(ts, j + 1);
    AddedAllPrefix(es, SidePairs(ts[..j + 1]), SidePairs(ts));
  }

  /** The room one more triangle's sides take is part of the room the whole fold takes. */
  lemma FoldRoom(es: seq<IndexEdge>, ts: seq<Triangle>, j: nat, keys: seq<IndexEdge>)
    requires j < |ts| && keys == AddedAll(es, SidePairs(ts[..j]))
    ensures AddedAll(keys, TrianglePairs(ts[j])) == AddedAll(es, SidePairs(ts[..j + 1]))
    ensures |keys| <= |AddedAll(keys, TrianglePairs(ts[j]))| <= |AddedAll(es, SidePairs(ts))|
  {
    FoldStep(es, ts, j);
    AddedAllGrows(keys, TrianglePairs(ts[j]));
  }

  /** The pairs a midpoint cache holds records for, in record order. */
  function Keys(ms: seq<EdgeMidpoint>): (ks: seq<IndexEdge>)
    ensures |ks| == |ms|
  {
    seq(|ms|, i requires 0 <= i < |ms| => IndexEdge(ms[i].aIndex, ms[i].bIndex))
  }

  /** The cache answers a pair exactly when its keys list the pair. */
  lemma LookupListed(ms: seq<EdgeMidpoint>, a: nat, b: nat)
    ensures Lookup(ms, a, b).Some? <==> Listed(Keys(ms), IndexEdge(a, b))
  {
    forall i | 0 <= i < |ms|
      ensures EdgeEquals(IndexEdge(ms[i].aIndex, ms[i].bIndex), a, b)
          == EdgeEquals(IndexEdge(a, b), Keys(ms)[i].aIndex, Keys(ms)[i].bIndex)
    {
      EdgeEqualsUnordered(IndexEdge(ms[i].aIndex, ms[i].bIndex), a, b);
    }
  }

  /** A pair not cached yet takes one more record, which the lookups still
      to come keep. */
  lemma CacheRoom(ms: seq<EdgeMidpoint>, a: nat, b: nat, rest: seq<IndexEdge>)
    ensures Lookup(ms, a, b).None? ==> |ms| + 1 <= |AddedAll(Added(Keys(ms), IndexEdge(a, b)), rest)|
  {
    LookupListed(ms, a, b);
    AddedAllGrows(Added(Keys(ms), IndexEdge(a, b)), rest);
  }

  /** Every cached midpoint names a vertex below n. */
  predicate MidpointsBelow(ms: seq<EdgeMidpoint>, n: nat)
  {
    forall i :: 0 <= i < |ms| ==> ms[i].index < n
  }

  lemma {:induction false} LookupBelow(ms: seq<EdgeMidpoint>, a: nat, b: nat, n: nat)
    requires MidpointsBelow(ms, n) && Lookup(ms, a, b).Some?
    ensures Lookup(ms, a, b).value < n
  {
    if !EdgeEquals(IndexEdge(ms[0].aIndex, ms[0].bIndex), a, b) {
      LookupBelow(ms[1..], a, b, n);
    }
  }

  /** A record on the pair in the other orientation is found just the same. */
  lemma {:induction false} LookupSymmetric(ms: seq<EdgeMidpoint>, a: nat, b: nat)
    ensures Lookup(ms, a, b) == Lookup(ms, b, a)
  {
    if |ms| > 0 {
      EdgeEqualsUnordered(IndexEdge(ms[0].aIndex, ms[0].bIndex), a, b);
      LookupSymmetric(ms[1..], a, b);
    }
  }

  /** Appending a record leaves earlier lookups alone and answers the new pair. */
  lemma {:induction false} LookupAppend(ms: seq<EdgeMidpoint>, m: EdgeMidpoint, a: nat, b: nat)
    ensures Lookup(ms + [m], a, b) ==
      if Lookup(ms, a, b).Some? then Lookup(ms, a, b)
      else if EdgeEquals(IndexEdge(m.aIndex, m.bIndex), a, b) then Some(m.index) else None
  {
    if |ms| > 0 {
      assert (ms + [m])[1..] == ms[1..] + [m];
      LookupAppend(ms[1..], m, a, b);
    } else {
      assert (ms + [m])[1..] == [];
    }
  }

  /** getMidpoint: the cached vertex for pair {a, b}, or a new vertex at the
      normalised midpoint, cached under (a, b). Vector3Normalize is the
      parameter normalize. */
  method GetMidpoint(aIndex: nat, bIndex: nat, vertexBuffer: Buffer<Vector3>,
                     midpointBuffer: Buffer<EdgeMidpoint>, normalize: Vector3 -> Vector3)
    returns (index: nat)
    requires vertexBuffer.Valid() && midpointBuffer.Valid()
    requires aIndex < vertexBuffer.Size() && bIndex < vertexBuffer.Size()
    requires Lookup(midpointBuffer.Contents(), aIndex, bIndex).None? ==>
      vertexBuffer.Size() < vertexBuffer.Capacity() && midpointBuffer.Size() < midpointBuffer.Capacity()
    modifies vertexBuffer, vertexBuffer.elements, midpointBuffer, midpointBuffer.elements
    ensures vertexBuffer.Valid() && midpointBuffer.Valid()
    ensures var found := Lookup(old(midpointBuffer.Contents()), aIndex, bIndex);
      if found.Some? then
        index == found.value
        && vertexBuffer.Contents() == old(vertexBuffer.Contents())
        && midpointBuffer.Contents() == old(midpointBuffer.Contents())
      else
        index == old(vertexBuffer.Size())
        && vertexBuffer.Contents() == old(vertexBuffer.Contents())
             + [normalize(Vector3Midpoint(old(vertexBuffer.Contents())[aIndex], old(vertexBuffer.Contents())[bIndex]))]
        && midpointBuffer.Contents() == old(midpointBuffer.Contents()) + [EdgeMidpoint(aIndex, bIndex, index)]
    ensures Lookup(midpointBuffer.Contents(), aIndex, bIndex) == Some(index)
    ensures MidpointsBelow(old(midpointBuffer.Contents()), old(vertexBuffer.Size())) ==>
      MidpointsBelow(midpointBuffer.Contents(), vertexBuffer.Size()) && index < vertexBuffer.Size()
  {
    ghost var ms := midpointBuffer.Contents();
    var i := 0;
    while i < midpointBuffer.Size()
      invariant i <= midpointBuffer.Size()
      invariant Lookup(ms, aIndex, bIndex) == Lookup(ms[i..], aIndex, bIndex)
    {
      var record := midpointBuffer.Get(i);
      assert ms[i..][1..] == ms[i + 1..];
      if EdgeEquals(IndexEdge(record.aIndex, record.bIndex), aIndex, bIndex) {
        if MidpointsBelow(ms, vertexBuffer.Size()) {
          LookupBelow(ms, aIndex, bIndex, vertexBuffer.Size());
        }
        return record.index;
      }
      i := i + 1;
    }
    assert ms[i..] == [];
    var a := vertexBuffer.Get(aIndex);
    var b := vertexBuffer.Get(bIndex);
    var midpoint := Vector3Midpoint(a, b);
    index := vertexBuffer.Size();
    vertexBuffer.Push(normalize(midpoint));
    midpointBuffer.Push(EdgeMidpoint(aIndex, bIndex, index));
    LookupAppend(ms, EdgeMidpoint(aIndex, bIndex, index), aIndex, bIndex);
  }

  /** Lookups answered by a cache stay the same once more records follow. */
  lemma {:induction false} LookupExtends(ms: seq<EdgeMidpoint>, ms': seq<EdgeMidpoint>, a: nat, b: nat)
    requires ms <= ms' && Lookup(ms, a, b).Some?
    ensures Lookup(ms', a, b) == Lookup(ms, a, b)
    decreases |ms'|
  {
    if |ms'| > |ms| {
      var shorter := ms'[..|ms'| - 1];
      assert ms <= shorter;
      LookupExtends(ms, shorter, a, b);
      assert ms' == shorter + [ms'[|ms'| - 1]];
      LookupAppend(shorter, ms'[|ms'| - 1], a, b);
    } else {
      assert ms' == ms;
    }
  }

  /** All three sides of every triangle have a cached midpoint. */
  predicate Cached(ts: seq<Triangle>, ms: seq<EdgeMidpoint>)
  {
    forall j :: 0 <= j < |ts| ==>
      Lookup(ms, ts[j].aIndex, ts[j].bIndex).Some? && Lookup(ms, ts[j].bIndex, ts[j].cIndex).Some?
      && Lookup(ms, ts[j].cIndex, ts[j].aIndex).Some?
  }

  /** The four triangles one triangle splits into: one per corner, each with
      the midpoints of its two sides at that corner, and the middle one. */
  function Split(t: Triangle, ms: seq<EdgeMidpoint>): (r: seq<Triangle>)
    requires Cached([t], ms)
    ensures |r| == 4
  {
    assert [t][0] == t;
    var ab := Lookup(ms, t.aIndex, t.bIndex).value;
    var bc := Lookup(ms, t.bIndex, t.cIndex).value;
    var ca := Lookup(ms, t.cIndex, t.aIndex).value;
    [Triangle(t.aIndex, ab, ca), Triangle(t.bIndex, bc, ab), Triangle(t.cIndex, ca, bc), Triangle(ab, bc, ca)]
  }

  /** One subdivision round of the triangles ts, in order. */
  function Subdivided(ts: seq<Triangle>, ms: seq<EdgeMidpoint>): (r: seq<Triangle>)
    requires Cached(ts, ms)
    ensures |r| == 4 * |ts|
  {
    if |ts| == 0 then []
    else
      assert Cached([ts[|ts| - 1]], ms) by { assert [ts[|ts| - 1]][0] == ts[|ts| - 1]; }
      Subdivided(ts[..|ts| - 1], ms) + Split(ts[|ts| - 1], ms)
  }

  /** The four triangles of source triangle j sit at 4j .. 4j + 3, and every
      corner is a corner of triangle j or one of its cached midpoints. */
  lemma {:induction false} SubdividedAt(ts: seq<Triangle>, ms: seq<EdgeMidpoint>, j: nat)
    requires Cached(ts, ms) && j < |ts|
    ensures Cached([ts[j]], ms)
    ensures Subdivided(ts, ms)[4 * j..4 * j + 4] == Split(ts[j], ms)
  {
    assert [ts[j]][0] == ts[j];
    var n := |ts| - 1;
    var prefix := Subdivided(ts[..n], ms);
    assert Subdivided(ts, ms) == prefix + Split(ts[n], ms);
    if j < n {
      assert ts[..n][j] == ts[j];
      SubdividedAt(ts[..n], ms, j);
      assert Subdivided(ts, ms)[4 * j..4 * j + 4] == prefix[4 * j..4 * j + 4];
    } else {
      assert Subdivided(ts, ms)[4 * j..4 * j + 4] == Split(ts[n], ms);
    }
  }

  /** More cache records do not change a subdivision the cache already determined. */
  lemma {:induction false} SubdividedExtends(ts: seq<Triangle>, ms: seq<EdgeMidpoint>, ms': seq<EdgeMidpoint>)
    requires Cached(ts, ms) && ms <= ms'
    ensures Cached(ts, ms') && Subdivided(ts, ms') == Subdivided(ts, ms)
  {
    forall j | 0 <= j < |ts|
      ensures Lookup(ms', ts[j].aIndex, ts[j].bIndex) == Lookup(ms, ts[j].aIndex, ts[j].bIndex)
      ensures Lookup(ms', ts[j].bIndex, ts[j].cIndex) == Lookup(ms, ts[j].bIndex, ts[j].cIndex)
      ensures Lookup(ms', ts[j].cIndex, ts[j].aIndex) == Lookup(ms, ts[j].cIndex, ts[j].aIndex)
    {
      LookupExtends(ms, ms', ts[j].aIndex, ts[j].bIndex);
      LookupExtends(ms, ms', ts[j].bIndex, ts[j].cIndex);
      LookupExtends(ms, ms', ts[j].cIndex, ts[j].aIndex);
    }
    if |ts| > 0 {
      SubdividedExtends(ts[..|ts| - 1], ms, ms');
      assert [ts[|ts| - 1]][0] == ts[|ts| - 1];
    }
  }

  /** Every corner of every triangle lies below n. */
  predicate CornersBelow(ts: seq<Triangle>, n: nat)
  {
    forall j :: 0 <= j < |ts| ==> ts[j].aIndex < n && ts[j].bIndex < n && ts[j].cIndex < n
  }

  /** getMidpoint as the subdivision loop relies on it: the cache's keys grow
      as addEdge grows an edge buffer, with one new vertex per new record, and
      afterwards the cache answers the pair with the returned index. Room is
      needed only when the pair is not cached yet. */
  method CacheMidpoint(aIndex: nat, bIndex: nat, vertexBuffer: Buffer<Vector3>,
                       midpointBuffer: Buffer<EdgeMidpoint>, normalize: Vector3 -> Vector3)
    returns (index: nat)
    requires vertexBuffer.Valid() && midpointBuffer.Valid()
    requires aIndex < vertexBuffer.Size() && bIndex < vertexBuffer.Size()
    requires Lookup(midpointBuffer.Contents(), aIndex, bIndex).None? ==>
      vertexBuffer.Size() < vertexBuffer.Capacity() && midpointBuffer.Size() < midpointBuffer.Capacity()
    modifies vertexBuffer, vertexBuffer.elements, midpointBuffer, midpointBuffer.elements
    ensures vertexBuffer.Valid() && midpointBuffer.Valid()
    ensures old(midpointBuffer.Contents()) <= midpointBuffer.Contents()
    ensures Keys(midpointBuffer.Contents()) == Added(Keys(old(midpointBuffer.Contents())), IndexEdge(aIndex, bIndex))
    ensures vertexBuffer.Size() - old(vertexBuffer.Size()) == midpointBuffer.Size() - old(midpointBuffer.Size())
    ensures Lookup(midpointBuffer.Contents(), aIndex, bIndex) == Some(index)
  {
    ghost var ms := midpointBuffer.Contents();
    LookupListed(ms, aIndex, bIndex);
    index := GetMidpoint(aIndex, bIndex, vertexBuffer, midpointBuffer, normalize);
    if Lookup(ms, aIndex, bIndex).None? {
      assert Keys(midpointBuffer.Contents()) == Keys(ms) + [IndexEdge(aIndex, bIndex)];
    }
  }

  /** The three getMidpoint calls for one triangle; they need room for the
      midpoints of the sides not cached yet. */
  method MidpointsOf(t: Triangle, vertexBuffer: Buffer<Vector3>, midpointBuffer: Buffer<EdgeMidpoint>,
                     normalize: Vector3 -> Vector3)
    returns (ab: nat, bc: nat, ca: nat)
    requires vertexBuffer.Valid() && midpointBuffer.Valid()
    requires CornersBelow([t], vertexBuffer.Size())
    requires var grown := |AddedAll(Keys(midpointBuffer.Contents()), TrianglePairs(t))|;
      grown <= midpointBuffer.Capacity()
      && vertexBuffer.Size() + grown <= vertexBuffer.Capacity() + midpointBuffer.Size()
    modifies vertexBuffer, vertexBuffer.elements, midpointBuffer, midpointBuffer.elements
    ensures vertexBuffer.Valid() && midpointBuffer.Valid()
    ensures old(midpointBuffer.Contents()) <= midpointBuffer.Contents()
    ensures Keys(midpointBuffer.Contents()) == AddedAll(Keys(old(midpointBuffer.Contents())), TrianglePairs(t))
    ensures vertexBuffer.Size() - old(vertexBuffer.Size()) == midpointBuffer.Size() - old(midpointBuffer.Size())
    ensures Lookup(midpointBuffer.Contents(), t.aIndex, t.bIndex) == Some(ab)
    ensures Lookup(midpointBuffer.Contents(), t.bIndex, t.cIndex) == Some(bc)
    ensures Lookup(midpointBuffer.Contents(), t.cIndex, t.aIndex) == Some(ca)
  {
    assert [t][0] == t;
    ghost var p0, p1, p2 := IndexEdge(t.aIndex, t.bIndex), IndexEdge(t.bIndex, t.cIndex), IndexEdge(t.cIndex, t.aIndex);
    assert TrianglePairs(t) == [p0] + [p1, p2];
    AddedAllFirst(Keys(midpointBuffer.Contents()), p0, [p1, p2]);
    CacheRoom(midpointBuffer.Contents(), t.aIndex, t.bIndex, [p1, p2]);
    ab := CacheMidpoint(t.aIndex, t.bIndex, vertexBuffer, midpointBuffer, normalize);
    ghost var ms1 := midpointBuffer.Contents();
    assert [p1, p2] == [p1] + [p2];
    AddedAllFirst(Keys(ms1), p1, [p2]);
    CacheRoom(ms1, t.bIndex, t.cIndex, [p2]);
    bc := CacheMidpoint(t.bIndex, t.cIndex, vertexBuffer, midpointBuffer, normalize);
    ghost var ms2 := midpointBuffer.Contents();
    assert [p2] == [p2] + [];
    AddedAllFirst(Keys(ms2), p2, []);
    CacheRoom(ms2, t.cIndex, t.aIndex, []);
    ca := CacheMidpoint(t.cIndex, t.aIndex, vertexBuffer, midpointBuffer, normalize);
    LookupExtends(ms1, midpointBuffer.Contents(), t.aIndex, t.bIndex);
    LookupExtends(ms2, midpointBuffer.Contents(), t.bIndex, t.cIndex);
  }

  /** The four pushes for one triangle. */
  method PushSplit(t: Triangle, ab: nat, bc: nat, ca: nat, targetTriangles: Buffer<Triangle>)
    requires targetTriangles.Valid() && targetTriangles.Size() + 4 <= targetTriangles.Capacity()
    modifies targetTriangles, targetTriangles.elements
    ensures targetTriangles.Valid()
    ensures targetTriangles.Contents() == old(targetTriangles.Contents())
      + [Triangle(t.aIndex, ab, ca), Triangle(t.bIndex, bc, ab), Triangle(t.cIndex, ca, bc), Triangle(ab, bc, ca)]
  {
    targetTriangles.Push(Triangle(t.aIndex, ab, ca));
    targetTriangles.Push(Triangle(t.bIndex, bc, ab));
    targetTriangles.Push(Triangle(t.cIndex, ca, bc));
    targetTriangles.Push(Triangle(ab, bc, ca));
  }

  /** The body of the subdivision loop for one triangle: three midpoints,
      then four triangles pushed. */
  method SplitTriangle(t: Triangle, targetTriangles: Buffer<Triangle>, vertexBuffer: Buffer<Vector3>,
                       midpointBuffer: Buffer<EdgeMidpoint>, normalize: Vector3 -> Vector3)
    requires targetTriangles.Valid() && vertexBuffer.Valid() && midpointBuffer.Valid()
    requires CornersBelow([t], vertexBuffer.Size())
    requires var grown := |AddedAll(Keys(midpointBuffer.Contents()), TrianglePairs(t))|;
      grown <= midpointBuffer.Capacity()
      && vertexBuffer.Size() + grown <= vertexBuffer.Capacity() + midpointBuffer.Size()
    requires targetTriangles.Size() + 4 <= targetTriangles.Capacity()
    modifies targetTriangles, targetTriangles.elements, vertexBuffer, vertexBuffer.elements
    modifies midpointBuffer, midpointBuffer.elements
    ensures targetTriangles.Valid() && vertexBuffer.Valid() && midpointBuffer.Valid()
    ensures old(midpointBuffer.Contents()) <= midpointBuffer.Contents()
    ensures Keys(midpointBuffer.Contents()) == AddedAll(Keys(old(midpointBuffer.Contents())), TrianglePairs(t))
    ensures vertexBuffer.Size() - old(vertexBuffer.Size()) == midpointBuffer.Size() - old(midpointBuffer.Size())
    ensures Cached([t], midpointBuffer.Contents())
    ensures targetTriangles.Contents() == old(targetTriangles.Contents()) + Split(t, midpointBuffer.Contents())
  {
    var ab, bc, ca := MidpointsOf(t, vertexBuffer, midpointBuffer, normalize);
    PushSplit(t, ab, bc, ca, targetTriangles);
  }

  /** Splitting one more triangle extends the subdivision by its four. */
  lemma SubdividedStep(ts: seq<Triangle>, ms: seq<EdgeMidpoint>, j: nat)
    requires j < |ts| && Cached(ts[..j], ms) && Cached([ts[j]], ms)
    ensures Cached(ts[..j + 1], ms)
    ensures Subdivided(ts[..j + 1], ms) == Subdivided(ts[..j], ms) + Split(ts[j], ms)
  {
    assert ts[..j + 1][..j] == ts[..j];
    assert [ts[j]][0] == ts[j];
    assert ts[..j + 1][j] == ts[j];
  }

  /** Splitting one more triangle with a grown cache extends the subdivision
      the smaller cache determined by that triangle's four. */
  lemma SubdividedNext(ts: seq<Triangle>, j: nat, ms: seq<EdgeMidpoint>, ms': seq<EdgeMidpoint>)
    requires j < |ts| && Cached(ts[..j], ms) && ms <= ms' && Cached([ts[j]], ms')
    ensures Cached(ts[..j + 1], ms')
    ensures Subdivided(ts[..j + 1], ms') == Subdivided(ts[..j], ms) + Split(ts[j], ms')
  {
    SubdividedExtends(ts[..j], ms, ms');
    SubdividedStep(ts, ms', j);
  }

  /** The subdivision loop of one refinement round: each source triangle is
      split into four target triangles, then the targets are copied back
      over the sources. The vertex and midpoint buffers need room for one
      entry per side pair not cached yet. */
  method SubdivideRound(sourceTriangles: Buffer<Triangle>, targetTriangles: Buffer<Triangle>,
                        vertexBuffer: Buffer<Vector3>, midpointBuffer: Buffer<EdgeMidpoint>,
                        normalize: Vector3 -> Vector3)
    requires sourceTriangles.Valid() && targetTriangles.Valid() && vertexBuffer.Valid() && midpointBuffer.Valid()
    requires sourceTriangles != targetTriangles && sourceTriangles.elements != targetTriangles.elements
    requires CornersBelow(sourceTriangles.Contents(), vertexBuffer.Size())
    requires var grown := |AddedAll(Keys(midpointBuffer.Contents()), SidePairs(sourceTriangles.Contents()))|;
      grown <= midpointBuffer.Capacity()
      && vertexBuffer.Size() + grown <= vertexBuffer.Capacity() + midpointBuffer.Size()
    requires 4 * sourceTriangles.Size() <= targetTriangles.Capacity()
    requires 4 * sourceTriangles.Size() <= sourceTriangles.Capacity()
    modifies sourceTriangles, sourceTriangles.elements, targetTriangles, targetTriangles.elements
    modifies vertexBuffer, vertexBuffer.elements, midpointBuffer, midpointBuffer.elements
    ensures sourceTriangles.Valid() && targetTriangles.Valid() && vertexBuffer.Valid() && midpointBuffer.Valid()
    ensures old(midpointBuffer.Contents()) <= midpointBuffer.Contents()
    ensures Keys(midpointBuffer.Contents()) ==
      AddedAll(Keys(old(midpointBuffer.Contents())), SidePairs(old(sourceTriangles.Contents())))
    ensures vertexBuffer.Size() - old(vertexBuffer.Size()) == midpointBuffer.Size() - old(midpointBuffer.Size())
    ensures Cached(old(sourceTriangles.Contents()), midpointBuffer.Contents())
    ensures targetTriangles.Contents() == Subdivided(old(sourceTriangles.Contents()), midpointBuffer.Contents())
    ensures sourceTriangles.Contents() == targetTriangles.Contents()
  {
    SplitAll(sourceTriangles, targetTriangles, vertexBuffer, midpointBuffer, normalize);
    CopyBack(targetTriangles, sourceTriangles);
  }

  /** The first half of a round: target := the subdivision of source. */
  method SplitAll(sourceTriangles: Buffer<Triangle>, targetTriangles: Buffer<Triangle>,
                  vertexBuffer: Buffer<Vector3>, midpointBuffer: Buffer<EdgeMidpoint>,
                  normalize: Vector3 -> Vector3)
    requires sourceTriangles.Valid() && targetTriangles.Valid() && vertexBuffer.Valid() && midpointBuffer.Valid()
    requires sourceTriangles != targetTriangles && sourceTriangles.elements != targetTriangles.elements
    requires CornersBelow(sourceTriangles.Contents(), vertexBuffer.Size())
    requires var grown := |AddedAll(Keys(midpointBuffer.Contents()), SidePairs(sourceTriangles.Contents()))|;
      grown <= midpointBuffer.Capacity()
      && vertexBuffer.Size() + grown <= vertexBuffer.Capacity() + midpointBuffer.Size()
    requires 4 * sourceTriangles.Size() <= targetTriangles.Capacity()
    modifies targetTriangles, targetTriangles.elements
    modifies vertexBuffer, vertexBuffer.elements, midpointBuffer, midpointBuffer.elements
    ensures targetTriangles.Valid() && vertexBuffer.Valid() && midpointBuffer.Valid()
    ensures old(midpointBuffer.Contents()) <= midpointBuffer.Contents()
    ensures Keys(midpointBuffer.Contents()) ==
      AddedAll(Keys(old(midpointBuffer.Contents())), SidePairs(sourceTriangles.Contents()))
    ensures vertexBuffer.Size() - old(vertexBuffer.Size()) == midpointBuffer.Size() - old(midpointBuffer.Size())
    ensures Cached(sourceTriangles.Contents(), midpointBuffer.Contents())
    ensures targetTriangles.Contents() == Subdivided(sourceTriangles.Contents(), midpointBuffer.Contents())
  {
    ghost var source := sourceTriangles.Contents();
    ghost var vertexCount := vertexBuffer.Size();
    ghost var midpoints := midpointBuffer.Contents();
    targetTriangles.Clear();
    for j := 0 to sourceTriangles.Size()
      invariant targetTriangles.Valid() && vertexBuffer.Valid() && midpointBuffer.Valid()
      invariant midpoints <= midpointBuffer.Contents()
      invariant Keys(midpointBuffer.Contents()) == AddedAll(Keys(midpoints), SidePairs(source[..j]))
      invariant vertexBuffer.Size() - vertexCount == midpointBuffer.Size() - |midpoints|
      invariant Cached(source[..j], midpointBuffer.Contents())
      invariant targetTriangles.Contents() == Subdivided(source[..j], midpointBuffer.Contents())
    {
      var t := sourceTriangles.Get(j);
      assert CornersBelow([t], vertexBuffer.Size()) by { assert [t][0] == source[j]; }
      ghost var before := midpointBuffer.Contents();
      FoldRoom(Keys(midpoints), source, j, Keys(before));
      SplitTriangle(t, targetTriangles, vertexBuffer, midpointBuffer, normalize);
      SubdividedNext(source, j, before, midpointBuffer.Contents());
    }
    assert source[..|source|] == source;
  }

  /** The second half of a round: source := target, element by element. */
  method CopyBack(targetTriangles: Buffer<Triangle>, sourceTriangles: Buffer<Triangle>)
    requires sourceTriangles.Valid() && targetTriangles.Valid()
    requires sourceTriangles != targetTriangles && sourceTriangles.elements != targetTriangles.elements
    requires targetTriangles.Size() <= sourceTriangles.Capacity()
    modifies sourceTriangles, sourceTriangles.elements
    ensures sourceTriangles.Valid()
    ensures sourceTriangles.Contents() == targetTriangles.Contents()
  {
    sourceTriangles.Clear();
    for j := 0 to targetTriangles.Size()
      invariant sourceTriangles.Valid()
      invariant sourceTriangles.Contents() == targetTriangles.Contents()[..j]
    {
      var t := targetTriangles.Get(j);
      sourceTriangles.Push(t);
    }
    assert targetTriangles.Contents()[..targetTriangles.Size()] == targetTriangles.Contents();
  }

  /** All three sides of t are listed. */
  ghost predicate SidesListed(es: seq<IndexEdge>, t: Triangle)
  {
    Listed(es, IndexEdge(t.aIndex, t.bIndex)) && Listed(es, IndexEdge(t.bIndex, t.cIndex))
    && Listed(es, IndexEdge(t.cIndex, t.aIndex))
  }

  /** The edge loop's result lists every side of every triangle, and every
      entry it adds is a side of one of them. */
  lemma CollectedSides(ts: seq<Triangle>, es: seq<IndexEdge>)
    ensures var r := AddedAll(es, SidePairs(ts));
      es <= r && (Unique(es) ==> Unique(r))
      && (forall j :: 0 <= j < |ts| ==> SidesListed(r, ts[j]))
      && (forall k :: |es| <= k < |r| ==> exists j :: 0 <= j < |ts| && r[k] in TrianglePairs(ts[j]))
  {
    var ps := SidePairs(ts);
    var r := AddedAll(es, ps);
    AddedAllListed(es, ps);
    AddedAllFrom(es, ps);
    if Unique(es) {
      AddedAllUnique(es, ps);
    }
    forall j | 0 <= j < |ts|
      ensures SidesListed(r, ts[j])
    {
      SidePairsAt(ts, j);
      assert ps[3 * j] == IndexEdge(ts[j].aIndex, ts[j].bIndex);
      assert ps[3 * j + 1] == IndexEdge(ts[j].bIndex, ts[j].cIndex);
      assert ps[3 * j + 2] == IndexEdge(ts[j].cIndex, ts[j].aIndex);
    }
    forall k | |es| <= k < |r|
      ensures exists j :: 0 <= j < |ts| && r[k] in TrianglePairs(ts[j])
    {
      SidePairsFrom(ts, r[k]);
    }
  }

  /** The edge loop of createIcosphere: all three sides of every triangle
      through addEdge. The buffer ends up listing exactly its old entries
      and the triangles' sides, once each, so it needs room only for the
      distinct new pairs. */
  method CollectEdges(triangles: seq<Triangle>, edgeBuffer: Buffer<IndexEdge>)
    requires edgeBuffer.Valid()
    requires |AddedAll(edgeBuffer.Contents(), SidePairs(triangles))| <= edgeBuffer.Capacity()
    modifies edgeBuffer, edgeBuffer.elements
    ensures edgeBuffer.Valid()
    ensures edgeBuffer.Contents() == AddedAll(old(edgeBuffer.Contents()), SidePairs(triangles))
    ensures old(edgeBuffer.Contents()) <= edgeBuffer.Contents()
    ensures Unique(old(edgeBuffer.Contents())) ==> Unique(edgeBuffer.Contents())
    ensures forall j :: 0 <= j < |triangles| ==> SidesListed(edgeBuffer.Contents(), triangles[j])
    ensures forall k :: old(edgeBuffer.Size()) <= k < edgeBuffer.Size() ==>
      exists j :: 0 <= j < |triangles| && edgeBuffer.Contents()[k] in TrianglePairs(triangles[j])
  {
    ghost var es0 := edgeBuffer.Contents();
    for i := 0 to |triangles|
      invariant edgeBuffer.Valid()
      invariant edgeBuffer.Contents() == AddedAll(es0, SidePairs(triangles[..i]))
    {
      FoldStep(es0, triangles, i);
      AddSides(triangles[i], edgeBuffer);
    }
    assert triangles[..|triangles|] == triangles;
    CollectedSides(triangles, es0);
  }

  /** The three addEdge calls for one triangle; each needs room only when
      its pair is new. */
  method AddSides(t: Triangle, edgeBuffer: Buffer<IndexEdge>)
    requires edgeBuffer.Valid() && |AddedAll(edgeBuffer.Contents(), TrianglePairs(t))| <= edgeBuffer.Capacity()
    modifies edgeBuffer, edgeBuffer.elements
    ensures edgeBuffer.Valid() && edgeBuffer.Contents() == AddedAll(old(edgeBuffer.Contents()), TrianglePairs(t))
  {
    var p0, p1, p2 := IndexEdge(t.aIndex, t.bIndex), IndexEdge(t.bIndex, t.cIndex), IndexEdge(t.cIndex, t.aIndex);
    assert TrianglePairs(t) == [p0] + [p1, p2];
    AddedAllFirst(edgeBuffer.Contents(), p0, [p1, p2]);
    AddedAllGrows(Added(edgeBuffer.Contents(), p0), [p1, p2]);
    AddEdge(p0, edgeBuffer);
    assert [p1, p2] == [p1] + [p2];
    AddedAllFirst(edgeBuffer.Contents(), p1, [p2]);
    AddedAllGrows(Added(edgeBuffer.Contents(), p1), [p2]);
    AddEdge(p1, edgeBuffer);
    assert [p2] == [p2] + [];
    AddedAllFirst(edgeBuffer.Contents(), p2, []);
    AddEdge(p2, edgeBuffer);
  }

  function Pow4(n: nat): (r: nat)
    ensures r >= 1
  {
    if n == 0 then 1 else 4 * Pow4(n - 1)
  }

  /** The icosphere's vertex count, 10 * 4^(s - 1) + 2. The `uint32_t`
      subtraction wraps at s = 0, so s >= 1. */
  function IcosphereVertexCount(subdivisions: nat): nat
    requires subdivisions >= 1
  {
    10 * Pow4(subdivisions - 1) + 2
  }

  function IcosphereTriangleCount(subdivisions: nat): nat
    requires subdivisions >= 1
  {
    IcosphereVertexCount(subdivisions) * 2 - 4
  }

  function IcosphereEdgeCount(subdivisions: nat): nat
    requires subdivisions >= 1
  {
    IcosphereTriangleCount(subdivisions) * 3 / 2
  }

  /** The counts: 20 * 4^(s - 1) triangles and 30 * 4^(s - 1) edges, with
      Euler's V - E + F = 2; s = 1 is the icosahedron (12, 30, 20). */
  lemma IcosphereCounts(subdivisions: nat)
    requires subdivisions >= 1
    ensures IcosphereTriangleCount(subdivisions) == 20 * Pow4(subdivisions - 1)
    ensures IcosphereEdgeCount(subdivisions) == 30 * Pow4(subdivisions - 1)
    ensures IcosphereVertexCount(subdivisions) - IcosphereEdgeCount(subdivisions)
      + IcosphereTriangleCount(subdivisions) == 2
    ensures subdivisions == 1 ==>
              IcosphereVertexCount(1) == 12 && IcosphereEdgeCount(1) == 30 && IcosphereTriangleCount(1) == 20
  {
  }

  /** One subdivision round adds a vertex per edge, turns every edge into
      two and adds three per triangle, and quadruples the triangles: the
      formulas for s + 1 follow from those for s. */
  lemma IcosphereCountsStep(subdivisions: nat)
    requires subdivisions >= 1
    ensures IcosphereVertexCount(subdivisions + 1)
      == IcosphereVertexCount(subdivisions) + IcosphereEdgeCount(subdivisions)
    ensures IcosphereEdgeCount(subdivisions + 1)
      == 2 * IcosphereEdgeCount(subdivisions) + 3 * IcosphereTriangleCount(subdivisions)
    ensures IcosphereTriangleCount(subdivisions + 1) == 4 * IcosphereTriangleCount(subdivisions)
  {
    IcosphereCounts(subdivisions);
    IcosphereCounts(subdivisions + 1);
  }
}
