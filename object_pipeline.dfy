/** ObjectPipeline::process for one object: face visibility, vertex and
    edge flags, near/far clipping bookkeeping, the perspective divide and
    the lines handed to the renderer. The camera and model matrices, the
    face normal angle, the near/far clipper and the perspective divide are
    inputs: `angles` gives each face's angle to the camera, `clip` is the
    near/far clipper and `divide` the perspective divide. */
module ObjectPipelines {
  import opened Geometry
  import opened Arrays
  import opened Meshes
  import opened Objects

  // ---------------------------------------------------------------------
  // Face visibility

  /** The face rule: with Front culling the faces turned away from the
      camera (angle < 0) stay, with Back culling those turned towards it
      (angle > 0); without culling, Hidden shading still needs to know
      which faces are turned towards the camera, and otherwise every face
      is visible. */
  predicate FaceVisible(culling: Culling, shading: Shading, angle: real)
  {
    if culling == Front || culling == Back then
      (if culling == Front then angle < 0.0 else angle > 0.0)
    else if shading == Hidden then angle > 0.0
    else true
  }

  /** Front and Back culling keep complementary faces (a face seen exactly
      edge-on is dropped by both); Hidden shading without culling sees the
      faces Back culling keeps; otherwise nothing is culled. */
  lemma FaceVisibleRule(culling: Culling, shading: Shading, angle: real)
    ensures angle != 0.0 ==> FaceVisible(Front, shading, angle) != FaceVisible(Back, shading, angle)
    ensures angle == 0.0 ==> !FaceVisible(Front, shading, angle) && !FaceVisible(Back, shading, angle)
    ensures shading == Hidden ==> FaceVisible(Culling.None, shading, angle) == FaceVisible(Back, shading, angle)
    ensures culling == Culling.None && shading != Hidden ==> FaceVisible(culling, shading, angle)
  {
  }

  function FaceVisibilities(culling: Culling, shading: Shading, angles: seq<real>): (r: seq<bool>)
    ensures |r| == |angles|
    ensures forall f :: 0 <= f < |r| ==> r[f] == FaceVisible(culling, shading, angles[f])
  {
    seq(|angles|, f requires 0 <= f < |angles| => FaceVisible(culling, shading, angles[f]))
  }

  /** Vertex v is an endpoint of edge e. */
  predicate Touches(e: Edge, v: nat)
  {
    e.a == v || e.b == v
  }

  /** Vertex v is an endpoint of one of the first n edges in face f's list. */
  ghost predicate FaceTouches(faceEdges: seq<seq<nat>>, edges: seq<Edge>, f: nat, n: nat, v: nat)
    requires f < |faceEdges| && n <= |faceEdges[f]|
  {
    exists j :: 0 <= j < n && faceEdges[f][j] < |edges| && Touches(edges[faceEdges[f][j]], v)
  }

  /** Vertex v is an endpoint of an edge listed by one of the first n faces. */
  ghost predicate TouchedUpTo(faceEdges: seq<seq<nat>>, edges: seq<Edge>, n: nat, v: nat)
    requires n <= |faceEdges|
  {
    exists f :: 0 <= f < n && FaceTouches(faceEdges, edges, f, |faceEdges[f]|, v)
  }

  lemma TouchedUpToStep(faceEdges: seq<seq<nat>>, edges: seq<Edge>, n: nat, v: nat)
    requires n < |faceEdges|
    ensures TouchedUpTo(faceEdges, edges, n + 1, v)
      <==> TouchedUpTo(faceEdges, edges, n, v) || FaceTouches(faceEdges, edges, n, |faceEdges[n]|, v)
  {
    if TouchedUpTo(faceEdges, edges, n + 1, v) {
      var f :| 0 <= f < n + 1 && FaceTouches(faceEdges, edges, f, |faceEdges[f]|, v);
      if f < n {
        assert TouchedUpTo(faceEdges, edges, n, v);
      }
    }
  }

  /** setVerticesVisible(false). */
  method HideVertices(mesh: Mesh)
    requires mesh.Valid()
    modifies mesh.vertexVisible
    ensures forall v :: 0 <= v < mesh.vertexVisible.Length ==> !mesh.vertexVisible[v]
  {
    for v := 0 to mesh.vertexVisible.Length
      invariant forall u :: 0 <= u < v ==> !mesh.vertexVisible[u]
    {
      mesh.vertexVisible[v] := false;
    }
  }

  /** The inner loop for face f: both endpoints of each of its edges become visible. */
  method ShowFaceVertices(mesh: Mesh, f: nat)
    requires mesh.Valid() && f < |mesh.faces|
    modifies mesh.vertexVisible
    ensures forall v :: 0 <= v < mesh.vertexVisible.Length ==>
      mesh.vertexVisible[v] == (old(mesh.vertexVisible[v])
        || FaceTouches(mesh.faceEdges, mesh.edges, f, |mesh.faceEdges[f]|, v))
  {
    for j := 0 to |mesh.faceEdges[f]|
      invariant forall v :: 0 <= v < mesh.vertexVisible.Length ==>
        mesh.vertexVisible[v] == (old(mesh.vertexVisible[v]) || FaceTouches(mesh.faceEdges, mesh.edges, f, j, v))
    {
      var e := mesh.edges[mesh.faceEdges[f][j]];
      assert EdgeInRange(e, mesh.original.Length, |mesh.faces|);
      mesh.vertexVisible[e.a] := true;
      mesh.vertexVisible[e.b] := true;
      forall v | 0 <= v < mesh.vertexVisible.Length
        ensures FaceTouches(mesh.faceEdges, mesh.edges, f, j + 1, v)
          <==> FaceTouches(mesh.faceEdges, mesh.edges, f, j, v) || Touches(e, v)
      {
        if FaceTouches(mesh.faceEdges, mesh.edges, f, j + 1, v) {
          var k :| 0 <= k < j + 1 && mesh.faceEdges[f][k] < |mesh.edges| && Touches(mesh.edges[mesh.faceEdges[f][k]], v);
          if k < j {
            assert FaceTouches(mesh.faceEdges, mesh.edges, f, j, v);
          }
        }
      }
    }
  }

  /** Lines 45-62: every vertex hidden, then each face's visibility set
      by the face rule and the endpoints of its edges shown, whether or not
      the face itself is visible. */
  method MarkFaces(mesh: Mesh, culling: Culling, shading: Shading, angles: seq<real>)
    requires mesh.Valid() && |angles| == |mesh.faces|
    modifies mesh.vertexVisible, mesh.faceVisible
    ensures mesh.faceVisible[..] == FaceVisibilities(culling, shading, angles)
    ensures forall v :: 0 <= v < mesh.vertexVisible.Length ==>
      mesh.vertexVisible[v] == TouchedUpTo(mesh.faceEdges, mesh.edges, |mesh.faces|, v)
  {
    HideVertices(mesh);
    for f := 0 to |mesh.faces|
      invariant forall g :: 0 <= g < f ==> mesh.faceVisible[g] == FaceVisible(culling, shading, angles[g])
      invariant forall v :: 0 <= v < mesh.vertexVisible.Length ==>
        mesh.vertexVisible[v] == TouchedUpTo(mesh.faceEdges, mesh.edges, f, v)
    {
      mesh.faceVisible[f] := FaceVisible(culling, shading, angles[f]);
      ShowFaceVertices(mesh, f);
      forall v | 0 <= v < mesh.vertexVisible.Length
        ensures mesh.vertexVisible[v] == TouchedUpTo(mesh.faceEdges, mesh.edges, f + 1, v)
      {
        TouchedUpToStep(mesh.faceEdges, mesh.edges, f, v);
      }
    }
  }

  // ---------------------------------------------------------------------
  // Edge culling and near/far clipping

  /** The culled-edge rule: no owning face is visible. */
  predicate Culled(faceVisible: seq<bool>, e: Edge)
    requires e.faceA.Some? && e.faceA.value < |faceVisible|
    requires e.faceB.Some? ==> e.faceB.value < |faceVisible|
  {
    !faceVisible[e.faceA.value] && (e.faceB.None? || !faceVisible[e.faceB.value])
  }

  /** An edge is culled exactly when none of the faces that own it is visible. */
  lemma CulledIffNoVisibleOwner(faceVisible: seq<bool>, e: Edge)
    requires e.faceA.Some? && e.faceA.value < |faceVisible|
    requires e.faceB.Some? ==> e.faceB.value < |faceVisible|
    ensures Culled(faceVisible, e) <==> forall f :: 0 <= f < |faceVisible| && Owns(e, f) ==> !faceVisible[f]
  {
    if !Culled(faceVisible, e) {
      if faceVisible[e.faceA.value] {
        assert Owns(e, e.faceA.value);
      } else {
        assert Owns(e, e.faceB.value);
      }
    }
  }

  /** How the near/far clipper classifies a segment. */
  datatype ClipResult = Inside | Outside | AClipped | BClipped | BothClipped

  /** What the near/far clipper returns: the classification and the two
      endpoints, moved where the result says they were clipped. */
  datatype NearFarClip = NearFarClip(result: ClipResult, a: Vector4, b: Vector4)

  predicate ClipsA(r: ClipResult) { r == AClipped || r == BothClipped }

  predicate ClipsB(r: ClipResult) { r == BClipped || r == BothClipped }

  /** The vertices one clip result adds to the clipped-vertex buffer, in push order. */
  function NewVertices(c: NearFarClip): (r: seq<Vector4>)
    ensures |r| == (if c.result == Inside || c.result == Outside then 0
                    else if c.result == BothClipped then 2 else 1)
    ensures ClipsA(c.result) ==> r[0] == c.a
    ensures ClipsB(c.result) ==> r[|r| - 1] == c.b
  {
    (if ClipsA(c.result) then [c.a] else []) + (if ClipsB(c.result) then [c.b] else [])
  }

  /** What the edge loop reads: the object's culling, the face flags just
      set, the transformed vertices and the near/far clipper. */
  datatype ClipStage = ClipStage(culling: Culling, faceVisible: seq<bool>, transformed: seq<Vector4>,
                                 clip: (Vector4, Vector4) -> NearFarClip)

  /** Edge e's indices lie inside the stage and it has a first face. */
  predicate Wired(st: ClipStage, e: Edge)
  {
    EdgeInRange(e, |st.transformed|, |st.faceVisible|) && e.faceA.Some?
  }

  predicate AllWired(st: ClipStage, es: seq<Edge>)
  {
    forall i :: 0 <= i < |es| ==> Wired(st, es[i])
  }

  /** Line 88: with culling on, a culled edge is skipped. */
  predicate Skipped(st: ClipStage, e: Edge)
    requires Wired(st, e)
  {
    st.culling != Culling.None && Culled(st.faceVisible, e)
  }

  function ClipOf(st: ClipStage, e: Edge): NearFarClip
    requires Wired(st, e)
  {
    st.clip(st.transformed[e.a], st.transformed[e.b])
  }

  /** The edge survives culling and the clipper does not put it outside. */
  predicate Drawn(st: ClipStage, e: Edge)
    requires Wired(st, e)
  {
    !Skipped(st, e) && ClipOf(st, e).result != Outside
  }

  function DrawnFlags(st: ClipStage, es: seq<Edge>): (r: seq<bool>)
    requires AllWired(st, es)
    ensures |r| == |es| && forall i :: 0 <= i < |es| ==> r[i] == Drawn(st, es[i])
  {
    seq(|es|, i requires 0 <= i < |es| && AllWired(st, es) => Drawn(st, es[i]))
  }

  /** The clipped vertices pushed while going through the edges es in order. */
  function Added(st: ClipStage, es: seq<Edge>): seq<Vector4>
    requires AllWired(st, es)
  {
    if |es| == 0 then []
    else
      var e := es[|es| - 1];
      Added(st, es[..|es| - 1]) + (if Drawn(st, e) then NewVertices(ClipOf(st, e)) else [])
  }

  /** At most two clipped vertices per edge. */
  lemma {:induction false} AddedBound(st: ClipStage, es: seq<Edge>)
    requires AllWired(st, es)
    ensures |Added(st, es)| <= 2 * |es|
  {
    if |es| > 0 {
      AddedBound(st, es[..|es| - 1]);
    }
  }

  /** Where the drawn edge's endpoints end up: the mesh vertex itself, or the
      clipped copy pushed at `offset` (and the one after it for b when both
      were clipped). */
  function Refs(c: NearFarClip, e: Edge, offset: nat): (VertexRef, VertexRef)
  {
    (if ClipsA(c.result) then ClippedVertex(offset) else MeshVertex(e.a),
     if ClipsB(c.result) then ClippedVertex(offset + |NewVertices(c)| - 1) else MeshVertex(e.b))
  }

  /** The clipped vertex buffer holds, at positions in the references, the
      endpoints the clipper returned. */
  lemma RefsResolve(c: NearFarClip, e: Edge, before: seq<Vector4>)
    ensures var r := Refs(c, e, |before|);
      var after := before + NewVertices(c);
      (r.0.ClippedVertex? ==> r.0.index < |after| && after[r.0.index] == c.a)
      && (r.1.ClippedVertex? ==> r.1.index < |after| && after[r.1.index] == c.b)
      && (r.0.MeshVertex? ==> r.0.index == e.a) && (r.1.MeshVertex? ==> r.1.index == e.b)
  {
  }

  /** The edge leaves mesh vertex v as one of its endpoints, unclipped. */
  predicate MarksVertex(st: ClipStage, e: Edge, v: nat)
    requires Wired(st, e)
  {
    Drawn(st, e) && ((!ClipsA(ClipOf(st, e).result) && e.a == v) || (!ClipsB(ClipOf(st, e).result) && e.b == v))
  }

  ghost predicate MarkedUpTo(st: ClipStage, es: seq<Edge>, n: nat, v: nat)
    requires AllWired(st, es) && n <= |es|
  {
    exists i :: 0 <= i < n && MarksVertex(st, es[i], v)
  }

  lemma MarkedUpToStep(st: ClipStage, es: seq<Edge>, n: nat, v: nat)
    requires AllWired(st, es) && n < |es|
    ensures MarkedUpTo(st, es, n + 1, v) <==> MarkedUpTo(st, es, n, v) || MarksVertex(st, es[n], v)
  {
    if MarkedUpTo(st, es, n + 1, v) {
      var i :| 0 <= i < n + 1 && MarksVertex(st, es[i], v);
      if i < n {
        assert MarkedUpTo(st, es, n, v);
      }
    }
  }

  lemma AddedStep(st: ClipStage, es: seq<Edge>, n: nat)
    requires AllWired(st, es) && n < |es|
    ensures AllWired(st, es[..n]) && AllWired(st, es[..n + 1])
    ensures Added(st, es[..n + 1])
      == Added(st, es[..n]) + (if Drawn(st, es[n]) then NewVertices(ClipOf(st, es[n])) else [])
  {
    assert es[..n + 1][..n] == es[..n];
  }

  /** Going through fewer edges pushes no more clipped vertices. */
  lemma {:induction false} AddedPrefix(st: ClipStage, es: seq<Edge>, n: nat)
    requires AllWired(st, es) && n <= |es|
    ensures AllWired(st, es[..n]) && |Added(st, es[..n])| <= |Added(st, es)|
  {
    if n < |es| {
      var m := |es| - 1;
      assert es[..m][..n] == es[..n];
      AddedPrefix(st, es[..m], n);
    } else {
      assert es[..n] == es;
    }
  }

  function CulledFlags(st: ClipStage, es: seq<Edge>): (r: seq<bool>)
    requires AllWired(st, es)
    ensures |r| == |es| && forall i :: 0 <= i < |es| ==> r[i] == Culled(st.faceVisible, es[i])
  {
    seq(|es|, i requires 0 <= i < |es| && AllWired(st, es) => Culled(st.faceVisible, es[i]))
  }

  /** The stage the edge loop of `mesh` sees. */
  ghost function StageOf(mesh: Mesh, culling: Culling, clip: (Vector4, Vector4) -> NearFarClip): ClipStage
    reads mesh.faceVisible, mesh.transformed
  {
    ClipStage(culling, mesh.faceVisible[..], mesh.transformed[..], clip)
  }

  /** Every reference a drawn edge gets points into the mesh or into the
      clipped vertices pushed over the whole loop. */
  lemma RefsReady(st: ClipStage, es: seq<Edge>, i: nat)
    requires AllWired(st, es) && i < |es| && Drawn(st, es[i])
    ensures AllWired(st, es[..i])
    ensures var r := Refs(ClipOf(st, es[i]), es[i], |Added(st, es[..i])|);
      RefIn(r.0, |st.transformed|, |Added(st, es)|) && RefIn(r.1, |st.transformed|, |Added(st, es)|)
  {
    AddedStep(st, es, i);
    AddedPrefix(st, es, i + 1);
    RefsResolve(ClipOf(st, es[i]), es[i], Added(st, es[..i]));
  }

  /** The references drawn edge k of es gets: its clipped copies sit after
      those pushed for the edges before it. */
  function RefsAt(st: ClipStage, es: seq<Edge>, k: nat): (VertexRef, VertexRef)
    requires AllWired(st, es) && k < |es|
  {
    assert AllWired(st, es[..k]);
    Refs(ClipOf(st, es[k]), es[k], |Added(st, es[..k])|)
  }

  /** The vertex flags after edge e: its unclipped endpoints are shown. */
  function Marked(vv: seq<bool>, st: ClipStage, e: Edge): (r: seq<bool>)
    requires Wired(st, e)
    ensures |r| == |vv| && forall v :: 0 <= v < |vv| ==> r[v] == (vv[v] || MarksVertex(st, e, v))
  {
    seq(|vv|, v requires 0 <= v < |vv| => vv[v] || MarksVertex(st, e, v))
  }

  /** The state of the edge loop after its first i passes, starting from
      vertex flags vv0. */
  ghost predicate EdgeLoop(st: ClipStage, es: seq<Edge>, i: nat, culled: seq<bool>, visible: seq<bool>,
                           refs: seq<(VertexRef, VertexRef)>, vv: seq<bool>, vv0: seq<bool>, added: seq<Vector4>)
    requires AllWired(st, es)
  {
    && i <= |es| && |culled| == |es| && |visible| == |es| && |refs| == |es| && |vv| == |vv0|
    && AllWired(st, es[..i]) && added == Added(st, es[..i])
    && (forall k :: 0 <= k < i ==> culled[k] == Culled(st.faceVisible, es[k]) && visible[k] == Drawn(st, es[k]))
    && (forall k :: 0 <= k < i && Drawn(st, es[k]) ==> refs[k] == RefsAt(st, es, k))
    && (forall v :: 0 <= v < |vv| ==> vv[v] == (vv0[v] || MarkedUpTo(st, es, i, v)))
  }

  lemma EdgeLoopBound(st: ClipStage, es: seq<Edge>, i: nat, added: seq<Vector4>)
    requires AllWired(st, es) && i < |es|
    requires AllWired(st, es[..i]) && added == Added(st, es[..i])
    ensures |added| + (if Drawn(st, es[i]) then |NewVertices(ClipOf(st, es[i]))| else 0) <= |Added(st, es)|
  {
    AddedStep(st, es, i);
    AddedPrefix(st, es, i + 1);
  }

  /** One pass of the edge loop keeps EdgeLoop. */
  lemma EdgeLoopStep(st: ClipStage, es: seq<Edge>, i: nat, culled: seq<bool>, visible: seq<bool>,
                     refs: seq<(VertexRef, VertexRef)>, vv: seq<bool>, vv0: seq<bool>, added: seq<Vector4>)
    requires AllWired(st, es) && i < |es|
    requires EdgeLoop(st, es, i, culled, visible, refs, vv, vv0, added)
    ensures var e := es[i];
      EdgeLoop(st, es, i + 1, culled[i := Culled(st.faceVisible, e)], visible[i := Drawn(st, e)],
               if Drawn(st, e) then refs[i := Refs(ClipOf(st, e), e, |added|)] else refs,
               Marked(vv, st, e), vv0, added + (if Drawn(st, e) then NewVertices(ClipOf(st, e)) else []))
  {
    AddedStep(st, es, i);
    forall v | 0 <= v < |vv|
      ensures Marked(vv, st, es[i])[v] == (vv0[v] || MarkedUpTo(st, es, i + 1, v))
    {
      MarkedUpToStep(st, es, i, v);
    }
  }

  lemma EdgeLoopDone(st: ClipStage, es: seq<Edge>, culled: seq<bool>, visible: seq<bool>,
                     refs: seq<(VertexRef, VertexRef)>, vv: seq<bool>, vv0: seq<bool>, added: seq<Vector4>)
    requires AllWired(st, es)
    requires EdgeLoop(st, es, |es|, culled, visible, refs, vv, vv0, added)
    ensures added == Added(st, es) && culled == CulledFlags(st, es) && visible == DrawnFlags(st, es)
    ensures forall k :: 0 <= k < |es| && Drawn(st, es[k]) ==> refs[k] == RefsAt(st, es, k)
    ensures forall v :: 0 <= v < |vv| ==> vv[v] == (vv0[v] || MarkedUpTo(st, es, |es|, v))
  {
    assert es[..|es|] == es;
  }

  /** After the edge loop every visible edge's references can be resolved
      against the mesh vertices and the clipped vertices. */
  lemma ClipReady(st: ClipStage, es: seq<Edge>, visible: seq<bool>, culled: seq<bool>,
                  refs: seq<(VertexRef, VertexRef)>, em: EmitStage)
    requires AllWired(st, es) && visible == DrawnFlags(st, es) && |culled| == |es| && |refs| == |es|
    requires forall i :: 0 <= i < |es| && Drawn(st, es[i]) ==> refs[i] == RefsAt(st, es, i)
    requires |em.transformed| == |st.transformed| && |em.clippedVertices| == |Added(st, es)|
    ensures Ready(em, visible, culled, refs)
  {
    forall i | 0 <= i < |es| && visible[i]
      ensures RefIn(refs[i].0, |em.transformed|, |em.clippedVertices|)
      ensures RefIn(refs[i].1, |em.transformed|, |em.clippedVertices|)
    {
      RefsReady(st, es, i);
    }
  }

  // ---------------------------------------------------------------------
  // Perspective divide and emission

  /** Each vertex divided. */
  function Divided(vs: seq<Vector4>, divide: Vector4 -> Vector4): (r: seq<Vector4>)
    ensures |r| == |vs| && forall k :: 0 <= k < |vs| ==> r[k] == divide(vs[k])
  {
    seq(|vs|, k requires 0 <= k < |vs| => divide(vs[k]))
  }

  /** A reference into `meshCount` mesh vertices and `clippedCount` clipped ones. */
  predicate RefIn(r: VertexRef, meshCount: nat, clippedCount: nat)
  {
    if r.MeshVertex? then r.index < meshCount else r.index < clippedCount
  }

  /** What the emission loop reads: the object's shading and brightnesses
      and the (divided) mesh and clipped vertices. */
  datatype EmitStage = EmitStage(shading: Shading, brightness: real, hiddenBrightness: real,
                                 transformed: seq<Vector4>, clippedVertices: seq<Vector4>)

  function Resolve(es: EmitStage, r: VertexRef): Vector4
    requires RefIn(r, |es.transformed|, |es.clippedVertices|)
  {
    if r.MeshVertex? then es.transformed[r.index] else es.clippedVertices[r.index]
  }

  /** Lines 136-141: Hidden shading draws culled edges at the hidden brightness. */
  function LineBrightness(es: EmitStage, culled: bool): (r: real)
    ensures r == es.hiddenBrightness || r == es.brightness
    ensures es.shading != Hidden ==> r == es.brightness
    ensures es.hiddenBrightness != es.brightness ==> (r == es.hiddenBrightness <==> es.shading == Hidden && culled)
  {
    if es.shading == Hidden then (if culled then es.hiddenBrightness else es.brightness)
    else es.brightness
  }

  /** Every visible edge's references can be resolved. */
  predicate Ready(es: EmitStage, visible: seq<bool>, culled: seq<bool>, refs: seq<(VertexRef, VertexRef)>)
  {
    |visible| == |culled| == |refs|
    && forall i :: 0 <= i < |visible| && visible[i] ==>
      RefIn(refs[i].0, |es.transformed|, |es.clippedVertices|) && RefIn(refs[i].1, |es.transformed|, |es.clippedVertices|)
  }

  function LineFor(es: EmitStage, culled: bool, ref: (VertexRef, VertexRef)): Line
    requires RefIn(ref.0, |es.transformed|, |es.clippedVertices|) && RefIn(ref.1, |es.transformed|, |es.clippedVertices|)
  {
    Line(Xy(Resolve(es, ref.0)), Xy(Resolve(es, ref.1)), LineBrightness(es, culled))
  }

  /** The lines handed to the renderer, one per visible edge in edge order. */
  function Emitted(es: EmitStage, visible: seq<bool>, culled: seq<bool>, refs: seq<(VertexRef, VertexRef)>): seq<Line>
    requires Ready(es, visible, culled, refs)
  {
    if |visible| == 0 then []
    else
      var n := |visible| - 1;
      assert Ready(es, visible[..n], culled[..n], refs[..n]) by {
        forall i | 0 <= i < n && visible[..n][i]
          ensures RefIn(refs[..n][i].0, |es.transformed|, |es.clippedVertices|)
        {
          assert visible[i];
        }
      }
      Emitted(es, visible[..n], culled[..n], refs[..n]) + (if visible[n] then [LineFor(es, culled[n], refs[n])] else [])
  }

  function Count(flags: seq<bool>): (r: nat)
    ensures r <= |flags|
  {
    if |flags| == 0 then 0 else Count(flags[..|flags| - 1]) + (if flags[|flags| - 1] then 1 else 0)
  }

  lemma {:induction false} CountPrefix(flags: seq<bool>, n: nat)
    requires n <= |flags|
    ensures Count(flags[..n]) <= Count(flags)
  {
    if n < |flags| {
      var m := |flags| - 1;
      assert flags[..m][..n] == flags[..n];
      CountPrefix(flags[..m], n);
    } else {
      assert flags[..n] == flags;
    }
  }

  lemma ReadyPrefix(es: EmitStage, visible: seq<bool>, culled: seq<bool>, refs: seq<(VertexRef, VertexRef)>, n: nat)
    requires Ready(es, visible, culled, refs) && n <= |visible|
    ensures Ready(es, visible[..n], culled[..n], refs[..n])
  {
    forall i | 0 <= i < n && visible[..n][i]
      ensures RefIn(refs[..n][i].0, |es.transformed|, |es.clippedVertices|)
    {
      assert visible[i];
    }
  }

  /** Exactly one line per visible edge. */
  lemma {:induction false} EmittedCount(es: EmitStage, visible: seq<bool>, culled: seq<bool>, refs: seq<(VertexRef, VertexRef)>)
    requires Ready(es, visible, culled, refs)
    ensures |Emitted(es, visible, culled, refs)| == Count(visible)
  {
    if |visible| > 0 {
      var n := |visible| - 1;
      ReadyPrefix(es, visible, culled, refs, n);
      EmittedCount(es, visible[..n], culled[..n], refs[..n]);
    }
  }

  /** The line of visible edge i comes after those of the visible edges
      before it: it is line number Count(visible[..i]). */
  lemma {:induction false} EmittedAt(es: EmitStage, visible: seq<bool>, culled: seq<bool>,
                                     refs: seq<(VertexRef, VertexRef)>, i: nat)
    requires Ready(es, visible, culled, refs) && i < |visible| && visible[i]
    ensures Count(visible[..i]) < |Emitted(es, visible, culled, refs)|
    ensures Emitted(es, visible, culled, refs)[Count(visible[..i])] == LineFor(es, culled[i], refs[i])
  {
    var n := |visible| - 1;
    ReadyPrefix(es, visible, culled, refs, n);
    if i < n {
      assert visible[..n][..i] == visible[..i];
      assert visible[..n][i] && culled[..n][i] == culled[i] && refs[..n][i] == refs[i];
      EmittedAt(es, visible[..n], culled[..n], refs[..n], i);
    } else {
      EmittedCount(es, visible[..n], culled[..n], refs[..n]);
    }
  }

  /** The emission loop after its first i passes: the lines of the visible
      edges among the first i follow what the buffer held before. */
  predicate EmittedUpTo(es: EmitStage, visible: seq<bool>, culled: seq<bool>, refs: seq<(VertexRef, VertexRef)>,
                        i: nat, start: seq<Line>, out: seq<Line>)
    requires Ready(es, visible, culled, refs)
  {
    i <= |visible| && Ready(es, visible[..i], culled[..i], refs[..i])
    && out == start + Emitted(es, visible[..i], culled[..i], refs[..i])
    && |out| == |start| + Count(visible[..i])
  }

  lemma EmitStep(es: EmitStage, visible: seq<bool>, culled: seq<bool>, refs: seq<(VertexRef, VertexRef)>, i: nat)
    requires Ready(es, visible, culled, refs) && i < |visible|
    ensures Ready(es, visible[..i + 1], culled[..i + 1], refs[..i + 1])
    ensures Count(visible[..i + 1]) <= Count(visible)
    ensures Emitted(es, visible[..i + 1], culled[..i + 1], refs[..i + 1])
      == Emitted(es, visible[..i], culled[..i], refs[..i])
         + (if visible[i] then [LineFor(es, culled[i], refs[i])] else [])
    ensures Count(visible[..i + 1]) == Count(visible[..i]) + (if visible[i] then 1 else 0)
  {
    ReadyPrefix(es, visible, culled, refs, i + 1);
    assert visible[..i + 1][..i] == visible[..i] && culled[..i + 1][..i] == culled[..i];
    assert refs[..i + 1][..i] == refs[..i];
    CountPrefix(visible, i + 1);
  }

  lemma EmitDone(es: EmitStage, visible: seq<bool>, culled: seq<bool>, refs: seq<(VertexRef, VertexRef)>,
                 start: seq<Line>, out: seq<Line>)
    requires Ready(es, visible, culled, refs)
    requires EmittedUpTo(es, visible, culled, refs, |visible|, start, out)
    ensures out == start + Emitted(es, visible, culled, refs)
  {
    assert visible[..|visible|] == visible && culled[..|visible|] == culled && refs[..|visible|] == refs;
  }

  /** With face edge lists as the mesh constructor builds them, the edge
      loop marks no vertex the face loop has not already marked: every
      drawn edge is listed by its first face. */
  lemma MarkedAlreadyTouched(st: ClipStage, faceEdges: seq<seq<nat>>, es: seq<Edge>, v: nat)
    requires AllWired(st, es) && |faceEdges| == |st.faceVisible|
    requires forall f :: 0 <= f < |faceEdges| ==> faceEdges[f] == FaceEdges(es, f)
    requires MarkedUpTo(st, es, |es|, v)
    ensures TouchedUpTo(faceEdges, es, |faceEdges|, v)
  {
    var i :| 0 <= i < |es| && MarksVertex(st, es[i], v);
    var e := es[i];
    assert Wired(st, e);
    assert Touches(e, v);
    var f := e.faceA.value;
    assert Owns(e, f);
    FaceEdgesComplete(es, f, i);
    var list := faceEdges[f];
    assert i in list;
    var j :| 0 <= j < |list| && list[j] == i;
    assert list[j] < |es| && Touches(es[list[j]], v);
    assert FaceTouches(faceEdges, es, f, |list|, v);
  }

  /** ObjectPipeline: the clipped-vertex scratch buffer, of capacity maxLines. */
  class ObjectPipeline {
    const clippedVertices: Buffer<Vector4>

    constructor (maxLines: nat)
      ensures clippedVertices.Valid() && clippedVertices.Capacity() == maxLines
      ensures clippedVertices.Contents() == [] && fresh(clippedVertices) && fresh(clippedVertices.elements)
    {
      clippedVertices := new Buffer<Vector4>(maxLines);
    }

    /** Lines 73-113: the clipped-vertex buffer is cleared, then every edge
        gets its culled flag and, unless culling skips it or the clipper puts
        it outside, its (possibly clipped) endpoints and the visible flag. */
    method ClipEdges(mesh: Mesh, culling: Culling, clip: (Vector4, Vector4) -> NearFarClip, ghost st: ClipStage)
      requires mesh.Valid() && clippedVertices.Valid() && mesh.transformed != clippedVertices.elements
      requires st == StageOf(mesh, culling, clip) && AllWired(st, mesh.edges)
      requires |Added(st, mesh.edges)| <= clippedVertices.Capacity()
      modifies clippedVertices, clippedVertices.elements, mesh.edgeVisible, mesh.edgeCulled, mesh.clipped
      modifies mesh.vertexVisible
      ensures clippedVertices.Valid() && clippedVertices.Contents() == Added(st, mesh.edges)
      ensures mesh.edgeCulled[..] == CulledFlags(st, mesh.edges)
      ensures mesh.edgeVisible[..] == DrawnFlags(st, mesh.edges)
      ensures forall i :: 0 <= i < |mesh.edges| && Drawn(st, mesh.edges[i]) ==>
        mesh.clipped[i] == RefsAt(st, mesh.edges, i)
      ensures forall v :: 0 <= v < mesh.vertexVisible.Length ==>
        mesh.vertexVisible[v] == (old(mesh.vertexVisible[v]) || MarkedUpTo(st, mesh.edges, |mesh.edges|, v))
    {
      ghost var vv0 := mesh.vertexVisible[..];
      clippedVertices.Clear();
      assert mesh.edges[..0] == [];
      for i := 0 to |mesh.edges|
        invariant mesh.Valid() && st == StageOf(mesh, culling, clip)
        invariant clippedVertices.Valid()
        invariant EdgeLoop(st, mesh.edges, i, mesh.edgeCulled[..], mesh.edgeVisible[..], mesh.clipped[..],
                           mesh.vertexVisible[..], vv0, clippedVertices.Contents())
      {
        ghost var culled, visible, refs := mesh.edgeCulled[..], mesh.edgeVisible[..], mesh.clipped[..];
        ghost var vv, added := mesh.vertexVisible[..], clippedVertices.Contents();
        AddedPrefix(st, mesh.edges, i + 1);
        EdgeLoopBound(st, mesh.edges, i, added);
        ClipEdge(mesh, culling, clip, i, st);
        EdgeLoopStep(st, mesh.edges, i, culled, visible, refs, vv, vv0, added);
      }
      EdgeLoopDone(st, mesh.edges, mesh.edgeCulled[..], mesh.edgeVisible[..], mesh.clipped[..],
                   mesh.vertexVisible[..], vv0, clippedVertices.Contents());
    }

    /** process(object, view, projection) for an object with a mesh: faces,
        then edges, then the divide, then the lines handed to `output`. */
    method Process(obj: Object, angles: seq<real>, clip: (Vector4, Vector4) -> NearFarClip,
                   divide: Vector4 -> Vector4, output: Buffer<Line>)
      requires obj.mesh != null && obj.mesh.Valid()
      requires clippedVertices.Valid() && output.Valid() && obj.mesh.transformed != clippedVertices.elements
      requires |angles| == |obj.mesh.faces|
      requires var st := ClipStage(obj.culling, FaceVisibilities(obj.culling, obj.shading, angles),
                                   obj.mesh.transformed[..], clip);
        AllWired(st, obj.mesh.edges)
        && |Added(st, obj.mesh.edges)| <= clippedVertices.Capacity()
        && output.Size() + Count(DrawnFlags(st, obj.mesh.edges)) <= output.Capacity()
      modifies obj.mesh.vertexVisible, obj.mesh.faceVisible, obj.mesh.edgeVisible, obj.mesh.edgeCulled
      modifies obj.mesh.clipped, obj.mesh.transformed, clippedVertices, clippedVertices.elements
      modifies output, output.elements
      ensures clippedVertices.Valid() && output.Valid()
      ensures var mesh := obj.mesh;
        var st := ClipStage(obj.culling, FaceVisibilities(obj.culling, obj.shading, angles),
                            old(mesh.transformed[..]), clip);
        && AllWired(st, mesh.edges)
        && mesh.faceVisible[..] == st.faceVisible
        && (forall v :: 0 <= v < mesh.vertexVisible.Length ==>
              mesh.vertexVisible[v] == (TouchedUpTo(mesh.faceEdges, mesh.edges, |mesh.faces|, v)
                                        || MarkedUpTo(st, mesh.edges, |mesh.edges|, v)))
        && mesh.edgeCulled[..] == CulledFlags(st, mesh.edges)
        && mesh.edgeVisible[..] == DrawnFlags(st, mesh.edges)
        && clippedVertices.Contents() == Divided(Added(st, mesh.edges), divide)
        && (forall v :: 0 <= v < mesh.transformed.Length ==>
              mesh.transformed[v] == if mesh.vertexVisible[v] then divide(old(mesh.transformed[v])) else old(mesh.transformed[v]))
        && |output.Contents()| == old(output.Size()) + Count(DrawnFlags(st, mesh.edges))
        && var es := EmitStage(obj.shading, obj.brightness, obj.hiddenBrightness,
                               mesh.transformed[..], clippedVertices.Contents());
           Ready(es, mesh.edgeVisible[..], mesh.edgeCulled[..], mesh.clipped[..])
           && output.Contents() == old(output.Contents()) + Emitted(es, mesh.edgeVisible[..], mesh.edgeCulled[..], mesh.clipped[..])
    {
      var mesh := obj.mesh;
      ghost var st := ClipStage(obj.culling, FaceVisibilities(obj.culling, obj.shading, angles),
                                mesh.transformed[..], clip);
      MarkFaces(mesh, obj.culling, obj.shading, angles);
      assert StageOf(mesh, obj.culling, clip) == st;
      ClipEdges(mesh, obj.culling, clip, st);
      DivideVisible(mesh, divide);
      ghost var es := EmitStage(obj.shading, obj.brightness, obj.hiddenBrightness,
                                mesh.transformed[..], clippedVertices.Contents());
      ClipReady(st, mesh.edges, mesh.edgeVisible[..], mesh.edgeCulled[..], mesh.clipped[..], es);
      EmitLines(mesh, obj.shading, obj.brightness, obj.hiddenBrightness, output, es);
      EmittedCount(es, mesh.edgeVisible[..], mesh.edgeCulled[..], mesh.clipped[..]);
    }

    /** Lines 118-126: the perspective divide of every visible mesh vertex
        and of every clipped vertex, once each. */
    method DivideVisible(mesh: Mesh, divide: Vector4 -> Vector4)
      requires mesh.Valid() && clippedVertices.Valid() && mesh.transformed != clippedVertices.elements
      modifies mesh.transformed, clippedVertices.elements
      ensures clippedVertices.Valid()
      ensures forall v :: 0 <= v < mesh.transformed.Length ==>
        mesh.transformed[v] == if mesh.vertexVisible[v] then divide(old(mesh.transformed[v])) else old(mesh.transformed[v])
      ensures clippedVertices.Contents() == Divided(old(clippedVertices.Contents()), divide)
    {
      for v := 0 to mesh.original.Length
        invariant clippedVertices.Valid() && clippedVertices.Contents() == old(clippedVertices.Contents())
        invariant forall u :: 0 <= u < mesh.transformed.Length ==>
          mesh.transformed[u] == if u < v && mesh.vertexVisible[u] then divide(old(mesh.transformed[u])) else old(mesh.transformed[u])
      {
        if mesh.vertexVisible[v] {
          mesh.transformed[v] := divide(mesh.transformed[v]);
        }
      }
      ghost var before := clippedVertices.Contents();
      ghost var divided := mesh.transformed[..];
      for k := 0 to clippedVertices.Size()
        invariant mesh.transformed[..] == divided
        invariant clippedVertices.Valid() && |clippedVertices.Contents()| == |before|
        invariant forall j :: 0 <= j < |before| ==>
          clippedVertices.Contents()[j] == if j < k then divide(before[j]) else before[j]
      {
        clippedVertices.Set(k, divide(clippedVertices.Get(k)));
      }
      assert clippedVertices.Contents() == Divided(before, divide);
    }

    /** Lines 130-143: one line per visible edge, between the (x, y) of its
        two endpoints, at the brightness the shading gives it. */
    method EmitLines(mesh: Mesh, shading: Shading, brightness: real, hiddenBrightness: real,
                     output: Buffer<Line>, ghost es: EmitStage)
      requires mesh.Valid() && clippedVertices.Valid() && output.Valid()
      requires es == EmitStage(shading, brightness, hiddenBrightness, mesh.transformed[..], clippedVertices.Contents())
      requires Ready(es, mesh.edgeVisible[..], mesh.edgeCulled[..], mesh.clipped[..])
      requires output.Size() + Count(mesh.edgeVisible[..]) <= output.Capacity()
      modifies output, output.elements
      ensures output.Valid()
      ensures output.Contents()
        == old(output.Contents()) + Emitted(es, mesh.edgeVisible[..], mesh.edgeCulled[..], mesh.clipped[..])
    {
      ghost var visible := mesh.edgeVisible[..];
      ghost var culled := mesh.edgeCulled[..];
      ghost var refs := mesh.clipped[..];
      ghost var start := output.Contents();
      EmittedCount(es, visible, culled, refs);
      for i := 0 to |mesh.edges|
        invariant output.Valid() && |start| + Count(visible) <= output.Capacity()
        invariant EmittedUpTo(es, visible, culled, refs, i, start, output.Contents())
      {
        EmitStep(es, visible, culled, refs, i);
        if mesh.edgeVisible[i] {
          var line := EdgeLine(mesh, shading, brightness, hiddenBrightness, i, es);
          output.Push(line);
        }
      }
      EmitDone(es, visible, culled, refs, start, output.Contents());
    }

    /** Lines 132-141: the line of visible edge i. */
    method EdgeLine(mesh: Mesh, shading: Shading, brightness: real, hiddenBrightness: real, i: nat,
                    ghost es: EmitStage) returns (line: Line)
      requires mesh.Valid() && clippedVertices.Valid() && i < |mesh.edges|
      requires es == EmitStage(shading, brightness, hiddenBrightness, mesh.transformed[..], clippedVertices.Contents())
      requires mesh.edgeVisible[i]
      requires RefIn(mesh.clipped[i].0, |es.transformed|, |es.clippedVertices|)
      requires RefIn(mesh.clipped[i].1, |es.transformed|, |es.clippedVertices|)
      ensures line == LineFor(es, mesh.edgeCulled[i], mesh.clipped[i])
    {
      var (ap, bp) := mesh.clipped[i];
      var a := if ap.MeshVertex? then mesh.transformed[ap.index] else clippedVertices.Get(ap.index);
      var b := if bp.MeshVertex? then mesh.transformed[bp.index] else clippedVertices.Get(bp.index);
      var lineBrightness := brightness;
      if shading == Hidden {
        lineBrightness := if mesh.edgeCulled[i] then hiddenBrightness else brightness;
      }
      line := Line(Vector2(a.x, a.y), Vector2(b.x, b.y), lineBrightness);
    }

    /** One pass of the edge loop (lines 77-112). */
    method ClipEdge(mesh: Mesh, culling: Culling, clip: (Vector4, Vector4) -> NearFarClip, i: nat, ghost st: ClipStage)
      requires mesh.Valid() && clippedVertices.Valid() && mesh.transformed != clippedVertices.elements
      requires i < |mesh.edges|
      requires st == StageOf(mesh, culling, clip) && AllWired(st, mesh.edges)
      requires clippedVertices.Size()
        + (if Drawn(st, mesh.edges[i]) then |NewVertices(ClipOf(st, mesh.edges[i]))| else 0)
        <= clippedVertices.Capacity()
      modifies clippedVertices, clippedVertices.elements, mesh.edgeVisible, mesh.edgeCulled, mesh.clipped
      modifies mesh.vertexVisible
      ensures clippedVertices.Valid()
      ensures clippedVertices.Contents() == old(clippedVertices.Contents())
        + (if Drawn(st, mesh.edges[i]) then NewVertices(ClipOf(st, mesh.edges[i])) else [])
      ensures mesh.edgeCulled[..] == old(mesh.edgeCulled[..])[i := Culled(st.faceVisible, mesh.edges[i])]
      ensures mesh.edgeVisible[..] == old(mesh.edgeVisible[..])[i := Drawn(st, mesh.edges[i])]
      ensures mesh.clipped[..] == if Drawn(st, mesh.edges[i])
        then old(mesh.clipped[..])[i := Refs(ClipOf(st, mesh.edges[i]), mesh.edges[i], old(clippedVertices.Size()))]
        else old(mesh.clipped[..])
      ensures mesh.vertexVisible[..] == Marked(old(mesh.vertexVisible[..]), st, mesh.edges[i])
    {
      var e := mesh.edges[i];
      assert Wired(st, e);
      var culled := !mesh.faceVisible[e.faceA.value] && (e.faceB.None? || !mesh.faceVisible[e.faceB.value]);
      mesh.edgeCulled[i] := culled;
      if culling != Culling.None && culled {
        mesh.edgeVisible[i] := false;
        return;
      }
      var c := clip(mesh.transformed[e.a], mesh.transformed[e.b]);
      if c.result == Outside {
        mesh.edgeVisible[i] := false;
        return;
      }
      assert Drawn(st, e) && c == ClipOf(st, e);
      var ap, bp := PushClipped(c, e);
      ShowEndpoints(mesh, ap, bp, st, e);
      mesh.clipped[i] := (ap, bp);
      mesh.edgeVisible[i] := true;
    }

    /** Lines 109-110: the endpoints the edge keeps from the mesh become
        visible; a clipped vertex is pushed already visible. */
    method ShowEndpoints(mesh: Mesh, ap: VertexRef, bp: VertexRef, ghost st: ClipStage, ghost e: Edge)
      requires mesh.Valid() && Wired(st, e) && |st.transformed| == mesh.vertexVisible.Length && Drawn(st, e)
      requires ap.MeshVertex? == !ClipsA(ClipOf(st, e).result) && (ap.MeshVertex? ==> ap.index == e.a)
      requires bp.MeshVertex? == !ClipsB(ClipOf(st, e).result) && (bp.MeshVertex? ==> bp.index == e.b)
      modifies mesh.vertexVisible
      ensures mesh.vertexVisible[..] == Marked(old(mesh.vertexVisible[..]), st, e)
    {
      if ap.MeshVertex? {
        mesh.vertexVisible[ap.index] := true;
      }
      if bp.MeshVertex? {
        mesh.vertexVisible[bp.index] := true;
      }
    }

    /** Lines 100-107: the clipped endpoints are pushed and the edge's
        endpoints redirected to the pushed copies. */
    method PushClipped(c: NearFarClip, e: Edge) returns (ap: VertexRef, bp: VertexRef)
      requires clippedVertices.Valid()
      requires clippedVertices.Size() + |NewVertices(c)| <= clippedVertices.Capacity()
      modifies clippedVertices, clippedVertices.elements
      ensures clippedVertices.Valid()
      ensures clippedVertices.Contents() == old(clippedVertices.Contents()) + NewVertices(c)
      ensures (ap, bp) == Refs(c, e, old(clippedVertices.Size()))
    {
      ap := MeshVertex(e.a);
      bp := MeshVertex(e.b);
      if c.result == AClipped || c.result == BothClipped {
        clippedVertices.Push(c.a);
        ap := ClippedVertex(clippedVertices.Size() - 1);
      }
      if c.result == BClipped || c.result == BothClipped {
        clippedVertices.Push(c.b);
        bp := ClippedVertex(clippedVertices.Size() - 1);
      }
    }
  }
}
