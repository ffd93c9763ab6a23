/** Submeshes, meshes and the renderer's mesh list: the per-submesh vertex
    buffer state machine of SubMesh::Render, the two render passes, and
    the list and lifetime operations (render3d.cpp:650-936, 1348-1368,
    1899-1920, render3d.h:219-281). */
module Render {
  import opened Base
  import opened Gl
  import opened Programs
  import opened Params
  import opened Transforms
  import opened Resources
  import opened Materials
  import opened Geometry

  /** A submesh (render3d.h:219-245): its CPU vertex arrays until they are
      uploaded, the vertex array object and the three vertex buffers (0
      while not created), the dynamic flag, and the material it owns. */
  datatype SubMesh = SubMesh(
    arrays: VertexArrays,
    vao: nat,
    vboPosition: nat,
    vboTexcoords: nat,
    vboNormals: nat,
    dynamic: bool,
    material: Option<Material>)

  /** A submesh as the parser creates it: nothing on the GPU, static, no
      material. */
  function NewSubMesh(arrays: VertexArrays): (sm: SubMesh)
    ensures sm.arrays == arrays && sm.material.None? && !sm.dynamic
    ensures sm.vao == 0 && sm.vboPosition == 0 && sm.vboTexcoords == 0 && sm.vboNormals == 0
    ensures Consistent(sm)
  {
    SubMesh(arrays, 0, 0, 0, 0, false, None)
  }

  /** The state every submesh keeps: a CPU array is held only until its
      buffer is created, a vertex array object exists only once every
      array has been uploaded, and the material's store is ordered. */
  predicate Consistent(sm: SubMesh)
  {
    && (sm.arrays.positions.Some? ==> sm.vboPosition == 0)
    && (sm.arrays.texcoords.Some? ==> sm.vboTexcoords == 0)
    && (sm.arrays.normals.Some? ==> sm.vboNormals == 0)
    && (sm.vao != 0 ==> sm.arrays.positions.None? && sm.arrays.texcoords.None? && sm.arrays.normals.None?)
    && (sm.material.Some? ==> Ordered(sm.material.value.params))
  }

  /** Every CPU array has been handed to its buffer and released. */
  predicate Released(sm: SubMesh)
  {
    sm.arrays.positions.None? && sm.arrays.texcoords.None? && sm.arrays.normals.None?
  }

  /** One attribute's upload inside the setup branch. */
  datatype Upload = Upload(vbo: nat, release: bool, calls: seq<GlCall>, next: GlName)

  /** Create and fill the attribute's buffer when its array is held and no
      buffer exists yet (render3d.cpp:719-724, 733-738, 746-751); reading
      fewer elements than the vertex count is undefined. */
  function UploadAttr(present: bool, length: nat, vbo: nat, count: nat, attr: Attribute, dynamic: bool, next: GlName): (r: Checked<Upload>)
    ensures r.Ok? <==> !(present && vbo == 0) || length >= count
    ensures r.Ok? ==> r.value.release == (present && vbo == 0)
    ensures r.Ok? && r.value.release ==> (r.value.vbo == next && r.value.next == next + 1
      && r.value.calls == [UploadBuffer(next, attr, dynamic, count)])
    ensures r.Ok? && !r.value.release ==> r.value.vbo == vbo && r.value.next == next && r.value.calls == []
  {
    if present && vbo == 0 then
      if length < count then Fault("glBufferData reads past the end of the vertex array")
      else Ok(Upload(next, true, [UploadBuffer(next, attr, dynamic, count)], next + 1))
    else Ok(Upload(vbo, false, [], next))
  }

  function LengthOf<T>(a: Option<seq<T>>): nat
  {
    if a.Some? then |a.value| else 0
  }

  datatype Setup = Setup(sub: SubMesh, calls: seq<GlCall>, next: GlName)

  /** The three uploads of the setup branch, positions first; only
      positions take the dynamic usage hint (render3d.cpp:718-758). Each
      held array is uploaded into a fresh buffer and released. */
  function UploadArrays(sm: SubMesh, next: GlName): (r: Checked<Setup>)
    requires Consistent(sm)
    ensures r.Ok? ==> r.value.next >= next && r.value.sub.vao == sm.vao
    ensures r.Ok? ==> r.value.sub.arrays.positions.None? && r.value.sub.arrays.texcoords.None? && r.value.sub.arrays.normals.None?
    ensures r.Ok? ==> (r.value.sub.material == sm.material && r.value.sub.dynamic == sm.dynamic
      && r.value.sub.arrays.vertexCount == sm.arrays.vertexCount)
    ensures r.Ok? ==> forall i :: 0 <= i < |r.value.calls| ==> (r.value.calls[i].UploadBuffer?
      && next <= r.value.calls[i].buffer < r.value.next)
    ensures r.Ok? && (sm.arrays.positions.None? ==> sm.vboPosition > 0) ==> r.value.sub.vboPosition > 0
    ensures Released(sm) ==> r.Ok? && r.value.calls == []
  {
    var count := sm.arrays.vertexCount;
    match UploadAttr(sm.arrays.positions.Some?, LengthOf(sm.arrays.positions), sm.vboPosition, count, PositionAttr, sm.dynamic, next)
    case Fault(why) => Fault(why)
    case Ok(p) =>
      match UploadAttr(sm.arrays.texcoords.Some?, LengthOf(sm.arrays.texcoords), sm.vboTexcoords, count, TexcoordAttr, false, p.next)
      case Fault(why) => Fault(why)
      case Ok(t) =>
        match UploadAttr(sm.arrays.normals.Some?, LengthOf(sm.arrays.normals), sm.vboNormals, count, NormalAttr, false, t.next)
        case Fault(why) => Fault(why)
        case Ok(n) =>
          var arrays := sm.arrays.(positions := None, texcoords := None, normals := None);
          var sub := sm.(arrays := arrays, vboPosition := p.vbo, vboTexcoords := t.vbo, vboNormals := n.vbo);
          Ok(Setup(sub, p.calls + t.calls + n.calls, n.next))
  }

  /** A trace of uploads into the given range of buffers. */
  lemma {:induction false} UploadCalls(calls: seq<GlCall>, lo: nat, hi: nat)
    requires forall i :: 0 <= i < |calls| ==> calls[i].UploadBuffer? && lo <= calls[i].buffer < hi
    ensures Draws(calls) == [] && CreatedVaos(calls) == []
    ensures forall b :: b in Uploads(calls) ==> lo <= b < hi
    decreases |calls|
  {
    if |calls| > 0 {
      UploadCalls(calls[1..], lo, hi);
      assert Uploads(calls) == [calls[0].buffer] + Uploads(calls[1..]);
    }
  }

  /** The branch taken while there is no vertex array object or the
      submesh is dynamic (render3d.cpp:709-758): a vertex array object only
      for static submeshes, then the uploads. */
  function SetupBuffers(sm: SubMesh, next: GlName): (r: Checked<Setup>)
    requires Consistent(sm)
    ensures r.Ok? ==> Consistent(r.value.sub) && Released(r.value.sub) && r.value.next >= next
    ensures r.Ok? ==> (r.value.sub.material == sm.material && r.value.sub.dynamic == sm.dynamic
      && r.value.sub.arrays.vertexCount == sm.arrays.vertexCount)
    ensures r.Ok? ==> r.value.sub.vao == if sm.dynamic then sm.vao else next
    ensures r.Ok? && (sm.arrays.positions.Some? || sm.vboPosition > 0) ==> r.value.sub.vboPosition > 0
    ensures Released(sm) && sm.dynamic ==> r.Ok? && r.value.calls == []
  {
    if sm.dynamic then
      UploadArrays(sm, next)
    else
      match UploadArrays(sm, next + 1)
      case Fault(why) => Fault(why)
      case Ok(u) => Ok(Setup(u.sub.(vao := next), [GenVertexArray(next), BindVertexArray(next)] + u.calls, u.next))
  }

  /** The GL calls of the setup branch: no draw, uploads only into buffers
      it creates, and a new vertex array object exactly for a static
      submesh. */
  lemma SetupBuffersTrace(sm: SubMesh, next: GlName)
    requires Consistent(sm)
    ensures var r := SetupBuffers(sm, next);
      r.Ok? ==> Draws(r.value.calls) == [] && forall b :: b in Uploads(r.value.calls) ==> next <= b < r.value.next
    ensures var r := SetupBuffers(sm, next);
      r.Ok? ==> CreatedVaos(r.value.calls) == if sm.dynamic then [] else [next]
  {
    if sm.dynamic {
      var u := UploadArrays(sm, next);
      if u.Ok? {
        UploadCalls(u.value.calls, next, u.value.next);
      }
    } else {
      var u := UploadArrays(sm, next + 1);
      if u.Ok? {
        var vaoCalls := [GenVertexArray(next), BindVertexArray(next)];
        UploadCalls(u.value.calls, next + 1, u.value.next);
        assert vaoCalls[1..] == [BindVertexArray(next)];
        assert Draws(vaoCalls) == Draws(vaoCalls[1..]) == [];
        assert Uploads(vaoCalls) == Uploads(vaoCalls[1..]) == [];
        assert CreatedVaos(vaoCalls) == [next] + CreatedVaos(vaoCalls[1..]) == [next];
        DrawsAppend(vaoCalls, u.value.calls);
        UploadsAppend(vaoCalls, u.value.calls);
        CreatedVaosAppend(vaoCalls, u.value.calls);
      }
    }
  }

  datatype SubRendered = SubRendered(sub: SubMesh, scene: Scene, trace: seq<GlCall>)

  /** The part of the submesh the passes look at: whether it has a
      material, and if so whether that is translucent. */
  function Role(sm: SubMesh): Option<bool>
  {
    if sm.material.Some? then Some(sm.material.value.translucent) else None
  }

  /** The vertex part of SubMesh::Render once the material is applied
      (render3d.cpp:709-786): set up the buffers while there is no vertex
      array object or the submesh is dynamic, bind the vertex array object
      otherwise, then draw the vertex count. */
  function DrawVertices(sm: SubMesh, site: DrawSite, next: GlName): (r: Checked<Setup>)
    requires Consistent(sm)
    ensures r.Ok? ==> Consistent(r.value.sub) && Released(r.value.sub) && r.value.next >= next
    ensures r.Ok? ==> (r.value.sub.material == sm.material && r.value.sub.dynamic == sm.dynamic
      && r.value.sub.arrays.vertexCount == sm.arrays.vertexCount)
    ensures r.Ok? ==> r.value.sub.vao != 0 || r.value.sub.dynamic
    ensures r.Ok? && (sm.arrays.positions.Some? || sm.vboPosition > 0) ==> r.value.sub.vboPosition > 0
    ensures Released(sm) && (sm.vao != 0 || sm.dynamic) ==> r.Ok?
  {
    var draw := [Draw(site, sm.arrays.vertexCount)];
    if sm.vao == 0 || sm.dynamic then
      match SetupBuffers(sm, next)
      case Fault(why) => Fault(why)
      case Ok(st) => Ok(st.(calls := st.calls + draw))
    else
      Ok(Setup(sm, [BindVertexArray(sm.vao)] + draw, next))
  }

  /** The GL calls of the vertex part: exactly one draw, of this site,
      and uploads only into buffers named from the counter. */
  lemma DrawVerticesTrace(sm: SubMesh, site: DrawSite, next: GlName)
    requires Consistent(sm)
    ensures var r := DrawVertices(sm, site, next);
      r.Ok? ==> Draws(r.value.calls) == [site] && forall b :: b in Uploads(r.value.calls) ==> next <= b < r.value.next
  {
    var draw := [Draw(site, sm.arrays.vertexCount)];
    assert Draws(draw) == [site] && Uploads(draw) == [];
    if sm.vao == 0 || sm.dynamic {
      var st := SetupBuffers(sm, next);
      if st.Ok? {
        SetupBuffersTrace(sm, next);
        DrawsAppend(st.value.calls, draw);
        UploadsAppend(st.value.calls, draw);
      }
    } else {
      var bind := [BindVertexArray(sm.vao)];
      assert Draws(bind) == [] && Uploads(bind) == [];
      DrawsAppend(bind, draw);
      UploadsAppend(bind, draw);
    }
  }

  /** A vertex array object is created only by the first draw of a static
      submesh, and it is the one the submesh keeps; a submesh already
      released and bound uploads nothing. */
  lemma DrawVerticesCreates(sm: SubMesh, site: DrawSite, next: GlName)
    requires Consistent(sm)
    ensures var r := DrawVertices(sm, site, next);
      r.Ok? ==> CreatedVaos(r.value.calls) == if sm.vao == 0 && !sm.dynamic then [r.value.sub.vao] else []
    ensures var r := DrawVertices(sm, site, next);
      r.Ok? && Released(sm) && (sm.vao != 0 || sm.dynamic) ==> Uploads(r.value.calls) == []
  {
    var draw := [Draw(site, sm.arrays.vertexCount)];
    assert Uploads(draw) == [] && CreatedVaos(draw) == [];
    if sm.vao == 0 || sm.dynamic {
      var st := SetupBuffers(sm, next);
      if st.Ok? {
        SetupBuffersTrace(sm, next);
        UploadsAppend(st.value.calls, draw);
        CreatedVaosAppend(st.value.calls, draw);
      }
    } else {
      var bind := [BindVertexArray(sm.vao)];
      assert Uploads(bind) == [] && CreatedVaos(bind) == [];
      UploadsAppend(bind, draw);
      CreatedVaosAppend(bind, draw);
    }
  }

  /** The rest of SubMesh::Render once Apply has succeeded: the applied
      material is stored, the vertices drawn, and the buffer names taken
      from the caches' counter. */
  function DrawApplied(sm: SubMesh, site: DrawSite, a: MaterialApplied): (r: Checked<SubRendered>)
    requires Consistent(sm) && Ordered(a.material.params)
    ensures r.Ok? ==> Consistent(r.value.sub) && Role(r.value.sub) == Some(a.material.translucent)
    ensures r.Ok? ==> Released(r.value.sub) && (r.value.sub.vao != 0 || r.value.sub.dynamic)
    ensures r.Ok? ==> r.value.sub.dynamic == sm.dynamic && r.value.sub.arrays.vertexCount == sm.arrays.vertexCount
    ensures r.Ok? ==> (r.value.scene.caches.nextName >= a.scene.caches.nextName
      && r.value.scene == a.scene.(caches := a.scene.caches.(nextName := r.value.scene.caches.nextName)))
  {
    match DrawVertices(sm.(material := Some(a.material)), site, a.scene.caches.nextName)
    case Fault(why) => Fault(why)
    case Ok(v) =>
      var caches := a.scene.caches.(nextName := v.next);
      Ok(SubRendered(v.sub, a.scene.(caches := caches), a.trace + v.calls))
  }

  /** The calls of DrawApplied after a material's calls, which neither
      draw, upload nor create vertex array objects. */
  lemma DrawAppliedTrace(sm: SubMesh, site: DrawSite, a: MaterialApplied)
    requires Consistent(sm) && Ordered(a.material.params)
    requires Draws(a.trace) == [] && Uploads(a.trace) == [] && CreatedVaos(a.trace) == []
    ensures var r := DrawApplied(sm, site, a);
      r.Ok? ==> Draws(r.value.trace) == [site] && forall b :: b in Uploads(r.value.trace) ==> b >= a.scene.caches.nextName
    ensures var r := DrawApplied(sm, site, a);
      r.Ok? ==> CreatedVaos(r.value.trace) == if sm.vao == 0 && !sm.dynamic then [r.value.sub.vao] else []
    ensures var r := DrawApplied(sm, site, a);
      r.Ok? && Released(sm) && (sm.vao != 0 || sm.dynamic) ==> Uploads(r.value.trace) == []
  {
    var sm1 := sm.(material := Some(a.material));
    var v := DrawVertices(sm1, site, a.scene.caches.nextName);
    if v.Ok? {
      DrawVerticesTrace(sm1, site, a.scene.caches.nextName);
      DrawVerticesCreates(sm1, site, a.scene.caches.nextName);
      DrawsAppend(a.trace, v.value.calls);
      UploadsAppend(a.trace, v.value.calls);
      CreatedVaosAppend(a.trace, v.value.calls);
    }
  }

  /** SubMesh::Render (render3d.cpp:697-787): nothing without a material;
      otherwise apply the material, then draw the vertices. */
  function SubMeshRender(sm: SubMesh, site: DrawSite, s: Scene, w: World): (r: Checked<SubRendered>)
    requires Consistent(sm)
    ensures sm.material.None? ==> r == Ok(SubRendered(sm, s, []))
    ensures r.Ok? ==> Consistent(r.value.sub) && Role(r.value.sub) == Role(sm) && SameView(s, r.value.scene)
    ensures r.Ok? && sm.material.Some? ==> Released(r.value.sub) && (r.value.sub.vao != 0 || r.value.sub.dynamic)
    ensures r.Ok? ==> r.value.sub.dynamic == sm.dynamic && r.value.sub.arrays.vertexCount == sm.arrays.vertexCount
    ensures r.Ok? ==> r.value.scene.caches.nextName >= s.caches.nextName
    ensures r.Ok? && NamesBelow(s.caches) ==> NamesBelow(r.value.scene.caches)
  {
    match sm.material
    case None => Ok(SubRendered(sm, s, []))
    case Some(m) =>
      match Materials.Apply(m, s, w)
      case Fault(why) => Fault(why)
      case Ok(a) => DrawApplied(sm, site, a)
  }

  /** The GL calls of SubMesh::Render: one draw of the site when there is a
      material, none otherwise; uploads only into buffers it creates; a
      vertex array object only on the first draw of a static submesh, and
      then the one it keeps. */
  lemma SubMeshRenderTrace(sm: SubMesh, site: DrawSite, s: Scene, w: World)
    requires Consistent(sm)
    ensures var r := SubMeshRender(sm, site, s, w);
      r.Ok? ==> Draws(r.value.trace) == (if sm.material.Some? then [site] else [])
    ensures var r := SubMeshRender(sm, site, s, w);
      r.Ok? ==> forall b :: b in Uploads(r.value.trace) ==> b >= s.caches.nextName
    ensures var r := SubMeshRender(sm, site, s, w);
      r.Ok? ==> CreatedVaos(r.value.trace) == if sm.material.Some? && sm.vao == 0 && !sm.dynamic then [r.value.sub.vao] else []
    ensures var r := SubMeshRender(sm, site, s, w);
      r.Ok? && sm.material.Some? && Released(sm) && (sm.vao != 0 || sm.dynamic) ==> Uploads(r.value.trace) == []
  {
    if sm.material.Some? {
      var a := Materials.Apply(sm.material.value, s, w);
      if a.Ok? {
        DrawAppliedTrace(sm, site, a.value);
      }
    }
  }

  /** Each vertex buffer is filled once and a vertex array object is
      created once: whatever the first successful draw of a submesh did, a
      later draw uploads nothing and creates nothing, dynamic or not. */
  lemma UploadsOnce(sm: SubMesh, site: DrawSite, s: Scene, again: Scene, w: World)
    requires Consistent(sm) && sm.material.Some?
    ensures var first := SubMeshRender(sm, site, s, w);
      first.Ok? ==>
        var second := SubMeshRender(first.value.sub, site, again, w);
        second.Ok? ==> Uploads(second.value.trace) == [] && CreatedVaos(second.value.trace) == []
  {
    var first := SubMeshRender(sm, site, s, w);
    if first.Ok? {
      SubMeshRenderTrace(first.value.sub, site, again, w);
    }
  }

  /** MarkDymc (render3d.cpp:809-812). */
  function MarkDymc(sm: SubMesh, dynamic: bool): (r: SubMesh)
    ensures r.dynamic == dynamic && r == sm.(dynamic := dynamic)
    ensures Consistent(sm) ==> Consistent(r)
  {
    sm.(dynamic := dynamic)
  }

  /** SubMesh::UpdatePositions (render3d.cpp:814-821): rewrite the
      position buffer of a dynamic submesh whose buffer exists; otherwise
      nothing happens. It reads a full vertex count of positions. */
  function UpdatePositions(sm: SubMesh, positions: seq<Vec3>): (r: Checked<seq<GlCall>>)
    ensures !(sm.dynamic && sm.vboPosition > 0) ==> r == Ok([])
    ensures sm.dynamic && sm.vboPosition > 0 ==>
      (r.Ok? <==> |positions| >= sm.arrays.vertexCount)
      && (r.Ok? ==> r.value == [UpdateBuffer(sm.vboPosition, sm.arrays.vertexCount)])
  {
    if sm.dynamic && sm.vboPosition > 0 then
      if |positions| < sm.arrays.vertexCount then Fault("glBufferSubData reads past the end of the positions")
      else Ok([UpdateBuffer(sm.vboPosition, sm.arrays.vertexCount)])
    else Ok([])
  }

  /** Marking a submesh dynamic only has an effect on updates once a draw
      has created its position buffer: before the first draw, updates are
      dropped; after it, they reach the buffer. */
  lemma UpdateNeedsFirstDraw(arrays: VertexArrays, positions: seq<Vec3>, site: DrawSite, s: Scene, w: World, m: Material)
    requires arrays.positions.Some? && |arrays.positions.value| >= arrays.vertexCount
    requires |positions| >= arrays.vertexCount && Ordered(m.params)
    ensures UpdatePositions(MarkDymc(NewSubMesh(arrays), true), positions) == Ok([])
    ensures var sm := MarkDymc(NewSubMesh(arrays), true).(material := Some(m));
      var drawn := SubMeshRender(sm, site, s, w);
      drawn.Ok? ==> UpdatePositions(drawn.value.sub, positions).value
                      == [UpdateBuffer(drawn.value.sub.vboPosition, arrays.vertexCount)]
  {
    var sm := MarkDymc(NewSubMesh(arrays), true).(material := Some(m));
    var drawn := SubMeshRender(sm, site, s, w);
    if drawn.Ok? {
      var a := Materials.Apply(m, s, w).value;
      var v := DrawVertices(sm.(material := Some(a.material)), site, a.scene.caches.nextName).value;
      assert drawn.value.sub == v.sub;
    }
  }

  // ---------------------------------------------------------------------
  // Meshes

  /** A mesh (render3d.h:255-281) and the texture paths recorded for
      eviction when it is destroyed. */
  datatype Mesh = Mesh(submeshes: seq<SubMesh>, pose: Pose, associated: set<string>)

  /** Mesh::Mesh: no submeshes, the default pose. */
  function NewMesh(rotation: Quat, transform: Matrix): (m: Mesh)
    ensures m.submeshes == [] && m.associated == {} && m.pose == NewPose(rotation, transform)
    ensures m.pose.dirty && m.pose.position == Vec3Zero && m.pose.scale == Vec3Ones
  {
    Mesh([], NewPose(rotation, transform), {})
  }

  predicate MeshConsistent(m: Mesh)
  {
    forall i :: 0 <= i < |m.submeshes| ==> Consistent(m.submeshes[i])
  }

  /** Mesh::GetSubMesh (render3d.cpp:912-917): null outside the range. */
  function GetSubMesh(m: Mesh, index: int): (r: Option<SubMesh>)
    ensures r.Some? <==> 0 <= index < |m.submeshes|
    ensures r.Some? ==> r.value == m.submeshes[index]
  {
    if 0 <= index < |m.submeshes| then Some(m.submeshes[index]) else None
  }

  /** Two meshes whose submeshes play the same roles, index by index. */
  predicate SameRoles(a: Mesh, b: Mesh)
  {
    |a.submeshes| == |b.submeshes| && forall i :: 0 <= i < |a.submeshes| ==> Role(a.submeshes[i]) == Role(b.submeshes[i])
  }

  /** The draws one pass over a mesh should make, from submesh i on:
      every submesh whose material has the pass's translucency, in order. */
  function PassSites(id: nat, m: Mesh, translucent: bool, i: nat): (sites: seq<DrawSite>)
    requires i <= |m.submeshes|
    ensures forall k :: 0 <= k < |sites| ==> (sites[k].mesh == id && i <= sites[k].submesh < |m.submeshes|
                                                && Role(m.submeshes[sites[k].submesh]) == Some(translucent))
    decreases |m.submeshes| - i
  {
    if i == |m.submeshes| then []
    else (if Role(m.submeshes[i]) == Some(translucent) then [DrawSite(id, i)] else []) + PassSites(id, m, translucent, i + 1)
  }

  lemma {:induction false} PassSitesAgree(id: nat, a: Mesh, b: Mesh, translucent: bool, i: nat)
    requires SameRoles(a, b) && i <= |a.submeshes|
    ensures PassSites(id, a, translucent, i) == PassSites(id, b, translucent, i)
    decreases |a.submeshes| - i
  {
    if i < |a.submeshes| {
      PassSitesAgree(id, a, b, translucent, i + 1);
    }
  }

  datatype Passed = Passed(mesh: Mesh, camera: Camera, caches: Caches, trace: seq<GlCall>)

  /** How a pass draws one submesh: SubMeshRender with the world fixed.
      The passes below are stated for any submesh renderer that keeps what
      a pass relies on, and SubMeshRenderer shows that SubMeshRender does. */
  type SubRenderer = (SubMesh, DrawSite, Scene) --> Checked<SubRendered>

  /** What a pass relies on of one submesh draw: the submesh stays
      consistent in its role, the site is drawn exactly when there is a
      material, and GL names are only ever taken from the counter. */
  predicate DrawnAt(sm: SubMesh, site: DrawSite, s: Scene, x: SubRendered)
  {
    && Consistent(x.sub) && Role(x.sub) == Role(sm)
    && Draws(x.trace) == (if sm.material.Some? then [site] else [])
    && x.scene.caches.nextName >= s.caches.nextName
    && (NamesBelow(s.caches) ==> NamesBelow(x.scene.caches))
  }

  ghost predicate Renders(render: SubRenderer)
  {
    forall sm: SubMesh, site: DrawSite, s: Scene :: Consistent(sm) ==>
      && render.requires(sm, site, s)
      && (render(sm, site, s).Ok? ==> DrawnAt(sm, site, s, render(sm, site, s).value))
  }

  lemma RendersAt(render: SubRenderer, sm: SubMesh, site: DrawSite, s: Scene)
    requires Renders(render) && Consistent(sm)
    ensures render.requires(sm, site, s)
    ensures render(sm, site, s).Ok? ==> DrawnAt(sm, site, s, render(sm, site, s).value)
  {
  }

  lemma SubMeshRenderDrawn(w: World)
    ensures forall sm: SubMesh, site: DrawSite, s: Scene :: Consistent(sm) && SubMeshRender(sm, site, s, w).Ok? ==>
      DrawnAt(sm, site, s, SubMeshRender(sm, site, s, w).value)
  {
    forall sm: SubMesh, site: DrawSite, s: Scene | Consistent(sm) && SubMeshRender(sm, site, s, w).Ok?
      ensures DrawnAt(sm, site, s, SubMeshRender(sm, site, s, w).value)
    {
      SubMeshRenderTrace(sm, site, s, w);
    }
  }

  /** SubMesh::Render as the renderer's passes call it. */
  function SubMeshRenderer(w: World): (render: SubRenderer)
    ensures Renders(render)
  {
    SubMeshRenderDrawn(w);
    (sm: SubMesh, site: DrawSite, s: Scene) requires Consistent(sm) => SubMeshRender(sm, site, s, w)
  }

  /** Mesh::RenderOpaqueSubMeshes / RenderTranslucentSubMeshes
      (render3d.cpp:852-870) from submesh i on. */
  function PassFrom(m: Mesh, id: nat, translucent: bool, i: nat, camera: Camera, caches: Caches, render: SubRenderer): (r: Checked<Passed>)
    requires i <= |m.submeshes| && MeshConsistent(m) && Renders(render)
    ensures r.Ok? ==> MeshConsistent(r.value.mesh) && SameRoles(m, r.value.mesh)
    ensures r.Ok? ==> r.value.mesh.associated == m.associated
    ensures r.Ok? ==> Draws(r.value.trace) == PassSites(id, m, translucent, i)
    ensures r.Ok? ==> r.value.caches.nextName >= caches.nextName
    ensures r.Ok? && NamesBelow(caches) ==> NamesBelow(r.value.caches)
    decreases |m.submeshes| - i
  {
    if i == |m.submeshes| then Ok(Passed(m, camera, caches, []))
    else
      var sm := m.submeshes[i];
      if sm.material.Some? && sm.material.value.translucent == translucent then
        RendersAt(render, sm, DrawSite(id, i), Scene(m.pose, camera, caches));
        match render(sm, DrawSite(id, i), Scene(m.pose, camera, caches))
        case Fault(why) => Fault(why)
        case Ok(x) =>
          var m1 := m.(submeshes := m.submeshes[i := x.sub], pose := x.scene.pose);
          assert SameRoles(m, m1);
          match PassFrom(m1, id, translucent, i + 1, x.scene.camera, x.scene.caches, render)
          case Fault(why) => Fault(why)
          case Ok(rest) =>
            PassSitesAgree(id, m, m1, translucent, i + 1);
            DrawsAppend(x.trace, rest.trace);
            assert PassSites(id, m, translucent, i) == [DrawSite(id, i)] + PassSites(id, m, translucent, i + 1);
            Ok(rest.(trace := x.trace + rest.trace))
      else
        assert PassSites(id, m, translucent, i) == PassSites(id, m, translucent, i + 1);
        PassFrom(m, id, translucent, i + 1, camera, caches, render)
  }

  // ---------------------------------------------------------------------
  // The renderer

  /** The renderer's meshes (handles of the live ones, with their state),
      the render list, the camera and the caches. A handle in the list that
      is no longer live is a dangling pointer. */
  datatype Renderer = Renderer(meshes: map<nat, Mesh>, list: seq<nat>, camera: Camera, caches: Caches, nextMesh: nat)

  predicate RendererConsistent(r: Renderer)
  {
    forall id :: id in r.meshes ==> MeshConsistent(r.meshes[id])
  }

  /** The same meshes are live in both renderers, with submeshes in the
      same roles and the same recorded texture paths. */
  predicate SameMeshes(a: Renderer, b: Renderer)
  {
    && a.meshes.Keys == b.meshes.Keys
    && forall id :: id in a.meshes ==> SameRoles(a.meshes[id], b.meshes[id]) && a.meshes[id].associated == b.meshes[id].associated
  }

  /** The role of the submesh at a draw site, None where there is none. */
  function RoleAt(meshes: map<nat, Mesh>, site: DrawSite): Option<bool>
  {
    if site.mesh in meshes && site.submesh < |meshes[site.mesh].submeshes|
    then Role(meshes[site.mesh].submeshes[site.submesh])
    else None
  }

  /** The draws one pass over the list should make: the pass's submeshes
      of each listed mesh, mesh by mesh in list order. */
  function ListSites(ids: seq<nat>, meshes: map<nat, Mesh>, translucent: bool): (sites: seq<DrawSite>)
    ensures forall k :: 0 <= k < |sites| ==> RoleAt(meshes, sites[k]) == Some(translucent)
  {
    if |ids| == 0 then []
    else
      var here := if ids[0] in meshes then PassSites(ids[0], meshes[ids[0]], translucent, 0) else [];
      var rest := ListSites(ids[1..], meshes, translucent);
      assert forall k :: 0 <= k < |here| ==> RoleAt(meshes, here[k]) == Some(translucent);
      assert forall k :: |here| <= k < |here + rest| ==> (here + rest)[k] == rest[k - |here|];
      here + rest
  }

  lemma {:induction false} ListSitesAgree(ids: seq<nat>, a: Renderer, b: Renderer, translucent: bool)
    requires SameMeshes(a, b)
    ensures ListSites(ids, a.meshes, translucent) == ListSites(ids, b.meshes, translucent)
    decreases |ids|
  {
    if |ids| > 0 {
      ListSitesAgree(ids[1..], a, b, translucent);
      if ids[0] in a.meshes {
        PassSitesAgree(ids[0], a.meshes[ids[0]], b.meshes[ids[0]], translucent, 0);
      }
    }
  }

  /** Every handle of the list is live. */
  predicate AllLive(ids: seq<nat>, live: set<nat>)
  {
    |ids| == 0 || (ids[0] in live && AllLive(ids[1..], live))
  }

  lemma {:induction false} AllLiveMeans(ids: seq<nat>, live: set<nat>)
    ensures AllLive(ids, live) <==> forall k :: 0 <= k < |ids| ==> ids[k] in live
    decreases |ids|
  {
    if |ids| > 0 {
      AllLiveMeans(ids[1..], live);
      assert forall k :: 1 <= k < |ids| ==> ids[k] == ids[1..][k - 1];
    }
  }

  datatype Rendered = Rendered(renderer: Renderer, trace: seq<GlCall>)

  /** One pass over the listed meshes; a listed handle that is not live
      is a use after free. */
  function ListPass(r: Renderer, ids: seq<nat>, translucent: bool, render: SubRenderer): (out: Checked<Rendered>)
    requires RendererConsistent(r) && Renders(render)
    ensures out.Ok? ==> AllLive(ids, r.meshes.Keys)
    ensures out.Ok? ==> RendererConsistent(out.value.renderer) && SameMeshes(r, out.value.renderer)
    ensures out.Ok? ==> out.value.renderer.list == r.list
    ensures out.Ok? ==> Draws(out.value.trace) == ListSites(ids, r.meshes, translucent)
    ensures out.Ok? ==> out.value.renderer.caches.nextName >= r.caches.nextName
    ensures out.Ok? && NamesBelow(r.caches) ==> NamesBelow(out.value.renderer.caches)
    decreases |ids|
  {
    if |ids| == 0 then Ok(Rendered(r, []))
    else if ids[0] !in r.meshes then Fault("the render list holds a destroyed mesh")
    else
      match PassFrom(r.meshes[ids[0]], ids[0], translucent, 0, r.camera, r.caches, render)
      case Fault(why) => Fault(why)
      case Ok(p) =>
        var r1 := r.(meshes := r.meshes[ids[0] := p.mesh], camera := p.camera, caches := p.caches);
        assert SameMeshes(r, r1);
        match ListPass(r1, ids[1..], translucent, render)
        case Fault(why) => Fault(why)
        case Ok(rest) =>
          ListSitesAgree(ids[1..], r, r1, translucent);
          DrawsAppend(p.trace, rest.trace);
          Ok(Rendered(rest.renderer, p.trace + rest.trace))
  }

  /** Renderer::RenderMeshes (render3d.cpp:1348-1368): every listed mesh's
      opaque submeshes, then every listed mesh's translucent ones. */
  function RenderMeshes(r: Renderer, w: World): (out: Checked<Rendered>)
    requires RendererConsistent(r)
    ensures out.Ok? ==> AllLive(r.list, r.meshes.Keys)
    ensures out.Ok? ==> Draws(out.value.trace)
                        == ListSites(r.list, r.meshes, false) + ListSites(r.list, r.meshes, true)
    ensures out.Ok? ==> RendererConsistent(out.value.renderer) && SameMeshes(r, out.value.renderer)
    ensures out.Ok? ==> out.value.renderer.list == r.list
    ensures out.Ok? && NamesBelow(r.caches) ==> NamesBelow(out.value.renderer.caches)
  {
    var render := SubMeshRenderer(w);
    match ListPass(r, r.list, false, render)
    case Fault(why) => Fault(why)
    case Ok(first) =>
      match ListPass(first.renderer, r.list, true, render)
      case Fault(why) => Fault(why)
      case Ok(second) =>
        ListSitesAgree(r.list, r, first.renderer, true);
        DrawsAppend(first.trace, second.trace);
        Ok(Rendered(second.renderer, first.trace + second.trace))
  }

  /** Two passes of draws, the first of opaque sites and the second of
      translucent ones: every site has a material, and once a translucent
      site is drawn only translucent ones follow. */
  lemma TranslucentAfterOpaque(a: seq<DrawSite>, b: seq<DrawSite>, meshes: map<nat, Mesh>)
    requires forall k :: 0 <= k < |a| ==> RoleAt(meshes, a[k]) == Some(false)
    requires forall k :: 0 <= k < |b| ==> RoleAt(meshes, b[k]) == Some(true)
    ensures forall k :: 0 <= k < |a + b| ==> RoleAt(meshes, (a + b)[k]).Some?
    ensures forall i, j :: (0 <= i < j < |a + b| && RoleAt(meshes, (a + b)[i]) == Some(true))
                           ==> RoleAt(meshes, (a + b)[j]) == Some(true)
  {
    var ds := a + b;
    forall k | 0 <= k < |ds| ensures RoleAt(meshes, ds[k]).Some? {
      if k < |a| { assert ds[k] == a[k]; } else { assert ds[k] == b[k - |a|]; }
    }
    forall i, j | 0 <= i < j < |ds| && RoleAt(meshes, ds[i]) == Some(true)
      ensures RoleAt(meshes, ds[j]) == Some(true)
    {
      assert i >= |a|;
      assert ds[j] == b[j - |a|];
    }
  }

  /** No translucent submesh is drawn before an opaque one, and submeshes
      without a material are never drawn. */
  lemma OpaqueBeforeTranslucent(r: Renderer, w: World)
    requires RendererConsistent(r)
    ensures var out := RenderMeshes(r, w);
      out.Ok? ==>
        var ds := Draws(out.value.trace);
        && (forall k :: 0 <= k < |ds| ==> RoleAt(r.meshes, ds[k]).Some?)
        && (forall i, j :: (0 <= i < j < |ds| && RoleAt(r.meshes, ds[i]) == Some(true))
                            ==> RoleAt(r.meshes, ds[j]) == Some(true))
  {
    TranslucentAfterOpaque(ListSites(r.list, r.meshes, false), ListSites(r.list, r.meshes, true), r.meshes);
  }

  /** Renderer::AddMesh (render3d.cpp:1899-1908): null and meshes already
      listed are ignored; others go to the back. */
  function AddMesh(list: seq<nat>, mesh: Option<nat>): (r: seq<nat>)
    ensures NoDuplicates(list) ==> NoDuplicates(r)
    ensures forall x :: x in r <==> x in list || mesh == Some(x)
    ensures |list| <= |r| <= |list| + 1 && r[..|list|] == list
  {
    if mesh.None? || mesh.value in list then list else list + [mesh.value]
  }

  predicate NoDuplicates(list: seq<nat>)
  {
    forall i, j :: 0 <= i < j < |list| ==> list[i] != list[j]
  }

  /** The list without the first occurrence of x: one element shorter,
      nothing new, and the list itself when x is absent. */
  function RemoveFirst(list: seq<nat>, x: nat): (r: seq<nat>)
    ensures x !in list ==> r == list
    ensures |r| == if x in list then |list| - 1 else |list|
    ensures forall y :: y in r ==> y in list
  {
    if |list| == 0 then []
    else if list[0] == x then list[1..]
    else
      assert list == [list[0]] + list[1..];
      [list[0]] + RemoveFirst(list[1..], x)
  }

  /** Where x first occurs. */
  function FirstIndex(list: seq<nat>, x: nat): (k: nat)
    requires x in list
    ensures k < |list| && list[k] == x && x !in list[..k]
  {
    if list[0] == x then 0
    else
      var k := 1 + FirstIndex(list[1..], x);
      assert list[..k] == [list[0]] + list[1..][..k - 1];
      k
  }

  /** Removal cuts the list at the first x and keeps both sides in order. */
  lemma {:induction false} RemoveFirstSplits(list: seq<nat>, x: nat)
    requires x in list
    ensures RemoveFirst(list, x) == list[..FirstIndex(list, x)] + list[FirstIndex(list, x) + 1..]
  {
    if list[0] != x {
      var tail := list[1..];
      RemoveFirstSplits(tail, x);
      var i := FirstIndex(tail, x);
      assert list[..i + 1] == [list[0]] + tail[..i];
      assert list[i + 2..] == tail[i + 1..];
    }
  }

  /** Renderer::RemoveMesh (render3d.cpp:1910-1920). */
  function RemoveMesh(list: seq<nat>, mesh: Option<nat>): (r: seq<nat>)
    ensures mesh.None? ==> r == list
    ensures mesh.Some? ==> r == RemoveFirst(list, mesh.value)
  {
    if mesh.None? then list else RemoveFirst(list, mesh.value)
  }

  /** On a list without duplicates, removal takes the mesh out and keeps
      every other one. */
  lemma {:induction false} RemoveMeshRemoves(list: seq<nat>, x: nat)
    requires NoDuplicates(list)
    ensures forall y :: y in RemoveMesh(list, Some(x)) <==> y in list && y != x
    ensures NoDuplicates(RemoveMesh(list, Some(x)))
  {
    if |list| > 0 {
      var tail := list[1..];
      assert list == [list[0]] + tail;
      assert NoDuplicates(tail) by {
        forall i, j | 0 <= i < j < |tail| ensures tail[i] != tail[j] {
          assert tail[i] == list[i + 1] && tail[j] == list[j + 1];
        }
      }
      assert list[0] !in tail by {
        forall k | 0 <= k < |tail| ensures tail[k] != list[0] {
          assert tail[k] == list[k + 1];
        }
      }
      RemoveMeshRemoves(tail, x);
      if list[0] != x {
        var rest := RemoveFirst(tail, x);
        var r := [list[0]] + rest;
        forall i, j | 0 <= i < j < |r| ensures r[i] != r[j] {
          assert r[j] == rest[j - 1];
          if i > 0 {
            assert r[i] == rest[i - 1];
          }
        }
      }
    }
  }

  /** Adding a mesh that is not listed and removing it again gives back
      the list. */
  lemma {:induction false} AddThenRemove(list: seq<nat>, x: nat)
    requires x !in list
    ensures RemoveMesh(AddMesh(list, Some(x)), Some(x)) == list
    decreases |list|
  {
    if |list| == 0 {
      assert RemoveFirst([x], x) == [];
    } else {
      AddThenRemove(list[1..], x);
      assert (list + [x])[1..] == list[1..] + [x];
      assert RemoveFirst(list + [x], x) == [list[0]] + RemoveFirst(list[1..] + [x], x);
      assert list == [list[0]] + list[1..];
    }
  }

  /** Mesh::~Mesh (render3d.cpp:828-845) through the handle: the mesh is
      gone and every path it recorded is evicted from the texture cache.
      The render list is not touched, so a listed mesh leaves a dangling
      entry. Destroying a mesh twice is undefined. */
  function DestroyMesh(r: Renderer, id: nat): (out: Checked<Renderer>)
    ensures id !in r.meshes ==> out.Fault?
    ensures id in r.meshes ==> (out.Ok? && out.value.meshes == r.meshes - {id} && out.value.list == r.list
      && out.value.caches == Evict(r.caches, r.meshes[id].associated))
  {
    if id !in r.meshes then Fault("the mesh was already destroyed")
    else Ok(r.(meshes := r.meshes - {id}, caches := Evict(r.caches, r.meshes[id].associated)))
  }

  /** Destroying a listed mesh without removing it from the list makes
      the next frame a use after free. */
  lemma DestroyedButListedFaults(r: Renderer, id: nat, w: World)
    requires RendererConsistent(r) && id in r.meshes && id in r.list
    ensures var d := DestroyMesh(r, id).value;
      RendererConsistent(d) && RenderMeshes(d, w).Fault?
  {
    var d := DestroyMesh(r, id).value;
    AllLiveMeans(d.list, d.meshes.Keys);
    var k :| 0 <= k < |d.list| && d.list[k] == id;
  }
}
