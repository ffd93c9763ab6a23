/** Materials: the parameter store of `Params`, the builtin uniforms
    refreshed from the mesh, the camera and the environment textures, and
    the order in which Apply issues the uniform calls
    (render3d.cpp:236-452, render3d.h:97-163). */
module Materials {
  import opened Base
  import opened Gl
  import opened Programs
  import opened Textures
  import opened Params
  import opened Transforms
  import opened Resources

  /** A material (render3d.h:119-123). The program is shared with the
      renderer's program cache; `idleUnit` is the next free texture unit. */
  datatype Material = Material(program: Option<Program>, params: seq<Entry>, translucent: bool, idleUnit: int)

  /** Material::Material: no parameters, opaque, unit 0. */
  function NewMaterial(program: Option<Program>): (m: Material)
    ensures m.program == program && m.params == [] && !m.translucent && m.idleUnit == 0
    ensures Ordered(m.params) && Keys(m.params) == {}
  {
    Material(program, [], false, 0)
  }

  /** Material::SetFloatParam (render3d.cpp:360-372). A name already
      holding another kind of parameter would be written through a
      static_cast to the wrong class, so the caller must not do that. */
  function SetFloatParam(m: Material, name: string, f: Float): (r: Material)
    requires Ordered(m.params) && Fits(m.params, name, FloatKind)
    ensures Ordered(r.params) && Lookup(r.params, name) == Some(FloatParam(f))
    ensures forall n :: n != name ==> Lookup(r.params, n) == Lookup(m.params, n)
    ensures r.program == m.program && r.translucent == m.translucent && r.idleUnit == m.idleUnit
  {
    m.(params := Upsert(m.params, name, FloatParam(f)))
  }

  /** Material::SetMatrix4fParam (render3d.cpp:374-386). */
  function SetMatrixParam(m: Material, name: string, x: Matrix): (r: Material)
    requires Ordered(m.params) && Fits(m.params, name, MatrixKind)
    ensures Ordered(r.params) && Lookup(r.params, name) == Some(MatrixParam(x))
    ensures forall n :: n != name ==> Lookup(r.params, n) == Lookup(m.params, n)
    ensures r.program == m.program && r.translucent == m.translucent && r.idleUnit == m.idleUnit
  {
    m.(params := Upsert(m.params, name, MatrixParam(x)))
  }

  /** Material::SetTextureParam (render3d.cpp:388-400); the texture may be
      null. */
  function SetTextureParam(m: Material, name: string, t: Option<Texture>): (r: Material)
    requires Ordered(m.params) && Fits(m.params, name, TextureKind)
    ensures Ordered(r.params) && Lookup(r.params, name) == Some(TextureParam(t))
    ensures forall n :: n != name ==> Lookup(r.params, n) == Lookup(m.params, n)
    ensures Keys(r.params) == Keys(m.params) + {name}
    ensures r.program == m.program && r.translucent == m.translucent && r.idleUnit == m.idleUnit
  {
    m.(params := Upsert(m.params, name, TextureParam(t)))
  }

  /** Material::SetTranslucent. */
  function SetTranslucent(m: Material, translucent: bool): (r: Material)
    ensures r.translucent == translucent
    ensures r.program == m.program && r.params == m.params && r.idleUnit == m.idleUnit
  {
    m.(translucent := translucent)
  }

  /** Writing one name twice keeps only the second value, and the store
      grows by at most one entry. */
  lemma SetParamOverwrites(m: Material, name: string, a: Float, b: Float)
    requires Ordered(m.params) && Fits(m.params, name, FloatKind)
    ensures var once := SetFloatParam(m, name, a);
      Fits(once.params, name, FloatKind)
      && SetFloatParam(once, name, b).params == SetFloatParam(m, name, b).params
      && |SetFloatParam(once, name, b).params| <= |m.params| + 1
  {
    var once := SetFloatParam(m, name, a);
    var twice := SetFloatParam(once, name, b);
    var direct := SetFloatParam(m, name, b);
    assert Keys(twice.params) == Keys(direct.params);
    forall n ensures Lookup(twice.params, n) == Lookup(direct.params, n) {
    }
    OrderedSameLookups(twice.params, direct.params);
  }

  /** Two ordered stores that answer every lookup alike are the same
      sequence: the store is determined by its contents. */
  lemma {:induction false} OrderedSameLookups(a: seq<Entry>, b: seq<Entry>)
    requires Ordered(a) && Ordered(b)
    requires forall n :: Lookup(a, n) == Lookup(b, n)
    ensures a == b
    decreases |a| + |b|
  {
    if |a| == 0 || |b| == 0 {
      FirstFound(a);
      FirstFound(b);
    } else {
      OrderedTail(a);
      OrderedTail(b);
      assert Lookup(a, a[0].name) == Some(a[0].value);
      assert Lookup(b, b[0].name) == Some(b[0].value);
      FirstIsLeast(a, b[0].name);
      FirstIsLeast(b, a[0].name);
      if a[0].name != b[0].name {
        StrLessAsymmetric(a[0].name, b[0].name);
      }
      assert a[0] == b[0];
      NotInTail(a);
      NotInTail(b);
      forall n ensures Lookup(a[1..], n) == Lookup(b[1..], n) {
        if n == a[0].name {
          assert Lookup(a[1..], n).None? && Lookup(b[1..], n).None?;
        } else {
          assert Lookup(a, n) == Lookup(a[1..], n);
          assert Lookup(b, n) == Lookup(b[1..], n);
        }
      }
      OrderedSameLookups(a[1..], b[1..]);
      assert a == [a[0]] + a[1..];
      assert b == [b[0]] + b[1..];
    }
  }

  /** The first entry of a store is found under its name. */
  lemma FirstFound(ps: seq<Entry>)
    ensures |ps| > 0 ==> Lookup(ps, ps[0].name) == Some(ps[0].value)
  {
  }

  /** The first name of an ordered store is its least. */
  lemma FirstIsLeast(ps: seq<Entry>, n: string)
    requires |ps| > 0 && Ordered(ps) && n in Keys(ps)
    ensures n == ps[0].name || StrLess(ps[0].name, n)
  {
    var i :| 0 <= i < |ps| && ps[i].name == n;
  }

  // ---------------------------------------------------------------------
  // Builtin uniforms

  /** What the builtin refresh reads and may change: the pose of the mesh
      the material belongs to, the renderer's camera and its caches. */
  datatype Scene = Scene(pose: Pose, camera: Camera, caches: Caches)

  /** Where the environment textures come from. */
  datatype World = World(paths: EnvPaths, images: ImageSource)

  predicate IsMatrixBuiltin(name: string)
  {
    name in {"matWorld", "matView", "matProjection", "matWorldView", "matViewProjection", "matWVP"}
  }

  /** The matrix each matrix builtin is set to, stated from the pose and
      the camera directly (render3d.cpp:270-303): products are
      view times world and view-projection times world, in that order. */
  function ExpectedMatrix(name: string, pose: Pose, c: Camera): Matrix
    requires IsMatrixBuiltin(name)
  {
    if name == "matWorld" then CurrentTransform(pose)
    else if name == "matView" then CurrentView(c)
    else if name == "matProjection" then c.projection
    else if name == "matWorldView" then Product(CurrentView(c), CurrentTransform(pose))
    else if name == "matViewProjection" then CurrentViewProjection(c)
    else Product(CurrentViewProjection(c), CurrentTransform(pose))
  }

  /** The environment texture behind a texture builtin, if it is one. */
  function EnvFor(name: string): Option<EnvMap>
  {
    if name == "diffuseEnvMap" then Some(DiffuseEnv)
    else if name == "specularEnvMap" then Some(SpecularEnv)
    else if name == "iblBrdfLutMap" then Some(BrdfLut)
    else if name == "iblDiffuseEnvMap" then Some(IblDiffuse)
    else if name == "iblSpecularEnvMap" then Some(IblSpecular)
    else None
  }

  /** No name is both a matrix and a texture builtin. */
  lemma BuiltinClassesDisjoint(name: string)
    requires IsMatrixBuiltin(name)
    ensures EnvFor(name).None?
  {
  }

  /** Neither the caches' current transform, view, projection nor
      view-projection changes between two scenes. */
  predicate SameView(a: Scene, b: Scene)
  {
    && CurrentTransform(a.pose) == CurrentTransform(b.pose)
    && CurrentView(a.camera) == CurrentView(b.camera)
    && a.camera.projection == b.camera.projection
    && CurrentViewProjection(a.camera) == CurrentViewProjection(b.camera)
  }

  datatype Refreshed = Refreshed(material: Material, scene: Scene)

  /** The value and the reads of one matrix builtin: GetTransform and the
      camera getters cache what they compute, but what they would return
      next does not change. */
  function ReadMatrix(s: Scene, name: string): (r: (Matrix, Scene))
    requires IsMatrixBuiltin(name)
    ensures r.0 == ExpectedMatrix(name, s.pose, s.camera)
    ensures SameView(s, r.1) && r.1.caches == s.caches
  {
    var t := GetTransform(s.pose);
    if name == "matWorld" then (t.matrix, s.(pose := t.pose))
    else if name == "matView" then
      var v := GetViewMatrix(s.camera);
      (v.matrix, s.(camera := v.camera))
    else if name == "matProjection" then (s.camera.projection, s)
    else if name == "matWorldView" then
      var v := GetViewMatrix(s.camera);
      (Product(v.matrix, t.matrix), Scene(t.pose, v.camera, s.caches))
    else if name == "matViewProjection" then
      var vp := GetViewProjectionMatrix(s.camera);
      (vp.matrix, s.(camera := vp.camera))
    else
      var vp := GetViewProjectionMatrix(s.camera);
      (Product(vp.matrix, t.matrix), Scene(t.pose, vp.camera, s.caches))
  }

  /** A matrix builtin: the value is read and stored as a matrix
      parameter. Writing it over a parameter of another kind is undefined. */
  function RefreshMatrix(m: Material, s: Scene, name: string): (r: Checked<Refreshed>)
    requires Ordered(m.params) && IsMatrixBuiltin(name)
    ensures r.Ok? <==> Fits(m.params, name, MatrixKind)
    ensures r.Ok? ==> Ordered(r.value.material.params) && SameView(s, r.value.scene) && r.value.scene.caches == s.caches
    ensures r.Ok? ==> forall n :: n != name ==> Lookup(r.value.material.params, n) == Lookup(m.params, n)
    ensures r.Ok? ==> Lookup(r.value.material.params, name) == Some(MatrixParam(ExpectedMatrix(name, s.pose, s.camera)))
    ensures r.Ok? ==> r.value.material.program == m.program
    ensures r.Ok? ==> r.value.material.translucent == m.translucent && r.value.material.idleUnit == m.idleUnit
  {
    if !Fits(m.params, name, MatrixKind) then Fault("builtin written through a static_cast to the wrong parameter class")
    else
      var read := ReadMatrix(s, name);
      Ok(Refreshed(SetMatrixParam(m, name, read.0), read.1))
  }

  /** A texture builtin: the renderer's environment texture, possibly
      null, is stored as a texture parameter. */
  function RefreshEnv(m: Material, s: Scene, name: string, e: EnvMap, w: World): (r: Checked<Refreshed>)
    requires Ordered(m.params)
    ensures r.Ok? ==> Ordered(r.value.material.params) && SameView(s, r.value.scene)
    ensures r.Ok? ==> forall n :: n != name ==> Lookup(r.value.material.params, n) == Lookup(m.params, n)
    ensures r.Ok? <==> Fits(m.params, name, TextureKind) && GetEnvTexture(s.caches, e, w.paths, w.images).Ok?
    ensures r.Ok? ==> Lookup(r.value.material.params, name) == Some(TextureParam(GetEnvTexture(s.caches, e, w.paths, w.images).value.texture))
    ensures r.Ok? ==> Lookup(r.value.material.params, name) == Some(TextureParam(EnvSlot(r.value.scene.caches, e)))
    ensures r.Ok? ==> forall o :: o != e ==> EnvSlot(r.value.scene.caches, o) == EnvSlot(s.caches, o)
    ensures r.Ok? ==> r.value.material.program == m.program && r.value.material.translucent == m.translucent
    ensures r.Ok? ==> r.value.material.idleUnit == m.idleUnit
    ensures r.Ok? && NamesBelow(s.caches) ==> NamesBelow(r.value.scene.caches)
    ensures r.Ok? ==> r.value.scene.caches.nextName >= s.caches.nextName
  {
    if !Fits(m.params, name, TextureKind) then Fault("builtin written through a static_cast to the wrong parameter class")
    else match GetEnvTexture(s.caches, e, w.paths, w.images)
      case Fault(why) => Fault(why)
      case Ok(l) => Ok(Refreshed(SetTextureParam(m, name, l.texture), s.(caches := l.caches)))
  }

  /** One iteration of the builtin loop: a matrix builtin reads the pose
      or the camera, a texture builtin asks the renderer for its
      environment texture, and any other name is passed over. */
  function RefreshOne(m: Material, s: Scene, name: string, w: World): (r: Checked<Refreshed>)
    requires Ordered(m.params)
    ensures r.Ok? ==> Ordered(r.value.material.params) && SameView(s, r.value.scene)
    ensures r.Ok? ==> forall n :: n != name ==> Lookup(r.value.material.params, n) == Lookup(m.params, n)
    ensures r.Ok? && IsMatrixBuiltin(name) ==>
      Lookup(r.value.material.params, name) == Some(MatrixParam(ExpectedMatrix(name, s.pose, s.camera)))
    ensures r.Ok? && EnvFor(name).Some? ==>
      Lookup(r.value.material.params, name) == Some(TextureParam(EnvSlot(r.value.scene.caches, EnvFor(name).value)))
    ensures r.Ok? ==> forall o :: EnvFor(name) != Some(o) ==> EnvSlot(r.value.scene.caches, o) == EnvSlot(s.caches, o)
    ensures r.Ok? ==> r.value.material.program == m.program && r.value.material.translucent == m.translucent
    ensures r.Ok? && NamesBelow(s.caches) ==> NamesBelow(r.value.scene.caches)
    ensures r.Ok? ==> r.value.scene.caches.nextName >= s.caches.nextName
    ensures r.Ok? ==> r.value.material.idleUnit == m.idleUnit
  {
    if IsMatrixBuiltin(name) then
      BuiltinClassesDisjoint(name);
      RefreshMatrix(m, s, name)
    else match EnvFor(name)
      case None => Ok(Refreshed(m, s))
      case Some(e) => RefreshEnv(m, s, name, e, w)
  }

  /** Material::UpdateBuiltinUniforms (render3d.cpp:265-324) over the
      program's builtin names, in the program's order. What it writes is
      stated by the three lemmas that follow. */
  function UpdateBuiltins(m: Material, s: Scene, names: seq<string>, w: World): (r: Checked<Refreshed>)
    requires Ordered(m.params)
    ensures r.Ok? ==> Ordered(r.value.material.params) && SameView(s, r.value.scene)
    ensures r.Ok? ==> r.value.material.program == m.program && r.value.material.translucent == m.translucent
    ensures r.Ok? ==> r.value.material.idleUnit == m.idleUnit
    ensures r.Ok? && NamesBelow(s.caches) ==> NamesBelow(r.value.scene.caches)
    ensures r.Ok? ==> r.value.scene.caches.nextName >= s.caches.nextName
    decreases |names|
  {
    if |names| == 0 then Ok(Refreshed(m, s))
    else match RefreshOne(m, s, names[0], w)
      case Fault(why) => Fault(why)
      case Ok(one) => UpdateBuiltins(one.material, one.scene, names[1..], w)
  }

  /** A name that is not a builtin of the program keeps its parameter. */
  lemma {:induction false} UpdateBuiltinsKeeps(m: Material, s: Scene, names: seq<string>, w: World)
    requires Ordered(m.params)
    ensures var r := UpdateBuiltins(m, s, names, w);
      r.Ok? ==> forall n :: n !in names ==> Lookup(r.value.material.params, n) == Lookup(m.params, n)
    decreases |names|
  {
    if |names| > 0 {
      var one := RefreshOne(m, s, names[0], w);
      if one.Ok? {
        UpdateBuiltinsKeeps(one.value.material, one.value.scene, names[1..], w);
        assert forall n :: n in names[1..] ==> n in names;
      }
    }
  }

  /** After the refresh every matrix builtin holds the matrix it names for
      the scene's pose and camera. */
  lemma {:induction false} UpdateBuiltinsSetsMatrices(m: Material, s: Scene, names: seq<string>, w: World)
    requires Ordered(m.params)
    ensures var r := UpdateBuiltins(m, s, names, w);
      r.Ok? ==> forall i :: 0 <= i < |names| && IsMatrixBuiltin(names[i]) ==>
        Lookup(r.value.material.params, names[i]) == Some(MatrixParam(ExpectedMatrix(names[i], s.pose, s.camera)))
    decreases |names|
  {
    if |names| > 0 {
      var one := RefreshOne(m, s, names[0], w);
      if one.Ok? {
        var o := one.value;
        UpdateBuiltinsSetsMatrices(o.material, o.scene, names[1..], w);
        UpdateBuiltinsKeeps(o.material, o.scene, names[1..], w);
        var r := UpdateBuiltins(o.material, o.scene, names[1..], w);
        if r.Ok? {
          forall i | 0 <= i < |names| && IsMatrixBuiltin(names[i])
            ensures Lookup(r.value.material.params, names[i]) == Some(MatrixParam(ExpectedMatrix(names[i], s.pose, s.camera)))
          {
            if i > 0 {
              assert names[i] == names[1..][i - 1];
            } else if names[0] in names[1..] {
              var j :| 0 <= j < |names[1..]| && names[1..][j] == names[0];
            }
          }
        }
      }
    }
  }

  /** Different texture builtins name different environment textures. */
  lemma EnvForInjective(a: string, b: string)
    requires EnvFor(a).Some? && EnvFor(a) == EnvFor(b)
    ensures a == b
  {
  }

  /** A refresh over names none of which asks for environment texture o
      leaves the renderer's pointer for o alone. */
  lemma {:induction false} UpdateBuiltinsKeepsEnv(m: Material, s: Scene, names: seq<string>, w: World, o: EnvMap)
    requires Ordered(m.params)
    requires forall i :: 0 <= i < |names| ==> EnvFor(names[i]) != Some(o)
    ensures var r := UpdateBuiltins(m, s, names, w);
      r.Ok? ==> EnvSlot(r.value.scene.caches, o) == EnvSlot(s.caches, o)
    decreases |names|
  {
    if |names| > 0 {
      var one := RefreshOne(m, s, names[0], w);
      if one.Ok? {
        assert forall i :: 0 <= i < |names[1..]| ==> names[1..][i] == names[i + 1];
        UpdateBuiltinsKeepsEnv(one.value.material, one.value.scene, names[1..], w, o);
      }
    }
  }

  /** After the refresh every texture builtin holds exactly what the
      renderer's pointer for its environment texture holds at the end:
      the texture once a load has succeeded, null otherwise. */
  lemma {:induction false} UpdateBuiltinsSetsTextures(m: Material, s: Scene, names: seq<string>, w: World)
    requires Ordered(m.params)
    ensures var r := UpdateBuiltins(m, s, names, w);
      r.Ok? ==> forall i :: 0 <= i < |names| && EnvFor(names[i]).Some? ==>
        Lookup(r.value.material.params, names[i]) == Some(TextureParam(EnvSlot(r.value.scene.caches, EnvFor(names[i]).value)))
    decreases |names|
  {
    if |names| > 0 {
      var one := RefreshOne(m, s, names[0], w);
      if one.Ok? {
        var o := one.value;
        UpdateBuiltinsSetsTextures(o.material, o.scene, names[1..], w);
        UpdateBuiltinsKeeps(o.material, o.scene, names[1..], w);
        var r := UpdateBuiltins(o.material, o.scene, names[1..], w);
        if r.Ok? {
          forall i | 0 <= i < |names| && EnvFor(names[i]).Some?
            ensures Lookup(r.value.material.params, names[i]) == Some(TextureParam(EnvSlot(r.value.scene.caches, EnvFor(names[i]).value)))
          {
            if i > 0 {
              assert names[i] == names[1..][i - 1];
            } else if names[0] in names[1..] {
              var j :| 0 <= j < |names[1..]| && names[1..][j] == names[0];
            } else {
              var e := EnvFor(names[0]).value;
              forall j | 0 <= j < |names[1..]|
                ensures EnvFor(names[1..][j]) != Some(e)
              {
                if EnvFor(names[1..][j]) == Some(e) {
                  EnvForInjective(names[0], names[1..][j]);
                }
              }
              UpdateBuiltinsKeepsEnv(o.material, o.scene, names[1..], w, e);
            }
          }
        }
      }
    }
  }

  // ---------------------------------------------------------------------
  // Apply

  /** The calls that bind texture t to a unit and point the sampler
      uniform `name` at that unit (render3d.cpp:434-446). */
  function BindCalls(p: Program, name: string, t: Texture, unit: int): seq<GlCall>
  {
    [ActiveTexture(unit), BindTexture(t.kind, t.glName), UniformInt(UniformLocation(p, name), unit)]
  }

  /** The calls one parameter makes (render3d.cpp:418-452) with the unit
      it is handed: only material calls; ParamCallsMeans says which. */
  function ParamCalls(p: Program, e: Entry, unit: int): (calls: seq<GlCall>)
    ensures MaterialCalls(calls)
  {
    match e.value
    case FloatParam(f) => [UniformFloat(UniformLocation(p, e.name), f)]
    case MatrixParam(x) => [UniformMatrix(UniformLocation(p, e.name), x)]
    case TextureParam(None) => []
    case TextureParam(Some(t)) =>
      var calls := BindCalls(p, e.name, t, unit);
      assert MaterialCalls(calls[2..]);
      assert MaterialCalls(calls[1..]);
      calls
  }

  /** A float or matrix parameter is one uniform call on its own
      location, a texture the binding calls, a null texture nothing. */
  lemma ParamCallsMeans(p: Program, e: Entry, unit: int)
    ensures var calls := ParamCalls(p, e, unit);
      && (e.value.FloatParam? ==> calls == [UniformFloat(UniformLocation(p, e.name), e.value.f)])
      && (e.value.MatrixParam? ==> calls == [UniformMatrix(UniformLocation(p, e.name), e.value.m)])
      && (e.value.TextureParam? ==> |calls| == 3 * Live(e))
      && (Live(e) == 1 ==> calls == BindCalls(p, e.name, e.value.texture.value, unit))
  {
  }

  datatype Applied = Applied(trace: seq<GlCall>, unit: int)

  /** One parameter takes the unit it is handed exactly when it holds a
      texture. */
  lemma ParamCallsUnits(p: Program, e: Entry, unit: int)
    ensures TextureUnits(ParamCalls(p, e, unit)) == Range(unit, unit + Live(e))
  {
    var calls := ParamCalls(p, e, unit);
    if Live(e) == 1 {
      assert TextureUnits(calls) == [unit] + TextureUnits(calls[1..]);
      assert TextureUnits(calls[1..]) == TextureUnits(calls[2..]);
    } else if e.value.TextureParam? {
      assert calls == [];
    } else {
      assert TextureUnits(calls) == TextureUnits(calls[1..]);
    }
  }

  /** The parameter loop of Apply, in the store's (key) order, starting at
      texture unit `unit`. */
  function ApplyParams(p: Program, ps: seq<Entry>, unit: int): (r: Applied)
    ensures r.unit == unit + LiveTextures(ps)
    ensures TextureUnits(r.trace) == Range(unit, unit + LiveTextures(ps))
    ensures MaterialCalls(r.trace)
    decreases |ps|
  {
    if |ps| == 0 then Applied([], unit)
    else
      var head := ParamCalls(p, ps[0], unit);
      var rest := ApplyParams(p, ps[1..], unit + Live(ps[0]));
      TextureUnitsAppend(head, rest.trace);
      ParamCallsUnits(p, ps[0], unit);
      RangeSplit(unit, unit + Live(ps[0]), unit + LiveTextures(ps));
      MaterialCallsAppend(head, rest.trace);
      Applied(head + rest.trace, rest.unit)
  }

  /** Every matrix parameter is set through its uniform. */
  lemma {:induction false} ApplyParamsSetsMatrices(p: Program, ps: seq<Entry>, unit: int)
    ensures forall i :: 0 <= i < |ps| && ps[i].value.MatrixParam? ==>
      UniformMatrix(UniformLocation(p, ps[i].name), ps[i].value.m) in ApplyParams(p, ps, unit).trace
    decreases |ps|
  {
    if |ps| > 0 {
      ApplyParamsSetsMatrices(p, ps[1..], unit + Live(ps[0]));
      assert forall i :: 1 <= i < |ps| ==> ps[i] == ps[1..][i - 1];
    }
  }

  /** Every float parameter is set through its uniform. */
  lemma {:induction false} ApplyParamsSetsFloats(p: Program, ps: seq<Entry>, unit: int)
    ensures forall i :: 0 <= i < |ps| && ps[i].value.FloatParam? ==>
      UniformFloat(UniformLocation(p, ps[i].name), ps[i].value.f) in ApplyParams(p, ps, unit).trace
    decreases |ps|
  {
    if |ps| > 0 {
      ApplyParamsSetsFloats(p, ps[1..], unit + Live(ps[0]));
      assert forall i :: 1 <= i < |ps| ==> ps[i] == ps[1..][i - 1];
    }
  }

  /** The unit entry i's texture takes when the loop starts at `first`:
      the one after the units of the textures held before it. */
  function UnitFor(ps: seq<Entry>, i: nat, first: int): int
    requires i <= |ps|
  {
    first + LiveTextures(ps[..i])
  }

  lemma UnitForUnfold(ps: seq<Entry>, i: nat, first: int)
    requires 0 < i <= |ps|
    ensures UnitFor(ps, i, first) == UnitFor(ps[1..], i - 1, first + Live(ps[0]))
  {
    assert ps[..i][1..] == ps[1..][..i - 1];
  }

  /** A texture parameter holding a texture is bound, on the unit after
      those of the textures before it in key order, and its sampler
      uniform is pointed at that unit. */
  lemma {:induction false} ApplyParamsBindsTexture(p: Program, ps: seq<Entry>, unit: int, i: nat)
    requires i < |ps| && Live(ps[i]) == 1
    ensures exists k :: CallsAt(ApplyParams(p, ps, unit).trace, k,
                                BindCalls(p, ps[i].name, ps[i].value.texture.value, UnitFor(ps, i, unit)))
    decreases i
  {
    var head := ParamCalls(p, ps[0], unit);
    var rest := ApplyParams(p, ps[1..], unit + Live(ps[0]));
    var trace := ApplyParams(p, ps, unit).trace;
    assert trace == head + rest.trace;
    var run := BindCalls(p, ps[i].name, ps[i].value.texture.value, UnitFor(ps, i, unit));
    if i == 0 {
      ParamCallsMeans(p, ps[0], unit);
      assert ps[..0] == [];
      assert trace[0..] == trace && trace[..|head|] == head;
      assert CallsAt(trace, 0, run);
    } else {
      assert ps[i] == ps[1..][i - 1];
      UnitForUnfold(ps, i, unit);
      ApplyParamsBindsTexture(p, ps[1..], unit + Live(ps[0]), i - 1);
      var k :| CallsAt(rest.trace, k, run);
      CallsAtShift(head, rest.trace, k, run);
    }
  }

  datatype MaterialApplied = MaterialApplied(material: Material, scene: Scene, trace: seq<GlCall>)

  /** Material::Apply (render3d.cpp:326-348): reset the texture unit, use
      the program, refresh the builtins, then apply every parameter in key
      order. The builtin refresh reads the program without the null check
      Use has, so a material without a program faults there. The calls it
      makes are stated by ApplyTrace and ApplySetsMatrices. */
  function Apply(m: Material, s: Scene, w: World): (r: Checked<MaterialApplied>)
    requires Ordered(m.params)
    ensures m.program.None? ==> r.Fault?
    ensures r.Ok? ==>
      && r.value.material.idleUnit == LiveTextures(r.value.material.params)
      && Ordered(r.value.material.params) && SameView(s, r.value.scene)
      && r.value.material.program == m.program && r.value.material.translucent == m.translucent
    ensures r.Ok? ==> Draws(r.value.trace) == [] && Uploads(r.value.trace) == [] && CreatedVaos(r.value.trace) == []
    ensures r.Ok? && NamesBelow(s.caches) ==> NamesBelow(r.value.scene.caches)
    ensures r.Ok? ==> r.value.scene.caches.nextName >= s.caches.nextName
  {
    var reset := m.(idleUnit := 0);
    match m.program
    case None => Fault("UpdateBuiltinUniforms dereferences a null program")
    case Some(p) =>
      match UpdateBuiltins(reset, s, p.builtins, w)
      case Fault(why) => Fault(why)
      case Ok(u) =>
        var applied := ApplyParams(p, u.material.params, 0);
        var trace := [UseProgram(p.glName)] + applied.trace;
        MaterialCallsAppend([UseProgram(p.glName)], applied.trace);
        MaterialCallsOnly(trace);
        Ok(MaterialApplied(u.material.(idleUnit := applied.unit), u.scene, trace))
  }

  /** The calls Apply makes: the program first, then only material calls,
      and the texture units 0, 1, ... in order, one per parameter holding
      a texture. */
  lemma ApplyTrace(m: Material, s: Scene, w: World)
    requires Ordered(m.params)
    ensures var r := Apply(m, s, w);
      r.Ok? ==>
        && |r.value.trace| > 0 && r.value.trace[0] == UseProgram(m.program.value.glName)
        && TextureUnits(r.value.trace) == Range(0, LiveTextures(r.value.material.params))
    ensures var r := Apply(m, s, w);
      r.Ok? ==> forall i :: 0 <= i < |r.value.trace| ==> IsMaterialCall(r.value.trace[i])
  {
    if m.program.Some? {
      var p := m.program.value;
      var up := UpdateBuiltins(m.(idleUnit := 0), s, p.builtins, w);
      if up.Ok? {
        var applied := ApplyParams(p, up.value.material.params, 0);
        var trace := [UseProgram(p.glName)] + applied.trace;
        assert Apply(m, s, w).value.trace == trace;
        TextureUnitsAppend([UseProgram(p.glName)], applied.trace);
        MaterialCallsAppend([UseProgram(p.glName)], applied.trace);
        MaterialCallsMeans(trace);
      }
    }
  }

  /** Every matrix builtin of the program is set, through its uniform, to
      the matrix it names for the scene's pose and camera. */
  lemma ApplySetsMatrices(m: Material, s: Scene, w: World)
    requires Ordered(m.params)
    ensures var r := Apply(m, s, w);
      r.Ok? ==> forall n :: n in m.program.value.builtins && IsMatrixBuiltin(n) ==>
        UniformMatrix(UniformLocation(m.program.value, n), ExpectedMatrix(n, s.pose, s.camera)) in r.value.trace
  {
    if m.program.Some? {
      var p := m.program.value;
      var up := UpdateBuiltins(m.(idleUnit := 0), s, p.builtins, w);
      UpdateBuiltinsSetsMatrices(m.(idleUnit := 0), s, p.builtins, w);
      if up.Ok? {
        var u := up.value;
        var applied := ApplyParams(p, u.material.params, 0);
        ApplyParamsSetsMatrices(p, u.material.params, 0);
        var trace := [UseProgram(p.glName)] + applied.trace;
        assert Apply(m, s, w).value.trace == trace;
        forall n | n in p.builtins && IsMatrixBuiltin(n)
          ensures UniformMatrix(UniformLocation(p, n), ExpectedMatrix(n, s.pose, s.camera)) in trace
        {
          LookupIndex(u.material.params, n);
        }
      }
    }
  }

  /** Every parameter the applied material holds reaches the program: a
      float through its uniform, and a texture by binding it to the unit
      after those of the textures before it in key order and pointing its
      sampler uniform there. */
  lemma ApplySetsParams(m: Material, s: Scene, w: World)
    requires Ordered(m.params)
    ensures var r := Apply(m, s, w);
      r.Ok? ==> var ps := r.value.material.params;
        forall i :: 0 <= i < |ps| && ps[i].value.FloatParam? ==>
          UniformFloat(UniformLocation(m.program.value, ps[i].name), ps[i].value.f) in r.value.trace
    ensures var r := Apply(m, s, w);
      r.Ok? ==> var ps := r.value.material.params;
        forall i :: 0 <= i < |ps| && Live(ps[i]) == 1 ==>
          exists k :: CallsAt(r.value.trace, k, BindCalls(m.program.value, ps[i].name, ps[i].value.texture.value, UnitFor(ps, i, 0)))
  {
    if m.program.Some? {
      var p := m.program.value;
      var up := UpdateBuiltins(m.(idleUnit := 0), s, p.builtins, w);
      if up.Ok? {
        var ps := up.value.material.params;
        var applied := ApplyParams(p, ps, 0);
        var trace := [UseProgram(p.glName)] + applied.trace;
        assert Apply(m, s, w).value.trace == trace;
        assert Apply(m, s, w).value.material.params == ps;
        ApplyParamsSetsFloats(p, ps, 0);
        forall i | 0 <= i < |ps| && Live(ps[i]) == 1
          ensures exists k :: CallsAt(trace, k, BindCalls(p, ps[i].name, ps[i].value.texture.value, UnitFor(ps, i, 0)))
        {
          var run := BindCalls(p, ps[i].name, ps[i].value.texture.value, UnitFor(ps, i, 0));
          ApplyParamsBindsTexture(p, ps, 0, i);
          var k :| CallsAt(applied.trace, k, run);
          CallsAtShift([UseProgram(p.glName)], applied.trace, k, run);
        }
      }
    }
  }

  /** A name found by Lookup is held by some entry of the store. */
  lemma {:induction false} LookupIndex(ps: seq<Entry>, name: string)
    ensures Lookup(ps, name).Some? ==>
      exists i :: 0 <= i < |ps| && ps[i].name == name && ps[i].value == Lookup(ps, name).value
    decreases |ps|
  {
    if |ps| > 0 && ps[0].name != name {
      LookupIndex(ps[1..], name);
      if Lookup(ps, name).Some? {
        var i :| 0 <= i < |ps[1..]| && ps[1..][i].name == name && ps[1..][i].value == Lookup(ps, name).value;
        assert ps[i + 1] == ps[1..][i];
      }
    } else if |ps| > 0 {
      assert ps[0].name == name;
    }
  }

  /** Apply starts from unit 0 whatever unit the last Apply ended on, so
      applying the same material to the same scene always hands out the
      same units and makes the same calls. */
  lemma ApplyForgetsUnit(m: Material, s: Scene, w: World, u1: int, u2: int)
    requires Ordered(m.params)
    ensures Apply(m.(idleUnit := u1), s, w) == Apply(m.(idleUnit := u2), s, w)
  {
    assert m.(idleUnit := u1).(idleUnit := 0) == m.(idleUnit := u2).(idleUnit := 0);
  }

  /** The world-view and world-view-projection uniforms carry the view
      (or view-projection) on the left and the world matrix on the right. */
  lemma BuiltinOperandOrder(m: Material, s: Scene, w: World)
    requires Ordered(m.params) && m.program.Some?
    requires "matWorldView" in m.program.value.builtins && "matWVP" in m.program.value.builtins
    ensures var r := Apply(m, s, w);
      r.Ok? ==>
        && UniformMatrix(UniformLocation(m.program.value, "matWorldView"),
                         Product(CurrentView(s.camera), CurrentTransform(s.pose))) in r.value.trace
        && UniformMatrix(UniformLocation(m.program.value, "matWVP"),
                         Product(CurrentViewProjection(s.camera), CurrentTransform(s.pose))) in r.value.trace
  {
    ApplySetsMatrices(m, s, w);
  }
}
