/** Shader programs after linking: the name-keyed tables of active
    attributes and uniforms, and the builtin uniforms the material refreshes
    on every apply (render3d.cpp:56-205, render3d.h:25-58). Compiling and
    linking happen outside the model; their outcome is a `Reflection`. */
module Programs {
  import opened Base

  /** An active attribute or uniform as reflection reports it; Attrib and
      Uniform have the same four fields (render3d.h:25-38). */
  datatype Active = Active(name: string, location: int, size: int, glType: nat)

  /** What a successful link reports, in reflection index order. */
  datatype Reflection = Reflection(attribs: seq<Active>, uniforms: seq<Active>)

  /** A linked program (render3d.h:54-57). */
  datatype Program = Program(
    glName: nat,
    attribs: map<string, Active>,
    uniforms: map<string, Active>,
    builtins: seq<string>)

  /** The uniforms the material fills in itself, in registry order
      (render3d.cpp:58-71). */
  const BuiltinRegistry: seq<string> := [
    "matWorld", "matView", "matProjection", "matWorldView", "matViewProjection", "matWVP",
    "diffuseEnvMap", "specularEnvMap", "iblBrdfLutMap", "iblDiffuseEnvMap", "iblSpecularEnvMap"]

  /** The last reflected variable with the given name: the one a
      name-keyed map keeps when names repeat. */
  function LastNamed(vars: seq<Active>, name: string): (r: Option<Active>)
    ensures r.Some? <==> exists i :: 0 <= i < |vars| && vars[i].name == name
    ensures r.Some? ==> r.value in vars && r.value.name == name
  {
    if |vars| == 0 then None
    else if vars[|vars| - 1].name == name then Some(vars[|vars| - 1])
    else
      var r := LastNamed(vars[..|vars| - 1], name);
      assert forall i :: 0 <= i < |vars| - 1 ==> vars[..|vars| - 1][i] == vars[i];
      r
  }

  /** The map the reflection loop builds, assigning each variable under its
      name in index order (render3d.cpp:133-160). */
  function IndexByName(vars: seq<Active>): (m: map<string, Active>)
  {
    if |vars| == 0 then map[]
    else IndexByName(vars[..|vars| - 1])[vars[|vars| - 1].name := vars[|vars| - 1]]
  }

  /** The map holds exactly the reflected names, each bound to the last
      variable reported under it. */
  lemma {:induction false} IndexByNameIsLastWins(vars: seq<Active>, name: string)
    ensures name in IndexByName(vars) <==> LastNamed(vars, name).Some?
    ensures name in IndexByName(vars) ==> IndexByName(vars)[name] == LastNamed(vars, name).value
    decreases |vars|
  {
    if |vars| > 0 {
      IndexByNameIsLastWins(vars[..|vars| - 1], name);
    }
  }

  /** The builtin uniform names among the reflected uniforms, in reflection
      order (render3d.cpp:162-167). */
  function FilterBuiltins(uniforms: seq<Active>): (names: seq<string>)
    ensures forall n :: n in names <==> n in BuiltinRegistry && exists i :: 0 <= i < |uniforms| && uniforms[i].name == n
    ensures |names| <= |uniforms|
  {
    if |uniforms| == 0 then []
    else
      var front := FilterBuiltins(uniforms[..|uniforms| - 1]);
      assert forall i :: 0 <= i < |uniforms| - 1 ==> uniforms[..|uniforms| - 1][i] == uniforms[i];
      var u := uniforms[|uniforms| - 1];
      if u.name in BuiltinRegistry then front + [u.name] else front
  }

  /** Program::LoadAndCompile after a successful link (render3d.cpp:129-171). */
  function Link(glName: nat, refl: Reflection): (p: Program)
    ensures p.glName == glName
    ensures forall b :: b in p.builtins ==> b in p.uniforms && b in BuiltinRegistry
  {
    var p := Program(glName, IndexByName(refl.attribs), IndexByName(refl.uniforms), FilterBuiltins(refl.uniforms));
    assert forall b :: b in p.builtins ==> b in p.uniforms by {
      forall b | b in p.builtins
        ensures b in p.uniforms
      {
        IndexByNameIsLastWins(refl.uniforms, b);
      }
    }
    p
  }

  /** Program::GetAttribLocation (render3d.cpp:179-191): -1 on a miss. */
  function AttribLocation(p: Program, name: string): (loc: int)
    ensures name !in p.attribs ==> loc == -1
    ensures name in p.attribs ==> loc == p.attribs[name].location
  {
    if name in p.attribs then p.attribs[name].location else -1
  }

  /** Program::GetUniformLocation (render3d.cpp:193-205): -1 on a miss. */
  function UniformLocation(p: Program, name: string): (loc: int)
    ensures name !in p.uniforms ==> loc == -1
    ensures name in p.uniforms ==> loc == p.uniforms[name].location
  {
    if name in p.uniforms then p.uniforms[name].location else -1
  }

  /** Looking a name up in a linked program gives the location of the last
      variable reflection reported under that name, or -1 if none was. */
  lemma LookupAfterLink(glName: nat, refl: Reflection, name: string)
    ensures AttribLocation(Link(glName, refl), name)
         == (match LastNamed(refl.attribs, name) case Some(v) => v.location case None => -1)
    ensures UniformLocation(Link(glName, refl), name)
         == (match LastNamed(refl.uniforms, name) case Some(v) => v.location case None => -1)
  {
    IndexByNameIsLastWins(refl.attribs, name);
    IndexByNameIsLastWins(refl.uniforms, name);
  }
}
