/** The graphics calls the model records instead of making them. Only the
    calls whose order or arguments a property speaks about are recorded;
    state toggles such as blending and depth writes are not. */
module Gl {
  import opened Base

  datatype TextureKind = Texture2D | TextureCube

  datatype Attribute = PositionAttr | TexcoordAttr | NormalAttr

  /** Where a submesh's draw came from: the mesh's handle in the renderer
      and the submesh's index in it. */
  datatype DrawSite = DrawSite(mesh: nat, submesh: nat)

  datatype GlCall =
    | UseProgram(program: nat)
    | ActiveTexture(unit: int)
    | BindTexture(kind: TextureKind, texture: nat)
    | UniformInt(location: int, value: int)
    | UniformFloat(location: int, f: Float)
    | UniformMatrix(location: int, m: Matrix)
    | GenVertexArray(vao: nat)
    | BindVertexArray(vao: nat)
    | UploadBuffer(buffer: nat, attribute: Attribute, dynamic: bool, vertexCount: nat)
    | UpdateBuffer(buffer: nat, vertexCount: nat)
    | Draw(site: DrawSite, vertexCount: nat)

  /** The calls a material makes when applied: program, texture and
      uniform calls, never vertex state or draws. */
  predicate IsMaterialCall(c: GlCall)
  {
    c.UseProgram? || c.ActiveTexture? || c.BindTexture? || c.UniformInt? || c.UniformFloat? || c.UniformMatrix?
  }

  /** Every call of the trace is a material call. */
  predicate MaterialCalls(trace: seq<GlCall>)
    decreases |trace|
  {
    |trace| == 0 || (IsMaterialCall(trace[0]) && MaterialCalls(trace[1..]))
  }

  lemma {:induction false} MaterialCallsMeans(trace: seq<GlCall>)
    ensures MaterialCalls(trace) <==> forall i :: 0 <= i < |trace| ==> IsMaterialCall(trace[i])
    decreases |trace|
  {
    if |trace| > 0 {
      MaterialCallsMeans(trace[1..]);
      assert forall i :: 1 <= i < |trace| ==> trace[i] == trace[1..][i - 1];
    }
  }

  lemma {:induction false} MaterialCallsAppend(a: seq<GlCall>, b: seq<GlCall>)
    requires MaterialCalls(a) && MaterialCalls(b)
    ensures MaterialCalls(a + b)
    decreases |a|
  {
    if |a| > 0 {
      MaterialCallsAppend(a[1..], b);
      assert (a + b)[1..] == a[1..] + b;
    } else {
      assert a + b == b;
    }
  }

  /** A trace of material calls neither draws nor uploads. */
  lemma {:induction false} MaterialCallsOnly(trace: seq<GlCall>)
    requires MaterialCalls(trace)
    ensures Draws(trace) == [] && Uploads(trace) == [] && CreatedVaos(trace) == []
    decreases |trace|
  {
    if |trace| > 0 {
      MaterialCallsOnly(trace[1..]);
    }
  }

  /** The calls `run` appear in the trace, one after the other, from
      position k on. */
  predicate CallsAt(trace: seq<GlCall>, k: int, run: seq<GlCall>)
  {
    0 <= k <= |trace| && |run| <= |trace[k..]| && trace[k..][..|run|] == run
  }

  /** A run found in a trace is found in any trace that extends it on
      either side. */
  lemma CallsAtShift(before: seq<GlCall>, trace: seq<GlCall>, k: int, run: seq<GlCall>)
    requires CallsAt(trace, k, run)
    ensures CallsAt(before + trace, |before| + k, run)
  {
    assert (before + trace)[|before| + k..] == trace[k..];
  }

  /** The units of the ActiveTexture calls of a trace, in order. */
  function TextureUnits(trace: seq<GlCall>): (units: seq<int>)
    ensures |units| <= |trace|
  {
    if |trace| == 0 then []
    else (if trace[0].ActiveTexture? then [trace[0].unit] else []) + TextureUnits(trace[1..])
  }

  /** The draw sites of a trace, in order. */
  function Draws(trace: seq<GlCall>): (sites: seq<DrawSite>)
    ensures |sites| <= |trace|
  {
    if |trace| == 0 then []
    else (if trace[0].Draw? then [trace[0].site] else []) + Draws(trace[1..])
  }

  /** The buffers a trace uploads vertex data into, in order. */
  function Uploads(trace: seq<GlCall>): (buffers: seq<nat>)
    ensures |buffers| <= |trace|
  {
    if |trace| == 0 then []
    else (if trace[0].UploadBuffer? then [trace[0].buffer] else []) + Uploads(trace[1..])
  }

  /** The vertex array objects a trace creates, in order. */
  function CreatedVaos(trace: seq<GlCall>): (vaos: seq<nat>)
    ensures |vaos| <= |trace|
  {
    if |trace| == 0 then []
    else (if trace[0].GenVertexArray? then [trace[0].vao] else []) + CreatedVaos(trace[1..])
  }

  lemma {:induction false} TextureUnitsAppend(a: seq<GlCall>, b: seq<GlCall>)
    ensures TextureUnits(a + b) == TextureUnits(a) + TextureUnits(b)
    decreases |a|
  {
    if |a| == 0 {
      assert a + b == b;
    } else {
      assert (a + b)[0] == a[0] && (a + b)[1..] == a[1..] + b;
      TextureUnitsAppend(a[1..], b);
      var head := if a[0].ActiveTexture? then [a[0].unit] else [];
      assert TextureUnits(a + b) == head + (TextureUnits(a[1..]) + TextureUnits(b));
      assert head + (TextureUnits(a[1..]) + TextureUnits(b)) == (head + TextureUnits(a[1..])) + TextureUnits(b);
    }
  }

  lemma {:induction false} DrawsAppend(a: seq<GlCall>, b: seq<GlCall>)
    ensures Draws(a + b) == Draws(a) + Draws(b)
    decreases |a|
  {
    if |a| == 0 {
      assert a + b == b;
    } else {
      assert (a + b)[0] == a[0] && (a + b)[1..] == a[1..] + b;
      DrawsAppend(a[1..], b);
      var head := if a[0].Draw? then [a[0].site] else [];
      assert Draws(a + b) == head + (Draws(a[1..]) + Draws(b));
      assert head + (Draws(a[1..]) + Draws(b)) == (head + Draws(a[1..])) + Draws(b);
    }
  }

  lemma {:induction false} UploadsAppend(a: seq<GlCall>, b: seq<GlCall>)
    ensures Uploads(a + b) == Uploads(a) + Uploads(b)
    decreases |a|
  {
    if |a| == 0 {
      assert a + b == b;
    } else {
      assert (a + b)[0] == a[0] && (a + b)[1..] == a[1..] + b;
      UploadsAppend(a[1..], b);
      var head := if a[0].UploadBuffer? then [a[0].buffer] else [];
      assert Uploads(a + b) == head + (Uploads(a[1..]) + Uploads(b));
      assert head + (Uploads(a[1..]) + Uploads(b)) == (head + Uploads(a[1..])) + Uploads(b);
    }
  }

  lemma {:induction false} CreatedVaosAppend(a: seq<GlCall>, b: seq<GlCall>)
    ensures CreatedVaos(a + b) == CreatedVaos(a) + CreatedVaos(b)
    decreases |a|
  {
    if |a| == 0 {
      assert a + b == b;
    } else {
      assert (a + b)[0] == a[0] && (a + b)[1..] == a[1..] + b;
      CreatedVaosAppend(a[1..], b);
      var head := if a[0].GenVertexArray? then [a[0].vao] else [];
      assert CreatedVaos(a + b) == head + (CreatedVaos(a[1..]) + CreatedVaos(b));
      assert head + (CreatedVaos(a[1..]) + CreatedVaos(b)) == (head + CreatedVaos(a[1..])) + CreatedVaos(b);
    }
  }
}
