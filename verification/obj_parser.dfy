/** ObjMeshParser::Parse (render3d.cpp:518-648): the OBJ-style mesh text is
    split into lines, each line is classified by its leading characters, and
    a run over the lines accumulates positions, texcoords, normals and
    faces, cutting a submesh at every `usemtl` that has faces pending and
    once more at the end. Number parsing (sscanf) is not modelled: a
    `Scanner` supplies what sscanf would read from a line. */
module ObjParser {
  import opened Base
  import opened Geometry

  predicate IsNewline(c: char)
  {
    c == '\n' || c == '\r'
  }

  // ---------------------------------------------------------------------
  // First pass over the buffer (render3d.cpp:526-542)

  function PreparedChar(c: char): char
  {
    if IsNewline(c) then NUL else if c == '/' then ' ' else c
  }

  /** The buffer after the first pass: each newline byte is overwritten with
      a NUL terminator and each '/' with a space. */
  function Prepare(text: string): (buf: string)
    ensures |buf| == |text|
    ensures '/' !in buf
    ensures forall i :: 0 <= i < |text| && IsNewline(text[i]) ==> buf[i] == NUL
    ensures forall i :: 0 <= i < |text| && !IsNewline(text[i]) && text[i] != '/' ==> buf[i] == text[i]
  {
    seq(|text|, i requires 0 <= i < |text| => PreparedChar(text[i]))
  }

  /** k starts a line: it is offset 0, or it follows a newline byte that is
      not the last byte of the text. */
  predicate IsLineStart(text: string, k: nat)
  {
    k == 0 || (0 < k < |text| && IsNewline(text[k - 1]))
  }

  /** The line starts found among the first n bytes, in increasing order,
      as the source's loop collects them. */
  function StartsUpTo(text: string, n: nat): (starts: seq<nat>)
    requires n <= |text|
    ensures |starts| > 0 && starts[0] == 0
    ensures forall i, j :: 0 <= i < j < |starts| ==> starts[i] < starts[j]
    ensures forall i :: 0 <= i < |starts| ==> starts[i] <= n
    ensures forall k: nat :: k in starts <==> (k == 0 || (k <= n && IsLineStart(text, k)))
  {
    if n == 0 then [0]
    else
      var front := StartsUpTo(text, n - 1);
      if IsNewline(text[n - 1]) && n < |text| then front + [n] else front
  }

  /** Every line start of the text, in increasing order. */
  function LineStarts(text: string): (starts: seq<nat>)
    ensures |starts| > 0 && starts[0] == 0
    ensures forall i, j :: 0 <= i < j < |starts| ==> starts[i] < starts[j]
    ensures forall i :: 0 <= i < |starts| ==> starts[i] <= |text|
    ensures forall k: nat :: k in starts <==> IsLineStart(text, k)
  {
    StartsUpTo(text, |text|)
  }

  // ---------------------------------------------------------------------
  // Classification by leading characters (render3d.cpp:549-627)

  datatype LineKind = PositionLine | TexcoordLine | NormalLine | FaceLine | UseMtlLine | OtherLine

  /** The kind of the line at offset s, tested character by character as the
      source does; a test never reads past a terminator, so reads beyond the
      buffer see the string's final NUL. */
  function Classify(buf: string, s: nat): (kind: LineKind)
    ensures kind == PositionLine <==> HasPrefixAt(buf, s, "v ")
    ensures kind == TexcoordLine <==> HasPrefixAt(buf, s, "vt")
    ensures kind == NormalLine <==> HasPrefixAt(buf, s, "vn")
    ensures kind == FaceLine <==> HasPrefixAt(buf, s, "f ")
    ensures kind == UseMtlLine <==> HasPrefixAt(buf, s, "usemtl")
  {
    if CharAt(buf, s) == 'v' then
      if CharAt(buf, s + 1) == ' ' then PositionLine
      else if CharAt(buf, s + 1) == 't' then TexcoordLine
      else if CharAt(buf, s + 1) == 'n' then NormalLine
      else OtherLine
    else if CharAt(buf, s) == 'f' && CharAt(buf, s + 1) == ' ' then FaceLine
    else if CharAt(buf, s) == 'u' && CharAt(buf, s + 1) == 's' && CharAt(buf, s + 2) == 'e'
         && CharAt(buf, s + 3) == 'm' && CharAt(buf, s + 4) == 't' && CharAt(buf, s + 5) == 'l'
    then UseMtlLine
    else OtherLine
  }

  /** What sscanf would read from a line, supplied from outside: the vectors
      of `v`, `vt` and `vn` lines, the integers of a face line in order
      (fewer than asked for when the line is short), and for each line index
      the indeterminate contents of the uninitialised ObjTri the source
      declares before scanning a face. */
  datatype Scanner = Scanner(
    vec3: string -> Vec3,
    vec2: string -> Vec2,
    ints: string -> seq<int>,
    junk: nat -> ObjTri)

  /** A classified line with what sscanf read from it. A `usemtl` name is
      absent when reading it would run past the buffer's terminator. */
  datatype Line =
    | PositionOf(p: Vec3)
    | TexcoordOf(t: Vec2)
    | NormalOf(n: Vec3)
    | FaceOf(ints: seq<int>, junk: ObjTri)
    | UseMtlOf(name: Option<string>)
    | Skipped

  function LineAt(buf: string, s: nat, index: nat, sc: Scanner): (line: Line)
    requires s <= |buf|
    ensures line.UseMtlOf? <==> HasPrefixAt(buf, s, "usemtl")
    ensures line.FaceOf? <==> HasPrefixAt(buf, s, "f ")
    ensures line.UseMtlOf? && s + 7 <= |buf| ==> line.name == Some(CStringAt(buf, s + 7))
  {
    match Classify(buf, s)
    case PositionLine => PositionOf(sc.vec3(CStringAt(buf, s)))
    case TexcoordLine => TexcoordOf(sc.vec2(CStringAt(buf, s)))
    case NormalLine => NormalOf(sc.vec3(CStringAt(buf, s)))
    case FaceLine => FaceOf(sc.ints(CStringAt(buf, s)), sc.junk(index))
    case UseMtlLine =>
      // the name is the C string at offset 7 (render3d.cpp:626); when the
      // buffer ends right after "usemtl" that offset is past the terminator
      if s + 7 <= |buf| then UseMtlOf(Some(CStringAt(buf, s + 7))) else UseMtlOf(None)
    case OtherLine => Skipped
  }

  /** The text's lines, one per line start, read from the prepared buffer. */
  function Lines(text: string, sc: Scanner): (lines: seq<Line>)
    ensures |lines| == |LineStarts(text)|
  {
    var buf := Prepare(text);
    var starts := LineStarts(text);
    seq(|starts|, i requires 0 <= i < |starts| => LineAt(buf, starts[i], i, sc))
  }

  // ---------------------------------------------------------------------
  // Faces (render3d.cpp:571-606)

  /** The four face record shapes, chosen by which of the texcoord and
      normal lists are non-empty when the face line is reached. */
  datatype Shape = VTN | VT | VN | VOnly

  function ShapeFor(hasTexcoords: bool, hasNormals: bool): Shape
  {
    if hasTexcoords && hasNormals then VTN
    else if hasTexcoords then VT
    else if hasNormals then VN
    else VOnly
  }

  /** The ObjTri slots sscanf fills, in the order of its format string. */
  function ReadSlots(shape: Shape): (slots: seq<nat>)
    ensures forall j :: 0 <= j < |slots| ==> slots[j] < 9
  {
    match shape
    case VTN => [0, 1, 2, 3, 4, 5, 6, 7, 8]
    case VT => [0, 1, 3, 4, 6, 7]
    case VN => [0, 2, 3, 5, 6, 8]
    case VOnly => [0, 3, 6]
  }

  function Pick(ints: seq<int>, j: nat, otherwise: int): int
  {
    if j < |ints| then ints[j] else otherwise
  }

  /** The triangle after sscanf: the j-th integer read lands in the j-th slot
      of the shape; slots sscanf did not reach keep the junk. */
  function ReadFace(shape: Shape, ints: seq<int>, junk: ObjTri): (tri: ObjTri)
    ensures forall j :: 0 <= j < |ReadSlots(shape)| ==>
      Fields(tri)[ReadSlots(shape)[j]] == Pick(ints, j, Fields(junk)[ReadSlots(shape)[j]])
    ensures forall f :: 0 <= f < 9 && f !in ReadSlots(shape) ==> Fields(tri)[f] == Fields(junk)[f]
  {
    match shape
    case VTN =>
      ObjTri(Pick(ints, 0, junk.v0), Pick(ints, 1, junk.t0), Pick(ints, 2, junk.n0),
             Pick(ints, 3, junk.v1), Pick(ints, 4, junk.t1), Pick(ints, 5, junk.n1),
             Pick(ints, 6, junk.v2), Pick(ints, 7, junk.t2), Pick(ints, 8, junk.n2))
    case VT =>
      ObjTri(Pick(ints, 0, junk.v0), Pick(ints, 1, junk.t0), junk.n0,
             Pick(ints, 2, junk.v1), Pick(ints, 3, junk.t1), junk.n1,
             Pick(ints, 4, junk.v2), Pick(ints, 5, junk.t2), junk.n2)
    case VN =>
      ObjTri(Pick(ints, 0, junk.v0), junk.t0, Pick(ints, 1, junk.n0),
             Pick(ints, 2, junk.v1), junk.t1, Pick(ints, 3, junk.n1),
             Pick(ints, 4, junk.v2), junk.t2, Pick(ints, 5, junk.n2))
    case VOnly =>
      ObjTri(Pick(ints, 0, junk.v0), junk.t0, junk.n0,
             Pick(ints, 1, junk.v1), junk.t1, junk.n1,
             Pick(ints, 2, junk.v2), junk.t2, junk.n2)
  }

  /** Whether the face stops the parse. `AsWritten` is the source's test for
      each shape, field for field (render3d.cpp:578, 585, 592, 599);
      `Intended` rejects any slot sscanf wrote that is not a valid 1-based
      index. */
  predicate Rejects(policy: Policy, shape: Shape, tri: ObjTri)
  {
    match policy
    case AsWritten =>
      (match shape
       case VTN => tri.v0 < 0 || tri.v1 < 0 || tri.t0 < 0 || tri.t1 < 0 || tri.t2 < 0
                   || tri.n0 < 0 || tri.n1 < 0 || tri.n2 < 0
       case VT => tri.v0 < 0 || tri.v1 < 0 || tri.v2 < 0 || tri.t0 < 0 || tri.t1 < 0 || tri.t2 < 0
       case VN => tri.v0 < 0 || tri.v1 < 0 || tri.v2 < 0 || tri.t0 < 0 || tri.t1 < 0 || tri.t2 < 0
       case VOnly => tri.v0 < 0 || tri.v1 < 0 || tri.v2 < 0)
    case Intended =>
      exists j :: 0 <= j < |ReadSlots(shape)| && Fields(tri)[ReadSlots(shape)[j]] < 1
  }

  // ---------------------------------------------------------------------
  // The run over the lines

  datatype ParseState = ParseState(
    positions: seq<Vec3>,
    texcoords: seq<Vec2>,
    normals: seq<Vec3>,
    triangles: seq<ObjTri>,      // faces since the last submesh was cut, 1-based
    names: seq<string>,          // material names recorded so far
    submeshes: seq<VertexArrays>) // submeshes appended to the mesh so far

  const Initial := ParseState([], [], [], [], [], [])

  /** How a parse ends. `Rejected` is the negative-index abort: the caller
      sees success == false and no names, while the submeshes already
      appended stay on the mesh the caller then deletes. `Undefined` means
      the source left defined behaviour (an out-of-range or null access). */
  datatype ParseOutcome =
    | Parsed(names: seq<string>, submeshes: seq<VertexArrays>)
    | Rejected(emitted: seq<VertexArrays>)
    | Undefined(reason: string)

  datatype Progress = Going(state: ParseState) | Stopped(outcome: ParseOutcome)

  /** The shape the next face line will be read with. */
  function ShapeNow(st: ParseState): Shape
  {
    ShapeFor(|st.texcoords| > 0, |st.normals| > 0)
  }

  /** One loop iteration of Parse. */
  function Step(st: ParseState, line: Line, policy: Policy, exportTriangles: bool): (r: Progress)
    ensures r.Stopped? ==> !r.outcome.Parsed? && (line.FaceOf? || line.UseMtlOf?)
    ensures (r.Stopped? && r.outcome.Rejected?)
        <==> (line.FaceOf? && Rejects(policy, ShapeNow(st), ReadFace(ShapeNow(st), line.ints, line.junk)))
    ensures r.Stopped? && r.outcome.Rejected? ==> r.outcome.emitted == st.submeshes
  {
    match line
    case PositionOf(p) => Going(st.(positions := st.positions + [p]))
    case TexcoordOf(t) => Going(st.(texcoords := st.texcoords + [t]))
    case NormalOf(n) => Going(st.(normals := st.normals + [n]))
    case FaceOf(ints, junk) =>
      var tri := ReadFace(ShapeNow(st), ints, junk);
      if Rejects(policy, ShapeNow(st), tri) then Stopped(Rejected(st.submeshes))
      else Going(st.(triangles := st.triangles + [tri]))
    case UseMtlOf(name) =>
      if |st.triangles| > 0 then
        match GenerateSubMesh(st.positions, st.texcoords, st.normals, st.triangles, exportTriangles, policy)
        case Fault(why) => Stopped(Undefined(why))
        case Ok(sub) =>
          if name.None? then Stopped(Undefined("usemtl name read past the end of the buffer"))
          else Going(st.(submeshes := st.submeshes + [sub], triangles := [], names := st.names + [name.value]))
      else if name.None? then Stopped(Undefined("usemtl name read past the end of the buffer"))
      else Going(st.(names := st.names + [name.value]))
    case Skipped => Going(st)
  }

  function Steps(lines: seq<Line>, st: ParseState, policy: Policy, exportTriangles: bool): (r: Progress)
    ensures r.Stopped? ==> !r.outcome.Parsed?
    decreases |lines|
  {
    if |lines| == 0 then Going(st)
    else match Step(st, lines[0], policy, exportTriangles)
      case Stopped(o) => Stopped(o)
      case Going(next) => Steps(lines[1..], next, policy, exportTriangles)
  }

  /** After the last line: the pending faces, possibly none, become the final
      submesh (render3d.cpp:638-647). */
  function Finish(st: ParseState, policy: Policy, exportTriangles: bool): (r: ParseOutcome)
    ensures r.Parsed? || r.Undefined?
    ensures r.Parsed? ==> r.names == st.names && |r.submeshes| == |st.submeshes| + 1 && r.submeshes[..|st.submeshes|] == st.submeshes
    ensures r.Parsed? ==> r.submeshes[|st.submeshes|].vertexCount == 3 * |st.triangles|
  {
    match GenerateSubMesh(st.positions, st.texcoords, st.normals, st.triangles, exportTriangles, policy)
    case Fault(why) => Undefined(why)
    case Ok(sub) => Parsed(st.names, st.submeshes + [sub])
  }

  function Run(lines: seq<Line>, policy: Policy, exportTriangles: bool): (r: ParseOutcome)
    ensures r.Parsed? ==> |r.submeshes| >= 1
  {
    match Steps(lines, Initial, policy, exportTriangles)
    case Stopped(o) => o
    case Going(st) => Finish(st, policy, exportTriangles)
  }

  /** ObjMeshParser::Parse on the whole text. */
  function Parse(text: string, sc: Scanner, policy: Policy, exportTriangles: bool): (r: ParseOutcome)
    ensures r.Parsed? ==> |r.submeshes| >= 1
    ensures !r.Parsed? ==> !Succeeded(r) && MaterialNames(r) == []
  {
    Run(Lines(text, sc), policy, exportTriangles)
  }

  /** The `*succ` flag the caller receives. */
  function Succeeded(o: ParseOutcome): bool
  {
    o.Parsed?
  }

  /** The returned vector of material names: cleared on the abort. */
  function MaterialNames(o: ParseOutcome): seq<string>
  {
    if o.Parsed? then o.names else []
  }
}
