/** What ObjMeshParser::Parse computes, stated against reference counts over
    the classified lines: names, submesh cuts, vertices, the abort on a
    rejected face, and the defects of the face checks. */
module ParserFacts {
  import opened Base
  import opened Geometry
  import opened ObjParser

  // ---------------------------------------------------------------------
  // Reference counts over the lines

  function FaceCount(lines: seq<Line>): nat
  {
    if |lines| == 0 then 0 else (if lines[0].FaceOf? then 1 else 0) + FaceCount(lines[1..])
  }

  function UseMtlCount(lines: seq<Line>): nat
  {
    if |lines| == 0 then 0 else (if lines[0].UseMtlOf? then 1 else 0) + UseMtlCount(lines[1..])
  }

  /** The names of the usemtl lines, in order. */
  function UseMtlNames(lines: seq<Line>): seq<string>
  {
    if |lines| == 0 then []
    else if lines[0].UseMtlOf? && lines[0].name.Some? then [lines[0].name.value] + UseMtlNames(lines[1..])
    else UseMtlNames(lines[1..])
  }

  /** Every usemtl line has a readable name. */
  predicate Named(lines: seq<Line>)
  {
    forall i :: 0 <= i < |lines| && lines[i].UseMtlOf? ==> lines[i].name.Some?
  }

  /** How many usemtl lines find faces pending: those that follow a face
      with no usemtl in between. `pending` says whether faces are pending
      before the first line. */
  function Closings(lines: seq<Line>, pending: bool): nat
  {
    if |lines| == 0 then 0
    else match lines[0]
      case FaceOf(_, _) => Closings(lines[1..], true)
      case UseMtlOf(_) => (if pending then 1 else 0) + Closings(lines[1..], false)
      case _ => Closings(lines[1..], pending)
  }

  /** Whether faces are pending after the lines. */
  function PendingAfter(lines: seq<Line>, pending: bool): bool
  {
    if |lines| == 0 then pending
    else match lines[0]
      case FaceOf(_, _) => PendingAfter(lines[1..], true)
      case UseMtlOf(_) => PendingAfter(lines[1..], false)
      case _ => PendingAfter(lines[1..], pending)
  }

  lemma TotalVerticesAppend(subs: seq<VertexArrays>, s: VertexArrays)
    ensures TotalVertices(subs + [s]) == TotalVertices(subs) + s.vertexCount
  {
    assert (subs + [s])[..|subs|] == subs;
  }

  lemma {:induction false} NamedTail(lines: seq<Line>)
    requires |lines| > 0 && Named(lines)
    ensures Named(lines[1..])
  {
    forall i | 0 <= i < |lines[1..]| && lines[1..][i].UseMtlOf?
      ensures lines[1..][i].name.Some?
    {
      assert lines[1..][i] == lines[i + 1];
    }
  }

  lemma NamedCons(lines: seq<Line>)
    requires |lines| > 0 && Named(lines[1..]) && (lines[0].UseMtlOf? ==> lines[0].name.Some?)
    ensures Named(lines)
  {
    forall i | 0 <= i < |lines| && lines[i].UseMtlOf?
      ensures lines[i].name.Some?
    {
      if i > 0 {
        assert lines[1..][i - 1] == lines[i];
      }
    }
  }

  lemma {:induction false} NamedCount(lines: seq<Line>)
    requires Named(lines)
    ensures |UseMtlNames(lines)| == UseMtlCount(lines)
    decreases |lines|
  {
    if |lines| > 0 {
      NamedTail(lines);
      NamedCount(lines[1..]);
      assert lines[0].UseMtlOf? ==> lines[0].name.Some?;
    }
  }

  // ---------------------------------------------------------------------
  // The run, line by line

  /** Running a + b is running a, then b from where a left off. */
  lemma {:induction false} StepsAppend(a: seq<Line>, b: seq<Line>, st: ParseState, policy: Policy, e: bool)
    ensures Steps(a + b, st, policy, e) ==
      (match Steps(a, st, policy, e)
       case Stopped(o) => Stopped(o)
       case Going(mid) => Steps(b, mid, policy, e))
    decreases |a|
  {
    if |a| > 0 {
      assert (a + b)[0] == a[0];
      assert (a + b)[1..] == a[1..] + b;
      match Step(st, a[0], policy, e)
      case Stopped(o) =>
      case Going(next) => StepsAppend(a[1..], b, next, policy, e);
    } else {
      assert a + b == b;
    }
  }

  /** One line's effect on the names: a usemtl line that does not stop the
      run appends its name, any other line leaves them. */
  lemma StepNames(st: ParseState, line: Line, policy: Policy, e: bool)
    requires Step(st, line, policy, e).Going?
    ensures var next := Step(st, line, policy, e).state;
      && (line.UseMtlOf? ==> line.name.Some? && next.names == st.names + [line.name.value])
      && (!line.UseMtlOf? ==> next.names == st.names)
  {
  }

  /** A usemtl line that finds faces pending cuts one submesh of three
      vertices per face and leaves none pending. */
  lemma StepCuts(st: ParseState, line: Line, policy: Policy, e: bool)
    requires Step(st, line, policy, e).Going? && line.UseMtlOf? && |st.triangles| > 0
    ensures var next := Step(st, line, policy, e).state;
      && |next.triangles| == 0
      && |next.submeshes| == |st.submeshes| + 1
      && next.submeshes[..|st.submeshes|] == st.submeshes
      && next.submeshes[|st.submeshes|].vertexCount == 3 * |st.triangles|
  {
    var g := GenerateSubMesh(st.positions, st.texcoords, st.normals, st.triangles, e, policy);
    assert g.Ok?;
    var next := Step(st, line, policy, e).state;
    assert next.submeshes == st.submeshes + [g.value];
  }

  /** Any other line keeps the submeshes; a face joins the pending ones. */
  lemma StepKeeps(st: ParseState, line: Line, policy: Policy, e: bool)
    requires Step(st, line, policy, e).Going? && !(line.UseMtlOf? && |st.triangles| > 0)
    ensures var next := Step(st, line, policy, e).state;
      && next.submeshes == st.submeshes
      && |next.triangles| == (if line.FaceOf? then |st.triangles| + 1 else |st.triangles|)
  {
  }

  /** Steps past a line that does not stop the run. */
  lemma StepsUnfold(lines: seq<Line>, st: ParseState, policy: Policy, e: bool)
    requires |lines| > 0 && Step(st, lines[0], policy, e).Going?
    ensures Steps(lines, st, policy, e) == Steps(lines[1..], Step(st, lines[0], policy, e).state, policy, e)
  {
  }

  /** A face line that passes the check joins the pending faces. */
  lemma FaceStep(st: ParseState, ints: seq<int>, junk: ObjTri, policy: Policy, e: bool)
    requires !Rejects(policy, ShapeNow(st), ReadFace(ShapeNow(st), ints, junk))
    ensures Step(st, FaceOf(ints, junk), policy, e)
         == Going(st.(triangles := st.triangles + [ReadFace(ShapeNow(st), ints, junk)]))
  {
  }

  /** A usemtl line with a name and faces pending cuts a submesh from them. */
  lemma UseMtlStep(st: ParseState, name: string, policy: Policy, e: bool)
    requires |st.triangles| > 0
    requires GenerateSubMesh(st.positions, st.texcoords, st.normals, st.triangles, e, policy).Ok?
    ensures var sub := GenerateSubMesh(st.positions, st.texcoords, st.normals, st.triangles, e, policy).value;
      Step(st, UseMtlOf(Some(name)), policy, e)
      == Going(st.(submeshes := st.submeshes + [sub], triangles := [], names := st.names + [name]))
  {
  }

  lemma StepsGoing(lines: seq<Line>, st: ParseState, policy: Policy, e: bool)
    requires |lines| > 0 && Steps(lines, st, policy, e).Going?
    ensures Step(st, lines[0], policy, e).Going?
  {
  }

  /** A run that reaches the end of the lines met no usemtl line without a
      readable name. */
  lemma {:induction false} StepsNamed(lines: seq<Line>, st: ParseState, policy: Policy, e: bool)
    requires Steps(lines, st, policy, e).Going?
    ensures Named(lines)
    decreases |lines|
  {
    if |lines| > 0 {
      StepsGoing(lines, st, policy, e);
      StepNames(st, lines[0], policy, e);
      StepsUnfold(lines, st, policy, e);
      StepsNamed(lines[1..], Step(st, lines[0], policy, e).state, policy, e);
      NamedCons(lines);
    }
  }

  /** A run that reaches the end of the lines has read every usemtl name,
      in order. */
  lemma {:induction false} StepsNames(lines: seq<Line>, st: ParseState, policy: Policy, e: bool)
    requires Steps(lines, st, policy, e).Going?
    ensures Steps(lines, st, policy, e).state.names == st.names + UseMtlNames(lines)
    decreases |lines|
  {
    if |lines| > 0 {
      StepsGoing(lines, st, policy, e);
      var next := Step(st, lines[0], policy, e).state;
      StepNames(st, lines[0], policy, e);
      StepsUnfold(lines, st, policy, e);
      StepsNames(lines[1..], next, policy, e);
      if lines[0].UseMtlOf? {
        assert st.names + UseMtlNames(lines) == (st.names + [lines[0].name.value]) + UseMtlNames(lines[1..]);
      }
    }
  }

  /** One line's effect on the counted parts of the state. */
  lemma StepCounts(st: ParseState, line: Line, policy: Policy, e: bool)
    requires Step(st, line, policy, e).Going?
    ensures var next := Step(st, line, policy, e).state;
      && |next.submeshes| == |st.submeshes| + (if line.UseMtlOf? && |st.triangles| > 0 then 1 else 0)
      && |next.triangles| == (if line.UseMtlOf? then 0 else if line.FaceOf? then |st.triangles| + 1 else |st.triangles|)
  {
    if line.UseMtlOf? && |st.triangles| > 0 {
      StepCuts(st, line, policy, e);
    } else {
      StepKeeps(st, line, policy, e);
    }
  }

  /** A run that reaches the end of the lines keeps the submeshes it
      started with and adds one per usemtl that finds faces pending. */
  lemma {:induction false} StepsCutCount(lines: seq<Line>, st: ParseState, policy: Policy, e: bool)
    requires Steps(lines, st, policy, e).Going?
    ensures |Steps(lines, st, policy, e).state.submeshes| == |st.submeshes| + Closings(lines, |st.triangles| > 0)
    decreases |lines|
  {
    if |lines| > 0 {
      StepsGoing(lines, st, policy, e);
      var next := Step(st, lines[0], policy, e).state;
      StepCounts(st, lines[0], policy, e);
      StepsUnfold(lines, st, policy, e);
      StepsCutCount(lines[1..], next, policy, e);
    }
  }

  /** Faces are pending at the end exactly when a face follows the last
      usemtl. */
  lemma {:induction false} StepsPending(lines: seq<Line>, st: ParseState, policy: Policy, e: bool)
    requires Steps(lines, st, policy, e).Going?
    ensures |Steps(lines, st, policy, e).state.triangles| > 0 <==> PendingAfter(lines, |st.triangles| > 0)
    decreases |lines|
  {
    if |lines| > 0 {
      StepsGoing(lines, st, policy, e);
      var next := Step(st, lines[0], policy, e).state;
      StepCounts(st, lines[0], policy, e);
      StepsUnfold(lines, st, policy, e);
      StepsPending(lines[1..], next, policy, e);
    }
  }

  /** Every face of the lines is accounted for: three vertices in a cut
      submesh, or still pending. */
  lemma {:induction false} StepsVertices(lines: seq<Line>, st: ParseState, policy: Policy, e: bool)
    requires Steps(lines, st, policy, e).Going?
    ensures var fin := Steps(lines, st, policy, e).state;
      TotalVertices(fin.submeshes) + 3 * |fin.triangles|
      == TotalVertices(st.submeshes) + 3 * |st.triangles| + 3 * FaceCount(lines)
    decreases |lines|
  {
    if |lines| > 0 {
      StepsGoing(lines, st, policy, e);
      var line := lines[0];
      var next := Step(st, line, policy, e).state;
      StepsUnfold(lines, st, policy, e);
      StepsVertices(lines[1..], next, policy, e);
      if !(line.UseMtlOf? && |st.triangles| > 0) {
        StepKeeps(st, line, policy, e);
      } else {
        StepCuts(st, line, policy, e);
        var n := |st.submeshes|;
        assert next.submeshes == st.submeshes + [next.submeshes[n]];
        TotalVerticesAppend(st.submeshes, next.submeshes[n]);
      }
    }
  }

  /** A line stops the run only by rejecting a face or leaving defined
      behaviour. */
  lemma StepStopsUnparsed(st: ParseState, line: Line, policy: Policy, e: bool)
    ensures Step(st, line, policy, e).Stopped? ==> !Step(st, line, policy, e).outcome.Parsed?
  {
  }

  /** A run stops only by rejecting a face or leaving defined behaviour. */
  lemma {:induction false} StoppedNotParsed(lines: seq<Line>, st: ParseState, policy: Policy, e: bool)
    requires Steps(lines, st, policy, e).Stopped?
    ensures !Steps(lines, st, policy, e).outcome.Parsed?
    decreases |lines|
  {
    if |lines| > 0 && Step(st, lines[0], policy, e).Going? {
      StepsUnfold(lines, st, policy, e);
      StoppedNotParsed(lines[1..], Step(st, lines[0], policy, e).state, policy, e);
    } else if |lines| > 0 {
      StepStopsUnparsed(st, lines[0], policy, e);
    }
  }

  /** A successful parse: the names are those of the usemtl lines, in
      order; the submeshes are one per usemtl that found faces pending plus
      the final one; and together they hold three vertices per face. */
  lemma ParseAccount(lines: seq<Line>, policy: Policy, e: bool)
    requires Run(lines, policy, e).Parsed?
    ensures var o := Run(lines, policy, e);
      && o.names == UseMtlNames(lines)
      && |o.names| == UseMtlCount(lines)
      && |o.submeshes| == Closings(lines, false) + 1
      && TotalVertices(o.submeshes) == 3 * FaceCount(lines)
  {
    StepsNamed(lines, Initial, policy, e);
    StepsNames(lines, Initial, policy, e);
    StepsCutCount(lines, Initial, policy, e);
    StepsVertices(lines, Initial, policy, e);
    var fin := Steps(lines, Initial, policy, e).state;
    NamedCount(lines);
    var o := Run(lines, policy, e);
    assert o == Finish(fin, policy, e);
    var sub := GenerateSubMesh(fin.positions, fin.texcoords, fin.normals, fin.triangles, e, policy).value;
    assert o.submeshes == fin.submeshes + [sub];
    TotalVerticesAppend(fin.submeshes, sub);
  }

  /** Text without usemtl lines parses, when it parses, to one submesh and
      no names. */
  lemma NoUseMtlOneSubmesh(lines: seq<Line>, policy: Policy, e: bool)
    requires Run(lines, policy, e).Parsed?
    requires forall i :: 0 <= i < |lines| ==> !lines[i].UseMtlOf?
    ensures Run(lines, policy, e).names == []
    ensures |Run(lines, policy, e).submeshes| == 1
  {
    ParseAccount(lines, policy, e);
    NoUseMtlNoClosings(lines, false);
    NoUseMtlNoNames(lines);
  }

  lemma {:induction false} NoUseMtlNoClosings(lines: seq<Line>, pending: bool)
    requires forall i :: 0 <= i < |lines| ==> !lines[i].UseMtlOf?
    ensures Closings(lines, pending) == 0
    decreases |lines|
  {
    if |lines| > 0 {
      assert !lines[0].UseMtlOf?;
      assert forall i :: 0 <= i < |lines[1..]| ==> lines[1..][i] == lines[i + 1];
      NoUseMtlNoClosings(lines[1..], lines[0].FaceOf? || pending);
    }
  }

  lemma {:induction false} NoUseMtlNoNames(lines: seq<Line>)
    requires forall i :: 0 <= i < |lines| ==> !lines[i].UseMtlOf?
    ensures UseMtlNames(lines) == []
    decreases |lines|
  {
    if |lines| > 0 {
      assert !lines[0].UseMtlOf?;
      assert forall i :: 0 <= i < |lines[1..]| ==> lines[1..][i] == lines[i + 1];
      NoUseMtlNoNames(lines[1..]);
    }
  }

  /** The assert after a successful parse in CreatePBRMesh
      (render3d.cpp:1649) holds exactly when every usemtl but the first
      finds faces pending. */
  lemma NamesMatchSubmeshes(lines: seq<Line>, policy: Policy, e: bool)
    requires Run(lines, policy, e).Parsed?
    ensures |Run(lines, policy, e).names| == |Run(lines, policy, e).submeshes|
            <==> UseMtlCount(lines) == Closings(lines, false) + 1
  {
    ParseAccount(lines, policy, e);
  }

  /** A face the check rejects ends the parse on the spot: no name comes
      back, the flag is false, and the submeshes emitted before it are what
      the mesh holds. */
  lemma RejectedFaceStopsParse(lines: seq<Line>, i: nat, policy: Policy, e: bool)
    requires i < |lines| && lines[i].FaceOf?
    requires Steps(lines[..i], Initial, policy, e).Going?
    requires var st := Steps(lines[..i], Initial, policy, e).state;
             Rejects(policy, ShapeNow(st), ReadFace(ShapeNow(st), lines[i].ints, lines[i].junk))
    ensures Run(lines, policy, e) == Rejected(Steps(lines[..i], Initial, policy, e).state.submeshes)
    ensures !Succeeded(Run(lines, policy, e)) && MaterialNames(Run(lines, policy, e)) == []
  {
    var st := Steps(lines[..i], Initial, policy, e).state;
    assert lines == lines[..i] + lines[i..];
    StepsAppend(lines[..i], lines[i..], Initial, policy, e);
    assert lines[i..][0] == lines[i];
    assert Step(st, lines[i], policy, e) == Stopped(Rejected(st.submeshes));
    assert Steps(lines[i..], st, policy, e) == Stopped(Rejected(st.submeshes));
  }

  /** Only a rejected face produces Rejected, and the run is never
      rejected by a line that is not a face. */
  lemma {:induction false} RejectionNeedsFace(lines: seq<Line>, st: ParseState, policy: Policy, e: bool)
    requires Steps(lines, st, policy, e).Stopped? && Steps(lines, st, policy, e).outcome.Rejected?
    ensures FaceCount(lines) > 0
    decreases |lines|
  {
    if |lines| > 0 && !lines[0].FaceOf? {
      RejectionNeedsFace(lines[1..], Step(st, lines[0], policy, e).state, policy, e);
    }
  }

  // ---------------------------------------------------------------------
  // The face checks

  const NoJunk := ObjTri(7, 7, 7, 7, 7, 7, 7, 7, 7)

  /** As written, a negative v2 passes the v/t/n check (render3d.cpp:578). */
  lemma AsWrittenIgnoresV2()
    ensures var tri := ReadFace(VTN, [1, 1, 1, 2, 1, 1, -5, 1, 1], NoJunk);
            tri.v2 == -5 && !Rejects(AsWritten, VTN, tri) && Rejects(Intended, VTN, tri)
  {
    var tri := ReadFace(VTN, [1, 1, 1, 2, 1, 1, -5, 1, 1], NoJunk);
    assert Fields(tri)[ReadSlots(VTN)[6]] < 1;
  }

  /** As written, the v/n check tests the texcoord slots sscanf never wrote
      (render3d.cpp:592): a negative normal passes, and junk in a texcoord
      slot rejects a well-formed face. */
  lemma AsWrittenChecksTexcoordsForNormals()
    ensures var bad := ReadFace(VN, [1, -1, 2, -1, 3, -1], NoJunk);
            !Rejects(AsWritten, VN, bad) && Rejects(Intended, VN, bad)
    ensures var good := ReadFace(VN, [1, 1, 2, 1, 3, 1], ObjTri(0, -1, 0, 0, -1, 0, 0, -1, 0));
            Rejects(AsWritten, VN, good) && !Rejects(Intended, VN, good)
  {
    var bad := ReadFace(VN, [1, -1, 2, -1, 3, -1], NoJunk);
    assert Fields(bad)[ReadSlots(VN)[1]] < 1;
  }

  /** Index 0 passes the as-written `< 0` test and decrements to -1. */
  lemma ZeroIndexPasses()
    ensures var tri := ReadFace(VOnly, [0, 1, 2], NoJunk);
            !Rejects(AsWritten, VOnly, tri) && Rejects(Intended, VOnly, tri)
            && Decrement(tri).v0 == -1
  {
    var tri := ReadFace(VOnly, [0, 1, 2], NoJunk);
    assert Fields(tri)[ReadSlots(VOnly)[0]] < 1;
  }

  /** Under the corrected checks a parse that succeeds has read every face
      line with every index its format names at least 1: no face with a
      zero or negative index reaches the vertex arrays, whatever lines come
      before or after it. */
  lemma IntendedParsedFacesValid(lines: seq<Line>, i: nat, e: bool)
    requires Run(lines, Intended, e).Parsed?
    requires i < |lines| && lines[i].FaceOf?
    ensures Steps(lines[..i], Initial, Intended, e).Going?
    ensures var shape := ShapeNow(Steps(lines[..i], Initial, Intended, e).state);
      forall j :: 0 <= j < |ReadSlots(shape)| ==>
        Fields(ReadFace(shape, lines[i].ints, lines[i].junk))[ReadSlots(shape)[j]] >= 1
  {
    assert lines == lines[..i] + lines[i..];
    StepsAppend(lines[..i], lines[i..], Initial, Intended, e);
    if Steps(lines[..i], Initial, Intended, e).Stopped? {
      StoppedNotParsed(lines, Initial, Intended, e);
    } else {
      var st := Steps(lines[..i], Initial, Intended, e).state;
      var tri := ReadFace(ShapeNow(st), lines[i].ints, lines[i].junk);
      if Rejects(Intended, ShapeNow(st), tri) {
        RejectedFaceStopsParse(lines, i, Intended, e);
      }
    }
  }

  /** The intended check rejects a face exactly when one of the indices
      its format names is below 1 (on a short line such a slot may hold
      what an earlier face left there), so a face it passes has each of
      those indices at least 0 after the decrement. */
  lemma IntendedRejectsExactly(shape: Shape, tri: ObjTri)
    ensures !Rejects(Intended, shape, tri) <==>
      forall j :: 0 <= j < |ReadSlots(shape)| ==> Fields(Decrement(tri))[ReadSlots(shape)[j]] >= 0
  {
  }
}

/** Whole runs over small classified inputs. */
module ParserExamples {
  import opened Base
  import opened Geometry
  import opened ObjParser
  import opened ParserFacts

  function TriangleLines(p0: Vec3, p1: Vec3, p2: Vec3, junk: ObjTri): seq<Line>
  {
    [PositionOf(p0), PositionOf(p1), PositionOf(p2), FaceOf([1, 2, 3], junk)]
  }

  /** Whatever the policy, the four lines leave the three positions and the
      one face pending. */
  lemma TriangleSteps(p0: Vec3, p1: Vec3, p2: Vec3, junk: ObjTri, policy: Policy, e: bool)
    ensures Steps(TriangleLines(p0, p1, p2, junk), Initial, policy, e)
         == Going(ParseState([p0, p1, p2], [], [], [ReadFace(VOnly, [1, 2, 3], junk)], [], []))
  {
    var lines := TriangleLines(p0, p1, p2, junk);
    var tri := ReadFace(VOnly, [1, 2, 3], junk);
    assert tri.v0 == 1 && tri.v1 == 2 && tri.v2 == 3;
    assert Fields(tri)[0] == 1 && Fields(tri)[3] == 2 && Fields(tri)[6] == 3;
    var s1 := ParseState([p0], [], [], [], [], []);
    var s2 := ParseState([p0, p1], [], [], [], [], []);
    var s3 := ParseState([p0, p1, p2], [], [], [], [], []);
    assert !Rejects(policy, VOnly, tri);
    assert ShapeNow(s3) == VOnly;
    assert Step(s3, lines[3], policy, e) == Going(s3.(triangles := [tri]));
    assert Step(s2, lines[2], policy, e) == Going(s3);
    assert Step(s1, lines[1], policy, e) == Going(s2);
    assert Step(Initial, lines[0], policy, e) == Going(s1);
    StepsUnfold(lines, Initial, policy, e);
    StepsUnfold(lines[1..], s1, policy, e);
    StepsUnfold(lines[2..], s2, policy, e);
    StepsUnfold(lines[3..], s3, policy, e);
    assert lines[1..][1..] == lines[2..] && lines[2..][1..] == lines[3..] && lines[3..][1..] == [];
  }

  /** Three positions and the face `f 1 2 3`, with no texcoord or normal
      line: as written the run writes the texcoords of the final submesh
      through a null array. */
  lemma TriangleAsWritten(p0: Vec3, p1: Vec3, p2: Vec3, junk: ObjTri, e: bool)
    ensures Run(TriangleLines(p0, p1, p2, junk), AsWritten, e).Undefined?
  {
    TriangleSteps(p0, p1, p2, junk, AsWritten, e);
  }

  /** One face whose corners are positions 1, 2 and 3 of a three-element
      list expands to that list. */
  lemma OneFaceExpands(positions: seq<Vec3>, tri: ObjTri, e: bool)
    requires |positions| == 3
    requires tri.v0 == 1 && tri.v1 == 2 && tri.v2 == 3
    ensures var g := GenerateSubMesh(positions, [], [], [tri], e, Intended);
      && g.Ok?
      && g.value.vertexCount == 3
      && g.value.positions == Some(positions)
      && g.value.texcoords == None
  {
    var z := DecrementAll([tri]);
    assert z == [Decrement(tri)];
    assert Index(z[0], Pos, 0) == 0 && Index(z[0], Pos, 1) == 1 && Index(z[0], Pos, 2) == 2;
    assert InRange(z, Pos, 3);
    var g := GenerateSubMesh(positions, [], [], [tri], e, Intended);
    GenerateSubMeshFlattens(positions, [], [], [tri], e, Intended);
    var flat := g.value.positions.value;
    assert Index(tri, Pos, 0) == 1 && Index(tri, Pos, 1) == 2 && Index(tri, Pos, 2) == 3;
    assert flat[0] == positions[0] && flat[1] == positions[1] && flat[2] == positions[2];
    assert flat == positions;
  }

  /** The same lines under the intended parser: one submesh holding the
      three positions in order, no texcoords, and no names. */
  lemma TriangleIntended(p0: Vec3, p1: Vec3, p2: Vec3, junk: ObjTri, e: bool)
    ensures var o := Run(TriangleLines(p0, p1, p2, junk), Intended, e);
      && o.Parsed?
      && o.names == []
      && |o.submeshes| == 1
      && o.submeshes[0].vertexCount == 3
      && o.submeshes[0].positions == Some([p0, p1, p2])
      && o.submeshes[0].texcoords == None
  {
    TriangleSteps(p0, p1, p2, junk, Intended, e);
    var tri := ReadFace(VOnly, [1, 2, 3], junk);
    OneFaceExpands([p0, p1, p2], tri, e);
  }

  function ZeroIndexLines(p0: Vec3, p1: Vec3, p2: Vec3, junk: ObjTri): seq<Line>
  {
    [PositionOf(p0), PositionOf(p1), PositionOf(p2), FaceOf([0, 1, 2], junk)]
  }

  /** The face `f 0 1 2` after three positions: the corrected parser
      rejects the file with no names and no submesh, while as written the
      `< 0` test lets index 0 through and the run goes on past the face. */
  lemma ZeroIndexFile(p0: Vec3, p1: Vec3, p2: Vec3, junk: ObjTri, e: bool)
    ensures Run(ZeroIndexLines(p0, p1, p2, junk), Intended, e) == Rejected([])
    ensures !Run(ZeroIndexLines(p0, p1, p2, junk), AsWritten, e).Rejected?
  {
    var lines := ZeroIndexLines(p0, p1, p2, junk);
    var tri := ReadFace(VOnly, [0, 1, 2], junk);
    var s3 := ParseState([p0, p1, p2], [], [], [], [], []);
    assert Fields(tri)[ReadSlots(VOnly)[0]] < 1;
    assert tri.v0 == 0 && tri.v1 == 1 && tri.v2 == 2;
    PrefixSteps(p0, p1, p2, junk, Intended, e);
    PrefixSteps(p0, p1, p2, junk, AsWritten, e);
    RejectedFaceStopsParse(lines, 3, Intended, e);
    assert lines == lines[..3] + [lines[3]];
    StepsAppend(lines[..3], [lines[3]], Initial, AsWritten, e);
    StepsUnfold([lines[3]], s3, AsWritten, e);
    assert Step(s3, lines[3], AsWritten, e) == Going(s3.(triangles := [tri]));
  }

  /** The three position lines of either example leave the three
      positions and nothing else. */
  lemma PrefixSteps(p0: Vec3, p1: Vec3, p2: Vec3, junk: ObjTri, policy: Policy, e: bool)
    ensures Steps(ZeroIndexLines(p0, p1, p2, junk)[..3], Initial, policy, e)
         == Going(ParseState([p0, p1, p2], [], [], [], [], []))
  {
    var lines := ZeroIndexLines(p0, p1, p2, junk)[..3];
    var s1 := ParseState([p0], [], [], [], [], []);
    var s2 := ParseState([p0, p1], [], [], [], [], []);
    var s3 := ParseState([p0, p1, p2], [], [], [], [], []);
    assert Step(s2, lines[2], policy, e) == Going(s3);
    assert Step(s1, lines[1], policy, e) == Going(s2);
    assert Step(Initial, lines[0], policy, e) == Going(s1);
    StepsUnfold(lines, Initial, policy, e);
    StepsUnfold(lines[1..], s1, policy, e);
    StepsUnfold(lines[2..], s2, policy, e);
    assert lines[1..][1..] == lines[2..] && lines[2..][1..] == [];
  }

  function TwoMaterialLines(p0: Vec3, p1: Vec3, p2: Vec3, junk: ObjTri): seq<Line>
  {
    [PositionOf(p0), PositionOf(p1), PositionOf(p2),
     UseMtlOf(Some("A")), FaceOf([1, 2, 3], junk),
     UseMtlOf(Some("B")), FaceOf([1, 2, 3], junk)]
  }

  /** The first four lines record the positions and the name A. */
  lemma TwoMaterialsHead(p0: Vec3, p1: Vec3, p2: Vec3, junk: ObjTri, e: bool)
    ensures Steps(TwoMaterialLines(p0, p1, p2, junk)[..4], Initial, Intended, e)
         == Going(ParseState([p0, p1, p2], [], [], [], ["A"], []))
  {
    var lines := TwoMaterialLines(p0, p1, p2, junk)[..4];
    var s1 := ParseState([p0], [], [], [], [], []);
    var s2 := ParseState([p0, p1], [], [], [], [], []);
    var s3 := ParseState([p0, p1, p2], [], [], [], [], []);
    assert Step(Initial, lines[0], Intended, e) == Going(s1);
    assert Step(s1, lines[1], Intended, e) == Going(s2);
    assert Step(s2, lines[2], Intended, e) == Going(s3);
    assert Step(s3, lines[3], Intended, e) == Going(s3.(names := ["A"]));
    StepsUnfold(lines, Initial, Intended, e);
    StepsUnfold(lines[1..], s1, Intended, e);
    StepsUnfold(lines[2..], s2, Intended, e);
    StepsUnfold(lines[3..], s3, Intended, e);
    assert lines[1..][1..] == lines[2..] && lines[2..][1..] == lines[3..] && lines[3..][1..] == [];
  }

  /** The face `f 1 2 3` read with no texcoords or normals passes. */
  lemma PlainFacePasses(junk: ObjTri)
    ensures var tri := ReadFace(VOnly, [1, 2, 3], junk);
      tri.v0 == 1 && tri.v1 == 2 && tri.v2 == 3 && !Rejects(Intended, VOnly, tri)
  {
    var tri := ReadFace(VOnly, [1, 2, 3], junk);
    assert Fields(tri)[0] == 1 && Fields(tri)[3] == 2 && Fields(tri)[6] == 3;
  }

  /** A passing first line hands the rest of the lines to the next state. */
  lemma StepsCons(line: Line, rest: seq<Line>, st: ParseState, next: ParseState, policy: Policy, e: bool)
    requires Step(st, line, policy, e) == Going(next)
    ensures Steps([line] + rest, st, policy, e) == Steps(rest, next, policy, e)
  {
    StepsUnfold([line] + rest, st, policy, e);
    assert ([line] + rest)[1..] == rest;
  }

  /** A plain face line, from a state without texcoords or normals. */
  lemma PlainFaceStep(st: ParseState, junk: ObjTri, e: bool)
    requires st.texcoords == [] && st.normals == []
    ensures Step(st, FaceOf([1, 2, 3], junk), Intended, e)
         == Going(st.(triangles := st.triangles + [ReadFace(VOnly, [1, 2, 3], junk)]))
  {
    PlainFacePasses(junk);
    FaceStep(st, [1, 2, 3], junk, Intended, e);
  }

  /** The last three lines cut the first submesh at `usemtl B` and leave
      the second face pending. */
  lemma TwoMaterialsTail(p0: Vec3, p1: Vec3, p2: Vec3, junk: ObjTri, e: bool)
    ensures var ps := [p0, p1, p2];
            var tri := ReadFace(VOnly, [1, 2, 3], junk);
            var sub := GenerateSubMesh(ps, [], [], [tri], e, Intended);
      && sub.Ok?
      && Steps(TwoMaterialLines(p0, p1, p2, junk)[4..], ParseState(ps, [], [], [], ["A"], []), Intended, e)
         == Going(ParseState(ps, [], [], [tri], ["A", "B"], [sub.value]))
  {
    var ps := [p0, p1, p2];
    var face := FaceOf([1, 2, 3], junk);
    var tri := ReadFace(VOnly, [1, 2, 3], junk);
    PlainFacePasses(junk);
    OneFaceExpands(ps, tri, e);
    var sub := GenerateSubMesh(ps, [], [], [tri], e, Intended).value;
    var s4 := ParseState(ps, [], [], [], ["A"], []);
    var s5 := ParseState(ps, [], [], [tri], ["A"], []);
    var s6 := ParseState(ps, [], [], [], ["A", "B"], [sub]);
    var s7 := ParseState(ps, [], [], [tri], ["A", "B"], [sub]);
    assert TwoMaterialLines(p0, p1, p2, junk)[4..] == [face] + ([UseMtlOf(Some("B"))] + [face]);
    PlainFaceStep(s4, junk, e);
    assert [] + [tri] == [tri];
    StepsCons(face, [UseMtlOf(Some("B"))] + [face], s4, s5, Intended, e);
    UseMtlStep(s5, "B", Intended, e);
    assert ["A"] + ["B"] == ["A", "B"] && [] + [sub] == [sub];
    StepsCons(UseMtlOf(Some("B")), [face], s5, s6, Intended, e);
    PlainFaceStep(s6, junk, e);
    StepsCons(face, [], s6, s7, Intended, e);
    assert [face] + [] == [face];
  }

  /** `usemtl A`, a face, `usemtl B`, a face: under the intended parser
      the names are A then B and each name has its submesh; the first
      usemtl finds nothing pending and cuts nothing. */
  lemma TwoMaterialsIntended(p0: Vec3, p1: Vec3, p2: Vec3, junk: ObjTri, e: bool)
    ensures var o := Run(TwoMaterialLines(p0, p1, p2, junk), Intended, e);
      && o.Parsed?
      && o.names == ["A", "B"]
      && |o.submeshes| == 2
      && o.submeshes[0].positions == Some([p0, p1, p2])
      && o.submeshes[1].positions == Some([p0, p1, p2])
  {
    var lines := TwoMaterialLines(p0, p1, p2, junk);
    var ps := [p0, p1, p2];
    var tri := ReadFace(VOnly, [1, 2, 3], junk);
    PlainFacePasses(junk);
    OneFaceExpands(ps, tri, e);
    var sub := GenerateSubMesh(ps, [], [], [tri], e, Intended).value;
    var s4 := ParseState(ps, [], [], [], ["A"], []);
    var s7 := ParseState(ps, [], [], [tri], ["A", "B"], [sub]);
    TwoMaterialsHead(p0, p1, p2, junk, e);
    TwoMaterialsTail(p0, p1, p2, junk, e);
    assert lines == lines[..4] + lines[4..];
    StepsAppend(lines[..4], lines[4..], Initial, Intended, e);
    assert Steps(lines, Initial, Intended, e) == Going(s7);
    assert Finish(s7, Intended, e) == Parsed(["A", "B"], [sub] + [sub]);
  }
}
