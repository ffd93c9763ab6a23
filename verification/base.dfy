/** Shared vocabulary of the render3d model: optional values, the outcome of a
    step whose C++ original can reach undefined behaviour, opaque floats and
    vectors, symbolic 4x4 matrices, the byte order std::map uses on its string
    keys, and reads of NUL-terminated text inside a buffer. */
module Base {

  /** A value that may be absent: a nullable pointer, an unset memo slot. */
  datatype Option<+T> = None | Some(value: T)

  /** The outcome of an operation whose C++ original can leave defined
      behaviour: a null dereference, an out-of-range read or write, an
      unchecked cast to the wrong type, an uncaught exception, a failed
      assert. The model never guesses what happens then; it stops with
      `Fault` and a reason. */
  datatype Checked<+T> = Ok(value: T) | Fault(reason: string)

  /** A GL object name the driver generates: never 0, which the source
      uses for "not created yet". */
  type GlName = n: nat | n > 0 witness 1

  /** A 32-bit IEEE-754 float, kept as its bit pattern. No float arithmetic
      is modelled: floats are opaque values that are stored and compared. */
  datatype Float = Float(bits: bv32)

  const FloatZero := Float(0x0000_0000)
  const FloatOne := Float(0x3F80_0000)

  datatype Vec2 = Vec2(x: Float, y: Float)
  datatype Vec3 = Vec3(x: Float, y: Float, z: Float)

  /** Eigen's quaternion, in its constructor's (w, x, y, z) order. */
  datatype Quat = Quat(w: Float, x: Float, y: Float, z: Float)

  const Vec3Zero := Vec3(FloatZero, FloatZero, FloatZero)
  const Vec3Ones := Vec3(FloatOne, FloatOne, FloatOne)

  /** 4x4 float matrices as uninterpreted terms. Each Eigen computation the
      source performs is a constructor, so two matrices are equal exactly
      when they were built the same way: `Product(a, b)` and `Product(b, a)`
      are different matrices, which is all the model needs to tell operand
      orders apart. */
  datatype Matrix =
    | Given(cells: seq<Float>)                          // supplied by a caller, or uninitialised memory
    | Trs(translation: Vec3, rotation: Quat, scale: Vec3) // translation * rotation * scale
    | InverseTr(translation: Vec3, rotation: Quat)      // inverse of translation * rotation
    | Product(lhs: Matrix, rhs: Matrix)                 // lhs * rhs
    | Orthographic(width: Float, height: Float, near: Float, far: Float, flipY: bool)
    | Perspective(fov: Float, ratio: Float, near: Float, far: Float, flipY: bool)
    | PnP(width: Float, height: Float, fx: Float, fy: Float, near: Float, far: Float, flipY: bool)

  /** The integers lo, lo+1, ..., hi-1. */
  function Range(lo: int, hi: int): (r: seq<int>)
    requires lo <= hi
    ensures |r| == hi - lo
    ensures forall i :: 0 <= i < |r| ==> r[i] == lo + i
  {
    seq(hi - lo, i requires 0 <= i < hi - lo => lo + i)
  }

  lemma RangeSplit(lo: int, mid: int, hi: int)
    requires lo <= mid <= hi
    ensures Range(lo, mid) + Range(mid, hi) == Range(lo, hi)
  {
    var a, b := Range(lo, mid), Range(mid, hi);
    assert forall i :: 0 <= i < |a + b| ==> (a + b)[i] == lo + i by {
      forall i | 0 <= i < |a + b|
        ensures (a + b)[i] == lo + i
      {
        if i >= |a| {
          assert (a + b)[i] == b[i - |a|];
        }
      }
    }
  }

  // ---------------------------------------------------------------------
  // String order. std::map<std::string, T> keeps its keys in the order of
  // std::string::compare: the first differing character decides, and a
  // proper prefix comes first.

  predicate StrLess(a: string, b: string)
    decreases |a|
  {
    if |a| == 0 then |b| > 0
    else if |b| == 0 then false
    else if a[0] == b[0] then StrLess(a[1..], b[1..])
    else a[0] < b[0]
  }

  lemma {:induction false} StrLessIrreflexive(a: string)
    ensures !StrLess(a, a)
    decreases |a|
  {
    if |a| > 0 {
      StrLessIrreflexive(a[1..]);
    }
  }

  lemma {:induction false} StrLessTransitive(a: string, b: string, c: string)
    requires StrLess(a, b) && StrLess(b, c)
    ensures StrLess(a, c)
    decreases |a|
  {
    if |a| > 0 && a[0] == b[0] && b[0] == c[0] {
      StrLessTransitive(a[1..], b[1..], c[1..]);
    }
  }

  lemma {:induction false} StrLessTotal(a: string, b: string)
    ensures a == b || StrLess(a, b) || StrLess(b, a)
    decreases |a|
  {
    if |a| > 0 && |b| > 0 && a[0] == b[0] {
      StrLessTotal(a[1..], b[1..]);
      if a[1..] == b[1..] {
        assert a == [a[0]] + a[1..] && b == [b[0]] + b[1..];
      }
    }
  }

  lemma StrLessAsymmetric(a: string, b: string)
    requires StrLess(a, b)
    ensures !StrLess(b, a)
  {
    if StrLess(b, a) {
      StrLessTransitive(a, b, a);
      StrLessIrreflexive(a);
    }
  }

  // ---------------------------------------------------------------------
  // NUL-terminated text inside a buffer, read the way C reads a char*.

  const NUL: char := 0 as char

  /** The character at offset k, where the terminator just past the end of
      a std::string's buffer reads as NUL. */
  function CharAt(buf: string, k: nat): char
  {
    if k < |buf| then buf[k] else NUL
  }

  /** Where the C string that starts at k ends: the first NUL at or after k,
      or the end of the buffer. */
  function CEnd(buf: string, k: nat): (e: nat)
    requires k <= |buf|
    ensures k <= e <= |buf|
    ensures forall j :: k <= j < e ==> buf[j] != NUL
    ensures e == |buf| || buf[e] == NUL
    decreases |buf| - k
  {
    if k == |buf| || buf[k] == NUL then k else CEnd(buf, k + 1)
  }

  /** The C string `buf + k`: what a `char*` pointing at offset k denotes. */
  function CStringAt(buf: string, k: nat): (s: string)
    requires k <= |buf|
    ensures NUL !in s
    ensures k + |s| <= |buf| && buf[k..k + |s|] == s
    ensures k + |s| == |buf| || buf[k + |s|] == NUL
  {
    buf[k..CEnd(buf, k)]
  }

  /** s occurs in buf at offset k. */
  predicate HasPrefixAt(buf: string, k: nat, s: string)
  {
    k + |s| <= |buf| && buf[k..k + |s|] == s
  }
}
