/** The two dirty-flag matrix caches: a mesh's world transform
    (render3d.cpp:879-936, render3d.h:274-281) and the camera's view and
    view-projection matrices (render3d.cpp:938-1096, render3d.h:315-320).
    Matrices are terms (see `Base.Matrix`): only which inputs a cached
    matrix was built from, and when it is rebuilt, are modelled. */
module Transforms {
  import opened Base

  // ---------------------------------------------------------------------
  // Mesh transform

  datatype Pose = Pose(position: Vec3, rotation: Quat, scale: Vec3, transform: Matrix, dirty: bool)

  /** A freshly constructed mesh: position zero, scale one, transform
      marked dirty. The rotation and the cached transform are left
      uninitialised by the source and are whatever the caller passes. */
  function NewPose(rotation: Quat, transform: Matrix): (p: Pose)
    ensures p.position == Vec3Zero && p.scale == Vec3Ones && p.dirty
    ensures p.rotation == rotation && p.transform == transform
  {
    Pose(Vec3Zero, rotation, Vec3Ones, transform, true)
  }

  function SetPosition(p: Pose, position: Vec3): (r: Pose)
    ensures r.dirty && r.position == position
    ensures r.rotation == p.rotation && r.scale == p.scale
  {
    p.(position := position, dirty := true)
  }

  function SetRotation(p: Pose, rotation: Quat): (r: Pose)
    ensures r.dirty && r.rotation == rotation
    ensures r.position == p.position && r.scale == p.scale
  {
    p.(rotation := rotation, dirty := true)
  }

  function SetScale(p: Pose, scale: Vec3): (r: Pose)
    ensures r.dirty && r.scale == scale
    ensures r.position == p.position && r.rotation == p.rotation
  {
    p.(scale := scale, dirty := true)
  }

  /** Mesh::SetTransform: the given matrix becomes the cached transform and
      the flag is cleared. */
  function SetTransform(p: Pose, m: Matrix): (r: Pose)
    ensures !r.dirty && r.transform == m
    ensures r.position == p.position && r.rotation == p.rotation && r.scale == p.scale
  {
    p.(transform := m, dirty := false)
  }

  datatype PoseRead = PoseRead(pose: Pose, matrix: Matrix)

  /** What GetTransform returns when called on p: the composition of the
      current position, rotation and scale while dirty, the cache otherwise. */
  function CurrentTransform(p: Pose): Matrix
  {
    if p.dirty then Trs(p.position, p.rotation, p.scale) else p.transform
  }

  /** Mesh::GetTransform: rebuild only while dirty, then clear the flag. */
  function GetTransform(p: Pose): (r: PoseRead)
    ensures r.matrix == CurrentTransform(p)
    ensures !r.pose.dirty && r.pose.transform == r.matrix
    ensures r.pose.position == p.position && r.pose.rotation == p.rotation && r.pose.scale == p.scale
    ensures !p.dirty ==> r.pose == p
    ensures CurrentTransform(r.pose) == CurrentTransform(p)
  {
    if p.dirty then
      var m := Trs(p.position, p.rotation, p.scale);
      PoseRead(p.(transform := m, dirty := false), m)
    else PoseRead(p, p.transform)
  }

  /** A second read returns the same matrix and changes nothing. */
  lemma GetTransformIdempotent(p: Pose)
    ensures var first := GetTransform(p);
      GetTransform(first.pose) == PoseRead(first.pose, first.matrix)
  {
  }

  /** After any pose setter the next read composes the new pose. */
  lemma SetterThenRead(p: Pose, position: Vec3, rotation: Quat, scale: Vec3)
    ensures GetTransform(SetPosition(p, position)).matrix == Trs(position, p.rotation, p.scale)
    ensures GetTransform(SetRotation(p, rotation)).matrix == Trs(p.position, rotation, p.scale)
    ensures GetTransform(SetScale(p, scale)).matrix == Trs(p.position, p.rotation, scale)
  {
  }

  /** A matrix set directly is what every later read returns until a pose
      setter marks the transform dirty again. */
  lemma SetTransformThenRead(p: Pose, m: Matrix)
    ensures GetTransform(SetTransform(p, m)).matrix == m
    ensures GetTransform(GetTransform(SetTransform(p, m)).pose).matrix == m
  {
  }

  // ---------------------------------------------------------------------
  // Camera

  datatype Camera = Camera(
    position: Vec3,
    rotation: Quat,
    view: Matrix,
    viewDirty: bool,
    projection: Matrix,
    viewProjection: Matrix,
    vpDirty: bool,
    flipY: bool)

  /** The float constants of the constructor, as IEEE-754 bit patterns. */
  const Thousand := Float(0x447A_0000)
  const Sixty := Float(0x4270_0000)
  const NearDefault := Float(0x3DCC_CCCD)
  const FarDefault := Float(0x459C_4000)

  /** The perspective projection MakePerspective builds from its inputs. */
  function PerspectiveOf(c: Camera, fov: Float, ratio: Float, near: Float, far: Float): Matrix
  {
    Perspective(fov, ratio, near, far, c.flipY)
  }

  function CameraSetPosition(c: Camera, position: Vec3): (r: Camera)
    ensures r.viewDirty && r.vpDirty && r.position == position
    ensures r.rotation == c.rotation && r.projection == c.projection && r.flipY == c.flipY
  {
    c.(position := position, viewDirty := true, vpDirty := true)
  }

  function CameraSetRotation(c: Camera, rotation: Quat): (r: Camera)
    ensures r.viewDirty && r.vpDirty && r.rotation == rotation
    ensures r.position == c.position && r.projection == c.projection && r.flipY == c.flipY
  {
    c.(rotation := rotation, viewDirty := true, vpDirty := true)
  }

  /** Camera::SetViewMatrix: store, clear the view flag, set the
      view-projection flag. */
  function SetViewMatrix(c: Camera, m: Matrix): (r: Camera)
    ensures r.view == m && !r.viewDirty && r.vpDirty
    ensures r.position == c.position && r.rotation == c.rotation && r.projection == c.projection
  {
    c.(view := m, viewDirty := false, vpDirty := true)
  }

  /** Camera::SetProjectionMatrix. The projection has no flag of its own. */
  function SetProjectionMatrix(c: Camera, m: Matrix): (r: Camera)
    ensures r.projection == m && r.vpDirty
    ensures r.view == c.view && r.viewDirty == c.viewDirty && r.position == c.position && r.rotation == c.rotation
  {
    c.(projection := m, vpDirty := true)
  }

  /** Camera::MakeOrthographic: the ratio argument is never read. */
  function MakeOrthographic(c: Camera, width: Float, height: Float, ratio: Float, near: Float, far: Float): (r: Camera)
    ensures r.projection == Orthographic(width, height, near, far, c.flipY) && r.vpDirty
    ensures r.view == c.view && r.viewDirty == c.viewDirty && r.position == c.position && r.rotation == c.rotation
  {
    c.(projection := Orthographic(width, height, near, far, c.flipY), vpDirty := true)
  }

  function MakePerspective(c: Camera, fov: Float, ratio: Float, near: Float, far: Float): (r: Camera)
    ensures r.projection == Perspective(fov, ratio, near, far, c.flipY) && r.vpDirty
    ensures r.view == c.view && r.viewDirty == c.viewDirty && r.position == c.position && r.rotation == c.rotation
  {
    c.(projection := PerspectiveOf(c, fov, ratio, near, far), vpDirty := true)
  }

  function MakePnPProjection(c: Camera, width: Float, height: Float, fx: Float, fy: Float, near: Float, far: Float): (r: Camera)
    ensures r.projection == PnP(width, height, fx, fy, near, far, c.flipY) && r.vpDirty
    ensures r.view == c.view && r.viewDirty == c.viewDirty && r.position == c.position && r.rotation == c.rotation
  {
    c.(projection := PnP(width, height, fx, fy, near, far, c.flipY), vpDirty := true)
  }

  /** Camera::Camera (render3d.cpp:938-950): position (0, 0, 1000), the
      all-zero quaternion, and a 60-degree perspective with near 0.1 and far
      5000 at the screen's aspect ratio. The view, projection and
      view-projection matrices start as uninitialised memory. */
  function NewCamera(ratio: Float, garbageView: Matrix, garbageProjection: Matrix, garbageVp: Matrix): (c: Camera)
    ensures c.position == Vec3(FloatZero, FloatZero, Thousand)
    ensures c.rotation == Quat(FloatZero, FloatZero, FloatZero, FloatZero)
    ensures c.projection == Perspective(Sixty, ratio, NearDefault, FarDefault, false)
    ensures c.viewDirty && c.vpDirty && !c.flipY
  {
    var blank := Camera(Vec3Ones, Quat(FloatZero, FloatZero, FloatZero, FloatZero),
                        garbageView, true, garbageProjection, garbageVp, true, false);
    var c1 := CameraSetPosition(blank, Vec3(FloatZero, FloatZero, Thousand));
    var c2 := CameraSetRotation(c1, Quat(FloatZero, FloatZero, FloatZero, FloatZero));
    MakePerspective(c2, Sixty, ratio, NearDefault, FarDefault)
  }

  datatype CameraRead = CameraRead(camera: Camera, matrix: Matrix)

  /** The view matrix GetViewMatrix returns when called on c. */
  function CurrentView(c: Camera): Matrix
  {
    if c.viewDirty then InverseTr(c.position, c.rotation) else c.view
  }

  /** Camera::GetViewMatrix: rebuild the inverse camera transform while
      dirty, then clear the flag. */
  function GetViewMatrix(c: Camera): (r: CameraRead)
    ensures r.matrix == CurrentView(c)
    ensures r.camera.view == r.matrix && !r.camera.viewDirty
    ensures r.camera == c.(view := r.matrix, viewDirty := false)
    ensures CurrentView(r.camera) == CurrentView(c)
  {
    if !c.viewDirty then CameraRead(c, c.view)
    else
      var m := InverseTr(c.position, c.rotation);
      CameraRead(c.(view := m, viewDirty := false), m)
  }

  /** The view-projection matrix GetViewProjectionMatrix returns when
      called on c. */
  function CurrentViewProjection(c: Camera): Matrix
  {
    if c.vpDirty then Product(c.projection, CurrentView(c)) else c.viewProjection
  }

  /** Camera::GetViewProjectionMatrix: while the flag is set, refresh the
      view, store projection times view and return it; the flag itself is
      never cleared. */
  function GetViewProjectionMatrix(c: Camera): (r: CameraRead)
    ensures c.vpDirty ==> r.matrix == Product(c.projection, CurrentView(c))
    ensures !c.vpDirty ==> r == CameraRead(c, c.viewProjection)
    ensures r.camera.vpDirty == c.vpDirty
    ensures r.camera.projection == c.projection && r.camera.position == c.position && r.camera.rotation == c.rotation
    ensures CurrentView(r.camera) == CurrentView(c) && CurrentViewProjection(r.camera) == CurrentViewProjection(c)
  {
    if !c.vpDirty then CameraRead(c, c.viewProjection)
    else
      var v := GetViewMatrix(c).camera;
      var m := Product(v.projection, v.view);
      CameraRead(v.(viewProjection := m), m)
  }

  /** The camera operations a caller can perform. */
  datatype CameraOp =
    | MoveTo(position: Vec3)
    | TurnTo(rotation: Quat)
    | ReadView
    | ReadViewProjection
    | LoadView(m: Matrix)
    | LoadProjection(m: Matrix)
    | Ortho(width: Float, height: Float, ratio: Float, near: Float, far: Float)
    | Persp(fov: Float, ratio: Float, near: Float, far: Float)
    | Pnp(width: Float, height: Float, fx: Float, fy: Float, near: Float, far: Float)

  function Perform(c: Camera, op: CameraOp): Camera
  {
    match op
    case MoveTo(p) => CameraSetPosition(c, p)
    case TurnTo(q) => CameraSetRotation(c, q)
    case ReadView => GetViewMatrix(c).camera
    case ReadViewProjection => GetViewProjectionMatrix(c).camera
    case LoadView(m) => SetViewMatrix(c, m)
    case LoadProjection(m) => SetProjectionMatrix(c, m)
    case Ortho(w, h, ratio, n, f) => MakeOrthographic(c, w, h, ratio, n, f)
    case Persp(fov, ratio, n, f) => MakePerspective(c, fov, ratio, n, f)
    case Pnp(w, h, fx, fy, n, f) => MakePnPProjection(c, w, h, fx, fy, n, f)
  }

  function PerformAll(c: Camera, ops: seq<CameraOp>): Camera
    decreases |ops|
  {
    if |ops| == 0 then c else PerformAll(Perform(c, ops[0]), ops[1..])
  }

  /** Nothing ever clears the view-projection flag: once set, it stays set
      whatever the camera goes through. */
  lemma {:induction false} VpFlagStaysSet(c: Camera, ops: seq<CameraOp>)
    requires c.vpDirty
    ensures PerformAll(c, ops).vpDirty
    decreases |ops|
  {
    if |ops| > 0 {
      VpFlagStaysSet(Perform(c, ops[0]), ops[1..]);
    }
  }

  /** So on every camera the renderer can reach, GetViewProjectionMatrix
      recomputes projection times the current view: the cached product is
      never read. */
  lemma ViewProjectionAlwaysFresh(ratio: Float, gv: Matrix, gp: Matrix, gvp: Matrix, ops: seq<CameraOp>)
    ensures var c := PerformAll(NewCamera(ratio, gv, gp, gvp), ops);
      GetViewProjectionMatrix(c).matrix == Product(c.projection, CurrentView(c))
  {
    VpFlagStaysSet(NewCamera(ratio, gv, gp, gvp), ops);
  }
}
