# render3d in Dafny

A model of the GPU-independent core of the `render3d` AR renderer
(`render3d.cpp`, `render3d.h`), with proofs about it.

The renderer reads Wavefront-OBJ-style meshes and gives each submesh a
material: a shader program plus a `std::map` of named parameters. It keeps
caches of programs, 2D textures, cube textures and lazily loaded environment
maps. Each frame it draws the listed meshes in two passes, opaque submeshes
first and translucent ones second. The model covers six parts of that core:

- **The OBJ parser** (`ObjMeshParser`): `ObjParser`, `Geometry`,
  `ParserFacts`. It prepares the line buffer, classifies each line by prefix,
  and models sscanf's partial fills of a face. It checks indices, closes a
  submesh at `usemtl`, and expands the triangles into flat vertex arrays.
- **Programs and materials** (`Program`, `Material`, the `MaterialParam`
  kinds): `Programs`, `Params`, `Materials`. The program's reflection maps
  follow last-write-wins, and the builtin uniforms are filtered against the
  registry. The parameter store is modelled as an ordered association list
  with `std::map` insert-or-assign. `UpdateBuiltinUniforms` refreshes the
  matrix and environment builtins. `Apply` hands out texture units from 0.
- **Dirty-flag caches** (`Mesh` pose, `Camera`): `Transforms`. The setters
  mark the caches dirty. The getters recompute a value, store it and clear
  the flag.
- **Resource caches** (`LoadProgram`, `LoadTexture`, `FillCubeTextureFaces`,
  `LoadCubeTexture`, the five environment getters, and eviction in
  `~Mesh`): `Resources`, `Textures`.
- **Submeshes and drawing** (`SubMesh::Render`, the mesh passes,
  `RenderMeshes`, `AddMesh`, `RemoveMesh`): `Render`, `Gl`. `SubMesh::Render`
  is a VAO/VBO state machine. A VAO is created only for static submeshes.
  Each array is uploaded once and then released.
- **`CreatePBRMesh`** (`PbrPaths`, `Pbr`): extension stripping, mirror
  directories, texture paths, the `newmtl` fallback, loading the four maps
  with a retry, shader macros, and material assembly.

### Conventions

- **Undefined behaviour.** A null dereference, an out-of-range read or write,
  a failed `assert` or an uncaught exception in the C++ becomes an explicit
  `Fault` outcome of `Base.Checked`. The model does not exclude such inputs
  by precondition.
- **Outside the model.** Everything the core cannot see is a parameter:
  - file contents (`Sources.files`);
  - decoded images (`ImageSource`, standing for `getImageFrameFromPath`);
  - the shader compiler and its reflection (`Compiler`);
  - sscanf's float parsing (`Scanner`);
  - the resource paths of the environment maps (`EnvPaths`);
  - the mesh pose and camera a material reads (`World`).
- **Matrices.** Matrices are an uninterpreted term algebra: `Product`, `Trs`,
  `InverseTr`, and one constructor per projection kind. Floats are opaque
  32-bit patterns.
- **GL calls.** The GL calls that matter are recorded in order as a trace of
  `GlCall`s: program use, uniform and texture-unit binds, buffer uploads and
  updates, VAO creation and draws. GL object names come from one fresh-name
  counter, `nextName`.
- **Parser policy.** The parser takes a `Policy`. `AsWritten` is the code as
  it stands. `Intended` is the corrected behaviour described under
  "## Findings". `Pbr.CreatePbrMesh` takes the policy as a parameter, and its
  lemmas hold under either policy.

### Where the header and the written design disagree with the code

The model follows `render3d.cpp` in each case.

- The header declares `Parse()` without a success flag (`render3d.h:203-206`).
  The code takes `bool*` (`render3d.cpp:518`).
- The header names the cube type `TEXTURE_CUBE_COMPACT` (`render3d.h:71`).
  The code uses `TEXTURE_CUBE` (`render3d.cpp:1555`).
- The header's texture cache maps paths to `Texture*` (`render3d.h:368`).
  The code stores a `TextureInfo` carrying a translucency flag
  (`render3d.cpp:1509-1512`).
- The design's end-to-end example parses `v 0 0 0 / v 1 0 0 / v 0 1 0 / f 1 2 3`
  into one submesh. As written, the code writes texcoords and normals through
  null arrays for that file: `ParserExamples.TriangleAsWritten`. The corrected
  parser gives the documented result: `ParserExamples.TriangleIntended`.
- The `Renderer` constructor never initialises the five environment-texture
  pointers (`render3d.cpp:1099`). The model starts them null, which is what
  the lazy getters assume.

### Behaviour modelled as written

- The `newmtl` fallback (`render3d.cpp:1617-1639`) scans the `.mtl` file
  *name*, not the file's contents. It finds a material only when the stem
  itself contains "newmtl". Either way it returns the mesh without materials
  (`render3d.cpp:1646`).
- `GetViewProjectionMatrix` never clears its dirty flag, so the product is
  recomputed on every call.

## Model

| member | source | states |
|---|---|---|
| Base.CStringAt | render3d.cpp:626 | the C string read at an offset has no NUL, matches the buffer from that offset, and ends at a NUL or at the end of the buffer |
| Geometry.Decrement | render3d.cpp:486-497 | the 1-to-0-based conversion lowers each of the nine face fields by exactly one, including fields sscanf never wrote |
| Geometry.Expand | render3d.cpp:499-513 | the flat array holds three entries per triangle; entry 3i+k is the list element that corner k of triangle i selects |
| Geometry.GenerateSubMesh | render3d.cpp:460-516 | defined exactly when every index is in range and no unallocated attribute array is written; three vertices per triangle; texcoords and normals are present iff their list was non-empty; the export copies are kept iff export is on |
| Geometry.GenerateSubMeshFlattens | render3d.cpp:486-513 | every produced array flattens its attribute list through the file's 1-based indices: corner k of triangle i reads entry index-1 |
| ObjParser.Prepare | render3d.cpp:530-542 | the prepared buffer has the text's length, has NUL wherever the text has a line break, contains no '/' (slashes become blanks), and is otherwise the text |
| ObjParser.LineStarts | render3d.cpp:526-537 | the offsets the parser visits are, in increasing order, 0 and exactly the positions that follow a line break |
| ObjParser.Classify | render3d.cpp:549-627 | a line is a position, texcoord, normal, face or usemtl line iff it begins with "v ", "vt", "vn", "f " or "usemtl" respectively |
| ObjParser.LineAt | render3d.cpp:608-626 | a line is a usemtl or face line iff it has that prefix, and the usemtl name is the C string starting seven characters in |
| ObjParser.ReadFace | render3d.cpp:573-602 | the face fields sscanf matches for the current shape take the scanned integers in order; every other field keeps its previous contents |
| ObjParser.Step | render3d.cpp:549-627 | a line stops the run only if it is a face or a usemtl line, never with success; it stops with the rejection exactly when it is a face the check rejects, and then the submeshes emitted so far are what remains |
| ObjParser.Finish | render3d.cpp:638-647 | after the last line the pending faces, even none, become one more submesh of three vertices per face; the names are kept; only undefined behaviour can prevent it |
| ObjParser.Parse | render3d.cpp:518-648 | a successful parse returns at least one submesh; any other outcome reports failure and no names |
| ParserFacts.StepNames | render3d.cpp:608-626 | a usemtl line appends exactly its name to the material list; no other line changes the list |
| ParserFacts.StepCuts | render3d.cpp:608-627 | usemtl after pending faces closes one submesh of three vertices per pending face, keeps the earlier submeshes and empties the face list |
| ParserFacts.StepsNames | render3d.cpp:518-648 | over any run of lines, the names collected are the usemtl names of those lines in file order |
| ParserFacts.StepsVertices | render3d.cpp:573-647 | over any run of lines, vertices in closed submeshes plus pending faces grow by exactly three per face line |
| ParserFacts.ParseAccount | render3d.cpp:518-648 | a successful parse returns the usemtl names in order, one per usemtl line; one submesh more than the usemtl lines that close faces; and three vertices per face in total |
| ParserFacts.NoUseMtlOneSubmesh | render3d.cpp:638-647 | a file without usemtl lines parses to a single submesh and an empty name list |
| ParserFacts.NamesMatchSubmeshes | render3d.cpp:1649 | the name count equals the submesh count, as CreatePBRMesh asserts, iff the usemtl count is one more than the closings |
| ParserFacts.RejectedFaceStopsParse | render3d.cpp:603-636 | the first rejected face ends the parse: failure, no names, and the submeshes closed before it are returned |
| ParserFacts.RejectionNeedsFace | render3d.cpp:603-605 | a parse can be rejected only by a face line |
| ParserFacts.AsWrittenIgnoresV2 | render3d.cpp:578 | as written, a v/t/n face with a negative third vertex index is accepted; the corrected check rejects it |
| ParserFacts.AsWrittenChecksTexcoordsForNormals | render3d.cpp:592 | as written, a v//n face is judged by its texcoord fields: negative normals pass and valid faces with stale texcoord fields fail; the corrected check does the reverse |
| ParserFacts.ZeroIndexPasses | render3d.cpp:599 | as written, index 0 is accepted and becomes -1 after the conversion; the corrected check rejects it |
| ParserFacts.IntendedParsedFacesValid | render3d.cpp:573-636 | under the corrected checks, a successful parse read every face line with every index its format names at least 1, whatever lines surround it; a face with any such index below 1 rejects the file |
| ParserExamples.ZeroIndexFile | render3d.cpp:599-636 | the file `v v v f 0 1 2` is rejected with no names and no submesh by the corrected parser, and not rejected as written |
| ParserExamples.TriangleAsWritten | render3d.cpp:506-512 | as written, three positions and one face with no vt or vn lines is undefined: texcoords are written through a null array |
| ParserExamples.TriangleIntended | render3d.cpp:460-516 | the same file, parsed by the corrected parser, gives one unnamed submesh of three vertices whose positions are the three points in order and which has no texcoords |
| ParserExamples.TwoMaterialsIntended | render3d.cpp:608-647 | usemtl A, a face, usemtl B, a face gives two submeshes named A and B, each with the three positions |
| Programs.IndexByNameIsLastWins | render3d.cpp:133-160 | the reflection map holds exactly the reflected names, each bound to the last variable reflected under that name |
| Programs.FilterBuiltins | render3d.cpp:162-167 | a name is kept as a builtin iff it is a reflected uniform and appears in the builtin registry |
| Programs.Link | render3d.cpp:129-171 | a linked program keeps its GL name, and its builtins are uniforms it has that the registry lists |
| Programs.LookupAfterLink | render3d.cpp:133-205 | after linking, a location lookup answers the last reflected variable of that name, or -1 when there is none |
| Params.Upsert | render3d.cpp:360-400 | std::map insert-or-assign: the store stays ordered, gains the name, maps it to the new value, leaves every other name alone, and grows by one iff the name was new |
| Materials.NewMaterial | render3d.cpp:250-253 | a new material has the given program, no parameters, is opaque and starts at texture unit 0 |
| Materials.SetFloatParam | render3d.cpp:360-372 | the name now maps to the float; every other name, the program, translucency and unit are unchanged |
| Materials.SetMatrixParam | render3d.cpp:374-386 | the name now maps to the matrix; everything else is unchanged |
| Materials.SetTextureParam | render3d.cpp:388-400 | the name now maps to the texture (possibly null); the key set gains exactly that name; everything else is unchanged |
| Materials.SetTranslucent | render3d.cpp:407-410 | only the translucency flag changes |
| Materials.SetParamOverwrites | render3d.cpp:360-372 | setting a parameter twice equals setting it once with the second value, and adds at most one entry |
| Materials.UpdateBuiltins | render3d.cpp:265-324 | refreshing the builtins keeps the program, translucency, texture unit and camera view, and never lowers the GL name counter |
| Materials.UpdateBuiltinsKeeps | render3d.cpp:269-323 | parameters not named among the program's builtins are untouched |
| Materials.UpdateBuiltinsSetsMatrices | render3d.cpp:271-302 | every matrix builtin is bound to its expected matrix (world, view, projection, world-view, view-projection or WVP) |
| Materials.RefreshEnv | render3d.cpp:303-322 | an environment builtin holds exactly the texture, possibly null, the renderer's getter returns, which is the renderer's pointer for that texture afterwards; no other pointer changes; writing over a non-texture parameter is undefined |
| Materials.UpdateBuiltinsKeepsEnv | render3d.cpp:303-322 | refreshing builtins none of which names environment texture e leaves the renderer's pointer for e alone |
| Materials.UpdateBuiltinsSetsTextures | render3d.cpp:303-322 | after the refresh every environment builtin holds exactly what the renderer's pointer for its texture holds: the texture once a load succeeded, null otherwise |
| Materials.ParamCallsUnits | render3d.cpp:417-452 | applying one parameter uses one texture unit iff it is a non-null texture, and that unit is the next free one |
| Materials.ApplyParams | render3d.cpp:341-347 | applying the store hands out consecutive texture units from the start unit, one per live texture, and issues only material calls |
| Materials.ApplyParamsSetsFloats | render3d.cpp:341-347 | every float parameter is set through its uniform |
| Materials.ApplyParamsBindsTexture | render3d.cpp:341-347 | every texture parameter holding a texture is bound on the unit after those of the textures before it in key order, and its sampler uniform points at that unit |
| Materials.ApplyParamsSetsMatrices | render3d.cpp:341-347 | every matrix parameter in the store is uploaded to its uniform location |
| Materials.Apply | render3d.cpp:326-348 | a null program is undefined behaviour; otherwise the idle unit ends at the number of live textures, and no draw, buffer upload or VAO creation happens |
| Materials.ApplyTrace | render3d.cpp:326-348 | Apply first uses the program and then binds texture units 0, 1, ... in order |
| Materials.ApplySetsParams | render3d.cpp:326-348 | every float the applied material holds is set through its uniform, and every texture it holds is bound, with its sampler pointed at the unit after those of the textures before it |
| Materials.ApplySetsMatrices | render3d.cpp:265-348 | every matrix builtin of the program reaches the GL as its expected matrix |
| Materials.ApplyForgetsUnit | render3d.cpp:350-353 | the result of Apply does not depend on the idle unit left by an earlier Apply |
| Materials.BuiltinOperandOrder | render3d.cpp:286-302 | matWorldView is view times world and matWVP is view-projection times world, in that operand order |
| Transforms.NewPose | render3d.h:274-281 | a new mesh pose is at the origin with unit scale and a dirty transform |
| Transforms.SetPosition | render3d.cpp:879-883 | the position changes, the transform becomes dirty, and rotation and scale are kept |
| Transforms.SetRotation | render3d.cpp:885-889 | the rotation changes, the transform becomes dirty, and position and scale are kept |
| Transforms.SetScale | render3d.cpp:891-895 | the scale changes, the transform becomes dirty, and position and rotation are kept |
| Transforms.SetTransform | render3d.cpp:919-923 | the given matrix is stored and marked clean, and the pose components are kept |
| Transforms.GetTransform | render3d.cpp:925-936 | the read returns the current transform and caches it clean; a clean pose is returned unchanged |
| Transforms.GetTransformIdempotent | render3d.cpp:925-936 | a second read returns the same matrix and state as the first |
| Transforms.SetterThenRead | render3d.cpp:879-936 | after a setter, the read yields the TRS matrix of the updated components |
| Transforms.SetTransformThenRead | render3d.cpp:919-936 | after SetTransform, reads return the set matrix until a setter intervenes |
| Transforms.NewCamera | render3d.cpp:938-950 | a new camera sits at (0, 0, 1000) with a 60-degree perspective of the viewport ratio and both caches dirty |
| Transforms.CameraSetPosition | render3d.cpp:962-967 | moving the camera dirties both the view and the view-projection caches |
| Transforms.CameraSetRotation | render3d.cpp:974-979 | rotating the camera dirties both caches |
| Transforms.SetViewMatrix | render3d.cpp:995-1000 | the given view is stored clean and the view-projection cache is dirtied |
| Transforms.SetProjectionMatrix | render3d.cpp:1007-1011 | the projection is replaced and only the view-projection cache is dirtied |
| Transforms.MakeOrthographic | render3d.cpp:1025-1053 | the projection becomes the orthographic one for the camera's flip flag and the view-projection cache is dirtied |
| Transforms.MakePerspective | render3d.cpp:1055-1077 | the projection becomes the perspective one and the view-projection cache is dirtied |
| Transforms.MakePnPProjection | render3d.cpp:1079-1096 | the projection becomes the PnP one and the view-projection cache is dirtied |
| Transforms.GetViewMatrix | render3d.cpp:981-993 | the read returns the current view, caches it clean, and changes nothing else |
| Transforms.GetViewProjectionMatrix | render3d.cpp:1013-1023 | a dirty cache yields projection times current view; the flag is never cleared |
| Transforms.VpFlagStaysSet | render3d.cpp:1013-1023 | once set, no sequence of camera operations clears the view-projection flag |
| Transforms.ViewProjectionAlwaysFresh | render3d.cpp:938-1096 | from construction on, whatever operations run, the view-projection read equals projection times current view |
| Resources.ProgramKey | render3d.cpp:1414 | the cache key is vertex path, fragment path and macros concatenated in that order |
| Resources.LoadProgramDistinct | render3d.cpp:1412-1432 | a load keeps every cached program and keeps their GL names pairwise different; a program it returns is the one cached under its key |
| Resources.MacroVariantsDistinct | render3d.cpp:1412-1432 | one shader pair loaded under two different macro prefixes gives two programs with different GL names |
| Resources.LoadProgramTwice | render3d.cpp:1412-1432 | loading a program again after a success is a cache hit with no state change |
| Resources.ProgramKeysCollide | render3d.cpp:1414 | ("ab", "c") and ("a", "bc") share a key, so the second request returns the first program |
| Resources.LoadTexture | render3d.cpp:1434-1514 | a hit returns the cached texture and its stored flag; a missing image returns null; otherwise a fresh RGBA 2D texture is cached with the translucency found only when a flag was requested |
| Resources.LoadTextureThenHit | render3d.cpp:1436-1444 | a second load of a loaded path changes nothing and reports the same texture and flag |
| Resources.FlaglessLoadHidesTranslucency | render3d.cpp:1511 | a first load without a flag caches "opaque", so later flagged loads report false |
| Resources.FlagReportsPartialAlpha | render3d.cpp:1472-1505 | a flagged first load reports translucent iff the image is SRGBA or SBGRA with some alpha strictly between 0 and 255 |
| Resources.DecimalRoundTrip | render3d.cpp:1531 | the %d rendering of a mip level reads back as that level |
| Resources.DecimalInjective | render3d.cpp:1531 | different mip levels give different decimal strings |
| Resources.FaceFileNamesDistinct | render3d.cpp:1531 | for one base, two face file names are equal iff they are for the same face and the same mip level |
| Resources.FillCubeFaces | render3d.cpp:1516-1543 | defined iff all six face names fit the 512-byte buffer and all six images exist; the reported size is the width of the last face, "front" |
| Resources.HalvingsIsLog | render3d.cpp:1568-1575 | halving a positive size until zero takes floor(log2 size) + 1 steps |
| Resources.MipChainOk | render3d.cpp:1565-1576 | the mip loop is defined iff every visited level's faces load |
| Resources.MipLevelsLoaded | render3d.cpp:1565-1576 | for a face size above 2, the mip loop loads levels 1 to floor(log2 size) |
| Resources.LoadCubeTexture | render3d.cpp:1545-1583 | a hit returns the cached texture; otherwise it is defined iff level 0 and the requested mip chain load, and it caches a fresh opaque RGBA cube texture sized by the front face |
| Resources.CubeLoaderReturnsCached2D | render3d.cpp:1547-1551 | a path already loaded as a 2D texture comes back from the cube loader as that 2D texture |
| Resources.GetEnvTexture | render3d.cpp:1922-1965 | a memoised pointer is returned as is; a non-null load is memoised; a null one is not; other environment slots are unchanged |
| Resources.EnvFaultsOnlyForCubes | render3d.cpp:1922-1947 | the three 2D environment getters are always defined and non-null when their image exists |
| Resources.EnvMemoised | render3d.cpp:1922-1965 | after a non-null result, the getter returns it again whatever the images later hold |
| Resources.EnvRetriesAfterNull | render3d.cpp:1922-1947 | a null result is not memoised: the next call loads again and can succeed |
| Resources.Evict | render3d.cpp:836-844 | exactly the mesh's associated paths leave the texture cache; other entries, programs and environment pointers stay |
| Resources.SharedPathReloadedAfterEviction | render3d.cpp:836-844 | a texture shared by two meshes is evicted with the first, and the second's next load creates a new GL texture |
| Textures.ScanRow | render3d.cpp:1484-1497 | the column scan finds a partial alpha iff some pixel from that column onward has one |
| Textures.ScanRows | render3d.cpp:1482-1503 | the row scan finds a partial alpha iff some pixel in a remaining row has one |
| Textures.ScanTranslucent | render3d.cpp:1472-1505 | an image is translucent iff it is SRGBA or SBGRA and some alpha is strictly between 0 and 255 |
| PbrPaths.StripExtension | render3d.cpp:1588-1591 | defined iff the path has 4 to 259 characters; the stem is the path's prefix up to its first NUL, and for a NUL-free path exactly the path minus four characters |
| PbrPaths.StripExtensionRoundTrip | render3d.cpp:1588-1591 | stripping a NUL-free stem plus any four-character extension returns the stem |
| PbrPaths.MirrorPath | render3d.cpp:1592-1598 | undefined iff the stem has no '/'; otherwise it grows by the mirror and a slash |
| PbrPaths.MirrorPathInserts | render3d.cpp:1594-1597 | "dir/name" becomes "dir/mirror/name" |
| PbrPaths.MirrorPathRoundTrip | render3d.cpp:1594-1597 | cutting the inserted "/mirror" out of the result gives back the stem |
| PbrPaths.TexturePath | render3d.cpp:1669-1673 | a map path is the stem, "_", the material name, "_" and the map's suffix |
| PbrPaths.TexturePathKindsDiffer | render3d.cpp:1670-1673 | the four map kinds never share a path, whatever the stems and names |
| PbrPaths.TexturePathNamesDiffer | render3d.cpp:1669-1673 | different material names under one stem never share a path |
| PbrPaths.Macros | render3d.cpp:1701-1712 | the macro string starts with the normal-map define iff a normal map loaded and ends with the emissive define iff an emissive map loaded |
| PbrPaths.MacrosInjective | render3d.cpp:1701-1712 | the macro string determines which optional maps loaded |
| PbrPaths.PbrProgramKeysDiffer | render3d.cpp:1701-1714 | different optional-map combinations give different program cache keys |
| PbrPaths.NewmtlFallbackFinds | render3d.cpp:1617-1639 | the fallback scan is always defined and finds a name iff "newmtl" occurs in the stem |
| PbrPaths.ScanFromName | render3d.cpp:1621-1637 | a name found contains no NUL or line break and starts one character after the first occurrence of "newmtl" |
| Pbr.TextureLoader | render3d.cpp:1434-1514 | the texture loader used for the maps never drops or changes a cached entry, caches what it returns, and reports the cached flag |
| Pbr.Retry | render3d.cpp:1680-1695 | the retry from the unmirrored stem runs only after a null load with a mirror in use, and then the slot's path becomes the unmirrored one whether or not it loads |
| Pbr.RetryKeeps | render3d.cpp:1680-1695 | the mirror retry runs only after a null load, keeps every cached entry, and reports the reloaded base map's cached flag |
| Pbr.LoadMaps | render3d.cpp:1667-1695 | each map slot ends with the mirror path, or the original path after a failed mirror load |
| Pbr.LoadMapsCached | render3d.cpp:1676-1695 | every loaded map is in the cache under the path its slot records |
| Pbr.LoadMapsTranslucency | render3d.cpp:1675-1683 | the material's translucency is the cached flag of the base map, and false when the base map is null |
| Pbr.PbrMaterial | render3d.cpp:1716-1733 | a material exists iff the program loaded; baseMap and rmaMap are always bound, possibly null; normalMap and emissiveMap only when loaded |
| Pbr.MapPathsRecorded | render3d.cpp:1698-1711 | the base and RMA paths are always recorded as associated; the normal and emissive paths are recorded iff those maps loaded |
| Pbr.PlaceMaterial | render3d.cpp:1716-1733 | only submesh i changes, keeps its buffers, and gets the PBR material when the program loaded; the map paths join the associated set |
| Pbr.MaterialStep | render3d.cpp:1666-1734 | one loop iteration changes only submesh i, keeps its buffers, records that material's base and RMA paths, and gives the submesh the PBR material for its name (maps cached for that name, translucency recorded with the base map, program cached for the variant naming exactly its optional maps) holding exactly the optional maps this iteration loaded; only when the program for that variant fails to compile is the old material left alone |
| Pbr.MaterialFor | render3d.cpp:1697-1733 | the material one iteration places is the PBR material for its name against the caches after the iteration, holding exactly the normal and emissive maps the iteration loaded, or the old one when the program for that variant fails to compile |
| Pbr.AssembleFrom | render3d.cpp:1666-1734 | over the remaining materials, buffers are kept, every cached texture and program stays, every material's base and RMA paths are recorded, and submesh j gets the PBR material for name j with the optional maps its own iteration loaded, or keeps its material when the program for that variant fails to compile |
| Pbr.Furnish | render3d.cpp:1616-1736 | undefined iff there are names but not one per submesh; with no names the bare parsed mesh is returned |
| Pbr.CreatePbrMesh | render3d.cpp:1586-1737 | under either parser policy, a returned mesh is the parse of the file with its buffers intact, every submesh furnished or bare, and every material's base and RMA paths recorded; every cached texture and program stays |
| Pbr.CreatePbrMeshMaterials | render3d.cpp:1666-1734 | submesh j of a returned mesh holds the PBR material for usemtl name j, with the maps and program variant the caches hold for it and exactly the optional maps its own iteration loaded, unless the program for that variant failed to compile; under either parser policy |
| Pbr.CreatePbrMeshFaults | render3d.cpp:1586-1649 | under either parser policy, undefined iff the path's length is outside 4-259, a mirror is given for a stem without '/', or a non-empty file parses to undefined behaviour or to names that do not match the submeshes one to one |
| Pbr.CreatePbrMeshNull | render3d.cpp:1601-1614 | under either parser policy, the result is null iff the file is empty or the parse is rejected |
| Pbr.CreatePbrMeshUnnamed | render3d.cpp:1616-1646 | under either parser policy, a file without usemtl gives the bare parsed mesh with no materials, and the caches are untouched |
| Render.NewSubMesh | render3d.cpp:650-653 | a new submesh owns its arrays, has no material, is static and has no GL objects |
| Render.UploadAttr | render3d.cpp:719-724 | an attribute is uploaded iff its array is present and its buffer is unset; the upload takes a fresh name and releases the array |
| Render.UploadArrays | render3d.cpp:718-758 | after the uploads every CPU array is released and each call uploads into a freshly named buffer |
| Render.SetupBuffers | render3d.cpp:709-758 | a VAO is created iff the submesh is static; the arrays are released; a dynamic, released submesh issues no calls |
| Render.SetupBuffersTrace | render3d.cpp:709-758 | setup never draws, uploads only into fresh buffers, and creates one VAO iff the submesh is static |
| Render.DrawVertices | render3d.cpp:709-786 | after drawing, the submesh is released and has a VAO unless dynamic |
| Render.DrawVerticesTrace | render3d.cpp:709-786 | a draw issues exactly one draw call, at its site, and uploads only into fresh buffers |
| Render.DrawVerticesCreates | render3d.cpp:709-761 | a VAO is created iff the submesh is static and has none; a released submesh with a VAO uploads nothing |
| Render.SubMeshRender | render3d.cpp:697-787 | without a material nothing happens; otherwise the submesh ends released with a VAO unless dynamic, and its pass role is kept |
| Render.SubMeshRenderTrace | render3d.cpp:697-787 | a render draws once iff the submesh has a material, and uploads only into fresh buffers |
| Render.UploadsOnce | render3d.cpp:709-761 | a second render of a drawn submesh uploads nothing and creates no VAO |
| Render.MarkDymc | render3d.cpp:809-812 | only the dynamic flag changes |
| Render.UpdatePositions | render3d.cpp:814-821 | an update is issued iff the submesh is dynamic and has a position buffer, and it overwrites vertexCount positions |
| Render.UpdateNeedsFirstDraw | render3d.cpp:814-821 | updating a dynamic submesh before its first draw does nothing; after the draw it updates the buffer created by that draw |
| Render.NewMesh | render3d.cpp:823-826 | a new mesh has no submeshes or associated textures, and the default pose |
| Render.GetSubMesh | render3d.cpp:912-917 | the result is present iff the index is in range, and then it is that submesh |
| Render.PassFrom | render3d.cpp:852-870 | every draw of a pass is a submesh of that mesh whose material has the pass's translucency; each submesh's role and the associated textures are kept |
| Render.ListPass | render3d.cpp:1348-1368 | one pass over the list: defined only if every listed mesh is alive, and it draws the sites of the meshes of the pass's kind, in list order |
| Render.RenderMeshes | render3d.cpp:1348-1368 | the frame is defined only if every listed mesh is alive; it draws the opaque sites of the list and then the translucent ones |
| Render.OpaqueBeforeTranslucent | render3d.cpp:1348-1368 | in a frame's draw order every drawn submesh has a material, and no opaque draw follows a translucent one |
| Render.AddMesh | render3d.cpp:1899-1908 | a null mesh is ignored; a mesh is appended iff it is not already listed; the list stays duplicate-free |
| Render.RemoveMesh | render3d.cpp:1910-1920 | a null mesh is ignored; otherwise the first occurrence is erased |
| Render.RemoveMeshRemoves | render3d.cpp:1910-1920 | on a duplicate-free list, removal leaves exactly the other meshes |
| Render.AddThenRemove | render3d.cpp:1899-1920 | adding an unlisted mesh and then removing it restores the list |
| Render.DestroyMesh | render3d.cpp:828-845 | destroying a live mesh drops it and evicts its associated textures, but leaves the render list alone; a dead one is undefined |
| Render.DestroyedButListedFaults | render3d.cpp:828-845 | a destroyed mesh that was not removed from the list makes the next frame undefined |

## Left out

- Shader compilation and linking through the GL (`render3d.cpp:89-160`). The
  `Compiler` oracle stands for them and returns the reflected attributes and
  uniforms.
- `ReadTextFile`, `getImageFrameFromPath`, sscanf's float parsing and
  `CONCAT_RESOURCE_PATH`. They are oracles or parameters because their code is
  not part of this model.
- Floating-point numerics: the values of the projection matrices, Eigen's
  TRS composition and inverse, and the matrix products. These are
  uninterpreted terms.
- GL sampler state, mipmap generation for 2D textures, attribute pointers,
  enabling and disabling attributes, and blend or depth state. None of them
  changes which objects are created or drawn, so they are not in the trace.
- Texture object creation and image uploads (`glGenTextures` and
  `glTexImage2D` at `render3d.cpp:1458-1460` and `1535`, `1557`). A loaded
  texture takes a fresh name from the caches, but these calls are not in the
  GL trace. The trace records buffer uploads only, so "no upload" in a
  contract means no vertex-buffer upload.
- A first word of 256 or more characters on a line that starts with `vt` or
  `vn` overflows `char temp[256]` through sscanf's `%s`
  (`render3d.cpp:545`, `561`, `567`). The model reads such a line as an
  ordinary texcoord or normal line. On `v ` and `f ` lines the word is one
  letter, and a usemtl name is not read through `temp`.
- One shared `nextName` counter stands for the GL's separate name spaces for
  programs, textures, buffers and VAOs.
- Raw `delete`: after eviction another mesh's material can still hold the
  freed `Texture*`. The model shows that the path reloads as a new texture
  (`Resources.SharedPathReloadedAfterEviction`), but it does not model the
  dangling pointer.
- The other mesh factories (`render3d.cpp:1739-1897`), `replaceTexture`
  (`render3d.cpp:872`), and the commented-out `.material` block
  (`render3d.cpp:1654-1663`). They are outside the modelled core.
- Framebuffers and MSAA, `BeginRender`, `EndRender` and `RenderBackground`
  (`render3d.cpp:1099-1395`, except `RenderMeshes`). These are GPU-only.
- Declarations in `render3d.h` with no definition in `render3d.cpp`:
  spherical-harmonics parameters, `PngImage`, `SetName`/`GetName`,
  `LoadSHTextures` and `CreateGlassesMesh`.
- Pbr.CreatePbrMesh: assumes the texture loader keeps cached entries
  (`Pbr.Loads`), which `Pbr.TextureLoader` proves for the real loader.
- Resources.LoadEnv: the diffuse IBL getter (`render3d.cpp:1953`) calls
  `LoadCubeTexture` with one argument, but the definition
  (`render3d.cpp:1545`) has no default for `load_mipmap_chain` and
  `render3d.h` does not declare it. The model assumes `false`, that is no
  mip chain for the diffuse cube map.
- 32-bit integers: the parser's indices are `int` read with `%d` and
  decremented in place (`render3d.cpp:486-497`). The model keeps them
  unbounded, so `f 1//-2147483648 …` is decremented without the signed
  overflow the source would hit there. As written, such an index is then
  an out-of-range read in `Geometry.GenerateSubMesh`; the corrected checks
  reject the face.
- Materials.SetFloatParam: requires the name to be absent or already a float
  parameter. The source's `static_cast` to the wrong kind
  (`render3d.cpp:365`) is not modelled.
  The same holds for Materials.SetMatrixParam and Materials.SetTextureParam.

## Findings

| source | as written | input that shows it | evidently intended | confidence | as-written member | corrected member |
|---|---|---|---|---|---|---|
| render3d.cpp:578 | the v/t/n index check tests v0 and v1 but never v2 | `f 1/1/1 2/1/1 -5/1/1` | every vertex index is checked | not executed | ParserFacts.AsWrittenIgnoresV2 | ParserFacts.IntendedParsedFacesValid |
| render3d.cpp:592 | the v//n check tests the t fields, which sscanf did not write, instead of the n fields | `f 1//-1 2//-1 3//-1` passes; `f 1//1 2//1 3//1` fails when the stale t fields are negative | the normal indices are checked | not executed | ParserFacts.AsWrittenChecksTexcoordsForNormals | ParserFacts.IntendedParsedFacesValid |
| render3d.cpp:599 | the index checks test only `< 0` before the 1-to-0-based conversion | `f 0 1 2` | indices below 1 are rejected | not executed | ParserFacts.ZeroIndexPasses | ParserFacts.IntendedParsedFacesValid |
| render3d.cpp:506-512 | texcoord and normal arrays are written whether or not they were allocated | three `v` lines and `f 1 2 3`, with no `vt` or `vn` | only allocated arrays are written | not executed | ParserExamples.TriangleAsWritten | ParserExamples.TriangleIntended |
