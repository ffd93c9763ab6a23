/** Renderer::CreatePBRMesh (render3d.cpp:1586-1737): read and parse an OBJ
    file into a new mesh, then give every submesh a PBR material whose maps
    are found next to the file by name, through the renderer's texture and
    program caches. The mesh is returned to the caller; it is not added to
    the render list. */
module Pbr {
  import opened Base
  import opened Programs
  import opened Textures
  import opened Params
  import opened Transforms
  import opened Resources
  import opened Materials
  import opened Geometry
  import opened ObjParser
  import opened Render
  import opened PbrPaths

  /** What the function reads from outside: file contents (empty when the
      file cannot be read, as ReadTextFile returns), the texture loader
      (Renderer::LoadTexture over the decoded images: TextureLoader), the
      shader compiler, the line scanner of the parser, and the two shader
      paths after CONCAT_RESOURCE_PATH. */
  datatype Sources = Sources(
    files: string -> string,
    load: Loader,
    compile: Compiler,
    scanner: Scanner,
    vert: string,
    frag: string)

  // ---------------------------------------------------------------------
  // The four maps of one material

  /** A map's texture, possibly null, and the path last tried for it. */
  datatype MapSlot = MapSlot(texture: Option<Texture>, path: string)

  datatype MapsLoad = MapsLoad(caches: Caches, base: MapSlot, rma: MapSlot, normal: MapSlot, emissive: MapSlot, translucent: bool)

  /** A texture load as the material loop performs it: caches, path and
      flag pointer in; caches, texture and flag out. */
  type Loader = (Caches, string, Option<bool>) -> TextureLoad

  /** A texture that was loaded is in the cache under the path the slot
      names. */
  predicate CachedAt(c: Caches, slot: MapSlot)
  {
    slot.texture.Some? ==> slot.path in c.textures && c.textures[slot.path].texture == slot.texture.value
  }

  /** What the material loop relies on about one load: entries already
      cached stay, a null result changes nothing, a texture is cached under
      its path, and a flag pointer receives the translucency cached there. */
  predicate LoadKeeps(c: Caches, path: string, flag: Option<bool>, t: TextureLoad)
  {
    && (NamesBelow(c) ==> NamesBelow(t.caches))
    && t.caches.programs == c.programs && t.caches.nextName >= c.nextName
    && (forall p :: p in c.textures ==> p in t.caches.textures && t.caches.textures[p] == c.textures[p])
    && (t.texture.None? ==> t.caches == c && t.flag == flag)
    && CachedAt(t.caches, MapSlot(t.texture, path))
    && (t.texture.Some? ==> (t.flag.Some? <==> flag.Some?))
    && (t.texture.Some? && flag.Some? ==> t.flag == Some(t.caches.textures[path].translucent))
  }

  ghost predicate Loads(load: Loader)
  {
    forall c, path, flag {:trigger LoadKeeps(c, path, flag, load(c, path, flag))} :: LoadKeeps(c, path, flag, load(c, path, flag))
  }

  /** Renderer::LoadTexture keeps what the material loop relies on. */
  lemma LoadTextureKeeps(c: Caches, path: string, flag: Option<bool>, images: ImageSource)
    ensures LoadKeeps(c, path, flag, LoadTexture(c, path, flag, images))
  {
    var t := LoadTexture(c, path, flag, images);
    if path !in c.textures && images(path).Some? {
      assert t.caches.textures == c.textures[path := t.caches.textures[path]];
    }
  }

  /** Renderer::LoadTexture over a fixed image source. */
  function TextureLoader(images: ImageSource): (load: Loader)
    ensures Loads(load)
  {
    var load: Loader := (c, path, flag) => LoadTexture(c, path, flag, images);
    assert Loads(load) by {
      forall c, path, flag
        ensures LoadKeeps(c, path, flag, load(c, path, flag))
      {
        LoadTextureKeeps(c, path, flag, images);
      }
    }
    load
  }

  datatype Retried = Retried(caches: Caches, slot: MapSlot, flag: Option<bool>)

  /** The retry from the unmirrored stem (render3d.cpp:1680-1695): taken
      only when the first load gave null and a mirror is in use. The slot's
      path becomes the retried one whether or not the retry loads. */
  function Retry(c: Caches, first: MapSlot, backup: Option<string>, name: string, k: MapKind,
                 flag: Option<bool>, load: Loader): (r: Retried)
    ensures first.texture.Some? || backup.None? ==> r == Retried(c, first, flag)
    ensures first.texture.None? && backup.Some? ==> r.slot.path == TexturePath(backup.value, name, k)
  {
    if first.texture.Some? || backup.None? then Retried(c, first, flag)
    else
      var path := TexturePath(backup.value, name, k);
      var t := load(c, path, flag);
      Retried(t.caches, MapSlot(t.texture, path), t.flag)
  }

  /** A retry keeps what the loop relies on, like a single load. */
  lemma RetryKeeps(c: Caches, first: MapSlot, backup: Option<string>, name: string, k: MapKind,
                   flag: Option<bool>, load: Loader)
    requires Loads(load) && CachedAt(c, first)
    ensures var r := Retry(c, first, backup, name, k, flag, load);
      && (NamesBelow(c) ==> NamesBelow(r.caches))
      && r.caches.programs == c.programs && r.caches.nextName >= c.nextName
      && (forall p :: p in c.textures ==> p in r.caches.textures && r.caches.textures[p] == c.textures[p])
      && CachedAt(r.caches, r.slot)
      && (r.slot.texture.None? ==> r.flag == flag)
      && (first.texture.Some? ==> r == Retried(c, first, flag))
      && (r.slot.texture.Some? && first.texture.None? && flag.Some? ==> r.flag == Some(r.caches.textures[r.slot.path].translucent))
  {
    if first.texture.None? && backup.Some? {
      var path := TexturePath(backup.value, name, k);
      assert LoadKeeps(c, path, flag, load(c, path, flag));
    }
  }

  /** The loads of one material (render3d.cpp:1667-1695), in the source's
      order: the four maps from `stem`, then the retries from `backup`.
      Only the base map is loaded with the translucency flag, which starts
      false. */
  function LoadMaps(c: Caches, stem: string, backup: Option<string>, name: string, load: Loader): (r: MapsLoad)
    ensures PathOf(r.base, stem, backup, name, BaseMap) && PathOf(r.rma, stem, backup, name, RmaMap)
    ensures PathOf(r.normal, stem, backup, name, NormalMap) && PathOf(r.emissive, stem, backup, name, EmissiveMap)
  {
    var b := load(c, TexturePath(stem, name, BaseMap), Some(false));
    var m := load(b.caches, TexturePath(stem, name, RmaMap), None);
    var n := load(m.caches, TexturePath(stem, name, NormalMap), None);
    var e := load(n.caches, TexturePath(stem, name, EmissiveMap), None);
    var b2 := Retry(e.caches, MapSlot(b.texture, TexturePath(stem, name, BaseMap)), backup, name, BaseMap, b.flag, load);
    var m2 := Retry(b2.caches, MapSlot(m.texture, TexturePath(stem, name, RmaMap)), backup, name, RmaMap, None, load);
    var n2 := Retry(m2.caches, MapSlot(n.texture, TexturePath(stem, name, NormalMap)), backup, name, NormalMap, None, load);
    var e2 := Retry(n2.caches, MapSlot(e.texture, TexturePath(stem, name, EmissiveMap)), backup, name, EmissiveMap, None, load);
    MapsLoad(e2.caches, b2.slot, m2.slot, n2.slot, e2.slot, b2.flag == Some(true))
  }

  /** The slot's path is the map's path under the stem, or under the
      backup stem after a retry. */
  predicate PathOf(slot: MapSlot, stem: string, backup: Option<string>, name: string, k: MapKind)
  {
    slot.path == TexturePath(stem, name, k) || (backup.Some? && slot.path == TexturePath(backup.value, name, k))
  }

  /** The first four loads, with what the loop relies on after them. */
  lemma FirstLoadsKeep(c: Caches, stem: string, name: string, load: Loader)
    requires Loads(load)
    ensures var b := load(c, TexturePath(stem, name, BaseMap), Some(false));
      var m := load(b.caches, TexturePath(stem, name, RmaMap), None);
      var n := load(m.caches, TexturePath(stem, name, NormalMap), None);
      var e := load(n.caches, TexturePath(stem, name, EmissiveMap), None);
      && (NamesBelow(c) ==> NamesBelow(e.caches))
      && e.caches.programs == c.programs && e.caches.nextName >= c.nextName
      && KeepsAll(c, e.caches)
      && CachedAt(e.caches, MapSlot(b.texture, TexturePath(stem, name, BaseMap)))
      && CachedAt(e.caches, MapSlot(m.texture, TexturePath(stem, name, RmaMap)))
      && CachedAt(e.caches, MapSlot(n.texture, TexturePath(stem, name, NormalMap)))
      && CachedAt(e.caches, MapSlot(e.texture, TexturePath(stem, name, EmissiveMap)))
      && (b.texture.Some? ==> b.flag == Some(e.caches.textures[TexturePath(stem, name, BaseMap)].translucent))
      && (b.texture.None? ==> b.flag == Some(false))
  {
    var b := load(c, TexturePath(stem, name, BaseMap), Some(false));
    var m := load(b.caches, TexturePath(stem, name, RmaMap), None);
    var n := load(m.caches, TexturePath(stem, name, NormalMap), None);
    var e := load(n.caches, TexturePath(stem, name, EmissiveMap), None);
    assert LoadKeeps(c, TexturePath(stem, name, BaseMap), Some(false), b);
    assert LoadKeeps(b.caches, TexturePath(stem, name, RmaMap), None, m);
    assert LoadKeeps(m.caches, TexturePath(stem, name, NormalMap), None, n);
    assert LoadKeeps(n.caches, TexturePath(stem, name, EmissiveMap), None, e);
  }

  /** The loads keep the caches' invariants and leave the program cache
      alone. */
  lemma LoadMapsKeep(c: Caches, stem: string, backup: Option<string>, name: string, load: Loader)
    requires Loads(load)
    ensures var r := LoadMaps(c, stem, backup, name, load);
      && (NamesBelow(c) ==> NamesBelow(r.caches))
      && r.caches.programs == c.programs && r.caches.nextName >= c.nextName
      && KeepsAll(c, r.caches)
  {
    var b := load(c, TexturePath(stem, name, BaseMap), Some(false));
    var m := load(b.caches, TexturePath(stem, name, RmaMap), None);
    var n := load(m.caches, TexturePath(stem, name, NormalMap), None);
    var e := load(n.caches, TexturePath(stem, name, EmissiveMap), None);
    FirstLoadsKeep(c, stem, name, load);
    var sb, sm := MapSlot(b.texture, TexturePath(stem, name, BaseMap)), MapSlot(m.texture, TexturePath(stem, name, RmaMap));
    var sn, se := MapSlot(n.texture, TexturePath(stem, name, NormalMap)), MapSlot(e.texture, TexturePath(stem, name, EmissiveMap));
    var b2 := Retry(e.caches, sb, backup, name, BaseMap, b.flag, load);
    RetryKeeps(e.caches, sb, backup, name, BaseMap, b.flag, load);
    var m2 := Retry(b2.caches, sm, backup, name, RmaMap, None, load);
    RetryKeeps(b2.caches, sm, backup, name, RmaMap, None, load);
    var n2 := Retry(m2.caches, sn, backup, name, NormalMap, None, load);
    RetryKeeps(m2.caches, sn, backup, name, NormalMap, None, load);
    RetryKeeps(n2.caches, se, backup, name, EmissiveMap, None, load);
  }

  /** After the loads every map that is not null sits in the texture cache
      under the path recorded for it. */
  lemma LoadMapsCached(c: Caches, stem: string, backup: Option<string>, name: string, load: Loader)
    requires Loads(load)
    ensures var r := LoadMaps(c, stem, backup, name, load);
      CachedAt(r.caches, r.base) && CachedAt(r.caches, r.rma) && CachedAt(r.caches, r.normal) && CachedAt(r.caches, r.emissive)
  {
    var b := load(c, TexturePath(stem, name, BaseMap), Some(false));
    var m := load(b.caches, TexturePath(stem, name, RmaMap), None);
    var n := load(m.caches, TexturePath(stem, name, NormalMap), None);
    var e := load(n.caches, TexturePath(stem, name, EmissiveMap), None);
    FirstLoadsKeep(c, stem, name, load);
    var sb, sm := MapSlot(b.texture, TexturePath(stem, name, BaseMap)), MapSlot(m.texture, TexturePath(stem, name, RmaMap));
    var sn, se := MapSlot(n.texture, TexturePath(stem, name, NormalMap)), MapSlot(e.texture, TexturePath(stem, name, EmissiveMap));
    var b2 := Retry(e.caches, sb, backup, name, BaseMap, b.flag, load);
    RetryKeeps(e.caches, sb, backup, name, BaseMap, b.flag, load);
    var m2 := Retry(b2.caches, sm, backup, name, RmaMap, None, load);
    RetryKeeps(b2.caches, sm, backup, name, RmaMap, None, load);
    var n2 := Retry(m2.caches, sn, backup, name, NormalMap, None, load);
    RetryKeeps(m2.caches, sn, backup, name, NormalMap, None, load);
    var e2 := Retry(n2.caches, se, backup, name, EmissiveMap, None, load);
    RetryKeeps(n2.caches, se, backup, name, EmissiveMap, None, load);
    KeptCached(e.caches, b2.caches, m2.caches, n2.caches, e2.caches, sb, sm, sn, se, b2.slot, m2.slot, n2.slot);
  }

  /** The submesh's translucency is the one the cache records for its base
      map (the flag the first loader of that path reported), and false
      when the base map is null. */
  lemma LoadMapsTranslucency(c: Caches, stem: string, backup: Option<string>, name: string, load: Loader)
    requires Loads(load)
    ensures var r := LoadMaps(c, stem, backup, name, load);
      && (r.base.texture.None? ==> !r.translucent)
      && (r.base.texture.Some? ==> r.base.path in r.caches.textures && r.translucent == r.caches.textures[r.base.path].translucent)
  {
    var b := load(c, TexturePath(stem, name, BaseMap), Some(false));
    var m := load(b.caches, TexturePath(stem, name, RmaMap), None);
    var n := load(m.caches, TexturePath(stem, name, NormalMap), None);
    var e := load(n.caches, TexturePath(stem, name, EmissiveMap), None);
    FirstLoadsKeep(c, stem, name, load);
    var sb, sm := MapSlot(b.texture, TexturePath(stem, name, BaseMap)), MapSlot(m.texture, TexturePath(stem, name, RmaMap));
    var sn, se := MapSlot(n.texture, TexturePath(stem, name, NormalMap)), MapSlot(e.texture, TexturePath(stem, name, EmissiveMap));
    var b2 := Retry(e.caches, sb, backup, name, BaseMap, b.flag, load);
    RetryKeeps(e.caches, sb, backup, name, BaseMap, b.flag, load);
    var m2 := Retry(b2.caches, sm, backup, name, RmaMap, None, load);
    RetryKeeps(b2.caches, sm, backup, name, RmaMap, None, load);
    var n2 := Retry(m2.caches, sn, backup, name, NormalMap, None, load);
    RetryKeeps(m2.caches, sn, backup, name, NormalMap, None, load);
    var e2 := Retry(n2.caches, se, backup, name, EmissiveMap, None, load);
    RetryKeeps(n2.caches, se, backup, name, EmissiveMap, None, load);
    assert LoadMaps(c, stem, backup, name, load) == MapsLoad(e2.caches, b2.slot, m2.slot, n2.slot, e2.slot, b2.flag == Some(true));
    if b2.slot.texture.Some? {
      var p := b2.slot.path;
      assert b2.flag == Some(b2.caches.textures[p].translucent);
      assert e2.caches.textures[p] == b2.caches.textures[p];
    }
  }

  /** Entries carried through a chain of caches, each keeping the previous
      one's entries. */
  predicate KeepsAll(a: Caches, b: Caches)
  {
    forall p :: p in a.textures ==> p in b.textures && b.textures[p] == a.textures[p]
  }

  lemma KeptCached(c0: Caches, c1: Caches, c2: Caches, c3: Caches, c4: Caches,
                   sb: MapSlot, sm: MapSlot, sn: MapSlot, se: MapSlot, b2: MapSlot, m2: MapSlot, n2: MapSlot)
    requires KeepsAll(c0, c1) && KeepsAll(c1, c2) && KeepsAll(c2, c3) && KeepsAll(c3, c4)
    requires CachedAt(c0, sb) && CachedAt(c0, sm) && CachedAt(c0, sn) && CachedAt(c0, se)
    requires CachedAt(c1, b2) && CachedAt(c2, m2) && CachedAt(c3, n2)
    ensures CachedAt(c4, sm) && CachedAt(c4, sn) && CachedAt(c4, se) && CachedAt(c4, b2) && CachedAt(c4, m2) && CachedAt(c4, n2)
  {
  }

  // ---------------------------------------------------------------------
  // The material and the recorded paths

  /** A material as CreatePBRMesh builds it: the base and RMA maps are set,
      possibly null, and the normal and emissive maps only when loaded. */
  predicate PbrShaped(m: Material)
  {
    && Ordered(m.params)
    && Lookup(m.params, ParamName(BaseMap)).Some? && Lookup(m.params, ParamName(BaseMap)).value.TextureParam?
    && Lookup(m.params, ParamName(RmaMap)).Some? && Lookup(m.params, ParamName(RmaMap)).value.TextureParam?
    && Keys(m.params) <= {ParamName(BaseMap), ParamName(RmaMap), ParamName(NormalMap), ParamName(EmissiveMap)}
  }

  /** The value a map's parameter holds: always for the base and RMA maps,
      only when loaded for the others. */
  function Bound(slot: MapSlot, always: bool): Option<ParamValue>
  {
    if always || slot.texture.Some? then Some(TextureParam(slot.texture)) else None
  }

  /** The parameter writes of render3d.cpp:1718-1732 on an empty store,
      over any four distinct names: the first two maps always, the last
      two only when loaded. */
  function BindMaps(m: Material, base: string, rma: string, normal: string, emissive: string, maps: MapsLoad): (r: Material)
    requires Ordered(m.params) && Keys(m.params) == {}
    requires base != rma && base != normal && base != emissive && rma != normal && rma != emissive && normal != emissive
    ensures Ordered(r.params) && Keys(r.params) <= {base, rma, normal, emissive}
    ensures Lookup(r.params, base) == Bound(maps.base, true)
    ensures Lookup(r.params, rma) == Bound(maps.rma, true)
    ensures Lookup(r.params, normal) == Bound(maps.normal, false)
    ensures Lookup(r.params, emissive) == Bound(maps.emissive, false)
    ensures r.program == m.program && r.idleUnit == m.idleUnit && r.translucent == maps.translucent
  {
    var m1 := SetTextureParam(m, base, maps.base.texture);
    var m2 := SetTextureParam(m1, rma, maps.rma.texture);
    assert Keys(m2.params) <= {base, rma};
    var m3 := SetTranslucent(m2, maps.translucent);
    assert normal !in Keys(m3.params);
    var m4 := BindIfLoaded(m3, normal, maps.normal);
    assert Keys(m4.params) <= {base, rma, normal};
    assert emissive !in Keys(m4.params);
    BindIfLoaded(m4, emissive, maps.emissive)
  }

  /** An optional map's parameter, written only when the map loaded, into
      a name not yet bound. */
  function BindIfLoaded(m: Material, name: string, slot: MapSlot): (r: Material)
    requires Ordered(m.params) && Lookup(m.params, name).None?
    ensures Ordered(r.params) && Keys(r.params) <= Keys(m.params) + {name}
    ensures Lookup(r.params, name) == Bound(slot, false)
    ensures forall n :: n != name ==> Lookup(r.params, n) == Lookup(m.params, n)
    ensures r.program == m.program && r.translucent == m.translucent && r.idleUnit == m.idleUnit
  {
    if slot.texture.Some? then SetTextureParam(m, name, slot.texture) else m
  }

  /** The submesh's material (render3d.cpp:1716-1733): created only when
      the program loaded; it binds the base and RMA maps always (null when
      not loaded), the normal and emissive maps only when loaded, and
      nothing else. */
  function PbrMaterial(maps: MapsLoad, program: Option<Program>): (r: Option<Material>)
    ensures r.Some? <==> program.Some?
    ensures r.Some? ==>
      && r.value.program == program && r.value.translucent == maps.translucent && r.value.idleUnit == 0
      && PbrShaped(r.value)
      && Lookup(r.value.params, ParamName(BaseMap)) == Bound(maps.base, true)
      && Lookup(r.value.params, ParamName(RmaMap)) == Bound(maps.rma, true)
      && Lookup(r.value.params, ParamName(NormalMap)) == Bound(maps.normal, false)
      && Lookup(r.value.params, ParamName(EmissiveMap)) == Bound(maps.emissive, false)
  {
    if program.None? then None
    else Some(BindMaps(NewMaterial(program), ParamName(BaseMap), ParamName(RmaMap), ParamName(NormalMap), ParamName(EmissiveMap), maps))
  }

  /** The paths recorded for eviction (render3d.cpp:1697-1711). */
  function MapPaths(maps: MapsLoad): set<string>
  {
    {maps.base.path, maps.rma.path}
      + (if maps.normal.texture.Some? then {maps.normal.path} else {})
      + (if maps.emissive.texture.Some? then {maps.emissive.path} else {})
  }

  /** A map's path was recorded, under the stem or the backup stem. */
  predicate Recorded(paths: set<string>, stem: string, backup: Option<string>, name: string, k: MapKind)
  {
    TexturePath(stem, name, k) in paths || (backup.Some? && TexturePath(backup.value, name, k) in paths)
  }

  lemma RecordedGrows(a: set<string>, b: set<string>, stem: string, backup: Option<string>, name: string, k: MapKind)
    requires a <= b && Recorded(a, stem, backup, name, k)
    ensures Recorded(b, stem, backup, name, k)
  {
  }

  /** The base and RMA paths are always recorded, the normal and emissive
      paths exactly when those maps loaded. */
  lemma MapPathsRecorded(maps: MapsLoad, stem: string, backup: Option<string>, name: string)
    requires PathOf(maps.base, stem, backup, name, BaseMap) && PathOf(maps.rma, stem, backup, name, RmaMap)
    requires PathOf(maps.normal, stem, backup, name, NormalMap) && PathOf(maps.emissive, stem, backup, name, EmissiveMap)
    ensures Recorded(MapPaths(maps), stem, backup, name, BaseMap) && Recorded(MapPaths(maps), stem, backup, name, RmaMap)
    ensures maps.normal.path in MapPaths(maps) <==> maps.normal.texture.Some?
    ensures maps.emissive.path in MapPaths(maps) <==> maps.emissive.texture.Some?
  {
    SlotPathsDiffer(maps, stem, backup, name);
  }

  /** The four slots of one material's loads hold four different paths. */
  lemma SlotPathsDiffer(maps: MapsLoad, stem: string, backup: Option<string>, name: string)
    requires PathOf(maps.base, stem, backup, name, BaseMap) && PathOf(maps.rma, stem, backup, name, RmaMap)
    requires PathOf(maps.normal, stem, backup, name, NormalMap) && PathOf(maps.emissive, stem, backup, name, EmissiveMap)
    ensures maps.normal.path != maps.base.path && maps.normal.path != maps.rma.path && maps.normal.path != maps.emissive.path
    ensures maps.emissive.path != maps.base.path && maps.emissive.path != maps.rma.path
  {
    var s1 := if maps.base.path == TexturePath(stem, name, BaseMap) then stem else backup.value;
    var s2 := if maps.rma.path == TexturePath(stem, name, RmaMap) then stem else backup.value;
    var s3 := if maps.normal.path == TexturePath(stem, name, NormalMap) then stem else backup.value;
    var s4 := if maps.emissive.path == TexturePath(stem, name, EmissiveMap) then stem else backup.value;
    TexturePathKindsDiffer(s3, name, NormalMap, s1, name, BaseMap);
    TexturePathKindsDiffer(s3, name, NormalMap, s2, name, RmaMap);
    TexturePathKindsDiffer(s3, name, NormalMap, s4, name, EmissiveMap);
    TexturePathKindsDiffer(s4, name, EmissiveMap, s1, name, BaseMap);
    TexturePathKindsDiffer(s4, name, EmissiveMap, s2, name, RmaMap);
  }


  // ---------------------------------------------------------------------
  // The material loop

  datatype Assembly = Assembly(caches: Caches, mesh: Mesh)

  /** The submesh differs from `before` at most in its material. */
  predicate SameBuffers(after: SubMesh, before: SubMesh)
  {
    after == before.(material := after.material)
  }

  /** The submesh's material is the one it had or a PBR-shaped one. */
  predicate PbrOrKept(after: SubMesh, before: SubMesh)
  {
    after.material == before.material || (after.material.Some? && PbrShaped(after.material.value))
  }

  /** One set of caches holds every texture and program the other holds,
      unchanged. */
  predicate Grows(a: Caches, b: Caches)
  {
    && KeepsAll(a, b)
    && (forall k :: k in a.programs ==> k in b.programs && b.programs[k] == a.programs[k])
  }

  /** The texture cache holds t for the map of kind k of material `name`,
      under the stem or the backup stem. */
  predicate CachedFor(c: Caches, t: Texture, stem: string, backup: Option<string>, name: string, k: MapKind)
  {
    || (TexturePath(stem, name, k) in c.textures && c.textures[TexturePath(stem, name, k)].texture == t)
    || (backup.Some? && TexturePath(backup.value, name, k) in c.textures
        && c.textures[TexturePath(backup.value, name, k)].texture == t)
  }

  /** The same for the base map, together with the translucency recorded
      with it. */
  predicate BaseCachedFor(c: Caches, info: TextureInfo, stem: string, backup: Option<string>, name: string)
  {
    || (TexturePath(stem, name, BaseMap) in c.textures && c.textures[TexturePath(stem, name, BaseMap)] == info)
    || (backup.Some? && TexturePath(backup.value, name, BaseMap) in c.textures
        && c.textures[TexturePath(backup.value, name, BaseMap)] == info)
  }

  /** A map's parameter: present when `always`, otherwise only holding a
      texture; any texture it holds is the one cached for that map of the
      material. */
  predicate MapParam(m: Material, k: MapKind, c: Caches, stem: string, backup: Option<string>, name: string, always: bool)
  {
    var v := Lookup(m.params, ParamName(k));
    && (always ==> v.Some?)
    && (v.Some? ==> v.value.TextureParam? && (always || v.value.texture.Some?))
    && (v.Some? && v.value.TextureParam? && v.value.texture.Some? ==> CachedFor(c, v.value.texture.value, stem, backup, name, k))
  }

  /** The program variant a material asks for: whether its normal and
      emissive maps loaded (render3d.cpp:1701-1712). */
  datatype Variant = Variant(normal: bool, emissive: bool)

  function LoadedVariant(maps: MapsLoad): Variant
  {
    Variant(maps.normal.texture.Some?, maps.emissive.texture.Some?)
  }

  /** The optional map parameters a material holds are those of variant v. */
  predicate HoldsVariant(m: Material, v: Variant)
  {
    && Lookup(m.params, ParamName(NormalMap)).Some? == v.normal
    && Lookup(m.params, ParamName(EmissiveMap)).Some? == v.emissive
  }

  /** The maps of the material CreatePBRMesh gives a submesh whose
      material is called `name`: each holds what the caches hold for that
      map of `name` (null allowed for the base and RMA maps), and the
      material is translucent exactly as recorded with its base map, never
      when the base map is null. */
  predicate MapsFor(m: Material, c: Caches, stem: string, backup: Option<string>, name: string)
  {
    && MapParam(m, BaseMap, c, stem, backup, name, true) && MapParam(m, RmaMap, c, stem, backup, name, true)
    && MapParam(m, NormalMap, c, stem, backup, name, false) && MapParam(m, EmissiveMap, c, stem, backup, name, false)
    && var base := Lookup(m.params, ParamName(BaseMap)).value.texture;
       if base.None? then !m.translucent else BaseCachedFor(c, TextureInfo(base.value, m.translucent), stem, backup, name)
  }

  /** The material's program is the one cached for the macro variant
      naming exactly the optional maps it holds. */
  predicate ProgramFor(m: Material, c: Caches, src: Sources)
  {
    && m.program.Some?
    && var key := ProgramKey(src.vert, src.frag, Macros(Lookup(m.params, ParamName(NormalMap)).Some?,
                                                         Lookup(m.params, ParamName(EmissiveMap)).Some?));
       key in c.programs && c.programs[key] == m.program.value
  }

  /** The material CreatePBRMesh gives a submesh whose material is called
      `name`: PBR-shaped, starting at unit 0, with the maps and the program
      the caches hold for it. */
  predicate PbrFor(m: Material, c: Caches, stem: string, backup: Option<string>, name: string, src: Sources)
  {
    PbrShaped(m) && m.idleUnit == 0 && MapsFor(m, c, stem, backup, name) && ProgramFor(m, c, src)
  }

  /** What the material loop leaves on a submesh whose material is called
      `name` and whose loads asked for variant v: the buffers as they were,
      and either the material as it was, because variant v failed to
      compile, or the PBR material for `name` holding the maps of v. */
  predicate Furnished(after: SubMesh, before: SubMesh, v: Variant, c: Caches, stem: string, backup: Option<string>, name: string, src: Sources)
  {
    && SameBuffers(after, before)
    && ((after.material == before.material && src.compile(src.vert, src.frag, Macros(v.normal, v.emissive)).None?)
        || (after.material.Some? && PbrFor(after.material.value, c, stem, backup, name, src) && HoldsVariant(after.material.value, v)))
  }

  lemma CachedForGrows(c1: Caches, c2: Caches, t: Texture, stem: string, backup: Option<string>, name: string, k: MapKind)
    requires CachedFor(c1, t, stem, backup, name, k) && KeepsAll(c1, c2)
    ensures CachedFor(c2, t, stem, backup, name, k)
  {
    var p := TexturePath(stem, name, k);
    if p in c1.textures && c1.textures[p].texture == t {
      assert c2.textures[p] == c1.textures[p];
    } else {
      var q := TexturePath(backup.value, name, k);
      assert c2.textures[q] == c1.textures[q];
    }
  }

  lemma MapParamGrows(m: Material, k: MapKind, c1: Caches, c2: Caches, stem: string, backup: Option<string>, name: string, always: bool)
    requires MapParam(m, k, c1, stem, backup, name, always) && KeepsAll(c1, c2)
    ensures MapParam(m, k, c2, stem, backup, name, always)
  {
    var v := Lookup(m.params, ParamName(k));
    if v.Some? && v.value.TextureParam? && v.value.texture.Some? {
      CachedForGrows(c1, c2, v.value.texture.value, stem, backup, name, k);
    }
  }

  lemma MapsForGrows(m: Material, c1: Caches, c2: Caches, stem: string, backup: Option<string>, name: string)
    requires MapsFor(m, c1, stem, backup, name) && KeepsAll(c1, c2)
    ensures MapsFor(m, c2, stem, backup, name)
  {
    MapParamGrows(m, BaseMap, c1, c2, stem, backup, name, true);
    MapParamGrows(m, RmaMap, c1, c2, stem, backup, name, true);
    MapParamGrows(m, NormalMap, c1, c2, stem, backup, name, false);
    MapParamGrows(m, EmissiveMap, c1, c2, stem, backup, name, false);
    var base := Lookup(m.params, ParamName(BaseMap)).value.texture;
    if base.Some? {
      var p := TexturePath(stem, name, BaseMap);
      var q := if backup.Some? then TexturePath(backup.value, name, BaseMap) else p;
      if p in c1.textures {
        assert c2.textures[p] == c1.textures[p];
      }
      if backup.Some? && q in c1.textures {
        assert c2.textures[q] == c1.textures[q];
      }
    }
  }

  /** What holds of a submesh against some caches holds against any caches
      that grow from them. */
  lemma FurnishedGrows(after: SubMesh, before: SubMesh, v: Variant, c1: Caches, c2: Caches, stem: string, backup: Option<string>, name: string, src: Sources)
    requires Furnished(after, before, v, c1, stem, backup, name, src) && Grows(c1, c2)
    ensures Furnished(after, before, v, c2, stem, backup, name, src)
  {
    if !(after.material == before.material && src.compile(src.vert, src.frag, Macros(v.normal, v.emissive)).None?) {
      MapsForGrows(after.material.value, c1, c2, stem, backup, name);
    }
  }

  /** A loaded slot's texture is the one cached for its map. */
  lemma SlotCachedFor(c: Caches, slot: MapSlot, stem: string, backup: Option<string>, name: string, k: MapKind)
    requires CachedAt(c, slot) && PathOf(slot, stem, backup, name, k) && slot.texture.Some?
    ensures CachedFor(c, slot.texture.value, stem, backup, name, k)
  {
  }

  /** What the loads of one material guarantee about their outcome: each
      slot's path is its own map's path, each loaded texture is cached
      there, and the translucency is the one cached with the base map. */
  predicate MapsReady(maps: MapsLoad, stem: string, backup: Option<string>, name: string)
  {
    && PathOf(maps.base, stem, backup, name, BaseMap) && PathOf(maps.rma, stem, backup, name, RmaMap)
    && PathOf(maps.normal, stem, backup, name, NormalMap) && PathOf(maps.emissive, stem, backup, name, EmissiveMap)
    && CachedAt(maps.caches, maps.base) && CachedAt(maps.caches, maps.rma)
    && CachedAt(maps.caches, maps.normal) && CachedAt(maps.caches, maps.emissive)
    && (maps.base.texture.None? ==> !maps.translucent)
    && (maps.base.texture.Some? ==> maps.base.path in maps.caches.textures
                                    && maps.translucent == maps.caches.textures[maps.base.path].translucent)
  }

  lemma LoadMapsReady(c: Caches, stem: string, backup: Option<string>, name: string, load: Loader)
    requires Loads(load)
    ensures MapsReady(LoadMaps(c, stem, backup, name, load), stem, backup, name)
  {
    LoadMapsCached(c, stem, backup, name, load);
    LoadMapsTranslucency(c, stem, backup, name, load);
  }

  /** The material built from a material's loads has the maps cached for
      it. */
  lemma PbrMaterialMaps(maps: MapsLoad, stem: string, backup: Option<string>, name: string, program: Program)
    requires MapsReady(maps, stem, backup, name)
    ensures MapsFor(PbrMaterial(maps, Some(program)).value, maps.caches, stem, backup, name)
  {
    var m := PbrMaterial(maps, Some(program)).value;
    if maps.base.texture.Some? {
      SlotCachedFor(maps.caches, maps.base, stem, backup, name, BaseMap);
    }
    if maps.rma.texture.Some? {
      SlotCachedFor(maps.caches, maps.rma, stem, backup, name, RmaMap);
    }
    if maps.normal.texture.Some? {
      SlotCachedFor(maps.caches, maps.normal, stem, backup, name, NormalMap);
    }
    if maps.emissive.texture.Some? {
      SlotCachedFor(maps.caches, maps.emissive, stem, backup, name, EmissiveMap);
    }
    assert MapParam(m, BaseMap, maps.caches, stem, backup, name, true);
    assert MapParam(m, RmaMap, maps.caches, stem, backup, name, true);
    assert MapParam(m, NormalMap, maps.caches, stem, backup, name, false);
    assert MapParam(m, EmissiveMap, maps.caches, stem, backup, name, false);
  }

  /** Submesh i takes the PBR material when there is one; the mesh
      records the maps' paths for eviction (render3d.cpp:1697-1733). */
  function PlaceMaterial(mesh: Mesh, i: nat, maps: MapsLoad, program: Option<Program>): (r: Mesh)
    requires i < |mesh.submeshes|
    ensures |r.submeshes| == |mesh.submeshes| && r.pose == mesh.pose
    ensures forall j :: 0 <= j < |mesh.submeshes| && j != i ==> r.submeshes[j] == mesh.submeshes[j]
    ensures SameBuffers(r.submeshes[i], mesh.submeshes[i])
    ensures program.None? ==> r.submeshes[i] == mesh.submeshes[i]
    ensures program.Some? ==> r.submeshes[i].material == PbrMaterial(maps, program)
    ensures r.associated == mesh.associated + MapPaths(maps)
  {
    var sm := mesh.submeshes[i];
    var sub := match PbrMaterial(maps, program)
      case None => sm
      case Some(m) => sm.(material := Some(m));
    mesh.(submeshes := mesh.submeshes[i := sub], associated := mesh.associated + MapPaths(maps))
  }

  /** One iteration of the material loop (render3d.cpp:1666-1734): only
      submesh i changes, and only its material, which is left alone when
      the program fails to load and is otherwise PBR-shaped; the base and
      RMA paths join the mesh's recorded paths. */
  function MaterialStep(c: Caches, mesh: Mesh, i: nat, name: string, stem: string, backup: Option<string>, src: Sources): (r: Assembly)
    requires i < |mesh.submeshes| && Loads(src.load)
    ensures NamesBelow(c) ==> NamesBelow(r.caches)
    ensures r.caches.nextName >= c.nextName
    ensures |r.mesh.submeshes| == |mesh.submeshes| && r.mesh.pose == mesh.pose
    ensures forall j :: 0 <= j < |mesh.submeshes| && j != i ==> r.mesh.submeshes[j] == mesh.submeshes[j]
    ensures SameBuffers(r.mesh.submeshes[i], mesh.submeshes[i])
    ensures PbrOrKept(r.mesh.submeshes[i], mesh.submeshes[i])
    ensures mesh.associated <= r.mesh.associated
    ensures Recorded(r.mesh.associated, stem, backup, name, BaseMap) && Recorded(r.mesh.associated, stem, backup, name, RmaMap)
    ensures Grows(c, r.caches)
    ensures Furnished(r.mesh.submeshes[i], mesh.submeshes[i], LoadedVariant(LoadMaps(c, stem, backup, name, src.load)), r.caches, stem, backup, name, src)
  {
    var maps := LoadMaps(c, stem, backup, name, src.load);
    LoadMapsKeep(c, stem, backup, name, src.load);
    LoadMapsReady(c, stem, backup, name, src.load);
    PlaceLoaded(c, mesh, i, maps, name, stem, backup, src)
  }

  /** The second half of one iteration, once the maps are loaded: load the
      program variant for the maps present and place the material. */
  function PlaceLoaded(c: Caches, mesh: Mesh, i: nat, maps: MapsLoad, name: string, stem: string, backup: Option<string>, src: Sources): (r: Assembly)
    requires i < |mesh.submeshes|
    requires MapsReady(maps, stem, backup, name) && KeepsAll(c, maps.caches) && maps.caches.programs == c.programs
    requires (NamesBelow(c) ==> NamesBelow(maps.caches)) && maps.caches.nextName >= c.nextName
    ensures NamesBelow(c) ==> NamesBelow(r.caches)
    ensures r.caches.nextName >= c.nextName
    ensures |r.mesh.submeshes| == |mesh.submeshes| && r.mesh.pose == mesh.pose
    ensures forall j :: 0 <= j < |mesh.submeshes| && j != i ==> r.mesh.submeshes[j] == mesh.submeshes[j]
    ensures SameBuffers(r.mesh.submeshes[i], mesh.submeshes[i])
    ensures PbrOrKept(r.mesh.submeshes[i], mesh.submeshes[i])
    ensures mesh.associated <= r.mesh.associated
    ensures Recorded(r.mesh.associated, stem, backup, name, BaseMap) && Recorded(r.mesh.associated, stem, backup, name, RmaMap)
    ensures Grows(c, r.caches)
    ensures Furnished(r.mesh.submeshes[i], mesh.submeshes[i], LoadedVariant(maps), r.caches, stem, backup, name, src)
  {
    MapPathsRecorded(maps, stem, backup, name);
    var pl := LoadProgram(maps.caches, src.vert, src.frag, Macros(maps.normal.texture.Some?, maps.emissive.texture.Some?), src.compile);
    var placed := PlaceMaterial(mesh, i, maps, pl.program);
    MaterialFor(c, maps, pl, mesh.submeshes[i], placed.submeshes[i], stem, backup, name, src);
    Assembly(pl.caches, placed)
  }

  /** The material one step places is the PBR material for its name
      against the caches after the step, or the old one after a failed
      compile. */
  lemma MaterialFor(c: Caches, maps: MapsLoad, pl: ProgramLoad, before: SubMesh, after: SubMesh,
                    stem: string, backup: Option<string>, name: string, src: Sources)
    requires MapsReady(maps, stem, backup, name) && KeepsAll(c, maps.caches) && maps.caches.programs == c.programs
    requires pl == LoadProgram(maps.caches, src.vert, src.frag, Macros(maps.normal.texture.Some?, maps.emissive.texture.Some?), src.compile)
    requires SameBuffers(after, before)
    requires pl.program.None? ==> after == before
    requires pl.program.Some? ==> after.material == PbrMaterial(maps, pl.program)
    ensures Grows(c, pl.caches)
    ensures Furnished(after, before, LoadedVariant(maps), pl.caches, stem, backup, name, src)
  {
    var macros := Macros(maps.normal.texture.Some?, maps.emissive.texture.Some?);
    ProgramLoadGrows(c, maps.caches, src.vert, src.frag, macros, src.compile);
    if pl.program.None? {
      assert src.compile(src.vert, src.frag, macros).None?;
    } else {
      BuiltFor(maps, pl, after.material.value, stem, backup, name, src);
    }
  }

  /** Loading a program after the maps keeps what the caches held before
      the maps were loaded. */
  lemma ProgramLoadGrows(c: Caches, mc: Caches, vert: string, frag: string, macros: string, compile: Compiler)
    requires KeepsAll(c, mc) && mc.programs == c.programs
    ensures Grows(c, LoadProgram(mc, vert, frag, macros, compile).caches)
  {
  }

  /** The PBR material built with a freshly loaded program is the one for
      its name against the caches after the load. */
  lemma BuiltFor(maps: MapsLoad, pl: ProgramLoad, m: Material, stem: string, backup: Option<string>, name: string, src: Sources)
    requires MapsReady(maps, stem, backup, name)
    requires pl == LoadProgram(maps.caches, src.vert, src.frag, Macros(maps.normal.texture.Some?, maps.emissive.texture.Some?), src.compile)
    requires pl.program.Some? && Some(m) == PbrMaterial(maps, pl.program)
    ensures PbrFor(m, pl.caches, stem, backup, name, src) && HoldsVariant(m, LoadedVariant(maps))
  {
    PbrMaterialMaps(maps, stem, backup, name, pl.program.value);
    MapsForGrows(m, maps.caches, pl.caches, stem, backup, name);
    assert Lookup(m.params, ParamName(NormalMap)).Some? == maps.normal.texture.Some?;
    assert Lookup(m.params, ParamName(EmissiveMap)).Some? == maps.emissive.texture.Some?;
  }


  /** The submesh facts of one step (only submesh i changes) composed with
      those of the rest of the loop (nothing before i + 1 changes). */
  lemma StepThenRest(before: seq<SubMesh>, mid: seq<SubMesh>, after: seq<SubMesh>, i: nat)
    requires |mid| == |before| && |after| == |before| && i < |before|
    requires forall j :: 0 <= j < |before| && j != i ==> mid[j] == before[j]
    requires SameBuffers(mid[i], before[i]) && PbrOrKept(mid[i], before[i])
    requires forall j :: 0 <= j < |mid| ==>
      && SameBuffers(after[j], mid[j])
      && (j < i + 1 ==> after[j] == mid[j])
      && PbrOrKept(after[j], mid[j])
    ensures forall j :: 0 <= j < |before| ==>
      && SameBuffers(after[j], before[j])
      && (j < i ==> after[j] == before[j])
      && PbrOrKept(after[j], before[j])
  {
    forall j | 0 <= j < |before|
      ensures SameBuffers(after[j], before[j])
      ensures j < i ==> after[j] == before[j]
      ensures PbrOrKept(after[j], before[j])
    {
      if j != i {
        assert mid[j] == before[j];
      } else {
        assert after[j] == mid[j];
      }
    }
  }

  lemma GrowsTransitive(a: Caches, b: Caches, c: Caches)
    requires Grows(a, b) && Grows(b, c)
    ensures Grows(a, c)
  {
  }

  /** The caches the loop started at material i has reached when it comes
      to material j. */
  function CachesBefore(c: Caches, mesh: Mesh, names: seq<string>, i: nat, j: nat, stem: string, backup: Option<string>, src: Sources): Caches
    requires |names| == |mesh.submeshes| && i <= j <= |names| && Loads(src.load)
    decreases j - i
  {
    if i == j then c
    else
      var s := MaterialStep(c, mesh, i, names[i], stem, backup, src);
      CachesBefore(s.caches, s.mesh, names, i + 1, j, stem, backup, src)
  }

  /** The program variant material j's own loads ask for, in the loop
      started at material i. */
  function VariantAt(c: Caches, mesh: Mesh, names: seq<string>, i: nat, j: nat, stem: string, backup: Option<string>, src: Sources): Variant
    requires |names| == |mesh.submeshes| && i <= j < |names| && Loads(src.load)
  {
    LoadedVariant(LoadMaps(CachesBefore(c, mesh, names, i, j, stem, backup, src), stem, backup, names[j], src.load))
  }

  /** Material i's variant is the one its step loads; later materials'
      variants are those of the loop resumed after the step. */
  lemma VariantAtStep(c: Caches, mesh: Mesh, names: seq<string>, i: nat, stem: string, backup: Option<string>, src: Sources, s: Assembly)
    requires |names| == |mesh.submeshes| && i < |names| && Loads(src.load)
    requires s == MaterialStep(c, mesh, i, names[i], stem, backup, src)
    ensures VariantAt(c, mesh, names, i, i, stem, backup, src) == LoadedVariant(LoadMaps(c, stem, backup, names[i], src.load))
    ensures forall j :: i < j < |names| ==>
      VariantAt(c, mesh, names, i, j, stem, backup, src) == VariantAt(s.caches, s.mesh, names, i + 1, j, stem, backup, src)
  {
  }

  /** The material one step placed, against the caches after the rest of
      the loop, composed with the materials the rest of the loop placed. */
  lemma FurnishedThenRest(c: Caches, mesh: Mesh, names: seq<string>, i: nat, stem: string, backup: Option<string>, src: Sources,
                          s: Assembly, r: Assembly)
    requires |names| == |mesh.submeshes| && i < |names| && Loads(src.load)
    requires s == MaterialStep(c, mesh, i, names[i], stem, backup, src)
    requires |r.mesh.submeshes| == |mesh.submeshes| && r.mesh.submeshes[i] == s.mesh.submeshes[i] && Grows(s.caches, r.caches)
    requires forall j :: i + 1 <= j < |names| ==>
      Furnished(r.mesh.submeshes[j], s.mesh.submeshes[j], VariantAt(s.caches, s.mesh, names, i + 1, j, stem, backup, src), r.caches, stem, backup, names[j], src)
    ensures forall j :: i <= j < |names| ==>
      Furnished(r.mesh.submeshes[j], mesh.submeshes[j], VariantAt(c, mesh, names, i, j, stem, backup, src), r.caches, stem, backup, names[j], src)
  {
    VariantAtStep(c, mesh, names, i, stem, backup, src, s);
    FurnishedGrows(s.mesh.submeshes[i], mesh.submeshes[i], LoadedVariant(LoadMaps(c, stem, backup, names[i], src.load)),
                   s.caches, r.caches, stem, backup, names[i], src);
    forall j | i < j < |names|
      ensures Furnished(r.mesh.submeshes[j], mesh.submeshes[j], VariantAt(c, mesh, names, i, j, stem, backup, src), r.caches, stem, backup, names[j], src)
    {
      assert s.mesh.submeshes[j] == mesh.submeshes[j];
    }
  }

  /** The paths recorded by one step stay recorded through the rest of the
      loop. */
  lemma RecordedThenRest(mid: set<string>, after: set<string>, names: seq<string>, i: nat, stem: string, backup: Option<string>)
    requires i < |names| && mid <= after
    requires Recorded(mid, stem, backup, names[i], BaseMap) && Recorded(mid, stem, backup, names[i], RmaMap)
    requires forall j :: i + 1 <= j < |names| ==>
      Recorded(after, stem, backup, names[j], BaseMap) && Recorded(after, stem, backup, names[j], RmaMap)
    ensures forall j :: i <= j < |names| ==>
      Recorded(after, stem, backup, names[j], BaseMap) && Recorded(after, stem, backup, names[j], RmaMap)
  {
    RecordedGrows(mid, after, stem, backup, names[i], BaseMap);
    RecordedGrows(mid, after, stem, backup, names[i], RmaMap);
  }

  /** The loop from material i on. It touches only the materials of
      submeshes i and on, leaving each either as it was or holding a
      PBR-shaped material, and records every material's base and RMA paths,
      under the stem or the backup stem, on the mesh for eviction. */
  function AssembleFrom(c: Caches, mesh: Mesh, names: seq<string>, i: nat, stem: string, backup: Option<string>, src: Sources): (r: Assembly)
    requires |names| == |mesh.submeshes| && i <= |names| && Loads(src.load)
    ensures |r.mesh.submeshes| == |mesh.submeshes| && r.mesh.pose == mesh.pose
    ensures mesh.associated <= r.mesh.associated
    ensures NamesBelow(c) ==> NamesBelow(r.caches)
    ensures r.caches.nextName >= c.nextName
    ensures forall j :: 0 <= j < |mesh.submeshes| ==>
      && SameBuffers(r.mesh.submeshes[j], mesh.submeshes[j])
      && (j < i ==> r.mesh.submeshes[j] == mesh.submeshes[j])
      && PbrOrKept(r.mesh.submeshes[j], mesh.submeshes[j])
    ensures forall j :: i <= j < |names| ==>
      Recorded(r.mesh.associated, stem, backup, names[j], BaseMap) && Recorded(r.mesh.associated, stem, backup, names[j], RmaMap)
    ensures Grows(c, r.caches)
    ensures forall j :: i <= j < |names| ==>
      Furnished(r.mesh.submeshes[j], mesh.submeshes[j], VariantAt(c, mesh, names, i, j, stem, backup, src), r.caches, stem, backup, names[j], src)
    decreases |names| - i
  {
    if i == |names| then Assembly(c, mesh)
    else
      var s := MaterialStep(c, mesh, i, names[i], stem, backup, src);
      var r := AssembleFrom(s.caches, s.mesh, names, i + 1, stem, backup, src);
      StepThenRest(mesh.submeshes, s.mesh.submeshes, r.mesh.submeshes, i);
      RecordedThenRest(s.mesh.associated, r.mesh.associated, names, i, stem, backup);
      FurnishedThenRest(c, mesh, names, i, stem, backup, src, s, r);
      GrowsTransitive(c, s.caches, r.caches);
      r
  }

  // ---------------------------------------------------------------------
  // CreatePBRMesh

  /** A mesh holding the submeshes the parser generated, in order, each
      without a material; the pose's rotation and cached transform are the
      uninitialised values the caller supplies. */
  function ParsedMesh(subs: seq<VertexArrays>, rotation: Quat, transform: Matrix): (m: Mesh)
    ensures |m.submeshes| == |subs| && m.associated == {} && m.pose == NewPose(rotation, transform)
    ensures forall i :: 0 <= i < |subs| ==> m.submeshes[i] == NewSubMesh(subs[i])
  {
    Mesh(seq(|subs|, i requires 0 <= i < |subs| => NewSubMesh(subs[i])), NewPose(rotation, transform), {})
  }

  datatype PbrLoad = PbrLoad(caches: Caches, mesh: Option<Mesh>)

  /** The stem maps are looked up under: the mirrored one when a mirror is
      given. */
  function MapStem(stem: string, mirror: Option<string>): Checked<string>
  {
    if mirror.None? then Ok(stem) else MirrorPath(stem, mirror.value)
  }

  /** Renderer::CreatePBRMesh. `mirror` is None for a null mirrorPath.
      The parser runs without export_triangles and under `policy`: the
      source's own checks are `AsWritten`, and `Intended` gives the corrected
      checks recorded under Findings in the README. */
  function CreatePbrMesh(c: Caches, path: string, mirror: Option<string>, src: Sources, policy: Policy, rotation: Quat, transform: Matrix): (r: Checked<PbrLoad>)
    requires Loads(src.load)
    ensures r.Ok? ==> StemsDefined(path, mirror)
    ensures r.Ok? ==> r.value.caches.nextName >= c.nextName
    ensures r.Ok? && NamesBelow(c) ==> NamesBelow(r.value.caches)
    ensures r.Ok? && r.value.mesh.Some? && StemsDefined(path, mirror) ==>
      var o := Parse(src.files(path), src.scanner, policy, false);
      var original := StripExtension(path).value;
      var stem := MapStem(original, mirror).value;
      var backup := if mirror.Some? then Some(original) else None;
      var m := r.value.mesh.value;
      && o.Parsed? && |m.submeshes| == |o.submeshes| && m.pose == NewPose(rotation, transform)
      && (forall j :: 0 <= j < |o.submeshes| ==>
            SameBuffers(m.submeshes[j], NewSubMesh(o.submeshes[j])) && PbrOrKept(m.submeshes[j], NewSubMesh(o.submeshes[j])))
      && (forall j :: 0 <= j < |o.names| ==>
            Recorded(m.associated, stem, backup, o.names[j], BaseMap) && Recorded(m.associated, stem, backup, o.names[j], RmaMap))
    ensures r.Ok? ==> Grows(c, r.value.caches)
  {
    match StripExtension(path)
    case Fault(why) => Fault(why)
    case Ok(original) =>
      match MapStem(original, mirror)
      case Fault(why) => Fault(why)
      case Ok(stem) =>
        var text := src.files(path);
        if |text| == 0 then Ok(PbrLoad(c, None))
        else
          match Parse(text, src.scanner, policy, false)
          case Undefined(why) => Fault(why)
          case Rejected(_) => Ok(PbrLoad(c, None))
          case Parsed(names, subs) =>
            var backup := if mirror.Some? then Some(original) else None;
            Furnish(c, names, subs, stem, backup, src, rotation, transform)
  }

  /** The part of CreatePBRMesh after a successful parse
      (render3d.cpp:1615-1736): without material names only the newmtl
      fallback runs and the bare mesh is returned; otherwise the names must
      match the submeshes one to one and the material loop runs. */
  function Furnish(c: Caches, names: seq<string>, subs: seq<VertexArrays>, stem: string, backup: Option<string>,
                   src: Sources, rotation: Quat, transform: Matrix): (r: Checked<PbrLoad>)
    requires Loads(src.load)
    ensures r.Fault? <==> 0 < |names| != |subs|
    ensures r.Ok? ==> r.value.caches.nextName >= c.nextName && r.value.mesh.Some?
    ensures r.Ok? && NamesBelow(c) ==> NamesBelow(r.value.caches)
    ensures |names| == 0 ==> r == Ok(PbrLoad(c, Some(ParsedMesh(subs, rotation, transform))))
    ensures r.Ok? ==>
      var m := r.value.mesh.value;
      && |m.submeshes| == |subs| && m.pose == NewPose(rotation, transform)
      && (forall j :: 0 <= j < |subs| ==>
            SameBuffers(m.submeshes[j], NewSubMesh(subs[j])) && PbrOrKept(m.submeshes[j], NewSubMesh(subs[j])))
      && (forall j :: 0 <= j < |names| ==>
            Recorded(m.associated, stem, backup, names[j], BaseMap) && Recorded(m.associated, stem, backup, names[j], RmaMap))
      && (forall j :: 0 <= j < |names| ==>
            Furnished(m.submeshes[j], NewSubMesh(subs[j]), VariantAt(c, ParsedMesh(subs, rotation, transform), names, 0, j, stem, backup, src),
                      r.value.caches, stem, backup, names[j], src))
    ensures r.Ok? ==> Grows(c, r.value.caches)
  {
    var mesh := ParsedMesh(subs, rotation, transform);
    if |names| == 0 then
      NewmtlFallbackFinds(stem);
      match NewmtlFallback(stem)
      case Fault(why) => Fault(why)
      case Ok(_) => Ok(PbrLoad(c, Some(mesh)))
    else if |names| != |subs| then Fault("assert: usemtl count differs from the submesh count")
    else
      var a := AssembleFrom(c, mesh, names, 0, stem, backup, src);
      Ok(PbrLoad(a.caches, Some(a.mesh)))
  }

  /** The stems the maps are looked up under, when the paths allow them. */
  predicate StemsDefined(path: string, mirror: Option<string>)
  {
    StripExtension(path).Ok? && MapStem(StripExtension(path).value, mirror).Ok?
  }

  /** Every submesh of a file that names its materials gets the PBR
      material for its own name, with the maps and the program variant the
      caches hold for it afterwards, unless a program variant failed to
      compile, in which case it keeps no material. */
  lemma CreatePbrMeshMaterials(c: Caches, path: string, mirror: Option<string>, src: Sources, policy: Policy, rotation: Quat, transform: Matrix)
    requires Loads(src.load)
    ensures var r := CreatePbrMesh(c, path, mirror, src, policy, rotation, transform);
      r.Ok? && r.value.mesh.Some? && StemsDefined(path, mirror) ==>
      var o := Parse(src.files(path), src.scanner, policy, false);
      var original := StripExtension(path).value;
      var stem := MapStem(original, mirror).value;
      var backup := if mirror.Some? then Some(original) else None;
      var m := r.value.mesh.value;
      && o.Parsed? && |m.submeshes| == |o.submeshes|
      && forall j :: 0 <= j < |o.names| ==>
           Furnished(m.submeshes[j], NewSubMesh(o.submeshes[j]), VariantAt(c, ParsedMesh(o.submeshes, rotation, transform), o.names, 0, j, stem, backup, src),
                     r.value.caches, stem, backup, o.names[j], src)
  {
    var r := CreatePbrMesh(c, path, mirror, src, policy, rotation, transform);
    if r.Ok? && r.value.mesh.Some? && StemsDefined(path, mirror) {
      var o := Parse(src.files(path), src.scanner, policy, false);
      var original := StripExtension(path).value;
      var stem := MapStem(original, mirror).value;
      var backup := if mirror.Some? then Some(original) else None;
      assert r == Furnish(c, o.names, o.submeshes, stem, backup, src, rotation, transform);
    }
  }

  /** The outcome is undefined exactly when the path does not fit the stem
      buffer or has no directory to mirror, or the file parses to undefined
      behaviour, or it names materials but not one per submesh (the assert
      fails); a file without usemtl lines never reaches undefined behaviour
      in the newmtl fallback. */
  lemma CreatePbrMeshFaults(c: Caches, path: string, mirror: Option<string>, src: Sources, policy: Policy, rotation: Quat, transform: Matrix)
    requires Loads(src.load)
    ensures var r := CreatePbrMesh(c, path, mirror, src, policy, rotation, transform);
      var text := src.files(path);
      var o := Parse(text, src.scanner, policy, false);
      r.Fault? <==>
        || !StemsDefined(path, mirror)
        || (|text| > 0 && (o.Undefined? || (o.Parsed? && 0 < |o.names| != |o.submeshes|)))
  {
    if StemsDefined(path, mirror) {
      var stem := MapStem(StripExtension(path).value, mirror).value;
      NewmtlFallbackFinds(stem);
    }
  }

  /** A null mesh comes back, with the caches untouched, exactly when the
      file is empty or unreadable, or the parser rejects it. */
  lemma CreatePbrMeshNull(c: Caches, path: string, mirror: Option<string>, src: Sources, policy: Policy, rotation: Quat, transform: Matrix)
    requires Loads(src.load) && StemsDefined(path, mirror)
    ensures var r := CreatePbrMesh(c, path, mirror, src, policy, rotation, transform);
      var text := src.files(path);
      (r.Ok? && r.value.mesh.None?) <==> (|text| == 0 || Parse(text, src.scanner, policy, false).Rejected?)
    ensures var r := CreatePbrMesh(c, path, mirror, src, policy, rotation, transform);
      r.Ok? && r.value.mesh.None? ==> r.value.caches == c
  {
    var stem := MapStem(StripExtension(path).value, mirror).value;
    NewmtlFallbackFinds(stem);
  }

  /** A file without usemtl lines gives the parsed submeshes with no
      material and no recorded paths, and loads nothing. */
  lemma CreatePbrMeshUnnamed(c: Caches, path: string, mirror: Option<string>, src: Sources, policy: Policy, rotation: Quat, transform: Matrix)
    requires Loads(src.load) && StemsDefined(path, mirror)
    requires |src.files(path)| > 0
    requires var o := Parse(src.files(path), src.scanner, policy, false); o.Parsed? && |o.names| == 0
    ensures var r := CreatePbrMesh(c, path, mirror, src, policy, rotation, transform);
      var subs := Parse(src.files(path), src.scanner, policy, false).submeshes;
      && r.Ok? && r.value.caches == c && r.value.mesh.Some?
      && |r.value.mesh.value.submeshes| == |subs| && r.value.mesh.value.associated == {}
      && r.value.mesh.value.pose == NewPose(rotation, transform)
      && forall j :: 0 <= j < |subs| ==> r.value.mesh.value.submeshes[j] == NewSubMesh(subs[j])
  {
    var stem := MapStem(StripExtension(path).value, mirror).value;
    NewmtlFallbackFinds(stem);
  }
}
