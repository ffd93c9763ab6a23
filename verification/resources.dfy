/** The renderer's resource caches (render3d.cpp:1412-1583, 1922-1965):
    linked programs keyed by their source names, 2D and cube textures keyed
    by file path in one shared map, and the five lazily loaded environment
    textures. Compilation and image decoding are outside the model: they are
    the `Compiler` and `ImageSource` functions the loaders are given. */
module Resources {
  import opened Base
  import opened Gl
  import opened Programs
  import opened Textures

  /** A texture cache entry with the translucency recorded at load time. */
  datatype TextureInfo = TextureInfo(texture: Texture, translucent: bool)

  /** The environment textures the builtin uniforms can ask for. */
  datatype EnvMap = DiffuseEnv | SpecularEnv | BrdfLut | IblDiffuse | IblSpecular

  /** The caches a renderer owns. `nextName` is the next unused GL object
      name; every object the loaders create takes it. */
  datatype Caches = Caches(
    programs: map<string, Program>,
    textures: map<string, TextureInfo>,
    env: map<EnvMap, Texture>,
    nextName: GlName)

  /** A renderer's caches before any load: everything empty, the
      environment pointers null. */
  const EmptyCaches := Caches(map[], map[], map[], 1)

  /** Every GL name held by a cache is below `nextName`, so the name the
      next load takes is fresh. */
  predicate NamesBelow(c: Caches)
  {
    && (forall k :: k in c.programs ==> c.programs[k].glName < c.nextName)
    && (forall k :: k in c.textures ==> c.textures[k].texture.glName < c.nextName)
    && (forall e :: e in c.env ==> c.env[e].glName < c.nextName)
  }

  // ---------------------------------------------------------------------
  // Programs

  /** Compiling and linking a vertex/fragment pair with a macro prefix:
      the reflection on success, None on failure. */
  type Compiler = (string, string, string) -> Option<Reflection>

  /** The cache key: the three strings run together with no delimiter. */
  function ProgramKey(vert: string, frag: string, macros: string): (key: string)
    ensures |key| == |vert| + |frag| + |macros|
    ensures key[..|vert|] == vert && key[|vert|..|vert| + |frag|] == frag && key[|vert| + |frag|..] == macros
  {
    vert + frag + macros
  }

  datatype ProgramLoad = ProgramLoad(caches: Caches, program: Option<Program>)

  /** Renderer::LoadProgram (render3d.cpp:1412-1432). */
  function LoadProgram(c: Caches, vert: string, frag: string, macros: string, compile: Compiler): (r: ProgramLoad)
    ensures var key := ProgramKey(vert, frag, macros);
      && (key in c.programs ==> r == ProgramLoad(c, Some(c.programs[key])))
      && (key !in c.programs && compile(vert, frag, macros).None? ==> r == ProgramLoad(c, None))
      && (key !in c.programs && compile(vert, frag, macros).Some? ==>
            && r.program == Some(Link(c.nextName, compile(vert, frag, macros).value))
            && r.caches == c.(programs := c.programs[key := r.program.value], nextName := c.nextName + 1))
    ensures NamesBelow(c) ==> NamesBelow(r.caches)
  {
    var key := ProgramKey(vert, frag, macros);
    if key in c.programs then ProgramLoad(c, Some(c.programs[key]))
    else match compile(vert, frag, macros)
      case None => ProgramLoad(c, None)
      case Some(refl) =>
        var p := Link(c.nextName, refl);
        ProgramLoad(c.(programs := c.programs[key := p], nextName := c.nextName + 1), Some(p))
  }

  /** Loading the same sources again returns the same program and changes
      nothing; a failed compile is retried, since nothing was stored. */
  lemma LoadProgramTwice(c: Caches, vert: string, frag: string, macros: string, compile: Compiler)
    ensures var first := LoadProgram(c, vert, frag, macros, compile);
      first.program.Some? ==> LoadProgram(first.caches, vert, frag, macros, compile) == first
    ensures var first := LoadProgram(c, vert, frag, macros, compile);
      first.program.None? ==> first.caches == c
  {
  }

  /** Two different splits of the same characters share a key: once
      ("ab", "c") is loaded, asking for ("a", "bc") returns that program
      without compiling the second pair at all. */
  lemma ProgramKeysCollide(c: Caches, compile: Compiler)
    requires "abc" !in c.programs && compile("ab", "c", "").Some?
    ensures var first := LoadProgram(c, "ab", "c", "", compile);
      LoadProgram(first.caches, "a", "bc", "", compile) == first
  {
    assert ProgramKey("ab", "c", "") == "abc" == ProgramKey("a", "bc", "");
  }

  /** No two cached programs share a GL name. */
  predicate DistinctPrograms(c: Caches)
  {
    forall k1, k2 :: k1 in c.programs && k2 in c.programs && k1 != k2 ==> c.programs[k1].glName != c.programs[k2].glName
  }

  /** A load keeps the cached programs apart from each other, and the
      program it returns is the one cached under its key. */
  lemma LoadProgramDistinct(c: Caches, vert: string, frag: string, macros: string, compile: Compiler)
    requires NamesBelow(c) && DistinctPrograms(c)
    ensures var r := LoadProgram(c, vert, frag, macros, compile);
      && DistinctPrograms(r.caches)
      && (forall k :: k in c.programs ==> k in r.caches.programs && r.caches.programs[k] == c.programs[k])
      && (r.program.Some? ==> ProgramKey(vert, frag, macros) in r.caches.programs
                              && r.caches.programs[ProgramKey(vert, frag, macros)] == r.program.value)
  {
    var key := ProgramKey(vert, frag, macros);
    var r := LoadProgram(c, vert, frag, macros, compile);
    if key !in c.programs && compile(vert, frag, macros).Some? {
      forall k1, k2 | k1 in r.caches.programs && k2 in r.caches.programs && k1 != k2
        ensures r.caches.programs[k1].glName != r.caches.programs[k2].glName
      {
        if k1 == key {
          assert r.caches.programs[k2] == c.programs[k2];
        } else if k2 == key {
          assert r.caches.programs[k1] == c.programs[k1];
        }
      }
    }
  }

  /** Sources that differ only in their macro prefix are cached under
      different keys. */
  lemma MacroKeysDiffer(vert: string, frag: string, m1: string, m2: string)
    requires m1 != m2
    ensures ProgramKey(vert, frag, m1) != ProgramKey(vert, frag, m2)
  {
  }

  /** Loading one shader pair under two macro prefixes, one after the
      other, gives two programs with different GL names: each variant is a
      program of its own, linked once. */
  lemma MacroVariantsDistinct(c: Caches, vert: string, frag: string, m1: string, m2: string, compile: Compiler)
    requires NamesBelow(c) && DistinctPrograms(c) && m1 != m2
    ensures var first := LoadProgram(c, vert, frag, m1, compile);
      var second := LoadProgram(first.caches, vert, frag, m2, compile);
      first.program.Some? && second.program.Some? ==> first.program.value.glName != second.program.value.glName
  {
    var first := LoadProgram(c, vert, frag, m1, compile);
    var second := LoadProgram(first.caches, vert, frag, m2, compile);
    LoadProgramDistinct(c, vert, frag, m1, compile);
    LoadProgramDistinct(first.caches, vert, frag, m2, compile);
    MacroKeysDiffer(vert, frag, m1, m2);
  }

  // ---------------------------------------------------------------------
  // 2D textures

  /** Decoding the image stored under a path, or None when there is none. */
  type ImageSource = string -> Option<Frame>

  /** A load's outcome. `flag` is the caller's translucency flag after the
      call: None when no flag pointer was passed. */
  datatype TextureLoad = TextureLoad(caches: Caches, texture: Option<Texture>, flag: Option<bool>)

  /** Renderer::LoadTexture (render3d.cpp:1434-1514). `flag` is None for a
      null flag pointer, or Some(b) for a pointer to a bool holding b. The
      mipmap switch only chooses GL sampling parameters and is not modelled. */
  function LoadTexture(c: Caches, path: string, flag: Option<bool>, images: ImageSource): (r: TextureLoad)
    ensures r.flag.Some? <==> flag.Some?
    ensures path in c.textures ==>
      && r.caches == c && r.texture == Some(c.textures[path].texture)
      && (flag.Some? ==> r.flag == Some(c.textures[path].translucent))
    ensures path !in c.textures && images(path).None? ==> r == TextureLoad(c, None, flag)
    ensures path !in c.textures && images(path).Some? ==>
      var img := images(path).value;
      && r.texture == Some(Texture(c.nextName, img.width, img.height, RGBA, Texture2D))
      && r.caches.nextName == c.nextName + 1
      && (flag.Some? ==> r.flag == Some(ScanTranslucent(img)))
      && r.caches.textures == c.textures[path := TextureInfo(r.texture.value, flag.Some? && ScanTranslucent(img))]
      && r.caches.programs == c.programs && r.caches.env == c.env
    ensures NamesBelow(c) ==> NamesBelow(r.caches)
  {
    if path in c.textures then
      var info := c.textures[path];
      TextureLoad(c, Some(info.texture), if flag.Some? then Some(info.translucent) else None)
    else match images(path)
      case None => TextureLoad(c, None, flag)
      case Some(img) =>
        var t := Texture(c.nextName, img.width, img.height, RGBA, Texture2D);
        var out := if flag.Some? then Some(ScanTranslucent(img)) else None;
        var cached := if out.Some? then out.value else false;
        TextureLoad(c.(textures := c.textures[path := TextureInfo(t, cached)], nextName := c.nextName + 1), Some(t), out)
  }

  /** After a successful load, loading the path again returns the same
      texture and reports the translucency recorded the first time. */
  lemma LoadTextureThenHit(c: Caches, path: string, flag: Option<bool>, again: Option<bool>, images: ImageSource)
    ensures var first := LoadTexture(c, path, flag, images);
      first.texture.Some? ==>
        var second := LoadTexture(first.caches, path, again, images);
        && second.caches == first.caches && second.texture == first.texture
        && (again.Some? && flag.Some? ==> second.flag == first.flag)
  {
  }

  /** A texture first loaded without a flag pointer is cached as opaque, so
      a later caller that asks is told it is opaque even when the image has
      partially transparent pixels. */
  lemma FlaglessLoadHidesTranslucency(c: Caches, path: string, images: ImageSource)
    requires path !in c.textures && images(path).Some?
    ensures LoadTexture(LoadTexture(c, path, None, images).caches, path, Some(true), images).flag == Some(false)
  {
  }

  /** With a flag pointer, the reported and cached translucency is exactly
      "an RGBA or BGRA frame with a partially transparent pixel". */
  lemma FlagReportsPartialAlpha(c: Caches, path: string, b: bool, images: ImageSource)
    requires path !in c.textures && images(path).Some?
    ensures var img := images(path).value;
      LoadTexture(c, path, Some(b), images).flag
        == Some((img.format == SRGBA || img.format == SBGRA) && HasPartialAlpha(img))
  {
  }

  // ---------------------------------------------------------------------
  // Cube textures

  /** The faces in GL_TEXTURE_CUBE_MAP_POSITIVE_X + i order. */
  const CubeFaces: seq<string> := ["right", "left", "top", "bottom", "back", "front"]

  /** The size of the stack buffer face file names are printed into. */
  const FaceNameBuffer := 512

  predicate IsDigit(ch: char)
  {
    '0' <= ch <= '9'
  }

  /** `%d` of a non-negative int. */
  function Decimal(n: nat): (s: string)
    ensures |s| >= 1 && forall i :: 0 <= i < |s| ==> IsDigit(s[i])
    ensures |s| > 1 ==> s[0] != '0'
  {
    if n < 10 then [('0' as int + n) as char]
    else Decimal(n / 10) + [('0' as int + n % 10) as char]
  }

  /** The number a string of digits spells. */
  function DecimalValue(s: string): nat
    requires forall i :: 0 <= i < |s| ==> IsDigit(s[i])
  {
    if |s| == 0 then 0
    else
      assert IsDigit(s[|s| - 1]);
      10 * DecimalValue(s[..|s| - 1]) + (s[|s| - 1] as int - '0' as int)
  }

  /** The printed level reads back as the level. */
  lemma {:induction false} DecimalRoundTrip(n: nat)
    ensures DecimalValue(Decimal(n)) == n
    decreases n
  {
    if n >= 10 {
      DecimalRoundTrip(n / 10);
      var s := Decimal(n);
      assert s[..|s| - 1] == Decimal(n / 10);
    }
  }

  /** Different levels print differently, so the mip levels of one cube
      read different files. */
  lemma DecimalInjective(a: nat, b: nat)
    requires Decimal(a) == Decimal(b)
    ensures a == b
  {
    DecimalRoundTrip(a);
    DecimalRoundTrip(b);
  }

  /** `<base>_<face>_<level>.png`; `%s` of the base's c_str() stops at its
      first NUL. */
  function FaceFileName(base: string, face: string, level: nat): (name: string)
    ensures name == CStringAt(base, 0) + "_" + face + "_" + Decimal(level) + ".png"
    ensures |name| == |CStringAt(base, 0)| + |face| + |Decimal(level)| + 6
  {
    CStringAt(base, 0) + "_" + face + "_" + Decimal(level) + ".png"
  }

  /** Two strings that both start with a word free of `_` and then a `_`
      split the same way when they are equal. */
  lemma SplitAtUnderscore(f1: string, d1: string, f2: string, d2: string)
    requires '_' !in f1 && '_' !in f2
    requires f1 + "_" + d1 == f2 + "_" + d2
    ensures f1 == f2 && d1 == d2
  {
    var s1, s2 := f1 + "_" + d1, f2 + "_" + d2;
    FirstUnderscore(f1, d1);
    FirstUnderscore(f2, d2);
    assert |f1| == |f2|;
    assert f1 == s1[..|f1|] && f2 == s2[..|f2|];
    assert d1 == s1[|f1| + 1..] && d2 == s2[|f2| + 1..];
  }

  /** In a word free of `_` followed by `_`, the first `_` ends the word. */
  lemma FirstUnderscore(f: string, d: string)
    requires '_' !in f
    ensures (f + "_" + d)[|f|] == '_'
    ensures forall j :: 0 <= j < |f| ==> (f + "_" + d)[j] != '_'
  {
  }

  /** Equal strings with a common prefix and suffix agree in between. */
  lemma StripAffixes(pre: string, s1: string, s2: string, suf: string)
    requires pre + s1 + suf == pre + s2 + suf
    ensures s1 == s2
  {
    var n1, n2 := pre + s1 + suf, pre + s2 + suf;
    assert s1 == n1[|pre|..|n1| - |suf|];
    assert s2 == n2[|pre|..|n2| - |suf|];
  }

  lemma FacesHaveNoUnderscore(i: nat)
    requires i < |CubeFaces|
    ensures '_' !in CubeFaces[i]
  {
    assert CubeFaces[i] in {"right", "left", "top", "bottom", "back", "front"};
  }

  /** The six face names of the levels of one cube are all different: a
      file name determines the face and the mip level it is read for. */
  lemma FaceFileNamesDistinct(base: string, i1: nat, l1: nat, i2: nat, l2: nat)
    requires i1 < |CubeFaces| && i2 < |CubeFaces|
    ensures FaceFileName(base, CubeFaces[i1], l1) == FaceFileName(base, CubeFaces[i2], l2) <==> i1 == i2 && l1 == l2
  {
    var n1, n2 := FaceFileName(base, CubeFaces[i1], l1), FaceFileName(base, CubeFaces[i2], l2);
    if n1 == n2 {
      var pre := CStringAt(base, 0) + "_";
      var s1, s2 := CubeFaces[i1] + "_" + Decimal(l1), CubeFaces[i2] + "_" + Decimal(l2);
      FileNameParts(base, CubeFaces[i1], l1);
      FileNameParts(base, CubeFaces[i2], l2);
      StripAffixes(pre, s1, s2, ".png");
      FacesHaveNoUnderscore(i1);
      FacesHaveNoUnderscore(i2);
      SplitAtUnderscore(CubeFaces[i1], Decimal(l1), CubeFaces[i2], Decimal(l2));
      DecimalInjective(l1, l2);
      FacesDistinct(i1, i2);
    }
  }

  lemma FileNameParts(base: string, face: string, level: nat)
    ensures FaceFileName(base, face, level) == (CStringAt(base, 0) + "_") + (face + "_" + Decimal(level)) + ".png"
  {
  }

  /** No face name is listed twice. */
  lemma FacesDistinct(i1: nat, i2: nat)
    requires i1 < |CubeFaces| && i2 < |CubeFaces|
    requires CubeFaces[i1] == CubeFaces[i2]
    ensures i1 == i2
  {
  }

  /** A face name fits the buffer with its terminating NUL. */
  predicate FaceNameFits(base: string, level: nat)
  {
    forall i :: 0 <= i < |CubeFaces| ==> |FaceFileName(base, CubeFaces[i], level)| < FaceNameBuffer
  }

  /** Every face of the level decodes. */
  predicate FacesPresent(base: string, level: nat, images: ImageSource)
  {
    forall i :: 0 <= i < |CubeFaces| ==> images(FaceFileName(base, CubeFaces[i], level)).Some?
  }

  /** Faces i.. of one level, threading the width of the last face read. */
  function FillFrom(base: string, level: nat, i: nat, size: nat, images: ImageSource): (r: Checked<nat>)
    requires i <= |CubeFaces|
    ensures r.Ok? <==>
      forall j :: i <= j < |CubeFaces| ==>
        |FaceFileName(base, CubeFaces[j], level)| < FaceNameBuffer && images(FaceFileName(base, CubeFaces[j], level)).Some?
    ensures r.Ok? && i < |CubeFaces| ==> r.value == images(FaceFileName(base, CubeFaces[|CubeFaces| - 1], level)).value.width
    ensures r.Ok? && i == |CubeFaces| ==> r.value == size
    decreases |CubeFaces| - i
  {
    if i == |CubeFaces| then Ok(size)
    else
      var name := FaceFileName(base, CubeFaces[i], level);
      if |name| >= FaceNameBuffer then Fault("face file name overflows its 512-byte buffer")
      else match images(name)
        case None => Fault("face image missing: its width is read through a null pointer")
        case Some(img) => FillFrom(base, level, i + 1, img.width, images)
  }

  /** Renderer::FillCubeTextureFaces (render3d.cpp:1516-1543): print and
      load the six faces of one level; the reported face size is the width
      of the last face. A name that overflows the buffer, or a face that
      does not decode, is undefined behaviour. */
  function FillCubeFaces(base: string, level: nat, images: ImageSource): (r: Checked<nat>)
    ensures r.Ok? <==> FaceNameFits(base, level) && FacesPresent(base, level, images)
    ensures r.Ok? ==> images(FaceFileName(base, "front", level)).Some?
                      && r.value == images(FaceFileName(base, "front", level)).value.width
  {
    FillFrom(base, level, 0, 0, images)
  }

  /** floor(log2 n). */
  function Log2Floor(n: nat): (k: nat)
    requires n >= 1
  {
    if n == 1 then 0 else 1 + Log2Floor(n / 2)
  }

  /** The number of passes of `while (size != 0) size /= 2`. */
  function Halvings(size: nat): nat
  {
    if size == 0 then 0 else 1 + Halvings(size / 2)
  }

  lemma {:induction false} HalvingsIsLog(size: nat)
    requires size >= 1
    ensures Halvings(size) == Log2Floor(size) + 1
    decreases size
  {
    if size > 1 {
      HalvingsIsLog(size / 2);
    }
  }

  /** The mip loop from `level` on with the loop variable at `size`: the
      levels it loads, in order. */
  function MipChain(base: string, size: nat, level: nat, images: ImageSource): (r: Checked<seq<nat>>)
    ensures r.Ok? ==> |r.value| == Halvings(size) && forall j :: 0 <= j < |r.value| ==> r.value[j] == level + j
    decreases size
  {
    if size == 0 then Ok([])
    else match FillCubeFaces(base, level, images)
      case Fault(why) => Fault(why)
      case Ok(_) =>
        match MipChain(base, size / 2, level + 1, images)
        case Fault(why) => Fault(why)
        case Ok(rest) =>
          var levels := [level] + rest;
          assert forall j :: 1 <= j < |levels| ==> levels[j] == rest[j - 1];
          Ok(levels)
  }

  /** The mip loop completes exactly when every level it reaches has all
      six faces. */
  lemma {:induction false} MipChainOk(base: string, size: nat, level: nat, images: ImageSource)
    ensures MipChain(base, size, level, images).Ok?
        <==> forall l :: level <= l < level + Halvings(size) ==> FillCubeFaces(base, l, images).Ok?
    decreases size
  {
    if size > 0 {
      MipChainOk(base, size / 2, level + 1, images);
      var n := Halvings(size / 2);
      assert Halvings(size) == 1 + n;
      var here := FillCubeFaces(base, level, images).Ok?;
      var later := forall l :: level + 1 <= l < level + 1 + n ==> FillCubeFaces(base, l, images).Ok?;
      assert MipChain(base, size, level, images).Ok? <==> here && MipChain(base, size / 2, level + 1, images).Ok?;
      assert (forall l :: level <= l < level + 1 + n ==> FillCubeFaces(base, l, images).Ok?) <==> here && later;
    }
  }

  /** The mip chain a cube of the given level-0 face width loads: levels
      1 .. floor(log2 width) when mipmaps are requested and the width
      exceeds 2 (render3d.cpp:1565-1576). */
  lemma MipLevelsLoaded(base: string, width: nat, images: ImageSource)
    ensures var r := MipChain(base, width / 2, 1, images);
      width > 2 && r.Ok? ==> |r.value| == Log2Floor(width) && forall j :: 0 <= j < |r.value| ==> r.value[j] == 1 + j
  {
    if width > 2 {
      HalvingsIsLog(width / 2);
    }
  }

  /** A cube load's outcome: the texture and the mip levels filled. */
  datatype CubeLoad = CubeLoad(caches: Caches, texture: Texture, levels: seq<nat>)

  /** Renderer::LoadCubeTexture (render3d.cpp:1545-1583). The cube shares
      the 2D textures' cache, is always cached as opaque, and on a hit the
      stored entry is returned whatever its kind. */
  function LoadCubeTexture(c: Caches, path: string, mipmaps: bool, images: ImageSource): (r: Checked<CubeLoad>)
    ensures path in c.textures ==> r == Ok(CubeLoad(c, c.textures[path].texture, []))
    ensures path !in c.textures ==>
      (r.Ok? <==> FillCubeFaces(path, 0, images).Ok?
                  && (mipmaps && FillCubeFaces(path, 0, images).value > 2 ==> MipChain(path, FillCubeFaces(path, 0, images).value / 2, 1, images).Ok?))
    ensures path !in c.textures && r.Ok? ==>
      var size := FillCubeFaces(path, 0, images).value;
      && r.value.texture == Texture(c.nextName, size, size, RGBA, TextureCube)
      && r.value.caches.textures == c.textures[path := TextureInfo(r.value.texture, false)]
      && r.value.caches.nextName == c.nextName + 1
      && r.value.caches.programs == c.programs && r.value.caches.env == c.env
      && |r.value.levels| == 1 + (if mipmaps && size > 2 then Log2Floor(size) else 0)
      && forall j :: 0 <= j < |r.value.levels| ==> r.value.levels[j] == j
    ensures r.Ok? && NamesBelow(c) ==> NamesBelow(r.value.caches)
  {
    if path in c.textures then Ok(CubeLoad(c, c.textures[path].texture, []))
    else match FillCubeFaces(path, 0, images)
      case Fault(why) => Fault(why)
      case Ok(size) =>
        var t := Texture(c.nextName, size, size, RGBA, TextureCube);
        var chain := if mipmaps && size > 2 then MipChain(path, size / 2, 1, images) else Ok([]);
        match chain
        case Fault(why) => Fault(why)
        case Ok(levels) =>
          MipLevelsLoaded(path, size, images);
          assert forall j :: 1 <= j < |[0] + levels| ==> ([0] + levels)[j] == levels[j - 1];
          Ok(CubeLoad(c.(textures := c.textures[path := TextureInfo(t, false)], nextName := c.nextName + 1), t, [0] + levels))
  }

  /** A path loaded as a 2D texture comes back from the cube loader as that
      same 2D texture: the two loaders share one key space. */
  lemma CubeLoaderReturnsCached2D(c: Caches, path: string, images: ImageSource, mipmaps: bool)
    requires path !in c.textures && images(path).Some?
    ensures var first := LoadTexture(c, path, None, images);
      var cube := LoadCubeTexture(first.caches, path, mipmaps, images);
      cube.Ok? && cube.value.texture.kind == Texture2D && Some(cube.value.texture) == first.texture
  {
  }

  // ---------------------------------------------------------------------
  // Environment textures

  /** The file each environment texture is read from; how the resource
      directory is joined to the relative name is not part of this model. */
  type EnvPaths = EnvMap -> string

  datatype EnvLoad = EnvLoad(caches: Caches, texture: Option<Texture>)

  /** The loader call behind one getter: 2D maps without a flag pointer,
      cube maps with the mip chain only for the specular one. */
  function LoadEnv(c: Caches, e: EnvMap, paths: EnvPaths, images: ImageSource): Checked<EnvLoad>
  {
    match e
    case IblDiffuse =>
      (match LoadCubeTexture(c, paths(e), false, images)
       case Fault(why) => Fault(why)
       case Ok(l) => Ok(EnvLoad(l.caches, Some(l.texture))))
    case IblSpecular =>
      (match LoadCubeTexture(c, paths(e), true, images)
       case Fault(why) => Fault(why)
       case Ok(l) => Ok(EnvLoad(l.caches, Some(l.texture))))
    case _ =>
      var l := LoadTexture(c, paths(e), None, images);
      Ok(EnvLoad(l.caches, l.texture))
  }

  /** The renderer's pointer for an environment texture: null until a
      load of it succeeds. */
  function EnvSlot(c: Caches, e: EnvMap): Option<Texture>
  {
    if e in c.env then Some(c.env[e]) else None
  }

  /** Renderer::Get*EnvTexture (render3d.cpp:1922-1965): the first non-null
      load is remembered; a null one is not, so the next call loads again. */
  function GetEnvTexture(c: Caches, e: EnvMap, paths: EnvPaths, images: ImageSource): (r: Checked<EnvLoad>)
    ensures e in c.env ==> r == Ok(EnvLoad(c, Some(c.env[e])))
    ensures r.Ok? && r.value.texture.Some? ==> e in r.value.caches.env && r.value.caches.env[e] == r.value.texture.value
    ensures r.Ok? && r.value.texture.None? ==> e !in r.value.caches.env && r.value.caches.env == c.env
    ensures r.Ok? ==> forall o :: o in c.env ==> o in r.value.caches.env && r.value.caches.env[o] == c.env[o]
    ensures r.Ok? ==> forall o :: o != e ==> (o in r.value.caches.env <==> o in c.env)
    ensures r.Ok? ==> r.value.texture == EnvSlot(r.value.caches, e)
    ensures r.Ok? && NamesBelow(c) ==> NamesBelow(r.value.caches)
    ensures r.Ok? ==> r.value.caches.nextName >= c.nextName
  {
    if e in c.env then Ok(EnvLoad(c, Some(c.env[e])))
    else match LoadEnv(c, e, paths, images)
      case Fault(why) => Fault(why)
      case Ok(l) =>
        if l.texture.Some? then
          Ok(EnvLoad(l.caches.(env := l.caches.env[e := l.texture.value]), l.texture))
        else Ok(l)
  }

  /** Only the two cube maps can fault, and the 2D ones are never null
      once their image decodes. */
  lemma EnvFaultsOnlyForCubes(c: Caches, e: EnvMap, paths: EnvPaths, images: ImageSource)
    requires e == DiffuseEnv || e == SpecularEnv || e == BrdfLut
    ensures GetEnvTexture(c, e, paths, images).Ok?
    ensures images(paths(e)).Some? ==> GetEnvTexture(c, e, paths, images).value.texture.Some?
  {
  }

  /** A getter that returned a texture returns it again on every later
      call, without touching the caches. */
  lemma EnvMemoised(c: Caches, e: EnvMap, paths: EnvPaths, images: ImageSource, later: ImageSource)
    ensures var r := GetEnvTexture(c, e, paths, images);
      r.Ok? && r.value.texture.Some? ==> GetEnvTexture(r.value.caches, e, paths, later) == Ok(EnvLoad(r.value.caches, r.value.texture))
  {
  }

  /** A getter whose image was missing tries again: once the image can be
      decoded, the next call returns a texture. */
  lemma EnvRetriesAfterNull(c: Caches, e: EnvMap, paths: EnvPaths, images: ImageSource, later: ImageSource)
    requires e == DiffuseEnv || e == SpecularEnv || e == BrdfLut
    requires e !in c.env && paths(e) !in c.textures && images(paths(e)).None? && later(paths(e)).Some?
    ensures var first := GetEnvTexture(c, e, paths, images);
      first.Ok? && first.value.texture.None?
      && GetEnvTexture(first.value.caches, e, paths, later).value.texture.Some?
  {
    EnvFaultsOnlyForCubes(c, e, paths, images);
  }

  // ---------------------------------------------------------------------
  // Eviction

  /** The texture-cache side of Mesh::~Mesh (render3d.cpp:836-844): every
      associated path is erased, whoever else uses it. */
  function Evict(c: Caches, paths: set<string>): (r: Caches)
    ensures forall p :: p in r.textures <==> p in c.textures && p !in paths
    ensures forall p :: p in r.textures ==> r.textures[p] == c.textures[p]
    ensures r.programs == c.programs && r.env == c.env && r.nextName == c.nextName
    ensures NamesBelow(c) ==> NamesBelow(r)
  {
    c.(textures := c.textures - paths)
  }

  /** After an eviction, a path another mesh still shares is loaded again
      as a new GL texture: its old texture is no longer the cached one. */
  lemma SharedPathReloadedAfterEviction(c: Caches, mine: set<string>, theirs: set<string>, p: string, images: ImageSource)
    requires NamesBelow(c) && p in c.textures && p in mine && p in theirs && images(p).Some?
    ensures var r := LoadTexture(Evict(c, mine), p, None, images);
      r.texture.Some? && r.texture.value.glName != c.textures[p].texture.glName
  {
  }
}
