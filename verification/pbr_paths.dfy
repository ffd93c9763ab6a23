/** The strings Renderer::CreatePBRMesh builds (render3d.cpp:1586-1712): the
    file stem, the mirror rewrite, the per-material texture paths, the
    shader macros, and the `newmtl` fallback scan. */
module PbrPaths {
  import opened Base
  import opened ObjParser
  import opened Resources

  // ---------------------------------------------------------------------
  // The stem

  /** The stack buffer the stem is copied into. */
  const StemBuffer := 256

  /** The first lines of CreatePBRMesh (render3d.cpp:1588-1591): all but
      the last four characters are copied into temp[256], terminated, and
      read back as a C string. A path shorter than four characters makes
      the copy length wrap around, and a stem of 256 characters or more
      writes past the buffer. */
  function StripExtension(path: string): (r: Checked<string>)
    ensures r.Ok? <==> 4 <= |path| <= StemBuffer + 3
    ensures r.Ok? ==> NUL !in r.value && |r.value| <= |path| - 4 && path[..|r.value|] == r.value
    ensures r.Ok? && NUL !in path ==> |r.value| == |path| - 4
  {
    if |path| < 4 then Fault("the copy length path.length() - 4 wraps around")
    else if |path| - 4 >= StemBuffer then Fault("temp[256] is written past its end")
    else
      var s := CStringAt(path[..|path| - 4], 0);
      assert path[..|s|] == path[..|path| - 4][..|s|];
      Ok(s)
  }

  /** Stripping a four-character extension gives the stem back. */
  lemma StripExtensionRoundTrip(stem: string, ext: string)
    requires |ext| == 4 && NUL !in stem && |stem| < StemBuffer
    ensures StripExtension(stem + ext) == Ok(stem)
  {
    var p := stem + ext;
    assert p[..|p| - 4] == stem;
    var s := CStringAt(stem, 0);
    assert s == stem[0..|s|];
  }

  // ---------------------------------------------------------------------
  // The mirror rewrite

  /** std::string::rfind("/"): the index of the last '/', or None for npos. */
  function LastSlash(s: string): (k: Option<nat>)
    ensures k.None? <==> '/' !in s
    ensures k.Some? ==> k.value < |s| && s[k.value] == '/' && '/' !in s[k.value + 1..]
    decreases |s|
  {
    if |s| == 0 then None
    else if s[|s| - 1] == '/' then Some(|s| - 1)
    else
      var n := |s| - 1;
      assert s == s[..n] + [s[n]];
      var k := LastSlash(s[..n]);
      if k.Some? then
        assert s[k.value + 1..] == s[..n][k.value + 1..] + [s[n]];
        k
      else k
  }

  /** The mirror rewrite (render3d.cpp:1592-1598): `mirror`, the text the
      pointer denotes, becomes a directory in front of the file name. With
      no '/', rfind's npos is stored in an int and handed back to substr as
      npos, which throws std::out_of_range. */
  function MirrorPath(stem: string, mirror: string): (r: Checked<string>)
    ensures r.Fault? <==> '/' !in stem
    ensures r.Ok? ==> |r.value| == |stem| + |mirror| + 1
  {
    match LastSlash(stem)
    case None => Fault("substr(npos) throws std::out_of_range")
    case Some(k) => Ok(stem[..k] + "/" + mirror + stem[k..])
  }

  /** A directory and a file name: the mirror lands between them. */
  lemma MirrorPathInserts(dir: string, name: string, mirror: string)
    requires '/' !in name
    ensures MirrorPath(dir + "/" + name, mirror) == Ok(dir + "/" + mirror + "/" + name)
  {
    var stem := dir + "/" + name;
    assert stem[|dir|] == '/';
    assert stem[|dir| + 1..] == name;
    var k := LastSlash(stem);
    assert k.Some?;
    assert k.value == |dir|;
    assert stem[..|dir|] == dir;
    assert stem[|dir|..] == "/" + name;
    assert dir + "/" + mirror + ("/" + name) == dir + "/" + mirror + "/" + name;
  }

  lemma SpliceUndo(a: string, b: string, c: string)
    ensures (a + b + c)[..|a|] + (a + b + c)[|a| + |b|..] == a + c
  {
    assert (a + b + c)[..|a|] == a;
    assert (a + b + c)[|a| + |b|..] == c;
  }

  /** The rewrite can be undone: removing the inserted segment after the
      directory gives the stem back. */
  lemma MirrorPathRoundTrip(stem: string, mirror: string)
    requires '/' in stem
    ensures var k := LastSlash(stem).value;
      var r := MirrorPath(stem, mirror).value;
      r[..k] + r[k + |mirror| + 1..] == stem
  {
    var k := LastSlash(stem).value;
    var a, b, c := stem[..k], "/" + mirror, stem[k..];
    assert MirrorPath(stem, mirror).value == a + b + c;
    SpliceUndo(a, b, c);
    assert a + c == stem;
  }

  // ---------------------------------------------------------------------
  // Texture paths

  /** The four maps of a PBR material. */
  datatype MapKind = BaseMap | RmaMap | NormalMap | EmissiveMap

  function Suffix(k: MapKind): (s: string)
    ensures |s| >= 7 && s[|s| - 4..] == ".png"
  {
    match k
    case BaseMap => "Base.png"
    case RmaMap => "RMA.png"
    case NormalMap => "Normal.png"
    case EmissiveMap => "Emissive.png"
  }

  /** The material parameter each map is bound to. */
  function ParamName(k: MapKind): (s: string)
    ensures |s| == match k case BaseMap => 7 case RmaMap => 6 case NormalMap => 9 case EmissiveMap => 11
  {
    match k
    case BaseMap => "baseMap"
    case RmaMap => "rmaMap"
    case NormalMap => "normalMap"
    case EmissiveMap => "emissiveMap"
  }

  /** stem_name_Suffix (render3d.cpp:1669-1673 and the retries at
      1681-1695). */
  function TexturePath(stem: string, name: string, k: MapKind): (p: string)
    ensures |p| == |stem| + |name| + 2 + |Suffix(k)|
    ensures p[..|stem|] == stem && p[|p| - |Suffix(k)|..] == Suffix(k)
  {
    stem + "_" + name + "_" + Suffix(k)
  }

  /** The fifth and sixth characters from the end of each suffix. */
  function Marks(k: MapKind): (char, char)
  {
    match k
    case BaseMap => ('e', 's')
    case RmaMap => ('A', 'M')
    case NormalMap => ('l', 'a')
    case EmissiveMap => ('e', 'v')
  }

  lemma SuffixMarks(k: MapKind)
    ensures var s := Suffix(k); (s[|s| - 5], s[|s| - 6]) == Marks(k)
  {
    match k
    case BaseMap => assert Suffix(k) == "Base.png";
    case RmaMap => assert Suffix(k) == "RMA.png";
    case NormalMap => assert Suffix(k) == "Normal.png";
    case EmissiveMap => assert Suffix(k) == "Emissive.png";
  }

  /** A string ending in one suffix does not end in another. */
  lemma SuffixesDiffer(p: string, q: string, k1: MapKind, k2: MapKind)
    requires k1 != k2
    requires |p| >= |Suffix(k1)| && p[|p| - |Suffix(k1)|..] == Suffix(k1)
    requires |q| >= |Suffix(k2)| && q[|q| - |Suffix(k2)|..] == Suffix(k2)
    ensures p != q
  {
    var a, b := Suffix(k1), Suffix(k2);
    SuffixMarks(k1);
    SuffixMarks(k2);
    assert p[|p| - 5] == a[|a| - 5] && p[|p| - 6] == a[|a| - 6];
    assert q[|q| - 5] == b[|b| - 5] && q[|q| - 6] == b[|b| - 6];
  }

  /** Maps of different kinds never share a path, whatever the stems and
      material names: the suffixes differ within their last six
      characters. */
  lemma TexturePathKindsDiffer(s1: string, n1: string, k1: MapKind, s2: string, n2: string, k2: MapKind)
    requires k1 != k2
    ensures TexturePath(s1, n1, k1) != TexturePath(s2, n2, k2)
  {
    SuffixesDiffer(TexturePath(s1, n1, k1), TexturePath(s2, n2, k2), k1, k2);
  }

  /** For one stem and kind, the path determines the material name. */
  lemma TexturePathNamesDiffer(stem: string, a: string, b: string, k: MapKind)
    requires a != b
    ensures TexturePath(stem, a, k) != TexturePath(stem, b, k)
  {
    var p, q := TexturePath(stem, a, k), TexturePath(stem, b, k);
    if |a| == |b| {
      assert p[|stem| + 1..|stem| + 1 + |a|] == a;
      assert q[|stem| + 1..|stem| + 1 + |b|] == b;
    }
  }

  // ---------------------------------------------------------------------
  // Shader macros

  const NormalDefine := "#define USE_NORMAL_MAP\n"
  const EmissiveDefine := "#define USE_EMISSIVE_MAP\n"

  /** The macro prefix of the PBR program (render3d.cpp:1700-1712): the
      normal-map define first, then the emissive one, each only when that
      map loaded. */
  function Macros(normal: bool, emissive: bool): (m: string)
    ensures |m| == (if normal then |NormalDefine| else 0) + (if emissive then |EmissiveDefine| else 0)
    ensures normal ==> m[..|NormalDefine|] == NormalDefine
    ensures emissive ==> m[|m| - |EmissiveDefine|..] == EmissiveDefine
  {
    (if normal then NormalDefine else "") + (if emissive then EmissiveDefine else "")
  }

  /** The macro string tells which maps loaded: its length alone does. */
  lemma MacrosInjective(a: bool, b: bool, c: bool, d: bool)
    requires Macros(a, b) == Macros(c, d)
    ensures a == c && b == d
  {
    assert |Macros(a, b)| == (if a then 23 else 0) + (if b then 25 else 0);
    assert |Macros(c, d)| == (if c then 23 else 0) + (if d then 25 else 0);
  }

  /** The four macro variants are four entries of the program cache: no
      variant is served another's program. */
  lemma PbrProgramKeysDiffer(vert: string, frag: string, a: bool, b: bool, c: bool, d: bool)
    requires a != c || b != d
    ensures ProgramKey(vert, frag, Macros(a, b)) != ProgramKey(vert, frag, Macros(c, d))
  {
    var k1, k2 := ProgramKey(vert, frag, Macros(a, b)), ProgramKey(vert, frag, Macros(c, d));
    if k1 == k2 {
      assert k1[|vert| + |frag|..] == k2[|vert| + |frag|..];
      MacrosInjective(a, b, c, d);
    }
  }

  // ---------------------------------------------------------------------
  // The newmtl fallback

  const Newmtl := "newmtl"

  /** Reading mtl_text[k] through std::string::operator[]: index size()
      reads the terminator, anything past it is undefined. */
  function ReadChar(buf: string, k: nat): Checked<char>
  {
    if k <= |buf| then Ok(CharAt(buf, k)) else Fault("mtl_text is read past its terminator")
  }

  /** The && chain comparing "newmtl" at idx, from letter j on: it stops at
      the first letter that differs. */
  function MatchFrom(buf: string, idx: nat, j: nat): Checked<bool>
    requires j <= |Newmtl|
    decreases |Newmtl| - j
  {
    if j == |Newmtl| then Ok(true)
    else match ReadChar(buf, idx + j)
      case Fault(why) => Fault(why)
      case Ok(ch) => if ch != Newmtl[j] then Ok(false) else MatchFrom(buf, idx, j + 1)
  }

  /** The inner while loop: the first newline at or after k, or the end. */
  function LineEnd(buf: string, k: nat): (e: nat)
    requires k <= |buf|
    ensures k <= e <= |buf|
    ensures forall j :: k <= j < e ==> !IsNewline(buf[j])
    ensures e == |buf| || IsNewline(buf[e])
    decreases |buf| - k
  {
    if k == |buf| || IsNewline(buf[k]) then k else LineEnd(buf, k + 1)
  }

  /** The outer while loop from idx on. On a match the name starts seven
      characters on, the line end is overwritten by a terminator, and the
      name is read as a C string. */
  function ScanFrom(buf: string, idx: nat): Checked<Option<string>>
    decreases |buf| - idx
  {
    if idx >= |buf| then Ok(None)
    else match MatchFrom(buf, idx, 0)
      case Fault(why) => Fault(why)
      case Ok(found) =>
        if !found then ScanFrom(buf, idx + 1)
        else if idx + 7 > |buf| then Fault("mtl_text is written past its terminator")
        else
          var e := LineEnd(buf, idx + 7);
          Ok(Some(CStringAt(buf[..e], idx + 7)))
  }

  /** The newmtl fallback (render3d.cpp:1617-1639). It scans the path
      stem + ".mtl" itself, never the contents of that file; its result is
      not used afterwards. */
  function NewmtlFallback(stem: string): Checked<Option<string>>
  {
    ScanFrom(stem + ".mtl", 0)
  }

  /** The letter chain from j on answers whether "newmtl" sits at idx, and
      never reads past the terminator. */
  lemma {:induction false} MatchFromMeans(buf: string, idx: nat, j: nat)
    requires j <= |Newmtl| && idx + j <= |buf|
    ensures MatchFrom(buf, idx, j) == Ok(idx + |Newmtl| <= |buf| && buf[idx + j..idx + |Newmtl|] == Newmtl[j..])
    decreases |Newmtl| - j
  {
    if j < |Newmtl| {
      var ch := CharAt(buf, idx + j);
      if ch == Newmtl[j] {
        assert idx + j < |buf|;
        MatchFromMeans(buf, idx, j + 1);
        if idx + |Newmtl| <= |buf| {
          var s, t := buf[idx + j..idx + |Newmtl|], Newmtl[j..];
          assert s == [ch] + s[1..] && t == [ch] + t[1..];
          assert s[1..] == buf[idx + j + 1..idx + |Newmtl|] && t[1..] == Newmtl[j + 1..];
        }
      } else if idx + |Newmtl| <= |buf| {
        assert buf[idx + j..idx + |Newmtl|][0] == ch;
      }
    }
  }

  /** The buffer is a path ending in ".mtl". */
  predicate MtlPath(buf: string)
  {
    |buf| >= 4 && buf[|buf| - 4..] == ".mtl"
  }

  /** In such a buffer every "newmtl" ends at least five characters before
      the end: it cannot overlap the ".mtl". */
  lemma NewmtlBeforeExtension(buf: string, idx: nat)
    requires MtlPath(buf) && HasPrefixAt(buf, idx, Newmtl)
    ensures idx + |Newmtl| <= |buf| - 4
  {
    var n := |buf|;
    assert buf[n - 4] == '.' && buf[n - 3] == 'm' && buf[n - 2] == 't';
    assert buf[idx + 2] == 'w' && buf[idx + 5] == 'l';
  }

  /** The scan of such a buffer reads and writes only inside it. */
  lemma {:induction false} ScanFromDefined(buf: string, idx: nat)
    requires MtlPath(buf)
    ensures ScanFrom(buf, idx).Ok?
    decreases |buf| - idx
  {
    if idx < |buf| {
      MatchFromMeans(buf, idx, 0);
      if HasPrefixAt(buf, idx, Newmtl) {
        NewmtlBeforeExtension(buf, idx);
      } else {
        ScanFromDefined(buf, idx + 1);
      }
    }
  }

  /** The scan finds a name exactly when "newmtl" occurs at or after idx. */
  lemma {:induction false} ScanFromFinds(buf: string, idx: nat)
    requires ScanFrom(buf, idx).Ok?
    ensures ScanFrom(buf, idx).value.Some? <==> exists k :: idx <= k && HasPrefixAt(buf, k, Newmtl)
    decreases |buf| - idx
  {
    if idx < |buf| {
      MatchFromMeans(buf, idx, 0);
      if !HasPrefixAt(buf, idx, Newmtl) {
        ScanFromFinds(buf, idx + 1);
        if exists k :: idx <= k && HasPrefixAt(buf, k, Newmtl) {
          var k :| idx <= k && HasPrefixAt(buf, k, Newmtl);
          assert idx + 1 <= k;
        }
      }
    }
  }

  /** "newmtl" occurs at k in stem + ".mtl" exactly when it occurs at k in
      the stem. */
  lemma StemOccurrence(stem: string, k: nat)
    ensures HasPrefixAt(stem + ".mtl", k, Newmtl) <==> HasPrefixAt(stem, k, Newmtl)
  {
    var buf := stem + ".mtl";
    assert MtlPath(buf);
    if HasPrefixAt(buf, k, Newmtl) {
      NewmtlBeforeExtension(buf, k);
      assert buf[k..k + |Newmtl|] == stem[k..k + |Newmtl|];
    }
    if HasPrefixAt(stem, k, Newmtl) {
      assert buf[k..k + |Newmtl|] == stem[k..k + |Newmtl|];
    }
  }

  /** The fallback never leaves defined behaviour, and finds a name
      exactly when the stem itself contains "newmtl". */
  lemma NewmtlFallbackFinds(stem: string)
    ensures NewmtlFallback(stem).Ok?
    ensures NewmtlFallback(stem).value.Some? <==> exists k :: HasPrefixAt(stem, k, Newmtl)
  {
    var buf := stem + ".mtl";
    assert MtlPath(buf);
    ScanFromDefined(buf, 0);
    ScanFromFinds(buf, 0);
    forall k: nat
      ensures HasPrefixAt(buf, k, Newmtl) <==> HasPrefixAt(stem, k, Newmtl)
    {
      StemOccurrence(stem, k);
    }
  }

  /** The name found is the text after the first "newmtl" and one
      separator, up to the line end or a NUL. */
  lemma {:induction false} ScanFromName(buf: string, idx: nat)
    requires ScanFrom(buf, idx).Ok? && ScanFrom(buf, idx).value.Some?
    ensures var n := ScanFrom(buf, idx).value.value;
      && NUL !in n
      && (forall j :: 0 <= j < |n| ==> !IsNewline(n[j]))
      && exists k :: idx <= k && HasPrefixAt(buf, k, Newmtl) && HasPrefixAt(buf, k + |Newmtl| + 1, n)
           && forall j :: idx <= j < k ==> !HasPrefixAt(buf, j, Newmtl)
    decreases |buf| - idx
  {
    var n := ScanFrom(buf, idx).value.value;
    MatchFromMeans(buf, idx, 0);
    if HasPrefixAt(buf, idx, Newmtl) {
      var e := LineEnd(buf, idx + 7);
      assert n == CStringAt(buf[..e], idx + 7);
      assert buf[..e][idx + 7..idx + 7 + |n|] == n;
      assert HasPrefixAt(buf, idx + 7, n) by {
        assert buf[idx + 7..idx + 7 + |n|] == buf[..e][idx + 7..idx + 7 + |n|];
      }
      forall j | 0 <= j < |n|
        ensures !IsNewline(n[j])
      {
        assert n[j] == buf[..e][idx + 7 + j] == buf[idx + 7 + j];
      }
    } else {
      ScanFromName(buf, idx + 1);
      var k :| idx + 1 <= k && HasPrefixAt(buf, k, Newmtl) && HasPrefixAt(buf, k + |Newmtl| + 1, n)
        && forall j :: idx + 1 <= j < k ==> !HasPrefixAt(buf, j, Newmtl);
      assert forall j :: idx <= j < k ==> !HasPrefixAt(buf, j, Newmtl);
    }
  }
}
