/** A material's parameters: a std::map from name to a tagged value, kept
    here as an association list sorted by std::string order
    (render3d.h:119-163, render3d.cpp:360-400). */
module Params {
  import opened Base
  import opened Textures

  /** The three parameter classes; a texture parameter may hold null. */
  datatype ParamValue =
    | FloatParam(f: Float)
    | MatrixParam(m: Matrix)
    | TextureParam(texture: Option<Texture>)

  datatype Kind = FloatKind | MatrixKind | TextureKind

  function KindOf(v: ParamValue): Kind
  {
    match v
    case FloatParam(_) => FloatKind
    case MatrixParam(_) => MatrixKind
    case TextureParam(_) => TextureKind
  }

  datatype Entry = Entry(name: string, value: ParamValue)

  /** Names strictly increase: the iteration order of the std::map. */
  predicate Ordered(ps: seq<Entry>)
  {
    forall i, j :: 0 <= i < j < |ps| ==> StrLess(ps[i].name, ps[j].name)
  }

  function Keys(ps: seq<Entry>): set<string>
  {
    set i | 0 <= i < |ps| :: ps[i].name
  }

  /** std::map::find. */
  function Lookup(ps: seq<Entry>, name: string): (r: Option<ParamValue>)
    ensures r.Some? <==> name in Keys(ps)
  {
    if |ps| == 0 then None
    else if ps[0].name == name then Some(ps[0].value)
    else
      assert Keys(ps) == {ps[0].name} + Keys(ps[1..]) by {
        assert forall i :: 0 < i < |ps| ==> ps[i] == ps[1..][i - 1];
      }
      Lookup(ps[1..], name)
  }

  /** The name is free, or holds a parameter of the kind about to be
      written: the source reuses the stored object through a static_cast
      to the writer's class, so any other kind is undefined. */
  predicate Fits(ps: seq<Entry>, name: string, kind: Kind)
  {
    Lookup(ps, name).None? || KindOf(Lookup(ps, name).value) == kind
  }

  lemma OrderedTail(ps: seq<Entry>)
    requires |ps| > 0 && Ordered(ps)
    ensures Ordered(ps[1..])
    ensures forall k :: k in Keys(ps[1..]) ==> StrLess(ps[0].name, k)
  {
    forall k | k in Keys(ps[1..])
      ensures StrLess(ps[0].name, k)
    {
      var i :| 0 <= i < |ps[1..]| && ps[1..][i].name == k;
      assert ps[1..][i] == ps[i + 1];
    }
  }

  lemma KeysCons(e: Entry, ps: seq<Entry>)
    ensures Keys([e] + ps) == {e.name} + Keys(ps)
  {
    var l := [e] + ps;
    forall k | k in Keys(l)
      ensures k in {e.name} + Keys(ps)
    {
      var i :| 0 <= i < |l| && l[i].name == k;
      if i > 0 {
        assert l[i] == ps[i - 1];
      }
    }
    forall k | k in Keys(ps)
      ensures k in Keys(l)
    {
      var i :| 0 <= i < |ps| && ps[i].name == k;
      assert l[i + 1] == ps[i];
    }
    assert l[0].name == e.name;
  }

  /** `[e] + ps` is ordered when ps is and e's name precedes all of its
      names. */
  lemma OrderedCons(e: Entry, ps: seq<Entry>)
    requires Ordered(ps)
    requires forall k :: k in Keys(ps) ==> StrLess(e.name, k)
    ensures Ordered([e] + ps)
  {
    var l := [e] + ps;
    forall i, j | 0 <= i < j < |l|
      ensures StrLess(l[i].name, l[j].name)
    {
      assert l[j] == ps[j - 1];
      if i > 0 {
        assert l[i] == ps[i - 1];
      } else {
        assert ps[j - 1].name in Keys(ps);
      }
    }
  }

  /** Set*Param: overwrite the value under an existing name, or insert the
      name in order (render3d.cpp:360-400). Nothing else changes. */
  function Upsert(ps: seq<Entry>, name: string, v: ParamValue): (r: seq<Entry>)
    requires Ordered(ps)
    ensures Ordered(r)
    ensures Keys(r) == Keys(ps) + {name}
    ensures Lookup(r, name) == Some(v)
    ensures forall n :: n != name ==> Lookup(r, n) == Lookup(ps, n)
    ensures |r| == if name in Keys(ps) then |ps| else |ps| + 1
    decreases |ps|
  {
    if |ps| == 0 then
      KeysCons(Entry(name, v), []);
      [Entry(name, v)]
    else if ps[0].name == name then
      UpsertHere(ps, name, v);
      [Entry(name, v)] + ps[1..]
    else if StrLess(name, ps[0].name) then
      UpsertBefore(ps, name, v);
      [Entry(name, v)] + ps
    else
      OrderedTail(ps);
      StrLessTotal(name, ps[0].name);
      var rest := Upsert(ps[1..], name, v);
      UpsertAfter(ps, name, v, rest);
      [ps[0]] + rest
  }

  /** Upsert's case where the first entry holds the name: it is replaced. */
  lemma UpsertHere(ps: seq<Entry>, name: string, v: ParamValue)
    requires |ps| > 0 && Ordered(ps) && ps[0].name == name
    ensures var r := [Entry(name, v)] + ps[1..];
      && Ordered(r) && Keys(r) == Keys(ps) + {name} && Lookup(r, name) == Some(v)
      && (forall n :: n != name ==> Lookup(r, n) == Lookup(ps, n))
      && name in Keys(ps) && |r| == |ps|
  {
    OrderedTail(ps);
    KeysCons(ps[0], ps[1..]);
    KeysCons(Entry(name, v), ps[1..]);
    assert ps == [ps[0]] + ps[1..];
    OrderedCons(Entry(name, v), ps[1..]);
    NotInTail(ps);
  }

  /** Upsert's case where the name sorts before the first entry: it is
      inserted in front. */
  lemma UpsertBefore(ps: seq<Entry>, name: string, v: ParamValue)
    requires |ps| > 0 && Ordered(ps) && StrLess(name, ps[0].name)
    ensures var r := [Entry(name, v)] + ps;
      && Ordered(r) && Keys(r) == Keys(ps) + {name} && Lookup(r, name) == Some(v)
      && (forall n :: n != name ==> Lookup(r, n) == Lookup(ps, n))
      && name !in Keys(ps) && |r| == |ps| + 1
  {
    KeysCons(Entry(name, v), ps);
    forall k | k in Keys(ps)
      ensures StrLess(name, k)
    {
      var i :| 0 <= i < |ps| && ps[i].name == k;
      if i > 0 {
        OrderedTail(ps);
        assert k in Keys(ps[1..]) by { assert ps[1..][i - 1] == ps[i]; }
        StrLessTransitive(name, ps[0].name, k);
      }
    }
    OrderedCons(Entry(name, v), ps);
    LookupAbsent(ps, name);
    assert ([Entry(name, v)] + ps)[1..] == ps;
  }

  /** Upsert's case where the name sorts after the first entry: the first
      entry stays in front of the upserted tail. */
  lemma UpsertAfter(ps: seq<Entry>, name: string, v: ParamValue, rest: seq<Entry>)
    requires |ps| > 0 && Ordered(ps) && StrLess(ps[0].name, name)
    requires Ordered(rest) && Keys(rest) == Keys(ps[1..]) + {name} && Lookup(rest, name) == Some(v)
    requires forall n :: n != name ==> Lookup(rest, n) == Lookup(ps[1..], n)
    requires |rest| == if name in Keys(ps[1..]) then |ps| - 1 else |ps|
    ensures var r := [ps[0]] + rest;
      && Ordered(r) && Keys(r) == Keys(ps) + {name} && Lookup(r, name) == Some(v)
      && (forall n :: n != name ==> Lookup(r, n) == Lookup(ps, n))
      && |r| == if name in Keys(ps) then |ps| else |ps| + 1
  {
    var r := [ps[0]] + rest;
    assert ps[0].name != name by { StrLessIrreflexive(name); }
    UpsertAfterKeys(ps, name, rest);
    assert r[1..] == rest;
    forall n | n != name
      ensures Lookup(r, n) == Lookup(ps, n)
    {
      if n != ps[0].name {
        assert Lookup(r, n) == Lookup(rest, n);
      }
    }
  }

  /** The keys and the order of Upsert's result when the name sorts after
      the first entry. */
  lemma UpsertAfterKeys(ps: seq<Entry>, name: string, rest: seq<Entry>)
    requires |ps| > 0 && Ordered(ps) && StrLess(ps[0].name, name)
    requires Ordered(rest) && Keys(rest) == Keys(ps[1..]) + {name}
    ensures Ordered([ps[0]] + rest) && Keys([ps[0]] + rest) == Keys(ps) + {name}
    ensures name in Keys(ps) <==> name in Keys(ps[1..])
  {
    OrderedTail(ps);
    assert ps[0].name != name by { StrLessIrreflexive(name); }
    KeysCons(ps[0], rest);
    KeysCons(ps[0], ps[1..]);
    assert ps == [ps[0]] + ps[1..];
    OrderedCons(ps[0], rest);
  }


  /** In an ordered list the first name does not occur again. */
  lemma NotInTail(ps: seq<Entry>)
    requires |ps| > 0 && Ordered(ps)
    ensures ps[0].name !in Keys(ps[1..])
  {
    OrderedTail(ps);
    if ps[0].name in Keys(ps[1..]) {
      StrLessIrreflexive(ps[0].name);
    }
  }

  /** A name below every name of an ordered list is not in it. */
  lemma LookupAbsent(ps: seq<Entry>, name: string)
    requires |ps| > 0 && Ordered(ps) && StrLess(name, ps[0].name)
    ensures name !in Keys(ps)
  {
    if name in Keys(ps) {
      var i :| 0 <= i < |ps| && ps[i].name == name;
      if i == 0 {
        StrLessIrreflexive(name);
      } else {
        StrLessTransitive(name, ps[0].name, ps[i].name);
        StrLessIrreflexive(name);
      }
    }
  }

  /** The texture parameters holding a texture: those that take a unit when
      applied. */
  function LiveTextures(ps: seq<Entry>): nat
  {
    if |ps| == 0 then 0 else Live(ps[0]) + LiveTextures(ps[1..])
  }

  /** 1 for a texture parameter holding a texture, 0 otherwise. */
  function Live(e: Entry): nat
  {
    if e.value.TextureParam? && e.value.texture.Some? then 1 else 0
  }
}
