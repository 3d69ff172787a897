/**
 * What the material helpers of usdzconvert.py do to the converter's
 * `USDParameters`, as functions over a value of its state: the two
 * material indexes (`usdMaterials` by path, `usdMaterialsByName` by the
 * last path component), the shared `defaultMaterial`, and logs of the
 * stage edits the model does not carry out (materials defined, prims
 * bound to the default material, prims removed).  The class in
 * Binder.dfy performs the same steps on mutable fields and is proved to
 * agree with these functions.
 */
module Indexing {
  import opened Outcomes
  import opened Text
  import opened Stage

  /** The state of `USDParameters` the material helpers read and write. */
  datatype Params = Params(
    materialsPath: string,
    byPath: map<string, string>,
    byName: map<string, string>,
    defaultMaterial: Option<string>,
    defined: seq<string>,
    bindings: map<string, string>,
    removed: seq<string>)

  /** `USDParameters(...)`: materials under `/Materials`, nothing indexed yet. */
  function InitialParams(): Params {
    Params("/Materials", map[], map[], None, [], map[], [])
  }

  predicate IsIdentifierStart(c: char) {
    ('a' <= c <= 'z') || ('A' <= c <= 'Z') || c == '_'
  }

  predicate IsIdentifierPart(c: char) {
    IsIdentifierStart(c) || ('0' <= c <= '9')
  }

  /** `Sdf.Path.IsValidIdentifier(name)`: a C identifier, as the USD
      documentation describes it. */
  predicate IsIdentifier(name: string) {
    name != [] && IsIdentifierStart(name[0]) && forall i :: 1 <= i < |name| ==> IsIdentifierPart(name[i])
  }

  /** The path of the material `name` under the materials path. */
  function MaterialPath(st: Params, name: string): string {
    st.materialsPath + "/" + name
  }

  /** Records `material` under `path` and under the last component of `path`. */
  function Register(st: Params, path: string, material: string): (r: Params)
    ensures r == st.(byPath := st.byPath[path := material], byName := st.byName[Basename(path) := material])
  {
    st.(byPath := st.byPath[path := material], byName := st.byName[Basename(path) := material])
  }

  /** `createMaterial(params, name)`: fails on a name that is not an identifier;
      otherwise defines the material at `MaterialPath(st, name)` and registers
      it by that path and by `name`. */
  function CreateMaterial(st: Params, name: string): (r: Outcome<Params>)
    ensures r.Stop? <==> !IsIdentifier(name)
    ensures r.Stop? ==> r.failure == ConvertError(InvalidMaterialName)
  {
    if !IsIdentifier(name) then Stop(ConvertError(InvalidMaterialName))
    else
      var path := MaterialPath(st, name);
      Ok(st.(byPath := st.byPath[path := path], byName := st.byName[name := path], defined := st.defined + [path]))
  }

  /** A geometry prim bound to a material the index does not have yet. */
  predicate AddsBinding(st: Params, p: Prim) {
    IsGeometry(p) && BoundMaterial(p).Some? && p.binding !in st.byPath
  }

  /** One prim of `getAllUsdMaterials`: the material of a bound geometry prim is
      added under its path and its name, unless its path is known already. */
  function IndexPrim(st: Params, p: Prim): Params {
    if AddsBinding(st, p) then Register(st, p.binding, p.binding) else st
  }

  /** `getAllUsdMaterials` over the prims `ps`, in order. */
  function IndexPrims(st: Params, ps: seq<Prim>): Params
    decreases ps
  {
    if ps == [] then st else IndexPrims(IndexPrim(st, ps[0]), ps[1..])
  }

  /** `getAllUsdMaterials` over two runs of prims is the second run after the first. */
  lemma {:induction false} IndexPrimsAppend(st: Params, a: seq<Prim>, b: seq<Prim>)
    ensures IndexPrims(st, a + b) == IndexPrims(IndexPrims(st, a), b)
    decreases a
  {
    if a == [] {
      assert a + b == b;
    } else {
      assert (a + b)[0] == a[0] && (a + b)[1..] == a[1..] + b;
      IndexPrimsAppend(IndexPrim(st, a[0]), a[1..], b);
    }
  }

  const DefaultName := "defaultMaterial"

  /** The shared default material: the one made already, else a new one. */
  function EnsureDefault(st: Params): (r: Params)
    ensures r.defaultMaterial.Some?
  {
    if st.defaultMaterial.Some? then st
    else
      var made := CreateMaterial(st, DefaultName);
      assert made.Ok? by { DefaultNameValid(); }
      made.value.(defaultMaterial := Some(MaterialPath(st, DefaultName)))
  }

  /** One prim of `addDefaultMaterialToGeometries`: a geometry prim without a
      material is bound to the default material, made on first need; the
      material is then indexed as `getAllUsdMaterials` does. */
  function DefaultPrim(st: Params, p: Prim): Params {
    if !IsGeometry(p) then st
    else if BoundMaterial(p).Some? then IndexPrim(st, p)
    else
      var withDefault := EnsureDefault(st);
      var material := withDefault.defaultMaterial.value;
      var bound := withDefault.(bindings := withDefault.bindings[p.path := material]);
      var path := MaterialPath(bound, DefaultName);
      if path !in bound.byPath then Register(bound, path, material) else bound
  }

  /** `addDefaultMaterialToGeometries` over the prims `ps`, in order. */
  function DefaultPrims(st: Params, ps: seq<Prim>): Params
    decreases ps
  {
    if ps == [] then st else DefaultPrims(DefaultPrim(st, ps[0]), ps[1..])
  }

  /** `addDefaultMaterialToGeometries` over two runs of prims is the second run
      after the first. */
  lemma {:induction false} DefaultPrimsAppend(st: Params, a: seq<Prim>, b: seq<Prim>)
    ensures DefaultPrims(st, a + b) == DefaultPrims(DefaultPrims(st, a), b)
    decreases a
  {
    if a == [] {
      assert a + b == b;
    } else {
      assert (a + b)[0] == a[0] && (a + b)[1..] == a[1..] + b;
      DefaultPrimsAppend(DefaultPrim(st, a[0]), a[1..], b);
    }
  }

  /** The material replaced by a command-line material of that name (`process`):
      the material found is dropped from the path index (not from the name
      index) and its prim removed; the one `makeUsdMaterial` made, if any, is
      indexed by its path.  `usdUtils` is not part of this model: the new
      material's path is the parameter `made`. */
  function ReplaceFound(st: Params, found: Option<string>, made: Option<string>): (r: Params)
  {
    var dropped := if found.Some? then st.(byPath := st.byPath - {found.value}, removed := st.removed + [found.value]) else st;
    if made.Some? then dropped.(byPath := dropped.byPath[made.value := made.value]) else dropped
  }

  /** The name `addDefaultMaterialToGeometries` creates is an identifier. */
  lemma DefaultNameValid()
    ensures IsIdentifier(DefaultName)
  {
    var n := DefaultName;
    assert IsIdentifierStart(n[0]);
    forall i | 1 <= i < |n| ensures IsIdentifierPart(n[i]) {
      assert n[i] in "efaultMaterial";
    }
  }

  /** The shape the helpers keep: each path indexes the material at that path,
      each name indexes a material whose last path component is that name, and
      the default material and every default binding are at
      `materialsPath + '/defaultMaterial'`. */
  predicate WellFormed(st: Params) {
    && (forall k :: k in st.byPath ==> st.byPath[k] == k)
    && (forall n :: n in st.byName ==> Basename(st.byName[n]) == n)
    && (st.defaultMaterial.Some? ==> st.defaultMaterial.value == MaterialPath(st, DefaultName))
    && (forall q :: q in st.bindings ==> Some(st.bindings[q]) == st.defaultMaterial)
  }

  lemma InitialWellFormed()
    ensures WellFormed(InitialParams())
  {
  }

  /** An identifier has no slash, so it is the last component of its path. */
  lemma IdentifierBasename(st: Params, name: string)
    requires IsIdentifier(name)
    ensures Basename(MaterialPath(st, name)) == name
  {
    forall i | 0 <= i < |name| ensures name[i] != '/' {
      if i > 0 {
        assert IsIdentifierPart(name[i]);
      }
    }
    var d := st.materialsPath;
    var p := MaterialPath(st, name);
    assert p[|d|] == '/';
    assert forall j :: |d| < j < |p| ==> p[j] == name[j - |d| - 1];
    assert RFind(p, '/') == |d|;
    assert p[|d| + 1..] == name;
  }

  /** `createMaterial` keeps the helpers' shape and registers the new material
      under its path and its name. */
  lemma CreateMaterialWellFormed(st: Params, name: string)
    requires WellFormed(st) && IsIdentifier(name)
    ensures var r := CreateMaterial(st, name).value;
      && WellFormed(r)
      && r.byPath == st.byPath[MaterialPath(st, name) := MaterialPath(st, name)]
      && r.byName == st.byName[name := MaterialPath(st, name)]
      && r.defined == st.defined + [MaterialPath(st, name)]
  {
    IdentifierBasename(st, name);
  }

  /** Indexing one prim keeps the indexes well formed. */
  lemma IndexPrimWellFormed(st: Params, p: Prim)
    requires WellFormed(st)
    ensures WellFormed(IndexPrim(st, p))
  {
    if AddsBinding(st, p) {
      RegisterWellFormed(st, p.binding);
    }
  }

  /** Registering a material under its own path keeps the helpers' shape. */
  lemma RegisterWellFormed(st: Params, path: string)
    requires WellFormed(st)
    ensures WellFormed(Register(st, path, path))
  {
    var r := Register(st, path, path);
    assert r.byName == st.byName[Basename(path) := path];
    forall n | n in r.byName ensures Basename(r.byName[n]) == n {
      if n != Basename(path) {
        assert r.byName[n] == st.byName[n];
      }
    }
  }

  /** Indexing a sequence of prims keeps the indexes well formed. */
  lemma {:induction false} IndexPrimsWellFormed(st: Params, ps: seq<Prim>)
    requires WellFormed(st)
    ensures WellFormed(IndexPrims(st, ps))
    decreases ps
  {
    if ps != [] {
      IndexPrimWellFormed(st, ps[0]);
      IndexPrimsWellFormed(IndexPrim(st, ps[0]), ps[1..]);
    }
  }

  /** The materials of the bound geometry prims among `ps`. */
  function BoundPaths(ps: seq<Prim>): set<string> {
    set i | 0 <= i < |ps| && IsGeometry(ps[i]) && BoundMaterial(ps[i]).Some? :: ps[i].binding
  }

  /** The bound materials of a sequence: those of its tail and that of its head. */
  lemma BoundPathsCons(ps: seq<Prim>)
    requires ps != []
    ensures BoundPaths(ps) == BoundPaths(ps[1..]) + (if IsGeometry(ps[0]) && BoundMaterial(ps[0]).Some? then {ps[0].binding} else {})
  {
    var t := ps[1..];
    forall m | m in BoundPaths(ps)
      ensures m in BoundPaths(t) || (IsGeometry(ps[0]) && BoundMaterial(ps[0]).Some? && m == ps[0].binding)
    {
      var i :| 0 <= i < |ps| && IsGeometry(ps[i]) && BoundMaterial(ps[i]).Some? && ps[i].binding == m;
      if i > 0 {
        assert t[i - 1] == ps[i];
      }
    }
    forall m | m in BoundPaths(t) ensures m in BoundPaths(ps) {
      var i :| 0 <= i < |t| && IsGeometry(t[i]) && BoundMaterial(t[i]).Some? && t[i].binding == m;
      assert ps[i + 1] == t[i];
    }
  }

  /** `getAllUsdMaterials` indexes exactly the materials bound below the parent,
      and an already-indexed path keeps its entry. */
  lemma {:induction false} IndexPrimsIndexes(st: Params, ps: seq<Prim>)
    ensures var r := IndexPrims(st, ps);
      && r.byPath.Keys == st.byPath.Keys + BoundPaths(ps)
      && (forall k :: k in st.byPath ==> r.byPath[k] == st.byPath[k])
      && r == st.(byPath := r.byPath, byName := r.byName)
    decreases ps
  {
    if ps != [] {
      BoundPathsCons(ps);
      var s1 := IndexPrim(st, ps[0]);
      assert s1.byPath.Keys == st.byPath.Keys + (if IsGeometry(ps[0]) && BoundMaterial(ps[0]).Some? then {ps[0].binding} else {});
      assert s1 == st.(byPath := s1.byPath, byName := s1.byName);
      IndexPrimsIndexes(s1, ps[1..]);
    }
  }

  /** The geometry prims among `ps` with no material. */
  predicate HasUnbound(ps: seq<Prim>) {
    exists i :: 0 <= i < |ps| && IsGeometry(ps[i]) && BoundMaterial(ps[i]).None?
  }

  /** Making or finding the default material touches only the indexes, the log
      of definitions (one entry, on first need) and the default itself. */
  lemma EnsureDefaultShape(st: Params)
    ensures var r := EnsureDefault(st);
      && r.materialsPath == st.materialsPath && r.bindings == st.bindings && r.removed == st.removed
      && st.byPath.Keys <= r.byPath.Keys
      && r.defined == st.defined + (if st.defaultMaterial.None? then [MaterialPath(st, DefaultName)] else [])
      && (st.defaultMaterial.Some? ==> r == st)
  {
    if st.defaultMaterial.None? {
      DefaultNameValid();
    } else {
      assert st.defined + [] == st.defined;
    }
  }

  /** The default material, made or found, keeps the helpers' shape and is at
      `materialsPath + '/defaultMaterial'`. */
  lemma EnsureDefaultWellFormed(st: Params)
    requires WellFormed(st)
    ensures var r := EnsureDefault(st);
      && WellFormed(r)
      && r.defaultMaterial == Some(MaterialPath(st, DefaultName))
      && r.materialsPath == st.materialsPath && r.removed == st.removed && r.bindings == st.bindings
      && st.byPath.Keys <= r.byPath.Keys
      && (st.defaultMaterial.Some? ==> r == st)
  {
    if st.defaultMaterial.None? {
      DefaultNameValid();
      CreateMaterialWellFormed(st, DefaultName);
    }
  }

  /** One prim of `addDefaultMaterialToGeometries` keeps the helpers' shape and
      only adds to the indexes and the bindings. */
  lemma DefaultPrimWellFormed(st: Params, p: Prim)
    requires WellFormed(st)
    ensures var r := DefaultPrim(st, p);
      && WellFormed(r)
      && r.materialsPath == st.materialsPath && r.removed == st.removed
      && st.byPath.Keys <= r.byPath.Keys
      && st.bindings.Keys <= r.bindings.Keys
      && (st.defaultMaterial.Some? ==> r.defaultMaterial == st.defaultMaterial)
  {
    if IsGeometry(p) && BoundMaterial(p).Some? {
      IndexPrimWellFormed(st, p);
    } else if IsGeometry(p) {
      EnsureDefaultWellFormed(st);
      DefaultNameValid();
      IdentifierBasename(st, DefaultName);
    }
  }

  /** One prim makes the default material exactly when it is a geometry prim
      without a material and there is no default material yet. */
  lemma DefaultPrimDefines(st: Params, p: Prim)
    ensures var r := DefaultPrim(st, p);
      && r.materialsPath == st.materialsPath
      && (r.defaultMaterial.Some? <==> st.defaultMaterial.Some? || (IsGeometry(p) && BoundMaterial(p).None?))
      && r.defined == st.defined + (if st.defaultMaterial.None? && IsGeometry(p) && BoundMaterial(p).None?
                                    then [MaterialPath(st, DefaultName)] else [])
  {
    if IsGeometry(p) && BoundMaterial(p).Some? {
      assert DefaultPrim(st, p) == IndexPrim(st, p);
    } else if IsGeometry(p) {
      EnsureDefaultShape(st);
    } else {
      assert st.defined + [] == st.defined;
    }
  }

  /** After one geometry prim, its material is indexed, and it is bound to the
      default material if it had none. */
  lemma DefaultPrimCovers(st: Params, p: Prim)
    requires IsGeometry(p)
    ensures var r := DefaultPrim(st, p);
      && (if BoundMaterial(p).Some? then p.binding else MaterialPath(st, DefaultName)) in r.byPath
      && (BoundMaterial(p).None? ==> p.path in r.bindings)
  {
    if BoundMaterial(p).Some? {
      assert DefaultPrim(st, p) == IndexPrim(st, p);
    } else {
      EnsureDefaultShape(st);
    }
  }

  /** `addDefaultMaterialToGeometries` keeps the helpers' shape and only adds to
      the indexes and the bindings. */
  lemma {:induction false} DefaultPrimsWellFormed(st: Params, ps: seq<Prim>)
    requires WellFormed(st)
    ensures var r := DefaultPrims(st, ps);
      && WellFormed(r)
      && r.materialsPath == st.materialsPath && r.removed == st.removed
      && st.byPath.Keys <= r.byPath.Keys
      && st.bindings.Keys <= r.bindings.Keys
      && (st.defaultMaterial.Some? ==> r.defaultMaterial == st.defaultMaterial)
    decreases ps
  {
    if ps != [] {
      DefaultPrimWellFormed(st, ps[0]);
      DefaultPrimsWellFormed(DefaultPrim(st, ps[0]), ps[1..]);
    }
  }

  /** A sequence has an unbound geometry prim when its head is one or its tail has one. */
  lemma HasUnboundCons(ps: seq<Prim>)
    requires ps != []
    ensures HasUnbound(ps) <==> (IsGeometry(ps[0]) && BoundMaterial(ps[0]).None?) || HasUnbound(ps[1..])
  {
    if HasUnbound(ps) {
      var i :| 0 <= i < |ps| && IsGeometry(ps[i]) && BoundMaterial(ps[i]).None?;
      if i > 0 {
        assert ps[1..][i - 1] == ps[i];
      }
    }
    if HasUnbound(ps[1..]) {
      var i :| 0 <= i < |ps[1..]| && IsGeometry(ps[1..][i]) && BoundMaterial(ps[1..][i]).None?;
      assert ps[i + 1] == ps[1..][i];
    }
  }

  /** `addDefaultMaterialToGeometries` makes the default material at most once,
      and only when some geometry prim has no material. */
  lemma {:induction false} DefaultPrimsDefine(st: Params, ps: seq<Prim>)
    ensures var r := DefaultPrims(st, ps);
      && (r.defaultMaterial.Some? <==> st.defaultMaterial.Some? || HasUnbound(ps))
      && r.defined == st.defined + (if st.defaultMaterial.None? && HasUnbound(ps) then [MaterialPath(st, DefaultName)] else [])
    decreases ps
  {
    if ps != [] {
      var s1 := DefaultPrim(st, ps[0]);
      var r := DefaultPrims(s1, ps[1..]);
      DefaultPrimDefines(st, ps[0]);
      DefaultPrimsDefine(s1, ps[1..]);
      HasUnboundCons(ps);
      var first := IsGeometry(ps[0]) && BoundMaterial(ps[0]).None?;
      if st.defaultMaterial.Some? || first {
        assert r.defined == s1.defined;
      } else {
        assert s1.defined == st.defined && s1.materialsPath == st.materialsPath;
      }
    }
  }

  /** After `addDefaultMaterialToGeometries` every geometry prim below the parent
      has an indexed material, and every one that had none is bound to the
      default material. */
  lemma {:induction false} DefaultPrimsCover(st: Params, ps: seq<Prim>)
    requires WellFormed(st)
    ensures var r := DefaultPrims(st, ps);
      && (forall i :: 0 <= i < |ps| && IsGeometry(ps[i]) ==>
            (if BoundMaterial(ps[i]).Some? then ps[i].binding else MaterialPath(st, DefaultName)) in r.byPath)
      && (forall i :: 0 <= i < |ps| && IsGeometry(ps[i]) && BoundMaterial(ps[i]).None? ==> ps[i].path in r.bindings)
    decreases ps
  {
    if ps != [] {
      var s1 := DefaultPrim(st, ps[0]);
      DefaultPrimWellFormed(st, ps[0]);
      DefaultPrimsWellFormed(s1, ps[1..]);
      if IsGeometry(ps[0]) {
        DefaultPrimCovers(st, ps[0]);
      }
      DefaultPrimsCover(s1, ps[1..]);
      forall i | 1 <= i < |ps| ensures ps[i] == ps[1..][i - 1] { }
    }
  }

  /** Replacing a material keeps the helpers' shape when the new material is
      not at the default material's path: the path found leaves the path index
      and the prim is removed; the new material's path enters it; nothing else
      in the index changes, and the name index is left as it was. */
  lemma ReplaceWellFormed(st: Params, found: Option<string>, made: Option<string>)
    requires WellFormed(st)
    ensures var r := ReplaceFound(st, found, made);
      && WellFormed(r)
      && r.byName == st.byName
      && r.removed == st.removed + (if found.Some? then [found.value] else [])
      && (made.Some? ==> made.value in r.byPath)
      && (found.Some? && made != found ==> found.value !in r.byPath)
      && forall k :: (found.None? || k != found.value) && (made.None? || k != made.value) ==>
           (k in r.byPath <==> k in st.byPath)
  {
  }
}
