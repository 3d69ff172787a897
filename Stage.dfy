/**
 * The USD stage as usdzconvert.py walks it: a tree of prims under the
 * pseudo-root.  A prim has a kind (only meshes, geometry subsets and
 * materials matter to the converter), a path, and for geometry the path
 * of its direct material binding together with whether that binding
 * resolves to a material (`GetDirectBinding().GetMaterial()`).  A
 * material is referred to by its prim path throughout the model.
 *
 * `GetChildren()` lists a prim's children in order; the recursive walks
 * of the converter visit the prims below a parent in pre-order, which is
 * `PreOrder` of its children.
 */
module Stage {
  import opened Outcomes
  import opened Text

  datatype Kind = Mesh | Subset | MaterialPrim | OtherPrim

  datatype Prim = Prim(kind: Kind, path: string, binding: string, resolves: bool, children: seq<Prim>)

  /** A mesh or a geometry subset. */
  predicate IsGeometry(p: Prim) {
    p.kind == Mesh || p.kind == Subset
  }

  /** The material a geometry prim is bound to, if the binding is set and resolves. */
  function BoundMaterial(p: Prim): (m: Option<string>)
    ensures m.Some? <==> p.binding != "" && p.resolves
    ensures m.Some? ==> m.value == p.binding
  {
    if p.binding != "" && p.resolves then Some(p.binding) else None
  }

  /** The prims of the forest `cs` in pre-order: each prim before its children,
      and its children before its later siblings. */
  function PreOrder(cs: seq<Prim>): (r: seq<Prim>)
    ensures |r| >= |cs|
    decreases cs
  {
    if cs == [] then [] else [cs[0]] + PreOrder(cs[0].children) + PreOrder(cs[1..])
  }

  /** Pre-order of two forests side by side. */
  lemma {:induction false} PreOrderAppend(a: seq<Prim>, b: seq<Prim>)
    ensures PreOrder(a + b) == PreOrder(a) + PreOrder(b)
    decreases a
  {
    if a != [] {
      assert (a + b)[0] == a[0];
      assert (a + b)[1..] == a[1..] + b;
      PreOrderAppend(a[1..], b);
      var c := [a[0]] + PreOrder(a[0].children);
      assert PreOrder(a) == c + PreOrder(a[1..]);
      calc {
        PreOrder(a + b);
        [(a + b)[0]] + PreOrder((a + b)[0].children) + PreOrder((a + b)[1..]);
        c + PreOrder(a[1..] + b);
        c + (PreOrder(a[1..]) + PreOrder(b));
        { AppendAssociative(c, PreOrder(a[1..]), PreOrder(b)); }
        (c + PreOrder(a[1..])) + PreOrder(b);
      }
    } else {
      assert a + b == b;
    }
  }

  /** The pre-order of the first `k + 1` children extends that of the first `k`
      by child `k` and the prims below it. */
  lemma PreOrderSnoc(cs: seq<Prim>, k: nat)
    requires k < |cs|
    ensures PreOrder(cs[..k + 1]) == PreOrder(cs[..k]) + ([cs[k]] + PreOrder(cs[k].children))
  {
    assert cs[..k + 1] == cs[..k] + [cs[k]];
    PreOrderAppend(cs[..k], [cs[k]]);
    assert PreOrder([cs[k]]) == [cs[k]] + PreOrder(cs[k].children) + PreOrder([]);
  }

  /** A material whose path, or whose base name, is `name`. */
  predicate Hit(p: Prim, name: string, byPath: bool) {
    p.kind == MaterialPrim && (if byPath then p.path == name else Basename(p.path) == name)
  }

  /** `findUsdMaterialRecursively(params, parent, name, byPath)` over the
      children `cs` of the parent. */
  function FindRecursively(cs: seq<Prim>, name: string, byPath: bool): Option<string>
    decreases cs
  {
    if cs == [] then None
    else if Hit(cs[0], name, byPath) then Some(cs[0].path)
    else
      match FindRecursively(cs[0].children, name, byPath)
      case Some(m) => Some(m)
      case None => FindRecursively(cs[1..], name, byPath)
  }

  /** The position of the first matching material in `ps`, or `|ps|`. */
  function FirstHit(ps: seq<Prim>, name: string, byPath: bool): (k: nat)
    ensures k <= |ps|
  {
    if ps == [] || Hit(ps[0], name, byPath) then 0 else 1 + FirstHit(ps[1..], name, byPath)
  }

  /** No material before the first hit matches. */
  lemma {:induction false} FirstHitFirst(ps: seq<Prim>, name: string, byPath: bool)
    ensures var k := FirstHit(ps, name, byPath);
      && (forall j :: 0 <= j < k ==> !Hit(ps[j], name, byPath))
      && (k < |ps| ==> Hit(ps[k], name, byPath))
  {
    if ps != [] && !Hit(ps[0], name, byPath) {
      var t := ps[1..];
      var k := FirstHit(ps, name, byPath);
      assert k == 1 + FirstHit(t, name, byPath);
      FirstHitFirst(t, name, byPath);
      forall j | 1 <= j < k ensures !Hit(ps[j], name, byPath) {
        assert ps[j] == t[j - 1];
      }
      if k < |ps| {
        assert ps[k] == t[k - 1];
      }
    }
  }

  /** Pre-order of a non-empty forest: its first prim, the prims below it, then
      the rest of the forest. */
  lemma PreOrderCons(cs: seq<Prim>)
    requires cs != []
    ensures PreOrder(cs) == [cs[0]] + (PreOrder(cs[0].children) + PreOrder(cs[1..]))
  {
    AppendAssociative([cs[0]], PreOrder(cs[0].children), PreOrder(cs[1..]));
  }

  /** The path of the first matching material in `ps`, if any. */
  function FirstMatch(ps: seq<Prim>, name: string, byPath: bool): Option<string> {
    if ps == [] then None
    else if Hit(ps[0], name, byPath) then Some(ps[0].path)
    else FirstMatch(ps[1..], name, byPath)
  }

  /** The first match is the material at the first hit. */
  lemma {:induction false} FirstMatchAtFirstHit(ps: seq<Prim>, name: string, byPath: bool)
    ensures var k := FirstHit(ps, name, byPath);
      FirstMatch(ps, name, byPath) == if k < |ps| then Some(ps[k].path) else None
  {
    if ps != [] && !Hit(ps[0], name, byPath) {
      FirstMatchAtFirstHit(ps[1..], name, byPath);
    }
  }

  /** The first match in two sequences side by side is the first in the first
      sequence, if any, else the first in the second. */
  lemma {:induction false} FirstMatchAppend(a: seq<Prim>, b: seq<Prim>, name: string, byPath: bool)
    ensures FirstMatch(a + b, name, byPath) ==
      if FirstMatch(a, name, byPath).Some? then FirstMatch(a, name, byPath) else FirstMatch(b, name, byPath)
  {
    if a != [] {
      assert (a + b)[0] == a[0];
      assert (a + b)[1..] == a[1..] + b;
      FirstMatchAppend(a[1..], b, name, byPath);
    } else {
      assert a + b == b;
    }
  }

  /** The walk of `findUsdMaterialRecursively` is the first match in pre-order. */
  lemma {:induction false} FindIsFirstMatch(cs: seq<Prim>, name: string, byPath: bool)
    ensures FindRecursively(cs, name, byPath) == FirstMatch(PreOrder(cs), name, byPath)
    decreases cs
  {
    if cs != [] {
      var a := PreOrder(cs[0].children);
      var b := PreOrder(cs[1..]);
      PreOrderCons(cs);
      assert ([cs[0]] + (a + b))[1..] == a + b;
      FirstMatchAppend(a, b, name, byPath);
      FindIsFirstMatch(cs[0].children, name, byPath);
      FindIsFirstMatch(cs[1..], name, byPath);
    }
  }

  /** The search returns the first matching material in pre-order, and None
      exactly when no material below the parent matches. */
  lemma FindFirstInPreOrder(cs: seq<Prim>, name: string, byPath: bool)
    ensures var ps := PreOrder(cs);
      var k := FirstHit(ps, name, byPath);
      FindRecursively(cs, name, byPath) == if k < |ps| then Some(ps[k].path) else None
  {
    FindIsFirstMatch(cs, name, byPath);
    FirstMatchAtFirstHit(PreOrder(cs), name, byPath);
  }

  /** `findUsdMaterial(params, name)`: the material known under the path
      `name`, else under the sanitized name, else at `/Materials/<name>` or
      `/<name>` (sanitized), else the first material below the pseudo-root
      matched by path when `name` starts with a slash and by base name
      otherwise.  `makeValidIdentifier` is not part of this model and is the
      parameter `sanitize`. */
  function FindUsdMaterial(byPath: map<string, string>, byName: map<string, string>, root: Prim,
                           sanitize: string -> string, name: string): Option<string>
  {
    if name == "" then None
    else if name in byPath then Some(byPath[name])
    else
      var materialName := sanitize(name);
      if materialName in byName then Some(byName[materialName])
      else if "/Materials/" + materialName in byPath then Some(byPath["/Materials/" + materialName])
      else if "/" + materialName in byPath then Some(byPath["/" + materialName])
      else FindRecursively(root.children, name, name[0] == '/')
  }

  /** What `findUsdMaterial` returns is a material it knows, or a material prim
      below the pseudo-root matching the name; None only when the name is
      empty, or no lookup hits and no prim matches. */
  lemma FindUsdMaterialSound(byPath: map<string, string>, byName: map<string, string>, root: Prim,
                             sanitize: string -> string, name: string)
    ensures var r := FindUsdMaterial(byPath, byName, root, sanitize, name);
      var ps := PreOrder(root.children);
      && (r.Some? ==> r.value in byPath.Values || r.value in byName.Values
                      || exists i :: 0 <= i < |ps| && ps[i].kind == MaterialPrim && ps[i].path == r.value)
      && (r.None? <==> name == ""
                       || (&& name !in byPath && sanitize(name) !in byName
                           && "/Materials/" + sanitize(name) !in byPath && "/" + sanitize(name) !in byPath
                           && forall i :: 0 <= i < |ps| ==> !Hit(ps[i], name, name[0] == '/')))
  {
    if name != "" {
      FindFirstInPreOrder(root.children, name, name[0] == '/');
      var ps := PreOrder(root.children);
      var k := FirstHit(ps, name, name[0] == '/');
      FirstHitFirst(ps, name, name[0] == '/');
      if k < |ps| {
        assert Hit(ps[k], name, name[0] == '/');
      }
      var m := sanitize(name);
      if name in byPath {
        assert byPath[name] in byPath.Values;
      } else if m in byName {
        assert byName[m] in byName.Values;
      } else if "/Materials/" + m in byPath {
        assert byPath["/Materials/" + m] in byPath.Values;
      } else if "/" + m in byPath {
        assert byPath["/" + m] in byPath.Values;
      }
    }
  }

  /** The lookups are tried in order: a known path wins over everything else,
      and the walk is reached only when every lookup fails. */
  lemma FindUsdMaterialOrder(byPath: map<string, string>, byName: map<string, string>, root: Prim,
                             sanitize: string -> string, name: string)
    requires name != ""
    ensures name in byPath ==> FindUsdMaterial(byPath, byName, root, sanitize, name) == Some(byPath[name])
    ensures name !in byPath && sanitize(name) in byName ==>
              FindUsdMaterial(byPath, byName, root, sanitize, name) == Some(byName[sanitize(name)])
    ensures name !in byPath && sanitize(name) !in byName && "/Materials/" + sanitize(name) in byPath ==>
              FindUsdMaterial(byPath, byName, root, sanitize, name) == Some(byPath["/Materials/" + sanitize(name)])
    ensures name !in byPath && sanitize(name) !in byName && "/Materials/" + sanitize(name) !in byPath
            && "/" + sanitize(name) in byPath ==>
              FindUsdMaterial(byPath, byName, root, sanitize, name) == Some(byPath["/" + sanitize(name)])
    ensures (forall k :: k in byPath ==> k != name && k != "/Materials/" + sanitize(name) && k != "/" + sanitize(name))
            && sanitize(name) !in byName ==>
              FindUsdMaterial(byPath, byName, root, sanitize, name) == FindRecursively(root.children, name, name[0] == '/')
  {
  }
}
