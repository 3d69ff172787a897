/**
 * `USDParameters` of usdzconvert.py as an object, with the helpers that
 * update its material indexes in place: `createMaterial`,
 * `getAllUsdMaterials`, `addDefaultMaterialToGeometries` and the
 * replacement of a material named on the command line in `process`.
 * Each method is proved to leave the state the functions of
 * Indexing.dfy describe.
 */
module Binder {
  import opened Outcomes
  import opened Text
  import opened Materials
  import opened Stage
  import opened Indexing

  class UsdParameters {
    var materialsPath: string
    /** `usdMaterials`: material by prim path */
    var usdMaterials: map<string, string>
    /** `usdMaterialsByName`: material by the last component of its path */
    var usdMaterialsByName: map<string, string>
    var defaultMaterial: Option<string>
    /** materials defined on the stage, in order */
    var defined: seq<string>
    /** geometry prims bound to the default material, and that material */
    var bindings: map<string, string>
    /** material prims removed from the stage, in order */
    var removed: seq<string>

    function State(): Params
      reads this
    {
      Params(materialsPath, usdMaterials, usdMaterialsByName, defaultMaterial, defined, bindings, removed)
    }

    constructor()
      ensures State() == InitialParams()
    {
      materialsPath := "/Materials";
      usdMaterials := map[];
      usdMaterialsByName := map[];
      defaultMaterial := None;
      defined := [];
      bindings := map[];
      removed := [];
    }

    /** `createMaterial(params, name)`: the new material, or the error for a
        name that is not an identifier. */
    method CreateMaterial(name: string) returns (r: Outcome<string>)
      modifies this
      ensures match Indexing.CreateMaterial(old(State()), name)
        case Ok(st) => r == Ok(MaterialPath(old(State()), name)) && State() == st
        case Stop(f) => r == Stop(f) && State() == old(State())
    {
      var matPath := materialsPath + "/" + name;
      if !IsIdentifier(name) {
        return Stop(ConvertError(InvalidMaterialName));
      }
      defined := defined + [matPath];
      usdMaterials := usdMaterials[matPath := matPath];
      usdMaterialsByName := usdMaterialsByName[name := matPath];
      r := Ok(matPath);
    }

    /** The body of the loop of `getAllUsdMaterials` for one prim. */
    method IndexBinding(p: Prim)
      modifies this
      ensures State() == IndexPrim(old(State()), p)
    {
      if IsGeometry(p) {
        var matPath := p.binding;
        var usdShadeMaterial: Option<string> := None;
        if matPath != "" && p.resolves {
          usdShadeMaterial := Some(matPath);
        }
        if usdShadeMaterial.Some? {
          AddIfNew(matPath, usdShadeMaterial.value);
        }
      }
    }

    /** Indexes `material` by `matPath` and by the last component of `matPath`,
        unless `matPath` is indexed already. */
    method AddIfNew(matPath: string, material: string)
      modifies this
      ensures matPath in old(usdMaterials) ==> State() == old(State())
      ensures matPath !in old(usdMaterials) ==> State() == Register(old(State()), matPath, material)
    {
      if matPath !in usdMaterials {
        usdMaterials := usdMaterials[matPath := material];
        var materialName := LastComponent(matPath);
        usdMaterialsByName := usdMaterialsByName[materialName := material];
      }
    }

    /** The last slash-separated component of the path, as the source takes it. */
    static method LastComponent(matPath: string) returns (materialName: string)
      ensures materialName == Basename(matPath)
    {
      var materialNameSplitted := Split(matPath, '/');
      materialName := materialNameSplitted[|materialNameSplitted| - 1];
      BasenameSplit(matPath);
    }

    /** `getAllUsdMaterials(params, parent)`: indexes the bound materials of the
        prims below `parent`, in pre-order. */
    method GetAllUsdMaterials(parent: Prim)
      modifies this
      ensures State() == IndexPrims(old(State()), PreOrder(parent.children))
      decreases parent
    {
      ghost var start := State();
      var k := 0;
      while k < |parent.children|
        invariant 0 <= k <= |parent.children|
        invariant State() == IndexPrims(start, PreOrder(parent.children[..k]))
      {
        var usdPrim := parent.children[k];
        IndexBinding(usdPrim);
        GetAllUsdMaterials(usdPrim);
        PreOrderSnoc(parent.children, k);
        IndexPrimsAppend(start, PreOrder(parent.children[..k]), [usdPrim] + PreOrder(usdPrim.children));
        assert ([usdPrim] + PreOrder(usdPrim.children))[1..] == PreOrder(usdPrim.children);
        k := k + 1;
      }
      assert parent.children[..k] == parent.children;
    }

    /** The body of the loop of `addDefaultMaterialToGeometries` for one prim. */
    method BindDefault(p: Prim)
      modifies this
      ensures State() == DefaultPrim(old(State()), p)
    {
      if IsGeometry(p) {
        var matPath := p.binding;
        var usdShadeMaterial: Option<string> := None;
        if matPath != "" && p.resolves {
          usdShadeMaterial := Some(matPath);
        }
        if usdShadeMaterial.None? {
          MakeDefault();
          matPath := materialsPath + "/" + DefaultName;
          usdShadeMaterial := defaultMaterial;
          bindings := bindings[p.path := usdShadeMaterial.value];
        }
        AddIfNew(matPath, usdShadeMaterial.value);
      }
    }

    /** The shared default material, created under the name `defaultMaterial` on
        first need. */
    method MakeDefault()
      modifies this
      ensures State() == EnsureDefault(old(State()))
    {
      if defaultMaterial.None? {
        DefaultNameValid();
        var made := CreateMaterial(DefaultName);
        defaultMaterial := Some(made.value);
      }
    }

    /** `addDefaultMaterialToGeometries(params, parent)`: binds the unbound
        geometry prims below `parent` to the default material and indexes the
        materials, in pre-order. */
    method AddDefaultMaterialToGeometries(parent: Prim)
      modifies this
      ensures State() == DefaultPrims(old(State()), PreOrder(parent.children))
      decreases parent
    {
      ghost var start := State();
      var k := 0;
      while k < |parent.children|
        invariant 0 <= k <= |parent.children|
        invariant State() == DefaultPrims(start, PreOrder(parent.children[..k]))
      {
        var usdPrim := parent.children[k];
        BindDefault(usdPrim);
        AddDefaultMaterialToGeometries(usdPrim);
        PreOrderSnoc(parent.children, k);
        DefaultPrimsAppend(start, PreOrder(parent.children[..k]), [usdPrim] + PreOrder(usdPrim.children));
        assert ([usdPrim] + PreOrder(usdPrim.children))[1..] == PreOrder(usdPrim.children);
        k := k + 1;
      }
      assert parent.children[..k] == parent.children;
    }

    /** The replacement of a material named on the command line in `process`:
        the material found for its path (or, without one, its name) leaves
        the path index and the stage; the material `makeUsdMaterial` made in
        its place, if any, is indexed by its path. */
    method ReplaceMaterial(root: Prim, sanitize: string -> string, material: Material, made: Option<string>)
      modifies this
      ensures State() == ReplaceFound(old(State()),
                                 FindUsdMaterial(old(usdMaterials), old(usdMaterialsByName), root, sanitize,
                                                 if material.path != "" then material.path else material.name),
                                 made)
    {
      var usdMaterial := FindUsdMaterial(usdMaterials, usdMaterialsByName, root, sanitize,
                                         if material.path != "" then material.path else material.name);
      if usdMaterial.Some? {
        var matPath := usdMaterial.value;
        if matPath in usdMaterials {
          usdMaterials := usdMaterials - {matPath};
        }
        removed := removed + [matPath];
      }
      if made.Some? {
        usdMaterials := usdMaterials[made.value := made.value];
      }
    }
  }
}
