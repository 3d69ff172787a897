/**
 * Texture relocation in usdzconvert.py: `copyMaterialTextures`, which
 * copies the texture files of a command-line material into the
 * conversion folder and rewrites each texture path to the copy's path
 * relative to that folder, and `copyTexturesFromStageToFolder`, which
 * copies every texture file the indexed stage materials use, once each.
 *
 * The file system is the set `files` of paths `os.path.isfile` accepts;
 * `usdUtils.copy` is recorded as a `Copy` in a log.  The folder copied
 * into is a fresh temporary folder, so copies do not change `files`.
 * Python dicts are iterated in an order the program does not choose; the
 * methods pick the next key of a dict arbitrarily.
 */
module Textures {
  import opened Outcomes
  import opened Text
  import opened Materials

  /** `usdUtils.copy(source, destination)` */
  datatype Copy = Copy(source: string, destination: string)

  /** What `copyMaterialTextures` makes of one input: the input afterwards and
      the copies made for it. */
  datatype Relocated = Relocated(input: Input, copies: seq<Copy>)

  /** The path of `file` in `folder`, joined with one slash. */
  function PathIn(folder: string, file: string): string {
    folder + "/" + file
  }

  /** `folder` is a non-empty proper prefix directory of `file`. */
  predicate Under(folder: string, file: string) {
    folder != "" && |folder| < |file| && folder + "/" == file[..|folder| + 1]
  }

  /** The loop body of `copyMaterialTextures` for one input, with the folders of
      the source and destination files: a texture found next to the source or
      the destination is copied under its own name; a texture found as given is
      copied under its path relative to the source or destination folder when
      it lies there, else to `textures/<basename>`, and the input is rewritten
      to the path it has in the conversion folder. */
  function Relocate(input: Input, srcFolder: string, dstFolder: string, folder: string, files: set<string>): Relocated {
    if !input.TextureMap? || input.file == "" then Relocated(input, [])
    else
      var file := input.file;
      if srcFolder != "" && PathIn(srcFolder, file) in files then
        Relocated(input, [Copy(PathIn(srcFolder, file), PathIn(folder, file))])
      else if dstFolder != "" && dstFolder != srcFolder && PathIn(dstFolder, file) in files then
        Relocated(input, [Copy(PathIn(dstFolder, file), PathIn(folder, file))])
      else if file in files then
        if Under(srcFolder, file) then
          var rest := file[|srcFolder| + 1..];
          Relocated(input.(file := rest), [Copy(PathIn(srcFolder, rest), PathIn(folder, rest))])
        else if dstFolder != srcFolder && Under(dstFolder, file) then
          var rest := file[|dstFolder| + 1..];
          Relocated(input.(file := rest), [Copy(PathIn(dstFolder, rest), PathIn(folder, rest))])
        else
          var basename := "textures/" + Basename(file);
          Relocated(input.(file := basename), [Copy(file, PathIn(folder, basename))])
      else Relocated(input, [])
  }

  /** Inputs that are not texture maps, and maps without a file, are left alone. */
  lemma RelocateSkips(input: Input, srcFolder: string, dstFolder: string, folder: string, files: set<string>)
    requires !input.TextureMap? || input.file == ""
    ensures Relocate(input, srcFolder, dstFolder, folder, files) == Relocated(input, [])
  {
  }

  /** A slash-separated prefix, put back in front of the rest, gives the path back. */
  lemma UnderJoin(folder: string, file: string)
    requires Under(folder, file)
    ensures PathIn(folder, file[|folder| + 1..]) == file
  {
    assert file == file[..|folder| + 1] + file[|folder| + 1..];
  }

  /** Every input gets at most one copy; only the file of a texture map changes;
      the copy's source exists; and the copy lands at the path, inside the
      conversion folder, that the input names afterwards. */
  lemma RelocateCopiesWhatItNames(input: Input, srcFolder: string, dstFolder: string, folder: string, files: set<string>)
    ensures var r := Relocate(input, srcFolder, dstFolder, folder, files);
      && |r.copies| <= 1
      && (input.TextureMap? ==> r.input == input.(file := r.input.file))
      && (!input.TextureMap? ==> r.input == input)
      && (r.copies == [] ==> r.input == input)
      && (r.copies != [] ==> r.copies[0].source in files && r.copies[0].destination == PathIn(folder, r.input.file))
  {
    var r := Relocate(input, srcFolder, dstFolder, folder, files);
    if input.TextureMap? && input.file != "" && input.file in files {
      if Under(srcFolder, input.file) {
        UnderJoin(srcFolder, input.file);
      } else if dstFolder != srcFolder && Under(dstFolder, input.file) {
        UnderJoin(dstFolder, input.file);
      }
    }
  }

  /** A texture map whose file exists only as given keeps its path relative to
      the source folder when it lies under it, else relative to a distinct
      destination folder when it lies under that, else becomes
      `textures/<basename>`. */
  lemma RelocateGivenFile(input: Input, srcFolder: string, dstFolder: string, folder: string, files: set<string>)
    requires input.TextureMap? && input.file != "" && input.file in files
    requires srcFolder == "" || PathIn(srcFolder, input.file) !in files
    requires dstFolder == "" || dstFolder == srcFolder || PathIn(dstFolder, input.file) !in files
    ensures var f := Relocate(input, srcFolder, dstFolder, folder, files).input.file;
      && (Under(srcFolder, input.file) ==> f == input.file[|srcFolder| + 1..] && PathIn(srcFolder, f) == input.file)
      && (!Under(srcFolder, input.file) && dstFolder != srcFolder && Under(dstFolder, input.file) ==>
            f == input.file[|dstFolder| + 1..] && PathIn(dstFolder, f) == input.file)
      && (!Under(srcFolder, input.file) && !(dstFolder != srcFolder && Under(dstFolder, input.file)) ==>
            f == "textures/" + Basename(input.file))
  {
    if Under(srcFolder, input.file) {
      UnderJoin(srcFolder, input.file);
    } else if dstFolder != srcFolder && Under(dstFolder, input.file) {
      UnderJoin(dstFolder, input.file);
    }
  }

  /** A texture found nowhere is neither copied nor rewritten. */
  lemma RelocateMissing(input: Input, srcFolder: string, dstFolder: string, folder: string, files: set<string>)
    requires input.TextureMap? && input.file !in files
    requires srcFolder == "" || PathIn(srcFolder, input.file) !in files
    requires dstFolder == "" || dstFolder == srcFolder || PathIn(dstFolder, input.file) !in files
    ensures Relocate(input, srcFolder, dstFolder, folder, files) == Relocated(input, [])
  {
  }

  /** The inputs of `material` after `copyMaterialTextures`. */
  function RelocatedInputs(inputs: map<string, Input>, srcFolder: string, dstFolder: string, folder: string,
                           files: set<string>): map<string, Input>
  {
    map k | k in inputs :: Relocate(inputs[k], srcFolder, dstFolder, folder, files).input
  }

  /** `copyMaterialTextures(params, material, srcPath, dstPath, folder)`: the
      material with its texture paths rewritten, and the copies made. */
  method CopyMaterialTextures(material: Material, srcPath: string, dstPath: string, folder: string, files: set<string>)
    returns (result: Material, copies: seq<Copy>)
    ensures result == material.(inputs := RelocatedInputs(material.inputs, Dirname(srcPath), Dirname(dstPath), folder, files))
    ensures forall c :: c in copies <==>
      exists k :: k in material.inputs && c in Relocate(material.inputs[k], Dirname(srcPath), Dirname(dstPath), folder, files).copies
  {
    var srcFolder := Dirname(srcPath);
    var dstFolder := Dirname(dstPath);
    var inputs := material.inputs;
    var remaining := material.inputs.Keys;
    copies := [];
    while remaining != {}
      invariant remaining <= material.inputs.Keys
      invariant inputs.Keys == material.inputs.Keys
      invariant forall k :: k in material.inputs ==>
        inputs[k] == if k in remaining then material.inputs[k] else Relocate(material.inputs[k], srcFolder, dstFolder, folder, files).input
      invariant forall c :: c in copies <==>
        exists k :: k in material.inputs && k !in remaining && c in Relocate(material.inputs[k], srcFolder, dstFolder, folder, files).copies
      decreases remaining
    {
      var inputName :| inputName in remaining;
      var moved := Relocate(material.inputs[inputName], srcFolder, dstFolder, folder, files);
      inputs := inputs[inputName := moved.input];
      copies := copies + moved.copies;
      remaining := remaining - {inputName};
    }
    result := material.(inputs := inputs);
  }

  /** A child prim of a material as `copyTexturesFromStageToFolder` reads it:
      the value of its `info:id` attribute and the asset path of its
      `inputs:file` attribute, None when the attribute or its value is missing. */
  datatype Shader = Shader(id: Option<string>, file: Option<string>)

  /** The texture file a shader names, if it is a `UsdUVTexture` naming one. */
  function TextureFile(sh: Shader): Option<string> {
    if sh.id == Some("UsdUVTexture") && sh.file.Some? && sh.file.value != "" then sh.file else None
  }

  /** The texture files the shaders `children` name. */
  function ChildTextures(children: seq<Shader>): (r: set<string>)
    ensures "" !in r
    ensures forall k :: 0 <= k < |children| && TextureFile(children[k]).Some? ==> TextureFile(children[k]).value in r
    ensures forall f :: f in r ==> exists k :: 0 <= k < |children| && TextureFile(children[k]) == Some(f)
  {
    set k | 0 <= k < |children| && TextureFile(children[k]).Some? :: TextureFile(children[k]).value
  }

  /** The child prims of the material at `path`. */
  function ChildShaders(shaders: map<string, seq<Shader>>, path: string): seq<Shader> {
    if path in shaders then shaders[path] else []
  }

  /** The texture files the materials of the index use. */
  function UsedTextures(usdMaterials: map<string, string>, shaders: map<string, seq<Shader>>): (r: set<string>)
    ensures "" !in r
    ensures forall f :: f in r <==> exists m :: m in usdMaterials && f in ChildTextures(ChildShaders(shaders, usdMaterials[m]))
  {
    set m, f | m in usdMaterials && f in ChildTextures(ChildShaders(shaders, usdMaterials[m])) :: f
  }

  /** The copy `copyTexturesFromStageToFolder` makes of the texture `filename`:
      a relative name is looked up next to the source file. */
  function StageCopy(srcFolder: string, folder: string, filename: string): Copy
    requires filename != ""
  {
    Copy(if srcFolder != "" && filename[0] != '/' then PathIn(srcFolder, filename) else filename, PathIn(folder, filename))
  }

  /** The copies of the texture files `files`. */
  function StageCopies(srcFolder: string, folder: string, files: set<string>): set<Copy>
    requires "" !in files
  {
    set f | f in files :: StageCopy(srcFolder, folder, f)
  }

  /** The copies made so far, with the texture file each was made for: one copy
      per file, in the order the files were met, and `copied` the set of those
      files (the dict `copiedFiles`). */
  ghost predicate Log(srcFolder: string, folder: string, copied: set<string>, copies: seq<Copy>, names: seq<string>) {
    && |names| == |copies|
    && (forall i :: 0 <= i < |names| ==> names[i] != "" && copies[i] == StageCopy(srcFolder, folder, names[i]))
    && (forall i, j :: 0 <= i < j < |names| ==> names[i] != names[j])
    && (forall f :: f in copied <==> f in names)
  }

  /** The inner loop of `copyTexturesFromStageToFolder`, over the child prims of
      one material: every texture file they name is copied once it is not
      copied already, and only those files are added. */
  method CopyShaderTextures(children: seq<Shader>, srcFolder: string, folder: string,
                            copied: set<string>, copies: seq<Copy>, ghost names: seq<string>)
    returns (copiedOut: set<string>, copiesOut: seq<Copy>, ghost namesOut: seq<string>)
    requires Log(srcFolder, folder, copied, copies, names)
    ensures Log(srcFolder, folder, copiedOut, copiesOut, namesOut)
    ensures names <= namesOut && copied <= copiedOut
    ensures forall i :: |names| <= i < |namesOut| ==> namesOut[i] in ChildTextures(children)
    ensures copiedOut == copied + ChildTextures(children)
  {
    copiedOut, copiesOut, namesOut := copied, copies, names;
    var k := 0;
    while k < |children|
      invariant 0 <= k <= |children|
      invariant Log(srcFolder, folder, copiedOut, copiesOut, namesOut)
      invariant names <= namesOut && copied <= copiedOut
      invariant forall i :: |names| <= i < |namesOut| ==> namesOut[i] in ChildTextures(children)
      invariant copiedOut <= copied + ChildTextures(children)
      invariant forall j :: 0 <= j < k && TextureFile(children[j]).Some? ==> TextureFile(children[j]).value in copiedOut
    {
      var childShader := children[k];
      k := k + 1;
      if childShader.id.None? || childShader.id.value != "UsdUVTexture" {
        continue;
      }
      if childShader.file.None? {
        continue;
      }
      var filename := childShader.file.value;
      if filename == "" || filename in copiedOut {
        continue;
      }
      var filePath := if srcFolder != "" && filename[0] != '/' then srcFolder + "/" + filename else filename;
      assert TextureFile(children[k - 1]) == Some(filename);
      copiesOut := copiesOut + [Copy(filePath, folder + "/" + filename)];
      namesOut := namesOut + [filename];
      copiedOut := copiedOut + {filename};
    }
  }

  /** Two names put in the same folder give the same path only when they are equal. */
  lemma JoinCancel(folder: string, a: string, b: string)
    requires PathIn(folder, a) == PathIn(folder, b)
    ensures a == b
  {
    assert a == PathIn(folder, a)[|folder| + 1..];
    assert b == PathIn(folder, b)[|folder| + 1..];
  }

  /** A log names each destination once. */
  lemma LogDistinct(srcFolder: string, folder: string, copied: set<string>, copies: seq<Copy>, names: seq<string>)
    requires Log(srcFolder, folder, copied, copies, names)
    ensures forall i, j :: 0 <= i < j < |copies| ==> copies[i].destination != copies[j].destination
  {
    forall i, j | 0 <= i < j < |copies| ensures copies[i].destination != copies[j].destination {
      if copies[i].destination == copies[j].destination {
        JoinCancel(folder, names[i], names[j]);
      }
    }
  }

  /** `copyTexturesFromStageToFolder(params, srcPath, folder)`: the texture
      files used by the materials of the index are copied into `folder`, each
      exactly once, and nothing else is copied. */
  method CopyTexturesFromStageToFolder(usdMaterials: map<string, string>, shaders: map<string, seq<Shader>>,
                                       srcPath: string, folder: string)
    returns (copies: seq<Copy>)
    ensures forall i, j :: 0 <= i < j < |copies| ==> copies[i].destination != copies[j].destination
    ensures forall c :: c in copies <==> c in StageCopies(Dirname(srcPath), folder, UsedTextures(usdMaterials, shaders))
  {
    var srcFolder := Dirname(srcPath);
    var copiedFiles: set<string> := {};
    ghost var names: seq<string> := [];
    var remaining := usdMaterials.Keys;
    copies := [];
    while remaining != {}
      invariant remaining <= usdMaterials.Keys
      invariant Log(srcFolder, folder, copiedFiles, copies, names)
      invariant copiedFiles <= UsedTextures(usdMaterials, shaders)
      invariant forall m :: m in usdMaterials && m !in remaining ==> ChildTextures(ChildShaders(shaders, usdMaterials[m])) <= copiedFiles
      decreases remaining
    {
      var path :| path in remaining;
      var children := ChildShaders(shaders, usdMaterials[path]);
      copiedFiles, copies, names := CopyShaderTextures(children, srcFolder, folder, copiedFiles, copies, names);
      remaining := remaining - {path};
    }
    LogDistinct(srcFolder, folder, copiedFiles, copies, names);
    var used := UsedTextures(usdMaterials, shaders);
    assert copiedFiles == used;
    forall c | c in copies ensures c in StageCopies(srcFolder, folder, used) {
      var i :| 0 <= i < |copies| && copies[i] == c;
      assert names[i] in copiedFiles;
    }
    forall c | c in StageCopies(srcFolder, folder, used) ensures c in copies {
      var f :| f in used && c == StageCopy(srcFolder, folder, f);
      var n :| 0 <= n < |names| && names[n] == f;
      assert copies[n] == c;
    }
  }
}
