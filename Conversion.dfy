/**
 * The decisions `process` makes before it touches the stage, and the two
 * entry points around it.  `process` finds the input file (in the folder
 * of the argument file when it is not found as given), derives the
 * destination path and kind, the temporary output path and the source
 * format; `tryProcess` turns the converter's exceptions into exit codes;
 * `convert` turns a file list and an option dictionary into the tokens
 * `process` parses.
 *
 * `os.path.isfile` is the set `disk` of paths, relative to the folder the
 * converter started in, that name files; the folder `chdir` moves to is
 * recorded, not performed.  The temporary folder, the random name
 * `tempfile` draws and the rest of `process` are parameters.
 */
module Conversion {
  import opened Outcomes
  import opened Text
  import opened Materials
  import opened Directives
  import DirectiveFacts

  /** The path `p` as seen from the folder `folder` ("" for the starting folder). */
  function At(folder: string, p: string): string {
    if folder == "" || IsAbsolute(p) then p else folder + "/" + p
  }

  /** The input file: its path as parsed and the folder the converter works in
      from then on. */
  datatype Source = Source(path: string, folder: string)

  /** `srcPath` in `process`: the input path when it names a file; else, for a
      bare file name given together with an argument file that lies in a
      folder, the same name in that folder after `chdir` to it. */
  function FindSource(out: ParserOut, disk: set<string>): (r: Outcome<Source>)
    ensures r.Ok? ==> r.value.path == out.inFilePath && At(r.value.folder, r.value.path) in disk
    ensures r.Ok? && r.value.folder != "" ==>
      && out.inFilePath !in disk && '/' !in out.inFilePath && r.value.folder == Dirname(out.argumentFile)
    ensures r.Stop? <==>
      && out.inFilePath !in disk
      && ('/' in out.inFilePath || Dirname(out.argumentFile) == "" || At(Dirname(out.argumentFile), out.inFilePath) !in disk)
    ensures r.Stop? ==> r.failure == ConvertError(InputFileMissing)
  {
    var p := out.inFilePath;
    if p in disk then Ok(Source(p, ""))
    else if Dirname(p) == "" && out.argumentFile != "" then
      var argumentFileDir := Dirname(out.argumentFile);
      if argumentFileDir != "" && At(argumentFileDir, p) in disk then Ok(Source(p, argumentFileDir))
      else Stop(ConvertError(InputFileMissing))
    else Stop(ConvertError(InputFileMissing))
  }

  /** The destination path and whether it is a `.usdz` package. */
  datatype Dest = Dest(path: string, isUsdz: bool)

  const OutputExtensions: set<string> := {".usdz", ".usd", ".usdc", ".usda"}

  /** The destination part of `process`: by default the source path with its
      extension replaced by `.usdz`; a given output path must end, in any
      case, in one of the four USD extensions. */
  function ResolveDestination(srcPath: string, outFilePath: string): (r: Outcome<Dest>)
    ensures r.Stop? <==> outFilePath != "" && Lower(Splitext(outFilePath).1) !in OutputExtensions
    ensures r.Stop? ==> r.failure == ConvertError(UnsupportedOutputExtension)
    ensures r.Ok? && outFilePath != "" ==>
      r.value.path == outFilePath && (r.value.isUsdz <==> Lower(Splitext(outFilePath).1) == ".usdz")
    ensures r.Ok? && outFilePath == "" ==> r.value.isUsdz
  {
    if outFilePath == "" then Ok(Dest(Splitext(srcPath).0 + ".usdz", true))
    else
      var dstExt := Lower(Splitext(outFilePath).1);
      if dstExt == ".usdz" then Ok(Dest(outFilePath, true))
      else if dstExt != ".usd" && dstExt != ".usdc" && dstExt != ".usda" then
        Stop(ConvertError(UnsupportedOutputExtension))
      else Ok(Dest(outFilePath, false))
  }

  /** The default destination lies beside the source and is named after it:
      same folder, same base name up to the extension, then `.usdz`. */
  lemma DefaultDestinationBeside(srcPath: string)
    ensures var r := ResolveDestination(srcPath, "");
      && r.Ok? && r.value.isUsdz
      && Dirname(r.value.path) == Dirname(srcPath)
      && Basename(r.value.path) == Basename(Splitext(srcPath).0) + ".usdz"
  {
    var (stem, ext) := Splitext(srcPath);
    PathAppend(stem, ".usdz");
    PathAppend(stem, ext);
  }

  /** The importers `process` dispatches to, by lower-cased input extension. */
  datatype SourceFormat = Obj | GlTF | Fbx | Usd | Usdz | Alembic

  function FormatOf(ext: string): (f: Option<SourceFormat>) {
    if ext == ".obj" then Some(Obj)
    else if ext == ".gltf" || ext == ".glb" then Some(GlTF)
    else if ext == ".fbx" then Some(Fbx)
    else if ext == ".usd" || ext == ".usda" || ext == ".usdc" then Some(Usd)
    else if ext == ".usdz" then Some(Usdz)
    else if ext == ".abc" then Some(Alembic)
    else None
  }

  /** `supportedFormats` in `convert` */
  const SupportedFormats: seq<string> := [".obj", ".gltf", ".glb", ".fbx", ".usd", ".usda", ".usdc", ".usdz", ".abc"]

  /** `convert` passes on exactly the files `process` has an importer for. */
  lemma SupportedFormatsImported(ext: string)
    ensures ext in SupportedFormats <==> FormatOf(ext).Some?
  {
    if FormatOf(ext).Some? {
      assert ext == ".obj" || ext == ".gltf" || ext == ".glb" || ext == ".fbx" || ext == ".usd"
          || ext == ".usda" || ext == ".usdc" || ext == ".usdz" || ext == ".abc";
    }
  }

  /** `tmpBasename`: the destination's base name, with `.usdc` for a package. */
  function TmpBasename(dst: Dest): (b: string)
    ensures '/' !in b
  {
    Basename(if dst.isUsdz then Splitext(dst.path).0 + ".usdc" else dst.path)
  }

  /** Where the stage is written before packaging or copying, and whether it is
      removed afterwards.  A USD source is written beside itself, under a drawn
      name `candidate` when the plain name is taken; anything else goes to the
      temporary folder. */
  datatype TmpFile = TmpFile(path: string, remove: bool)

  /** The temporary path as usdzconvert.py builds it: the source folder is
      joined with a slash even when it is empty. */
  function TmpPathAsWritten(src: Source, format: SourceFormat, dst: Dest, tmpFolder: string,
                            disk: set<string>, candidate: string): TmpFile
  {
    var tmpBasename := TmpBasename(dst);
    if format == Usd then
      var srcFolder := Dirname(src.path);
      var tmpPath := srcFolder + "/" + tmpBasename;
      if At(src.folder, tmpPath) in disk then TmpFile(srcFolder + "/" + candidate + tmpBasename, true)
      else TmpFile(tmpPath, true)
    else TmpFile(tmpFolder + "/" + tmpBasename, false)
  }

  /** For a USD source named without a folder (`model.usda`), the file meant for
      the source folder is put at the root of the file system: the path is
      absolute although the source path is relative. */
  lemma TmpPathEscapes(src: Source, dst: Dest, tmpFolder: string, disk: set<string>, candidate: string)
    requires '/' !in src.path
    ensures var r := TmpPathAsWritten(src, Usd, dst, tmpFolder, disk, candidate);
      && !IsAbsolute(src.path)
      && IsAbsolute(r.path)
  {
  }

  /** The path of `name` in the folder `folder`, the folder itself when empty. */
  function InFolder(folder: string, name: string): (p: string)
    ensures folder == "" ==> p == name
  {
    if folder == "" then name else folder + "/" + name
  }

  /** The temporary path with the source folder joined only when there is one. */
  function TmpPath(src: Source, format: SourceFormat, dst: Dest, tmpFolder: string,
                   disk: set<string>, candidate: string): TmpFile
  {
    var tmpBasename := TmpBasename(dst);
    if format == Usd then
      var srcFolder := Dirname(src.path);
      var tmpPath := InFolder(srcFolder, tmpBasename);
      if At(src.folder, tmpPath) in disk then TmpFile(InFolder(srcFolder, candidate + tmpBasename), true)
      else TmpFile(tmpPath, true)
    else TmpFile(tmpFolder + "/" + tmpBasename, false)
  }

  /** The corrected temporary path differs from the one usdzconvert.py builds
      only for a USD source whose path has no folder. */
  lemma TmpPathAgrees(src: Source, format: SourceFormat, dst: Dest, tmpFolder: string,
                      disk: set<string>, candidate: string)
    requires format != Usd || Dirname(src.path) != ""
    ensures TmpPath(src, format, dst, tmpFolder, disk, candidate) == TmpPathAsWritten(src, format, dst, tmpFolder, disk, candidate)
  {
  }

  /** A name without slashes put in a folder keeps its name, and the folder is
      recovered unless it ends with a slash. */
  lemma InFolderParts(folder: string, name: string)
    requires '/' !in name
    ensures Basename(InFolder(folder, name)) == name
    ensures folder == "" ==> Dirname(InFolder(folder, name)) == ""
    ensures folder != "" && !EndsWithSlash(folder) ==> Dirname(InFolder(folder, name)) == folder
    ensures folder != "" ==> (IsAbsolute(InFolder(folder, name)) <==> IsAbsolute(folder))
  {
    if folder != "" {
      if !EndsWithSlash(folder) {
        DirnameBasename(folder, name);
      } else {
        var d := folder + "/";
        PathAppend(d, name);
        RFindUnique(d, '/', |folder|);
      }
    }
  }

  /** For a USD source the temporary file is in the source's folder: it has the
      folder of the source unless that ends in a slash, its base name is the
      destination's (behind the drawn name when taken), and it is absolute
      exactly when the source path is. */
  lemma TmpPathBesideSource(src: Source, dst: Dest, tmpFolder: string, disk: set<string>, candidate: string)
    requires '/' !in candidate
    ensures var r := TmpPath(src, Usd, dst, tmpFolder, disk, candidate);
      var srcFolder := Dirname(src.path);
      && r.remove
      && (Basename(r.path) == TmpBasename(dst) || Basename(r.path) == candidate + TmpBasename(dst))
      && (!EndsWithSlash(srcFolder) ==> Dirname(r.path) == srcFolder)
      && (IsAbsolute(r.path) <==> IsAbsolute(src.path))
  {
    var srcFolder := Dirname(src.path);
    var base := TmpBasename(dst);
    var taken := At(src.folder, InFolder(srcFolder, base)) in disk;
    var name := if taken then candidate + base else base;
    assert '/' !in name;
    assert TmpPath(src, Usd, dst, tmpFolder, disk, candidate).path == InFolder(srcFolder, name);
    InFolderParts(srcFolder, name);
    if srcFolder != "" {
      assert IsAbsolute(srcFolder) <==> IsAbsolute(src.path) by { assert srcFolder[0] == src.path[0]; }
    }
  }

  /** What `process` has decided once the input format is known. */
  datatype Setup = Setup(source: Source, destination: Dest, format: SourceFormat, tmp: TmpFile, copyTextures: bool)

  /** The first part of `process`, after parsing: the input file, the
      destination, the temporary path and the input format, or the usage error
      that ends the run. */
  function Prepare(out: ParserOut, disk: set<string>, tmpFolder: string, candidate: string): (r: Outcome<Setup>)
  {
    var src :- FindSource(out, disk);
    var dst :- ResolveDestination(src.path, out.outFilePath);
    match FormatOf(Lower(Splitext(src.path).1))
    case None => Stop(ConvertError(UnsupportedInputExtension))
    case Some(format) =>
      Ok(Setup(src, dst, format, TmpPath(src, format, dst, tmpFolder, disk, candidate), out.copyTextures && !dst.isUsdz))
  }

  /** The checks of `process` come in order: a missing input file first, then
      a destination extension, then an input extension; when all pass, the
      setup holds their results, and textures are copied only for a USD
      destination that is not a package. */
  lemma PrepareOrder(out: ParserOut, disk: set<string>, tmpFolder: string, candidate: string)
    ensures var r := Prepare(out, disk, tmpFolder, candidate);
      && (FindSource(out, disk).Stop? ==> r == Stop(ConvertError(InputFileMissing)))
      && (FindSource(out, disk).Ok? && out.outFilePath != "" && Lower(Splitext(out.outFilePath).1) !in OutputExtensions ==>
            r == Stop(ConvertError(UnsupportedOutputExtension)))
      && (r.Stop? ==> r.failure.ConvertError? && r.failure.reason in {InputFileMissing, UnsupportedOutputExtension, UnsupportedInputExtension})
      && (r.Ok? ==>
            && Ok(r.value.source) == FindSource(out, disk)
            && Ok(r.value.destination) == ResolveDestination(out.inFilePath, out.outFilePath)
            && Some(r.value.format) == FormatOf(Lower(Splitext(out.inFilePath).1))
            && (r.value.copyTextures <==> out.copyTextures && !r.value.destination.isUsdz))
  {
  }

  /** The value `process` gives the stage's `loopStartToEndTimeCode`, if any:
      `-no-loop` turns looping off; `-loop` turns it on for USD and USDZ input. */
  function LoopMetadata(out: ParserOut, format: SourceFormat): Option<bool> {
    if out.noloop then Some(false)
    else if out.loop && (format == Usd || format == Usdz) then Some(true)
    else None
  }

  /** After a successful parse the two flags never both apply, so the setting
      is exactly the flag given. */
  lemma LoopMetadataFollowsFlag(roles: seq<Role>, files: map<string, seq<string>>, arguments: seq<string>, loads: nat,
                                format: SourceFormat)
    requires Parse(roles, files, arguments, loads).Ok?
    ensures var out := Parse(roles, files, arguments, loads).value;
      && (LoopMetadata(out, format) == Some(false) <==> out.noloop)
      && (LoopMetadata(out, format) == Some(true) <==> out.loop && (format == Usd || format == Usdz))
  {
  }

  const ConvertErrorReturnValue := 2

  /** `tryProcess`: a `ConvertError` ends with exit code 2, a `ConvertExit`
      with 0; any other exception propagates and a result is passed on. */
  function TryProcess(ret: Outcome<int>): (code: Outcome<int>)
    ensures ret.Ok? ==> code == ret
    ensures ret.Stop? && ret.failure.ConvertError? ==> code == Ok(ConvertErrorReturnValue)
    ensures ret.Stop? && ret.failure.ConvertExit? ==> code == Ok(0)
    ensures code.Stop? <==> ret.Stop? && !ret.failure.ConvertError? && !ret.failure.ConvertExit?
    ensures code.Stop? ==> code == ret
  {
    match ret
    case Stop(ConvertError(_)) => Ok(ConvertErrorReturnValue)
    case Stop(ConvertExit) => Ok(0)
    case _ => ret
  }

  /** `process` up to the stage work: parse, then prepare; `rest` stands for
      the stage work and returns the exit code of the ARKit checker. */
  function Process(roles: seq<Role>, files: map<string, seq<string>>, loads: nat, disk: set<string>,
                   tmpFolder: string, candidate: string, rest: Setup -> Outcome<int>,
                   argumentList: seq<string>): Outcome<int>
  {
    var out :- Parse(roles, files, argumentList, loads);
    var setup :- Prepare(out, disk, tmpFolder, candidate);
    rest(setup)
  }

  /** Help as the first token exits with code 0, whatever else the run would do. */
  lemma HelpExitsZero(roles: seq<Role>, files: map<string, seq<string>>, loads: nat, disk: set<string>,
                      tmpFolder: string, candidate: string, rest: Setup -> Outcome<int>, argumentList: seq<string>)
    requires argumentList != [] && argumentList[0] in HelpFlags
    ensures TryProcess(Process(roles, files, loads, disk, tmpFolder, candidate, rest, argumentList)) == Ok(0)
  {
    DirectiveFacts.HelpExits(roles, files, argumentList, loads);
  }

  /** Help anywhere on the command line ends `process` in the parse: no stage
      work is done. */
  lemma HelpSkipsStage(roles: seq<Role>, files: map<string, seq<string>>, loads: nat, disk: set<string>,
                       tmpFolder: string, candidate: string, rest: Setup -> Outcome<int>, argumentList: seq<string>, i: nat)
    requires i < |argumentList| && argumentList[i] in HelpFlags
    ensures Parse(roles, files, argumentList, loads).Stop?
    ensures Process(roles, files, loads, disk, tmpFolder, candidate, rest, argumentList)
         == Stop(Parse(roles, files, argumentList, loads).failure)
  {
    DirectiveFacts.HelpAnywhere(roles, files, argumentList, loads, i);
  }

  /** A parsed input path that names no file ends with exit code 2 before any
      stage work. */
  lemma MissingInputExitsTwo(roles: seq<Role>, files: map<string, seq<string>>, loads: nat, disk: set<string>,
                             tmpFolder: string, candidate: string, rest: Setup -> Outcome<int>, argumentList: seq<string>)
    requires Parse(roles, files, argumentList, loads).Ok?
    requires FindSource(Parse(roles, files, argumentList, loads).value, disk).Stop?
    ensures TryProcess(Process(roles, files, loads, disk, tmpFolder, candidate, rest, argumentList)) == Ok(ConvertErrorReturnValue)
  {
  }

  /** `option.split(':')` into the file-name suffix and the channel: a channel
      only when there is exactly one colon. */
  function OptionSuffix(option: string): string {
    var optionAndChannel := Split(option, ':');
    if |optionAndChannel| == 2 then optionAndChannel[0] else option
  }

  /** The channel part of `option.split(':')`, when there is exactly one colon. */
  function OptionChannel(option: string): (channel: string)
    ensures ':' !in option ==> channel == ""
  {
    var optionAndChannel := Split(option, ':');
    if |optionAndChannel| == 2 then optionAndChannel[1] else ""
  }

  /** With exactly one colon the option is the suffix, the colon and the
      channel, neither holding a colon; otherwise it is all suffix. */
  lemma OptionParts(option: string)
    ensures |Split(option, ':')| == 2 ==>
      && option == OptionSuffix(option) + ":" + OptionChannel(option)
      && ':' !in OptionSuffix(option) && ':' !in OptionChannel(option)
    ensures |Split(option, ':')| != 2 ==> OptionSuffix(option) == option && OptionChannel(option) == ""
  {
    var ps := Split(option, ':');
    if |ps| == 2 {
      JoinSplit(option, ':');
      assert Join(ps, ':') == ps[0] + [':'] + Join(ps[1..], ':');
      assert Join(ps[1..], ':') == ps[1];
    }
  }

  /** The suffix test of `convert`: the stem is longer than the option and ends
      with it; Python's slice from minus zero is the whole stem, so an empty
      option is compared with the whole stem. */
  predicate EndsWith(name: string, option: string) {
    |name| > |option| && option == (if |option| == 0 then name else name[|name| - |option|..])
  }

  /** The suffix test holds exactly when `option` is a non-empty proper suffix;
      an empty option matches nothing. */
  lemma EndsWithSuffix(name: string, option: string)
    ensures EndsWith(name, option) <==> option != "" && exists p :: p != "" && name == p + option
  {
    if option != "" && |name| > |option| && option == name[|name| - |option|..] {
      var p := name[..|name| - |option|];
      assert name == p + option;
    }
    if option != "" && exists p :: p != "" && name == p + option {
      var p :| p != "" && name == p + option;
      assert name[|name| - |option|..] == option;
    }
  }

  /** The tokens one role adds for one file: the role directive, the channel
      if one was given, and the file. */
  function RoleTokens(name: string, file: string, role: Role, options: map<string, string>): seq<string> {
    if role.name in options && EndsWith(name, OptionSuffix(options[role.name])) then
      var channel := OptionChannel(options[role.name]);
      ["-" + role.name] + (if channel != "" then [channel] else []) + [file]
    else []
  }

  /** The tokens the roles `roles` add, in table order. */
  function RolesTokens(name: string, file: string, roles: seq<Role>, options: map<string, string>): seq<string> {
    if roles == [] then [] else RolesTokens(name, file, roles[..|roles| - 1], options) + RoleTokens(name, file, roles[|roles| - 1], options)
  }

  /** The tokens one file adds: itself if `process` can import it, then the
      directives of the roles whose option is a suffix of its stem. */
  function FileTokens(file: string, roles: seq<Role>, options: map<string, string>): seq<string> {
    var (name, ext) := Splitext(file);
    (if Lower(ext) in SupportedFormats then [file] else []) + RolesTokens(name, file, roles, options)
  }

  /** The argument list `convert` builds. */
  function ConvertTokens(fileList: seq<string>, roles: seq<Role>, options: map<string, string>): seq<string> {
    if fileList == [] then []
    else ConvertTokens(fileList[..|fileList| - 1], roles, options) + FileTokens(fileList[|fileList| - 1], roles, options)
  }

  /** The files are handled one after another, each on its own. */
  lemma {:induction false} ConvertTokensAppend(a: seq<string>, b: seq<string>, roles: seq<Role>, options: map<string, string>)
    ensures ConvertTokens(a + b, roles, options) == ConvertTokens(a, roles, options) + ConvertTokens(b, roles, options)
    decreases |b|
  {
    if b == [] {
      assert a + b == a;
    } else {
      var c := b[..|b| - 1];
      assert (a + b)[..|a + b| - 1] == a + c;
      assert (a + b)[|a + b| - 1] == b[|b| - 1];
      ConvertTokensAppend(a, c, roles, options);
      AppendAssociative(ConvertTokens(a, roles, options), ConvertTokens(c, roles, options), FileTokens(b[|b| - 1], roles, options));
    }
  }

  /** A file `process` can import is passed on first, ahead of its role
      directives; any other file only appears behind directives. */
  lemma FileTokensLead(file: string, roles: seq<Role>, options: map<string, string>)
    ensures var ts := FileTokens(file, roles, options);
      Lower(Splitext(file).1) in SupportedFormats <==> ts != [] && ts[0] == file && FormatOf(Lower(Splitext(file).1)).Some?
  {
    SupportedFormatsImported(Lower(Splitext(file).1));
    var name := Splitext(file).0;
    if Lower(Splitext(file).1) !in SupportedFormats {
      RolesTokensLead(name, file, roles, options);
    }
  }

  /** Role directives start with a dash, so a file is never mistaken for one
      unless its own name starts with a dash. */
  lemma {:induction false} RolesTokensLead(name: string, file: string, roles: seq<Role>, options: map<string, string>)
    ensures var ts := RolesTokens(name, file, roles, options);
      ts != [] ==> |ts[0]| >= 1 && ts[0][0] == '-'
    decreases |roles|
  {
    if roles != [] {
      RolesTokensLead(name, file, roles[..|roles| - 1], options);
    }
  }

  /** A role whose option matches contributes `-<role> [channel] <file>`. */
  lemma RoleTokensMatch(name: string, file: string, role: Role, options: map<string, string>)
    requires role.name in options
    ensures var option := options[role.name];
      RoleTokens(name, file, role, options) ==
        if option != "" && OptionSuffix(option) != "" && exists p :: p != "" && name == p + OptionSuffix(option) then
          ["-" + role.name] + (if OptionChannel(option) != "" then [OptionChannel(option)] else []) + [file]
        else []
  {
    EndsWithSuffix(name, OptionSuffix(options[role.name]));
  }

  /** One pass of the inner loop of `convert`: the tokens of one role. */
  method RoleArguments(name: string, file: string, role: Role, options: map<string, string>)
    returns (tokens: seq<string>)
    ensures tokens == RoleTokens(name, file, role, options)
  {
    tokens := [];
    var inputName := role.name;
    if inputName in options {
      var option := options[inputName];
      var channel := "";
      var optionAndChannel := Split(option, ':');
      if |optionAndChannel| == 2 {
        option := optionAndChannel[0];
        channel := optionAndChannel[1];
      }
      if |name| > |option| && option == (if |option| == 0 then name else name[|name| - |option|..]) {
        tokens := tokens + ["-" + inputName];
        if channel != "" {
          tokens := tokens + [channel];
        }
        tokens := tokens + [file];
      }
    }
  }

  /** The inner loop of `convert` for one file: the tokens of every role. */
  method AppendRoleTokens(argumentList: seq<string>, name: string, file: string, roles: seq<Role>,
                          options: map<string, string>)
    returns (result: seq<string>)
    ensures result == argumentList + RolesTokens(name, file, roles, options)
  {
    result := argumentList;
    var j := 0;
    while j < |roles|
      invariant 0 <= j <= |roles|
      invariant result == argumentList + RolesTokens(name, file, roles[..j], options)
    {
      var tokens := RoleArguments(name, file, roles[j], options);
      assert roles[..j + 1][..j] == roles[..j];
      AppendAssociative(argumentList, RolesTokens(name, file, roles[..j], options), tokens);
      result := result + tokens;
      j := j + 1;
    }
    assert roles[..|roles|] == roles;
  }

  /** One pass of the outer loop of `convert`: the tokens of one file. */
  method FileArguments(file: string, roles: seq<Role>, options: map<string, string>)
    returns (tokens: seq<string>)
    ensures tokens == FileTokens(file, roles, options)
  {
    var (name, ext) := Splitext(file);
    var lead: seq<string> := [];
    if Lower(ext) in SupportedFormats {
      lead := [file];
    }
    tokens := AppendRoleTokens(lead, name, file, roles, options);
  }

  /** The loop of `convert` that builds the argument list. */
  method ConvertArguments(fileList: seq<string>, roles: seq<Role>, options: map<string, string>)
    returns (argumentList: seq<string>)
    ensures argumentList == ConvertTokens(fileList, roles, options)
  {
    argumentList := [];
    var i := 0;
    while i < |fileList|
      invariant 0 <= i <= |fileList|
      invariant argumentList == ConvertTokens(fileList[..i], roles, options)
    {
      var tokens := FileArguments(fileList[i], roles, options);
      assert fileList[..i + 1][..i] == fileList[..i];
      argumentList := argumentList + tokens;
      i := i + 1;
    }
    assert fileList[..|fileList|] == fileList;
  }

  /** `convert(fileList, optionDictionary)`: `tryProcess` on the arguments it
      builds; `process` is a parameter. */
  method Convert(fileList: seq<string>, roles: seq<Role>, options: map<string, string>,
                 process: seq<string> -> Outcome<int>)
    returns (code: Outcome<int>)
    ensures code == TryProcess(process(ConvertTokens(fileList, roles, options)))
    ensures code.Stop? ==> !code.failure.ConvertError? && !code.failure.ConvertExit?
  {
    var argumentList := ConvertArguments(fileList, roles, options);
    code := TryProcess(process(argumentList));
  }
}
