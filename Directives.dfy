/**
 * What `Parser.parse` (usdzconvert.py) computes, as functions over a
 * cursor: the token list, the position of the token being read, the
 * current texture coordinate set and the `ParserOut` record built so far.
 * The class in DirectiveParser.dfy runs the same steps with loops and
 * mutable fields and is proved to agree with these functions.
 *
 * Argument files are a parameter `files` mapping each existing path to
 * its lines.  Reading an argument file appends its tokens to the token
 * list, so a file that names itself grows the list without end; `Run`
 * carries a bound `loads` on the number of files read and stops with
 * `LoadLimit` past it.  An empty token makes the source's loop spin
 * forever (it does not advance the index); `Run` stops with `Diverges`.
 */
module Directives {
  import opened Outcomes
  import opened Text
  import opened Floats
  import opened Materials
  import opened ArgumentFile

  /** `ParserOut` */
  datatype ParserOut = ParserOut(
    inFilePath: string,
    outFilePath: string,
    argumentFile: string,
    materials: seq<Material>,
    verbose: bool,
    copyTextures: bool,
    iOS12: bool,
    url: string,
    copyright: string,
    metersPerUnit: real,
    loop: bool,
    noloop: bool)

  /** `ParserOut()`: empty paths, flags off, one anonymous material. */
  function InitialOut(): ParserOut {
    ParserOut("", "", "", [NewMaterial("")], false, false, false, "", "", 0.0, false, false)
  }

  /** The parser between two tokens. */
  datatype Cursor = Cursor(arguments: seq<string>, index: nat, texCoordSet: string, out: ParserOut)

  /** The tokens a successful `getParameters` returns and the index it leaves. */
  datatype Taken = Taken(tokens: seq<string>, index: nat)

  /** A parameter `getParameters` lets through: `parameter[0]` exists, and a
      leading minus sign belongs to a number. */
  predicate Acceptable(p: string) {
    p != [] && (p[0] == '-' ==> IsFloat(p))
  }

  /** Why a parameter is refused: indexing an empty token raises IndexError,
      which nothing catches; a flag-like token is a usage error. */
  function ParameterFailure(p: string): Failure {
    if p == [] then Uncaught else ConvertError(UnexpectedParameter)
  }

  /** The position of the first parameter that is not acceptable, or `|ps|`. */
  function FirstRefused(ps: seq<string>): (k: nat)
    ensures k <= |ps|
    ensures forall i :: 0 <= i < k ==> Acceptable(ps[i])
    ensures k < |ps| ==> !Acceptable(ps[k])
  {
    if ps == [] || !Acceptable(ps[0]) then 0 else 1 + FirstRefused(ps[1..])
  }

  /** The first refused parameter is the one every parameter before it passes. */
  lemma FirstRefusedAt(ps: seq<string>, i: nat)
    requires i < |ps| && !Acceptable(ps[i])
    requires forall j :: 0 <= j < i ==> Acceptable(ps[j])
    ensures FirstRefused(ps) == i
  {
  }

  /** `getParameters(count, argument)` with the index at `index`. */
  function Parameters(args: seq<string>, index: nat, count: nat): (r: Outcome<Taken>)
    ensures r.Ok? <==> index + count < |args| && forall i :: index < i <= index + count ==> Acceptable(args[i])
    ensures r.Ok? ==> r.value.index == index + count && |r.value.tokens| == count
                      && r.value.tokens == args[r.value.index - count + 1..r.value.index + 1]
    ensures r.Stop? && index + count >= |args| ==> r.failure == ConvertError(NeedsMoreParameters)
    ensures r.Stop? && index + count < |args| ==>
              var k := FirstRefused(args[index + 1..index + count + 1]);
              k < count && r.failure == ParameterFailure(args[index + 1 + k])
  {
    if index + count >= |args| then Stop(ConvertError(NeedsMoreParameters))
    else
      var ps := args[index + 1..index + count + 1];
      var k := FirstRefused(ps);
      assert forall i :: index < i <= index + count ==> args[i] == ps[i - index - 1];
      if k < |ps| then
        assert !Acceptable(args[index + 1 + k]);
        Stop(ParameterFailure(ps[k]))
      else
        Ok(Taken(ps, index + count))
  }

  /** `isNextArgumentsAreFloats(count)` */
  predicate NextAreFloats(args: seq<string>, index: nat, count: nat) {
    index + count < |args| && forall i :: index < i <= index + count ==> IsFloat(args[i])
  }

  /** The position in the role table of the role `argument` names, if any. */
  function RoleIndex(roles: seq<Role>, argument: string): (r: Option<nat>)
    ensures r.Some? ==> r.value < |roles| && "-" + roles[r.value].name == argument
    ensures r.Some? ==> forall j :: 0 <= j < r.value ==> "-" + roles[j].name != argument
    ensures r.None? <==> forall j :: 0 <= j < |roles| ==> "-" + roles[j].name != argument
  {
    if roles == [] then None
    else if "-" + roles[0].name == argument then Some(0)
    else
      match RoleIndex(roles[1..], argument)
      case None =>
        assert forall j :: 1 <= j < |roles| ==> roles[j] == roles[1..][j - 1];
        None
      case Some(i) => Some(i + 1)
  }

  /** The texture channel selectors `processInputArgument` recognises. */
  predicate IsSelector(p: string) {
    p == "r" || p == "g" || p == "b" || p == "a" || p == "rgb"
  }

  /** The input a role directive sets and the index of its last parameter. */
  datatype Resolved = Resolved(input: Input, index: nat)

  /** The channels a texture map gets: a recognised selector is dropped (with a
      warning) for `rgb` and for roles with more than one component. */
  function MapChannels(role: Role, selector: string): (c: string)
    requires selector == "" || IsSelector(selector)
    ensures c == (if IsSelector(selector) && selector != "rgb" && role.ComponentCount() == 1 then selector
                  else role.defaultChannels)
  {
    var channels := if (role.ComponentCount() != 1 && selector != "") || selector == "rgb" then "" else selector;
    if channels == "" then role.defaultChannels else channels
  }

  /** Tokens that are floats are acceptable parameters. */
  lemma FloatsAccepted(args: seq<string>, index: nat, count: nat)
    requires NextAreFloats(args, index, count)
    ensures Parameters(args, index, count) == Ok(Taken(args[index + 1..index + count + 1], index + count))
  {
    forall i | index < i <= index + count
      ensures Acceptable(args[i])
    {
      FloatShape(args[i]);
    }
  }

  /** Where a texture map's file comes from: an optional selector, then the file. */
  datatype MapSource = MapSource(selector: string, file: string, index: nat)

  /** The parameters after a role that does not take a constant: a selector and
      the file after it, or the file alone. */
  function ReadMapSource(args: seq<string>, index: nat): (r: Outcome<MapSource>)
    ensures r.Ok? ==> forall j :: index < j <= r.value.index ==> j < |args| && Acceptable(args[j])
    ensures r.Ok? ==> && index + 1 < |args|
                      && var sel := args[index + 1];
                         var fileIndex := if IsSelector(sel) then index + 2 else index + 1;
                         && r.value.index == fileIndex < |args|
                         && r.value.file == args[fileIndex]
                         && r.value.selector == (if IsSelector(sel) then sel else "")
  {
    var first :- Parameters(args, index, 1);
    var p := first.tokens[0];
    if IsSelector(p) then
      var file :- Parameters(args, first.index, 1);
      Ok(MapSource(p, file.tokens[0], file.index))
    else
      Ok(MapSource("", p, first.index))
  }

  /** The optional fallback after a texture file: N floats, if they follow. */
  function ReadFallback(args: seq<string>, index: nat, n: nat): (r: (Option<seq<string>>, nat))
    ensures r.0.Some? <==> NextAreFloats(args, index, n)
    ensures r.0.Some? ==> r.0.value == args[index + 1..index + n + 1] && r.1 == index + n
    ensures r.0.None? ==> r.1 == index
    ensures forall j :: index < j <= r.1 ==> j < |args| && Acceptable(args[j])
  {
    if NextAreFloats(args, index, n) then
      FloatsAccepted(args, index, n);
      var f := Parameters(args, index, n).value;
      (Some(f.tokens), f.index)
    else (None, index)
  }

  /** The texture branch of `processInputArgument`: an optional selector before
      the file, the channels it leaves, and an optional fallback of N floats. */
  function ResolveMap(args: seq<string>, index: nat, role: Role, texCoordSet: string): (r: Outcome<Resolved>)
    ensures r.Ok? ==> forall j :: index < j <= r.value.index ==> j < |args| && Acceptable(args[j])
    ensures r.Ok? ==>
        && index + 1 < |args|
        && r.value.input.TextureMap?
        && r.value.input.texCoordSet == texCoordSet
        && var sel := args[index + 1];
           var fileIndex := if IsSelector(sel) then index + 2 else index + 1;
           && fileIndex < |args|
           && r.value.input.file == args[fileIndex]
           && r.value.input.channels == MapChannels(role, if IsSelector(sel) then sel else "")
           && (r.value.input.fallback.Some? <==> NextAreFloats(args, fileIndex, role.ComponentCount()))
           && (r.value.input.fallback.Some? ==>
                 r.value.input.fallback.value == args[fileIndex + 1..fileIndex + role.ComponentCount() + 1]
                 && r.value.index == fileIndex + role.ComponentCount())
           && (r.value.input.fallback.None? ==> r.value.index == fileIndex)
  {
    var source :- ReadMapSource(args, index);
    var fallback := ReadFallback(args, source.index, role.ComponentCount());
    Ok(Resolved(TextureMap(MapChannels(role, source.selector), source.file, fallback.0, texCoordSet), fallback.1))
  }

  /** `processInputArgument` from the point the role is known: a constant when
      the next N tokens are floats, else a texture map. */
  function ResolveInput(args: seq<string>, index: nat, role: Role, texCoordSet: string): (r: Outcome<Resolved>)
    ensures var n := role.ComponentCount();
      NextAreFloats(args, index, n) ==>
        r == Ok(Resolved(Constant(args[index + 1..index + n + 1]), index + n))
    ensures r.Ok? ==> index <= r.value.index < |args|
    ensures r.Ok? ==> forall j :: index < j <= r.value.index ==> Acceptable(args[j])
  {
    var n := role.ComponentCount();
    if NextAreFloats(args, index, n) then
      FloatsAccepted(args, index, n);
      var values := Parameters(args, index, n).value;
      Ok(Resolved(Constant(values.tokens), values.index))
    else
      ResolveMap(args, index, role, texCoordSet)
  }

  /** Anything but N floats after a role is read as a texture map. */
  lemma ResolveInputMap(args: seq<string>, index: nat, role: Role, texCoordSet: string)
    requires !NextAreFloats(args, index, role.ComponentCount())
    ensures ResolveInput(args, index, role, texCoordSet) == ResolveMap(args, index, role, texCoordSet)
  {
  }

  /** Sets the input `name` of the last material. */
  function SetInput(out: ParserOut, name: string, input: Input): (o: ParserOut)
    requires |out.materials| >= 1
    ensures |o.materials| == |out.materials|
    ensures o.materials[..|o.materials| - 1] == out.materials[..|out.materials| - 1]
    ensures var m := out.materials[|out.materials| - 1];
      o.materials[|o.materials| - 1] == m.(inputs := m.inputs[name := input])
    ensures o == out.(materials := o.materials)
    ensures Keeps(out, o)
  {
    var last := |out.materials| - 1;
    var m := out.materials[last];
    out.(materials := out.materials[..last] + [m.(inputs := m.inputs[name := input])])
  }

  /** What no directive undoes: materials are only added or changed, the first
      keeps its name, a path once set stays, and the loop flags stay set. */
  predicate Keeps(a: ParserOut, b: ParserOut) {
    && |a.materials| <= |b.materials|
    && (|a.materials| >= 1 ==> b.materials[0].name == a.materials[0].name)
    && (a.inFilePath != "" ==> b.inFilePath == a.inFilePath)
    && (a.outFilePath != "" ==> b.outFilePath == a.outFilePath)
    && (a.loop ==> b.loop)
    && (a.noloop ==> b.noloop)
  }

  /** An option that takes one parameter: `-copyright`, `-url`, `-metersPerUnit`,
      `-m` and `-texCoordSet`.  The result's index is that of the parameter. */
  function ValuedOption(st: Cursor): (r: Outcome<Cursor>)
    requires st.index < |st.arguments|
    requires st.arguments[st.index] in ValuedOptions
    ensures r.Ok? ==> r.value.arguments == st.arguments && r.value.index == st.index + 1 < |st.arguments|
    ensures r.Ok? ==> st.out.materials <= r.value.out.materials && Keeps(st.out, r.value.out)
    ensures r.Ok? ==> Acceptable(st.arguments[st.index + 1])
    ensures Parameters(st.arguments, st.index, 1).Stop? ==> r == Stop(Parameters(st.arguments, st.index, 1).failure)
    ensures Parameters(st.arguments, st.index, 1).Ok? ==>
      var a, v, next := st.arguments[st.index], st.arguments[st.index + 1], st.(index := st.index + 1);
      && (a == "-copyright" ==> r == Ok(next.(out := st.out.(copyright := v))))
      && (a == "-url" ==> r == Ok(next.(out := st.out.(url := v))))
      && (a == "-texCoordSet" ==> r == Ok(next.(texCoordSet := v)))
  {
    var a := st.arguments[st.index];
    var p :- Parameters(st.arguments, st.index, 1);
    var v := p.tokens[0];
    var out := st.out;
    if a == "-copyright" then Ok(st.(index := p.index, out := out.(copyright := v)))
    else if a == "-url" then Ok(st.(index := p.index, out := out.(url := v)))
    else if a == "-metersPerUnit" then
      if !IsFloat(v) || FloatValue(v) <= 0.0 then Stop(ConvertError(ExpectedPositiveFloat))
      else Ok(st.(index := p.index, out := out.(metersPerUnit := FloatValue(v))))
    else if a == "-m" then
      Ok(st.(index := p.index, texCoordSet := "st", out := out.(materials := out.materials + [NewMaterial(v)])))
    else
      Ok(st.(index := p.index, texCoordSet := v))
  }

  const ValuedOptions: set<string> := {"-copyright", "-url", "-metersPerUnit", "-m", "-texCoordSet"}

  /** The options without parameters: `-v`, `-copytextures`, `-iOS12`, the loop
      flags, and help, which exits. */
  function FlagOption(out: ParserOut, a: string): (r: Outcome<ParserOut>)
    requires a in FlagOptions
    ensures r.Ok? ==> r.value.materials == out.materials && Keeps(out, r.value)
    ensures a == "-v" ==> r == Ok(out.(verbose := true))
    ensures a == "-copytextures" ==> r == Ok(out.(copyTextures := true))
    ensures a == "-iOS12" || a == "-ios12" ==> r == Ok(out.(iOS12 := true))
    ensures a in LoopFlags ==> r == Ok(out.(loop := true))
    ensures a in NoLoopFlags ==> r == Ok(out.(noloop := true))
    ensures r == Stop(ConvertExit) <==> a in HelpFlags
  {
    if a == "-v" then Ok(out.(verbose := true))
    else if a == "-copytextures" then Ok(out.(copyTextures := true))
    else if a == "-iOS12" || a == "-ios12" then Ok(out.(iOS12 := true))
    else if a == "-loop" || a == "--loop" then Ok(out.(loop := true))
    else if a == "-no-loop" || a == "--no-loop" then Ok(out.(noloop := true))
    else Stop(ConvertExit)
  }

  const FlagOptions: set<string> :=
    {"-v", "-copytextures", "-iOS12", "-ios12", "-loop", "--loop", "-no-loop", "--no-loop", "-h", "--help"}

  const LoopFlags: set<string> := {"-loop", "--loop"}
  const NoLoopFlags: set<string> := {"-no-loop", "--no-loop"}
  const HelpFlags: set<string> := {"-h", "--help"}

  /** A role directive (`processInputArgument`), or an unknown argument. */
  function RoleDirective(roles: seq<Role>, st: Cursor): (r: Outcome<Cursor>)
    requires st.index < |st.arguments| && |st.out.materials| >= 1
    ensures r.Ok? ==> r.value.arguments == st.arguments && st.index <= r.value.index < |st.arguments|
    ensures r.Ok? ==> |r.value.out.materials| == |st.out.materials|
                      && r.value.out == st.out.(materials := r.value.out.materials)
                      && Keeps(st.out, r.value.out)
    ensures RoleIndex(roles, st.arguments[st.index]).None? ==> r == Stop(ConvertError(UnknownArgument))
    ensures r.Ok? ==> forall j :: st.index < j <= r.value.index ==> Acceptable(st.arguments[j])
  {
    match RoleIndex(roles, st.arguments[st.index])
    case None => Stop(ConvertError(UnknownArgument))
    case Some(i) =>
      var res :- ResolveInput(st.arguments, st.index, roles[i], st.texCoordSet);
      Ok(st.(index := res.index, out := SetInput(st.out, roles[i].name, res.input)))
  }

  /** A token without a leading minus sign: the input path, then the output path. */
  function PathArgument(out: ParserOut, a: string): (r: Outcome<ParserOut>)
    ensures out.inFilePath == "" ==> r == Ok(out.(inFilePath := a))
    ensures out.inFilePath != "" && out.outFilePath == "" ==> r == Ok(out.(outFilePath := a))
    ensures out.inFilePath != "" && out.outFilePath != "" ==> r == Stop(ConvertError(UnknownArgument))
  {
    if out.inFilePath == "" then Ok(out.(inFilePath := a))
    else if out.outFilePath == "" then Ok(out.(outFilePath := a))
    else Stop(ConvertError(UnknownArgument))
  }

  /** The directive at the cursor other than `-f`, tried in the order of the
      `if` chain of `parse`.  The result's index is that of the last token consumed. */
  function Directive(roles: seq<Role>, st: Cursor): (r: Outcome<Cursor>)
    requires st.index < |st.arguments| && |st.out.materials| >= 1
    requires st.arguments[st.index] != [] && st.arguments[st.index] != "-f"
    ensures r.Ok? ==> r.value.arguments == st.arguments && st.index <= r.value.index < |st.arguments|
    ensures r.Ok? ==> Keeps(st.out, r.value.out)
    ensures r.Ok? ==> forall j :: st.index < j <= r.value.index ==> Acceptable(st.arguments[j])
  {
    var a := st.arguments[st.index];
    if a[0] == '-' then
      if a in FlagOptions then
        var out :- FlagOption(st.out, a);
        Ok(st.(out := out))
      else if a in ValuedOptions then ValuedOption(st)
      else RoleDirective(roles, st)
    else
      var out :- PathArgument(st.out, a);
      Ok(st.(out := out))
  }

  /** The file `loadArgumentsFromFile(filename)` reads: the name as given, else
      next to the input file when one is set; "" when neither exists. */
  function ArgumentFilePath(files: map<string, seq<string>>, inFilePath: string, filename: string): (p: string)
    requires filename != []
    ensures p == [] || p in files
    ensures p == [] <==> filename !in files && (inFilePath == [] || Dirname(inFilePath) + "/" + filename !in files)
    ensures filename in files ==> p == filename
  {
    if filename in files then filename
    else if inFilePath != [] && Dirname(inFilePath) + "/" + filename in files then Dirname(inFilePath) + "/" + filename
    else []
  }

  /** `-f file`: the file's tokens are appended to the token list. */
  function LoadFile(files: map<string, seq<string>>, st: Cursor): (r: Outcome<Cursor>)
    requires st.index < |st.arguments|
    ensures r.Ok? ==> && r.value.index == st.index + 1 < |st.arguments|
                      && Acceptable(st.arguments[st.index + 1])
                      && var found := ArgumentFilePath(files, st.out.inFilePath, st.arguments[st.index + 1]);
                         && found != []
                         && r.value.arguments == st.arguments + FileArguments(files[found])
                         && r.value.out == st.out.(argumentFile := found)
                         && r.value.texCoordSet == st.texCoordSet
    ensures r.Stop? && (st.index + 1 < |st.arguments| && Acceptable(st.arguments[st.index + 1])) ==>
              r.failure == ConvertError(ArgumentFileNotFound)
  {
    var p :- Parameters(st.arguments, st.index, 1);
    var found := ArgumentFilePath(files, st.out.inFilePath, p.tokens[0]);
    if found == [] then Stop(ConvertError(ArgumentFileNotFound))
    else Ok(st.(index := p.index, arguments := st.arguments + FileArguments(files[found]),
                out := st.out.(argumentFile := found)))
  }

  /** The cursor after one pass of the `while` loop of `parse`, and the
      argument files that may still be read. */
  datatype Progress = Progress(cursor: Cursor, loads: nat)

  /** One pass of the `while` loop of `parse` at the cursor: an empty token
      makes the source spin for ever, `-f` reads an argument file (one of the
      `loads` allowed), anything else is a directive. */
  function Step(roles: seq<Role>, files: map<string, seq<string>>, st: Cursor, loads: nat): (r: Outcome<Progress>)
    requires st.index < |st.arguments| && |st.out.materials| >= 1
    ensures r.Ok? ==> var c := r.value.cursor;
      && c.index <= |c.arguments| && st.arguments <= c.arguments && Keeps(st.out, c.out)
      && (r.value.loads < loads || (r.value.loads == loads && c.arguments == st.arguments && c.index > st.index))
    ensures st.arguments[st.index] == [] ==> r == Stop(Diverges)
    ensures r.Ok? ==> forall j :: st.index < j < r.value.cursor.index ==> j < |st.arguments| && Acceptable(st.arguments[j])
  {
    var a := st.arguments[st.index];
    if a == [] then Stop(Diverges)
    else if a == "-f" then
      var loaded :- LoadFile(files, st);
      if loads == 0 then Stop(LoadLimit)
      else Ok(Progress(loaded.(index := loaded.index + 1), loads - 1))
    else
      var next :- Directive(roles, st);
      Ok(Progress(next.(index := next.index + 1), loads))
  }

  /** The `while` loop of `parse` from the cursor on, reading at most `loads`
      more argument files. */
  function Run(roles: seq<Role>, files: map<string, seq<string>>, st: Cursor, loads: nat): (r: Outcome<Cursor>)
    requires st.index <= |st.arguments| && |st.out.materials| >= 1
    ensures r.Ok? ==> r.value.index == |r.value.arguments|
    ensures r.Ok? ==> st.arguments <= r.value.arguments
    ensures r.Ok? ==> Keeps(st.out, r.value.out)
    decreases loads, |st.arguments| - st.index
  {
    if st.index == |st.arguments| then Ok(st)
    else
      var next :- Step(roles, files, st, loads);
      Run(roles, files, next.cursor, next.loads)
  }

  /** The checks after the loop. */
  function Finish(out: ParserOut): (r: Outcome<ParserOut>)
    ensures r.Ok? <==> out.inFilePath != "" && !(out.loop && out.noloop)
    ensures r.Ok? ==> r.value == out
    ensures out.inFilePath == "" ==> r == Stop(ConvertError(TooFewArguments))
    ensures out.inFilePath != "" && out.loop && out.noloop ==> r == Stop(ConvertError(LoopConflict))
  {
    if out.inFilePath == "" then Stop(ConvertError(TooFewArguments))
    else if out.loop && out.noloop then Stop(ConvertError(LoopConflict))
    else Ok(out)
  }

  /** The cursor `parse` starts its loop with. */
  function InitialCursor(arguments: seq<string>): Cursor {
    Cursor(ExpandCommas(arguments), 0, "st", InitialOut())
  }

  /** `Parser().parse(arguments)`, reading at most `loads` argument files. */
  function Parse(roles: seq<Role>, files: map<string, seq<string>>, arguments: seq<string>, loads: nat): (r: Outcome<ParserOut>)
    ensures arguments == [] ==> r == Stop(ConvertExit)
    ensures r.Ok? ==> r.value.inFilePath != "" && !(r.value.loop && r.value.noloop)
    ensures r.Ok? ==> |r.value.materials| >= 1 && r.value.materials[0].name == ""
  {
    if |arguments| == 0 then Stop(ConvertExit)
    else
      var end :- Run(roles, files, InitialCursor(arguments), loads);
      Finish(end.out)
  }
}
