/**
 * `Parser` (usdzconvert.py): a token list, a cursor into it, the current
 * texture coordinate set and the `ParserOut` record, updated in place by
 * `parse` and its helpers.  Each method is proved to do what the
 * functions of module Directives say.  An exception raised by the source
 * is a `Stop` result here, which callers pass on with `:-`.
 */
module DirectiveParser {
  import opened Outcomes
  import opened Text
  import opened Floats
  import opened Materials
  import opened ArgumentFile
  import opened Directives

  class Parser {
    /** `usdUtils.Input.names` and `usdUtils.Input.channels` */
    const roles: seq<Role>
    var out: ParserOut
    var arguments: seq<string>
    var argumentIndex: nat
    var texCoordSet: string

    /** The parser's state as the cursor the functions of Directives read. */
    function State(): Cursor
      reads this
    {
      Cursor(arguments, argumentIndex, texCoordSet, out)
    }

    constructor(roles: seq<Role>)
      ensures this.roles == roles
      ensures State() == Cursor([], 0, "st", InitialOut())
    {
      this.roles := roles;
      out := InitialOut();
      arguments := [];
      argumentIndex := 0;
      texCoordSet := "st";
    }

    /** `getParameters(count, argument)`: the `count` tokens after the cursor,
        which moves onto the last of them.  (For `count == 1` the source
        returns the token itself; here it is the one-token list.) */
    method GetParameters(count: nat) returns (r: Outcome<seq<string>>)
      modifies this
      ensures var spec := Parameters(old(arguments), old(argumentIndex), count);
        && (r.Ok? <==> spec.Ok?)
        && (r.Ok? ==> r.value == spec.value.tokens && State() == old(State()).(index := spec.value.index))
        && (r.Stop? ==> r.failure == spec.failure)
    {
      if argumentIndex + count >= |arguments| {
        return Stop(ConvertError(NeedsMoreParameters));
      }
      argumentIndex := argumentIndex + count;
      var parameters := arguments[argumentIndex - count + 1..argumentIndex + 1];
      r := CheckParameters(parameters);
    }

    /** The loop of `getParameters` over the parameters taken: the first one
        that is empty or starts with a minus sign without being a number
        raises. */
    static method CheckParameters(parameters: seq<string>) returns (r: Outcome<seq<string>>)
      ensures var k := FirstRefused(parameters);
        r == if k < |parameters| then Stop(ParameterFailure(parameters[k])) else Ok(parameters)
    {
      var i := 0;
      while i < |parameters|
        invariant 0 <= i <= |parameters|
        invariant forall j :: 0 <= j < i ==> Acceptable(parameters[j])
      {
        var parameter := parameters[i];
        if parameter == [] {
          FirstRefusedAt(parameters, i);
          return Stop(Uncaught);
        }
        if parameter[0] == '-' && !IsFloat(parameter) {
          FirstRefusedAt(parameters, i);
          return Stop(ConvertError(UnexpectedParameter));
        }
        i := i + 1;
      }
      return Ok(parameters);
    }

    /** `isNextArgumentsAreFloats(count)` */
    method IsNextArgumentsAreFloats(count: nat) returns (b: bool)
      ensures b == NextAreFloats(arguments, argumentIndex, count)
    {
      if argumentIndex + count >= |arguments| {
        return false;
      }
      var i := 0;
      while i < count
        invariant 0 <= i <= count
        invariant forall j :: argumentIndex < j <= argumentIndex + i ==> IsFloat(arguments[j])
      {
        var argument := arguments[argumentIndex + 1 + i];
        if !IsFloat(argument) {
          return false;
        }
        i := i + 1;
      }
      return true;
    }

    /** The constant branch of `processInputArgument`: all N tokens are floats. */
    method SetConstant(role: Role)
      requires NextAreFloats(arguments, argumentIndex, role.ComponentCount()) && |out.materials| >= 1
      modifies this
      ensures var n := role.ComponentCount();
        State() == old(State()).(index := old(argumentIndex) + n,
                                 out := SetInput(old(out), role.name,
                                          Constant(old(arguments)[old(argumentIndex) + 1..old(argumentIndex) + n + 1])))
    {
      FloatsAccepted(arguments, argumentIndex, role.ComponentCount());
      var values := GetParameters(role.ComponentCount());
      out := SetInput(out, role.name, Constant(values.value));
    }

    /** The texture branch of `processInputArgument`. */
    method SetTextureMap(role: Role) returns (r: Outcome<bool>)
      requires |out.materials| >= 1
      modifies this
      ensures var spec := ResolveMap(old(arguments), old(argumentIndex), role, old(texCoordSet));
        && (r.Ok? <==> spec.Ok?)
        && (r.Ok? ==> r.value && State() == old(State()).(index := spec.value.index,
                                                          out := SetInput(old(out), role.name, spec.value.input)))
        && (r.Stop? ==> r.failure == spec.failure)
    {
      var channelsCount := role.ComponentCount();
      var source :- ReadSource();
      var channels := source.selector;
      if (channelsCount != 1 && channels != "") || channels == "rgb" {
        channels := "";  // the source warns about an invalid channel
      }
      var fallback := ReadFallbackValues(channelsCount);
      if channels == "" {
        channels := role.defaultChannels;
      }
      out := SetInput(out, role.name, TextureMap(channels, source.file, fallback, texCoordSet));
      return Ok(true);
    }

    /** The file parameter of a texture map, after an optional channel selector. */
    method ReadSource() returns (r: Outcome<MapSource>)
      modifies this
      ensures var spec := ReadMapSource(old(arguments), old(argumentIndex));
        && (r.Ok? <==> spec.Ok?)
        && (r.Ok? ==> r.value == spec.value && State() == old(State()).(index := spec.value.index))
        && (r.Stop? ==> r.failure == spec.failure)
    {
      var parameter :- GetParameters(1);
      if IsSelector(parameter[0]) {
        var file :- GetParameters(1);
        return Ok(MapSource(parameter[0], file[0], argumentIndex));
      }
      return Ok(MapSource("", parameter[0], argumentIndex));
    }

    /** The optional fallback of a texture map: `n` floats, when they follow. */
    method ReadFallbackValues(n: nat) returns (fallback: Option<seq<string>>)
      modifies this
      ensures (fallback, argumentIndex) == ReadFallback(old(arguments), old(argumentIndex), n)
      ensures arguments == old(arguments) && texCoordSet == old(texCoordSet) && out == old(out)
    {
      fallback := None;
      var more := IsNextArgumentsAreFloats(n);
      if more {
        FloatsAccepted(arguments, argumentIndex, n);
        var values := GetParameters(n);
        fallback := Some(values.value);
      }
    }

    /** `processInputArgument(argument)`: `Ok(false)` is the source's `Error`
        return for a token that names no role. */
    method ProcessInputArgument(argument: string) returns (r: Outcome<bool>)
      requires argumentIndex < |arguments| && argument == arguments[argumentIndex]
      requires |out.materials| >= 1
      modifies this
      ensures r == Ok(false) <==> RoleIndex(roles, argument).None?
      ensures r == Ok(false) ==> State() == old(State())
      ensures RoleIndex(roles, argument).Some? ==> Agrees(r, RoleDirective(roles, old(State())))
    {
      var inputIdx := FindRole(argument);
      if inputIdx.None? {
        return Ok(false);
      }
      r := ResolveRole(roles[inputIdx.value]);
    }

    /** `processInputArgument` once the role is known: a constant when the next
        N tokens are floats, else a texture map. */
    method ResolveRole(role: Role) returns (r: Outcome<bool>)
      requires |out.materials| >= 1
      modifies this
      ensures r != Ok(false)
      ensures Agrees(r, var res :- ResolveInput(old(arguments), old(argumentIndex), role, old(texCoordSet));
                        Ok(old(State()).(index := res.index, out := SetInput(old(out), role.name, res.input))))
    {
      var floats := IsNextArgumentsAreFloats(role.ComponentCount());
      if floats {
        SetConstant(role);
        return Ok(true);
      }
      r := SetTextureMap(role);
    }

    /** The role loop of `processInputArgument`: the first role whose
        name, after a minus sign, is the token. */
    method FindRole(argument: string) returns (inputIdx: Option<nat>)
      ensures inputIdx == RoleIndex(roles, argument)
    {
      var i := 0;
      while i < |roles|
        invariant 0 <= i <= |roles|
        invariant forall j :: 0 <= j < i ==> "-" + roles[j].name != argument
      {
        if "-" + roles[i].name == argument {
          return Some(i);
        }
        i := i + 1;
      }
      return None;
    }

    /** `loadArgumentsFromFile(filename)`, with `files` giving the lines of each
        existing file. */
    method LoadArgumentsFromFile(filename: string, files: map<string, seq<string>>) returns (r: Outcome<bool>)
      requires filename != []
      modifies this
      ensures var found := ArgumentFilePath(files, old(out.inFilePath), filename);
        && (r.Ok? <==> found != [])
        && (r.Ok? ==> arguments == old(arguments) + FileArguments(files[found])
                      && out == old(out).(argumentFile := found))
        && (r.Stop? ==> r.failure == ConvertError(ArgumentFileNotFound))
      ensures argumentIndex == old(argumentIndex) && texCoordSet == old(texCoordSet)
    {
      var name := filename;
      out := out.(argumentFile := "");
      if name in files {
        out := out.(argumentFile := name);
      } else if out.inFilePath != "" {
        name := Dirname(out.inFilePath) + "/" + name;
        if name in files {
          out := out.(argumentFile := name);
        }
      }
      if out.argumentFile == "" {
        return Stop(ConvertError(ArgumentFileNotFound));
      }
      var tokens := FileTokens(files[out.argumentFile]);
      arguments := arguments + tokens;
      return Ok(true);
    }

    /** The line loop of `loadArgumentsFromFile`: the tokens it appends, in order. */
    static method FileTokens(lines: seq<string>) returns (tokens: seq<string>)
      ensures tokens == FileArguments(lines)
    {
      tokens := [];
      var n := 0;
      while n < |lines|
        invariant 0 <= n <= |lines|
        invariant tokens == LinesArguments(lines, n)
      {
        var lineTokens := LineTokensAt(lines, n);
        tokens := tokens + lineTokens;
        n := n + 1;
      }
    }

    static method LineTokensAt(lines: seq<string>, n: nat) returns (tokens: seq<string>)
      requires n < |lines|
      ensures LinesArguments(lines, n) + tokens == LinesArguments(lines, n + 1)
    {
      tokens := LineTokens(lines[n]);
    }

    /** One iteration of the line loop of `loadArgumentsFromFile`. */
    static method LineTokens(text: string) returns (tokens: seq<string>)
      ensures tokens == LineArguments(text)
    {
      var line := Strip(text);
      if line == "" {
        return [];
      }
      line := PrepareText(line);
      var pieces := Split(line, ' ');
      tokens := KeepPieces(pieces);
    }

    /** The separator and quote passes over a stripped line. */
    static method PrepareText(text: string) returns (line: string)
      ensures line == PrepareLine(text)
    {
      line := Replace(text, '\t', ' ');
      line := Replace(line, ',', ' ');
      var quotes := Split(line, '"');
      if |quotes| > 1 {
        quotes := MarkQuotes(quotes);
        line := Concat(quotes);
      }
    }

    /** The token loop of `loadArgumentsFromFile`: every piece that is not
        blank once unmarked is kept. */
    static method KeepPieces(pieces: seq<string>) returns (kept: seq<string>)
      ensures kept == KeepArguments(pieces)
    {
      kept := [];
      var m := 0;
      while m < |pieces|
        invariant 0 <= m <= |pieces|
        invariant kept + KeepArguments(pieces[m..]) == KeepArguments(pieces)
      {
        KeepArgumentsFrom(pieces, m);
        var argument := KeepPiece(pieces[m]);
        AppendAssociative(kept, argument, KeepArguments(pieces[m + 1..]));
        kept := kept + argument;
        m := m + 1;
      }
    }

    /** One piece of a line: unmarked, and kept when not blank. */
    static method KeepPiece(piece: string) returns (argument: seq<string>)
      ensures argument == Kept(piece)
    {
      var a := Unmark(piece);
      if a != "" {
        return [a];
      }
      return [];
    }

    /** The quote loop of `loadArgumentsFromFile`: every odd piece has its spaces marked. */
    static method MarkQuotes(quotes: seq<string>) returns (marked: seq<string>)
      ensures marked == MarkQuoted(quotes)
    {
      marked := quotes;
      var i := 1;
      while i < |marked|
        invariant |marked| == |quotes|
        invariant 1 <= i && i % 2 == 1
        invariant forall j :: 0 <= j < |quotes| ==>
                    marked[j] == (if j % 2 == 1 && j < i then Replace(quotes[j], ' ', '\t') else quotes[j])
      {
        marked := marked[i := Replace(marked[i], ' ', '\t')];
        i := i + 2;
      }
    }

    /** `r` is what the source does when `spec` is what the model says: the
        same exception, or success with the parser in the state `spec` gives. */
    predicate Agrees(r: Outcome<bool>, spec: Outcome<Cursor>)
      reads this
    {
      match spec
      case Ok(c) => r.Ok? && State() == c
      case Stop(f) => r == Stop(f)
    }

    /** The options of the `if` chain of `parse` that take no parameter. */
    method SetFlag(argument: string) returns (r: Outcome<bool>)
      requires argument in FlagOptions
      modifies this
      ensures Agrees(r, var o :- FlagOption(old(out), argument); Ok(old(State()).(out := o)))
    {
      if argument == "-v" {
        out := out.(verbose := true);
      } else if argument == "-copytextures" {
        out := out.(copyTextures := true);
      } else if argument == "-iOS12" || argument == "-ios12" {
        out := out.(iOS12 := true);
      } else if argument == "-loop" || argument == "--loop" {
        out := out.(loop := true);
      } else if argument == "-no-loop" || argument == "--no-loop" {
        out := out.(noloop := true);
      } else {
        return Stop(ConvertExit);
      }
      return Ok(true);
    }

    /** The options of the `if` chain of `parse` that take one parameter. */
    method SetValue(argument: string) returns (r: Outcome<bool>)
      requires argumentIndex < |arguments| && argument == arguments[argumentIndex]
      requires argument in ValuedOptions
      modifies this
      ensures Agrees(r, ValuedOption(old(State())))
    {
      var p :- GetParameters(1);
      if argument == "-copyright" {
        out := out.(copyright := p[0]);
      } else if argument == "-url" {
        out := out.(url := p[0]);
      } else if argument == "-metersPerUnit" {
        var metersPerUnit := p[0];
        if !IsFloat(metersPerUnit) || FloatValue(metersPerUnit) <= 0.0 {
          return Stop(ConvertError(ExpectedPositiveFloat));
        }
        out := out.(metersPerUnit := FloatValue(metersPerUnit));
      } else if argument == "-m" {
        out := out.(materials := out.materials + [NewMaterial(p[0])]);
        texCoordSet := "st";
      } else {
        texCoordSet := p[0];
      }
      return Ok(true);
    }

    /** A token without a leading minus sign. */
    method SetPath(argument: string) returns (r: Outcome<bool>)
      modifies this
      ensures Agrees(r, var o :- PathArgument(old(out), argument); Ok(old(State()).(out := o)))
    {
      if out.inFilePath == "" {
        out := out.(inFilePath := argument);
      } else if out.outFilePath == "" {
        out := out.(outFilePath := argument);
      } else {
        return Stop(ConvertError(UnknownArgument));
      }
      return Ok(true);
    }

    /** The body of the `while` loop of `parse` for a token other than `-f`:
        the `if` chain over the options, then the positional paths. */
    method Dispatch(argument: string) returns (r: Outcome<bool>)
      requires argumentIndex < |arguments| && argument == arguments[argumentIndex]
      requires argument != [] && argument != "-f" && |out.materials| >= 1
      modifies this
      ensures Agrees(r, Directive(roles, old(State())))
    {
      if argument[0] == '-' {
        if argument in FlagOptions {
          r := SetFlag(argument);
        } else if argument in ValuedOptions {
          r := SetValue(argument);
        } else {
          var found :- ProcessInputArgument(argument);
          if !found {
            return Stop(ConvertError(UnknownArgument));
          }
          return Ok(true);
        }
      } else {
        r := SetPath(argument);
      }
    }

    /** One pass of the `while` loop of `parse`, with `loads` argument files
        still allowed; the result is the number allowed after it. */
    method Advance(files: map<string, seq<string>>, loads: nat) returns (r: Outcome<nat>)
      requires argumentIndex < |arguments| && |out.materials| >= 1
      modifies this
      ensures var spec := Step(roles, files, old(State()), loads);
        && (r.Ok? <==> spec.Ok?)
        && (r.Ok? ==> r.value == spec.value.loads && State() == spec.value.cursor)
        && (r.Stop? ==> r.failure == spec.failure)
    {
      var argument := arguments[argumentIndex];
      if argument == [] {
        // `continue` without advancing: the source spins here for ever
        return Stop(Diverges);
      }
      if argument == "-f" {
        var p :- GetParameters(1);
        var loaded :- LoadArgumentsFromFile(p[0], files);
        if loads == 0 {
          return Stop(LoadLimit);
        }
        argumentIndex := argumentIndex + 1;
        return Ok(loads - 1);
      }
      var done :- Dispatch(argument);
      argumentIndex := argumentIndex + 1;
      return Ok(loads);
    }

    /** The comma expansion at the start of `parse`. */
    method ExpandArguments(argumentList: seq<string>)
      modifies this
      ensures arguments == ExpandCommas(argumentList)
      ensures out == old(out) && argumentIndex == old(argumentIndex) && texCoordSet == old(texCoordSet)
    {
      ghost var o, i, t := out, argumentIndex, texCoordSet;
      var expanded := [];
      var k := 0;
      while k < |argumentList|
        invariant 0 <= k <= |argumentList|
        invariant expanded + ExpandCommas(argumentList[k..]) == ExpandCommas(argumentList)
        invariant out == o && argumentIndex == i && texCoordSet == t
      {
        ExpandCommasFrom(argumentList, k);
        var tokens := ExpandedToken(argumentList[k]);
        AppendAssociative(expanded, tokens, ExpandCommas(argumentList[k + 1..]));
        expanded := expanded + tokens;
        k := k + 1;
      }
      arguments := expanded;
    }

    /** What one command-line token adds to the token list. */
    static method ExpandedToken(arg: string) returns (tokens: seq<string>)
      ensures tokens == ExpandToken(arg)
    {
      if ',' in arg {
        var newargs := NonEmpty(Split(Replace(arg, ',', ' '), ' '));
        tokens := [];
        var m := 0;
        while m < |newargs|
          invariant 0 <= m <= |newargs|
          invariant tokens == newargs[..m]
        {
          tokens := tokens + [newargs[m]];
          assert newargs[..m + 1] == newargs[..m] + [newargs[m]];
          m := m + 1;
        }
        assert newargs[..m] == newargs;
      } else {
        tokens := [arg];
      }
    }

    /** `parse(arguments)` on a fresh parser, reading at most `loads` argument files. */
    method Parse(argumentList: seq<string>, files: map<string, seq<string>>, loads: nat) returns (r: Outcome<ParserOut>)
      requires argumentIndex == 0 && texCoordSet == "st" && out == InitialOut()
      modifies this
      ensures r == Directives.Parse(roles, files, argumentList, loads)
    {
      ExpandArguments(argumentList);
      if |argumentList| == 0 {
        return Stop(ConvertExit);
      }
      var loadsLeft := loads;
      while argumentIndex < |arguments|
        invariant argumentIndex <= |arguments| && |out.materials| >= 1
        invariant Run(roles, files, State(), loadsLeft) == Run(roles, files, InitialCursor(argumentList), loads)
        decreases loadsLeft, |arguments| - argumentIndex
      {
        loadsLeft :- Advance(files, loadsLeft);
      }
      if out.inFilePath == "" {
        return Stop(ConvertError(TooFewArguments));
      }
      if out.loop && out.noloop {
        return Stop(ConvertError(LoopConflict));
      }
      return Ok(out);
    }
  }
}
