/**
 * Facts about `Parser.parse` (usdzconvert.py) stated on the functions of
 * Directives.dfy: what single directives do, and what whole command lines
 * lead to.
 */
module DirectiveFacts {
  import opened Outcomes
  import opened Text
  import opened Floats
  import opened Materials
  import opened ArgumentFile
  import opened Directives

  /** `-m <name>` appends a fresh material called `<name>`, resets the texture
      coordinate set to `st` and consumes exactly its one parameter. */
  lemma MaterialDirective(st: Cursor)
    requires st.index + 1 < |st.arguments| && st.arguments[st.index] == "-m"
    requires Acceptable(st.arguments[st.index + 1])
    ensures ValuedOption(st) ==
      Ok(st.(index := st.index + 1, texCoordSet := "st",
             out := st.out.(materials := st.out.materials + [NewMaterial(st.arguments[st.index + 1])])))
  {
  }

  /** `-metersPerUnit v` succeeds exactly when `v` is a positive number, and then
      records that number. */
  lemma MetersPerUnitDirective(st: Cursor)
    requires st.index + 1 < |st.arguments| && st.arguments[st.index] == "-metersPerUnit"
    requires Acceptable(st.arguments[st.index + 1])
    ensures var v := st.arguments[st.index + 1];
      && (ValuedOption(st).Ok? <==> IsFloat(v) && FloatValue(v) > 0.0)
      && (ValuedOption(st).Ok? ==> ValuedOption(st).value == st.(index := st.index + 1, out := st.out.(metersPerUnit := FloatValue(v))))
      && (ValuedOption(st).Stop? ==> ValuedOption(st).failure == ConvertError(ExpectedPositiveFloat))
  {
  }

  /** A plain token list reaches the loop as it is. */
  lemma PlainStart(args: seq<string>)
    requires forall k :: 0 <= k < |args| ==> ',' !in args[k]
    ensures InitialCursor(args) == Cursor(args, 0, "st", InitialOut())
  {
    ExpandCommasShape(args);
  }

  /** The loop goes on from the cursor one pass leaves, or stops with the pass. */
  lemma RunStep(roles: seq<Role>, files: map<string, seq<string>>, st: Cursor, loads: nat, next: Outcome<Progress>)
    requires st.index < |st.arguments| && |st.out.materials| >= 1
    requires next == Step(roles, files, st, loads)
    ensures next.Ok? ==> Run(roles, files, st, loads) == Run(roles, files, next.value.cursor, next.value.loads)
    ensures next.Stop? ==> Run(roles, files, st, loads) == Stop(next.failure)
  {
  }

  /** Help as the first token exits without an error. */
  lemma HelpExits(roles: seq<Role>, files: map<string, seq<string>>, args: seq<string>, loads: nat)
    requires args != [] && args[0] in HelpFlags
    ensures Parse(roles, files, args, loads) == Stop(ConvertExit)
  {
    var c0 := InitialCursor(args);
    assert c0.arguments == [args[0]] + ExpandCommas(args[1..]);
    StepAtFlag(roles, files, c0, loads);
  }

  /** No token without a parameter is a parameter: none of them reads as a number. */
  lemma FlagRefused(a: string)
    requires a in FlagOptions
    ensures !Acceptable(a)
  {
    if Acceptable(a) {
      FloatShape(a);
      assert false;
    }
  }

  /** One pass of the loop at an option without a parameter: help exits, every
      other one sets its field and moves on. */
  lemma StepAtFlag(roles: seq<Role>, files: map<string, seq<string>>, st: Cursor, loads: nat)
    requires st.index < |st.arguments| && |st.out.materials| >= 1
    requires st.arguments[st.index] in FlagOptions
    ensures var a := st.arguments[st.index];
      && (a in HelpFlags ==> Step(roles, files, st, loads) == Stop(ConvertExit))
      && (a !in HelpFlags ==>
            Step(roles, files, st, loads) == Ok(Progress(st.(index := st.index + 1, out := FlagOption(st.out, a).value), loads)))
  {
  }

  /** An option without a parameter anywhere in the token list from the cursor on
      is met by the loop: help stops it, and a loop flag is set in the end. */
  lemma {:induction false} RunMeetsFlag(roles: seq<Role>, files: map<string, seq<string>>, st: Cursor, loads: nat, j: nat)
    requires st.index <= j < |st.arguments| && |st.out.materials| >= 1
    requires st.arguments[j] in FlagOptions
    ensures st.arguments[j] in HelpFlags ==> Run(roles, files, st, loads).Stop?
    ensures Run(roles, files, st, loads).Ok? && st.arguments[j] in LoopFlags ==> Run(roles, files, st, loads).value.out.loop
    ensures Run(roles, files, st, loads).Ok? && st.arguments[j] in NoLoopFlags ==> Run(roles, files, st, loads).value.out.noloop
    decreases loads, |st.arguments| - st.index
  {
    var next := Step(roles, files, st, loads);
    RunStep(roles, files, st, loads, next);
    if next.Ok? {
      var c := next.value.cursor;
      if j == st.index {
        StepAtFlag(roles, files, st, loads);
      } else {
        FlagRefused(st.arguments[j]);
        assert c.index <= j;
        assert c.arguments[j] == st.arguments[j];
        RunMeetsFlag(roles, files, c, next.value.loads, j);
      }
    }
  }

  /** Help anywhere on the command line stops `parse`. */
  lemma HelpAnywhere(roles: seq<Role>, files: map<string, seq<string>>, args: seq<string>, loads: nat, i: nat)
    requires i < |args| && args[i] in HelpFlags
    ensures Parse(roles, files, args, loads).Stop?
  {
    ExpandCommasKeeps(args, i);
    var c0 := InitialCursor(args);
    var k :| 0 <= k < |c0.arguments| && c0.arguments[k] == args[i];
    RunMeetsFlag(roles, files, c0, loads, k);
  }

  /** A loop flag and a no-loop flag anywhere on the command line never parse:
      once the loop ends with an input path, the error is the conflict. */
  lemma LoopFlagsClash(roles: seq<Role>, files: map<string, seq<string>>, args: seq<string>, loads: nat, i: nat, j: nat)
    requires i < |args| && j < |args| && args[i] in LoopFlags && args[j] in NoLoopFlags
    ensures !Parse(roles, files, args, loads).Ok?
    ensures var run := Run(roles, files, InitialCursor(args), loads);
      run.Ok? && run.value.out.inFilePath != "" ==> Parse(roles, files, args, loads) == Stop(ConvertError(LoopConflict))
  {
    ExpandCommasKeeps(args, i);
    ExpandCommasKeeps(args, j);
    var c0 := InitialCursor(args);
    var k :| 0 <= k < |c0.arguments| && c0.arguments[k] == args[i];
    var l :| 0 <= l < |c0.arguments| && c0.arguments[l] == args[j];
    RunMeetsFlag(roles, files, c0, loads, k);
    RunMeetsFlag(roles, files, c0, loads, l);
  }

  /** A third token that is not a directive is a usage error. */
  lemma ThirdPathRefused(roles: seq<Role>, files: map<string, seq<string>>, loads: nat)
    ensures Parse(roles, files, ["a.obj", "b.usdz", "c"], loads) == Stop(ConvertError(UnknownArgument))
  {
    var args := ["a.obj", "b.usdz", "c"];
    PlainStart(args);
    var c0 := InitialCursor(args);
    var c1 := c0.(index := 1, out := c0.out.(inFilePath := "a.obj"));
    var c2 := c1.(index := 2, out := c1.out.(outFilePath := "b.usdz"));
    RunStep(roles, files, c0, loads, Ok(Progress(c1, loads)));
    RunStep(roles, files, c1, loads, Ok(Progress(c2, loads)));
    RunStep(roles, files, c2, loads, Stop(ConvertError(UnknownArgument)));
  }

  /** A path token while no input path is set becomes the input path. */
  lemma InputPathStep(roles: seq<Role>, files: map<string, seq<string>>, st: Cursor, loads: nat)
    requires st.index < |st.arguments| && |st.out.materials| >= 1
    requires st.arguments[st.index] != [] && st.arguments[st.index][0] != '-' && st.out.inFilePath == ""
    ensures Run(roles, files, st, loads) ==
      Run(roles, files, st.(index := st.index + 1, out := st.out.(inFilePath := st.arguments[st.index])), loads)
  {
    var next := st.(index := st.index + 1, out := st.out.(inFilePath := st.arguments[st.index]));
    RunStep(roles, files, st, loads, Ok(Progress(next, loads)));
  }

  /** `-loop` and `-no-loop` each set their flag and nothing else. */
  lemma LoopFlagStep(roles: seq<Role>, files: map<string, seq<string>>, st: Cursor, loads: nat)
    requires st.index < |st.arguments| && |st.out.materials| >= 1
    requires st.arguments[st.index] == "-loop" || st.arguments[st.index] == "-no-loop"
    ensures Run(roles, files, st, loads) ==
      Run(roles, files, st.(index := st.index + 1,
                            out := if st.arguments[st.index] == "-loop" then st.out.(loop := true)
                                   else st.out.(noloop := true)), loads)
  {
    var out := if st.arguments[st.index] == "-loop" then st.out.(loop := true) else st.out.(noloop := true);
    assert FlagOption(st.out, st.arguments[st.index]) == Ok(out);
    RunStep(roles, files, st, loads, Ok(Progress(st.(index := st.index + 1, out := out), loads)));
  }

  /** `-loop` and `-no-loop` conflict, `-loop` first ... */
  lemma LoopFlagsConflict(roles: seq<Role>, files: map<string, seq<string>>, loads: nat)
    ensures Parse(roles, files, ["a.obj", "-loop", "-no-loop"], loads) == Stop(ConvertError(LoopConflict))
  {
    var args := ["a.obj", "-loop", "-no-loop"];
    PlainStart(args);
    var c0 := InitialCursor(args);
    var c1 := c0.(index := 1, out := c0.out.(inFilePath := "a.obj"));
    var c2 := c1.(index := 2, out := c1.out.(loop := true));
    InputPathStep(roles, files, c0, loads);
    LoopFlagStep(roles, files, c1, loads);
    LoopFlagStep(roles, files, c2, loads);
  }

  /** ... and `-no-loop` first. */
  lemma NoLoopFlagsConflict(roles: seq<Role>, files: map<string, seq<string>>, loads: nat)
    ensures Parse(roles, files, ["-no-loop", "a.obj", "-loop"], loads) == Stop(ConvertError(LoopConflict))
  {
    var args := ["-no-loop", "a.obj", "-loop"];
    PlainStart(args);
    var d0 := InitialCursor(args);
    var d1 := d0.(index := 1, out := d0.out.(noloop := true));
    var d2 := d1.(index := 2, out := d1.out.(inFilePath := "a.obj"));
    LoopFlagStep(roles, files, d0, loads);
    InputPathStep(roles, files, d1, loads);
    LoopFlagStep(roles, files, d2, loads);
  }

  /** An empty token makes `parse` spin for ever. */
  lemma EmptyTokenDiverges(roles: seq<Role>, files: map<string, seq<string>>, loads: nat)
    ensures Parse(roles, files, ["a.obj", ""], loads) == Stop(Diverges)
  {
    var args := ["a.obj", ""];
    PlainStart(args);
    var c0 := InitialCursor(args);
    var c1 := c0.(index := 1, out := c0.out.(inFilePath := "a.obj"));
    RunStep(roles, files, c0, loads, Ok(Progress(c1, loads)));
    RunStep(roles, files, c1, loads, Stop(Diverges));
  }

  /** A role followed by N floats takes exactly those N tokens as its constant, on
      the last material, and consumes nothing more. */
  lemma ConstantDirective(roles: seq<Role>, st: Cursor, i: nat)
    requires st.index < |st.arguments| && |st.out.materials| >= 1
    requires RoleIndex(roles, st.arguments[st.index]) == Some(i)
    requires NextAreFloats(st.arguments, st.index, roles[i].ComponentCount())
    ensures var n := roles[i].ComponentCount();
      RoleDirective(roles, st) ==
        Ok(st.(index := st.index + n,
               out := SetInput(st.out, roles[i].name, Constant(st.arguments[st.index + 1..st.index + n + 1]))))
  {
    var n := roles[i].ComponentCount();
    var input := Constant(st.arguments[st.index + 1..st.index + n + 1]);
    var res := ResolveInput(st.arguments, st.index, roles[i], st.texCoordSet);
    assert res == Ok(Resolved(input, st.index + n));
    assert RoleDirective(roles, st) == Ok(st.(index := res.value.index, out := SetInput(st.out, roles[i].name, res.value.input)));
  }
}
