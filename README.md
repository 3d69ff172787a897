# usdzconvert, modelled in Dafny

`usdzconvert` converts 3D files (OBJ, glTF, FBX, Alembic, USD) into USD and
USDZ assets. This project models the parts of its script
`plug-ins/USDzConvert/scripts/usdzconvert.py` that decide things, and proves
properties about them:

- **the command-line parser**, the class `Parser`:
  - tokens containing commas are expanded;
  - argument files named with `-f` are tokenized, with a quoted span kept as one token;
  - directive parameters are consumed with their bounds and leading-minus checks;
  - a material-role directive becomes either a constant of N numbers or a texture map, with a channel selector and an optional fallback;
  - flags, options and the input and output paths fill in `ParserOut`;
  - the final checks reject a missing input and `-loop` together with `-no-loop`;
- **`isFloat`**, as a decimal-literal grammar with the exact value of an accepted literal;
- **the material indexes of `USDParameters`**, kept by `createMaterial`, `getAllUsdMaterials` and `addDefaultMaterialToGeometries`, over a tree of prims, together with the replacement of a material named on the command line;
- **material lookup**: `findUsdMaterial` and `findUsdMaterialRecursively`;
- **texture relocation**: `copyMaterialTextures` and `copyTexturesFromStageToFolder`, over a set of existing files, with copies recorded as a log;
- **`process`**, up to the point where the stage is opened:
  - where the input file is found;
  - the destination path and its extension;
  - the temporary path;
  - the importer chosen by extension;
  - the loop metadata;
- **`tryProcess`**, which maps the two exception kinds to exit codes;
- **`convert`**, which builds an argument list from files and a role-to-suffix dictionary.

The script is modelled as it runs under Python 2.7, the runtime its
`dict.iteritems()` calls need: strings are byte strings, `str.strip()` removes
the six ASCII whitespace characters, and `str.lower()` lowers ASCII letters.

Module layout:

| module | contents |
|---|---|
| `Outcomes` | the exceptions the script raises, and `Outcome`/`Option` |
| `Text` | the Python string and `os.path` operations used |
| `Floats` | the `isFloat` automaton |
| `Materials` | `usdUtils.Material`, `Map` and the role table |
| `ArgumentFile` | tokenizing argument-file lines and comma expansion, as functions |
| `Directives` | the parser's meaning as functions over a cursor |
| `DirectiveParser` | the class `Parser`, whose methods are proved to agree with `Directives` |
| `DirectiveFacts` | consequences for particular command lines |
| `Stage` | prims, pre-order and material lookup |
| `Indexing` | the `USDParameters` indexes as values, and their invariant |
| `Binder` | the class `UsdParameters`, whose recursive walks are proved to agree with `Indexing` |
| `Textures` | texture copying |
| `Conversion` | `process` set-up, `tryProcess` and `convert` |

Where the code and its documentation differ, the model follows the code:

- In an argument file, commas are replaced before quotes are handled. A comma inside a quoted file name therefore becomes a space.
- Replacing a material removes its path from `usdMaterials` only. The entry in `usdMaterialsByName` remains.

All paths below are under `plug-ins/USDzConvert/scripts/`.

## Model

| member | source | states |
|---|---|---|
| Text.Strip | plug-ins/USDzConvert/scripts/usdzconvert.py:218 | the stripped line is empty exactly when the line is all whitespace, and otherwise starts and ends with a non-space |
| Text.StripParts | plug-ins/USDzConvert/scripts/usdzconvert.py:218 | `strip` removes exactly the whitespace at both ends: the result stands in the line after an all-whitespace prefix and before an all-whitespace suffix |
| Text.ReplaceRoundTrip | plug-ins/USDzConvert/scripts/usdzconvert.py:222-233 | marking spaces with a character the text does not hold and turning the markers back gives the text again |
| Text.ReplaceRemoves | plug-ins/USDzConvert/scripts/usdzconvert.py:222-223 | after replacing a character by a different one, none of it is left |
| Text.ReplaceAbsent | plug-ins/USDzConvert/scripts/usdzconvert.py:222-223 | replacing a character the text does not hold changes nothing |
| Text.ReplaceJoin | plug-ins/USDzConvert/scripts/usdzconvert.py:222-231 | replacing a separator the pieces do not hold swaps the separator of their join |
| Text.Split | plug-ins/USDzConvert/scripts/usdzconvert.py:225 | `str.split(c)`: at least one piece, no piece contains the separator, and the one piece is the whole string exactly when the separator is absent |
| Text.SplitJoin | plug-ins/USDzConvert/scripts/usdzconvert.py:225-231 | splitting the join of pieces free of the separator gives back the pieces |
| Text.Basename | plug-ins/USDzConvert/scripts/usdzconvert.py:476 | `os.path.basename`: a slash-free suffix of the path, the whole path when it has no slash |
| Text.BasenameSplit | plug-ins/USDzConvert/scripts/usdzconvert.py:433-434 | the last piece of `split('/')` is the base name |
| Text.Dirname | plug-ins/USDzConvert/scripts/usdzconvert.py:539-540 | `os.path.dirname`: a prefix of the path, empty exactly when the path has no slash |
| Text.Splitext | plug-ins/USDzConvert/scripts/usdzconvert.py:609 | `os.path.splitext`: stem and extension make up the path; the extension is empty or a dot-led, slash-free suffix |
| Text.SplitextExtension | plug-ins/USDzConvert/scripts/usdzconvert.py:609 | a non-empty extension runs from the last dot of the last component, and the stem is not all dots there |
| Text.SplitextNone | plug-ins/USDzConvert/scripts/usdzconvert.py:609 | no extension is split off exactly when every dot of the last component stands in a leading run of dots |
| Text.LowerNoCapitals | plug-ins/USDzConvert/scripts/usdzconvert.py:614 | the lowered text holds no ASCII capital |
| Text.LowerIdempotent | plug-ins/USDzConvert/scripts/usdzconvert.py:614 | lowering twice is lowering once, so extensions compare without regard to case |
| Floats.Scan | plug-ins/USDzConvert/scripts/usdzconvert.py:392-397 | an accepted token is read into a literal whose whole, fraction and exponent parts are all digits, with at least one mantissa digit |
| Floats.LiteralAccepted | plug-ins/USDzConvert/scripts/usdzconvert.py:392-397 | every decimal literal (an optional sign, digits with an optional point and fraction, some digit in all, an optional `e`/`E` exponent with an optional sign and at least one digit) is accepted and read into exactly those parts |
| Floats.FloatShape | plug-ins/USDzConvert/scripts/usdzconvert.py:392-397 | an accepted token is non-empty; it is negative exactly when it starts with a minus, which is then followed by a digit or the point |
| Floats.SignKept | plug-ins/USDzConvert/scripts/usdzconvert.py:392-397 | the sign read at the start is never changed by the rest of the token |
| Floats.ValuePositive | plug-ins/USDzConvert/scripts/usdzconvert.py:348 | a literal denotes a positive number exactly when it has no minus sign and some non-zero digit |
| Floats.PositiveFloat | plug-ins/USDzConvert/scripts/usdzconvert.py:348 | the exact value of an accepted `v` is positive exactly when `v` has no leading minus and a non-zero digit |
| Materials.NewMaterial | plug-ins/USDzConvert/scripts/usdzconvert.py:353 | a new material has the given name, no explicit path and no inputs |
| ArgumentFile.MarkQuotedRestores | plug-ins/USDzConvert/scripts/usdzconvert.py:225-228 | the text between each pair of quotes is left without spaces and the text outside quotes unchanged, and restoring the markers gives every piece back |
| ArgumentFile.PrepareLineChars | plug-ins/USDzConvert/scripts/usdzconvert.py:222-229 | after the separator and quote passes a line holds no quote character and no comma |
| ArgumentFile.Unmark | plug-ins/USDzConvert/scripts/usdzconvert.py:233 | an unmarked piece holds no marker, and is empty exactly when the piece is all whitespace |
| ArgumentFile.UnmarkMarked | plug-ins/USDzConvert/scripts/usdzconvert.py:233 | a marked token with non-blank ends is unmarked back into the token |
| ArgumentFile.KeepArguments | plug-ins/USDzConvert/scripts/usdzconvert.py:232-235 | every token appended is non-empty and free of markers |
| ArgumentFile.KeepArgumentsAppend | plug-ins/USDzConvert/scripts/usdzconvert.py:231-235 | the pieces of a line are kept one by one, independently |
| ArgumentFile.NonEmpty | plug-ins/USDzConvert/scripts/usdzconvert.py:317 | what the filter keeps are non-empty pieces of its input |
| ArgumentFile.NonEmptyAppend | plug-ins/USDzConvert/scripts/usdzconvert.py:317 | the filter works piece by piece |
| ArgumentFile.NonEmptySingle | plug-ins/USDzConvert/scripts/usdzconvert.py:317 | one piece is kept exactly when it is not empty |
| ArgumentFile.NonEmptyKeeps | plug-ins/USDzConvert/scripts/usdzconvert.py:317 | non-empty pieces are all kept, in order |
| ArgumentFile.LineArgumentsShape | plug-ins/USDzConvert/scripts/usdzconvert.py:217-235 | a blank line yields no tokens; every token is non-empty and has no tab, comma or quote: tabs and commas separate |
| ArgumentFile.QuotedArgument | plug-ins/USDzConvert/scripts/usdzconvert.py:222-235 | a double-quoted span is one token, with its inner spaces kept and its quotes dropped |
| ArgumentFile.PlainLineRoundTrip | plug-ins/USDzConvert/scripts/usdzconvert.py:217-235 | plain tokens written on one line separated by spaces are read back exactly |
| ArgumentFile.SeparatedLineRoundTrip | plug-ins/USDzConvert/scripts/usdzconvert.py:217-235 | plain tokens written on one line with a space, tab or comma between each two are read back exactly |
| ArgumentFile.QuotedAmongPlain | plug-ins/USDzConvert/scripts/usdzconvert.py:222-235 | a double-quoted span among plain tokens becomes one token with its inner spaces kept, and the plain tokens around it are read back as they are |
| ArgumentFile.ExpandCommasShape | plug-ins/USDzConvert/scripts/usdzconvert.py:314-321 | after expansion no token contains a comma, and a comma-free list is left as it is |
| ArgumentFile.ExpandTokenJoin | plug-ins/USDzConvert/scripts/usdzconvert.py:315-321 | a token of comma-separated pieces without spaces expands into its non-empty pieces in order, so into all of them when none is empty |
| ArgumentFile.ExpandCommasAppend | plug-ins/USDzConvert/scripts/usdzconvert.py:314-321 | the arguments expand one by one, independently |
| ArgumentFile.ExpandCommasKeeps | plug-ins/USDzConvert/scripts/usdzconvert.py:314-321 | an argument without a comma is in the expanded list |
| Directives.FirstRefused | plug-ins/USDzConvert/scripts/usdzconvert.py:250-252 | the position of the first parameter the check refuses; all parameters before it pass |
| Directives.Parameters | plug-ins/USDzConvert/scripts/usdzconvert.py:238-253 | succeeds exactly when `count` tokens follow the cursor and each passes the check; it then returns those tokens and moves the cursor onto the last. It fails with "needs more parameters" when too few follow, and with the failure of the first refused token otherwise |
| Directives.RoleIndex | plug-ins/USDzConvert/scripts/usdzconvert.py:269-276 | the first role whose `-name` is the argument, and None exactly when no role's is |
| Directives.MapChannels | plug-ins/USDzConvert/scripts/usdzconvert.py:296-307 | a selector other than `rgb` is kept for a one-component role; every other case, no selector included, gives the role's default channels |
| Directives.FloatsAccepted | plug-ins/USDzConvert/scripts/usdzconvert.py:256-263 | when the next N tokens are floats, `getParameters(N)` takes exactly them |
| Directives.ReadMapSource | plug-ins/USDzConvert/scripts/usdzconvert.py:289-294 | only `r`, `g`, `b`, `a` or `rgb` counts as a selector, and the file is the token after it; otherwise the file is the first token |
| Directives.ReadFallback | plug-ins/USDzConvert/scripts/usdzconvert.py:301-303 | a fallback is read exactly when N floats follow the file, and is those tokens; otherwise nothing is consumed |
| Directives.ResolveMap | plug-ins/USDzConvert/scripts/usdzconvert.py:286-309 | the texture map has the file after the optional selector, the channels of `MapChannels`, the current texture-coordinate set and a fallback exactly when N floats follow; the cursor ends on the last token consumed |
| Directives.ResolveInput | plug-ins/USDzConvert/scripts/usdzconvert.py:278-309 | N floats after a role become its constant, consuming exactly N tokens; anything else is read as a texture map |
| Directives.ResolveInputMap | plug-ins/USDzConvert/scripts/usdzconvert.py:278-309 | when N floats do not follow a role, its input is read as the texture map `ResolveMap` gives |
| Directives.SetInput | plug-ins/USDzConvert/scripts/usdzconvert.py:283 | only the last material changes, and only in the one input; the other materials and all other fields are kept |
| Directives.ValuedOption | plug-ins/USDzConvert/scripts/usdzconvert.py:340-357 | an option with a parameter consumes exactly one acceptable token, or fails as `getParameters` does; `-copyright` and `-url` record it, `-texCoordSet` makes it the current set, and nothing `Keeps` protects is undone |
| Directives.FlagOption | plug-ins/USDzConvert/scripts/usdzconvert.py:334-363 | each flag sets exactly its own field (`-v`, `-copytextures`, `-iOS12`/`-ios12`, the two spellings of each loop flag), leaving the materials alone; the exit exception comes exactly for `-h` and `--help` |
| Directives.RoleDirective | plug-ins/USDzConvert/scripts/usdzconvert.py:366-369 | an argument that names no role is the error "unknown argument"; a role changes only the materials, never their number, and only moves the cursor forward |
| Directives.PathArgument | plug-ins/USDzConvert/scripts/usdzconvert.py:370-379 | the first bare token sets the input path, the second the output path, and a third is the error "unknown argument" |
| Directives.Directive | plug-ins/USDzConvert/scripts/usdzconvert.py:332-379 | a directive keeps the token list, keeps the cursor within it and undoes nothing `Keeps` protects |
| Directives.ArgumentFilePath | plug-ins/USDzConvert/scripts/usdzconvert.py:205-214 | the argument file is the name itself if that file exists, else the name beside the input file; it is empty exactly when neither exists |
| Directives.LoadFile | plug-ins/USDzConvert/scripts/usdzconvert.py:364-365 | `-f name` appends the tokens of the file found, records it as the argument file and moves past the name; it fails with "failed to load argument file" when no file is found |
| Directives.Step | plug-ins/USDzConvert/scripts/usdzconvert.py:328-381 | one pass of the loop only extends the token list and undoes nothing `Keeps` protects; it either reads an argument file or moves the cursor forward, and an empty token diverges |
| Directives.Run | plug-ins/USDzConvert/scripts/usdzconvert.py:328-381 | the loop ends with the cursor past the last token, having only extended the token list |
| Directives.Finish | plug-ins/USDzConvert/scripts/usdzconvert.py:383-389 | succeeds exactly when an input path is set and the loop flags do not clash; it reports "too few arguments" first, then the loop conflict |
| Directives.Parse | plug-ins/USDzConvert/scripts/usdzconvert.py:313-389 | no arguments exit; a successful parse has an input path, never both loop flags, and a first material with no name |
| DirectiveFacts.MaterialDirective | plug-ins/USDzConvert/scripts/usdzconvert.py:351-355 | `-m name` appends a fresh material `name`, resets the texture-coordinate set to `st` and consumes one token |
| DirectiveFacts.MetersPerUnitDirective | plug-ins/USDzConvert/scripts/usdzconvert.py:346-350 | `-metersPerUnit v` succeeds exactly when `v` is a float of positive exact value, and then records that value; otherwise it is the positive-float error |
| DirectiveFacts.PlainStart | plug-ins/USDzConvert/scripts/usdzconvert.py:314-321 | comma-free arguments reach the loop unchanged, with the cursor at 0 and texture-coordinate set `st` |
| DirectiveFacts.RunStep | plug-ins/USDzConvert/scripts/usdzconvert.py:328-381 | the loop goes on from where one pass leaves it, or stops with that pass's failure |
| DirectiveFacts.HelpExits | plug-ins/USDzConvert/scripts/usdzconvert.py:362-363 | `-h` or `--help` as the first argument ends the parse with the exit exception |
| DirectiveFacts.FlagRefused | plug-ins/USDzConvert/scripts/usdzconvert.py:250-252 | no option without a parameter passes as a parameter, since none reads as a number |
| DirectiveFacts.StepAtFlag | plug-ins/USDzConvert/scripts/usdzconvert.py:332-363 | at an option without a parameter, help stops the pass with the exit exception, and any other sets its field and moves on by one |
| DirectiveFacts.RunMeetsFlag | plug-ins/USDzConvert/scripts/usdzconvert.py:328-381 | the loop meets every option without a parameter from the cursor on: help stops it, and a loop flag met is set when the loop ends |
| DirectiveFacts.HelpAnywhere | plug-ins/USDzConvert/scripts/usdzconvert.py:362-363 | help anywhere among the arguments stops the parse |
| DirectiveFacts.InputPathStep | plug-ins/USDzConvert/scripts/usdzconvert.py:371-373 | a bare token with no input path yet becomes the input path |
| DirectiveFacts.LoopFlagStep | plug-ins/USDzConvert/scripts/usdzconvert.py:358-361 | `-loop` and `-no-loop` set their flags and move on |
| DirectiveFacts.ThirdPathRefused | plug-ins/USDzConvert/scripts/usdzconvert.py:376-379 | the concrete line `a.obj b.usdz c` is the error "unknown argument"; the general rule is the third ensures of Directives.PathArgument |
| DirectiveFacts.LoopFlagsClash | plug-ins/USDzConvert/scripts/usdzconvert.py:383-387 | a loop flag and a no-loop flag anywhere among the arguments never parse; once the loop ends with an input path the failure is the loop conflict |
| DirectiveFacts.LoopFlagsConflict | plug-ins/USDzConvert/scripts/usdzconvert.py:386-387 | the concrete line `a.obj -loop -no-loop` is the loop-conflict error |
| DirectiveFacts.NoLoopFlagsConflict | plug-ins/USDzConvert/scripts/usdzconvert.py:386-387 | the concrete line `-no-loop a.obj -loop`, the other order, is the same error |
| DirectiveFacts.EmptyTokenDiverges | plug-ins/USDzConvert/scripts/usdzconvert.py:330-331 | the concrete line `a.obj ""` makes the loop spin for ever; the general rule is the second ensures of Directives.Step |
| DirectiveFacts.ConstantDirective | plug-ins/USDzConvert/scripts/usdzconvert.py:278-284 | a role followed by N floats sets exactly those N tokens as the last material's constant and consumes nothing more |
| DirectiveParser.Parser.constructor | plug-ins/USDzConvert/scripts/usdzconvert.py:40-64 | a new parser has no tokens, its cursor at 0, texture-coordinate set `st` and the initial output with one unnamed material |
| DirectiveParser.Parser.GetParameters | plug-ins/USDzConvert/scripts/usdzconvert.py:238-253 | returns what `Parameters` specifies and moves the cursor by `count` on success |
| DirectiveParser.Parser.CheckParameters | plug-ins/USDzConvert/scripts/usdzconvert.py:250-252 | fails on the first parameter that is empty or starts with a minus without being a float, and otherwise returns all of them |
| DirectiveParser.Parser.IsNextArgumentsAreFloats | plug-ins/USDzConvert/scripts/usdzconvert.py:256-263 | true exactly when `count` tokens follow the cursor and all are floats |
| DirectiveParser.Parser.SetConstant | plug-ins/USDzConvert/scripts/usdzconvert.py:281-284 | the last material's input becomes the N tokens, and the cursor moves by N |
| DirectiveParser.Parser.SetTextureMap | plug-ins/USDzConvert/scripts/usdzconvert.py:286-309 | the input and cursor are those of `ResolveMap`, including its failures |
| DirectiveParser.Parser.ReadSource | plug-ins/USDzConvert/scripts/usdzconvert.py:289-294 | agrees with `ReadMapSource` |
| DirectiveParser.Parser.ReadFallbackValues | plug-ins/USDzConvert/scripts/usdzconvert.py:301-303 | agrees with `ReadFallback`, and changes only the cursor |
| DirectiveParser.Parser.ProcessInputArgument | plug-ins/USDzConvert/scripts/usdzconvert.py:266-310 | reports an error, changing nothing, exactly when no role matches; otherwise agrees with `RoleDirective` |
| DirectiveParser.Parser.ResolveRole | plug-ins/USDzConvert/scripts/usdzconvert.py:278-310 | agrees with `ResolveInput` followed by `SetInput` |
| DirectiveParser.Parser.FindRole | plug-ins/USDzConvert/scripts/usdzconvert.py:269-276 | finds the role of `RoleIndex` |
| DirectiveParser.Parser.LoadArgumentsFromFile | plug-ins/USDzConvert/scripts/usdzconvert.py:205-235 | appends the file's tokens and records the file exactly when `ArgumentFilePath` finds it, and fails otherwise; the cursor is not moved |
| DirectiveParser.Parser.FileTokens | plug-ins/USDzConvert/scripts/usdzconvert.py:216-235 | the tokens of all lines, in order |
| DirectiveParser.Parser.LineTokensAt | plug-ins/USDzConvert/scripts/usdzconvert.py:217-235 | the tokens of the lines up to one more line extend those before it by that line's tokens |
| DirectiveParser.Parser.LineTokens | plug-ins/USDzConvert/scripts/usdzconvert.py:218-235 | the tokens of one line, as `LineArguments` gives them |
| DirectiveParser.Parser.PrepareText | plug-ins/USDzConvert/scripts/usdzconvert.py:222-229 | the line after the separator and quote passes |
| DirectiveParser.Parser.KeepPieces | plug-ins/USDzConvert/scripts/usdzconvert.py:231-235 | the non-empty pieces, unmarked, in order |
| DirectiveParser.Parser.KeepPiece | plug-ins/USDzConvert/scripts/usdzconvert.py:233-235 | one piece, unmarked, if non-empty |
| DirectiveParser.Parser.MarkQuotes | plug-ins/USDzConvert/scripts/usdzconvert.py:226-228 | agrees with `MarkQuoted` |
| DirectiveParser.Parser.SetFlag | plug-ins/USDzConvert/scripts/usdzconvert.py:334-363 | agrees with `FlagOption` |
| DirectiveParser.Parser.SetValue | plug-ins/USDzConvert/scripts/usdzconvert.py:340-357 | agrees with `ValuedOption` |
| DirectiveParser.Parser.SetPath | plug-ins/USDzConvert/scripts/usdzconvert.py:370-379 | agrees with `PathArgument` |
| DirectiveParser.Parser.Dispatch | plug-ins/USDzConvert/scripts/usdzconvert.py:332-379 | agrees with `Directive` |
| DirectiveParser.Parser.Advance | plug-ins/USDzConvert/scripts/usdzconvert.py:329-381 | one pass of the loop agrees with `Step` |
| DirectiveParser.Parser.ExpandArguments | plug-ins/USDzConvert/scripts/usdzconvert.py:314-321 | the token list becomes the comma expansion of the arguments, and nothing else changes |
| DirectiveParser.Parser.ExpandedToken | plug-ins/USDzConvert/scripts/usdzconvert.py:316-321 | the expansion of one argument |
| DirectiveParser.Parser.Parse | plug-ins/USDzConvert/scripts/usdzconvert.py:313-389 | the result is exactly `Directives.Parse`, so every property proved there holds of the class |
| Indexing.CreateMaterial | plug-ins/USDzConvert/scripts/usdzconvert.py:400-416 | fails exactly when the name is not an identifier |
| Indexing.IndexPrimsAppend | plug-ins/USDzConvert/scripts/usdzconvert.py:419-437 | indexing two runs of prims is indexing one after the other |
| Indexing.EnsureDefault | plug-ins/USDzConvert/scripts/usdzconvert.py:453-454 | afterwards a default material exists |
| Indexing.DefaultPrimsAppend | plug-ins/USDzConvert/scripts/usdzconvert.py:440-465 | binding defaults for two runs of prims is doing one after the other |
| Indexing.DefaultNameValid | plug-ins/USDzConvert/scripts/usdzconvert.py:454 | `defaultMaterial` is a valid identifier, so making the default material cannot fail |
| Indexing.InitialWellFormed | plug-ins/USDzConvert/scripts/usdzconvert.py:23-34 | the empty indexes satisfy the invariant |
| Indexing.IdentifierBasename | plug-ins/USDzConvert/scripts/usdzconvert.py:401 | the last component of a created material's path is its name |
| Indexing.CreateMaterialWellFormed | plug-ins/USDzConvert/scripts/usdzconvert.py:400-416 | creating a material keeps the invariant; it is indexed under its path and its name and is one more material defined |
| Indexing.IndexPrimWellFormed | plug-ins/USDzConvert/scripts/usdzconvert.py:421-435 | indexing one prim keeps the invariant |
| Indexing.RegisterWellFormed | plug-ins/USDzConvert/scripts/usdzconvert.py:431-435 | indexing a material under its own path keeps the invariant |
| Indexing.IndexPrimsWellFormed | plug-ins/USDzConvert/scripts/usdzconvert.py:419-437 | the walk keeps the invariant: every path maps to itself, and every name is the last component of the path it maps to |
| Indexing.BoundPathsCons | plug-ins/USDzConvert/scripts/usdzconvert.py:421-431 | the resolving bindings of a run of prims are those of its head and its tail |
| Indexing.IndexPrimsIndexes | plug-ins/USDzConvert/scripts/usdzconvert.py:419-437 | the path index gains exactly the resolving bindings of the geometry walked; known paths are never re-added; only the two indexes change |
| Indexing.EnsureDefaultShape | plug-ins/USDzConvert/scripts/usdzconvert.py:453-455 | the default material is defined once, on first need, and an existing default is left as it is |
| Indexing.EnsureDefaultWellFormed | plug-ins/USDzConvert/scripts/usdzconvert.py:453-455 | keeps the invariant; the default material is `<materialsPath>/defaultMaterial`, and an existing default changes nothing |
| Indexing.DefaultPrimWellFormed | plug-ins/USDzConvert/scripts/usdzconvert.py:442-463 | one prim keeps the invariant and never drops a binding, an index entry or an existing default |
| Indexing.DefaultPrimDefines | plug-ins/USDzConvert/scripts/usdzconvert.py:442-463 | one prim makes the default material exactly when there is none yet and the prim is unbound geometry |
| Indexing.DefaultPrimCovers | plug-ins/USDzConvert/scripts/usdzconvert.py:442-463 | a geometry prim's material is indexed afterwards, and an unbound prim is bound |
| Indexing.DefaultPrimsWellFormed | plug-ins/USDzConvert/scripts/usdzconvert.py:440-465 | the walk keeps the invariant; every binding is to the one default material |
| Indexing.HasUnboundCons | plug-ins/USDzConvert/scripts/usdzconvert.py:452 | a run of prims has unbound geometry when its head is unbound geometry or its tail has some |
| Indexing.DefaultPrimsDefine | plug-ins/USDzConvert/scripts/usdzconvert.py:440-465 | at most one default material is made over the whole walk, and exactly when some geometry is unbound and none existed |
| Indexing.DefaultPrimsCover | plug-ins/USDzConvert/scripts/usdzconvert.py:440-465 | after the walk every geometry prim's material is indexed, and every unbound one is bound |
| Indexing.ReplaceWellFormed | plug-ins/USDzConvert/scripts/usdzconvert.py:758-778 | the replacement keeps the invariant; the found material leaves the path index and the stage, the made one is indexed, the name index is untouched and no other path changes |
| Binder.UsdParameters.constructor | plug-ins/USDzConvert/scripts/usdzconvert.py:23-34 | the indexes start empty, with materials under `/Materials` and no default material |
| Binder.UsdParameters.CreateMaterial | plug-ins/USDzConvert/scripts/usdzconvert.py:400-416 | returns `<materialsPath>/<name>` and updates the state as `Indexing.CreateMaterial` does, or fails with the state unchanged |
| Binder.UsdParameters.IndexBinding | plug-ins/USDzConvert/scripts/usdzconvert.py:421-435 | one prim of `getAllUsdMaterials` leaves the state `IndexPrim` gives |
| Binder.UsdParameters.AddIfNew | plug-ins/USDzConvert/scripts/usdzconvert.py:431-435 | a path already indexed changes nothing; a new one is registered |
| Binder.UsdParameters.LastComponent | plug-ins/USDzConvert/scripts/usdzconvert.py:433-434 | the last piece of the path split at slashes is its base name |
| Binder.UsdParameters.GetAllUsdMaterials | plug-ins/USDzConvert/scripts/usdzconvert.py:419-437 | the recursive walk leaves the state `IndexPrims` gives over the pre-order of the children |
| Binder.UsdParameters.BindDefault | plug-ins/USDzConvert/scripts/usdzconvert.py:442-463 | one prim of `addDefaultMaterialToGeometries` leaves the state `DefaultPrim` gives |
| Binder.UsdParameters.MakeDefault | plug-ins/USDzConvert/scripts/usdzconvert.py:453-454 | leaves the state `EnsureDefault` gives |
| Binder.UsdParameters.AddDefaultMaterialToGeometries | plug-ins/USDzConvert/scripts/usdzconvert.py:440-465 | the recursive walk leaves the state `DefaultPrims` gives over the pre-order of the children |
| Binder.UsdParameters.ReplaceMaterial | plug-ins/USDzConvert/scripts/usdzconvert.py:758-778 | looks the material up by path, or else by name, and leaves the state `ReplaceFound` gives |
| Stage.BoundMaterial | plug-ins/USDzConvert/scripts/usdzconvert.py:425-429 | a material is bound exactly when the binding path is set and resolves |
| Stage.FirstHitFirst | plug-ins/USDzConvert/scripts/usdzconvert.py:468-482 | no prim before the first hit matches, and the prim at it does |
| Stage.FindIsFirstMatch | plug-ins/USDzConvert/scripts/usdzconvert.py:468-482 | the recursive search returns the first match of the pre-order walk |
| Stage.FindFirstInPreOrder | plug-ins/USDzConvert/scripts/usdzconvert.py:468-482 | the search returns the path of the first matching material in pre-order, and None exactly when none matches |
| Stage.FindUsdMaterialSound | plug-ins/USDzConvert/scripts/usdzconvert.py:485-508 | a result is an indexed material or a matching material prim; None exactly for an empty name, or when every lookup misses and no prim matches (by path when the name starts with a slash, by base name otherwise) |
| Stage.FindUsdMaterialOrder | plug-ins/USDzConvert/scripts/usdzconvert.py:485-508 | the five lookups apply in order, each only when all before it miss: exact path, sanitized name, `/Materials/<name>`, `/<name>`, and last the recursive search |
| Textures.RelocateSkips | plug-ins/USDzConvert/scripts/usdzconvert.py:541-545 | inputs that are not maps, and maps without a file, are left alone and copy nothing |
| Textures.UnderJoin | plug-ins/USDzConvert/scripts/usdzconvert.py:558-559 | stripping a folder prefix and putting it back gives the file path again |
| Textures.RelocateCopiesWhatItNames | plug-ins/USDzConvert/scripts/usdzconvert.py:547-570 | each input makes at most one copy, from an existing file, to the place in the folder its new path names; only a map's file changes, and only when something is copied |
| Textures.RelocateGivenFile | plug-ins/USDzConvert/scripts/usdzconvert.py:557-570 | a file found only as given becomes its path relative to the source folder, else to a distinct destination folder, else `textures/<basename>` |
| Textures.RelocateMissing | plug-ins/USDzConvert/scripts/usdzconvert.py:547-557 | a texture found nowhere is neither copied nor rewritten |
| Textures.CopyMaterialTextures | plug-ins/USDzConvert/scripts/usdzconvert.py:538-570 | every input is relocated by `Relocate` with the folders of the source and destination, and the copies are exactly those its inputs call for |
| Textures.ChildTextures | plug-ins/USDzConvert/scripts/usdzconvert.py:515-527 | exactly the non-empty files that `UsdUVTexture` children name |
| Textures.UsedTextures | plug-ins/USDzConvert/scripts/usdzconvert.py:514-527 | exactly the texture files the children of some indexed material name |
| Textures.CopyShaderTextures | plug-ins/USDzConvert/scripts/usdzconvert.py:515-535 | the children's texture files are added to those copied, each copied once and only if new |
| Textures.JoinCancel | plug-ins/USDzConvert/scripts/usdzconvert.py:534 | two files copied into the same folder collide only when they have the same name |
| Textures.LogDistinct | plug-ins/USDzConvert/scripts/usdzconvert.py:528-535 | because `copiedFiles` is consulted, no two copies share a destination |
| Textures.CopyTexturesFromStageToFolder | plug-ins/USDzConvert/scripts/usdzconvert.py:511-535 | exactly the texture files the indexed materials use are copied, each once, with a relative name looked up beside the source |
| Conversion.FindSource | plug-ins/USDzConvert/scripts/usdzconvert.py:595-607 | the input is the path as given if that file exists, else the bare name in the argument file's folder; the error "does not exist" comes exactly when neither holds |
| Conversion.ResolveDestination | plug-ins/USDzConvert/scripts/usdzconvert.py:616-634 | fails exactly when a given output has an extension other than `.usdz`, `.usd`, `.usdc` or `.usda`; the default output is a package |
| Conversion.DefaultDestinationBeside | plug-ins/USDzConvert/scripts/usdzconvert.py:619-623 | the default output lies in the source's folder, named after the source stem with `.usdz` |
| Conversion.SupportedFormatsImported | plug-ins/USDzConvert/scripts/usdzconvert.py:664-695 | `convert` passes on an extension exactly when `process` has an importer for it |
| Conversion.TmpPathEscapes | plug-ins/USDzConvert/scripts/usdzconvert.py:649-654 | as written, a USD source without a folder gets an absolute temporary path at the file-system root |
| Conversion.TmpPathAgrees | plug-ins/USDzConvert/scripts/usdzconvert.py:649-655 | the corrected temporary path is the one the script builds for every source except a USD source whose path has no folder |
| Conversion.InFolderParts | plug-ins/USDzConvert/scripts/usdzconvert.py:652 | a name put in a folder keeps its base name and gets that folder, and is absolute exactly when the folder is |
| Conversion.TmpPathBesideSource | plug-ins/USDzConvert/scripts/usdzconvert.py:649-655 | corrected: the temporary file lies in the source's folder under the destination's base name, or a drawn prefix of it, and is absolute exactly when the source is |
| Conversion.PrepareOrder | plug-ins/USDzConvert/scripts/usdzconvert.py:595-660 | the checks apply in order (missing input, output extension, input extension); on success the set-up holds their results, and textures are copied only for non-package output |
| Conversion.LoopMetadataFollowsFlag | plug-ins/USDzConvert/scripts/usdzconvert.py:707-711 | after a successful parse, looping is turned off exactly when `-no-loop` was given, and on exactly for `-loop` with USD or USDZ input |
| Conversion.TryProcess | plug-ins/USDzConvert/scripts/usdzconvert.py:817-826 | a `ConvertError` gives exit code 2 and a `ConvertExit` gives 0; a return value passes through, and any other exception propagates |
| Conversion.HelpExitsZero | plug-ins/USDzConvert/scripts/usdzconvert.py:817-826 | `-h` or `--help` as the first argument gives exit code 0 |
| Conversion.HelpSkipsStage | plug-ins/USDzConvert/scripts/usdzconvert.py:313-363 | help anywhere among the arguments ends `process` in the parse, with no set-up and no stage work |
| Conversion.MissingInputExitsTwo | plug-ins/USDzConvert/scripts/usdzconvert.py:606-607 | a parsed input file that does not exist gives exit code 2 before any stage work |
| Conversion.OptionParts | plug-ins/USDzConvert/scripts/usdzconvert.py:847-852 | an option with exactly one colon is the file-name suffix, the colon and the channel, neither holding a colon; any other option is all suffix with no channel |
| Conversion.EndsWithSuffix | plug-ins/USDzConvert/scripts/usdzconvert.py:854 | the suffix test holds exactly when the option is a non-empty proper suffix of the stem |
| Conversion.ConvertTokensAppend | plug-ins/USDzConvert/scripts/usdzconvert.py:833-858 | the files contribute independently, one after another |
| Conversion.FileTokensLead | plug-ins/USDzConvert/scripts/usdzconvert.py:834-839 | a file leads its own tokens exactly when its extension is supported, and then `process` can import it |
| Conversion.RolesTokensLead | plug-ins/USDzConvert/scripts/usdzconvert.py:843-858 | role tokens start with a directive, which starts with a dash |
| Conversion.RoleTokensMatch | plug-ins/USDzConvert/scripts/usdzconvert.py:843-858 | a matching role contributes `-<role>`, its channel if one is given, and the file; a role that does not match contributes nothing |
| Conversion.RoleArguments | plug-ins/USDzConvert/scripts/usdzconvert.py:844-858 | the tokens `RoleTokens` gives for one role |
| Conversion.AppendRoleTokens | plug-ins/USDzConvert/scripts/usdzconvert.py:843-858 | the inner loop appends the role tokens of every role, in table order |
| Conversion.FileArguments | plug-ins/USDzConvert/scripts/usdzconvert.py:834-858 | the tokens `FileTokens` gives for one file |
| Conversion.ConvertArguments | plug-ins/USDzConvert/scripts/usdzconvert.py:829-858 | the argument list is `ConvertTokens` of the files |
| Conversion.Convert | plug-ins/USDzConvert/scripts/usdzconvert.py:829-860 | `tryProcess` of `process` on the argument list built; only an unexpected exception escapes |

## Left out

- The pxr library (Usd, UsdShade, UsdGeom, Sdf) is not part of this model. The stage is a tree of prims given as a value. `Define` and `RemovePrim` are recorded in the `defined` and `removed` logs instead of changing the tree.
- `Sdf.Path.IsValidIdentifier` is stated as an ASCII identifier rule.
- `usdUtils` is not part of this model. `makeValidIdentifier` is the parameter `sanitize`, the path of the material `makeUsdMaterial` makes is the parameter `made`, and the role table `usdUtils.Input.names`/`channels` is the parameter `roles`.
- A material handle is represented by its prim path.
- Dictionary iteration order is arbitrary: the loops over `material.inputs` and `params.usdMaterials` pick keys in any order.
- Conversion.Prepare uses the corrected temporary path of the Findings row. For a USD source whose path has no folder, the model does not give the script's `/<name>.usdc` path; Conversion.TmpPathAsWritten states that path.
- Textures.CopyMaterialTextures returns the rewritten material as a new value instead of mutating the shared `Material` object. Copies are logged and do not add to the set of existing files.
- The format importers (OBJ, glTF, FBX), `unzip`, `Usd.Stage.Open`, alembic re-export, `tempfile`, `rmtree` and `makedirs` are I/O or foreign code. The temporary folder and the drawn candidate name are parameters. The failures "can't open input usdz file" and "failed to create USD stage" are not modelled.
- Conversion.FindSource records the folder that `os.chdir` would enter instead of changing directory.
- The iOS 12 legacy modifier and its float scale computation are left out; `-iOS12` only sets its flag.
- Stage metadata (`metersPerUnit`, `createStageMetadata`), the material loop of `process` other than the named-material replacement, the texture-copy branch, export, USDZ packaging and the ARKit checker are left out. Everything after set-up is the parameter `rest` of `Conversion.Process`.
- Verbose printing, warnings, usage and help text are left out; help is modelled only as the exit exception.
- The length checks on the `os.path.splitext` results are left out, because a pair always has length two.
- Text.Lower lowers ASCII letters only. That is what Python 2's `str.lower` does on the byte strings the script handles in the C locale; a locale that lowers other bytes is not modelled.
- Floats.FloatValue is the exact rational value of the literal. Rounding to the nearest double, underflow to 0.0 (as for `1e-400`) and overflow to `inf` are not modelled, so `-metersPerUnit 1e-400` is accepted here and refused by the script.
- Floats.Scan accepts decimal literals only. Python 2's `float()` also accepts surrounding whitespace, `inf`, `infinity` and `nan` in any case, and those are not modelled.
- Directives.Parse counts the argument files it reads. A file that includes itself makes the source read forever; the model stops with `LoadLimit` after `loads` files.
- Directives.Step stops with `Diverges` on an empty token, where the source's `continue` never advances and never ends.
- DirectiveParser.Parser.GetParameters returns a one-token list for `count == 1`, where the source returns the token itself.
- An empty parameter makes the source raise `IndexError`; the model reports it as the failure `Uncaught`.
- `usdMayaExport.py` and `userSetup.py` are Maya menu and dialog code, not part of this model.

## Findings

| source | as written | input that shows it | evidently intended | confidence | as-written member | corrected member |
|---|---|---|---|---|---|---|
| plug-ins/USDzConvert/scripts/usdzconvert.py:649-654 | the temporary `.usdc` of a USD source is `os.path.dirname(srcPath) + '/' + tmpBasename` | source `model.usda` in the working folder: its folder is empty, so the temporary file is `/model.usdc` at the file-system root | the temporary file in the source's own folder, `model.usdc` relative to it | not executed | Conversion.TmpPathEscapes | Conversion.TmpPathBesideSource |
