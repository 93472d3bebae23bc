# Verified model of the st-zrt bindings

st-zrt is a Rust layer over the ONNX Runtime C library. Most of it forwards calls. This project
models the parts that have logic of their own and proves, for all inputs and all runs, what the
rest of the code relies on:

* **the binding generator** (`codegen/src/main.rs`), which turns the preprocessed C header into a
  Rust file in which every native call goes through a positional table index;
* **the lifetime protocol** (`environment.rs`, `ep_device.rs`, `hardware.rs`, `allocator.rs`,
  `session.rs`), in which reference-counted holders decide when native objects are released;
* **the acquisition of the native library** (`st-zrt-sys/build.rs`), a sequence of file operations
  that may be interrupted anywhere and resumed by a later build;
* **device provenance, model spooling, batch polling and counter differences**, the smaller
  stateful pieces of the runtime crate.

`dafny verify dfyconfig.toml` checks everything.

## Layout

| file | contents |
|---|---|
| `Text.dfy` | trimming, searching, joining, decimal numbers, ASCII case |
| `Parens.dfy` | balanced text, the closing-parenthesis scanner, the top-level splitter |
| `CTypes.dfy` | lexing and analysis of C types, construction of Rust types |
| `Decls.dfy`, `RoundTrip.dfy` | parsing of parameters and fields; declarations as written; the parser undoes the printer |
| `ApiStruct.dfy` | joining wrapped lines, numbering fields, layout invariance |
| `Names.dfy` | word splitting and the derived names |
| `Handles.dfy`, `Regroup.dfy`, `Emit.dfy` | collected handle types, regrouping by feature, the emitted text |
| `Spelled.dfy`, `Pipeline.dfy` | the emitted text written out; header text to binding file, end to end |
| `Lifetime.dfy`, `LifetimeEffects.dfy`, `LifetimeProofs.dfy`, `LifetimeSteps.dfy`, `LifetimeRuns.dfy` | the protocol as a state machine; what each action does; its invariant; every action keeps it; what follows for every run |
| `Devices.dfy` | which device may meet which environment in a native call |
| `Archive.dfy` | download, verification, extraction, marker, interrupted builds |
| `Spool.dfy`, `Poller.dfy`, `Stats.dfy` | spool files, completion polling, snapshot differences |

## How to read the model

**The generator.** Strings are `seq<char>`. The loops of the source are methods with invariants
(`MatchCloseParen`, `SplitTopLevel`, `StripArraySuffix`, `Analyze`, `BuildRust`, `ReadFields`,
`SplitWords`, `CollectHandles`, `GroupFields`, ...), each tied to a recursive function, and the
laws are lemmas about those functions. The inverse direction is a small abstract syntax
(`CType`, `Plain`, `ParamDecl`, `FieldDecl`) in which every gap between two tokens is a
component: `FieldText` writes it, `FieldMeaning` says what it means, and `FieldRoundTrip` and
`HeaderRoundTrip` say that parsing the one gives the other. The end-to-end results combine
everything: the i-th function of the C table is emitted under index i whatever the layout of the
header and whatever its feature group (`TableSlotPreserved`), its accessor reads the slot of that
constant (`AccessorReadsSlot`), its alias has the parameters in order with the meaning of their
types (`AliasGivesSignature`), the struct of a sub-API lists its functions in declaration order
(`SubSlotPreserved`), and every opaque type in a signature, callbacks included, has one declaration
line in the file (`OpaqueTypeDeclared`). The text in these statements is written out, not named by
the functions that produce it.

**The lifetime protocol.** `State` holds the reference-counted inner objects, the values that
client code holds, and the sequence of native calls made so far. `Next` has one case per step;
drops are split into the steps Rust performs (count reaches zero, native release, fields), so that
other threads may act in between. `SafeTrace` does not mention counts at all: it says of a call
sequence that nothing is created twice or below a dead object, used when dead, released twice, or
released while something created below it is alive. `EveryRunIsSafe` proves it of every run. A
boxed logger is treated as an object below which its environment is created, so the same rule
covers the logger. Which calls, holders and objects each action yields is said once more without
the building blocks of `Next`, as tables per action (`StepCalls`, `StepHolders`, `StepNodes`), and
`ExampleRun` follows one run from the first call to the last. `Drain` adds that giving things up, in whatever order, ends after a bounded
number of steps with everything released.

**Archive acquisition.** `OutDir` is the output directory. Every file operation may succeed, fail,
or not happen because the build was killed: `fate` says how the n-th step ends and is arbitrary, and
so is `serves`, what a request made then is answered with. A contract can therefore say that a
failure has a reason: `Build` fails only if a step failed, a response had another digest, or the
archive has no library. `Builds` runs any number of builds on one directory with interference by
others in between, and `Recovers` says that once nothing fails any more a build succeeds whatever
was left behind, and the next one has nothing to do.

**Where code and comment differ.** The comment at `st-zrt-sys/build.rs:382-383` says that a
partially wiped directory must not keep the marker's promise alive. The code looks for the marker
and for `lib/` only, and `PartialDirectoryBelieved` gives a directory for which that is not enough.
`GuardRightIff` says when it is: for a complete directory that lost some files, the guard is right
if and only if the marker or `lib/` went too, or no file of the archive is missing. That is also
what `Builds` lets others do to the directory in between; directories without marker or `lib/` may
be changed in any way.

The panic text at `st-zrt-sys/build.rs:228-231` suggests putting the archive in place by hand. A
`.part` left by a killed download then stays: a finished build leaves a `.part` if and only if its
last removal failed, or one was there and nothing was downloaded (`Build`); `StalePartStays` is an
input.

The comment at `st-zrt/src/cuda_rt.rs:448-450` leaves the result buffer unspecified on error; the
code guarantees more, and `Query` states it.

An unnamed parameter is recovered if and only if its type holds no space, or what follows the last
space of its type holds a star or is one of `const`, `enum`, `struct`, `void`
(`AnonymousRecoveredIff`); `AnonymousConstIntMisread` is an input that is misread. A named one is
recovered if and only if the gap before its name holds a space (`NamedRecoveredIff`); in `char *x`
the name is lost (`NameAtStarLost`). A callback is recovered if and only if it returns nothing; any
other result is dropped (`CallbackRecoveredIff`).

A declaration that is no function pointer is dropped (`ParsesIff` says which these are). A later
function keeps its slot if and only if no earlier declaration was dropped (`SlotKeptIff`);
`DroppedFieldShifts` and `VersionIsDropped` are an input.

Successive differences of a counter sum to the difference of first and last if and only if nothing
is lost on balance while the counter is missing (`TelescopeIff`); `GapBreaksTheSum` is an input.

## Model

| member | source | states |
|---|---|---|
| Parens.MatchCloseParen | codegen/src/main.rs:265-280 | the loop computes `MatchClose` |
| Parens.CloseAfterBalanced | codegen/src/main.rs:265-280 | for balanced text, from any depth, the parenthesis behind it is found whatever follows |
| Parens.CloseIff | codegen/src/main.rs:265-280 | a position is returned if and only if it holds a `)` with a balanced prefix |
| Parens.SplitTopLevel | codegen/src/main.rs:284-309 | the loop with its current piece and depth computes `SplitTop` |
| Parens.SplitRejoins | codegen/src/main.rs:284-309 | the raw pieces rejoin to the input, for any input, and number one more than the top-level commas |
| Parens.PiecesAreItems | codegen/src/main.rs:284-309 | pieces of balanced text are balanced and have no top-level comma |
| Parens.SplitInvertsJoin | codegen/src/main.rs:284-309 | balanced items joined by commas come back one by one |
| Parens.SplitTopOfJoin | codegen/src/main.rs:284-309 | the same for the whole splitter, up to trimming, when the last item is not blank |
| Parens.BlankLastDropped | codegen/src/main.rs:284-309 | a blank last item, and only that one, is dropped |
| Parens.SplitTopIsInverse | codegen/src/main.rs:284-309 | every balanced list with a non-blank last item decomposes into items whose trimmed forms are the result |
| Parens.SplitTopTrim | codegen/src/main.rs:284-309 | blank ends of the list never matter |
| CTypes.Analyze | codegen/src/main.rs:382-404 | the scanning loops find base, constness and star count of any token list |
| CTypes.BuildRust | codegen/src/main.rs:406-420 | the loop puts exactly the given number of pointer levels in front of the mapped base |
| CTypes.LexUndoesWrite | codegen/src/main.rs:366-379 | tokens written with any admissible spacing lex back to the same tokens |
| CTypes.MapTypePreservesMeaning | codegen/src/main.rs:351-420 | for any spacing the Rust type is the mapped base under stars plus array levels, const if and only if `const` precedes the base |
| CTypes.MapReturnPreservesMeaning | codegen/src/main.rs:513-519 | the same for return types, and nothing for a bare `void` only |
| CTypes.BaseMapped | codegen/src/main.rs:422-510 | read back from the printed type: the levels, and as pointee the table's type, the handle named after an `Ort` struct, or an opaque one |
| CTypes.ReadUndoesPointers | codegen/src/main.rs:406-420 | levels, constness and pointee can be read back from the printed type |
| CTypes.PrintAlikeIff | codegen/src/main.rs:406-420 | two types print alike if and only if pointee and levels agree and, where there are levels, constness |
| Decls.StripArraySuffix | codegen/src/main.rs:221-235 | the loop computes `StripArrays` of the trimmed text |
| Decls.SanitizeLaws | codegen/src/main.rs:250-260 | the reserved words get an underscore, other names stay, and no result is reserved |
| Decls.OnlySemicolonsDropped | codegen/src/main.rs:151-179 | dropping trailing semicolons removes exactly those |
| RoundTrip.StripUndoesArrays | codegen/src/main.rs:221-235 | stripping removes exactly the written array declarators and counts them |
| RoundTrip.ParsePlain | codegen/src/main.rs:195-248 | a written parameter with at most one array declarator parses to its meaning and sanitized or positional name |
| RoundTrip.LevelsCounted | codegen/src/main.rs:195-235 | the code adds one pointer level per array declarator, however many there are |
| RoundTrip.NamedRecoveredIff | codegen/src/main.rs:195-248 | a named parameter is recovered if and only if the gap before the name holds a space |
| RoundTrip.NameAtStarLost | codegen/src/main.rs:195-248 | a name that touches a star is lost |
| RoundTrip.UnnamedIff | codegen/src/main.rs:238-248 | the name splitter leaves a written type whole if and only if it holds no space, or has a star or just a type word behind its last space |
| RoundTrip.AnonymousRecoveredIff | codegen/src/main.rs:195-248 | an unnamed parameter is recovered if and only if its type holds no space, or what follows its last space holds a star or is one of `const`, `enum`, `struct`, `void` |
| RoundTrip.AnonymousConstIntMisread | codegen/src/main.rs:195-248 | the wrong parameter that an unnamed `const int` yields |
| RoundTrip.WordTypeInCallback | codegen/src/main.rs:314-347 | `void (*fn)(void*, size_t)` is in the written syntax |
| RoundTrip.InnerRoundTrip | codegen/src/main.rs:314-347 | the parameter list of a callback parses to the types of its elements, names dropped |
| RoundTrip.CallbackRoundTrip | codegen/src/main.rs:314-347 | a written callback without result parses to its name and function type |
| RoundTrip.CallbackSpelled | codegen/src/main.rs:314-347 | the function type of a callback, written out: the meanings of its elements in order |
| RoundTrip.CallbackRecoveredIff | codegen/src/main.rs:314-339 | a callback is recovered if and only if it returns nothing |
| RoundTrip.ParamRoundTrip | codegen/src/main.rs:195-218 | either kind of written parameter parses to its meaning |
| RoundTrip.ParamsRoundTrip | codegen/src/main.rs:181-193 | a written parameter list parses to all parameters in order |
| RoundTrip.FieldRoundTrip | codegen/src/main.rs:151-179 | a written field, with any trailing text, parses to its name, return type and parameters |
| RoundTrip.ParsesIff | codegen/src/main.rs:151-179 | a text is a field if and only if it has the shape head, `(`, `*`, name, `)`, `(` balanced `)`, anything |
| ApiStruct.ParseApiStruct | codegen/src/main.rs:115-147 | the first struct of that name is read up to the first closing line; a missing one is an error |
| ApiStruct.ReadFields | codegen/src/main.rs:127-146 | the loop over lines with its buffer and growing list computes `FieldsOf` |
| ApiStruct.NoiseSpelled | codegen/src/main.rs:127-137 | blank lines and lines that begin with `//`, up to trimming, are among the lines that never matter |
| ApiStruct.LayoutInvariance | codegen/src/main.rs:127-146 | any interleaving with blank and comment lines and any blank line ends give the numbered declarations |
| ApiStruct.WrappingInvariance | codegen/src/main.rs:130-144 | two layouts of declarations with the same text, however wrapped, give the same fields |
| ApiStruct.IndexIsPosition | codegen/src/main.rs:138-142 | whatever parses, field i carries index i |
| ApiStruct.NoneDroppedIff | codegen/src/main.rs:138-142 | as many fields as declarations come out if and only if every declaration parses |
| ApiStruct.SlotKeptIff | codegen/src/main.rs:138-142 | a declaration that parses becomes the field behind the earlier ones that parse, and keeps its table position if and only if all of those do |
| ApiStruct.DroppedFieldShifts | codegen/src/main.rs:138-142 | one dropped declaration between two fields moves the second up a slot |
| ApiStruct.VersionIsDropped | codegen/src/main.rs:151-156 | `int version;` is such a declaration |
| ApiStruct.HeaderRoundTrip | codegen/src/main.rs:115-179 | a header holding written fields in any layout yields exactly those fields, each under its position |
| ApiStruct.BodyFound | codegen/src/main.rs:116-126 | the body behind the first `struct NAME {`, up to the first line `};`, is found inside a larger text |
| Names.SplitWords | codegen/src/main.rs:764-793 | the loop computes `NameWords` |
| Names.SplittingRefinesRule | codegen/src/main.rs:764-793 | words are non-empty, spell the lower-cased name, and start at 0 and exactly at the upper-case letters that follow or precede a lower-case one |
| Names.SnakeSpelled | codegen/src/main.rs:756-761 | the accessor name is the lower-cased name with `_` exactly at the word boundaries |
| Names.PascalSpelled | codegen/src/main.rs:745-755 | the type name is the name with capitals exactly at the start and at the word boundaries |
| Names.DerivedNamesAgree | codegen/src/main.rs:739-761 | the constant name is the upper case of the accessor name and lowers back to it |
| Names.ClashesAgree | codegen/src/main.rs:739-761 | two names clash as constants if and only if they clash as accessors |
| Names.TransformsIdempotent | codegen/src/main.rs:739-761 | both transforms are idempotent on every name |
| Handles.CollectHandles | codegen/src/main.rs:689-707 | the result is sorted, duplicate-free and exactly the wanted identifier runs of all snippets |
| Handles.CollectFrom | codegen/src/main.rs:692-704 | scanning one snippet adds exactly its runs ending in `Handle`, minus the hand-written ones |
| Handles.WantedIff | codegen/src/main.rs:694-703 | a run is wanted if and only if it is some text followed by `Handle` and not hand-written |
| Handles.SortedUnique | codegen/src/main.rs:689-707 | a sorted list is determined by its elements, so the order of insertion does not matter |
| Handles.FoundInContext | codegen/src/main.rs:692-693 | text between non-word characters keeps its runs |
| Regroup.GroupFields | codegen/src/main.rs:582-585 | the group map holds, per gate, the fields of that gate in original order |
| Regroup.RankIsKeyOrder | codegen/src/main.rs:582-592 | the gate order is the key order of the ordered map, core first |
| Regroup.RegroupingConserves | codegen/src/main.rs:582-592 | the emitted fields are the parsed ones, each as often as parsed |
| Regroup.RegroupingOrders | codegen/src/main.rs:582-592 | core first, gates in key order, original index order inside a gate |
| Regroup.SectionsRenderOrder | codegen/src/main.rs:629-653 | the sections are titles and rendered fields one after the other, and the fields among them are exactly the fields in emission order |
| Regroup.EmitFile | codegen/src/main.rs:570-664 | the file is the document of the grouped fields with exactly the collected handles |
| Regroup.FieldEmitted | codegen/src/main.rs:629-653 | every field's text is in the file |
| Regroup.HandleDeclaredOnce | codegen/src/main.rs:600-605 | a collected handle has a declaration line in the file, from exactly one place in the list |
| Emit.EmitSubApi | codegen/src/main.rs:668-686 | the struct text has one line per field in declaration order |
| Emit.EmitBindings | codegen/src/main.rs:570-664 | the document with the real classification and rendering and the given fixed texts |
| Emit.ClassifyIff | codegen/src/main.rs:522-567 | which names go under which gate, each gate only if no earlier one applies |
| Emit.ClassifyIgnoresCase | codegen/src/main.rs:522-567 | the gate does not depend on the case of the name |
| Emit.HandleClosure | codegen/src/main.rs:593-605 | every handle type in an emitted signature is collected |
| Emit.OpaqueTypeNamesHandle | codegen/src/main.rs:503-510 | an opaque base names its handle at any pointer depth |
| Emit.IndexEmitted | codegen/src/main.rs:709-736 | every field's index constant is in the file with its original index |
| Spelled.EntrySpelled | codegen/src/main.rs:709-736 | the text of a table function, written out: constant, alias and accessor under one feature |
| Spelled.StructSpelled | codegen/src/main.rs:668-686 | the text of a sub-API struct, written out, with one entry per field in declaration order |
| Spelled.DocumentSpelled | codegen/src/main.rs:570-664 | the order of the parts of the file |
| Spelled.SectionSpelled | codegen/src/main.rs:629-653 | the section of a gate in the file: its title, then the entries of exactly its fields in order |
| Pipeline.ParseSubApis | codegen/src/main.rs:72-89 | all sub-API structs in order, or an error if one is missing |
| Pipeline.Generate | codegen/src/main.rs:66-90 | the binding file, or exactly the panics of the generator |
| Pipeline.TableSlotPreserved | codegen/src/main.rs:115-179 | the i-th function of the written C table is emitted under index i |
| Pipeline.AccessorReadsSlot | codegen/src/main.rs:709-736 | the accessor of the i-th written function calls the slot of the constant with its own name, whose value is i |
| Pipeline.AliasGivesSignature | codegen/src/main.rs:709-736 | the alias of the i-th written function: `name: type` in order, then the return type |
| Pipeline.TableFunctionEmitted | codegen/src/main.rs:709-736 | everything the file says about the i-th written function, under the feature of its name |
| Pipeline.OpaqueTypeDeclared | codegen/src/main.rs:593-605 | an opaque type in any parameter, callback element or return type of a written table function has its declaration line in the file, once |
| Pipeline.SubOpaqueTypeDeclared | codegen/src/main.rs:593-605 | the same for the functions of a written sub-API struct |
| Pipeline.SubSlotPreserved | codegen/src/main.rs:668-686 | the file holds the struct of a written sub-API, made of as many lines as functions, the i-th line for the i-th function |
| Pipeline.FieldsCanBeWritten | codegen/src/main.rs:115-147 | any list of fields, one per line, is a header to which the end-to-end results apply |
| Pipeline.SmallestField | codegen/src/main.rs:151-179 | such a field exists |
| Lifetime.SafeSnoc | st-zrt/src/environment.rs:252-258 | a safe call sequence stays safe under one more allowed call |
| LifetimeEffects.StepCalls | st-zrt/src/ep_device.rs:26-35 | exactly which native calls each action adds to the trace |
| LifetimeEffects.StepHolders | st-zrt/src/environment.rs:465-470 | which holder each action yields or takes, and that it changes no other; a clone has the role and object of its original |
| LifetimeEffects.StepNodes | st-zrt/src/environment.rs:465-470 | which counts and phases each action changes, and that it changes no other object |
| LifetimeEffects.HeldCanBeUsed | st-zrt/src/ep_device.rs:26-35 | what a held value is for can be done with it: native calls, clones, discovery, opening, release |
| LifetimeEffects.ExampleRun | st-zrt/src/environment.rs:682-687 | a whole run with its calls: the stream, then the environment, then the logger is released, although the environment handle was dropped first |
| LifetimeProofs.ParentIsHeld | st-zrt/src/ep_device.rs:235-245 | whatever a living object was created below is alive, and why |
| LifetimeProofs.HandleIsAlive | st-zrt/src/environment.rs:465-470 | a held reference means a live node with a positive count |
| LifetimeProofs.Childless | st-zrt/src/environment.rs:682-687 | a node without references has nothing alive below it |
| LifetimeSteps.KeepShare | st-zrt/src/environment.rs:465-470 | cloning or deriving keeps the invariant |
| LifetimeSteps.KeepOpen | st-zrt/src/ep_device.rs:248-276 | opening a stream or session below an environment keeps it |
| LifetimeSteps.KeepOpenAllocator | st-zrt/src/allocator.rs:101-129 | creating an owned allocator keeps it |
| LifetimeSteps.KeepReleaseAllocator | st-zrt/src/allocator.rs:212-218 | releasing an allocator before its guard keeps it |
| LifetimeSteps.KeepDropRef | st-zrt/src/environment.rs:682-687 | dropping any reference, the last one included, keeps it |
| LifetimeSteps.KeepReleaseNode | st-zrt/src/environment.rs:682-687 | the native release of an unreferenced object keeps it |
| LifetimeSteps.KeepDropEnvFields | st-zrt/src/environment.rs:134-142 | freeing the logger after the environment keeps it |
| LifetimeSteps.KeepDropChildFields | st-zrt/src/ep_device.rs:294-300 | dropping the environment guard of a released stream or session keeps it |
| LifetimeSteps.KeepSetLogger | st-zrt/src/environment.rs:738-741 | replacing the logger of a builder frees the old one and keeps it |
| LifetimeSteps.KeepCreateEnv | st-zrt/src/environment.rs:758-798 | a successful constructor moves the logger into the environment and keeps it |
| LifetimeSteps.KeepFailBuild | st-zrt/src/environment.rs:390-446 | every failing constructor exit frees the logger and keeps it |
| LifetimeSteps.StepKeepsInv | st-zrt/src/environment.rs:252-258 | every action keeps the invariant |
| LifetimeRuns.EveryRunIsSafe | st-zrt/src/environment.rs:252-258 | in every state of every run the calls made so far are safe |
| LifetimeRuns.ReachableIsClosed | st-zrt/src/environment.rs:465-470 | no reference dangles in any reachable state |
| LifetimeRuns.ReleaseIsFinal | st-zrt/src/environment.rs:682-687 | after its release an object is not released, used or recreated, and nothing is created below it |
| LifetimeRuns.ChildrenFirst | st-zrt/src/ep_device.rs:229-238 | whatever was created below an object is released before it |
| LifetimeRuns.ReleaseNeedsNoHolder | st-zrt/src/environment.rs:682-687 | at the native release no holder and no field refers to the object and nothing below it is alive |
| LifetimeRuns.HeldIsAlive | st-zrt/src/ep_device.rs:51-59 | while anything holds a reference, the object is alive, and so is everything above any living object |
| LifetimeRuns.QuietMeansAllReleased | st-zrt/src/session.rs:2718-2728 | once nothing is held and no drop is under way, nothing is alive |
| LifetimeRuns.ReleasedExactlyOnce | st-zrt/src/environment.rs:682-687 | then every created object has exactly one release, behind its creation |
| LifetimeRuns.LoggerOutlivesEnv | st-zrt/src/environment.rs:116-142 | the logger box is allocated before its environment is created and freed after it is released |
| LifetimeRuns.GivingShrinks | st-zrt/src/environment.rs:682-687 | every step that gives something up lowers the weight of the state |
| LifetimeRuns.Drain | st-zrt/src/environment.rs:682-687 | giving things up in whatever order is bounded in length, and where it cannot go on nothing is held |
| Devices.Runtime.GetEpDevices | st-zrt/src/ep_device.rs:26-49 | all reported devices with their environment, or an error on a null pointer |
| Devices.Runtime.HardwareDevices | st-zrt/src/hardware.rs:18-41 | the same for hardware devices |
| Devices.Runtime.Device | st-zrt/src/ep_device.rs:72-77 | the hardware below a device belongs to the device's environment |
| Devices.Runtime.CreateSharedAllocator | st-zrt/src/environment.rs:581-604 | a foreign device is refused before any native call |
| Devices.Runtime.ReleaseSharedAllocator | st-zrt/src/environment.rs:627-643 | the same for the release |
| Devices.Runtime.IncompatibilityDetails | st-zrt/src/hardware.rs:167-191 | the same for hardware devices, then the name check |
| Devices.Runtime.AppendDevices | st-zrt/src/ep.rs:1127-1164 | queueing succeeds if and only if options are readable and all devices share environment and provider; else the first complaint |
| Devices.Runtime.AppendAuthored | st-zrt/src/ep.rs:1181-1196 | authored devices are queued without an environment |
| Devices.StopIsFirst | st-zrt/src/ep_device.rs:329-357 | the stopping point is the first foreign or refused attach |
| Devices.Runtime.ApplyDeviceAttach | st-zrt/src/ep_device.rs:329-357 | stopping at item i has applied exactly items 0..i; a foreign item never reaches the engine |
| Devices.Runtime.BuildSessionOptions | st-zrt/src/session.rs:3089-3106 | after the stream guards are validated, the handle holds the whole queue, or is released with the error of the first item that failed; which calls were made |
| Devices.ComplaintIff | st-zrt/src/compat.rs:113-128 | no complaint if and only if one environment and one provider |
| Devices.VerdictReadBack | st-zrt/src/compat.rs:31-53 | every verdict is read from its own number, any other number is an error naming it, and exactly 1 and 2 mean supported |
| Devices.ComplaintIsFirst | st-zrt/src/compat.rs:113-128 | the complaint is about the first device that does not fit: its environment, else its unreadable name, else its provider |
| Devices.Runtime.CompatibilityForEpDevices | st-zrt/src/compat.rs:104-143 | the query goes out exactly for one environment, one provider and a readable info string; else the first complaint; the answer `Code(v)` yields the verdict v, any other an error |
| Devices.ServeAll | st-zrt/src/ep_device.rs:329-357 | over any sequence of requests every native call pairs devices only with the environment that discovered them, as the answer to one of these requests |
| Archive.OutDir.HashFile | st-zrt-sys/build.rs:235-250 | the read loop digests the whole file, or fails exactly when a read does |
| Archive.OutDir.DownloadOnce | st-zrt-sys/build.rs:165-190 | success means the `.part` holds the whole response; an attempt fails exactly when one of its steps does |
| Archive.OutDir.Commit | st-zrt-sys/build.rs:200-215 | the archive appears only as the renamed `.part` of the attempt that just finished |
| Archive.OutDir.DownloadWithRetries | st-zrt-sys/build.rs:195-232 | the archive is what a request was answered with; failure means that three attempts failed, or that the finished one could not be renamed; a `.part` is left if and only if its last removal failed |
| Archive.OutDir.AcquireVerifiedArchive | st-zrt-sys/build.rs:257-282 | success means the pinned digest; a mismatching cached archive is discarded first and refetched once; failure needs a failed step or a response with another digest; however it ends, the archive stayed, went, or was renamed into place |
| Archive.OutDir.RemoveTree | st-zrt-sys/build.rs:388-390 | an interrupted removal never leaves a directory that the marker vouches for |
| Archive.OutDir.WriteFile | st-zrt-sys/build.rs:285-293 | a file is written in pieces; a kill in between leaves it short, at a path of the archive |
| Archive.OutDir.Extract | st-zrt-sys/build.rs:285-293 | unpacking over leftovers, half-written files included, ends in a complete extraction |
| Archive.OutDir.RenameStaging | st-zrt-sys/build.rs:393-395 | the linked directory appears complete or not at all |
| Archive.OutDir.Install | st-zrt-sys/build.rs:388-396 | from a verified archive to the complete, marked directory, touching neither archive nor `.part`; failure needs a failed step |
| Archive.OutDir.Provide | st-zrt-sys/build.rs:373-399 | the directory handed on is the complete extraction of an archive with the pinned digest; the archive changes only by removal or rename |
| Archive.OutDir.Link | st-zrt-sys/build.rs:402-428 | linking needs `lib/` and changes nothing, or adds the unversioned link to one of the versioned files; it fails for no other reason than a failed step or a missing library |
| Archive.OutDir.Build | st-zrt-sys/build.rs:373-428 | the same for a whole build from any directory an earlier one left; the reasons for which it may fail; exactly when a `.part` stays, and how the archive may change |
| Archive.Builds | st-zrt-sys/build.rs:373-428 | over any number of interrupted builds, with interference, every linked directory is complete and verified, and exactly the archive's content if no other archive has the digest |
| Archive.Recovers | st-zrt-sys/build.rs:373-428 | whatever was left behind, once no step fails and the pinned archive is served a build succeeds, marked and linkable; the next one fetches and unpacks nothing |
| Archive.UnpackCompletes | st-zrt-sys/build.rs:285-293 | a verified archive unpacked over leftovers with any content gives a complete tree |
| Archive.LastEntryStays | st-zrt-sys/build.rs:285-293 | of several entries with one path the last one stays |
| Archive.UniquePinMeansExact | st-zrt-sys/build.rs:373-399 | if one archive has the pinned digest, the directory is exactly its extraction plus the added link |
| Archive.GuardRightIff | st-zrt-sys/build.rs:382-384 | the guard is right about a directory that lost files if and only if the marker or `lib/` went too or no archive file is missing |
| Archive.TamperedIsSafe | st-zrt-sys/build.rs:382-384 | the interference allowed between builds never makes the guard wrong |
| Archive.StalePartStays | st-zrt-sys/build.rs:257-268 | a `.part` beside a cached verified archive outlives the build |
| Archive.PartialDirectoryBelieved | st-zrt-sys/build.rs:382-384 | a complete directory that lost a file but kept `lib/` passes the guard although it is incomplete |
| Spool.Directory.TryName | st-zrt/src/model_spool.rs:56-89 | a file is created only where none exists; a taken name costs one try |
| Spool.Directory.Write | st-zrt/src/model_spool.rs:70-76 | the finished file holds exactly the bytes |
| Spool.Directory.Finish | st-zrt/src/model_spool.rs:40-45 | only the call's own file is removed |
| Spool.Directory.Elsewhere | st-zrt/src/model_spool.rs:52-91 | other programs may do anything to any file; exactly the calls whose file they touch are disturbed |
| Spool.Directory.OwnPath | st-zrt/src/model_spool.rs:55-63 | while fewer than 2^64 calls began no two live calls share a path, whatever other programs remove |
| Spool.Directory.Step | st-zrt/src/model_spool.rs:52-91 | a step of one call changes no other call and no existing file but its own, and disturbs no other call until the counter goes round |
| Spool.Directory.Meanwhile | st-zrt/src/model_spool.rs:52-91 | any interleaving leaves a call where it is, and its file unless another program touches it |
| Spool.Directory.Search | st-zrt/src/model_spool.rs:56-89 | the search ends only with a created file, a refusal, or 32 names that existed when tried |
| Spool.Directory.SpoolModelBytes | st-zrt/src/model_spool.rs:52-91 | a whole call under interference: at most 32 names, each further one because the one before existed; success if and only if the last one did not exist, was not refused and writing did not fail, else the error of that step; a file of its own that was new when made, with exactly the bytes unless another program touched it |
| Spool.SpoolNamesDiffer | st-zrt/src/model_spool.rs:57-63 | names agree only for the same process, counter value and time |
| Poller.FirstFailure | st-zrt/src/cuda_rt.rs:335-345 | the first event whose own query fails |
| Poller.Thread.EnsureDeviceActive | st-zrt/src/cuda_rt.rs:493-500 | the device is current on success, unchanged on failure |
| Poller.Thread.IsComplete | st-zrt/src/cuda_rt.rs:330-333 | one event on its own |
| Poller.CompletionPoller.Query | st-zrt/src/cuda_rt.rs:451-472 | each slot is its event's own answer; refused batches write nothing; a failure at k leaves slots from k on |
| Stats.DiffIsChange | st-zrt/src/allocator.rs:55-81 | looking a key up in the difference gives the counter's change, with unique keys |
| Stats.DiffInOrder | st-zrt/src/allocator.rs:55-68 | duplicates or not: the difference lists the changed integer counters in the order of the first snapshot, each with its change |
| Stats.GetIsFirst | st-zrt/src/allocator.rs:48-52 | a key that is there several times counts as its first entry |
| Stats.SwapNegates | st-zrt/src/allocator.rs:55-81 | swapping the snapshots negates every change |
| Stats.Telescope | st-zrt/src/allocator.rs:55-81 | successive differences sum to the difference of first and last |
| Stats.Conservation | st-zrt/src/allocator.rs:55-68 | the whole change of a counter is the visible part plus the part lost while it is missing |
| Stats.TelescopeIff | st-zrt/src/allocator.rs:55-81 | the differences sum to first against last if and only if nothing is lost on balance |
| Stats.GapBreaksTheSum | st-zrt/src/allocator.rs:55-68 | a counter missing in between breaks the sum |

## Left out

- The table of known base types (`codegen/src/main.rs:422-502`) is a parameter `tab`; only the `Ort` rule and the default are fixed. The fixed header, type and title texts of the emitted file are parameters too.
- The Unicode notion of an alphanumeric character is a parameter `word`; the closure results need that it accepts ASCII letters, digits and `_` and rejects the template's separators.
- Byte offsets: text is a sequence of characters, and positions are character positions; the 32-bit width of the parenthesis depth is not modelled.
- The replacement of `_Bool` by `bool`, argument handling, `gcc -E`, and the printed report of the generator.
- Multi-word bases and callbacks nested in callbacks are outside the written syntax; the parser functions are total and treat them as the code does, but no meaning is claimed.
- Parameters of a callback have no array declarators in the written syntax: inside a callback the code drops the pointer level of an array.
- A meaning is claimed for at most one array declarator; with several the code adds a level for each, which is not what C means by a multi-dimensional array.
- `to_pascal` is neither injective nor idempotent; only its text is proved (`PascalSpelled`).
- The lifetime protocol is a state machine on values: objects, counts and calls are explicit, memory addresses are not. Threading options, prepacked weights, initializers and CUDA streams held by sessions, and the transfer of an allocator's session guard into a value, are not modelled; neither is the process-wide logger of the engine, which a later environment cannot replace.
- `Allocator::stats` and the release of its native pairs on a decoding error.
- Queued device attaches also retain their environment; in the lifetime model they are ordinary environment references.
- HTTP, gzip, tar and SHA-256 are functions or arbitrary outcomes; reordering of writes by a power failure is not modelled, only stopping between steps.
- One release asset in one output directory: sharing a directory between versions or targets is not modelled. The prebuilt-library branch and the CUDA library search are not modelled.
- Archive.OutDir.Link: does not say which of several versioned files the link points to, because the directory order is arbitrary.
- Spool.Directory.Meanwhile: distinct paths are proved within one process; another process with the same id, counter value and time is another program here.
- Stats.Telescope: integers are unbounded, so overflow of the 128-bit subtraction is not modelled; parsing of a counter is a parameter.
- CUDA and ONNX Runtime themselves: an event query is a result code, a native call is a trace entry with an arbitrary answer.
- Generated tables, enums, custom operators, diagnostics, lanes, shape buckets and the benchmarks: thin wrappers over native calls and measurement code, without decisions of their own.
