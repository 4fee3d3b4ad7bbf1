# robo-bump: the version value and the bump task, in Dafny

robo-bump is a Robo task that bumps version numbers written inside files. This
project models its two pieces of pure logic and proves their laws.

- **`Version`** (src/Version.php) is a restricted dialect of Semantic Versioning 2.0.0:
  - `major.minor.patch`;
  - an optional pre-release stage (`dev`, `rc`, `beta`, `alpha`, with `a`/`b` as shorthands) and its counter;
  - an optional build number;
  - a flag that decides whether a counter of 1 is printed.

  `fromString` finds the leftmost match of the version pattern in a text. `__toString`
  renders a value. `__call` dispatches the modifiers, and `stable()` and `dev()` change
  the stage. Every modifier works on a clone, so each one is modelled as a pure function.
- **The `Bump` task** (src/Task/Bump.php):
  - records the calls whose names are in `POSSIBLE_CALLS`;
  - `bump` turns one version text into the new one, either the fixed target or the
    recorded calls replayed on the parsed version;
  - `bumpVersionInString` replaces every version in a span of text.

Modules, in dependency order:

| file | module | contents |
|---|---|---|
| results.dfy | `Results` | `Option`, `Result` with `:-` |
| numerals.dfy | `Numerals` | digit runs; `%d` rendering (`IntToString`); PHP's `(int)` on a string (`IntCast`) |
| version_regex.dfy | `VersionRegex` | the version pattern as a deterministic matcher (`NumbersAt`, `MatchAt`, `Find`, `GroupsOf`), and how a match reads inside a window of the text |
| version.dfy | `Versions` | the `Version` record; `importPre`, `expandPreShorthand`, the constructor, `fromString`, `__toString`; the modifiers as `Op`, with `Resolve` for the names `__call` accepts |
| round_trip.dfy | `RoundTrip` | `fromString(__toString(v))` |
| import_laws.dfy | `ImportLaws` | laws of `strtolower`, `expandPreShorthand` and `importPre`: a stage token read by its word and its counter digits |
| version_laws.dfy | `VersionLaws` | round-trip corollaries, when parsing fails, floor and undo laws, stage laws, the accepted names, and the scenarios of test/VersionTest.php |
| bump_task.dfy | `BumpTask` | call recording, replay, `bump`, `bumpVersionInString`, and the scenarios of test/Task/BumpTest.php |

Some behaviours read straight off the code and are pinned down here:

- A null pre-release counter prints as nothing. It counts as 0 for `+1` and as at most 1 for the decrease floor.
- `decrease…` names are read with `lcfirst`, so `decreasemajor` is accepted as well as `decreaseMajor`: eighteen names in all.
- `bump` tests its fixed target with PHP truthiness. A target of `"0"` or `""` counts as unset, and the recorded calls are replayed.
- The round trip does not hold for `dev()`. It renders `1.0.0-dev`, which reads back with counter 1 and renders as `1.0.0-dev1` (`VersionLaws.DevDoesNotRoundTrip`). The general law is stated up to what rendering drops (`RoundTrip.Normalize`).

## Model

| member | source | states |
|---|---|---|
| Numerals.IntCast | src/Version.php:103-107 | the integer cast of a digit string is the number the digits spell |
| Numerals.IntCastRoundTrip | src/Version.php:130 | the cast reads back every integer that `%d` prints, signs included |
| Numerals.NatToStringRoundTrip | src/Version.php:130 | the digits printed for a natural number spell that number |
| Numerals.DigitRunDigits | src/Version.php:44 | every character of a maximal `\d+` run is a digit |
| VersionRegex.StageWordEndFirstFit | src/Version.php:44 | the stage word read is the first of dev, beta, b, alpha, a, rc, in that written order and ignoring case, that is spelled at the position, and none is read exactly when none is spelled there |
| VersionRegex.PreEnd | src/Version.php:44 | the optional `-stage` part is either absent or holds at least one character after the dash |
| VersionRegex.LineEnd | src/Version.php:44 | `.+` of the build part stops at the first line break or at the end |
| VersionRegex.BuildEnd | src/Version.php:44 | the optional `+build` part is absent or non-empty |
| VersionRegex.NumbersAt | src/Version.php:44 | the three numbers found at a position are non-empty ordered spans inside the text, with a dot after each of the first two and no digit right after the third |
| VersionRegex.NumbersAtDigits | src/Version.php:44 | the three numbers are all digits, each the maximal digit run starting where it starts |
| VersionRegex.MatchAt | src/Version.php:44 | the anchored pattern matches exactly where the three numbers do, with every group inside the text |
| VersionRegex.Find | src/Version.php:119 | the result is the leftmost match at or after the start, and there is none exactly when no position holds the three numbers |
| VersionRegex.MatchAtWindowSame | src/Version.php:44 | a match that fits inside a window reads the same from within the window, shifted |
| VersionRegex.GroupsOfWindow | src/Version.php:119 | the capture groups of a match are the same text when read from a window around it |
| VersionRegex.CapturesShape | src/Version.php:119-125 | groups 1-3 are digit strings and group 4 has the stage grammar's shape |
| ImportLaws.LowerStringLaws | src/Version.php:287 | `strtolower` changes exactly the upper-case ASCII letters, leaves none behind, and changes nothing when applied twice |
| ImportLaws.ExpandShorthandLaws | src/Version.php:301-312 | expanding ignores case and settles after one step; a stage word becomes a stage name with the same first letter, and only the one-letter words `a` and `b` change |
| ImportLaws.SplitLoweredToken | src/Version.php:291-296 | on a lower-cased stage token the split gives the stage word and, when any follow, the counter digits (the dot before them dropped); without digits the whole token stays the name |
| ImportLaws.ImportPreParts | src/Version.php:281-299 | a stage token imports as the stage its word names, lower-cased and expanded, with the counter its digits spell, or 1 when there are none |
| ImportLaws.ImportPreIgnoresCase | src/Version.php:287 | a token and its lower-cased form are both tokens and import the same |
| ImportLaws.ImportPreDotOptional | src/Version.php:291 | a stage word with a dot before its counter digits imports the same as without the dot |
| ImportLaws.ImportPreShorthand | src/Version.php:298-312 | `a` or `b` in either case, followed by any counter digits, imports as `alpha` or `beta` followed by the same digits |
| Versions.ImportPre | src/Version.php:281-299 | an empty token leaves no stage and a null counter; any token sets a stage and a counter that is never negative |
| Versions.Captured | src/Version.php:123-125 | the version built from a match's groups has non-negative numbers, the flag on, and a counter exactly when it has a stage |
| Versions.FromString | src/Version.php:117-126 | parsing fails exactly when the text holds no version, and then with the text in the error; a parsed value has non-negative numbers and a counter exactly with a stage |
| Versions.Increase | src/Version.php:221-235 | the target goes up by one; major zeroes minor and patch, minor zeroes patch, and all three clear the stage and counter; nothing else changes |
| Versions.Decrease | src/Version.php:207-244 | the target goes down by one but not below 0 (the counter not below 1), judged by the old value, with the same cascade |
| Versions.EnterPre | src/Version.php:194-204 | at the same stage the counter becomes the argument or old+1; otherwise the stage switches and the counter becomes the argument or 1; numbers, build and flag stay |
| Versions.Stable | src/Version.php:249-255 | the stage and counter are cleared and every other part is kept |
| Versions.ToDevStage | src/Version.php:257-263 | the stage becomes dev with a null counter and every other part is kept |
| Versions.Resolve | src/Version.php:194-219 | an unknown name fails with that name in the error |
| Versions.Call | src/Version.php:188-247 | a call fails exactly when its name is not resolved |
| RoundTrip.ImportRenderedPre | src/Version.php:281-299 | a stage name followed by its digits imports as that stage with that counter, or with 1 when no digits follow |
| RoundTrip.LayoutOf | src/Version.php:128-145 | `__toString` writes the three numbers, `-stage` plus the counter when it is shown, and `+build` when the build is not 0 |
| RoundTrip.LaidMatch | src/Version.php:44 | in a rendered text the pattern matches at 0 and covers exactly the rendered pieces |
| RoundTrip.ParseLaid | src/Version.php:117-126 | a text laid out as rendered parses to the numbers, stage, counter (1 when absent) and build it spells |
| RoundTrip.RenderParse | src/Version.php:117-145 | parsing a rendering gives the value back up to the dropped parts: a hidden counter comes back as 1, no counter without a stage, the flag on |
| VersionLaws.RenderParseExact | src/Version.php:117-145 | a canonical value (counter present exactly with a stage, at least 1) comes back whole, the flag at its default |
| VersionLaws.ReparseSettles | src/Version.php:117-145 | after one parse of a rendering, rendering and parsing again changes nothing |
| VersionLaws.DevDoesNotRoundTrip | src/Version.php:257-263 | `dev()` on 1.0.0 renders as 1.0.0-dev, which reads back with counter 1 and renders as 1.0.0-dev1 |
| VersionLaws.NumbersAtIffDotTriple | src/Version.php:44 | the three numbers start at a position exactly when digits-dot-digits-dot-digit are written there |
| VersionLaws.ParseFailsIff | src/Version.php:117-121 | parsing fails exactly when the text contains no `digits.digits.digits` substring |
| VersionLaws.FindFirst | src/Version.php:119 | the first position holding the three numbers is where the match is found |
| VersionLaws.ParseWindow | src/Version.php:117-126 | a match cut out of a larger text parses to the same version the larger text's match captures |
| VersionLaws.ParseSkipsPrefix | src/Version.php:117-126 | dropping a prefix that holds no version does not change the parse |
| VersionLaws.LeadingV | src/Version.php:119 | a leading `v` is skipped |
| VersionLaws.ScenarioLeadingV | src/Version.php:117-126 | "v1.0.0" parses as 1.0.0 |
| VersionLaws.NoDigitNoVersion | src/Version.php:119-121 | a text without digits fails to parse |
| VersionLaws.ScenarioParseFails | test/VersionTest.php:45-48 | "dev-fff" fails to parse |
| VersionLaws.DecreaseIsFloored | src/Version.php:237-244 | a decrease is the step down bounded by the floor: 1 for the counter, 0 otherwise |
| VersionLaws.DecreaseTimesFloor | src/Version.php:237-244 | n decreases in a row give the old value minus n, bounded by the floor |
| VersionLaws.DecreaseReachesFloor | src/Version.php:237-244 | enough decreases reach the floor and stay there |
| VersionLaws.DecreaseUndoesIncrease | src/Version.php:221-244 | a decrease after an increase gives the value back, up to the cascade's resets |
| VersionLaws.IncreaseUndoesDecrease | src/Version.php:221-244 | above the floor, an increase after a decrease gives the value back, up to the cascade's resets |
| VersionLaws.StepsOrderCore | src/Version.php:221-235 | increasing major, minor or patch raises the version's precedence, decreasing one above 0 lowers it, and counter and build steps leave the numbers alone |
| VersionLaws.StableLaws | src/Version.php:249-263 | `stable()` is idempotent and forgets any earlier stage change or `dev()` |
| VersionLaws.ResetIsStable | src/Version.php:232-235 | after a major, minor or patch step the version is already stable |
| VersionLaws.EnterPreTimesCounts | src/Version.php:194-204 | calling the same stage n times counts the counter up by n, or from 1 when coming from another stage |
| VersionLaws.EnterPreWithArgument | src/Version.php:196-200 | a stage call with an argument sets the counter to it and is idempotent |
| VersionLaws.LcFirstInverse | src/Version.php:208 | `lcfirst` maps only a name and its capitalised form to a lower-case name |
| VersionLaws.LcFirstTarget | src/Version.php:208-215 | the remainder after "decrease" names a target exactly when it is a target name in either first-letter case |
| VersionLaws.ResolveAcceptsExactly | src/Version.php:194-219 | `__call` accepts exactly the eighteen names (three stages, five targets, "decrease" plus a target in either case) and fails on every other name |
| VersionLaws.ResolveOpName | src/Version.php:194-219 | every increase, decrease and stage operation is what its own method name resolves to |
| VersionLaws.ScenarioFromString | test/VersionTest.php:10-21 | "1.2.3-beta4+567" parses as 1, 2, 3, beta, 4, 567 |
| VersionLaws.ScenarioShorthandB | test/VersionTest.php:37 | `new Version(1, 0, 0, 'b')` renders as 1.0.0-beta1 |
| VersionLaws.ScenarioShorthandA | test/VersionTest.php:38 | `new Version(1, 0, 0, 'a')` renders as 1.0.0-alpha1 |
| VersionLaws.ScenarioMajor | test/VersionTest.php:52 | 1.2.0 `major()` renders as 2.0.0 |
| VersionLaws.ScenarioMinor | test/VersionTest.php:53 | 2.0.1 `minor()` renders as 2.1.0 |
| VersionLaws.ScenarioDecreaseMajor | test/VersionTest.php:54 | 1.1.1 `decreaseMajor()` renders as 0.0.0 |
| VersionLaws.ScenarioPreVersion | test/VersionTest.php:55 | 1.0.0-beta `preVersion()` renders as 1.0.0-beta2 |
| VersionLaws.ScenarioDecreasePatch | test/VersionTest.php:56 | 1.0.0 `decreasePatch()` stays 1.0.0 |
| VersionLaws.ScenarioDecreasePreVersion | test/VersionTest.php:57 | 1.0.0-beta1 `decreasePreVersion()` stays 1.0.0-beta1 |
| VersionLaws.ScenarioBuild | test/VersionTest.php:58 | build 1 `build()` renders as 1.0.0+2 |
| VersionLaws.ScenarioUnknownName | test/VersionTest.php:65-68 | `foo()` fails as an unsupported operation |
| VersionLaws.ScenarioRcFromBeta | test/VersionTest.php:72 | 1.0.0-beta2 `rc()` renders as 1.0.0-rc1 |
| VersionLaws.ScenarioRcAgain | test/VersionTest.php:73 | 1.0.0-rc `rc()` renders as 1.0.0-rc2 |
| VersionLaws.ScenarioBetaArgument | test/VersionTest.php:74 | 1.0.0 `beta(4)` renders as 1.0.0-beta4 |
| VersionLaws.ScenarioStable | test/VersionTest.php:75 | 1.0.0-beta2 `stable()` renders as 1.0.0 |
| VersionLaws.ScenarioDev | test/VersionTest.php:76 | 1.0.0 `dev()` renders as 1.0.0-dev |
| VersionLaws.ScenarioFlagOff | test/VersionTest.php:79-86 | with the flag off, rc1 renders as 1.0.0-rc, and `rc()` on it renders as 1.0.0-rc2 |
| BumpTask.Record | src/Task/Bump.php:102-111 | a call is recorded exactly when its name is in `POSSIBLE_CALLS`; it is appended and the target is kept; otherwise it is handed on unchanged |
| BumpTask.RecordAllAppends | src/Task/Bump.php:102-108 | a run of calls appends exactly the recordable ones, in call order; the calls it hands on are not applied here, so the target stays as it was |
| BumpTask.RecordedAreRecordable | src/Task/Bump.php:44-58 | a new task only ever holds recordable calls |
| BumpTask.StableAndDevNotRecorded | src/Task/Bump.php:44-58 | `stable` and `dev` are not recorded |
| BumpTask.RecordableAccepted | src/Task/Bump.php:44-58 | every name in `POSSIBLE_CALLS` is accepted by `Version::__call`, whatever the arguments |
| BumpTask.ReplayRecorded | src/Task/Bump.php:182-187 | replaying recordable calls never fails and applies their operations in recording order |
| BumpTask.Bump | src/Task/Bump.php:176-188 | a truthy target is returned as is without parsing; without one, a text holding no version fails to parse |
| BumpTask.BumpApplies | src/Task/Bump.php:176-188 | without a target, the result is the rendering of the recorded operations applied in order to the parsed version |
| BumpTask.EmptyPipelineRenders | src/Task/Bump.php:182-187 | with no calls and no target, the text comes back in the normal form of what it parses to |
| BumpTask.Pieces | src/Task/Bump.php:165-167 | the walk over a span always ends with the text after the last match |
| BumpTask.PiecesJoin | src/Task/Bump.php:165-167 | the matches and the text between them cover the span exactly, in order |
| BumpTask.PiecesSound | src/Task/Bump.php:165-167 | every piece between matches holds no version, and every match piece is a whole match that parses |
| BumpTask.NoVersionUnchanged | src/Task/Bump.php:163-168 | a span holding no version comes back unchanged |
| BumpTask.SubstituteFixed | src/Task/Bump.php:178-180 | with a truthy target every match is replaced by the target and all other text is kept verbatim |
| BumpTask.SubstituteSame | src/Task/Bump.php:165-167 | when each match maps to itself the span comes back unchanged |
| BumpTask.BumpVersionInStringOk | src/Task/Bump.php:163-168 | rewriting a span with recordable calls never fails |
| BumpTask.SubstituteMap | src/Task/Bump.php:165-167 | when the callback turns every match into `g` of it, the rewrite succeeds, keeps all text between matches verbatim and puts `g` of each match in its place |
| BumpTask.BumpVersionInStringRecorded | src/Task/Bump.php:163-187 | without a target, a span is rewritten match by match: the text between matches is kept, and each match becomes the version it holds with the recorded operations applied in order, rendered |
| BumpTask.ScenarioFixedTarget | test/Task/BumpTest.php:47-65 | with target 1.2.3 the block comment's 1.0.0 becomes 1.2.3 and "Copyright 2011-2016" is untouched |
| BumpTask.ScenarioRelative | test/Task/BumpTest.php:70-88 | `major()->minor()->patch()->rc(2)` turns the comment's 1.0.0 into 2.1.1-rc2 and leaves the rest |
| BumpTask.ScenarioNormalForm | src/Task/Bump.php:182-187 | with no calls, "1.0.0-b" is rewritten as "1.0.0-beta1" |

## Left out

- File handling: `run`, `bumpVersionInFile`, the de-duplication of files and the read/write errors (src/Task/Bump.php:116-157). This is I/O. The model starts from an already-extracted span.
- The context patterns `CONTEXT_BLOCK_COMMENT`, `CONTEXT_LINE_COMMENT` and `CONTEXT_PROPERTY`, and their loop (src/Task/Bump.php:34-36, 142-153). These are the regions a file's spans are cut from. `bumpVersionInString` is modelled on one span, so the tests that pick a context are not modelled.
- The `DynamicParams` setters (`files`, `context`, `to`), the task constructor and the task factory. They only store values, and `DynamicParams` is not part of this model. The model's `Task` holds `to` and the calls directly, and a call that is not recorded is returned as `Delegated`.
- BumpTask.RecordAll: a delegated call is a no-op here. In the program, `files`, `context` and `to` go on to `dynamicParamAssign` (src/Task/Bump.php:110), which stores their argument, so `->to('1.2.3')` in a chain sets the target. The model promises that the target is unchanged only because it does not apply these setters; a target is given directly in `Task.to`.
- Strings are sequences of characters, while PHP strings are bytes. This makes no difference here: `strtolower`, `[a-z]` and `\d` only read or change ASCII bytes, and every other byte is copied through unchanged.
- The magic accessors `__get` and `__set` (src/Version.php:147-176). The record's fields are read and written directly, so the setter test (test/VersionTest.php:24-33) and the `foo` read (line 20) are not modelled.
- The in-place flag setter `alwaysIncludePreReleaseVersion()` (src/Version.php:270-274). The flag is a field of the record instead.
- Versions.Construct: its inputs are the integers after the `(int)` casts, and its stage text must be empty or have the stage grammar's shape. Arbitrary custom stage strings, which parsing cannot produce, are excluded by that precondition.
- Numerals.IntCast: models the C-style `strtol` reading (blanks, sign, digits). The exponent and fraction forms of later PHP versions and integer overflow are not modelled; integers are unbounded.
- Recorded call arguments are optional integers. Other PHP argument types, and arguments beyond the first (which `__call` ignores), carry no meaning in the model.
- BumpTask.Replay: a stored call named `stable` or `dev` fails as an unsupported operation. In the program, `call_user_func_array` (src/Task/Bump.php:182-187) would run those public methods (src/Version.php:249-263). `__call` never records these two names, and other ways of filling the calls go through `DynamicParams`, which is not part of this model. Replay therefore assumes that every call was recorded.
- Exceptions are modelled as `Err` values (`ParseError`, `UnsupportedOperation`). A thrown exception's message text is not modelled.
