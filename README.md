# Math! formula core, modelled in Dafny

Math! lets a RimWorld player type a formula instead of a number as a
production bill's target count. The formula can contain
- user variables (`"v.name"` / `"variables.name"`), expanded as macros;
- parameters: bare words or quoted dotted paths such as `"colonists.traits.kind"`.

Each parameter is resolved against a per-map snapshot of the player's pawns and
items. The expression is evaluated by an external library, and the result is
turned into an integer.

This project models the logic of that pipeline and proves properties of it:

- `text.dfy` (module `Text`): string splitting, the removal of a word from a
  text, case folding, and small scanners that stand in for the regular
  expressions the source uses.
- `world.dfy` (module `World`): the game objects the core reads, as records:
  pawns, things, maps, bill settings and registries.
- `pawn_filter.dfy` (module `PawnFilters`): the pawn filter.
  - Its predicate and counter tables.
  - The colonist and guest tests.
  - The skill comparison grammar.
  - The class `PawnFilter`, whose `Parse` updates its working set and primed
    modes. `Parse` is proved against the specification function `Step`.
- `cached_map_data.dfy` (module `CachedMap`): the map snapshot `CachedMapData`.
  - The cancellable pawn scan and the one-shot refresh.
  - The dotted-path variable search, proved against the specification `Walk`.
  - The lazily filled item cache with the bill's item filters.
- `math.dfy` (module `Math`):
  - user-variable expansion with its depth limit;
  - parameter extraction with the quote-to-bracket rewrite;
  - the parameter table;
  - `DoMath` with its type check and overflow replacement;
  - the per-map snapshot cache and the log-once sets;
  - the version check.
- `link_settings.dfy` (module `LinkSettings`): the bill dialog's colour
  thresholds and the tri-state check box of the bill-link settings tree. The
  check box state is computed by `CheckState` and set by `ToggleAction`, which
  changes the shared settings in place.

Regular expressions are replaced by scanners that find the same leftmost
matches. The expression evaluator (NCalc) and the filters whose code is not
part of this model are parameters: the `Evaluator` and `Externals` values
hold functions for them.

## Model

| member | source | states |
|---|---|---|
| `Text.JoinSplit` | Source/Math.cs:92-93 | Splitting on a separator loses nothing: joining the pieces with the separator gives back the text. |
| `Text.SplitAtFirst` | Source/Math.cs:92-93 | The first piece ends at the first separator, and the rest is split on its own. |
| `Text.FindFirstOf` | Source/MathFilters/PawnFilter.cs:100-101 | An alternation of literals matches at the leftmost position where any alternative occurs, and there with the first alternative in pattern order. |
| `Text.LeftmostUnique` | Source/MathFilters/PawnFilter.cs:100-101 | The leftmost match of an alternation is unique: its position and its alternative are determined. |
| `Text.FindFirstOfIgnoringCase` | Source/MathFilters/PawnFilter.cs:114-115 | A case-insensitive alternation matches at the leftmost position where some alternative occurs ignoring case, and there with the first such alternative. The matched text equals that alternative up to case. There is no match exactly when no alternative occurs anywhere. |
| `Text.FirstDigitRun` | Source/MathFilters/PawnFilter.cs:99 | `[0-9]+` yields the whole run of digits that starts at the first digit of the text, or no match when the text has no digit. |
| `Text.SplitJoin` | Source/MathFilters/PawnFilter.cs:103-110 | Splitting the alternatives joined by `\|` gives them back, when none contains `\|`. |
| `Text.RemoveAllJoinKeeps` | Source/MathFilters/PawnFilter.cs:125 | Removing a word followed by `\|` from the joined alternatives changes nothing when the word ends no alternative but perhaps the last one. |
| `Text.RemoveAllJoinDrops` | Source/MathFilters/PawnFilter.cs:125 | Removing alternative i followed by `\|`, where i is not the last and ends no other alternative but perhaps the last, drops exactly alternative i. |
| `Text.CloseQuoteFinds` | Source/Math.cs:37-38 | A lazy `.+?"` closes at the first quote, provided no newline comes before it. |
| `PawnFilters.ColonistsAreNeitherGuestsNorCaptives` | Source/MathFilters/PawnFilter.cs:317-338 | The filter's colonists are never guests, prisoners, slaves, animals, colony mechs or ghouls, and guests are never prisoners or slaves. |
| `PawnFilters.CounterMethods` | Source/MathFilters/PawnFilter.cs:58-61 | The counter table holds `bandwidth`, `intake` and every stat label registered at start-up, and each stat label maps to its stat. |
| `PawnFilters.GetBandwidth` | Source/MathFilters/PawnFilter.cs:354-359 | A pawn that is not a mechanitor has bandwidth 0. |
| `PawnFilters.CounterSumRemove` | Source/MathFilters/PawnFilter.cs:269-277 | A counter's total over a working set is one entry's value plus the total over the rest, so it does not depend on the order of visits. |
| `PawnFilters.SumCounter` | Source/MathFilters/PawnFilter.cs:269-277 | The loop over the working set computes the counter's total over every entry. |
| `PawnFilters.FindComparator` | Source/MathFilters/PawnFilter.cs:100-116 | The inclusive pattern is tried first, on the lower-cased segment. When any of `>=`, `gte`, `<=`, `lte` occurs, the comparator is the one its leftmost match stands for, even if a strict token comes earlier. Otherwise it is the one the leftmost match of `>`, `gt`, `<`, `lt`, `==`, `eq` stands for. There is no comparator exactly when no token of either pattern occurs. |
| `PawnFilters.TokenComparator` | Source/MathFilters/PawnFilter.cs:171-178 | A matched comparison text stands for a comparator exactly when it is a token of one of the two patterns. The inclusive comparators come exactly from the inclusive pattern's tokens. The tokens pair as the filter's tests read them: `>`/`gt`, `<`/`lt`, `>=`/`gte`, `<=`/`lte`, `==`/`eq`. |
| `PawnFilters.SkillHit` | Source/MathFilters/PawnFilter.cs:103-121 | The skill pattern matches text equal to a registered label up to case. That text is the command's own text at the leftmost position where a label occurs ignoring case, with the first such label in registration order there. It fails exactly when no label occurs. |
| `PawnFilters.ParseSkillComparison` | Source/MathFilters/PawnFilter.cs:97-161 | A parse succeeds exactly when the segment has a comparator and a skill, a level or a second skill, and both skill texts are registered. The comparator is the segment's. The skill is the first matched text's. A second skill wins over a level. A level is the value of the first run of digits. |
| `PawnFilters.LastLabelComparedWithItself` | Source/MathFilters/PawnFilter.cs:122-126 | When the first skill is the last-registered label, written as registered and ending no other label, the second search finds it again. The skill is compared with itself and the level is ignored: `>` and `<` keep no pawn, and the other comparators keep every colonist. |
| `PawnFilters.InnerLabelIsDropped` | Source/MathFilters/PawnFilter.cs:122-126 | For any other first label, written as registered and ending no other label, the removal drops exactly that label, and the parse is the intended one. |
| `PawnFilters.IntendedNeverSelfCompares` | Source/MathFilters/PawnFilter.cs:122-126 | With the matched label taken out, and labels distinct up to case, a skill is never compared with itself. |
| `PawnFilters.StrictComparisonsExcludeTheBoundary` | Source/MathFilters/PawnFilter.cs:165-187 | A pawn exactly at the level fails `>` and `<`. It passes `>=`, `<=` and `==` exactly when the game counts it as a colonist. |
| `PawnFilters.FilterPawns` | Source/MathFilters/PawnFilter.cs:256-267 | Each narrowing loop builds a new dictionary holding exactly the entries whose pawn passes the test. |
| `PawnFilters.Step` | Source/MathFilters/PawnFilter.cs:76-280 | Parsing keeps at most one primed mode, with counting allowed exactly when none is set. A segment that does not narrow changes nothing. The working set only ever shrinks. |
| `PawnFilters.PrimedSegment` | Source/MathFilters/PawnFilter.cs:79-216 | In a primed mode, an invalid segment is rejected with nothing changed. A valid one narrows the set and clears the mode. |
| `PawnFilters.UnprimedPrecedence` | Source/MathFilters/PawnFilter.cs:218-279 | Outside primed modes the order is: priming keywords, then pawn labels, then filter names, then counters, then rejection. |
| `PawnFilters.StepNarrows` | Source/MathFilters/PawnFilter.cs:63-69 | The working set starts as the snapshot's shared dictionary and is only read: any run of segments leaves a sub-map of it. |
| `PawnFilters.PawnFilter.constructor` | Source/MathFilters/PawnFilter.cs:63-69 | A new filter holds the snapshot's dictionary, with no primed mode, and can count. |
| `PawnFilters.PawnFilter.Parse` | Source/MathFilters/PawnFilter.cs:76-280 | The new fields and the return value are exactly those of `Step` on the old fields. |
| `CachedMap.CancellationToken.IsCancellationRequested` | Source/CachedMapData.cs:34 | Each read is counted, and it reports cancellation exactly from the cancelling read on. |
| `CachedMap.PlayerPawns` | Source/CachedMapData.cs:32 | The scan visits exactly the map's pawns of the player's faction. |
| `CachedMap.IndexLists` | Source/CachedMapData.cs:36-51 | The human list holds exactly the player's quest lodgers, hosted guests, prisoners and slaves. The animal list holds exactly the animals. |
| `CachedMap.IndexDict` | Source/CachedMapData.cs:36-51 | The dictionary's labels are exactly those of indexed pawns, and each label maps to an indexed pawn with that label. |
| `CachedMap.NoIndexedColonists` | Source/CachedMapData.cs:36-51 | Free colonists are never indexed. With prisoners and slaves of the colony flagged consistently, no indexed pawn passes the filter's colonist test. |
| `CachedMap.IntendedIndexesEveryPawn` | Source/CachedMapData.cs:36-51 | If every player pawn is indexed, each pawn whose label no later pawn shares is found under its label, colonists included. |
| `CachedMap.IndexLastWins` | Source/CachedMapData.cs:43-50 | Pawns sharing a label are counted once: the last one indexed is the one kept. |
| `CachedMap.IndexPrefix` | Source/CachedMapData.cs:34 | A scan cut short by cancellation holds part of what a full scan holds. |
| `CachedMap.CachedMapData.constructor` | Source/CachedMapData.cs:28-55 | The snapshot holds the index of the pawns scanned before the token reported cancellation. The token is read once per pawn, plus once more when the scan stops early. |
| `CachedMap.CachedMapData.PerformUpdate` | Source/CachedMapData.cs:67-85 | A destroyed map hands on null unless the token is cancelled. Otherwise a fresh complete snapshot is handed on exactly when no later read reports cancellation. |
| `CachedMap.CachedMapData.RequestUpdate` | Source/CachedMapData.cs:58-65 | Only the first request starts a refresh. Later ones do nothing, and the snapshot's own data never changes. |
| `CachedMap.Head` | Source/CachedMapData.cs:104-146 | The first segment either fails the path or starts a filter. A pawn filter starts from the snapshot's dictionary and parses that same segment. A category, thing-def or loadout keyword (when no earlier reading applies) succeeds exactly when the next segment names a registered category, a registered thing or a loadout. It then consumes both segments and starts that filter; otherwise the whole search fails. |
| `CachedMap.CachedMapData.SearchVariable` | Source/CachedMapData.cs:95-173 | The loop resolves a path exactly as `Walk` does. It reports false with count 0 when `Walk` fails. |
| `CachedMap.HeadOrder` | Source/CachedMapData.cs:106-134 | A thing name wins over every other reading of the first segment. A pawn filter is chosen exactly for a filter name or pawn label that names no thing, category or thing def. |
| `CachedMap.CountEndsWalk` | Source/CachedMapData.cs:149-154 | A segment on which the pawn filter counts ends the search with that count, whatever segments follow. |
| `CachedMap.UnknownHeadFails` | Source/CachedMapData.cs:141-145 | A path whose first segment names no thing, category, thing def, pawn filter, pawn or loadout fails. |
| `CachedMap.ColonistsCount` | Source/CachedMapData.cs:133-135 | `colonists` on its own counts the dictionary entries that pass the filter's colonist test. |
| `CachedMap.BareThingCounts` | Source/CachedMapData.cs:107-111 | A bare thing name is counted by its thing filter without being parsed by it. |
| `CachedMap.SkillNeedsComparatorInSameSegment` | Source/MathFilters/PawnFilter.cs:129-131 | After `skill`, a segment without a comparator fails the path, whatever follows. |
| `CachedMap.DanglingKeywordFails` | Source/CachedMapData.cs:164-172 | A path that ends on a priming keyword cannot count, so it fails. |
| `CachedMap.OfDef` | Source/CachedMapData.cs:186-188 | The things of a definition are exactly the listed things with that definition. |
| `CachedMap.HeldByAllOfDef` | Source/CachedMapData.cs:189-192 | What the pawns hold of a definition is exactly what some pawn equips, wears or carries with that definition. |
| `CachedMap.GatheredOfDef` | Source/CachedMapData.cs:180-196 | A filled cache entry holds only things of the requested definition. |
| `CachedMap.GetThingInPawn` | Source/CachedMapData.cs:248-266 | Returns exactly the equipment, apparel and inventory of that definition, in that order. |
| `CachedMap.CollectHeld` | Source/CachedMapData.cs:189-192 | The loop over free colonists and prisoners concatenates what each one holds of the definition. |
| `CachedMap.Gather` | Source/CachedMapData.cs:180-196 | A cache entry is the map's things of the definition, then what pawns hold, then the RimFactory storage when that support is on. |
| `CachedMap.ChosenIff` | Source/CachedMapData.cs:207-235 | A thing is returned exactly when it is the unpacked form of a cached thing and passes the zone, forbidden, hit-point, quality, tainted and equipped checks. |
| `CachedMap.FullHpRangeAdmitsAll` | Source/CachedMapData.cs:211-213 | The full 0-100 % hit-point range admits every thing with valid hit points. |
| `CachedMap.SelectThings` | Source/CachedMapData.cs:201-238 | The filtering loop returns the chosen things in cache order, or nothing when the recipe produces no thing. |
| `CachedMap.CachedMapData.GetThings` | Source/CachedMapData.cs:175-239 | The first call for a name fills its cache entry and later calls reuse it. The result is that entry filtered by the bill. |
| `Math.SplitVersion` | Source/Math.cs:32 | The mod's version splits into the parts 1, 4 and 3. |
| `Math.IsNewImportantVersionCases` | Source/Math.cs:91-95 | The check answers "not new" exactly when the first three parts equal the mod's. It throws exactly when the text is a cut-off prefix of the version. |
| `Math.ShortVersionThrows` | Source/Math.cs:91-95 | "1.4" makes the check read a third part that is not there. |
| `Math.IsNewImportantVersionTotalAgrees` | Source/Math.cs:91-95 | The corrected check agrees with the original wherever the original answers, and reports "new" where it throws. |
| `Math.RefAt` | Source/Math.cs:37 | A variable reference is a quoted `v.` or `variables.` prefix, a non-empty name without a newline, and a closing quote. The name is the text between prefix and quote, and only its first character can be a quote. |
| `Math.FindVarRefFound` | Source/Math.cs:37 | The search from a position returns a reference that really starts where it says. |
| `Math.FindVarRefLeftmost` | Source/Math.cs:37 | No reference starts between the search position and the reference found. When none is found, none starts at all. |
| `Math.SpliceParts` | Source/Math.cs:273 | Replacing a span keeps the text before it and the text after it. |
| `Math.ExpandAtUnregistered` | Source/Math.cs:263-266 | A reference to an unregistered name makes the expansion fail. |
| `Math.ExpandAtInnerFails` | Source/Math.cs:270-271 | A failure inside a referenced variable makes the whole expansion fail the same way. |
| `Math.ExpandAtContinues` | Source/Math.cs:272-276 | After a substitution the scan goes on in the new text, from just past the inserted equation. |
| `Math.ExpandAtSubstitutes` | Source/Math.cs:272-276 | The reference is replaced by the expanded equation in parentheses. Scanning resumes just past the inserted text. |
| `Math.ParseUserVariables` | Source/Math.cs:258-280 | The loop computes exactly the expansion that `Expand` specifies. |
| `Math.NoReferencesUnchanged` | Source/Math.cs:261-279 | Text without references expands to itself. |
| `Math.UnregisteredReferenceFails` | Source/Math.cs:263-266 | An unregistered first reference makes the expansion fail. |
| `Math.SelfReferenceHitsLimit` | Source/Math.cs:259-260 | A variable whose first reference is itself always reaches the depth limit of 5. |
| `Math.ShortRefIsFound` | Source/Math.cs:37 | `"v.name"` is found as a reference to `name` covering the whole text. |
| `Math.SelfReferenceFails` | Source/Math.cs:259-260 | A variable defined as a reference to itself expands to the recursion failure. |
| `Math.LoneReferenceIsParenthesised` | Source/Math.cs:272-273 | A lone reference to a reference-free variable expands to that variable's equation in parentheses. |
| `Math.ParamAt` | Source/Math.cs:38 | A parameter match is either a quote, at least one character without a newline, and the first following quote, or a run of letters and digits. The inner text of a quoted match has no newline, and only its first character can be a quote. |
| `Math.BareWordIsAlnum` | Source/Math.cs:38 | A bare parameter holds only letters and digits and is as long as possible. |
| `Math.NextParamFound` | Source/Math.cs:38 | The next match from a position starts where it says. |
| `Math.NextParamLeftmost` | Source/Math.cs:38 | No match starts between the search position and the match found. |
| `Math.Params` | Source/Math.cs:185 | The matches are well formed, fit the text, and come in increasing non-overlapping order. |
| `Math.RewriteChangesOnlyQuotes` | Source/Math.cs:196-199 | The rewrite changes only quote characters, each into `[` or `]`, and touches nothing before the first match. |
| `Math.RewriteBracketsQuoted` | Source/Math.cs:196-199 | Every quoted match gets `[` at its first position and `]` at its last, with the same length. |
| `Math.ExtractParameters` | Source/Math.cs:185-203 | The loop returns the rewritten equation and the parameter names in match order: bare words verbatim, quoted parameters by their inner text. |
| `Math.ParamTableIff` | Source/Math.cs:289-293 | The parameter table holds exactly the names whose path resolves, each with its count. |
| `Math.AddParameters` | Source/Math.cs:282-294 | With a snapshot, the loop builds exactly that table. Without one, no parameter is set. |
| `Math.ToInt32Clamps` | Source/Math.cs:223-230 | A result in the int range is kept. A result that overflows the conversion becomes 999999. |
| `Math.Evaluation` | Source/Math.cs:172-232 | A value is produced only for a non-empty equation, and it always lies in the int range. |
| `Math.FailedExpansionFails` | Source/Math.cs:176-183 | An equation whose variables cannot be expanded, including infinite recursion, never yields a value. |
| `Math.SelfReferentialEquationFails` | Source/Math.cs:176-183 | An equation that references a self-referential variable never yields a value. |
| `Math.OverflowStillSucceeds` | Source/Math.cs:218-231 | An accepted result that cannot be converted still succeeds, with 999999. |
| `Math.DoMath` | Source/Math.cs:172-232 | Reports success exactly when the evaluation yields a value, and stores that value. On failure `result` keeps its old value. |
| `Math.DoMathInField` | Source/Math.cs:163-169 | The field's value changes only on success, and then to the evaluated value. |
| `Math.MessageAndExceptionIdentity` | Source/ExceptionIdentifier.cs:21-40 | A message and an exception count as the same problem exactly when the exception has that message, empty stack trace and source, and HResult -1. |
| `Math.StaticState.ClearCacheMaps` | Source/Math.cs:159-161 | Clearing forgets every snapshot. |
| `Math.StaticState.GetCachedMap` | Source/Math.cs:246-256 | Get-or-create: no map gives null. A known map gives its stored snapshot. A new map gets a complete fresh snapshot, which is stored. |
| `Math.StaticState.GetCachedMapOfBill` | Source/Math.cs:234-244 | No bill, no map, or a map access that throws gives null. A destroyed new map gives null without storing anything. |
| `Math.StaticState.TryLogException` | Source/Math.cs:306-313 | An exception is logged only the first time its identifier is seen, and it is remembered. |
| `Math.StaticState.TryLogErrorMessage` | Source/Math.cs:320-327 | A message is logged only the first time its identifier is seen, and it is remembered. |
| `LinkSettings.Doubled` | Source/Dialogs/Dialog_MathBillConfig.cs:381 | `2 * needed` is an `int`: it agrees with twice the need modulo 2^32 and lies in the `int` range. |
| `LinkSettings.BandOf` | Source/Dialogs/Dialog_MathBillConfig.cs:381 | The band is missing when got < 1, short when 1 ≤ got < needed, covered when needed ≤ got < `2 * needed` in `int` arithmetic, and plenty otherwise. |
| `LinkSettings.CoveredUpToTwiceNeeded` | Source/Dialogs/Dialog_MathBillConfig.cs:381 | For a need of at most 2^30 - 1 the covered band ends at exactly twice the need. |
| `LinkSettings.HugeNeedSkipsCovered` | Source/Dialogs/Dialog_MathBillConfig.cs:381 | From a need of 2^30 on, the doubling wraps negative: no count is covered, and every count that meets the need is plenty. |
| `LinkSettings.MakeColor` | Source/Dialogs/Dialog_MathBillConfig.cs:381 | The tag is `<color=#` followed by the band's colour and `>`. |
| `LinkSettings.HexInjective` | Source/Dialogs/Dialog_MathBillConfig.cs:381 | The four colours are distinct. |
| `LinkSettings.BandMonotone` | Source/Dialogs/Dialog_MathBillConfig.cs:381 | Having more never shows a worse colour. |
| `LinkSettings.MakeColorSameBand` | Source/Dialogs/Dialog_MathBillConfig.cs:381 | Two counts get the same tag exactly when they fall in the same band. |
| `LinkSettings.CheckState` | Source/Dialogs/Dialog_MathBillConfig.cs:941-967 | The in-order scan with its early returns always agrees with the order-free `State`. Any Partial child category, or an on child together with an off child, gives Partial. Some on and none off gives On. Everything else gives Off, including a category with no link or category children. |
| `LinkSettings.AllDisabledIsOff` | Source/Dialogs/Dialog_MathBillConfig.cs:941-967 | A subtree with no enabled setting shows Off. |
| `LinkSettings.AllEnabledIsOn` | Source/Dialogs/Dialog_MathBillConfig.cs:941-967 | A subtree whose settings are all enabled, and whose every category has a reporting child, shows On. |
| `LinkSettings.ToggleAction` | Source/Dialogs/Dialog_MathBillConfig.cs:931-939 | Every setting in the subtree, nested categories included, gets the new state, and nothing else changes. Afterwards the box shows Off after turning off. It shows On after turning on when every setting fits its parent and every category has a reporting child. |

## Left out

- Drawing: the dialog's rendering, the widgets, the window lifecycle and the tree's construction are not modelled. So are Harmony patching, the start-up registry indexing and mod detection. The registries are inputs (`Registry`, `PawnRegistry`).
- Floating point: counts, stat values, intake, hit-point fractions and the evaluator's result are integers. The double conversion in `DoMath` is modelled only as "in range → value, otherwise 999999", and its rounding is not modelled.
- `PawnFilters.GetIntake`: the intake is read from a field. The parsing of the game's explanation text is not modelled.
- `int.Parse` of a skill level is unbounded. The OverflowException it throws above 2^31 - 1 is not modelled.
- Regular expressions: the scanners reproduce the leftmost matches of the patterns the core uses. The skill alternation is built by `CreateTrimmedString`, which is not part of this model. It is modelled as the registered skill labels joined by `|` in registry order.
- `PawnFilters.SecondSkillLabels`: the source removes the matched text followed by `|` from the whole pattern, parentheses included. The model removes it from the joined labels only. The two agree for labels without parentheses, and labels are matched as literal text: a label holding any other regular-expression metacharacter is not modelled.
- `Text.Lower`: only ASCII letters are folded. `ToLower()` and `(?i)` also fold other letters, as in translated skill labels; that folding is not modelled.
- NCalc (`HasErrors`, `Evaluate`), `ThingFilter`, `CategoryFilter`, `ThingDefFilter`, the Compositable Loadouts filter and the RimFactory storage are functions given as inputs (`Evaluator`, `Externals`, `Map.rimFactoryThings`). Exceptions from NCalc other than `ArgumentException` are not modelled.
- `PerformUpdate`'s `async`/`Task` scheduling and `Source/Threading/AsyncCache.cs` are left out. The refresh is modelled as one sequential run, and the map as a value snapshot. A cancellation is fixed in advance as the read from which the token reports it.
- `Math.StaticState.GetCachedMap` requires that a map without a stored snapshot is not destroyed. Building one would throw `NullReferenceException`, which this overload does not catch. The bill overload models that exception being caught.
- `Math.StaticState.GetCachedMap`: Source/Math.cs:252 calls a one-argument constructor of `CachedMapData` that is not part of this model. It is modelled as the two-argument constructor with a token that is never cancelled.
- `CachedMap.CachedMapData.GetThings` requires that the name is cached or registered. The source would throw `KeyNotFoundException` otherwise, and its callers only pass registered names.
- `Math.AddParameters`: when there is no snapshot, the source also removes the bill component from the bill manager. That side effect is not modelled; only the empty parameter table is.
- `Math.Bracket` rewrites only matches that fit the text. Every match produced by `Params` does (`Math.RewriteBracketsQuoted`).
- `Math.ParamNames` and `Math.Rewrite` state only lengths in their own contracts. Their content is stated by `Math.ExtractParameters`, `Math.RewriteChangesOnlyQuotes` and `Math.RewriteBracketsQuoted`.
- `LinkSettings.LinkSetting.Enabled`: `BillLinkTracker.LinkSetting` is not part of this model. A setting is taken as enabled when it is ticked and compatible with its parent, as the dialog draws it.
- `LinkSettings`: categories are values and their child lists are fixed. Only the settings at the leaves are objects that change, because the dialog mutates only `LinkSetting.state`.

## Findings

The operations above follow the code as written. Each corrected definition is
stated beside the one it corrects, with the intended property proved about it.

| source | as written | input that shows it | evidently intended | confidence | as-written member | corrected member |
|---|---|---|---|---|---|---|
| Source/MathFilters/PawnFilter.cs:122-126 | the second skill pattern is `Replace(skillMatch.Value + "\|", "")` on the pattern text, and no `\|` follows the last label | with the last-registered label first in the segment (say `intellectual>5`, when `intellectual` is registered last), nothing is removed, the same skill is found again and compared with itself: `>` keeps no pawn, `>=` keeps every colonist, and the level 5 is ignored | the first matched label is taken out of the alternatives, so a level or a different skill is compared | medium, not executed | `PawnFilters.LastLabelComparedWithItself` | `PawnFilters.IntendedNeverSelfCompares` |
| Source/CachedMapData.cs:36-51 | the snapshot indexes only animals and the player's quest lodgers, hosted guests, prisoners and slaves | a map whose player pawns are free colonists: the pawn dictionary is empty, so `colonists` counts nothing | every player pawn is indexed, free colonists included | medium, not executed | `CachedMap.NoIndexedColonists` | `CachedMap.IntendedIndexesEveryPawn` |
| Source/Math.cs:91-95 | `IsNewImportantVersion` indexes the second and third parts of the checked version without checking that they exist | a stored version "1.4" (or "1") reads `y[2]` (or `y[1]`) and throws IndexOutOfRangeException | a version with fewer than three parts counts as new | medium, not executed | `Math.ShortVersionThrows` | `Math.IsNewImportantVersionTotalAgrees` |
