# Input-name rename rule, modelled in Dafny

This project models `InputNamesRule`. It is the migration rule of the Angular CDK
`ng-update` schematics that renames outdated component input names. It works in
two places: in component templates and in stylesheets. Stylesheets may target an
input declared as a static attribute with an attribute selector such as
`my-component[color]`.

The rule holds a rename table. Each entry (`InputNameUpgradeData`) has an old
name `replace`, a new name `replaceWith` and a `whitelist` with optional
`attributes` and `elements` lists. For each resource (a template or stylesheet
with its `filePath`, `content` and `start` offset in the file), the rule handles
every entry in table order:

- **Stylesheets.** It asks the substring finder where `[replace]` occurs. At each
  file offset `start + o`, it records `remove(start + o, |replace| + 2)` followed by
  `insertRight(start + o, "[" + replaceWith + "]")`.
- **Templates.** It collects the offsets of the attribute finder, but only if
  `whitelist.attributes` is present. It then adds the offsets of the tag finder,
  but only if `whitelist.elements` is present. At each file offset `start + o`, it
  records `remove(start + o, |replace|)` followed by `insertRight(start + o, replaceWith)`.

Both kinds of edit go to the update recorder of the resource's own file.

Files:

- `recorder.dfy` (module `Recorder`) holds the update recorders as the rule sees
  them. Each file path has an append-only log of typed edits
  (`Remove(offset, width)`, `InsertRight(offset, text)`). The module defines:
  - `Appended`, which appends edits to one file's log.
  - The `WellPaired` invariant: every removal is immediately followed by an
    insertion at the same offset.
- `input_names_rule.dfy` (module `InputNames`) holds:
  - The rule's data types.
  - The specification functions for the edits that one entry and one whole
    table produce (`StylesheetEntryEdits`, `TemplateEntryEdits`, `Edits`).
  - Lemmas about these functions.
  - The class `InputNamesRule`. It has the immutable `data` and `ruleEnabled`
    and the mutable `recorders` map. Its methods `VisitStylesheet` and
    `VisitTemplate` loop over the table. Each visit's effect is proved to be
    exactly `Appended(old(recorders), filePath, Edits(kind, data, resource, finders))`.
    The visits make no assumption about what the recorders already hold. A log
    that was well paired before a visit is proved to stay well paired.

The three occurrence finders come from other modules of the schematics, and
their bodies are not part of this model: `findAllSubstringIndices`, `findInputsOnElementWithAttr` and
`findInputsOnElementWithTag`. The model takes them as function values in a
`Finders` record that is fixed when the rule is constructed. Every property is
stated relative to whatever they return. The lemmas `StylesheetRemovesSelector`
and `TemplateRemovesName` assume, as a hypothesis, that the finders report true
occurrences of the searched text. From that they prove a fact about the whole
file: after the `start + o` translation, each removal covers exactly `[replace]`
or `replace`.

Points worth noting about the code, which the model follows:

- The template finders run when a whitelist list is *present*. An empty array
  is truthy in the source, so `Some([])` still calls the finder. The model does
  not require the list to be non-empty.
- Offsets reported by both template finders are kept twice. Nothing is
  deduplicated.
- The edits are recorded in table order, then in finder order. The log is
  therefore an ordered sequence, not a set.

## Model

| member | source | states |
|---|---|---|
| InputNames.AttributeSelector | src/cdk/schematics/ng-update/upgrade-rules/input-names-rule.ts:33-34 | the stylesheet selector for a name is `[`, the name, `]`, so it is two characters longer than the name |
| InputNames.Replacements | src/cdk/schematics/ng-update/upgrade-rules/input-names-rule.ts:59-62 | each relative offset contributes exactly one remove/insertRight pair, so the edit list is twice as long as the offset list |
| InputNames.ReplacementsAt | src/cdk/schematics/ng-update/upgrade-rules/input-names-rule.ts:66-70 | the k-th offset o yields edit 2k = `Remove(start + o, width)` and edit 2k+1 = `InsertRight(start + o, newName)` |
| InputNames.ReplacementsPrefix | src/cdk/schematics/ng-update/upgrade-rules/input-names-rule.ts:59-62 | handling one more offset appends exactly that offset's pair to the edits so far (forEach order) |
| InputNames.TemplateOffsetsOrder | src/cdk/schematics/ng-update/upgrade-rules/input-names-rule.ts:47-57 | the k-th attribute-finder offset is the k-th collected offset, the k-th element-finder offset sits at position (number of attribute offsets) + k, and the multiset is the sum of both (duplicates kept) |
| InputNames.TemplateOffsetsMembership | src/cdk/schematics/ng-update/upgrade-rules/input-names-rule.ts:49-57 | an offset is collected iff a finder whose whitelist list is present reported it (both directions) |
| InputNames.DuplicateOffsetsKept | src/cdk/schematics/ng-update/upgrade-rules/input-names-rule.ts:49-57 | an offset reported by both finders appears at least twice among the collected offsets |
| InputNames.StylesheetEntryEditsAt | src/cdk/schematics/ng-update/upgrade-rules/input-names-rule.ts:33-40 | for the i-th substring-finder offset o of `[replace]`, a stylesheet records `Remove(start + o, \|replace\| + 2)` then `InsertRight(start + o, "[" + replaceWith + "]")`; nothing else |
| InputNames.TemplateEntryEditsAt | src/cdk/schematics/ng-update/upgrade-rules/input-names-rule.ts:59-62 | for the i-th collected offset o, a template records `Remove(start + o, \|replace\|)` then `InsertRight(start + o, replaceWith)`; nothing else |
| InputNames.EditsPrefix | src/cdk/schematics/ng-update/upgrade-rules/input-names-rule.ts:45-63 | handling table entry i appends that entry's edits after the edits of entries 0..i-1 |
| InputNames.EditsOfConcat | src/cdk/schematics/ng-update/upgrade-rules/input-names-rule.ts:32-41 | concatenating per-entry edits over a split table equals concatenating over each part, in order |
| InputNames.EditsConcat | src/cdk/schematics/ng-update/upgrade-rules/input-names-rule.ts:45-63 | the edits of a visit over table `a + b` are the edits for `a` followed by those for `b` (entry order) |
| InputNames.ReplacementsWellPaired | src/cdk/schematics/ng-update/upgrade-rules/input-names-rule.ts:66-70 | the edits for any offset list alternate remove then insertRight at the same offset |
| InputNames.EditsWellPaired | src/cdk/schematics/ng-update/upgrade-rules/input-names-rule.ts:31-64 | whatever the finders return, a whole visit records only well-paired remove/insertRight edits |
| InputNames.RemovalAt | src/cdk/schematics/ng-update/upgrade-rules/input-names-rule.ts:66-70 | every removal in an edit list sits at an even position and is the removal for offset k/2 |
| InputNames.EmbeddedSlice | src/cdk/schematics/ng-update/upgrade-rules/input-names-rule.ts:37 | a span at relative offset o in the resource is the span at `start + o` in the file |
| InputNames.RemovalCovers | src/cdk/schematics/ng-update/upgrade-rules/input-names-rule.ts:59-62 | if the finder offsets are true occurrences, any single removal covers exactly the searched text in the file |
| InputNames.AbsoluteRemovalsCover | src/cdk/schematics/ng-update/upgrade-rules/input-names-rule.ts:59-62 | if the finder offsets are true occurrences, every removal covers exactly the searched text in the whole file |
| InputNames.StylesheetRemovesSelector | src/cdk/schematics/ng-update/upgrade-rules/input-names-rule.ts:36-40 | if the substring finder reports true occurrences of `[replace]`, every stylesheet removal covers exactly `[replace]` in the file |
| InputNames.TemplateRemovesName | src/cdk/schematics/ng-update/upgrade-rules/input-names-rule.ts:59-62 | if the template finders report the name token, every template removal covers exactly `replace` in the file |
| InputNames.InputNamesRule.constructor | src/cdk/schematics/ng-update/upgrade-rules/input-names-rule.ts:26-29 | the table is stored unchanged, `ruleEnabled` holds exactly when it is non-empty, and no recorder exists yet |
| InputNames.InputNamesRule.ReplaceInputName | src/cdk/schematics/ng-update/upgrade-rules/input-names-rule.ts:66-70 | appends `Remove(start, width)` then `InsertRight(start, newName)` to that file's recorder only; every other file's log is unchanged |
| InputNames.InputNamesRule.ReplaceAtOffsets | src/cdk/schematics/ng-update/upgrade-rules/input-names-rule.ts:59-62 | maps each offset to `start + offset` and replaces there, appending exactly `Replacements(start, offsets, …)` to that file's recorder |
| InputNames.InputNamesRule.RenameInStylesheet | src/cdk/schematics/ng-update/upgrade-rules/input-names-rule.ts:32-41 | one entry's stylesheet callback appends exactly `StylesheetEntryEdits` to the stylesheet file's recorder |
| InputNames.InputNamesRule.VisitStylesheet | src/cdk/schematics/ng-update/upgrade-rules/input-names-rule.ts:31-42 | appends exactly `Edits(Stylesheet, data, …)` to the stylesheet file's recorder; other files are untouched; a disabled rule (empty table) changes nothing; a log that was well paired stays well paired |
| InputNames.InputNamesRule.RenameInTemplate | src/cdk/schematics/ng-update/upgrade-rules/input-names-rule.ts:45-63 | one entry's template callback builds `relativeOffsets` by the two guarded pushes and appends exactly `TemplateEntryEdits` |
| InputNames.InputNamesRule.VisitTemplate | src/cdk/schematics/ng-update/upgrade-rules/input-names-rule.ts:44-64 | appends exactly `Edits(Template, data, …)` to the template file's recorder; other files are untouched; a disabled rule (empty table) changes nothing; a log that was well paired stays well paired |
| Recorder.AppendedLog | src/cdk/schematics/ng-update/upgrade-rules/input-names-rule.ts:67-69 | recording edits for one file extends that file's log by exactly those edits and leaves every other file's log as it was |
| Recorder.AppendedTwice | src/cdk/schematics/ng-update/upgrade-rules/input-names-rule.ts:67-69 | recording `a` then `b` for a file is the same as recording `a + b` |
| Recorder.WellPairedConcat | src/cdk/schematics/ng-update/upgrade-rules/input-names-rule.ts:68-69 | appending a well-paired log to a well-paired log keeps it well paired |
| Recorder.WellPairedAt | src/cdk/schematics/ng-update/upgrade-rules/input-names-rule.ts:68-69 | in a well-paired log, position 2k is a removal and 2k+1 is an insertRight at the same offset |

## Left out

- `findAllSubstringIndices`, `findInputsOnElementWithAttr` and `findInputsOnElementWithTag` live in other schematics modules, and their bodies are not part of this model. They are function parameters (`Finders`), and no tokenisation or overlap rule is assumed about them. Facts about their results appear only as explicit hypotheses (`OccursAt`).
- `getVersionUpgradeData` and the target-version lookup that loads `data` are configuration loading. The table is a constructor argument.
- The `MigrationRule` base class is left out. Skipping a rule whose `ruleEnabled` is false is done by the surrounding tool, not by this class. The visits are proved to be no-ops on an empty table in any case.
- `getUpdateRecorder` internals are left out. The model keeps only the ordered per-file edit log. It does not model how the recorder later merges edits into file text, or how it treats overlapping or duplicate removals.
- ReplaceInputName, VisitStylesheet and VisitTemplate: the recorder map belongs to the rule (it starts empty in the constructor) and accepts every edit. In the source, `getUpdateRecorder` hands out a recorder shared with the other migration rules. Such a recorder may also reject a `remove`, for example one that overlaps an earlier removal, as duplicate template offsets would. That rejection ends the visit early, so the later edits are never recorded. The model does not capture sharing between rules or this early stop. Its visit contracts do hold for whatever the logs already contain.
- Resource discovery (`ResolvedResource` collection), file I/O and write-back belong to the surrounding tool.
- String lengths are counted in Dafny characters. The source counts UTF-16 code units (`.length`), which differ for characters outside the Basic Multilingual Plane.
