# Brave New World dice and sheet logic in Dafny

This project models the host-independent logic of the Brave New World game system for Foundry:

- **The trait + skill dice roll (`BNW.dice.rollTraitSkill`).** It covers:
  - the abort rules: no actor, an unknown trait, a cancelled prompt;
  - the pool size;
  - how the target is chosen, including the prompt's parse rules;
  - the run reducer, which folds the exploding-die results of the host's roll into run totals;
  - the highest run and the success test;
  - the chat payload.
- **The actor sheet's view model (`getData`).** It covers:
  - default-filling of details, traits, skills and notes;
  - the trait list (`_prepareTraits`);
  - the grouping of skills by trait, with a per-skill pool (`_prepareSkills`);
  - the backfill of each skill's `trait`.
- **The item sheet's option lists.** It covers:
  - the trait options (`_prepareTraitOptions`);
  - the skill options, labelled `Label (Trait)` and sorted (`_prepareSkillOptions`);
  - the fallback default trait key (`_defaultTraitKey`).
- **The start-up trait list** `['body', 'mind', 'spirit']`.

## Modules

| file | module | contents |
|---|---|---|
| `wrappers.dfy` | `Wrappers` | `Option` |
| `js_values.dfy` | `JsValues` | A JavaScript number after `Number(...)`: an integer, `NaN` or ±`Infinity`. Also `+`, `>=`, `Math.max` and truthiness. |
| `text.dfy` | `Text` | `trim`, `_capitalize`, and the string order standing in for `localeCompare` |
| `ordered_maps.dfy` | `OrderedMaps` | JavaScript objects and `Map`s as insertion-ordered sequences of key/value pairs. A `set` on a present key keeps its position. |
| `sorting.dfy` | `Sorting` | a stable sort by label (`Array.prototype.sort`) |
| `records.dfy` | `Records` | the actor's `system` data, and the start-up trait list |
| `runs.dfy` | `Runs` | the run reducer (nested loops) and its properties |
| `dice.dfy` | `Dice` | prompt parsing, target, pool, payload fields, `RollTraitSkill` |
| `actor_sheet.dfy` | `ActorSheet` | `getData`, `_prepareTraits`, `_prepareSkills` |
| `item_sheet.dfy` | `ItemSheet` | `_prepareTraitOptions`, `_prepareSkillOptions`, `_defaultTraitKey` |

How the source's functions map onto the model:

- **Loops become methods.** Each function that works by loops and mutation is a `method` with the same loops: `CollectRuns`, `PrepareSkills`, `GetData` and its three loops, `PrepareTraitOptions`, `PrepareSkillOptions`. Each is proved equal to a specification function, and the properties are lemmas about that function.
- **Pure expressions become functions.** The straight-line pieces (target, pool, title, capitalisation, default keys, labels) are functions.
- **Host behaviour becomes parameters.** The host's random roll is the parameter `roll: int -> seq<DiceTerm>`, applied to the pool. The operator's answer to the target prompt is the parameter `reply: PromptReply`. It is `Dismissed`, `Submitted(formValue, inputValue)` for the dialog's submit callback, or `Confirmed(inputValue)` for the fallback dialog's callback.
- **Warnings become values.** The two notifications and the console warning that `rollTraitSkill` raises are returned as `Warning` values.
- **Host lookups become inputs.** The host-metadata lookups `_getDefaultTraitData` and `_getDefaultSkillData` are passed in as maps. So are `CONFIG.BNW.traits` and `CONFIG.BNW.defaultSkills`.

## Model

| member | source | states |
|---|---|---|
| `Runs.CollectRuns` | scripts/bnw-dice.js:163-190 | The nested reducer loops return exactly `DiceResults(terms)`: the runs of every term in order, or `[0]` when there are none. |
| `Runs.AllRunsAppend` | scripts/bnw-dice.js:165-186 | The running total restarts at every term. The runs of a term sequence are the runs of each term, concatenated in term order. |
| `Runs.ClosedChainRun` | scripts/bnw-dice.js:169-180 | A counted result that did not explode closes exactly one run. That run equals the open total, plus the exploded results since the last close, plus its own face. Counting resumes from 0. |
| `Runs.OpenChainRun` | scripts/bnw-dice.js:175-185 | A chain of exploded or skipped results that no result closes emits its total only when that total is > 0. |
| `Runs.SkippedResultIgnored` | scripts/bnw-dice.js:170-173 | A null, undefined or non-finite result has no effect on the runs. |
| `Runs.TermRunsCount` | scripts/bnw-dice.js:169-185 | A term emits one run per counted, non-exploded result, plus one when the final open total is positive. |
| `Runs.TermRunsSum` | scripts/bnw-dice.js:168-185 | For non-negative faces, a term's runs sum to the starting total plus every counted face. |
| `Runs.SumAppend` | scripts/bnw-dice.js:163-186 | The sum of concatenated run lists is the sum of their sums. |
| `Runs.RunsConserveTotal` | scripts/bnw-dice.js:168-190 | For non-negative faces, the emitted runs sum to the sum of all counted results. |
| `Runs.NoneCountedGivesSentinel` | scripts/bnw-dice.js:188-190 | When no result is counted, the dice list is exactly `[0]`. |
| `Runs.NoRunsIffNoneCounted` | scripts/bnw-dice.js:165-190 | For positive faces, no run is found (so the `[0]` sentinel is used) if and only if no result was counted. |
| `Runs.Highest` | scripts/bnw-dice.js:192 | `Math.max(...diceResults)` is one of the runs and is at least every run. |
| `Dice.FirstFinite` | scripts/bnw-dice.js:36-51 | The first candidate whose parse is finite wins. When none is finite, the default is returned. |
| `Dice.SubmitTarget` | scripts/bnw-dice.js:36-51 | The submit callback returns the form-data value if its parse is finite, else the input element's value if that parse is finite, else the default target. |
| `Dice.CallbackTarget` | scripts/bnw-dice.js:79-81 | The fallback callback returns the input's parse when finite, else the default. A missing input counts as `NaN`. |
| `Dice.PromptValue` | scripts/bnw-dice.js:31-84 | A dismissed prompt yields null. Any other prompt yields a finite number or the default. |
| `Dice.DefaultTarget` | scripts/bnw-dice.js:133 | `Number(target ?? 0) \|\| 7` is truthy. It is 7 for a null, 0 or NaN target and the target otherwise. |
| `Dice.ResolveTarget` | scripts/bnw-dice.js:133-139 | An explicit target is used unchanged and no prompt is consulted. Otherwise the prompt's answer is used. The result is null if and only if the target is null and the prompt was dismissed. A prompted value is finite or 7. |
| `Dice.PromptDefaultIsSeven` | scripts/bnw-dice.js:133-138 | Whenever the prompt is consulted, its default is 7. |
| `Dice.PoolSize` | scripts/bnw-dice.js:127-131 | The pool is ≥ 1. It equals trait + skill + bonus when that sum is finite and ≥ 1. Otherwise it is 1. |
| `Dice.Title` | scripts/bnw-dice.js:205 | The title is the label when that is non-empty. Otherwise it is `"<skill label> (<trait label>)"` when the skill has a label. Otherwise it is the trait label. This transcribes the source expression; `Dice.TitleShowsTrait` states its property. |
| `Dice.TitleShowsTrait` | scripts/bnw-dice.js:205 | Without a caption, the title always contains the trait label. The title is empty exactly when the caption, the skill's label and the trait label are all empty. |
| `Dice.SkillLabel` | scripts/bnw-dice.js:200 | The skill label is the skill's label when it is set, else the skill key when given, else the caption. |
| `Dice.BonusField` | scripts/bnw-dice.js:204 | `bonusDice` is present exactly when the bonus is > 0, and is then the bonus itself. This transcribes the source expression; `Dice.RollTraitSkillSpec` and `ActorSheet.PowerRollBonusOnCard` state its effect on the card. |
| `Dice.LookUpSkill` | scripts/bnw-dice.js:119-125 | The skill is looked up only for a truthy key. An unknown truthy key yields exactly one `UnknownSkill` warning. |
| `Dice.PoolFor` | scripts/bnw-dice.js:127-131 | The pool computed by `+` and the clamp is exactly `PoolSize`. |
| `Dice.RollCard` | scripts/bnw-dice.js:141-206 | The roll, the run reducer and the payload give exactly `Card(...)`, whose dice are `DiceResults(roll(pool))`. |
| `Dice.RollTraitSkill` | scripts/bnw-dice.js:98-206 | The method returns exactly `RollResult(...)` and `RollWarnings(...)`. |
| `Dice.RollTraitSkillSpec` | scripts/bnw-dice.js:98-206 | See the list below the table. |
| `Dice.SuccessIffSomeRunMeetsTarget` | scripts/bnw-dice.js:192-193 | `highest >= target` holds exactly when some run meets a finite target, or the target is `-Infinity`. It is never true for a `NaN` target. |
| `JsValues.Add` | scripts/bnw-dice.js:130 | JavaScript `+` on numbers: finite exactly when both operands are finite, and then the sum. `NaN` and opposite infinities give `NaN`. |
| `JsValues.AtLeastOrder` | scripts/bnw-dice.js:193 | JavaScript `>=` on numbers (`JsValues.AtLeast`) is false whenever `NaN` is involved. On the other numbers it is total and reflexive, with `-Infinity` least and `Infinity` greatest, and it agrees with `>=` on finite values. |
| `JsValues.AtLeastTransitive` | scripts/bnw-dice.js:193 | `>=` on numbers is transitive. |
| `JsValues.Max` | scripts/bnw-actor-sheet.js:86 | `Math.max` of two numbers: `NaN` if either is `NaN`, otherwise the larger. |
| `Text.Capitalize` | scripts/bnw-actor-sheet.js:106-109 | The length is kept. The first character is upper-cased and the rest is identical. The empty string stays empty. |
| `Text.CapitalizeIdempotent` | scripts/bnw-item-sheet.js:136-139 | Capitalising an already capitalised string changes nothing. |
| `Text.Trim` | scripts/bnw-item-sheet.js:67 | `trim()` is empty exactly when the string is all whitespace. Otherwise it starts and ends with non-whitespace. |
| `Text.TrimIsInfix` | scripts/bnw-item-sheet.js:83-84 | `trim()` removes whitespace from the two ends and nothing else. |
| `Text.LessEqTotal` | scripts/bnw-actor-sheet.js:100 | The label order used for `localeCompare` is total. |
| `Text.LessEqTransitive` | scripts/bnw-actor-sheet.js:100 | The label order is transitive. |
| `Text.LessEqAntisymmetric` | scripts/bnw-item-sheet.js:92 | Two labels that compare equal both ways are the same string. |
| `Text.LessEqReflexive` | scripts/bnw-item-sheet.js:92 | Every label compares equal to itself. |
| `Sorting.SortBy` | scripts/bnw-actor-sheet.js:100 | Sorting by label returns a permutation (multiset equality) that is sorted by label. |
| `Sorting.InsertBy` | scripts/bnw-item-sheet.js:92 | Inserting into a sorted list keeps it sorted and adds exactly that element. |
| `Sorting.SortByStable` | scripts/bnw-actor-sheet.js:100 | The sort is stable. For every label, the elements with that label appear in the result in their input order. |
| `Sorting.SortByDistinct` | scripts/bnw-item-sheet.js:92 | Sorting keeps a list unique by key. |
| `OrderedMaps.Get` | scripts/bnw-item-sheet.js:38 | `has`/`get` find a value exactly when the key is present. |
| `OrderedMaps.Set` | scripts/bnw-item-sheet.js:34 | `set` keeps the key order when the key is present and appends it otherwise. Unique keys stay unique. |
| `OrderedMaps.GetSet` | scripts/bnw-item-sheet.js:47 | After `set(k, v)`, `k` reads `v` and every other key reads as before. |
| `OrderedMaps.AppendNew` | scripts/bnw-item-sheet.js:29-55 | The key order after a run of sets keeps the old keys as a prefix, holds the union of the keys, and stays duplicate-free. |
| `OrderedMaps.SetAllBy` | scripts/bnw-item-sheet.js:32-35 | After a run of sets, the keys are the old keys followed by the new keys in first-use order. |
| `OrderedMaps.GetSetAllBy` | scripts/bnw-item-sheet.js:45-48 | After a run of sets, a key that was set holds its last value, and every other key is unchanged. |
| `OrderedMaps.SetMissingAll` | scripts/bnw-actor-sheet.js:43-45 | Set-if-missing only appends keys. The existing entries keep their position and value. |
| `OrderedMaps.GetSetMissingAll` | scripts/bnw-item-sheet.js:37-41 | Set-if-missing never overrides an existing value. It adds the default for missing keys only. |
| `ActorSheet.PrepareTraits` | scripts/bnw-actor-sheet.js:65-71 | One entry per trait, in map order. The label is the stored label or else the capitalised key. The value is the stored value or else 0. |
| `ActorSheet.PrepareTraitsKeys` | scripts/bnw-actor-sheet.js:65-71 | The trait list's keys are the trait map's keys. |
| `ActorSheet.DefaultSkillTrait` | scripts/bnw-actor-sheet.js:79 | The default group key is the first trait key, else the first configured trait, else `'strength'`. This transcribes the source expression; `ActorSheet.SkillInExactlyOneGroup` states what the grouping does with it. |
| `ActorSheet.FindTrait` | scripts/bnw-actor-sheet.js:83 | `find` succeeds exactly when some trait has the key, and then returns such a trait. |
| `ActorSheet.SkillViewOfSpec` | scripts/bnw-actor-sheet.js:82-93 | The skill's group key is its own trait or else the default. The pool is `max(trait + skill, 1)`: finite pools are ≥ 1, and an undeclared trait contributes 0. |
| `ActorSheet.PrepareSkills` | scripts/bnw-actor-sheet.js:73-104 | The three loops (open groups, push skills, sort) return exactly `SkillGroups(...)`. |
| `ActorSheet.BucketUnused` | scripts/bnw-actor-sheet.js:95-96 | A group key that no skill uses has no members. |
| `ActorSheet.BucketMember` | scripts/bnw-actor-sheet.js:81-96 | Every member of a group is the view of a skill whose group key is that group's key. |
| `ActorSheet.BucketCount` | scripts/bnw-actor-sheet.js:81-97 | With unique skill keys, a group holds each of its skills exactly once and no other skill. |
| `ActorSheet.SkillGroupsKeys` | scripts/bnw-actor-sheet.js:74-96 | Group keys are unique. Every declared trait has a group, even an empty one, first and in trait order. Every skill's group key is present. |
| `ActorSheet.SkillGroupsContents` | scripts/bnw-actor-sheet.js:95-101 | Groups of declared traits are sorted by label. Every member of a group is a skill of that group. |
| `ActorSheet.SkillInExactlyOneGroup` | scripts/bnw-actor-sheet.js:81-97 | With unique skill keys, every skill appears exactly once over all groups, in the group of its trait or the default key. No skill is lost or duplicated. |
| `ActorSheet.EverySkillGrouped` | scripts/bnw-actor-sheet.js:81-97 | Every skill of the map is in some group. |
| `ActorSheet.FillDetails` | scripts/bnw-actor-sheet.js:31-33 | The details loop equals set-if-missing of `''` over the six default detail keys. |
| `ActorSheet.AddConfigTraits` | scripts/bnw-actor-sheet.js:43-45 | The configured-trait loop equals set-if-missing of `{capitalised key, 0}`. |
| `ActorSheet.BackfillTraits` | scripts/bnw-actor-sheet.js:51-58 | The nested backfill loops give every skill its backfilled value. They rely only on each group member coming from its skill and each skill being grouped. |
| `ActorSheet.GetData` | scripts/bnw-actor-sheet.js:18-63 | See the list below the table. |
| `ActorSheet.DefaultFillingPreserves` | scripts/bnw-actor-sheet.js:22-45 | Existing details and traits are never moved or changed. Missing default detail keys get `''`. Missing configured traits get `{capitalised key, 0}`. |
| `ActorSheet.DefaultsPresent` | scripts/bnw-actor-sheet.js:31-45 | After filling, every default detail key and configured trait key is present. The trait list's keys are unique. |
| `ActorSheet.DefaultSkillsOnlyWhenEmpty` | scripts/bnw-actor-sheet.js:37-40 | The default skills replace the skill map only when the map is empty and the defaults are not. A non-empty map is kept. |
| `ActorSheet.BackfillSkillsSpec` | scripts/bnw-actor-sheet.js:51-57 | Every skill keeps its key, position, label and value. A truthy trait is unchanged. Otherwise the trait becomes the skill's group key. Afterwards the trait is truthy exactly when it was before or the group key is non-empty. |
| `ActorSheet.BackfillIdempotent` | scripts/bnw-actor-sheet.js:51-57 | A second backfill changes nothing, and no skill changes group. |
| `ActorSheet.PowerRollBonus` | scripts/bnw-actor-sheet.js:145 | A power roll passes `Number(item.system.dice ?? 0)`, which is always a number. This transcribes the source expression; `ActorSheet.PowerRollBonusOnCard` states its effect on the card. |
| `ActorSheet.PowerRollBonusOnCard` | scripts/bnw-actor-sheet.js:141-148 | A power roll's card carries the item's dice as `bonusDice` exactly when they are > 0. |
| `ItemSheet.SetTraitLabels` | scripts/bnw-item-sheet.js:45-48 | The label loop equals a run of `set(key, label ?? capitalised key)`. |
| `ItemSheet.AddConfigTraitOptions` | scripts/bnw-item-sheet.js:37-41 | The configured-trait loop equals set-if-missing of the capitalised key. |
| `ItemSheet.PrepareTraitOptions` | scripts/bnw-item-sheet.js:28-56 | The method returns exactly the options of `TraitOptionMap`, in map order. |
| `ItemSheet.TraitOptionOrder` | scripts/bnw-item-sheet.js:29-55 | Trait option keys are unique. Their order is: default traits, then new configured traits, then new actor traits, then the current trait. Re-setting a key keeps its position. |
| `ItemSheet.TraitOptionLabel` | scripts/bnw-item-sheet.js:31-53 | An actor trait's label beats a default trait's label. A configured or current key with no data gets its capitalised name. There are no other keys. |
| `ItemSheet.CurrentTraitOffered` | scripts/bnw-item-sheet.js:51-53 | A non-empty current trait is always among the trait options. |
| `ItemSheet.DefaultTraitKey` | scripts/bnw-item-sheet.js:119-134 | The first option key if truthy, else the first configured trait, else the first default trait key if truthy, else `'body'`. |
| `ItemSheet.DefaultTraitKeyOffered` | scripts/bnw-item-sheet.js:119-134 | When the first configured trait is non-empty, the default trait key is a non-empty key among the trait options. |
| `ItemSheet.StartupDefaultTraitKeyOffered` | scripts/main.js:5 | With the start-up list `['body', 'mind', 'spirit']`, the default trait key is always an offered, non-empty key. |
| `ItemSheet.TraitLabelFor` | scripts/bnw-item-sheet.js:59-69 | An empty key gives `''`. A key among the options gives that option's label. Any other key gives its capitalised name. |
| `ItemSheet.GetIsSomeEntry` | scripts/bnw-item-sheet.js:59 | The value found for a key is the value of one of that key's entries. |
| `ItemSheet.BaseLabel` | scripts/bnw-item-sheet.js:67 | The base label is the trimmed label (non-empty) when the label is not blank, else the capitalised key. |
| `ItemSheet.SkillOptionLabel` | scripts/bnw-item-sheet.js:67-70 | The label is `base (traitLabel)` when the trait label is non-empty, else the base label. A missing trait falls back to the default trait key. |
| `ItemSheet.SkillOptionLabelShape` | scripts/bnw-item-sheet.js:86-88 | A label starts with its base label and is longer exactly when the trait label is non-empty. A traitless skill whose default key is not an option is suffixed with the capitalised default key. |
| `ItemSheet.MergeSkills` | scripts/bnw-item-sheet.js:63-73 | `mergeSkills` only appends new keys. Unique keys stay unique, and every option is stored under its own key. |
| `ItemSheet.GetMergeSkills` | scripts/bnw-item-sheet.js:66-72 | After a merge, a merged key holds the option built from its entry. Other keys are unchanged. |
| `ItemSheet.MergeSkillOptions` | scripts/bnw-item-sheet.js:63-73 | The merge loop computes exactly `MergeSkills`. |
| `ItemSheet.PrepareSkillOptions` | scripts/bnw-item-sheet.js:58-93 | The method returns exactly the sorted values of the skill option map. |
| `ItemSheet.MergedSkillOptionsContents` | scripts/bnw-item-sheet.js:75-79 | After both merges, the keys are the default and actor skill keys. An actor skill overrides the default skill with the same key. |
| `ItemSheet.SkillOptionMapContents` | scripts/bnw-item-sheet.js:75-90 | The map's keys are the default keys, the actor keys and the non-empty current skill. Each key holds the option built from the actor's data, else the default's, else nothing. |
| `ItemSheet.ValuesDistinct` | scripts/bnw-item-sheet.js:92 | The options taken from a map keyed by their own keys are unique by key. |
| `ItemSheet.SkillOptionsShape` | scripts/bnw-item-sheet.js:58-92 | Skill options are sorted by label and unique by key. Each is built from the data that wins for its key. |
| `ItemSheet.SkillOptionOffered` | scripts/bnw-item-sheet.js:63-92 | A skill is offered exactly when it is a default skill, an actor skill, or the non-empty current skill. |

The `Dice.RollTraitSkillSpec` lemma states, about the result of `Dice.RollTraitSkill`:

- An absent actor gives no card and the warning `ActorRequired`.
- An unknown trait gives no card and `UnknownTrait`.
- An unknown non-empty skill key adds only an `UnknownSkill` warning.
- A card is made exactly when there is an actor, the trait is known and a target resolves.
- The pool is ≥ 1, and equals trait + skill + bonus when that sum is finite and ≥ 1.
- The dice list is non-empty. `highest` is one of the dice and at least every die.
- An explicit target is used unchanged. A prompted target is finite or 7.
- `success` holds exactly when some run meets a finite target, or the target is `-Infinity`.
- `bonusDice` is present exactly when the bonus is > 0.
- The remaining fields (name, trait label, skill label `skill.label ?? skillKey ?? label`, title) are given by `Dice.Card`.

The `ActorSheet.GetData` contract states:

- The details are filled by `FillDetails`.
- The traits are filled with the configured traits.
- `notes` defaults to `''`.
- `context.traits` is `PrepareTraits` of the filled traits.
- `skillsByTrait` is `SkillGroups` of the starting skills.
- The skills are backfilled from the groups.

## Left out

- Dialog UI: the DialogV2/Dialog choice, the fallback after a failed or null DialogV2 prompt, DOM lookups and the form content (scripts/bnw-dice.js:12-84). This is host UI. The model takes the operator's final answer as `PromptReply` and keeps only the parse rules.
- Roll construction and evaluation, including the `evaluate`/`evaluateSync` handling (scripts/bnw-dice.js:141-161). This is the host's random engine. Its `dice` terms are the value of the `roll` parameter.
- Chat rendering, `toMessage`, speaker and flags (scripts/bnw-dice.js:208-233), notifications, i18n and console output. These are host I/O. Notifications are returned as `Warning` values.
- The sheets' `defaultOptions`, `template`, `activateListeners` and click handlers, and the item sheet's `getData` wiring (scripts/bnw-item-sheet.js:16-26). These are host glue. The only part kept is the `bonusDice` mapping of a power roll. The item's `currentTrait`/`currentSkill` are parameters.
- `context.powers` (scripts/bnw-actor-sheet.js:60): it filters the host's item collection.
- `_getDefaultTraitData` and `_getDefaultSkillData` read host metadata. Their results are input maps.
- `main.js` hook registration, Handlebars helpers and template loading are start-up glue. Only the default trait list is kept, as `Records.DefaultConfigTraits`.
- No trait migration appears in these source files, so none is modelled.
- Numbers are integers, `NaN` or ±`Infinity`. The model has no fractions, no `-0`, no rounding, and no overflow of finite sums to `Infinity`.
- Strings are sequences of code points:
  - `toUpperCase` maps only ASCII letters;
  - `charAt` on a surrogate pair is not modelled;
  - `localeCompare` is lexicographic code-point order.
- `Array.prototype.sort` is modelled by a stable sort function on values, not as an update in place.
- `foundry.utils.getProperty` with a key that contains a dot is modelled as a plain key lookup. So is a `currentSkill` path of that kind.
- JavaScript enumerates integer-like object keys before the others. The model keeps plain insertion order for every key.
- Objects are modelled as own-key maps. Keys that name inherited `Object.prototype` members are not represented. Examples are `constructor` and `toString`: a skill grouped under such a key makes `groups[traitKey].push` throw, and such a trait key finds an inherited function. `null` detail values are not represented either; the details loop fills only `undefined` ones.
- Map entries are always records. A trait or skill entry that is `null`, a label that is not a string (`String(data.label)`), a non-object `skills` value, and `_capitalize` on a non-string are not represented.
- `deepClone` is implicit: the model works on values, so the caller's `system` never changes.
- `ActorSheet.PrepareSkills` requires the declared trait keys to be distinct. This always holds for traits listed from an object.
- `ActorSheet.GetData` requires unique keys in the stored maps and the default skills, as JavaScript objects have.

## Notes on behaviour

- **Explicit targets.** The code uses an explicit non-null target unchanged, even `NaN` or `Infinity` (`target ?? prompt`). It uses 7 only as the prompt default, and a prompted value is finite or that default. The model follows the code (`Dice.ResolveTarget`, `Dice.SuccessIffSomeRunMeetsTarget`).
- **Default skill trait.** The default trait for a skill without one differs between the two sheets:
  - On the actor sheet it is the first trait key, else the first configured trait, else `'strength'`.
  - On the item sheet it is the first option key, else the first configured trait, else the first default trait key, else `'body'`.
- **Backfill with empty keys.** The backfill assigns `skill.trait`, which is the skill's own stored trait whenever that is not null or undefined. So a skill stored with trait `''` keeps `''`, as does a skill whose default group key is `''`. `ActorSheet.BackfillSkillsSpec` states exactly when the trait ends up truthy.
