# Hebrew flashcard games: a Dafny model of the game state machines

The Hebrew learning page has three games: colors, icons and letters. In each one a
child pairs a prompt tile with a name tile. The prompt is a color swatch, an icon or a
Hebrew letter. The name is shown in Hebrew or in Latin script. The letters game also has
three sequence modes, where the letters are clicked or typed in the alphabet's order.
Beneath the page code, every game keeps one small state machine. This project models
those state machines and proves what each handler does to them.

- `wrappers.dfy`: `Option` and `Result`.
- `seqs.dfy`: distinct sequences and the order-preserving filters `Keep` and `Drop` (what
  `Array.prototype.filter` with `includes` or `Set.has` computes), with their lemmas.
- `vocab.dfy`: a dataset entry (`Item`), its id list (`Ids`) and the id-to-entry table
  (`IndexById`).
- `random_order.dfy`: `Shuffle` (the Fisher–Yates loop on a copy), `SampleItems` (the
  `splice` loop) and `ReconcileNames` (the name-column reconciliation in `renderNames`).
  Other code never sees `Math.random`. Each draw is an arbitrary index in the range the
  code computes, so the contracts hold for every possible outcome.
- `engine.dfy`: the match engine the three games share (`MatchEngine`). It holds the
  matched set, one selection per column, the two counters and the history. It
  evaluates an attempt in two steps, as the code does: `Evaluate` runs at once, and
  `Settle` is the body of the `setTimeout` callback.
- `labels.dfy`: the English label of an id (`toEnglish` in colors, inline in icons).
- `edited.dfy`: the acceptance rules of the "edit data" dialogs.
- `rounds.dfy`: the round builder and the game object that colors and icons share
  (`CategoryGame`). It covers the max field, category selection, the pool, sampling,
  the id table, both shuffles, the reset, and the click and settle handlers.
- `colors.dfy`, `icons.dfy`: the one handler in which the two games differ, the
  editor's save button.
- `letters.dfy`: the letters game (`LettersGame`). It covers the five modes, the
  final-form folding of typed keys, the sequence cursor, the mode switch, the reset,
  the shuffle button and the editor.
- `scenarios.dfy`: short runs from start-up, each pinned to the exact state it reaches.

JavaScript truthiness of a selection is modelled as `Truthy`: a selection is truthy when
it is set and its id is not the empty string. A selection is `None` for `null`.

Rendering only changes state in one place: the name column is reconciled against the
ids still available. So each handler that calls `renderNames` or `renderAll` calls the
model's `RenderNames`, and a handler that only redraws the prompt grid does not.

## Model

| member | source | states |
|---|---|---|
| RandomOrder.Shuffle | learning/hebrew/js/letters.js:37-44 | The result is a permutation of the input: same length and multiset. The input is a value and is not changed. colors.js:32-39 and icons.js:24-31 are the same loop. |
| RandomOrder.SampleItems | learning/hebrew/js/colors.js:88-97 | Exactly `min(count, \|arr\|)` items, or none when `count <= 0`. Item k is `arr[picks[k]]` for distinct positions `picks`, so no position is drawn twice. The result is a sub-multiset of `arr`. icons.js:76-85 is the same loop. |
| RandomOrder.ReconcileNames | learning/hebrew/js/colors.js:184-187 | The new column is `Reconciled`: the old entries still available, in their old order, then a shuffle of the available entries that were missing. It holds exactly the available entries. When both inputs are repeat-free, it is a repeat-free permutation of the available entries. |
| RandomOrder.ReconciledPermutation | learning/hebrew/js/letters.js:197-200 | For repeat-free inputs, every reconciled column is a repeat-free permutation of the available ids. |
| RandomOrder.ReconcileStable | learning/hebrew/js/icons.js:170-173 | Reconciling a column that already is a permutation of the available ids leaves it exactly as it was. |
| RandomOrder.ReconcileIdempotent | learning/hebrew/js/letters.js:164-167 | Reconciling twice against the same available ids gives the same column as reconciling once. |
| Seqs.DropLength | learning/hebrew/js/colors.js:184 | Filtering k distinct ids of a repeat-free id list out of it leaves `\|ids\| - k` entries, for every list and set of the ids. |
| Seqs.DropPrefix | learning/hebrew/js/letters.js:164 | Filtering out the first i ids of a repeat-free list leaves exactly the ids from position i on, in order. |
| Seqs.DistinctCounts | learning/hebrew/js/colors.js:184-187 | A sequence is repeat-free exactly when every element occurs at most once in its multiset. Permutation and repeat-freedom are linked through this. |
| Vocab.IndexByIdKeys | learning/hebrew/js/colors.js:123-126 | The table's keys are exactly the ids of the entries. Each value is one of the entries and carries its key as id. |
| Vocab.IndexByIdLastWins | learning/hebrew/js/icons.js:113-116 | An id maps to the last entry that carries it. |
| Vocab.IndexByIdUnique | learning/hebrew/js/letters.js:65 | With unique ids, every entry is found under its own id. |
| Engine.CountCorrect | learning/hebrew/js/letters.js:330-342 | The number of correct records never exceeds the number of records. |
| Engine.CountCorrectExtremes | learning/hebrew/js/letters.js:330-342 | The count is zero exactly when no record is correct, and equals the length exactly when every record is. With the engine invariant `correct == CountCorrect(history)` and `correct + wrong == \|history\|`, `correct` and `wrong` tally the verdicts. |
| Engine.Truthy | learning/hebrew/js/letters.js:149 | A definition, not a derived property: a selection is truthy exactly when it is set to an id other than the empty string, as `state.selectedLetter && state.selectedName` tests it. colors.js:169 and icons.js:156 make the same test. |
| Engine.Toggle | learning/hebrew/js/letters.js:148 | Clicking the selected id clears the selection. Clicking any other id selects it. |
| Engine.MatchEngine.constructor | learning/hebrew/js/letters.js:18-31 | A new engine has nothing matched, no selection, no score and no history. |
| Engine.MatchEngine.Record | learning/hebrew/js/letters.js:359-372 | Appends exactly one record and bumps exactly the counter its verdict names. Nothing else changes. |
| Engine.MatchEngine.Evaluate | learning/hebrew/js/letters.js:323-332 | Correct exactly when the two selections are equal. Appends the pair to the history and bumps one counter. The matched set and the selections are not touched. The returned pending settle carries the prompt id and the verdict. |
| Engine.MatchEngine.Settle | learning/hebrew/js/colors.js:284-299 | A correct attempt adds exactly its prompt id to the matched set; a wrong one leaves the set as it is. Both clear the two selections. The score and the history are not touched. The matched set never shrinks. |
| Engine.MatchEngine.ClickPrompt | learning/hebrew/js/colors.js:166-174 | A matched id changes nothing. Otherwise the prompt selection toggles. The attempt is evaluated exactly when both selections are then truthy. |
| Engine.MatchEngine.ClickName | learning/hebrew/js/colors.js:206-214 | The mirror image for the name column. |
| Engine.MatchEngine.ClearSelections | learning/hebrew/js/letters.js:475-476 | Both selections become null. The matched set, the score and the history stay. |
| Engine.MatchEngine.Reset | learning/hebrew/js/letters.js:432-437 | Nothing matched, no selections, zero counters, empty history. After it, the counters again tally the history. |
| Labels.EnglishLabelAt | learning/hebrew/js/colors.js:53-55 | Character k of the label: space for a dash; the upper-cased character when it begins a word (a `\w` character not preceded by one); otherwise unchanged. The label has the id's length. |
| Labels.EnglishLabel | learning/hebrew/js/colors.js:53-55 | The label of an id has one character for each character of the id; `EnglishLabelAt` says which. icons.js:142 and icons.js:182 compute the same label inline. |
| Labels.EnglishLabelHasNoDash | learning/hebrew/js/icons.js:142 | A label keeps the length of its id and contains no dash. |
| Labels.EnglishLabelIdempotent | learning/hebrew/js/icons.js:182 | Labelling a label changes nothing. |
| Labels.EnglishLabelExample | learning/hebrew/js/colors.js:54 | `dark-red` is labelled `Dark Red`. |
| EditedData.AcceptCategories | learning/hebrew/js/colors.js:362-378 | Accepted exactly for a bare array or an object with a `categories` list, which then becomes the category data. `null` and unparsable text are reported as invalid JSON. Any other value is reported as invalid format. icons.js:343-361 is the same rule. |
| EditedData.AcceptLetters | learning/hebrew/js/letters.js:512-525 | Only a bare array is accepted. Unparsable text is invalid JSON. Everything else, including `null` and a wrapping object, is invalid format. |
| Rounds.MaxCount | learning/hebrew/js/colors.js:77-85 | The parsed value when it is a positive integer, otherwise 18. Always at least 1. icons.js:65-73 is the same. |
| Rounds.FindCategory | learning/hebrew/js/colors.js:112 | Finds nothing exactly when no category has the name. Otherwise it returns one of the categories with that name. |
| Rounds.FindCategoryFirst | learning/hebrew/js/icons.js:101 | The category found is the first one with that name. |
| Rounds.SelectedCategories | learning/hebrew/js/colors.js:101-108 | The checked names when a box is checked. Otherwise every category's name is selected. The selection is empty only when there are no categories. icons.js:89-96 is the same. |
| Rounds.Pool | learning/hebrew/js/colors.js:109-118 | The pool holds only items of the dataset; `PoolMembership` says exactly which. icons.js:97-106 is the same. |
| Rounds.PoolMembership | learning/hebrew/js/colors.js:109-118 | An item is in the pool exactly when some selected name finds a category holding it. Unknown names add nothing. |
| Rounds.EmptySelectionIsEverything | learning/hebrew/js/colors.js:106-108 | With no box checked, the selection is every category. With unique category names, the pool is then every item of the dataset, category by category. |
| Rounds.AllCheckedIsEverything | learning/hebrew/js/icons.js:95-107 | With every box checked, the pool is every item of the dataset when category names are unique. |
| Rounds.GatherItems | learning/hebrew/js/icons.js:99-107 | The gathering loop builds exactly `Pool`: the selected categories' items, concatenated in selection order. |
| Rounds.BuildIndex | learning/hebrew/js/icons.js:113-116 | The assignment loop builds exactly `IndexById` of the sample. |
| Rounds.IdsPermutation | learning/hebrew/js/colors.js:128-129 | Permuting entries permutes their ids, so the name column is a permutation of the shuffled round's ids. |
| Rounds.SampleIdsDistinct | learning/hebrew/js/icons.js:110 | A sample from a pool with unique ids has unique ids. |
| Rounds.DrawRound | learning/hebrew/js/colors.js:120-129 | The round has `min(max, \|pool\|)` entries drawn from the pool without replacement. With unique ids in the pool they have unique ids. The name column is a permutation of their ids. The table indexes exactly the round. |
| Rounds.CategoryGame.constructor | learning/hebrew/js/colors.js:386-404 | The start-up round draws from every category (all boxes start checked) and satisfies `RoundLoaded`. |
| Rounds.CategoryGame.LoadRound | learning/hebrew/js/colors.js:100-138 | `RoundLoaded`: the round has `min(MaxCount, \|pool\|)` entries of the checked categories' pool, drawn without replacement. The names are a permutation of their ids. Nothing is matched or selected. The counters are 0 and the history is empty. icons.js:88-128 is the same. |
| Rounds.CategoryGame.RenderNames | learning/hebrew/js/icons.js:165-173 | The name column is reconciled against the unmatched ids of the round, and the game invariant holds again. |
| Rounds.CategoryGame.Available | learning/hebrew/js/colors.js:184 | The available ids are exactly the round's ids that are not matched, and there are at most as many as items in the round. icons.js:170 is the same. |
| Rounds.CategoryGame.Remaining | learning/hebrew/js/colors.js:257-262 | `currentItems.length - matched.size`: with unique ids and every matched id in the round, it is the number of available ids. icons.js:235-238 is the same. |
| Rounds.CategoryGame.ClickPrompt | learning/hebrew/js/icons.js:153-161 | `PromptClicked` on the engine. The name column is not re-rendered. |
| Rounds.CategoryGame.ClickName | learning/hebrew/js/icons.js:193-201 | `NameClicked` on the engine. Without an evaluation the column is re-rendered; with unique ids that leaves it unchanged. The round itself stays. |
| Rounds.CategoryGame.Settle | learning/hebrew/js/icons.js:259-275 | `Settled` on the engine, then the name column is reconciled against the new matched set. |
| Rounds.CategoryGame.SetCategories | learning/hebrew/js/colors.js:365-369 | Only the category data is replaced. The current round stays valid. |
| Rounds.RemainingIsNameCount | learning/hebrew/js/colors.js:260 | With unique ids and only round ids matched, `currentItems.length - matched.size` is the number of name tiles shown. icons.js:236 is the same. |
| Colors.SaveEditedData | learning/hebrew/js/colors.js:362-378 | A refused edit changes nothing. An accepted one replaces the category data and loads a round from the names that were checked before the edit. |
| Icons.SaveEditedData | learning/hebrew/js/icons.js:343-361 | A refused edit changes nothing. An accepted one replaces the category data, re-renders the boxes all checked, and loads a round from every new category. |
| Letters.Normalise | learning/hebrew/js/letters.js:9 | A folded key is never a final form. The five final forms become their base letters. Every other character is unchanged. |
| Letters.NormaliseIdempotent | learning/hebrew/js/letters.js:386 | Folding twice is folding once. |
| Letters.LettersGame.Expected | learning/hebrew/js/letters.js:357 | The next id of the sequence, present exactly while the cursor is inside the letter list. |
| Letters.IsSequenceMode | learning/hebrew/js/letters.js:57-59 | Exactly the modes other than the two match modes are sequence modes. |
| Letters.LettersGame.Available | learning/hebrew/js/letters.js:162-200 | The ids the name column shows: `KID_ORDER` without the done ids (sequence modes, letters.js:164) or without the matched ids (match modes, letters.js:197). There are at most as many as letters; `NothingExcluded` and `SequenceRemaining` say which. |
| Letters.LettersGame.Remaining | learning/hebrew/js/letters.js:276-286 | `LETTERS.length - seqIndex` in sequence modes and `LETTERS.length - matched.size` otherwise. With unique ids it is the number of available ids, when the done letters are exactly those before the cursor (sequence modes) or every matched id is a letter (match modes). |
| Letters.LettersGame.NothingExcluded | learning/hebrew/js/letters.js:197 | With nothing done and nothing matched, every id of `KID_ORDER` is available, in order. |
| Letters.LettersGame.constructor | learning/hebrew/js/letters.js:535-544 | Start-up: the letter tables are derived from the data. The mode is ordered match with the letter column in kid order. Nothing is done, matched or scored. The name column is a permutation of the kid order. |
| Letters.LettersGame.InitializeGame | learning/hebrew/js/letters.js:535-540 | On a fresh state, the name column becomes a permutation of every id and the render leaves it as it is. The game invariant holds, and the cursor is at the start with nothing done. |
| Letters.LettersGame.SetLetters | learning/hebrew/js/letters.js:62-69 | `KID_ORDER` is the ids and `byId` the table of the new data. The letter column is reset to kid order. The names are a permutation of the kid order. The mode and the cursor stay. |
| Letters.LettersGame.RenderNames | learning/hebrew/js/letters.js:162-200 | Reconciles against the ids not done (sequence modes) or not matched (match modes), keeping survivors in order. With unique ids the column is then a permutation of those ids. |
| Letters.LettersGame.ClickLetter | learning/hebrew/js/letters.js:146-154 | `PromptClicked` on the engine: a matched letter changes nothing, otherwise the selection toggles and evaluation fires exactly when both selections are truthy. |
| Letters.LettersGame.ClickName | learning/hebrew/js/letters.js:218-226 | `NameClicked` on the engine. Without an evaluation the name column is re-rendered; with unique ids that leaves it unchanged. |
| Letters.LettersGame.ClickSequenceName | learning/hebrew/js/letters.js:188-191 | A done tile records and scores nothing. Any other tile is one `evaluateSequenceClick`. |
| Letters.LettersGame.EvaluateSequenceClick | learning/hebrew/js/letters.js:356-381 | Correct exactly when the clicked id is `KID_ORDER[seqIndex]`. The history grows by one record naming the expected id, or none past the end, and exactly one counter moves. A step forward is scheduled only for a correct click. |
| Letters.LettersGame.HandleKeydown | learning/hebrew/js/letters.js:382-418 | Outside typing mode, for a key that is not one character, or past the end of the sequence: no record and no change. Otherwise the folded character is recorded and compared with the expected letter's `he`. Exactly one counter moves. A correct key schedules the step for the expected id. |
| Letters.LettersGame.SettleMatch | learning/hebrew/js/letters.js:335-351 | `Settled` on the engine, then the name column is reconciled in the mode current at that time. |
| Letters.LettersGame.SettleAdvance | learning/hebrew/js/letters.js:363-370 | The id is added to `seqDone` and `seqIndex` grows by exactly one. When the cursor followed the alphabet and the id was the expected one, it still does (`InOrder`). |
| Letters.LettersGame.Settle | learning/hebrew/js/letters.js:335-370 | Dispatches a pending settle. A match settle changes neither the cursor nor the done set. A sequence step leaves the engine unchanged. |
| Letters.LettersGame.SetMode | learning/hebrew/js/letters.js:421-430 | The mode is set. The letter column is a permutation of the kid order in shuffled match and equal to it otherwise. Then the round is reset. |
| Letters.LettersGame.ResetRound | learning/hebrew/js/letters.js:431-443 | `RoundReset`: nothing matched or done, no selections, zero counters and cursor, empty history. The name column is a permutation of the kid order. |
| Letters.LettersGame.ClearRound | learning/hebrew/js/letters.js:432-441 | The assignments of `resetRound` before it renders: the same state as `RoundReset`, with the cursor at the start. |
| Letters.LettersGame.Reshuffle | learning/hebrew/js/letters.js:470-481 | A new letter order only in shuffled match, and a name column holding exactly the available ids. Both selections are cleared. The matched set, the score, the history and the cursor stay. |
| Letters.SaveOutcome | learning/hebrew/js/letters.js:512-525 | The editor reports success exactly for an array that is non-empty or saved in a match mode, and then returns that array. Unparsable text is invalid JSON, and so is an empty array saved in a sequence mode, because rendering the next-target pill then throws (letters.js:304-309). Every other refusal is invalid format. |
| Letters.LettersGame.SaveEditedData | learning/hebrew/js/letters.js:512-525 | The result is `SaveOutcome` for the mode before the save. Anything but an array changes nothing. Any array becomes the letter list, even an empty one whose save is reported as invalid JSON. A new round then starts in the same mode with the letter column in kid order. |
| Letters.SequenceRemaining | learning/hebrew/js/letters.js:280-281 | While the cursor follows the alphabet and ids are unique, the name column shows exactly the letters from the cursor on. `LETTERS.length - seqIndex` is their number. |
| Letters.MatchRemaining | learning/hebrew/js/letters.js:282-283 | In match modes `LETTERS.length - matched.size` is the number of name tiles shown, when ids are unique and only letters are matched. |
| Scenarios.MatchScenario | learning/hebrew/js/colors.js:272-304 | Three items with max 3: the round holds all three. A with A is correct and B with C is wrong. Afterwards only A is matched, the score is 1 and 1, and both selections are clear. |
| Scenarios.SequenceScenario | learning/hebrew/js/letters.js:356-376 | Clicking C first is wrong: the record names A as expected and the cursor stays at 0. Clicking A then moves the cursor to 1 with A done. |
| Scenarios.TypingScenario | learning/hebrew/js/letters.js:386-393 | Typing final kaf when kaf is expected is correct. The base letter is recorded. |
| Scenarios.BareArrayScenario | learning/hebrew/js/colors.js:365-366 | A bare array saved in the colors editor becomes the category data. |
| Scenarios.PendingReevaluation | learning/hebrew/js/letters.js:146-151 | Choosing letter B while the settle of A with A is pending evaluates B with A at once. |
| Scenarios.DoubleTap | learning/hebrew/js/letters.js:356-370 | Two clicks on the expected letter before the first settle both score. The cursor ends at 2 with only A done, and one letter is counted as remaining. |
| Scenarios.StaleSettle | learning/hebrew/js/letters.js:431-443 | A reset does not cancel a pending settle. The new round has a zero score and an empty history but already has A matched. |

## Behaviours worth knowing

The model follows the code in each of these cases, where a reader might expect otherwise.

- One might expect that no second attempt can be made while one is waiting to settle.
  The code keeps the name selection until the settle runs. So clicking another prompt in
  that window evaluates it at once against the same name (`Scenarios.PendingReevaluation`).
- One might expect the sequence cursor to move one step per letter answered correctly,
  so that no letter is counted twice. The step lands after a delay, and the code checks
  a click against `seqIndex` and `seqDone`, which only the delayed step updates. So a second click on the expected tile, or a
  repeated key, before that step scores twice and moves the cursor by two, with one
  letter done (`Scenarios.DoubleTap`). From then on `LETTERS.length - seqIndex` no longer
  counts the letters left. The first letter not done is then never expected, and
  `KID_ORDER[seqIndex]` can run past the end of the list.
- One might expect a pending settle to be checked against the current round. The code
  has no such guard. A settle that lands after a reset, a mode switch or a new round adds
  its id to the new round's matched set (`Scenarios.StaleSettle`). For the colors and
  icons games the id may not even belong to the new round. `Remaining` then counts one
  too few, which is why `RemainingIsNameCount` and `MatchRemaining` require every matched
  id to belong to the round.
- `null` edited data is refused by every game, with different messages. The colors and
  icons handlers read `null.categories`, which throws, and report invalid JSON. The letters handler only
  tests `Array.isArray` and reports invalid format.
- Saving edited data in the colors game does not re-render the category boxes. The new
  round draws from the names checked before the edit, and names that no longer exist
  are skipped. The icons game re-renders them all checked.

## Left out

- DOM rendering: buttons, CSS classes, flashes, tooltips, headers, mode labels, the
  layout switch and the next-target pill. This is view code with no state beyond what is
  modelled. The script toggle and the tooltip toggle each flip a display flag that only
  rendering reads (`state.script`, `letterTooltipsEnabled` or `tooltipsEnabled`), then
  re-render. The flags are not modelled. The one state-changing step of that re-render,
  the reconciliation, is idempotent (`ReconcileIdempotent`).
- The next-target pill reads the letter at the cursor. With the cursor past the end it
  throws, as the last statement of an event handler or timer. Nothing is left half
  done, so the model does not capture that exception. The one exception it does capture
  is an empty letter list saved in a sequence mode: the editor's `catch` turns it into
  the reported result (`Letters.SaveOutcome`).
- `fetch` loading and the fallback to the `window.*Data` globals: this is I/O. The model
  starts from the loaded data (`CategoryGame` and `LettersGame` constructors).
  learning/hebrew/js/main.js is not part of this model; it only switches tabs.
- `setTimeout`: the delay is not modelled. Each deferred callback is an explicit
  `Settle`, `SettleMatch` or `SettleAdvance` call that can happen at any later point.
  The callbacks that only re-render the score (wrong sequence answers) change no state
  and are not modelled.
- `Math.random`: `Shuffle` and `SampleItems` choose any index in the range the code
  computes. The contracts hold for every choice; no distribution is claimed.
- Accuracy percentages, `fmtPct`, score-bar widths: floating-point display only.
- `nowTS` timestamps and the `mode`, `letterId`, `colorId` and `iconId` tags of history
  records. Only the display reads them. A record keeps its ids and verdict.
- History trimmed to the last 12 entries for display: presentation only.
- `byChar`: only used to flash the tile of a wrongly typed letter.
- `JSON.parse`, `JSON.stringify` and `parseInt`: library calls. Their outcome is an
  input (`Edited`, and `Option<int>` for the max field).
- Elements of edited data that are not entries or categories, and truthy `categories`
  values that are not arrays. The model takes every element to be an entry or a
  category. Depending on the element, the code either throws inside the same `try`
  (a `null` element, or a category without an `items` array: colors.js:114,
  icons.js:103), which is reported as invalid JSON after part of the state has
  changed, or accepts it without an error. A letters edit `[1, 2]` gives a `KID_ORDER`
  of two `undefined` ids (letters.js:64), and a colors or icons edit `[1]` finds no
  category (colors.js:112, icons.js:101) and loads an empty round.
- Letters.LettersGame.HandleKeydown: a key counts as one character. The code tests the
  UTF-16 length of `e.key`, which agrees for the Hebrew letters, which are all in the
  Basic Multilingual Plane.
- Letters.LettersGame.ClickLetter, Letters.LettersGame.ClickName: they require a
  match mode, and `ClickSequenceName` requires a sequence mode. Each grid only renders
  the tiles and handlers of the current mode, and every mode switch re-renders.
