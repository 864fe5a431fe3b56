# Blind Pick quiz and round editor — a verified Dafny model

Blind Pick is a party quiz. Each round a video plays. Every player types a made-up answer,
and the moderator's console shuffles those answers together with the correct one (the "truth").
Each player then picks the row they believe is the truth. When the moderator reveals a row:

- a truth row pays one point to every player who picked it;
- a decoy row pays its author one point for every other player it fooled.

A separate editor maintains the template document. The document holds an ordered list of
rounds, each with a title, a video path and the correct answer.

The model has six modules:

| file | module | what it holds |
|---|---|---|
| `common.dfy` | `Common` | `Option` and `Result` |
| `text.dfy` | `Text` | the parts of Python's `str` the program relies on: `isspace`/`strip`, `splitlines`, decimal rendering, and the default title "Runde n" |
| `json.dfy` | `Json` | a decoded JSON value, and the `record.get(key) or default` idiom both loaders use |
| `blindpick.dfy` | `BlindPick` | the quiz (`quiz_blindpick.py`), see below |
| `blindpick_editor.dfy` | `Editor` | the editor (`quiz_blindpick_editor.py`), see below |
| `interchange.dfy` | `Interchange` | proof that a document the editor saves is one the quiz accepts |

`BlindPick` contains:

- the setup dialog's parsing of player names and template records, as pure functions;
- the slots, the shuffle order and the column rotation;
- the scoring rule, as the function `Award`;
- the console `ControlWindow`, a class whose methods update its `scores`, `roundIndex` and
  `runtime` fields. It flips the `revealed` array of the round's runtime in place, and its
  scoring loops are proved against `Award`.

`Editor` models `BlindPickEditor` as a class over a `seq<Round>` with a selected row, a
document path and a dirty flag:

- the loading loop, the validation loop and the copy-title loop are methods with loop
  invariants, each proved against a specification function;
- list edits (pop, insert, swap) are functions with multiset lemmas.

Inputs the program obtains from Qt or the operating system are parameters of the model:

| input in the program | parameter in the model |
|---|---|
| the text of the players box and of the template path field | `playersText`, `path` |
| the decoded file, or `None` when opening or decoding raised | `loaded: Option<Json>` |
| the order `random.shuffle` produced | `order`, required to be a permutation of `0..n` |
| the answer typed for each player | `answerTexts` |
| the row checked in each player's button group | the `selections` map |
| the path chosen in a file dialog, `""` when cancelled | `path`, `dialogPath` |
| whether writing the file succeeded | `writeOk` |
| the answer to "discard changes?" | `discard` |

## Model

| member | source | states |
|---|---|---|
| Text.Strip | quiz_blindpick.py:104 | `str.strip()` returns one piece of the text with only whitespace before and after it, so it drops whitespace at both ends only; the result has no whitespace at its ends and is empty exactly when the text is all whitespace |
| Text.StripIdempotent | quiz_blindpick.py:104 | stripping twice is stripping once |
| Text.SplitLines | quiz_blindpick.py:103 | `splitlines()` pieces contain no line boundary |
| Text.SplitLinesSingle | quiz_blindpick.py:103 | a text without line boundary is one line, or no line when empty |
| Text.SplitLinesBreak | quiz_blindpick.py:103 | the first line is the text up to the first boundary (`\r\n` counting as one), followed by the lines of the rest |
| Text.NatToString | quiz_blindpick_editor.py:28 | `f"{n}"` is a non-empty string of decimal digits |
| Text.NatToStringInjective | quiz_blindpick_editor.py:359 | different numbers render differently, so the copy loop never retries a title |
| Text.RoundLabelNotBlank | quiz_blindpick_editor.py:28 | the default title "Runde n" is never blank |
| Json.TextOr | quiz_blindpick.py:124-125 | `get(key) or default`: the default for a missing or empty field, the text of a non-empty text field |
| Json.AsText | quiz_blindpick.py:124 | only a JSON string yields text |
| BlindPick.KeepNames | quiz_blindpick.py:104 | every kept name is non-empty and neither starts nor ends with whitespace |
| BlindPick.KeepNamesKeepsFirst | quiz_blindpick.py:104 | a non-blank first line is kept, stripped, ahead of the names of the later lines |
| BlindPick.KeepNamesAppend | quiz_blindpick.py:104 | the names keep the order of their lines |
| BlindPick.KeepNamesAllKept | quiz_blindpick.py:104 | when no line is blank, every line is kept, stripped, in place |
| BlindPick.ParsePlayers | quiz_blindpick.py:103-104 | players are the stripped non-blank lines |
| BlindPick.ParsePlayersOneLine | quiz_blindpick.py:103-104 | one line gives its stripped text, or nothing when blank |
| BlindPick.ParsePlayersNextLine | quiz_blindpick.py:103-104 | the players of a text are those of its first line followed by those of the following lines |
| BlindPick.TemplateOf | quiz_blindpick.py:123-128 | only an object is read; an object whose fields all hold text is always read; a read title is never empty |
| BlindPick.EmptyRecordDefaults | quiz_blindpick.py:123-127 | a record without fields becomes title "Runde n" (counting from 1), empty video and truth |
| BlindPick.TruthKeyPriority | quiz_blindpick.py:127 | the truth is "Richtige Antwort" when non-empty, else "truth", else "" |
| BlindPick.TemplatesFrom | quiz_blindpick.py:123-128 | one template per record, the record at index i read as round i + 1; refused only when some record is malformed |
| BlindPick.ParseTemplates | quiz_blindpick.py:118-128 | a non-object document is malformed; a missing, empty or non-list `rounds` is refused as "no rounds"; a non-empty list of readable records is accepted, the templates matching the records one for one; no other refusal occurs |
| BlindPick.Accept | quiz_blindpick.py:102-131 | refusals in the dialog's order, each exactly when the earlier checks pass: fewer than 2 players, blank path, unreadable file, then the template's own refusal; on success the parsed players and a non-empty template list |
| BlindPick.Slots | quiz_blindpick.py:527-528 | `len(players)+1` slots: slot i is player i's answer, the last is the truth |
| BlindPick.TruthSlotIsLast | quiz_blindpick.py:527-528 | only the last slot is the truth's |
| BlindPick.PermutationCovers | quiz_blindpick.py:531-532 | a shuffle of `range(n)` has n rows, each showing a slot index below n, every index once |
| BlindPick.TruthRowUnique | quiz_blindpick.py:527-532 | after the shuffle, exactly one row shows the truth |
| BlindPick.Rotate | quiz_blindpick.py:546-549 | the rotated order has one column per player |
| BlindPick.RotateColumns | quiz_blindpick.py:546-549 | column i shows player (i − round) mod n, a right rotation; no rotation for no players |
| BlindPick.RotatePermutes | quiz_blindpick.py:546-549 | the rotated columns hold the same names, each as often |
| BlindPick.Award | quiz_blindpick.py:638-646 | scoring keeps the players and never lowers a score |
| BlindPick.TruthRevealPaysPickers | quiz_blindpick.py:639-642 | revealing the truth adds exactly 1 to each player who picked the row, 0 to everyone else |
| BlindPick.DecoyRevealPaysAuthor | quiz_blindpick.py:643-646 | revealing a decoy adds one point per other picker to its author, changes no other score, and the author's own pick pays nothing |
| BlindPick.ThreePlayerShuffle | quiz_blindpick.py:531-532 | the order `[3, 1, 0, 2]` is a shuffle of `range(4)` |
| BlindPick.ThreePlayerRoundShown | quiz_blindpick.py:527-536 | with that order, three players' slots are shown as the truth, b, a and c |
| BlindPick.ThreePlayerRound | quiz_blindpick.py:638-646 | in that round, revealing the first three rows leaves a at 2, b and c at 0 |
| BlindPick.PayTruthPickers | quiz_blindpick.py:639-642 | the loop over the players' groups computes `Award` for the truth |
| BlindPick.PayDecoyAuthor | quiz_blindpick.py:643-646 | the loop over the players' groups computes `Award` for a decoy |
| BlindPick.DecoyPaysOneMore | quiz_blindpick.py:644-646 | a fooled player looked at raises only the author's score, by one |
| BlindPick.DecoyAwardByParts | quiz_blindpick.py:643-646 | scores that moved only for the author, by the number of players fooled, are the awarded scores |
| BlindPick.AwardAsWritten | quiz_blindpick.py:638-646 | scoring keyed on the author string, as written: keeps the players |
| BlindPick.TruthLabelCollision | quiz_blindpick.py:529 | a player named "Richtige Antwort" is scored as the truth by the program, against the rule |
| BlindPick.NoSelections | quiz_blindpick.py:536 | every player's selection is `None` |
| BlindPick.ZeroScores | quiz_blindpick.py:443 | every player's score is 0 |
| BlindPick.AnswersOf | quiz_blindpick.py:526 | one answer per player, in player order: answer i is the text typed for player i |
| BlindPick.RoundRuntime.Blank | quiz_blindpick.py:488-493 | blank answers, empty order and flags, all selections `None` |
| BlindPick.ControlWindow.constructor | quiz_blindpick.py:345-351 | no players, templates or scores, round 0, a blank runtime |
| BlindPick.ControlWindow.CurrentSlots | quiz_blindpick.py:632-634 | one slot per player plus the truth |
| BlindPick.ControlWindow.DisplayedSlot | quiz_blindpick.py:632-636 | the slot on a row is the truth or a current player's |
| BlindPick.ControlWindow.RotatedPlayers | quiz_blindpick.py:546-549 | the columns are a rearrangement of the players |
| BlindPick.ControlWindow.RunSetup | quiz_blindpick.py:438-450 | a refused dialog changes nothing; an accepted one installs players and templates, zeroes scores, goes to round 0 and blanks the round |
| BlindPick.ControlWindow.StartSession | quiz_blindpick.py:441-450 | the new session state after an accepted dialog, consistent |
| BlindPick.ControlWindow.RefreshRound | quiz_blindpick.py:475-497 | with templates, a fresh blank runtime; scores untouched; without templates nothing changes |
| BlindPick.ControlWindow.PrevRound | quiz_blindpick.py:452-458 | refused before setup, no-op at round 0, else one round back with a blank round; the index stays in range |
| BlindPick.ControlWindow.NextRound | quiz_blindpick.py:460-466 | refused before setup, no-op at the last round, else one round on with a blank round; the index stays in range |
| BlindPick.ControlWindow.ShuffleAndShow | quiz_blindpick.py:522-537 | refused before setup; otherwise stores the answers and the permutation, all flags false, all selections `None` |
| BlindPick.ControlWindow.Select | quiz_blindpick.py:617-621 | the player's pick becomes the row; nobody else's pick changes (last write wins) |
| BlindPick.ControlWindow.RevealRow | quiz_blindpick.py:623-649 | no change before a shuffle, for a row out of range, or an already revealed row; otherwise scores become `Award` of the row's author and exactly that row's flag turns true |
| Editor.DefaultRound | quiz_blindpick_editor.py:27-28 | a round with a non-blank default title and no video or answer |
| Editor.RemoveMultiset | quiz_blindpick_editor.py:371 | `pop(i)` takes out exactly the i-th round |
| Editor.InsertMultiset | quiz_blindpick_editor.py:276 | `insert` adds exactly the inserted round |
| Editor.SwapMultiset | quiz_blindpick_editor.py:383 | swapping two rounds keeps every round |
| Editor.SwapTwice | quiz_blindpick_editor.py:393 | a swap undone restores the list |
| Editor.MoveTo | quiz_blindpick_editor.py:270-276 | a drag move keeps the length |
| Editor.MoveToPermutes | quiz_blindpick_editor.py:270-276 | a drag move keeps every round, lands the dragged one at its drop index and keeps the others' order |
| Editor.MoveToSameRow | quiz_blindpick_editor.py:270-276 | dropping a round on its own row, or just below it, changes nothing |
| Editor.RoundOf | quiz_blindpick_editor.py:186-191 | a record without fields becomes `default_round(n)`; only objects are read |
| Editor.RoundOfIgnoresQuizKey | quiz_blindpick_editor.py:189-190 | the "Richtige Antwort" key does not affect the editor |
| Editor.LoadRounds | quiz_blindpick_editor.py:184-191 | the records up to the first malformed one, record i read as round i |
| Editor.FirstIncomplete | quiz_blindpick_editor.py:202-206 | the first round with blank video or answer, or the length |
| Editor.ValidationOf | quiz_blindpick_editor.py:199-209 | no rounds is an error; else the first incomplete round, blank video before blank answer; success exactly when every round is complete |
| Editor.FillTitles | quiz_blindpick_editor.py:202-208 | the list keeps its length, and the rounds from the first error on are untouched |
| Editor.FillTitlesKeepsAnswers | quiz_blindpick_editor.py:202-208 | validation changes no video or answer, and only blank titles before the first error, to "Runde n" |
| Editor.ValidatedRoundsComplete | quiz_blindpick_editor.py:199-209 | after a successful validation every title, video and answer is non-blank |
| Editor.FillTitleComplete | quiz_blindpick_editor.py:207-208 | filling a blank title completes a round with video and answer |
| Editor.ValidateIdempotent | quiz_blindpick_editor.py:199-209 | validating a validated list succeeds and changes nothing |
| Editor.Payload | quiz_blindpick_editor.py:218-221 | the saved document is tagged "blindpick" and lists one record per round, in order |
| Editor.SaveOf | quiz_blindpick_editor.py:215-229 | saving refuses an invalid list, fails on a failed write, else writes the validated rounds |
| Editor.RoundRecord | quiz_blindpick_editor.py:220 | `asdict(r)`: an object with exactly the keys title, video and truth, each holding text |
| Editor.RoundRecordRoundTrip | quiz_blindpick_editor.py:220 | a round with non-empty fields reads back from its record unchanged |
| Editor.RecordsLoadBack | quiz_blindpick_editor.py:184-191 | records of such rounds load back as those rounds, from any first number |
| Editor.SaveLoadRoundTrip | quiz_blindpick_editor.py:218-221 | loading a saved payload of rounds with non-empty fields yields the same rounds |
| Editor.SavedDocumentReloads | quiz_blindpick_editor.py:211-224 | what a successful save writes loads back as the validated rounds |
| Editor.CopyCandidate | quiz_blindpick_editor.py:355-361 | every tried copy title starts with the base title |
| Editor.CopyCandidateInjective | quiz_blindpick_editor.py:358-361 | the loop never tries a title twice |
| Editor.BlindPickEditor.constructor | quiz_blindpick_editor.py:38-125 | a new window starts with a new document: one default round, selected, no path, clean |
| Editor.BlindPickEditor.NewDocument | quiz_blindpick_editor.py:155-163 | unless dirty changes are kept: exactly `[default_round(1)]`, row 0, no path, clean |
| Editor.BlindPickEditor.OpenDocument | quiz_blindpick_editor.py:165-197 | cancel, unreadable file, non-object document and non-list `rounds` change nothing; otherwise the path is set and rounds become the loaded records; a malformed record stops the loop with the rounds so far |
| Editor.BlindPickEditor.AppendRecords | quiz_blindpick_editor.py:184-191 | the loading loop appends exactly `LoadRounds` of the records |
| Editor.BlindPickEditor.Validate | quiz_blindpick_editor.py:199-209 | the loop reports `ValidationOf` and fills the titles before the first error |
| Editor.BlindPickEditor.WriteDocument | quiz_blindpick_editor.py:215-229 | outcome `SaveOf`; the document is clean only after a successful write |
| Editor.BlindPickEditor.SaveDocument | quiz_blindpick_editor.py:211-229 | without a path it asks for one; then as `WriteDocument` |
| Editor.BlindPickEditor.SaveDocumentAs | quiz_blindpick_editor.py:231-238 | a cancelled dialog changes nothing; a chosen path becomes the document's and the document is saved |
| Editor.BlindPickEditor.SelectRow | quiz_blindpick_editor.py:252-256 | row −1 selects nothing, any other row that row |
| Editor.BlindPickEditor.OnRowsMoved | quiz_blindpick_editor.py:258-278 | a single-row move pops and re-inserts at the adjusted drop index, which becomes selected; otherwise nothing changes |
| Editor.BlindPickEditor.CommitFields | quiz_blindpick_editor.py:314-326 | the selected round gets the stripped texts, a blank title keeping the old one; other rounds unchanged |
| Editor.BlindPickEditor.AddRound | quiz_blindpick_editor.py:334-340 | appends `default_round(len+1)`, selects it, existing rounds unchanged |
| Editor.BlindPickEditor.UniqueCopyTitle | quiz_blindpick_editor.py:354-362 | the first of "t (Kopie)", "t (Kopie) 2", … not already a title |
| Editor.BlindPickEditor.DuplicateRound | quiz_blindpick_editor.py:342-352 | inserts after the selected round a copy with a new "(Kopie)" title, selects it; everything else shifts unchanged |
| Editor.BlindPickEditor.DeleteRound | quiz_blindpick_editor.py:364-375 | never below one round; removes exactly the selected round and keeps the selection in range |
| Editor.BlindPickEditor.MoveUp | quiz_blindpick_editor.py:377-385 | swaps with the round above and follows it; no-op at the top or with no valid selection |
| Editor.BlindPickEditor.MoveDown | quiz_blindpick_editor.py:387-395 | swaps with the round below and follows it; no-op at the bottom or with no selection |
| Interchange.ReadersAgree | quiz_blindpick.py:123-128 | without the "Richtige Antwort" key, the quiz and the editor read a record identically |
| Interchange.Templates | quiz_blindpick.py:45-49 | an editor round seen as a quiz template, field for field |
| Interchange.QuizReadsRoundRecord | quiz_blindpick.py:124-127 | the quiz reads every record the editor writes back field for field, an empty title as "Runde n" |
| Interchange.QuizAcceptsSavedDocument | quiz_blindpick.py:118-128 | the quiz's setup accepts a document saved after a successful validation, one template per round, in order |

## Left out

- All Qt widgets, layouts, message boxes and status bar texts; the audience window; video and
  audio playback; the volume slider and its 0.0–1.0 clamp (quiz_blindpick.py:427-434).
- File dialogs, `open`, `json.load` and `json.dump`. A decoded document is a parameter
  (`None` when reading raised), and whether a write succeeds is the parameter `writeOk`.
- `random.shuffle`: its result is the parameter `order`, required to be a permutation.
- `QButtonGroup.checkedId()`: scoring reads the `selections` map, which the click handler keeps
  equal to the checked buttons.
- A truthy JSON field that is not text, for example `"title": 5`. The model treats such a record
  as malformed: the quiz refuses the template, and the editor stops loading at that record.
  The program keeps the value instead. In the quiz a non-text title is only formatted into
  labels (quiz_blindpick.py:484, 507), so the program plays such a round and shows "Runde: 5";
  the model refuses a template the program would play. A non-text video fails in `Path(...)`
  (quiz_blindpick.py:241, reached from 485) and a non-text truth in `QLabel(...)`
  (quiz_blindpick.py:516). Both failures happen in `refresh_round`, after `run_setup` has
  already installed the players, templates and scores (quiz_blindpick.py:442-445). In the
  editor, validation's `strip()` calls (quiz_blindpick_editor.py:203-207) fail on such a value.
- JSON numbers are modelled as integers; they only matter for their truthiness.
- `_reorder_by_titles`: the drag fallback keyed by title. It loses rounds with equal titles, so
  it is no permutation.
- `_on_rows_moved` reads the range from positions 6–8 of the signal's arguments. Qt's
  `rowsMoved` carries five arguments, so in practice the title-based fallback probably runs.
  The model covers the pop-and-insert branch, with the start, end and drop row as parameters.
- The re-entrancy flags `_selection_changing` and `_fields_updating`, `_mark_dirty_typing`,
  `_load_fields_from_model`, `_rebuild_list`, `_choose_video`, the close handlers, and main.py
  (start screen and module registry).
- Qt's row signals are not modelled. Their effect on the selected row is written out in each
  operation, assuming the list widget has one row per round. For example, opening a document
  selects row 0 only when rounds were loaded; otherwise the old selection remains, as in the
  program.
- BlindPickEditor.AddRound: the model selects the new round at `len(rounds) - 1`. The program
  selects the list widget's last row (quiz_blindpick_editor.py:339). The two agree only while the
  widget mirrors `rounds`, and that is false after an open that stops at a malformed record. That
  open skips `_rebuild_list()` (quiz_blindpick_editor.py:194), so the widget keeps the old rows.
  For example, with 3 rounds shown, opening `{"rounds": [{"title": "A"}, 7]}` leaves `[A]` with
  3 rows. Adding a round then selects row 3 in the program, which is no valid round, while the
  model selects round 1. The other list edits (duplicate, delete, move) set their row from
  `current_index`, so the same stale widget can leave their selection off as well. The widget's
  row count is not part of the model.
- Rounds are values rather than shared objects. The program never aliases a round: duplicate
  makes a deep copy, and validation assigns through the list.
- Players with equal names share one score and one selection, as the program's dictionaries
  do. The slots still list each name once per line.

## Findings

| source | as written | input that shows it | evidently intended | confidence | as-written member | corrected member |
|---|---|---|---|---|---|---|
| quiz_blindpick.py:529, 638 | a slot is scored as the truth when its author string equals "Richtige Antwort", which is also a legal player name | players "Richtige Antwort" and "Bob"; Bob picks the decoy of "Richtige Antwort" and it is revealed: Bob gains a point, the decoy's author gains none | the truth slot is told apart from player slots by its kind, not its label; `TruthLabelCollision` exhibits the input, `DecoyRevealPaysAuthor` proves the intended rule | medium, not executed | BlindPick.AwardAsWritten | BlindPick.Award |
