# Portfolio site: content store, admin panel, chat stream and widgets, in Dafny

This project models the behavioural core of a single-page portfolio site written in
React and TypeScript. The model covers six parts.

- **Content store** (`data_context.dfy`). Three collections (projects, skills,
  experience) are mirrored to a string key-value store. A version tag gates loading:
  on a mismatch every stored collection is discarded. Otherwise each collection is
  adopted when present and parseable and falls back to its default independently.
  The store also has a save effect and seven list mutations, including reset.
- **Admin panel** (`admin.dfy`). A passphrase gate sits in front of project and
  skill editing. The model covers the seeded "new project" record, routing a save to
  add or update, the comma-separated technologies field, the inline skill editors,
  and confirmed reset. The panel is a state machine over user events; every event
  that reaches the store is a `DataContext.Dispatch`. It tracks the two tabs, the
  record being edited, the adding flag, and the open project form's own copy of the
  record. The form copies the record only when it mounts, so leaving the projects tab
  discards what was typed. One path even saves an existing project a second time
  through the add form (`Admin.AddThenEditDuplicatesId`).
- **Chat widget** (`ai_chat.dfy`). The model covers the request message list, line
  framing of the streamed response, delta extraction, and accumulation into one
  assistant turn. It also covers the send guard and the error paths.
- **Display filters**. `projects.dfy` models the category filter, the technology
  badges and the empty state. `skills.dfy` models grouping by category over the
  compiled skill list.
- **Typewriter** (`typewriter.dfy`). This is the type–pause–delete–advance step
  machine.
- **Reflex game** (`thank_you.dfy`). This is the idle/running/finished machine with
  score, clamped countdown, target cell, best score and time label.

Shared pieces:

- `types.dfy` holds the records of `types.ts`.
- `text.dfy` holds the JavaScript string operations the code relies on: `trim`,
  single-character `split`, `join`, `startsWith`, and the decimal rendering of a
  number.
- `seqs.dfy` holds `filter`, `map` and the subsequence relation.
- `wrappers.dfy` holds `Option` and `Result`.

JSON is an abstract codec with a `stringify` and a `parse` per collection.
`DataContext.Faithful` states the round trip the persistence properties rely on:
`parse(stringify(x)) == Some(x)`, and the text is never empty. The text must be
non-empty because an empty stored string is falsy and is treated as absent. The
following are all inputs to the model rather than computed by it:

- the clock and the random source;
- the chat API key and the server's reply;
- the system instruction;
- `Number(...)`;
- the JSON parser of the stream.

In these places the model follows what the code does:

- Loading does not write the version tag. The save effect writes it as soon as
  loading has finished, and it writes the three collections with it.
- `resetData` removes the four keys, but the save effect runs again when the reset
  changed state, and then it writes the defaults back. `DataContext.ResetOp.rewritten`
  covers both cases, and both reload to the defaults.
- A `[DONE]` line is skipped and reading continues until the stream ends.
- The technologies field is parsed on every keystroke, not on save.

## Model

| member | source | states |
|---|---|---|
| DataContext.Adopt | contexts/DataContext.tsx:33-56 | a collection is its default unless the version is trusted, the key is present, and its text parses to exactly the adopted value |
| DataContext.Load | contexts/DataContext.tsx:28-61 | a missing or different version tag yields exactly the three defaults; otherwise each collection is its default or the parse of its own key |
| DataContext.LoadIndependent | contexts/DataContext.tsx:33-56 | each collection depends only on the version tag and its own key, so one bad or missing entry never changes the other two |
| DataContext.LoadAdoptsParsed | contexts/DataContext.tsx:37-56 | under a matching version, three present, parseable entries are adopted unchanged |
| DataContext.Persist | contexts/DataContext.tsx:63-71 | nothing is written before loading finishes; afterwards the version tag and the stringified projects, skills and experience are written under their keys and every other key is kept |
| DataContext.PersistThenLoad | contexts/DataContext.tsx:28-71 | with faithful codecs, loading what the save effect wrote gives back exactly the saved collections |
| DataContext.UpdateProject | contexts/DataContext.tsx:73-75 | length and order are kept, and every project with the updated id (and only those) is replaced |
| DataContext.UpdateProjectNoMatch | contexts/DataContext.tsx:73-75 | an update whose id matches nothing leaves the list unchanged |
| DataContext.AddProject | contexts/DataContext.tsx:77-79 | the new project is at index 0 ahead of the unchanged list, with no uniqueness check |
| DataContext.DeleteProject | contexts/DataContext.tsx:81-83 | every project with the id is removed, every other one is kept, and the result is an order-preserving subsequence |
| DataContext.AddThenDelete | contexts/DataContext.tsx:77-83 | adding under a fresh id and then deleting that id restores the original list |
| DataContext.UpdateSkill | contexts/DataContext.tsx:85-87 | only position `index` changes, and an out-of-range index changes nothing |
| DataContext.AddSkill | contexts/DataContext.tsx:89-91 | the skill is appended after the unchanged list |
| DataContext.DeleteSkill | contexts/DataContext.tsx:93-95 | exactly position `index` is removed, or nothing when it is out of range |
| DataContext.AddThenDeleteSkill | contexts/DataContext.tsx:89-95 | deleting the index just appended restores the list |
| DataContext.Apply | contexts/DataContext.tsx:73-105 | project mutations leave skills alone, skill mutations leave projects alone, and only reset touches experience (back to its default) |
| DataContext.Mount | contexts/DataContext.tsx:28-71 | after mounting the store is loaded, a version mismatch gives defaults, and the mirror reloads to the in-memory state |
| DataContext.Dispatch | contexts/DataContext.tsx:64-105 | a mutation changes the store by `Apply` and never touches storage keys outside the four store keys |
| DataContext.DispatchKeepsSynced | contexts/DataContext.tsx:64-105 | after any mutation, including reset either way, a reload shows exactly the in-memory state |
| DataContext.ResetThenReload | contexts/DataContext.tsx:97-105 | reset yields the defaults, and so does the next load, whether the keys stay removed or are rewritten |
| DataContext.UseData | contexts/DataContext.tsx:119-124 | the hook fails with the provider error exactly when there is no provider, and otherwise returns its value |
| Admin.NewProjectSeed | components/Admin.tsx:131-141 | the seed has empty title, description, image URL, link and technologies, category Web App, no featured flag, and the clock's decimal text as id |
| Admin.ParseTechnologies | components/Admin.tsx:283 | one tag per comma plus one, each trimmed and comma-free, with empty pieces kept |
| Admin.EmptyFieldParsesToOneEmptyTag | components/Admin.tsx:283 | clearing the field gives `[""]`, not `[]` |
| Admin.TechnologiesRoundTrip | components/Admin.tsx:282-283 | parsing the `", "`-joined field gives back every non-empty list of trimmed, comma-free tags |
| Admin.TrailingSpaceIsDropped | components/Admin.tsx:282-283 | for any non-empty list of trimmed, comma-free tags, a space typed after the last tag is trimmed away and the field still parses to that same list |
| Admin.ApplyFieldEdit | components/Admin.tsx:248-293 | no form edit changes `id`, `link` or `featured`; only a technologies edit changes the tag list, to the parse of the typed text |
| Admin.Login | components/Admin.tsx:27-34 | the panel unlocks exactly when the typed password equals the passphrase (or it was already unlocked) |
| Admin.Step | components/Admin.tsx:27-245 | while locked no event touches the store, only submitting the exact passphrase unlocks, and an unlocked panel stays unlocked |
| Admin.Reconcile | components/Admin.tsx:126-186 | after a re-render a form copy exists exactly when a form is on screen (projects tab; the add form while adding, else a row with the edited id), and it is the copy the form already held when the same form stays mounted (still the add form, or an edit form in the row with the same id), and otherwise a fresh copy of the edited record |
| Admin.StepKeepsConsistent | components/Admin.tsx:106-248 | every event keeps a form copy present exactly while a form is on screen, with an edit form's copy keeping the edited id |
| Admin.TabRoundTripDiscardsTyping | components/Admin.tsx:106-248 | switching to the skills tab and back remounts the open form on the edited record, losing everything typed into it, with the store untouched |
| Admin.AddThenEditDuplicatesId | components/Admin.tsx:130-177 | Add Project, Edit on a listed record p, skills tab, projects tab, Save: the store becomes p followed by the old list, so p's id is listed twice |
| Admin.NoMutationWhileLocked | components/Admin.tsx:27-38 | any run of events without a submit leaves a locked panel locked and the store untouched |
| Admin.AddProjectOpensSeed | components/Admin.tsx:130-157 | "Add Project" marks the panel as adding with the seed as the edited record; a closed add form opens on the seed, and an open one keeps what was typed |
| Admin.SaveRoutes | components/Admin.tsx:151-166 | saving while adding prepends the form's copy, otherwise updates by its id, and either way clears the edited record and the adding flag and closes the form |
| Admin.FormInputKeepsId | components/Admin.tsx:247-293 | any run of form edits keeps the copy's id, changes nothing else of the panel and touches no store, so an edit save targets the record it was opened on |
| Admin.SkillInputsEditOneField | components/Admin.tsx:188-236 | on the skills tab, the name, level and category controls each replace that one field of the skill at their index and nothing else |
| Admin.SliderKeepsLevelInRange | components/Admin.tsx:215-218 | a level set by the 0–100 range input lies in [0, 100] |
| Admin.AddSkillAppendsPlaceholder | components/Admin.tsx:189-194 | on the skills tab, "Add Skill" appends exactly New Skill / 50 / Web Development |
| Admin.ResetNeedsConfirmation | components/Admin.tsx:94-97 | a declined confirmation changes nothing; an accepted one resets the store to the defaults |
| AIChat.ToGroq | components/AIChat.tsx:23-26 | role `user` maps to `user`, every other role to `assistant`, and the content is the untrimmed text |
| AIChat.BuildGroqMessages | components/AIChat.tsx:20-32 | the system instruction comes first, followed by one message per non-blank turn (length 1 + their count), none of them system or blank |
| AIChat.BuildIsConversion | components/AIChat.tsx:20-32 | after the instruction, the list is exactly the turn-by-turn conversion of the non-blank turns in history order |
| AIChat.BlankTurnIsDropped | components/AIChat.tsx:21-22 | a blank turn anywhere in the history does not affect the request |
| AIChat.Feed | components/AIChat.tsx:53-55 | the lines handed out plus the new buffer rejoin to buffer + chunk, and none of them contains a newline |
| AIChat.ReadFromIsSplit | components/AIChat.tsx:47-57 | all lines handed out, followed by the final buffer, are the newline split of everything received |
| AIChat.ReadAllLines | components/AIChat.tsx:47-57 | the lines processed are the split of the concatenated stream minus its last segment, which is left unprocessed in the buffer |
| AIChat.ChunkingIsIrrelevant | components/AIChat.tsx:49-55 | two streams with the same concatenation yield the same lines and the same leftover |
| AIChat.Coalesce | components/AIChat.tsx:66-69 | `??` falls through only on undefined or null and keeps any other value, including a non-string |
| AIChat.PickDelta | components/AIChat.tsx:66-70 | the delta content wins if it is a string or another value; otherwise the message content is used; only a non-empty string is emitted |
| AIChat.LineDelta | components/AIChat.tsx:57-73 | non-`data:` lines, empty payloads, `[DONE]` and unparseable payloads yield nothing, and an emitted delta is never empty |
| AIChat.SkippedLineIsHarmless | components/AIChat.tsx:57-74 | a line that yields nothing leaves the deltas of the lines before and after it unchanged |
| AIChat.DoneDoesNotStop | components/AIChat.tsx:62 | `data: [DONE]` is skipped and lines after it are still processed |
| AIChat.FoldDeltas | components/AIChat.tsx:127-134 | the running text is the in-order concatenation of the deltas, and it becomes the last message's text while all other messages stay |
| AIChat.BeginSend | components/AIChat.tsx:87-93 | a send clears the input, keeps the history and appends exactly one user turn holding the trimmed input (never blank), and sets in-flight |
| AIChat.HandleSend | components/AIChat.tsx:86-140 | blank input or a send in flight changes nothing; otherwise the user turn is kept, in-flight ends cleared, a request (built from the history without the placeholder) is made exactly when a key is present, and the input box ends empty without a request and holding what was typed meanwhile with one |
| AIChat.FinishSend | components/AIChat.tsx:95-139 | after the user turn is appended: in-flight ends cleared, the history up to that turn is kept, a request is made exactly when the key is present and non-empty and is built from that history, without one exactly the offline error follows and the box stays empty, and with one the box holds what was typed while it was in flight |
| AIChat.FoldIntoPlaceholder | components/AIChat.tsx:103-134 | streaming any deltas into the empty placeholder leaves the earlier turns and one assistant turn holding their concatenation |
| AIChat.MissingKeyAddsOneError | components/AIChat.tsx:96-101 | without a key exactly one error turn follows the user turn and no request is made |
| AIChat.FailedRequestAppendsError | components/AIChat.tsx:103-137 | a failed fetch or HTTP error leaves the empty placeholder and appends the connection error after it |
| AIChat.ReadFailureKeepsPartialText | components/AIChat.tsx:127-137 | a reader that throws mid-stream leaves the text streamed so far in the assistant turn and appends one connection-error turn after it |
| AIChat.NoBodyFillsPlaceholder | components/AIChat.tsx:38-43 | a response without a body leaves one assistant turn holding the JSON message content when it is a non-empty string, and an empty turn otherwise |
| AIChat.StreamedReplyText | components/AIChat.tsx:103-134 | a completed stream leaves one assistant turn whose text is the concatenated deltas of all complete lines |
| AIChat.NoSendWhileTyping | components/AIChat.tsx:87 | a second send while one is in flight changes nothing |
| Projects.FilteredProjects | components/Projects.tsx:11 | `All` shows the whole list; a category shows exactly its projects as an order-preserving subsequence |
| Projects.CategoryPartition | components/Projects.tsx:8-11 | the four category views together hold every project exactly as often as the list does |
| Projects.CategoriesAreDisjoint | components/Projects.tsx:11 | the views of two different categories share no project |
| Projects.TechBadges | components/Projects.tsx:139-148 | the first min(3, n) tags are shown, and a `+(n−3)` badge appears exactly when n > 3 |
| Projects.BadgesAccountForEveryTag | components/Projects.tsx:139-148 | the shown tags and the `+k` count together account for every tag |
| Projects.Render | components/Projects.tsx:11-169 | one card per filtered project, in order, each with its badges |
| Projects.EmptyMessageIffNoMatch | components/Projects.tsx:165-169 | the empty-state message appears exactly when no project matches the filter (for `All`, exactly when the list is empty) |
| Skills.CategoriesAreComplete | components/Skills.tsx:7-13 | the category list names every category, each exactly once |
| Skills.SkillsByCategory | components/Skills.tsx:15 | exactly the skills of that category, as an order-preserving subsequence |
| Skills.GroupsPartition | components/Skills.tsx:7-15 | the groups over the category list together hold every skill exactly as often as the list does |
| Skills.CardsFor | components/Skills.tsx:31-52 | every card's header count equals its group length and is positive, and its skills are its category's group |
| Skills.CardsShowNonEmptyCategories | components/Skills.tsx:31-34 | the cards shown are exactly the categories with a skill, in list order |
| Skills.EverySkillIsCountedOnce | components/Skills.tsx:31-50 | the header counts add up to the number of skills |
| Typewriter.Substring | components/UI/Typewriter.tsx:28-30 | `substring(0, end)` clamps `end` into the word and yields a prefix |
| Typewriter.StartIsValid | components/UI/Typewriter.tsx:18-19 | the first state has a valid index and an empty prefix |
| Typewriter.Step | components/UI/Typewriter.tsx:22-48 | the index stays in range and the text a prefix of the word; typing adds one character, deleting removes one, a fully typed word switches to deleting unchanged, and an empty deleted word advances the index mod n |
| Typewriter.TypesOut | components/UI/Typewriter.tsx:26-32 | typing runs from any prefix to the whole word in one step per missing character |
| Typewriter.ErasesOut | components/UI/Typewriter.tsx:26-32 | deleting runs from any prefix to the empty text in one step per character |
| Typewriter.FullCycle | components/UI/Typewriter.tsx:37-43 | each word is fully typed and then fully deleted in 2|w| + 2 steps before the next word starts |
| ThankYou.LoadBest | components/ThankYou.tsx:31-39 | a missing, empty, non-finite or unreadable stored best loads as 0; a finite number loads as itself |
| ThankYou.Initial | components/ThankYou.tsx:19-24 | the page starts idle with the full 30 s, score 0, the loaded best, the first cell as target and no interval running |
| ThankYou.MoveTarget | components/ThankYou.tsx:71-74 | the target index is in [0, 60), and nothing else but the target key changes |
| ThankYou.StartAsWritten | components/ThankYou.tsx:41-82 | start resets score and time to a running round, but a restart while running keeps the old countdown interval |
| ThankYou.StartGame | components/ThankYou.tsx:76-82 | from any phase: running, score 0, 30000 ms left, best kept, countdown measured from now |
| ThankYou.HandleHit | components/ThankYou.tsx:84-88 | exactly one point while running; nothing at all otherwise |
| ThankYou.Remaining | components/ThankYou.tsx:46-47 | never negative, at most 30000 for a non-negative elapsed time, and 0 exactly when 30000 ms have passed |
| ThankYou.RemainingIsMonotone | components/ThankYou.tsx:46-47 | the countdown never goes up as time passes |
| ThankYou.SavedBest | components/ThankYou.tsx:59-69 | the effect writes the score's decimal text exactly when it raises the best, and writes nothing otherwise |
| ThankYou.RemountReloadsBest | components/ThankYou.tsx:31-69 | when `Number` reads the written text back as its value, a later mount loads exactly the recorded best |
| ThankYou.RecordBest | components/ThankYou.tsx:59-69 | the best never decreases and changes only to the score of a finished round that beats it |
| ThankYou.Tick | components/ThankYou.tsx:41-57 | the time left becomes the clamped remaining time, and the round finishes exactly when that is 0 |
| ThankYou.TimeLeftLabel | components/ThankYou.tsx:26-29 | the seconds shown are ceil(ms / 1000), clamped at 0 |
| ThankYou.LabelRange | components/ThankYou.tsx:26-29 | a live round shows between 1 and 30 seconds |
| ThankYou.Step | components/ThankYou.tsx:41-88 | with start as written, every event keeps the target on the grid, the time within [0, 30000], an interval exactly while running, finished exactly at 0 ms, and never lowers the best |
| ThankYou.BestNeverDecreases | components/ThankYou.tsx:59-66 | over any sequence of events the best score only goes up |
| ThankYou.HitsCount | components/ThankYou.tsx:84-88 | n hits during a round score exactly n points |
| ThankYou.HitsOutsideRoundDoNothing | components/ThankYou.tsx:84-85 | hits while idle or finished change nothing |
| ThankYou.RestartKeepsOldCountdown | components/ThankYou.tsx:41-82 | as written, both directly and as a run of page events: start at 0, restart at 20000, tick at 20100 gives 9900 ms left |
| ThankYou.RestartResetsCountdown | components/ThankYou.tsx:76-82 | with the intended start, a tick after a restart measures time from the restart |

## Left out

- Rendering, styling, icons and animation are left out. This covers the form layout in
  the admin panel, the carousel scrolling in the projects section, the chat window's
  open state and auto-scroll, the skill bars, and the game's target key animation.
  None of it changes state the model tracks.
- `Admin.Step`: when several listed projects share the edited id, React shows an edit
  form in each of those rows, each with its own copy. The model keeps one form copy.
  "Edit" and delete buttons are offered for any listed project whose row shows no form.
- `DataContext.Load` and `DataContext.Persist`: a storage that throws (access denied,
  quota exceeded) is not modelled. `getItem` and `setItem` are called outside any
  `try`, so such an exception would escape the effect. The model's storage is a map
  that always answers.
- `Admin.Panel` is the state of one mount of the panel. Leaving the admin view and
  coming back mounts it afresh, so it starts again from `Admin.Locked` and the
  passphrase must be entered again; the model does not chain mounts.
- The wrong-password `alert` is left out: it is a side effect with no state change.
- `parseInt` on the slider value is replaced by `Admin.Level`. A range input with
  min 0 and max 100 only delivers integer strings in that range.
- The default collections are abbreviated to a few literal records. The compiled
  constants are long data tables, and no property depends on their contents.
- Stored JSON of the wrong shape is left out. JSON that parses but is not a list of
  records (for example `null`) would be adopted by the code; the model's codecs parse
  only to well-formed collections.
- `DataContext.PersistThenLoad`, `DataContext.Mount` and `DataContext.DispatchKeepsSynced`:
  their round-trip parts assume faithful codecs (`DataContext.FaithfulCodecs`).
  `JSON.stringify` and `JSON.parse` are not modelled.
- React effect scheduling and batching are left out. Each mutation is a synchronous
  transition followed by the save effect. Whether the save effect runs again after a
  reset is the `rewritten` input.
- The chat's network I/O is left out: the `fetch` call, its headers, the model name,
  the temperature and the environment reads. The API key is an input and the reply is
  a `Reply` value. `TextDecoder` is left out and chunks are decoded strings.
  `JSON.parse` of a stream line is an oracle.
- The greeting message and the system instruction text are not reproduced. The
  instruction is a parameter.
- `AIChat.HandleSend` and `AIChat.FinishSend` collapse the in-flight window into one
  transition. What the visitor types meanwhile arrives as the final `typed` text. The
  intermediate renders of the streamed text are not states of the model.
- `AIChat.HandleSend` keeps the `isError` flag only on error turns. The placeholder
  object is replaced rather than mutated in place; the resulting list is the same.
- `Typewriter.Step`: the timers and speeds are not modelled, and the model requires
  a valid state with at least one word. The component would fail on an empty word
  list.
- `Typewriter.Step` counts characters as Unicode scalar values, while JavaScript's
  `length` and `substring` count UTF-16 code units. A word outside the Basic
  Multilingual Plane would take two steps per such character in the page and could
  show a lone surrogate; the model takes one step. The words the site ships are ASCII,
  where the two counts agree.
- `ThankYou.Tick` requires a clock that does not run backwards. With a backwards clock
  the remaining time could exceed 30000 ms, so `ThankYou.Valid` bounds it only under
  that assumption.
- Navigation back (`onBack`) is left out. A failing write of the best score is
  caught and ignored by the page, so `ThankYou.SavedBest` models only the text written.
- The timer interval's 100 ms period is left out: each `ThankYou.Tick` is one firing
  at an arbitrary clock reading.

## Findings

| source | as written | input that shows it | evidently intended | confidence | as-written member | corrected member |
|---|---|---|---|---|---|---|
| components/ThankYou.tsx:41-82 | "Restart" while a round runs sets the phase to `running`, which it already is. The countdown effect, keyed on the phase, is not re-run, and the old interval keeps the first round's start time | start at t = 0, restart at t = 20000, tick at t = 20100: 9900 ms left, shown as 10 s | a restart gives a fresh 30-second round counted from the restart (29900 ms left at that tick) | not executed; high | ThankYou.StartAsWritten, ThankYou.RestartKeepsOldCountdown | ThankYou.StartGame, ThankYou.RestartResetsCountdown |
