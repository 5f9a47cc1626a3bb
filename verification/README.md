# Home navigator of terajot, modelled in Dafny

terajot is a terminal browser over "stacks" (named collections) and their
"entries". Its only control flow is the `Home` component: a small state
machine holding the loaded stacks, the stack list's selection (a ratatui
`ListState`, here `Option<usize>`) and a `Mode` (`BrowseStacks`,
`BrowseEntries`, `Command`). Key presses are dispatched on the mode. Only
stack mode reacts to keys: Down and Up move the selection, Enter switches to
entry browsing when something is selected, and the index is always written
back as the selection. Stacks and entries come from in-memory stubs that
return fixed lists.

Files:

- `wrappers.dfy`: `Option`, `Result`, the `color_eyre` report, and the Rust
  integer widths `u8`, `u32` and `usize`.
- `stacks.dfy`: the `Stack` record and its storage stub (`get_all`,
  `get_by_id`, `clone`, and the no-op `save`, `update` and `delete`).
- `entries.dfy`: the `Entry` record and its storage stub.
- `home.dfy`: the `Home` state, `new`, `load_stacks`, `init`, the key
  handlers, and the stack panel's border colour.
- `home_properties.dfy`: lemmas over whole runs of key events. They cover
  bounds, convergence of repeated Down and Up, Enter, and the fact that
  entry mode cannot be left.
- `home_saturating.dfy`: the stack-mode handler with the empty-list panic
  removed (see Findings).

Arithmetic follows a Rust debug build. A `usize` overflow or underflow is a
panic, and a panic is the `Failure` outcome of a key event. The storage stubs
are constant functions. `load_stacks` and `init` are also given with the
provider's list as a parameter (`LoadStacksFrom`, `InitFrom`), so the
navigator can be instantiated with any data source. `LoadStacks` and `Init`
fix that source to `Stack::get_all`.

The model keeps the code's own behaviour, including its gaps and quirks:

- there is no Escape handling, so entry mode cannot be left;
- Enter loads no entries;
- there is no entry cursor and no content truncation;
- `init` selects index 2 whatever the list length;
- Down on an empty list panics;
- every key in stack mode turns an absent selection into `Some(index)`.

## Model

| member | source | states |
|---|---|---|
| HomeComponent.New | src/components/home.rs:25-37 | a new component has no stacks and no selection, and browses stacks |
| HomeComponent.LoadStacksFrom | src/components/home.rs:39-42 | loading replaces the stack list wholesale with the provider's list and clears the selection; the mode is kept |
| HomeComponent.LoadStacks | src/components/home.rs:39-42 | loading from the stub yields exactly the stub's list (four stacks with ids 1..4) and no selection; the mode is kept |
| HomeComponent.InitFrom | src/components/home.rs:108-113 | init always succeeds and selects index 2; that selection is in bounds exactly when at least three stacks were provided |
| HomeComponent.Init | src/components/home.rs:108-113 | with the four-stack stub, the index-2 selection of init is in bounds |
| HomeComponent.StackBorderColor | src/components/home.rs:55-58 | the stack panel is highlighted (yellow) exactly when the mode is BrowseStacks, and white otherwise |
| HomeComponent.HandleKeysForStackMode | src/components/home.rs:83-103 | panics exactly on Down when the index is usize::MAX (add overflow, evaluated first) or the list is empty (subtract overflow); Down clamps to len-1 and stays below len; Up decrements only above 0; Enter switches mode iff a selection existed; the stacks are untouched and a selection always results |
| HomeComponent.HandleKeysForEntryMode | src/components/home.rs:104 | entry mode changes neither the stacks, the selection nor the mode |
| HomeComponent.HandleKeyEvents | src/components/home.rs:115-123 | the result is always Ok(None) unless stack mode panics; outside stack mode the state is returned unchanged; stacks never change |
| HomeProperties.OtherModesAbsorbKeys | src/components/home.rs:115-123 | from BrowseEntries or Command, any sequence of keys leaves the state exactly as it was, so entry mode cannot be left |
| HomeProperties.EnterEntersIffSelected | src/components/home.rs:94-102 | in stack mode Enter reaches BrowseEntries iff a selection existed before the key; the index and the stacks are unchanged |
| HomeProperties.KeyInStackModeSelects | src/components/home.rs:84-102 | after any non-panicking key in stack mode, including unrecognised keys, a selection exists; an absent one becomes Some(0) for every key but Down |
| HomeProperties.DownOnEmptyPanics | src/components/home.rs:87 | Down in stack mode with an empty stack list panics with a subtraction underflow |
| HomeProperties.DownRun | src/components/home.rs:86-88 | n >= 1 Down presses from index i on a non-empty list select min(i + n, len - 1) and never panic |
| HomeProperties.DownConverges | src/components/home.rs:86-88 | at least len Down presses select the last stack, and one more Down keeps it there |
| HomeProperties.UpRun | src/components/home.rs:89-93 | n >= 1 Up presses from index i select max(i - n, 0) and never panic, even on an empty list |
| HomeProperties.UpConverges | src/components/home.rs:89-93 | enough Up presses select index 0, and one more Up keeps it there |
| HomeProperties.KeyPreservesInBounds | src/components/home.rs:83-103 | on a non-empty list with an in-bounds selection, no key panics and the selection stays in bounds |
| HomeProperties.RunPreservesInBounds | src/components/home.rs:115-123 | from an in-bounds state over a non-empty list, no run of keys panics, the stacks never change, the selection stays in bounds and Command mode is never reached |
| HomeProperties.InitThenEnter | src/components/home.rs:108-111 | after new and init the third stub stack is selected in bounds; Enter then moves to entry browsing, where every later key is ignored |
| HomeSaturating.HandleKeysForStackModeSaturating | src/components/home.rs:83-103 | the corrected handler never fails; Down on an empty list selects 0 (still out of bounds, only the abort is removed), and on a non-empty list stays below len |
| HomeSaturating.HandleKeyEventsSaturating | src/components/home.rs:115-123 | the corrected dispatcher is total, always yields no action and keeps the stacks |
| HomeSaturating.SaturatingAgrees | src/components/home.rs:87 | wherever the original does not panic, the corrected handler gives the same state and result |
| HomeSaturating.SaturatingDownOnEmpty | src/components/home.rs:87 | Down on an empty list panics as written; the corrected handler only selects index 0 |
| Stacks.Clone | src/models/stack.rs:19-27 | a clone equals the original in id, name and count |
| Stacks.Save | src/models/stack.rs:30-32 | saving always succeeds |
| Stacks.Update | src/models/stack.rs:34-36 | updating always succeeds and leaves the stack unchanged |
| Stacks.Delete | src/models/stack.rs:73-75 | deleting always succeeds |
| Stacks.GetAll | src/models/stack.rs:38-63 | exactly four stacks with ids 1, 2, 3, 4 in order, each named "Stack n" after its id n |
| Stacks.GetById | src/models/stack.rs:65-71 | always Some(Ok(..)) of the placeholder stack with id 0, named "My Stack", count 5 |
| Stacks.GetByIdConstant | src/models/stack.rs:65-71 | the answer is the same whatever id is asked for |
| Stacks.GetAllIdsDistinct | src/models/stack.rs:40-59 | the stub's stack ids are pairwise distinct |
| Stacks.GetAllNameCarriesId | src/models/stack.rs:40-59 | the digit in each stub stack's name reads back as that stack's id |
| Stacks.GetByIdIgnoresRequest | src/models/stack.rs:65-71 | asking for any positive id returns a stack with a different id |
| Entries.Save | src/models/entry.rs:20-22 | saving always succeeds |
| Entries.Update | src/models/entry.rs:24-26 | updating always succeeds and leaves the entry unchanged |
| Entries.Delete | src/models/entry.rs:62-64 | deleting always succeeds |
| Entries.GetAll | src/models/entry.rs:28-56 | exactly four entries with ids 1, 2, 3, 4 in order, each carrying the requested stack id |
| Entries.GetById | src/models/entry.rs:58-60 | never finds an entry |
| Entries.GetAllBelongsToStack | src/models/entry.rs:28-56 | every entry returned for a stack carries that stack's id |
| Entries.GetAllIdsDistinct | src/models/entry.rs:29-53 | the entry ids returned for one stack are pairwise distinct |
| Entries.GetAllIndependentOfStack | src/models/entry.rs:28-56 | the answers for two stacks differ only in the stamped stack id |

## Left out

- Rendering: `draw`, the list widget of `draw_stack_ui`, `draw_entry_ui` and `draw_status_ui` (ratatui layout, widgets, styles, `Frame`). Only the stack panel's border colour is kept.
- `register_action_handler`, `register_config_handler` and `update`: they store a channel sender or a configuration, or return `Ok(None)`, with no logic. The `command_tx` and `config` fields are left out with them.
- The scroll offset of ratatui's `ListState`; only its selection is modelled.
- The fields of crossterm's `KeyEvent` other than the code and the modifiers. The handlers read only the code.
- Release-build arithmetic: the model panics on `usize` overflow as a debug build does. A release build would wrap `len - 1` to `usize::MAX` and select `index + 1` even on an empty list.
- The serde and native_db derives, the chrono `created`/`updated` timestamps of the draft `src/data/stack.rs`, and the draft files `src/data.rs`, `src/data/stack.rs`, `src/models.rs` and `src/db_reader.rs`. None of them has behaviour.
- Drawing between key events: `Run` feeds key events back to back and ignores any change that rendering the list (`render_stateful_widget` on `stack_state`) might make to the selection, such as clamping an out-of-bounds index.
- `crate::action` and `crate::config` are not part of this model; `Action` is a placeholder datatype.
- Escape handling, loading entries on Enter, an entry cursor and content truncation do not exist in the code, so they are not modelled.
- Stacks.GetAll: the contract does not state the stub's `count` values (1, 5, 3, 8). They are visible in the definition and nothing depends on them.
- Entries.GetAll: the contract does not state the four fixed content texts. `Entries.GetAllIndependentOfStack` states that they do not depend on the stack.

## Findings

| source | as written | input that shows it | evidently intended | confidence | as-written member | corrected member |
|---|---|---|---|---|---|---|
| src/components/home.rs:87 | `min(selected_index + 1, self.stacks.len() - 1)` subtracts 1 from a `usize` length | stack mode with an empty stack list, e.g. `Home::new()` before `init`, then Down | Down on an empty list does not abort the program (the correction only removes the abort: the selection becomes `Some(0)`, still out of bounds on an empty list, as every other key already makes it) | medium (reachable only before `init` or with an empty provider); not executed | HomeProperties.DownOnEmptyPanics | HomeSaturating.SaturatingDownOnEmpty |
