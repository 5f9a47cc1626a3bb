/** The `Home` component of src/components/home.rs: a three-mode state
    machine over the loaded stacks and the stack list's selection.

    Arithmetic follows a Rust debug build: `usize` overflow and underflow
    panic, and a panic is the `Failure` outcome of a key event. */
module HomeComponent {
  import opened Wrappers
  import opened RustInts
  import Stacks

  /** What the component is focused on; `BrowseStacks` is the default. */
  datatype Mode = BrowseStacks | BrowseEntries | Command

  /** The keys of crossterm's `KeyCode` that matter here; every other key
      code behaves like `Esc` and `Char`: it is not recognised. */
  datatype KeyCode = Up | Down | Enter | Esc | Char(c: char) | OtherKey

  /** A key press; the modifier bits are carried but never consulted. */
  datatype KeyEvent = KeyEvent(code: KeyCode, modifiers: u8)

  /** The actions a component can hand back to the application loop
      (`crate::action` is not part of this model; only a placeholder is kept). */
  datatype Action = Resume | OtherAction(name: string)

  /** Why a key event aborted the program. */
  datatype Panic = AddWithOverflow | SubtractWithOverflow

  /** A `Vec<Stack>`: its length is a `usize`. */
  type StackList = s: seq<Stack> | |s| <= USIZE_MAX

  type Stack = Stacks.Stack

  /** The component's state: the loaded stacks, the `ListState` selection
      (its scroll offset is not modelled) and the mode. The action sender
      and the configuration carry no logic and are left out. */
  datatype Home = Home(stacks: StackList, selected: Option<usize>, mode: Mode)

  /** The border colours of the stack panel. */
  datatype Color = Yellow | White

  function Min(a: int, b: int): int { if a <= b then a else b }

  function Max(a: int, b: int): int { if a >= b then a else b }

  /** `usize` addition as a debug build performs it. */
  function CheckedAdd(a: usize, b: usize): (r: Result<usize, Panic>)
    ensures r.Success? <==> a + b <= USIZE_MAX
    ensures r.Success? ==> r.value == a + b
  {
    if a + b <= USIZE_MAX then Success(a + b) else Failure(AddWithOverflow)
  }

  /** `usize` subtraction as a debug build performs it. */
  function CheckedSub(a: usize, b: usize): (r: Result<usize, Panic>)
    ensures r.Success? <==> b <= a
    ensures r.Success? ==> r.value + b == a
  {
    if b <= a then Success(a - b) else Failure(SubtractWithOverflow)
  }

  /** The selection is absent or names an element of the stack list. */
  predicate InBounds(h: Home) {
    h.selected.Some? ==> h.selected.value < |h.stacks|
  }

  /** `Home::new`, i.e. `Home::default()`: no stacks, nothing selected,
      browsing stacks. */
  function New(): (h: Home)
    ensures h.stacks == [] && h.selected == None && h.mode == BrowseStacks
    ensures InBounds(h)
  {
    Home([], None, BrowseStacks)
  }

  /** `load_stacks` with the provider's answer as a parameter: the list is
      replaced wholesale and the selection is cleared. */
  function LoadStacksFrom(h: Home, provided: StackList): (r: Home)
    ensures r.stacks == provided && r.selected == None && r.mode == h.mode
    ensures InBounds(r)
  {
    h.(stacks := provided, selected := None)
  }

  /** `load_stacks` as written: the provider is the stub `Stack::get_all`. */
  function LoadStacks(h: Home): (r: Home)
    ensures r.stacks == Stacks.GetAll() && r.selected == None && r.mode == h.mode
    ensures |r.stacks| == Stacks.STUB_SIZE
    ensures forall i :: 0 <= i < |r.stacks| ==> r.stacks[i].id == i + 1
  {
    LoadStacksFrom(h, Stacks.GetAll())
  }

  /** `init` with the provider's answer as a parameter: it loads the stacks
      and then selects index 2 whatever their number, so the selection is in
      bounds exactly when at least three stacks were provided. */
  function InitFrom(h: Home, provided: StackList): (r: (Home, Result<Unit, Report>))
    ensures r.1.Success?
    ensures r.0.stacks == provided && r.0.mode == h.mode
    ensures r.0.selected == Some(2)
    ensures InBounds(r.0) <==> |provided| >= 3
  {
    var loaded := LoadStacksFrom(h, provided);
    (loaded.(selected := Some(2)), Success(Unit))
  }

  /** `init` as written: the four-stack stub keeps index 2 in bounds. */
  function Init(h: Home): (r: (Home, Result<Unit, Report>))
    ensures r.1.Success?
    ensures r.0.stacks == Stacks.GetAll() && r.0.selected == Some(2) && r.0.mode == h.mode
    ensures InBounds(r.0)
  {
    InitFrom(h, Stacks.GetAll())
  }

  /** The stack panel's border colour in `draw_stack_ui`: highlighted
      exactly when the stacks have the focus. */
  function StackBorderColor(mode: Mode): (c: Color)
    ensures c == Yellow <==> mode == BrowseStacks
  {
    match mode
    case BrowseStacks => Yellow
    case _ => White
  }

  /** `handle_keys_for_stack_mode`. The index defaults to 0 when nothing is
      selected; Down computes `min(index + 1, len - 1)` with checked `usize`
      arithmetic, Up decrements unless at 0, Enter switches to
      `BrowseEntries` when a selection exists, and whatever the key the
      index is written back as the selection. */
  function HandleKeysForStackMode(h: Home, key: KeyEvent): (r: Result<Home, Panic>)
    ensures r.Failure? <==>
              key.code == Down && (h.selected.UnwrapOr(0) == USIZE_MAX || |h.stacks| == 0)
    ensures r.Failure? && h.selected.UnwrapOr(0) < USIZE_MAX ==> r.error == SubtractWithOverflow
    ensures r.Failure? && h.selected.UnwrapOr(0) == USIZE_MAX ==> r.error == AddWithOverflow
    ensures r.Success? ==> r.value.stacks == h.stacks && r.value.selected.Some?
    ensures r.Success? && key.code == Down ==>
              var i := h.selected.UnwrapOr(0);
              var j := r.value.selected.value;
              j < |h.stacks| &&
              (i + 1 < |h.stacks| ==> j == i + 1) &&
              (i + 1 >= |h.stacks| ==> j == |h.stacks| - 1)
    ensures r.Success? && key.code == Up ==>
              var i := h.selected.UnwrapOr(0);
              (i > 0 ==> r.value.selected.value == i - 1) &&
              (i == 0 ==> r.value.selected.value == 0)
    ensures r.Success? && key.code != Up && key.code != Down ==>
              r.value.selected == Some(h.selected.UnwrapOr(0))
    ensures r.Success? && key.code != Enter ==> r.value.mode == h.mode
    ensures r.Success? && key.code == Enter ==>
              (r.value.mode == BrowseEntries <==> h.selected.Some? || h.mode == BrowseEntries) &&
              (h.selected.None? ==> r.value.mode == h.mode)
  {
    var selectedIndex := h.selected.UnwrapOr(0);
    var moved: Result<usize, Panic> :=
      match key.code
      case Down =>
        var next :- CheckedAdd(selectedIndex, 1);
        var last :- CheckedSub(|h.stacks|, 1);
        Success(Min(next, last))
      case Up =>
        Success(if selectedIndex > 0 then selectedIndex - 1 else selectedIndex)
      case _ =>
        Success(selectedIndex);
    var mode := if key.code == Enter && h.selected.Some? then BrowseEntries else h.mode;
    var index :- moved;
    Success(h.(mode := mode, selected := Some(index)))
  }

  /** `handle_keys_for_entry_mode`: its body is empty. */
  function HandleKeysForEntryMode(h: Home, key: KeyEvent): (r: Home)
    ensures r.stacks == h.stacks && r.selected == h.selected && r.mode == h.mode
  {
    h
  }

  /** `handle_key_events`: dispatch on the mode. Only stack mode reacts to
      keys; the result is always `Ok(None)` unless the key panicked. */
  function HandleKeyEvents(h: Home, key: KeyEvent): (r: Result<(Home, Option<Action>), Panic>)
    ensures r.Success? ==> r.value.1 == None && r.value.0.stacks == h.stacks
    ensures r.Failure? <==>
              h.mode == BrowseStacks && key.code == Down &&
              (h.selected.UnwrapOr(0) == USIZE_MAX || |h.stacks| == 0)
    ensures h.mode != BrowseStacks ==> r == Success((h, None))
    ensures h.mode == BrowseStacks && r.Success? ==>
              r.value.0.selected.Some? && r.value.0.mode != Command
  {
    match h.mode
    case BrowseStacks =>
      var next :- HandleKeysForStackMode(h, key);
      Success((next, None))
    case BrowseEntries =>
      Success((HandleKeysForEntryMode(h, key), None))
    case Command =>
      Success((h, None))
  }

  /** A sequence of key events fed to `handle_key_events` one after the
      other; the first panic ends the run. */
  function Run(h: Home, keys: seq<KeyEvent>): Result<Home, Panic>
    decreases |keys|
  {
    if keys == [] then Success(h)
    else
      var step :- HandleKeyEvents(h, keys[0]);
      Run(step.0, keys[1..])
  }

  /** `n` presses of the same key. */
  function Repeat(key: KeyEvent, n: nat): (keys: seq<KeyEvent>)
    ensures |keys| == n
    ensures forall i :: 0 <= i < n ==> keys[i] == key
  {
    if n == 0 then [] else [key] + Repeat(key, n - 1)
  }
}
