/** The stack-mode key handler with the panic removed: Down computes
    `min(index.saturating_add(1), len.saturating_sub(1))`, so an empty
    stack list no longer aborts the program. Every other key, and every
    state in which the original does not panic, behaves as before. */
module HomeSaturating {
  import opened Wrappers
  import opened RustInts
  import opened HomeComponent

  /** `usize::saturating_add`. */
  function SaturatingAdd(a: usize, b: usize): (r: usize)
    ensures a + b <= USIZE_MAX ==> r == a + b
    ensures a + b > USIZE_MAX ==> r == USIZE_MAX
  {
    if a + b <= USIZE_MAX then a + b else USIZE_MAX
  }

  /** `usize::saturating_sub`. */
  function SaturatingSub(a: usize, b: usize): (r: usize)
    ensures b <= a ==> r + b == a
    ensures b > a ==> r == 0
  {
    if b <= a then a - b else 0
  }

  /** The corrected `handle_keys_for_stack_mode`: it cannot fail. The
      correction only removes the abort; on an empty list Down leaves the
      selection `Some(0)`, out of bounds like every other key leaves it. */
  function HandleKeysForStackModeSaturating(h: Home, key: KeyEvent): (r: Home)
    ensures r.stacks == h.stacks && r.selected.Some?
    ensures key.code == Down && |h.stacks| == 0 ==> r.selected == Some(0)
    ensures key.code == Down && |h.stacks| > 0 ==> r.selected.value < |h.stacks|
    ensures key.code != Enter ==> r.mode == h.mode
  {
    var selectedIndex := h.selected.UnwrapOr(0);
    var index :=
      match key.code
      case Down => Min(SaturatingAdd(selectedIndex, 1), SaturatingSub(|h.stacks|, 1))
      case Up => if selectedIndex > 0 then selectedIndex - 1 else selectedIndex
      case _ => selectedIndex;
    var mode := if key.code == Enter && h.selected.Some? then BrowseEntries else h.mode;
    h.(mode := mode, selected := Some(index))
  }

  /** The corrected `handle_key_events`: total, and still always `Ok(None)`. */
  function HandleKeyEventsSaturating(h: Home, key: KeyEvent): (r: (Home, Option<Action>))
    ensures r.1 == None && r.0.stacks == h.stacks
    ensures h.mode != BrowseStacks ==> r.0 == h
    ensures h.mode == BrowseStacks ==> r.0.selected.Some? && r.0.mode != Command
  {
    match h.mode
    case BrowseStacks => (HandleKeysForStackModeSaturating(h, key), None)
    case BrowseEntries => (HandleKeysForEntryMode(h, key), None)
    case Command => (h, None)
  }

  /** The correction changes nothing the original did not panic on. */
  lemma SaturatingAgrees(h: Home, key: KeyEvent)
    requires HandleKeyEvents(h, key).Success?
    ensures HandleKeyEventsSaturating(h, key) == HandleKeyEvents(h, key).value
  {
  }

  /** A Down on an empty stack list, which panics as written, now selects
      index 0 and otherwise leaves the component as it was. */
  lemma SaturatingDownOnEmpty(h: Home, key: KeyEvent)
    requires h.mode == BrowseStacks && h.stacks == [] && key.code == Down
    ensures HandleKeyEvents(h, key).Failure?
    ensures HandleKeyEventsSaturating(h, key).0 == h.(selected := Some(0))
  {
  }
}
