/** Properties of the `Home` state machine over whole runs of key events. */
module HomeProperties {
  import opened Wrappers
  import opened RustInts
  import Stacks
  import opened HomeComponent

  const DOWN := KeyEvent(Down, 0)
  const UP := KeyEvent(Up, 0)
  const ENTER := KeyEvent(Enter, 0)

  /** Running `a` then `b` is running `a + b`, as long as `a` does not panic. */
  lemma {:induction false} RunAppend(h: Home, a: seq<KeyEvent>, b: seq<KeyEvent>)
    requires Run(h, a).Success?
    ensures Run(h, a + b) == Run(Run(h, a).value, b)
    decreases |a|
  {
    if a == [] {
      assert a + b == b;
    } else {
      assert (a + b)[0] == a[0];
      assert (a + b)[1..] == a[1..] + b;
      RunAppend(HandleKeyEvents(h, a[0]).value.0, a[1..], b);
    }
  }

  /** Outside stack mode no key has any effect: once the component browses
      entries (or is in command mode) it stays there, with the same stacks
      and the same selection, whatever keys follow. */
  lemma {:induction false} OtherModesAbsorbKeys(h: Home, keys: seq<KeyEvent>)
    requires h.mode != BrowseStacks
    ensures Run(h, keys) == Success(h)
    decreases |keys|
  {
    if keys != [] {
      OtherModesAbsorbKeys(h, keys[1..]);
    }
  }

  /** Enter leaves stack mode exactly when something was selected; the
      selected index and the stacks are untouched either way. */
  lemma EnterEntersIffSelected(h: Home, key: KeyEvent)
    requires h.mode == BrowseStacks && key.code == Enter
    ensures HandleKeyEvents(h, key).Success?
    ensures HandleKeyEvents(h, key).value.0.mode == BrowseEntries <==> h.selected.Some?
    ensures HandleKeyEvents(h, key).value.0.stacks == h.stacks
    ensures h.selected.Some? ==> HandleKeyEvents(h, key).value.0.selected == h.selected
  {
  }

  /** In stack mode every key other than a panicking Down leaves a
      selection behind; an absent selection becomes index 0 for every key
      but Down. */
  lemma KeyInStackModeSelects(h: Home, key: KeyEvent)
    requires h.mode == BrowseStacks && HandleKeyEvents(h, key).Success?
    ensures HandleKeyEvents(h, key).value.0.selected.Some?
    ensures h.selected == None && key.code != Down ==>
              HandleKeyEvents(h, key).value.0.selected == Some(0)
  {
  }

  /** A Down in stack mode on an empty stack list panics: `len - 1`
      underflows (unless `index + 1` has already overflowed). A freshly
      constructed component, before `init`, is in exactly that state. */
  lemma DownOnEmptyPanics(h: Home)
    requires h.mode == BrowseStacks && h.stacks == []
    requires h.selected.UnwrapOr(0) < USIZE_MAX
    ensures HandleKeyEvents(h, DOWN) == Failure(SubtractWithOverflow)
  {
  }

  /** `n >= 1` Down presses from index `i` land on `min(i + n, len - 1)`. */
  lemma {:induction false} DownRun(h: Home, n: nat)
    requires h.mode == BrowseStacks && |h.stacks| > 0
    requires h.selected.UnwrapOr(0) < USIZE_MAX
    requires n >= 1
    ensures Run(h, Repeat(DOWN, n)) ==
              Success(h.(selected := Some(Min(h.selected.UnwrapOr(0) + n, |h.stacks| - 1))))
    decreases n
  {
    var first := HandleKeyEvents(h, DOWN).value.0;
    assert Repeat(DOWN, n)[0] == DOWN;
    assert Repeat(DOWN, n)[1..] == Repeat(DOWN, n - 1);
    assert Run(h, Repeat(DOWN, n)) == Run(first, Repeat(DOWN, n - 1));
    if n > 1 {
      DownRun(first, n - 1);
    }
  }

  /** Repeated Down converges: after at least `len` presses the selection is
      the last stack, and a further Down keeps it there. */
  lemma DownConverges(h: Home, n: nat)
    requires h.mode == BrowseStacks && |h.stacks| > 0
    requires h.selected.UnwrapOr(0) < USIZE_MAX
    requires n >= |h.stacks|
    ensures Run(h, Repeat(DOWN, n)).Success?
    ensures Run(h, Repeat(DOWN, n)).value.selected == Some(|h.stacks| - 1)
    ensures Run(h, Repeat(DOWN, n + 1)) == Run(h, Repeat(DOWN, n))
  {
    DownRun(h, n);
    DownRun(h, n + 1);
  }

  /** `n >= 1` Up presses from index `i` land on `max(i - n, 0)`; Up never
      panics, even on an empty stack list. */
  lemma {:induction false} UpRun(h: Home, n: nat)
    requires h.mode == BrowseStacks
    requires n >= 1
    ensures Run(h, Repeat(UP, n)) ==
              Success(h.(selected := Some(Max(h.selected.UnwrapOr(0) - n, 0))))
    decreases n
  {
    var first := HandleKeyEvents(h, UP).value.0;
    assert Repeat(UP, n)[0] == UP;
    assert Repeat(UP, n)[1..] == Repeat(UP, n - 1);
    assert Run(h, Repeat(UP, n)) == Run(first, Repeat(UP, n - 1));
    if n > 1 {
      UpRun(first, n - 1);
    }
  }

  /** Repeated Up converges: once at least as many presses as the starting
      index have been made the selection is 0, and a further Up keeps it. */
  lemma UpConverges(h: Home, n: nat)
    requires h.mode == BrowseStacks
    requires n >= 1 && n >= h.selected.UnwrapOr(0)
    ensures Run(h, Repeat(UP, n)) == Success(h.(selected := Some(0)))
    ensures Run(h, Repeat(UP, n + 1)) == Run(h, Repeat(UP, n))
  {
    UpRun(h, n);
    UpRun(h, n + 1);
  }

  /** One key in stack mode keeps a non-empty list's selection in bounds,
      and never panics from such a state. */
  lemma KeyPreservesInBounds(h: Home, key: KeyEvent)
    requires h.mode == BrowseStacks && |h.stacks| > 0 && InBounds(h)
    ensures HandleKeyEvents(h, key).Success?
    ensures InBounds(HandleKeyEvents(h, key).value.0)
  {
  }

  /** From an in-bounds state over a non-empty list no run of keys panics;
      the stacks never change, the selection stays in bounds, and the mode
      never becomes `Command`. */
  lemma {:induction false} RunPreservesInBounds(h: Home, keys: seq<KeyEvent>)
    requires h.mode != Command && |h.stacks| > 0 && InBounds(h)
    ensures Run(h, keys).Success?
    ensures Run(h, keys).value.stacks == h.stacks
    ensures InBounds(Run(h, keys).value)
    ensures Run(h, keys).value.mode != Command
    decreases |keys|
  {
    if keys != [] {
      if h.mode == BrowseStacks {
        KeyPreservesInBounds(h, keys[0]);
      }
      RunPreservesInBounds(HandleKeyEvents(h, keys[0]).value.0, keys[1..]);
    }
  }

  /** The start-up path as written: `new`, then `init`, selects the third of
      the four stub stacks; Enter then moves to entry browsing for good. */
  lemma InitThenEnter(keys: seq<KeyEvent>)
    ensures var h := Init(New()).0;
            && h.mode == BrowseStacks
            && h.selected == Some(2)
            && InBounds(h)
            && Run(h, [ENTER] + keys) == Success(h.(mode := BrowseEntries))
  {
    var h := Init(New()).0;
    RunAppend(h, [ENTER], keys);
    OtherModesAbsorbKeys(h.(mode := BrowseEntries), keys);
  }
}
