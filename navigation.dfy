/**
  The two small decision rules of the page's navigation: the keyboard focus
  trap of the open mobile menu, and the header that shrinks once the page
  is scrolled past a threshold.
*/
module Navigation {
  import opened Wrappers

  // ---------------------------------------------------------------------
  // Focus trap
  // ---------------------------------------------------------------------

  /**
    The keydown handler installed by `trapFocus`, as a decision. The menu's
    focusable elements are numbered 0 .. count - 1 in document order;
    `active` is the index of the focused element, or None when focus is on
    something else. The result is the index the handler moves focus to
    (calling `preventDefault`), or None when it leaves the key alone.
    With no focusable element, `firstElement` and `lastElement` are
    `undefined`, which the focused element never is, so nothing happens.
  */
  function TrapRedirect(key: string, shiftKey: bool, active: Option<nat>, count: nat): (r: Option<nat>)
    ensures r.Some? ==> r.value < count
    ensures r.Some? ==> key == "Tab" && active.Some? && active.value < count
  {
    if key != "Tab" || count == 0 || active.None? then None
    else if shiftKey then (if active.value == 0 then Some(count - 1) else None)
    else (if active.value == count - 1 then Some(0) else None)
  }

  lemma TabOnLastGoesToFirst(count: nat)
    requires count > 0
    ensures TrapRedirect("Tab", false, Some(count - 1), count) == Some(0)
  {}

  lemma ShiftTabOnFirstGoesToLast(count: nat)
    requires count > 0
    ensures TrapRedirect("Tab", true, Some(0), count) == Some(count - 1)
  {}

  /** Every other key, and Tab anywhere but at the two ends, is left to the browser. */
  lemma NoRedirectElsewhere(key: string, shiftKey: bool, active: Option<nat>, count: nat)
    ensures TrapRedirect(key, shiftKey, active, count).Some? <==>
              && key == "Tab" && count > 0 && active.Some?
              && (if shiftKey then active.value == 0 else active.value == count - 1)
  {}

  /** Once the handler has redirected focus, running it again for the same
      key moves focus nowhere else. */
  lemma RedirectIsStable(key: string, shiftKey: bool, active: Option<nat>, count: nat)
    requires TrapRedirect(key, shiftKey, active, count).Some?
    ensures var t := TrapRedirect(key, shiftKey, active, count);
            TrapRedirect(key, shiftKey, t, count) in {None, t}
  {
  }

  /**
    Focus after `listeners` copies of the handler have run for one keydown.
    Opening the menu calls `trapFocus` each time, so after the menu has been
    opened `listeners` times that many handlers are attached, and each sees
    the focus left by the one before.
  */
  function AfterListeners(key: string, shiftKey: bool, active: Option<nat>, count: nat, listeners: nat): Option<nat>
    decreases listeners
  {
    if listeners == 0 then active
    else
      var r := TrapRedirect(key, shiftKey, active, count);
      AfterListeners(key, shiftKey, if r.Some? then r else active, count, listeners - 1)
  }

  /** Focus ends where it would: only the first handler to see the key can move it. */
  lemma {:induction false} AfterStableFocus(key: string, shiftKey: bool, focus: Option<nat>, count: nat, listeners: nat)
    requires TrapRedirect(key, shiftKey, focus, count) in {None, focus}
    ensures AfterListeners(key, shiftKey, focus, count, listeners) == focus
    decreases listeners
  {
    if listeners > 0 {
      AfterStableFocus(key, shiftKey, focus, count, listeners - 1);
    }
  }

  /** However many times the menu has been opened, a key press moves focus
      exactly as a single handler would. */
  lemma StackedListenersActAsOne(key: string, shiftKey: bool, active: Option<nat>, count: nat, listeners: nat)
    requires listeners >= 1
    ensures AfterListeners(key, shiftKey, active, count, listeners) == AfterListeners(key, shiftKey, active, count, 1)
  {
    var r := TrapRedirect(key, shiftKey, active, count);
    var focus := if r.Some? then r else active;
    if r.Some? {
      RedirectIsStable(key, shiftKey, active, count);
    }
    AfterStableFocus(key, shiftKey, focus, count, listeners - 1);
    AfterStableFocus(key, shiftKey, focus, count, 0);
  }

  /**
    Where the browser's own Tab handling moves focus among the menu's
    elements: to the next one, or with Shift to the previous one. This is
    the tab order the handler relies on; it is not part of the script.
  */
  function DefaultStep(active: nat, shiftKey: bool): int {
    if shiftKey then active - 1 else active + 1
  }

  /** The browser's default step keeps focus inside the menu. */
  predicate DefaultStaysInside(active: nat, shiftKey: bool, count: nat) {
    0 <= DefaultStep(active, shiftKey) < count
  }

  /** The trap steps in exactly when the default step would leave the menu,
      and then sends focus round to the other end. */
  lemma RedirectExactlyAtTheEdge(active: nat, shiftKey: bool, count: nat)
    requires active < count
    ensures TrapRedirect("Tab", shiftKey, Some(active), count).Some? <==> !DefaultStaysInside(active, shiftKey, count)
    ensures TrapRedirect("Tab", shiftKey, Some(active), count).Some? ==>
              TrapRedirect("Tab", shiftKey, Some(active), count).value == (if shiftKey then count - 1 else 0)
  {
    if shiftKey {
      assert DefaultStep(active, shiftKey) == active - 1;
    } else {
      assert DefaultStep(active, shiftKey) == active + 1;
    }
  }

  /** Focus after one Tab press inside the open menu: the trap's redirect,
      or else the browser's default step. */
  function FocusAfterTab(active: nat, shiftKey: bool, count: nat): (next: nat)
    requires active < count
    ensures next < count
  {
    var r := TrapRedirect("Tab", shiftKey, Some(active), count);
    RedirectExactlyAtTheEdge(active, shiftKey, count);
    if r.Some? then r.value else DefaultStep(active, shiftKey)
  }

  /** Focus after `k` presses of Tab (or of Shift+Tab) from `start`. */
  function TabPresses(start: nat, k: nat, shiftKey: bool, count: nat): (focus: nat)
    requires start < count
    ensures focus < count
    decreases k
  {
    if k == 0 then start else TabPresses(FocusAfterTab(start, shiftKey, count), k - 1, shiftKey, count)
  }

  lemma {:induction false} TabPressesCompose(start: nat, a: nat, b: nat, shiftKey: bool, count: nat)
    requires start < count
    ensures TabPresses(start, a + b, shiftKey, count) ==
            TabPresses(TabPresses(start, a, shiftKey, count), b, shiftKey, count)
    decreases a
  {
    if a > 0 {
      TabPressesCompose(FocusAfterTab(start, shiftKey, count), a - 1, b, shiftKey, count);
    }
  }

  /** Before the last element, Tab walks forward one element per press. */
  lemma {:induction false} TabWalksForward(start: nat, k: nat, count: nat)
    requires start + k < count
    ensures TabPresses(start, k, false, count) == start + k
    decreases k
  {
    if k > 0 {
      assert FocusAfterTab(start, false, count) == start + 1;
      TabWalksForward(start + 1, k - 1, count);
    }
  }

  /** Above the first element, Shift+Tab walks back one element per press. */
  lemma {:induction false} ShiftTabWalksBack(start: nat, k: nat, count: nat)
    requires k <= start < count
    ensures TabPresses(start, k, true, count) == start - k
    decreases k
  {
    if k > 0 {
      assert FocusAfterTab(start, true, count) == start - 1;
      ShiftTabWalksBack(start - 1, k - 1, count);
    }
  }

  /** Focus never escapes the menu: `count` presses of Tab bring it back to
      where it started, having visited every element. */
  lemma TabCyclesThroughMenu(start: nat, count: nat)
    requires start < count
    ensures TabPresses(start, count, false, count) == start
  {
    var a := count - 1 - start;
    TabPressesCompose(start, a, 1 + start, false, count);
    TabWalksForward(start, a, count);
    TabPressesCompose(count - 1, 1, start, false, count);
    assert TabPresses(count - 1, 1, false, count) == 0;
    TabWalksForward(0, start, count);
  }

  /** The same holds for Shift+Tab, going round the other way. */
  lemma ShiftTabCyclesThroughMenu(start: nat, count: nat)
    requires start < count
    ensures TabPresses(start, count, true, count) == start
  {
    TabPressesCompose(start, start, count - start, true, count);
    ShiftTabWalksBack(start, start, count);
    TabPressesCompose(0, 1, count - 1 - start, true, count);
    assert TabPresses(0, 1, true, count) == count - 1;
    ShiftTabWalksBack(count - 1, count - 1 - start, count);
  }

  // ---------------------------------------------------------------------
  // Header shrink
  // ---------------------------------------------------------------------

  /** Scroll offsets strictly above this many pixels shrink the header. */
  const ShrinkThreshold: real := 100.0

  /** Whether the scroll listener leaves the `shrink` class on the header
      for the vertical offset `offset` (`window.pageYOffset`, possibly
      fractional). */
  predicate ShouldShrink(offset: real) {
    offset > ShrinkThreshold
  }

  /** The `shrink` class after the listener has run once for each offset,
      starting from `initial`. */
  function ShrunkAfter(initial: bool, offsets: seq<real>): bool
    decreases |offsets|
  {
    if offsets == [] then initial
    else ShrunkAfter(ShouldShrink(offsets[0]), offsets[1..])
  }

  /** The listener keeps no memory: after any run of scroll events the
      header is shrunk exactly when the last offset is past the threshold. */
  lemma {:induction false} ShrunkFollowsLastOffset(initial: bool, offsets: seq<real>)
    requires offsets != []
    ensures ShrunkAfter(initial, offsets) <==> offsets[|offsets| - 1] > 100.0
    decreases |offsets|
  {
    if |offsets| > 1 {
      ShrunkFollowsLastOffset(ShouldShrink(offsets[0]), offsets[1..]);
      assert offsets[1..][|offsets[1..]| - 1] == offsets[|offsets| - 1];
    }
  }

  /** Exactly 100 pixels keeps the full header; any bit further shrinks it,
      and shrinking is monotone in the offset. */
  lemma ShrinkBoundary(lower: real, higher: real)
    requires lower <= higher
    ensures !ShrunkAfter(true, [100.0]) && ShrunkAfter(false, [100.5])
    ensures ShrunkAfter(false, [lower]) ==> ShrunkAfter(false, [higher])
  {
    ShrunkFollowsLastOffset(true, [100.0]);
    ShrunkFollowsLastOffset(false, [100.5]);
    ShrunkFollowsLastOffset(false, [lower]);
    ShrunkFollowsLastOffset(false, [higher]);
  }
}
