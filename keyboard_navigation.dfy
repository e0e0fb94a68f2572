/** The keyboard hooks of the client: the keyboard-modality flag of
    `useKeyboardNavigation`, the Tab cycling of `useFocusTrap`, the pressed-key
    set of `useKeyboardShortcuts`, and the selected-index update of
    `useArrowKeyNavigation`. */
module KeyboardNavigation {
  import opened Wrappers
  import opened Text

  // ---------------------------------------------------------------------
  // Keyboard modality (`keyboardActiveRef`)
  // ---------------------------------------------------------------------

  /** The keys that reveal keyboard use. */
  predicate RevealsKeyboard(key: string)
  {
    key == "Tab" || key == "Enter" || key == " "
  }

  /** What a device event does to the flag. */
  datatype DeviceEvent = Key(key: string) | Mouse | Touch

  /** The flag after one event: a revealing key sets it, a pointer event clears it. */
  function ModalityStep(active: bool, e: DeviceEvent): bool
  {
    match e
    case Key(k) => active || RevealsKeyboard(k)
    case Mouse => false
    case Touch => false
  }

  /** The flag after a run of events, from `active`. */
  function ModalityAfter(active: bool, events: seq<DeviceEvent>): bool
    decreases |events|
  {
    if events == [] then active
    else ModalityStep(ModalityAfter(active, events[..|events| - 1]), events[|events| - 1])
  }

  /** `keyboardActiveRef`, with its three document listeners. */
  class KeyboardModality {
    var keyboardActive: bool

    constructor ()
      ensures !keyboardActive
    {
      keyboardActive := false;
    }

    /** The `keydown` listener. */
    method KeyDown(key: string)
      modifies this
      ensures keyboardActive == ModalityStep(old(keyboardActive), Key(key))
    {
      if key == "Tab" || key == "Enter" || key == " " {
        if !keyboardActive {
          keyboardActive := true;
        }
      }
    }

    /** The `mousedown` listener and the identical `touchstart` listener. */
    method PointerDown()
      modifies this
      ensures keyboardActive == ModalityStep(old(keyboardActive), Mouse)
      ensures keyboardActive == ModalityStep(old(keyboardActive), Touch)
    {
      if keyboardActive {
        keyboardActive := false;
      }
    }
  }

  /** The flag is set exactly when a revealing key came after the last pointer
      event, or, with no pointer event at all, when it was already set or any
      revealing key came. */
  lemma {:induction false} ModalityFollowsLastPointer(active: bool, events: seq<DeviceEvent>)
    ensures var last := LastPointer(events);
            ModalityAfter(active, events) <==>
              || (last == 0 && active)
              || exists j | last <= j < |events| :: events[j].Key? && RevealsKeyboard(events[j].key)
    decreases |events|
  {
    if events != [] {
      var n := |events|;
      var init := events[..n - 1];
      ModalityFollowsLastPointer(active, init);
      assert forall j | 0 <= j < n - 1 :: init[j] == events[j];
    }
  }

  /** The index just past the last pointer event (0 when there is none). */
  function LastPointer(events: seq<DeviceEvent>): (i: nat)
    ensures i <= |events|
    ensures forall j | i <= j < |events| :: events[j].Key?
    ensures i > 0 ==> !events[i - 1].Key?
    decreases |events|
  {
    if events == [] then 0
    else if !events[|events| - 1].Key? then |events|
    else LastPointer(events[..|events| - 1])
  }

  // ---------------------------------------------------------------------
  // Cyclic arithmetic used by the focus trap and by wrapping navigation
  // ---------------------------------------------------------------------

  lemma {:induction false} MulAtLeast(d: int, m: int)
    requires d >= 1 && m > 0
    ensures d * m >= m
    decreases d
  {
    if d > 1 {
      MulAtLeast(d - 1, m);
      assert d * m == (d - 1) * m + m;
    }
  }

  /** A quotient-remainder decomposition determines the remainder. */
  lemma ModUnique(a: int, m: int, q: int, r: int)
    requires m > 0 && 0 <= r < m && a == q * m + r
    ensures a % m == r
  {
    var q' := a / m;
    var r' := a % m;
    assert a == q' * m + r';
    var d := q' - q;
    assert d * m == q' * m - q * m;
    assert d * m == r - r';
    if d >= 1 {
      MulAtLeast(d, m);
    } else if d <= -1 {
      MulAtLeast(-d, m);
    }
  }

  /** Stepping forward on a cycle of length m. */
  lemma ModSucc(a: int, m: int)
    requires m > 0
    ensures (a + 1) % m == if a % m == m - 1 then 0 else a % m + 1
  {
    var q := a / m;
    var r := a % m;
    assert a == q * m + r;
    if r == m - 1 {
      assert (q + 1) * m == q * m + m;
      ModUnique(a + 1, m, q + 1, 0);
    } else {
      ModUnique(a + 1, m, q, r + 1);
    }
  }

  /** Stepping backward on a cycle of length m. */
  lemma ModPred(a: int, m: int)
    requires m > 0
    ensures (a - 1) % m == if a % m == 0 then m - 1 else a % m - 1
  {
    var q := a / m;
    var r := a % m;
    assert a == q * m + r;
    if r == 0 {
      assert (q - 1) * m == q * m - m;
      ModUnique(a - 1, m, q - 1, m - 1);
    } else {
      ModUnique(a - 1, m, q, r - 1);
    }
  }

  // ---------------------------------------------------------------------
  // Focus trap (`useFocusTrap`)
  // ---------------------------------------------------------------------

  /** Whether the trap installs its handler, and so focuses the first element:
      only when it is active, the container exists and holds a focusable element. */
  function TrapInstalled(isActive: bool, hasContainer: bool, count: nat): (installed: bool)
    ensures installed <==> isActive && hasContainer && count > 0
  {
    if !isActive || !hasContainer then false
    else if count == 0 then false
    else true
  }

  /** What the trap's `keydown` handler does: the element it focuses, if any, and
      whether it cancels the browser's own focus move. */
  datatype TrapEffect = TrapEffect(focus: Option<nat>, preventDefault: bool)

  /** The handler, with the focusable elements numbered 0..count-1 in document
      order and `active` the position of the focused one (None when focus is
      elsewhere). */
  function TrapKeyDown(count: nat, active: Option<nat>, key: string, shift: bool): TrapEffect
    requires count > 0
  {
    if key != "Tab" then TrapEffect(None, false)
    else if shift then
      if active == Some(0) then TrapEffect(Some(count - 1), true) else TrapEffect(None, false)
    else
      if active == Some(count - 1) then TrapEffect(Some(0), true) else TrapEffect(None, false)
  }

  /** Where focus goes on Tab (or Shift+Tab) from position `i`: the trap's target
      when it intervenes, otherwise the browser's next (previous) element in
      document order. */
  function FocusAfterTab(count: nat, i: int, shift: bool): int
    requires count > 0
  {
    var effect := TrapKeyDown(count, if 0 <= i then Some(i as nat) else None, "Tab", shift);
    if effect.focus.Some? then effect.focus.value
    else if shift then i - 1 else i + 1
  }

  /** The trap intervenes exactly at the two ends: Tab on the last element goes to
      the first, Shift+Tab on the first to the last; every other key and position
      is left to the browser. */
  lemma TrapActsOnlyAtEnds(count: nat, active: Option<nat>, key: string, shift: bool)
    requires count > 0
    ensures var e := TrapKeyDown(count, active, key, shift);
            && (e.preventDefault <==> e.focus.Some?)
            && (e.focus.Some? <==> key == "Tab" && active == (if shift then Some(0) else Some(count - 1)))
            && (e.focus.Some? ==> e.focus.value == if shift then count - 1 else 0)
  {
  }

  /** Focus never leaves the container: from any focusable element, Tab and
      Shift+Tab land on a focusable element. */
  lemma FocusStaysInside(count: nat, i: int, shift: bool)
    requires count > 0 && 0 <= i < count
    ensures 0 <= FocusAfterTab(count, i, shift) < count
  {
  }

  /** The focus position after `n` presses of Tab (or Shift+Tab) from `i`. */
  function TabPresses(count: nat, i: int, shift: bool, n: nat): int
    requires count > 0
    decreases n
  {
    if n == 0 then i else FocusAfterTab(count, TabPresses(count, i, shift, n - 1), shift)
  }

  /** Tab cycles through the focusable elements: `n` presses from `i` land on
      `(i + n) mod count`, and Shift+Tab on `(i - n) mod count`. */
  lemma {:induction false} TabCycles(count: nat, i: int, shift: bool, n: nat)
    requires count > 0 && 0 <= i < count
    ensures TabPresses(count, i, shift, n) == if shift then (i - n) % count else (i + n) % count
    decreases n
  {
    if n > 0 {
      TabCycles(count, i, shift, n - 1);
      var p := TabPresses(count, i, shift, n - 1);
      TabStep(count, p, shift);
      if shift {
        ModPred(i - (n - 1), count);
        assert i - (n - 1) - 1 == i - n;
      } else {
        ModSucc(i + (n - 1), count);
        assert i + (n - 1) + 1 == i + n;
      }
    }
  }

  /** One press from a focusable element: the next (previous) element, wrapping
      at the ends. */
  lemma TabStep(count: nat, i: int, shift: bool)
    requires count > 0 && 0 <= i < count
    ensures FocusAfterTab(count, i, shift) ==
              if shift then (if i == 0 then count - 1 else i - 1)
              else (if i == count - 1 then 0 else i + 1)
  {
  }

  // ---------------------------------------------------------------------
  // Shortcuts (`useKeyboardShortcuts`)
  // ---------------------------------------------------------------------

  /** A registered shortcut; the callback is identified by the shortcut's position. */
  datatype Shortcut = Shortcut(keys: seq<string>, preventDefault: bool)

  /** A registered shortcut as the `forEach` destructures it: an omitted
      `preventDefault` (None) defaults to true. */
  function ShortcutOf(keys: seq<string>, preventDefault: Option<bool>): (s: Shortcut)
    ensures s.keys == keys
    ensures s.preventDefault <==> preventDefault != Some(false)
  {
    Shortcut(keys, preventDefault.GetOr(true))
  }

  /** `keys.every(key => pressed.has(key.toLowerCase()))` */
  predicate AllKeysPressed(keys: seq<string>, pressed: set<string>)
  {
    forall k | k in keys :: Lower(k) in pressed
  }

  /** The `forEach` over the shortcuts on one `keydown`: the positions whose
      callbacks run, in order, and whether the event's default is prevented. */
  method Triggered(shortcuts: seq<Shortcut>, pressed: set<string>) returns (fired: seq<nat>, prevent: bool)
    ensures forall j: nat :: j in fired <==> j < |shortcuts| && AllKeysPressed(shortcuts[j].keys, pressed)
    ensures forall a, b | 0 <= a < b < |fired| :: fired[a] < fired[b]
    ensures prevent <==> exists j | 0 <= j < |shortcuts| ::
                           AllKeysPressed(shortcuts[j].keys, pressed) && shortcuts[j].preventDefault
  {
    fired := [];
    prevent := false;
    var i := 0;
    while i < |shortcuts|
      invariant 0 <= i <= |shortcuts|
      invariant forall j: nat :: j in fired <==> j < i && AllKeysPressed(shortcuts[j].keys, pressed)
      invariant forall a | 0 <= a < |fired| :: fired[a] < i
      invariant forall a, b | 0 <= a < b < |fired| :: fired[a] < fired[b]
      invariant prevent <==> exists j | 0 <= j < i ::
                               AllKeysPressed(shortcuts[j].keys, pressed) && shortcuts[j].preventDefault
    {
      if AllKeysPressed(shortcuts[i].keys, pressed) {
        if shortcuts[i].preventDefault {
          prevent := true;
        }
        fired := fired + [i];
      }
      i := i + 1;
    }
  }

  /** An event seen by the pressed-key set. */
  datatype KeyEvent = KeyPress(key: string) | KeyRelease(key: string) | WindowBlur

  /** The set after one event: `add`, `delete` or `clear`. */
  function PressedStep(pressed: set<string>, e: KeyEvent): set<string>
  {
    match e
    case KeyPress(k) => pressed + {Lower(k)}
    case KeyRelease(k) => pressed - {Lower(k)}
    case WindowBlur => {}
  }

  /** The set after a run of events. */
  function PressedAfter(pressed: set<string>, events: seq<KeyEvent>): set<string>
    decreases |events|
  {
    if events == [] then pressed
    else PressedStep(PressedAfter(pressed, events[..|events| - 1]), events[|events| - 1])
  }

  /** Whether `e` takes the lower-cased key `x` out of the set. */
  predicate Releases(e: KeyEvent, x: string)
  {
    e.WindowBlur? || (e.KeyRelease? && Lower(e.key) == x)
  }

  /** A key is in the set exactly when it was pressed (or already held) and
      neither released nor cleared by a blur since. */
  lemma {:induction false} PressedMeansHeld(pressed: set<string>, events: seq<KeyEvent>, x: string)
    ensures x in PressedAfter(pressed, events) <==>
              || (x in pressed && forall j | 0 <= j < |events| :: !Releases(events[j], x))
              || exists i | 0 <= i < |events| ::
                   && events[i].KeyPress? && Lower(events[i].key) == x
                   && forall j | i < j < |events| :: !Releases(events[j], x)
    decreases |events|
  {
    if events != [] {
      var n := |events|;
      var init := events[..n - 1];
      PressedMeansHeld(pressed, init, x);
      assert forall j | 0 <= j < n - 1 :: init[j] == events[j];
      var e := events[n - 1];
      if e.KeyPress? && Lower(e.key) == x {
        assert x in PressedAfter(pressed, events);
      }
    }
  }

  /** The `keysPressed` Set and its three listeners. */
  class ShortcutTracker {
    var pressed: set<string>

    constructor ()
      ensures pressed == {}
    {
      pressed := {};
    }

    /** The `keydown` listener: records the key, then runs every shortcut whose
        keys are all held. */
    method KeyDown(key: string, shortcuts: seq<Shortcut>) returns (fired: seq<nat>, prevent: bool)
      modifies this
      ensures pressed == PressedStep(old(pressed), KeyPress(key))
      ensures forall j: nat :: j in fired <==> j < |shortcuts| && AllKeysPressed(shortcuts[j].keys, pressed)
      ensures forall a, b | 0 <= a < b < |fired| :: fired[a] < fired[b]
      ensures prevent <==> exists j | 0 <= j < |shortcuts| ::
                             AllKeysPressed(shortcuts[j].keys, pressed) && shortcuts[j].preventDefault
    {
      pressed := pressed + {Lower(key)};
      fired, prevent := Triggered(shortcuts, pressed);
    }

    /** The `keyup` listener. */
    method KeyUp(key: string)
      modifies this
      ensures pressed == PressedStep(old(pressed), KeyRelease(key))
    {
      pressed := pressed - {Lower(key)};
    }

    /** The window `blur` listener. */
    method Blur()
      modifies this
      ensures pressed == PressedStep(old(pressed), WindowBlur)
    {
      pressed := {};
    }
  }

  // ---------------------------------------------------------------------
  // Arrow-key navigation (`useArrowKeyNavigation`)
  // ---------------------------------------------------------------------

  /** The hook's options; `hasOnEscape` says whether an `onEscape` callback was given. */
  datatype NavOptions = NavOptions(vertical: bool, horizontal: bool, wrap: bool, hasOnEscape: bool)

  const DefaultNavOptions := NavOptions(true, false, true, false)

  /** The `setSelectedIndex` updater for ArrowUp and ArrowLeft. */
  function StepBack(index: int, length: nat, wrap: bool): int
  {
    var newIndex := index - 1;
    if wrap then (if newIndex < 0 then length - 1 else newIndex)
    else if newIndex < 0 then 0 else newIndex
  }

  /** The `setSelectedIndex` updater for ArrowDown and ArrowRight. */
  function StepForward(index: int, length: nat, wrap: bool): int
  {
    var newIndex := index + 1;
    if wrap then (if newIndex >= length then 0 else newIndex)
    else if newIndex < length - 1 then newIndex else length - 1
  }

  /** What one `keydown` does: the new selected index, whether the default is
      prevented, the `onSelect` call made (item and index), and whether
      `onEscape` ran. */
  datatype NavEffect<T> = NavEffect(index: int, preventDefault: bool, selected: Option<(T, int)>, escaped: bool)

  /** The handler. `items` is None when the list is missing; an entry is None
      when it is falsy. */
  function NavKeyDown<T>(items: Option<seq<Option<T>>>, hasOnSelect: bool, opts: NavOptions, index: int, key: string): NavEffect<T>
  {
    var idle := NavEffect(index, false, None, false);
    if items.None? || |items.value| == 0 then idle
    else
      var list := items.value;
      var length := |list|;
      if key == "ArrowUp" then
        if opts.vertical then NavEffect(StepBack(index, length, opts.wrap), true, None, false) else idle
      else if key == "ArrowDown" then
        if opts.vertical then NavEffect(StepForward(index, length, opts.wrap), true, None, false) else idle
      else if key == "ArrowLeft" then
        if opts.horizontal then NavEffect(StepBack(index, length, opts.wrap), true, None, false) else idle
      else if key == "ArrowRight" then
        if opts.horizontal then NavEffect(StepForward(index, length, opts.wrap), true, None, false) else idle
      else if key == "Enter" || key == " " then
        var chosen := if hasOnSelect && 0 <= index < length && list[index].Some?
                      then Some((list[index].value, index)) else None;
        NavEffect(index, true, chosen, false)
      else if key == "Escape" then
        if opts.hasOnEscape then NavEffect(index, true, None, true) else idle
      else idle
  }

  /** Whether a key moves the selection along the given axis. */
  predicate Vertical(key: string) { key == "ArrowUp" || key == "ArrowDown" }
  predicate Horizontal(key: string) { key == "ArrowLeft" || key == "ArrowRight" }

  /** With a missing or empty list no key does anything, Escape included. */
  lemma NoItemsNoEffect<T>(items: Option<seq<Option<T>>>, hasOnSelect: bool, opts: NavOptions, index: int, key: string)
    requires items.None? || items.value == []
    ensures NavKeyDown(items, hasOnSelect, opts, index, key) == NavEffect(index, false, None, false)
  {
  }

  /** From a selection inside a non-empty list, every key leaves the selection inside. */
  lemma SelectionStaysInRange<T>(items: Option<seq<Option<T>>>, hasOnSelect: bool, opts: NavOptions, index: int, key: string)
    requires items.Some? && 0 <= index < |items.value|
    ensures 0 <= NavKeyDown(items, hasOnSelect, opts, index, key).index < |items.value|
  {
  }

  /** Up/Down act only on a vertical list and Left/Right only on a horizontal
      one; on the other axis the key changes nothing and is not cancelled. */
  lemma AxisGating<T>(items: Option<seq<Option<T>>>, hasOnSelect: bool, opts: NavOptions, index: int, key: string)
    requires items.Some? && items.value != []
    ensures Vertical(key) ==>
              (NavKeyDown(items, hasOnSelect, opts, index, key).preventDefault <==> opts.vertical)
    ensures Horizontal(key) ==>
              (NavKeyDown(items, hasOnSelect, opts, index, key).preventDefault <==> opts.horizontal)
    ensures (Vertical(key) && !opts.vertical) || (Horizontal(key) && !opts.horizontal) ==>
              NavKeyDown(items, hasOnSelect, opts, index, key) == NavEffect(index, false, None, false)
  {
  }

  /** Enter and space are always cancelled on a non-empty list, and call
      `onSelect(items[i], i)` exactly when there is a callback and a truthy item at i. */
  lemma SelectOnlyExisting<T>(items: Option<seq<Option<T>>>, hasOnSelect: bool, opts: NavOptions, index: int, key: string)
    requires items.Some? && items.value != [] && (key == "Enter" || key == " ")
    ensures var e := NavKeyDown(items, hasOnSelect, opts, index, key);
            && e.preventDefault && e.index == index && !e.escaped
            && (e.selected.Some? <==> hasOnSelect && 0 <= index < |items.value| && items.value[index].Some?)
            && (e.selected.Some? ==> e.selected.value == (items.value[index].value, index))
  {
  }

  /** Escape runs `onEscape` (and is cancelled) exactly when one was given. */
  lemma EscapeOnlyWithCallback<T>(items: Option<seq<Option<T>>>, hasOnSelect: bool, opts: NavOptions, index: int)
    requires items.Some? && items.value != []
    ensures var e := NavKeyDown(items, hasOnSelect, opts, index, "Escape");
            && (e.escaped <==> opts.hasOnEscape) && (e.preventDefault <==> opts.hasOnEscape)
            && e.index == index && e.selected.None?
  {
  }

  /** The selected index after pressing `key` `n` times from `index`. */
  function Presses<T>(items: Option<seq<Option<T>>>, opts: NavOptions, index: int, key: string, n: nat): int
    decreases n
  {
    if n == 0 then index else NavKeyDown(items, false, opts, Presses(items, opts, index, key, n - 1), key).index
  }

  /** The two keys that move along an enabled axis: ArrowDown and ArrowUp on a
      vertical list, ArrowRight and ArrowLeft on a horizontal one. */
  predicate AxisKeys(opts: NavOptions, forward: string, back: string)
  {
    || (forward == "ArrowDown" && back == "ArrowUp" && opts.vertical)
    || (forward == "ArrowRight" && back == "ArrowLeft" && opts.horizontal)
  }

  /** With `wrap`, the forward key of an enabled axis cycles forward and the
      back key backward through the list: `n` presses from `i` select
      `(i + n) mod length` and `(i - n) mod length`. */
  lemma {:induction false} WrapCycles<T>(items: Option<seq<Option<T>>>, opts: NavOptions, forward: string, back: string, i: int, n: nat)
    requires items.Some? && 0 <= i < |items.value|
    requires AxisKeys(opts, forward, back) && opts.wrap
    ensures Presses(items, opts, i, forward, n) == (i + n) % |items.value|
    ensures Presses(items, opts, i, back, n) == (i - n) % |items.value|
    decreases n
  {
    if n > 0 {
      WrapCycles(items, opts, forward, back, i, n - 1);
      ModSucc(i + (n - 1), |items.value|);
      ModPred(i - (n - 1), |items.value|);
    }
  }

  /** Without `wrap`, the selection stops at the ends: `n` presses of the
      forward key of an enabled axis from `i` select `min(length - 1, i + n)`,
      and of the back key `max(0, i - n)`. */
  lemma {:induction false} ClampSaturates<T>(items: Option<seq<Option<T>>>, opts: NavOptions, forward: string, back: string, i: int, n: nat)
    requires items.Some? && 0 <= i < |items.value|
    requires AxisKeys(opts, forward, back) && !opts.wrap
    ensures Presses(items, opts, i, forward, n) == if i + n < |items.value| - 1 then i + n else |items.value| - 1
    ensures Presses(items, opts, i, back, n) == if i - n < 0 then 0 else i - n
    decreases n
  {
    if n > 0 {
      ClampSaturates(items, opts, forward, back, i, n - 1);
    }
  }
}
