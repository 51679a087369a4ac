/** FrontEnd/src/hooks/useNavMenu.ts: the open/closed state of the navigation menu. */
module NavMenu {

  datatype MenuEvent = Toggle | Close

  /** The state after one event: `toggleMenu` negates, `closeMenu` closes. */
  function Step(open: bool, e: MenuEvent): bool {
    match e
    case Toggle => !open
    case Close => false
  }

  /** The state after the events `es`, applied in order from `open`. */
  function Apply(open: bool, es: seq<MenuEvent>): bool
    decreases |es|
  {
    if es == [] then open else Step(Apply(open, es[..|es| - 1]), es[|es| - 1])
  }

  function CountToggles(es: seq<MenuEvent>): nat
    decreases |es|
  {
    if es == [] then 0 else (if es[|es| - 1] == Toggle then 1 else 0) + CountToggles(es[..|es| - 1])
  }

  /** Without a close, the menu is open when the start state and the parity of the toggles differ. */
  lemma {:induction false} TogglesOnly(open: bool, es: seq<MenuEvent>)
    requires Close !in es
    ensures Apply(open, es) == (open != (CountToggles(es) % 2 == 1))
    decreases |es|
  {
    if es != [] {
      assert es[..|es| - 1] + [es[|es| - 1]] == es;
      TogglesOnly(open, es[..|es| - 1]);
    }
  }

  /** Two toggles restore the state; closing twice is closing once. */
  lemma ToggleTwiceCloseIdempotent(open: bool)
    ensures Apply(open, [Toggle, Toggle]) == open
    ensures Apply(open, [Close, Close]) == Apply(open, [Close]) == false
  {
    assert [Toggle, Toggle][..1] == [Toggle];
    assert [Close, Close][..1] == [Close];
  }

  /** After a close, the earlier history no longer matters. */
  lemma {:induction false} CloseForgetsHistory(open: bool, before: seq<MenuEvent>, after: seq<MenuEvent>)
    ensures Apply(open, before + [Close] + after) == Apply(false, after)
    decreases |after|
  {
    var es := before + [Close] + after;
    if after == [] {
      assert es[..|es| - 1] == before;
    } else {
      var init := after[..|after| - 1];
      assert es[..|es| - 1] == before + [Close] + init;
      CloseForgetsHistory(open, before, init);
    }
  }

  /** The hook's state, with the events applied so far. */
  class Menu {
    var isOpen: bool
    ghost var events: seq<MenuEvent>

    /** The state is the closed start state with the events applied. */
    ghost predicate Valid()
      reads this
    {
      isOpen == Apply(false, events)
    }

    /** `useState(false)`: the menu starts closed. */
    constructor ()
      ensures Valid() && !isOpen && events == []
    {
      isOpen := false;
      events := [];
    }

    /** `toggleMenu`. */
    method ToggleMenu()
      requires Valid()
      modifies this
      ensures Valid() && isOpen == !old(isOpen) && events == old(events) + [Toggle]
    {
      isOpen := !isOpen;
      events := events + [Toggle];
      assert events[..|events| - 1] == old(events);
    }

    /** `closeMenu`. */
    method CloseMenu()
      requires Valid()
      modifies this
      ensures Valid() && !isOpen && events == old(events) + [Close]
    {
      isOpen := false;
      events := events + [Close];
      assert events[..|events| - 1] == old(events);
    }
  }
}
