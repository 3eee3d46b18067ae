/**
 * The horizontal panel navigator of the home page: the `order` table of
 * panel names, the panel registry the refs fill, the `?cont=` deep link,
 * the dot and arrow-key navigation, the world-map parallax offsets, the
 * progress bar and the vertical-wheel redirect.
 */
module HomePage {
  import opened Js
  import opened Aggregate

  /** `order`: the name of each panel, which is also its element id and its `?cont=` value. */
  const Order: seq<string> := [
    "one", "two", "three", "four", "five", "six", "seven",
    "eight", "nine", "ten", "eleven", "twelve",
    "thirteen", "fourteen", "fifteen", "sixteen", "seventeen", "eighteen", "nineteen",
    "twenty", "twentyone", "twentytwo", "twentythree"
  ]

  /** The names are pairwise distinct. */
  lemma {:induction false} OrderDistinct()
    ensures |Order| == 23
    ensures NoDuplicates(Order)
  {
    forall i, j | 0 <= i < j < |Order| ensures Order[i] != Order[j] {
      assert |Order[i]| != |Order[j]| || Order[i][0] != Order[j][0] || Order[i][|Order[i]| - 1] != Order[j][|Order[j]| - 1]
        || Order[i] == "twentyone" || Order[j] == "twentyone" || Order[i] == "twentytwo" || Order[j] == "twentytwo"
        || Order[i] == "twentythree" || Order[j] == "twentythree" || Order[i] == "thirteen" || Order[j] == "thirteen"
        || Order[i] == "fourteen" || Order[j] == "fourteen" || Order[i] == "nineteen" || Order[j] == "nineteen";
    }
  }

  /** `Array.prototype.indexOf`: the first position of `x`, -1 when absent. */
  function IndexOf<T(==)>(s: seq<T>, x: T): (r: int)
    ensures -1 <= r < |s|
    ensures r == -1 <==> x !in s
    ensures r >= 0 ==> s[r] == x && forall j :: 0 <= j < r ==> s[j] != x
  {
    if s == [] then -1
    else if s[0] == x then 0
    else
      var k := IndexOf(s[1..], x);
      assert forall j :: 1 <= j < |s| ==> s[j] == s[1..][j - 1];
      if k == -1 then -1 else k + 1
  }

  /** An element found at exactly one position is found there. */
  lemma IndexOfUnique<T(!new)>(s: seq<T>, x: T, i: nat)
    requires i < |s| && s[i] == x
    requires forall j :: 0 <= j < |s| && s[j] == x ==> j == i
    ensures IndexOf(s, x) == i
  {
  }

  /**
   * `order.indexOf(order[i]) = i`: the `?cont=` name `goto(i)` writes
   * leads the query jump back to panel i.
   */
  lemma DeepLinkRoundTrip(i: nat)
    requires i < |Order|
    ensures IndexOf(Order, Order[i]) == i
  {
    OrderDistinct();
    IndexOfUnique(Order, Order[i], i);
  }

  /**
   * The panels the page renders, each registering itself at its index:
   * all but those of "seventeen" and "eighteen", which sit inside a comment.
   */
  predicate Rendered(i: int) {
    0 <= i < |Order| && i != 16 && i != 17
  }

  /** The registry before any panel has called `setPanel`: a hole at every index. */
  predicate Unmounted(panels: seq<Option<string>>) {
    |panels| == |Order| && forall i :: 0 <= i < |panels| ==> panels[i].None?
  }

  /** The registry once every rendered panel has called `setPanel` with its element. */
  predicate Mounted(panels: seq<Option<string>>) {
    |panels| == |Order|
    && forall i :: 0 <= i < |Order| ==> panels[i] == if Rendered(i) then Some(Order[i]) else None
  }

  /** In the mounted registry every rendered panel is found at its own index, by the observer and by the query jump. */
  lemma MountedLookup(panels: seq<Option<string>>, i: nat)
    requires Mounted(panels) && Rendered(i)
    ensures Some(Order[i]) in panels && IndexOf(panels, Some(Order[i])) == i
    ensures QueryTarget(Order, panels, Some(Order[i])) == Some(i)
  {
    OrderDistinct();
    assert panels[i] == Some(Order[i]);
    IndexOfUnique(panels, Some(Order[i]), i);
    DeepLinkRoundTrip(i);
  }

  /** The ids of the elements registered, the panels `panelsRef.current.forEach` hands the observer. */
  function Registered(panels: seq<Option<string>>): (r: set<string>)
    ensures forall t :: t in r <==> Some(t) in panels
  {
    var r := set i | 0 <= i < |panels| && panels[i].Some? :: panels[i].value;
    assert forall t | Some(t) in panels :: t in r by {
      forall t | Some(t) in panels ensures t in r {
        var i :| 0 <= i < |panels| && panels[i] == Some(t);
        assert panels[i].value == t;
      }
    }
    r
  }

  /** Before any panel has registered, the observer is handed nothing and the query jump finds nothing, whatever the address. */
  lemma UnmountedFindsNothing(panels: seq<Option<string>>, cont: Option<string>)
    requires Unmounted(panels)
    ensures Registered(panels) == {}
    ensures QueryTarget(Order, panels, cont) == None
  {
    assert forall t :: Some(t) !in panels;
    if cont.Some? && cont.value in Order {
      assert panels[IndexOf(Order, cont.value)].None?;
    }
  }

  /**
   * The panel the query jump scrolls to, `order` being the page's name
   * table: `idx !== -1 && panelsRef.current[idx]`.
   */
  function QueryTarget(order: seq<string>, panels: seq<Option<string>>, cont: Option<string>): (t: Option<nat>)
    ensures t.Some? <==> cont.Some? && cont.value in order
                         && IndexOf(order, cont.value) < |panels| && panels[IndexOf(order, cont.value)].Some?
    ensures t.Some? ==> t.value < |order| && t.value < |panels| && order[t.value] == cont.value && panels[t.value].Some?
  {
    match cont
    case None => None
    case Some(c) =>
      var idx := IndexOf(order, c);
      if idx != -1 && idx < |panels| && panels[idx].Some? then Some(idx) else None
  }

  /** What a navigation call did: finished, or threw a TypeError on a missing panel. */
  datatype Outcome = Done | Threw

  /** The key handler's target: ArrowRight below the last panel, ArrowLeft above the first. */
  function KeyTarget(key: string, active: int): (t: Option<int>)
    ensures t.Some? ==> 0 <= active ==> 0 <= t.value
    ensures t.Some? ==> active < |Order| ==> t.value < |Order|
    ensures t.Some? <==> (key == "ArrowRight" && active < |Order| - 1) || (key == "ArrowLeft" && active > 0)
    ensures key == "ArrowRight" && active < |Order| - 1 ==> t == Some(active + 1)
    ensures key != "ArrowRight" && t.Some? ==> t == Some(active - 1)
  {
    if key == "ArrowRight" && active < |Order| - 1 then Some(active + 1)
    else if key == "ArrowLeft" && active > 0 then Some(active - 1)
    else None
  }

  /** `if (active < 4) setWorldMapX(1000 + -1000 * active)`; otherwise the offset stays. */
  function WorldMapX(active: int, previous: int): (x: int)
    ensures active < 4 ==> x == 1000 - 1000 * active
    ensures active >= 4 ==> x == previous
  {
    if active < 4 then 1000 + (-1000) * active else previous
  }

  /** The first four panels slide the world map left by one panel width each. */
  lemma WorldMapSteps(previous: int)
    ensures WorldMapX(0, previous) == 1000 && WorldMapX(1, previous) == 0
    ensures WorldMapX(2, previous) == -1000 && WorldMapX(3, previous) == -2000
  {
  }

  /** `Math.max(0, window.scrollY - 350)`. */
  function StickyY(scrollY: real): (y: real)
    ensures y >= 0.0 && y >= scrollY - 350.0
    ensures y == 0.0 || y == scrollY - 350.0
  {
    if scrollY - 350.0 > 0.0 then scrollY - 350.0 else 0.0
  }

  /** `active / (order.length - 1)`. */
  function Progress(active: int): real {
    active as real / (|Order| - 1) as real
  }

  /** The progress bar runs from 0 on the first panel to 1 on the last, rising with the panel. */
  lemma ProgressInRange(active: int, later: int)
    requires 0 <= active <= later < |Order|
    ensures 0.0 <= Progress(active) <= Progress(later) <= 1.0
    ensures Progress(0) == 0.0 && Progress(|Order| - 1) == 1.0
  {
    var n := (|Order| - 1) as real;
    assert n == 22.0;
    ProgressMonotone(active as real, later as real, n);
    ProgressMonotone(later as real, n, n);
  }

  lemma ProgressMonotone(a: real, b: real, n: real)
    requires 0.0 <= a <= b && n > 0.0
    ensures 0.0 <= a / n <= b / n
  {
    assert a / n * n == a && b / n * n == b;
  }

  function Abs(x: real): real { if x < 0.0 then -x else x }

  /** The wheel handler: a mostly vertical wheel scrolls the row sideways by `deltaY`. */
  function WheelScroll(scrollLeft: real, deltaX: real, deltaY: real): (s: real)
    ensures Abs(deltaY) > Abs(deltaX) ==> s == scrollLeft + deltaY
    ensures Abs(deltaY) <= Abs(deltaX) ==> s == scrollLeft
  {
    if Abs(deltaY) > Abs(deltaX) then scrollLeft + deltaY else scrollLeft
  }

  /** A mostly horizontal wheel leaves the row where it is; a vertical one moves it by exactly `deltaY`. */
  lemma WheelOnlyVertical(scrollLeft: real, deltaX: real, deltaY: real)
    ensures WheelScroll(scrollLeft, deltaX, deltaY) != scrollLeft ==> Abs(deltaY) > Abs(deltaX) && deltaY != 0.0
    ensures WheelScroll(scrollLeft, deltaX, deltaY) - scrollLeft == 0.0 || WheelScroll(scrollLeft, deltaX, deltaY) - scrollLeft == deltaY
  {
  }

  // ---------------------------------------------------------------------
  // The page state

  class Navigator {
    /** `panelsRef.current`: the element (its id) registered at each index, a hole where none is. */
    var panels: seq<Option<string>>
    /** `active`, the panel the observer saw last. */
    var active: int
    var stickyY: real
    var worldMapX: int
    /** The scroller's `scrollLeft`. */
    var scrollLeft: real
    /** The panel last scrolled into view. */
    var scrolledTo: Option<nat>
    /** The `cont` parameter of the address bar. */
    var cont: Option<string>
    /** Whether the page past "Loading data..." has been committed, so `scrollerRef.current` is set. */
    var loaded: bool
    /** The panels the intersection observer was handed when its effect ran. */
    var observed: set<string>
    /** Whether the wheel listener is attached to the scroller. */
    var wheelBound: bool

    ghost predicate Valid()
      reads this
    {
      |panels| == |Order| && 0 <= active < |Order|
    }

    /** The initial state: no panel registered, `active`, `stickyY` and `worldMapX` all 0. */
    constructor(url: Option<string>)
      ensures Valid()
      ensures Unmounted(panels) && active == 0 && stickyY == 0.0 && worldMapX == 0
      ensures scrollLeft == 0.0 && scrolledTo == None && cont == url
      ensures !loaded && observed == {} && !wheelBound
    {
      panels := seq(|Order|, i => None);
      active := 0;
      stickyY := 0.0;
      worldMapX := 0;
      scrollLeft := 0.0;
      scrolledTo := None;
      cont := url;
      loaded := false;
      observed := {};
      wheelBound := false;
    }

    /** `setPanel(el, idx)`: a non-null element is stored at its index. */
    method SetPanel(el: Option<string>, idx: nat)
      requires Valid() && idx < |Order|
      modifies this
      ensures Valid()
      ensures panels == if el.Some? then old(panels)[idx := el] else old(panels)
      ensures active == old(active) && cont == old(cont) && scrolledTo == old(scrolledTo)
      ensures stickyY == old(stickyY) && worldMapX == old(worldMapX) && scrollLeft == old(scrollLeft)
      ensures loaded == old(loaded) && observed == old(observed) && wheelBound == old(wheelBound)
    {
      if el.Some? {
        panels := panels[idx := el];
      }
    }

    /**
     * The commit of the page once `data` and `topo` have loaded: the
     * scroller is rendered, and React calls the ref of every rendered panel
     * with its element, in page order.
     */
    method Mount()
      requires Valid() && Unmounted(panels)
      modifies this
      ensures Valid() && Mounted(panels) && loaded
      ensures active == old(active) && cont == old(cont) && scrolledTo == old(scrolledTo)
      ensures stickyY == old(stickyY) && worldMapX == old(worldMapX) && scrollLeft == old(scrollLeft)
      ensures observed == old(observed) && wheelBound == old(wheelBound)
    {
      var k := 0;
      while k < |Order|
        invariant 0 <= k <= |Order|
        invariant Valid()
        invariant forall i :: 0 <= i < |Order| ==> panels[i] == if i < k && Rendered(i) then Some(Order[i]) else None
        invariant active == old(active) && cont == old(cont) && scrolledTo == old(scrolledTo)
        invariant stickyY == old(stickyY) && worldMapX == old(worldMapX) && scrollLeft == old(scrollLeft)
        invariant loaded == old(loaded) && observed == old(observed) && wheelBound == old(wheelBound)
      {
        if Rendered(k) {
          SetPanel(Some(Order[k]), k);
        }
        k := k + 1;
      }
      loaded := true;
    }

    /**
     * The effects that run after a commit: `useHorizontalWheel` attaches its
     * listener only if the scroller exists, the intersection observer is
     * handed the panels registered at that moment, and the query jump runs
     * on the registry as it is.
     */
    method RunEffects()
      requires Valid()
      modifies this
      ensures Valid()
      ensures wheelBound == loaded
      ensures observed == Registered(panels)
      ensures scrolledTo == if QueryTarget(Order, panels, cont).Some? then QueryTarget(Order, panels, cont) else old(scrolledTo)
      ensures panels == old(panels) && active == old(active) && cont == old(cont) && loaded == old(loaded)
      ensures stickyY == old(stickyY) && worldMapX == old(worldMapX) && scrollLeft == old(scrollLeft)
    {
      wheelBound := loaded;
      Observe();
      QueryJump();
    }

    /** The observer effect: `panelsRef.current.forEach(el => el && observer.observe(el))`. */
    method Observe()
      requires Valid()
      modifies this
      ensures Valid()
      ensures observed == Registered(panels)
      ensures panels == old(panels) && active == old(active) && cont == old(cont) && loaded == old(loaded)
      ensures scrolledTo == old(scrolledTo) && wheelBound == old(wheelBound)
      ensures stickyY == old(stickyY) && worldMapX == old(worldMapX) && scrollLeft == old(scrollLeft)
    {
      observed := Registered(panels);
    }

    /**
     * The intersection observer's callback:
     * `setActive(panelsRef.current.indexOf(e.target))`, which fires only
     * for a panel the observer was handed.
     */
    method OnIntersect(target: string)
      requires Valid() && (target in observed ==> Some(target) in panels)
      modifies this
      ensures Valid()
      ensures active == if target in old(observed) then IndexOf(panels, Some(target)) else old(active)
      ensures target in observed ==> panels[active] == Some(target)
      ensures panels == old(panels) && cont == old(cont) && scrolledTo == old(scrolledTo)
      ensures stickyY == old(stickyY) && worldMapX == old(worldMapX) && scrollLeft == old(scrollLeft)
      ensures loaded == old(loaded) && observed == old(observed) && wheelBound == old(wheelBound)
    {
      if target in observed {
        active := IndexOf(panels, Some(target));
      }
    }

    /** The query jump: scroll to the panel the `cont` parameter names, if it is registered. */
    method QueryJump()
      requires Valid()
      modifies this
      ensures Valid()
      ensures scrolledTo == if QueryTarget(Order, panels, cont).Some? then QueryTarget(Order, panels, cont) else old(scrolledTo)
      ensures panels == old(panels) && active == old(active) && cont == old(cont)
      ensures stickyY == old(stickyY) && worldMapX == old(worldMapX) && scrollLeft == old(scrollLeft)
      ensures loaded == old(loaded) && observed == old(observed) && wheelBound == old(wheelBound)
    {
      var idx := match cont case None => -1 case Some(c) => IndexOf(Order, c);
      if idx != -1 && panels[idx].Some? {
        scrolledTo := Some(idx);
      }
    }

    /**
     * `goto(idx)` as written: `panelsRef.current[idx].scrollIntoView(...)`
     * throws on a hole, before the address is rewritten.
     */
    method Goto(idx: nat) returns (o: Outcome)
      requires Valid() && idx < |Order|
      modifies this
      ensures Valid()
      ensures o == Threw <==> panels[idx].None?
      ensures o == Threw ==> scrolledTo == old(scrolledTo) && cont == old(cont)
      ensures o == Done ==> scrolledTo == Some(idx) && cont == Some(Order[idx])
      ensures panels == old(panels) && active == old(active)
      ensures stickyY == old(stickyY) && worldMapX == old(worldMapX) && scrollLeft == old(scrollLeft)
      ensures loaded == old(loaded) && observed == old(observed) && wheelBound == old(wheelBound)
    {
      if panels[idx].None? {
        return Threw;
      }
      scrolledTo := Some(idx);
      cont := Some(Order[idx]);
      o := Done;
    }

    /**
     * `goto` guarded as the query jump is guarded: a dot or key aimed at a
     * panel that is not on the page does nothing, and never throws.
     */
    method GotoGuarded(idx: nat) returns (o: Outcome)
      requires Valid() && idx < |Order|
      modifies this
      ensures Valid()
      ensures o == Done
      ensures panels[idx].None? ==> scrolledTo == old(scrolledTo) && cont == old(cont)
      ensures panels[idx].Some? ==> scrolledTo == Some(idx) && cont == Some(Order[idx])
      ensures panels == old(panels) && active == old(active)
      ensures stickyY == old(stickyY) && worldMapX == old(worldMapX) && scrollLeft == old(scrollLeft)
      ensures loaded == old(loaded) && observed == old(observed) && wheelBound == old(wheelBound)
    {
      if panels[idx].Some? {
        scrolledTo := Some(idx);
        cont := Some(Order[idx]);
      }
      o := Done;
    }

    /** The arrow-key handler, with the guarded `goto`. */
    method OnKey(key: string) returns (o: Outcome)
      requires Valid()
      modifies this
      ensures Valid() && o == Done
      ensures KeyTarget(key, old(active)).None? ==> scrolledTo == old(scrolledTo) && cont == old(cont)
      ensures KeyTarget(key, old(active)).Some? ==>
                var t := KeyTarget(key, old(active)).value;
                0 <= t < |Order|
                && (panels[t].Some? ==> scrolledTo == Some(t) && cont == Some(Order[t]))
                && (panels[t].None? ==> scrolledTo == old(scrolledTo) && cont == old(cont))
      ensures panels == old(panels) && active == old(active)
      ensures stickyY == old(stickyY) && worldMapX == old(worldMapX) && scrollLeft == old(scrollLeft)
      ensures loaded == old(loaded) && observed == old(observed) && wheelBound == old(wheelBound)
    {
      match KeyTarget(key, active)
      case None => o := Done;
      case Some(t) => o := GotoGuarded(t);
    }

    /** The effect on `active`: the world map's offset for the first four panels. */
    method OnActiveChange()
      requires Valid()
      modifies this
      ensures Valid()
      ensures worldMapX == WorldMapX(active, old(worldMapX))
      ensures panels == old(panels) && active == old(active) && cont == old(cont) && scrolledTo == old(scrolledTo)
      ensures stickyY == old(stickyY) && scrollLeft == old(scrollLeft)
      ensures loaded == old(loaded) && observed == old(observed) && wheelBound == old(wheelBound)
    {
      if active < 4 {
        worldMapX := 1000 + (-1000) * active;
      }
    }

    /** The scroll listener. */
    method OnScroll(scrollY: real)
      requires Valid()
      modifies this
      ensures Valid()
      ensures stickyY == StickyY(scrollY)
      ensures panels == old(panels) && active == old(active) && cont == old(cont) && scrolledTo == old(scrolledTo)
      ensures worldMapX == old(worldMapX) && scrollLeft == old(scrollLeft)
      ensures loaded == old(loaded) && observed == old(observed) && wheelBound == old(wheelBound)
    {
      stickyY := if 0.0 > scrollY - 350.0 then 0.0 else scrollY - 350.0;
    }

    /**
     * A wheel event on the scroller: handled only when the listener is
     * attached. The result says whether the default scroll was prevented.
     */
    method OnWheel(deltaX: real, deltaY: real) returns (prevented: bool)
      requires Valid()
      modifies this
      ensures Valid()
      ensures prevented <==> wheelBound && Abs(deltaY) > Abs(deltaX)
      ensures scrollLeft == if wheelBound then WheelScroll(old(scrollLeft), deltaX, deltaY) else old(scrollLeft)
      ensures panels == old(panels) && active == old(active) && cont == old(cont) && scrolledTo == old(scrolledTo)
      ensures stickyY == old(stickyY) && worldMapX == old(worldMapX)
      ensures loaded == old(loaded) && observed == old(observed) && wheelBound == old(wheelBound)
    {
      prevented := false;
      if wheelBound && Abs(deltaY) > Abs(deltaX) {
        scrollLeft := scrollLeft + deltaY;
        prevented := true;
      }
    }
  }

  // ---------------------------------------------------------------------
  // Scenarios

  /**
   * The page as written, up to the moment it is shown. Its effects have
   * `[]` (and `[ref]`) dependencies, so they run once, after the first
   * commit, which is the "Loading data..." screen: no panel is registered
   * and there is no scroller yet. Then the data arrives and the panels
   * mount, but the effects do not run again: the observer watches nothing,
   * the wheel listener is not attached, and the deep link has not scrolled.
   */
  method OpenAsWritten(url: Option<string>) returns (nav: Navigator)
    ensures fresh(nav) && nav.Valid() && Mounted(nav.panels)
    ensures nav.observed == {} && !nav.wheelBound && nav.scrolledTo == None
    ensures nav.active == 0 && nav.scrollLeft == 0.0
  {
    nav := new Navigator(url);
    UnmountedFindsNothing(nav.panels, url);
    nav.RunEffects();
    nav.Mount();
  }

  /**
   * Whatever the address and whatever panel comes into view on the page
   * as written, the deep link never scrolls, `active` stays 0 (so
   * ArrowRight always aims at panel 1), and the wheel never moves the row.
   */
  method LoadAsWritten(url: Option<string>, target: string, deltaX: real, deltaY: real)
    returns (back: Option<nat>, seen: int, scroll: real, arrow: Option<int>)
    ensures back == None && seen == 0 && scroll == 0.0
    ensures arrow == Some(1)
  {
    assert |Order| == 23;
    var nav := OpenAsWritten(url);
    nav.OnIntersect(target);
    var prevented := nav.OnWheel(deltaX, deltaY);
    back := nav.scrolledTo;
    seen := nav.active;
    scroll := nav.scrollLeft;
    arrow := KeyTarget("ArrowRight", seen);
  }

  /**
   * With the effects depending on the loaded data, they run on the loading
   * screen and again once the panels have mounted: seeing a panel,
   * clicking its dot and reloading the address it writes scrolls back to
   * that panel.
   */
  method DeepLinkReturns(i: nat) returns (back: Option<nat>)
    requires Rendered(i)
    ensures back == Some(i)
  {
    var url := VisitAndClick(i);
    back := Reopen(url, i);
  }

  /** Load the page, see panel `i` and click its dot: the address names that panel. */
  method VisitAndClick(i: nat) returns (url: Option<string>)
    requires Rendered(i)
    ensures url == Some(Order[i])
  {
    var nav := new Navigator(None);
    nav.RunEffects();
    nav.Mount();
    nav.RunEffects();
    MountedLookup(nav.panels, i);
    nav.OnIntersect(Order[i]);
    var o := nav.Goto(i);
    url := nav.cont;
  }

  /** Load the page at an address naming panel `i`: once the panels have mounted, the query jump scrolls to it. */
  method Reopen(url: Option<string>, i: nat) returns (back: Option<nat>)
    requires Rendered(i) && url == Some(Order[i])
    ensures back == Some(i)
  {
    var reload := new Navigator(url);
    reload.RunEffects();
    reload.Mount();
    reload.RunEffects();
    MountedLookup(reload.panels, i);
    back := reload.scrolledTo;
  }

  /**
   * The dot of "seventeen" throws, panel 16 being never registered; once
   * the observer can set `active`, so does ArrowRight on "sixteen".
   */
  method GotoCounterexample() returns (dot: Outcome, key: Option<int>)
    ensures dot == Threw
    ensures key == Some(16)
  {
    var nav := new Navigator(None);
    nav.Mount();
    dot := nav.Goto(16);
    key := KeyTarget("ArrowRight", 15);
  }
}
