/**
 * The home page's section navigator (blog/static/blog/js/script.js):
 * one content section and its navigation dot carry the `active` class,
 * a transition lock keeps a second move from starting while one is under
 * way, and wheel events are throttled. The 800 ms unlock timer and the
 * clock are explicit: the timer is the TransitionEnded event, and the
 * wheel handler receives the current time.
 */
module Navigation {
  import opened Wrappers
  import opened Dom

  /** Minimum time, in milliseconds, between two accepted wheel events. */
  const ScrollThreshold: int := 700

  /** The section a wheel or key event asks for: one further down when
      going down and not on the last section, one further up when going
      up and not on the first, otherwise none. */
  function Neighbour(current: nat, count: nat, down: bool): (target: Option<nat>)
    requires current < count
    ensures target.Some? ==> target.value < count
    ensures target.Some? && down ==> target.value == current + 1
    ensures target.Some? && !down ==> target.value + 1 == current
    ensures target.None? <==> (down && current + 1 >= count) || (!down && current == 0)
  {
    if down && current + 1 < count then Some(current + 1)
    else if !down && current > 0 then Some(current - 1)
    else None
  }

  /** The key names the keyboard handler reacts to. */
  predicate IsDownKey(key: string) {
    key == "ArrowDown" || key == "PageDown"
  }

  predicate IsUpKey(key: string) {
    key == "ArrowUp" || key == "PageUp"
  }

  class SectionNavigator {
    /** Number of content sections (and navigation dots). */
    const count: nat
    /** Whether the page has the `.code-typewriters` element. */
    const hasTypewriters: bool

    var current: nat
    var transitioning: bool
    var lastScrollTime: int
    var sectionActive: seq<bool>
    var dotActive: seq<bool>
    var footerSmall: bool
    var typewritersShown: bool

    /** Exactly the current section and the current dot are active. */
    ghost predicate Valid()
      reads this
    {
      && current < count
      && sectionActive == Marker(count, current)
      && dotActive == Marker(count, current)
    }

    /** The page as the template renders it: the first section and the
        first dot active, no transition and no wheel event yet. */
    constructor (count: nat, hasTypewriters: bool, footerSmall: bool, typewritersShown: bool)
      requires count > 0
      ensures Valid()
      ensures this.count == count && this.hasTypewriters == hasTypewriters
      ensures current == 0 && !transitioning && lastScrollTime == 0
      ensures this.footerSmall == footerSmall && this.typewritersShown == typewritersShown
    {
      this.count := count;
      this.hasTypewriters := hasTypewriters;
      current := 0;
      transitioning := false;
      lastScrollTime := 0;
      sectionActive := Marker(count, 0);
      dotActive := Marker(count, 0);
      this.footerSmall := footerSmall;
      this.typewritersShown := typewritersShown;
    }

    /** showSection: ignored while a transition runs or when `index` is
        already shown; otherwise the active marker moves from the old
        section and dot to `index`, the footer is small except on the
        first section, the typewriters show only on the first section, and
        the lock is taken. */
    method ShowSection(index: nat)
      requires Valid() && index < count
      modifies this
      ensures Valid()
      ensures old(transitioning) || index == old(current) ==> unchanged(this)
      ensures !old(transitioning) && index != old(current) ==>
                && current == index && transitioning
                && footerSmall == (index != 0)
                && typewritersShown == (if hasTypewriters then index == 0 else old(typewritersShown))
                && lastScrollTime == old(lastScrollTime)
    {
      if transitioning || index == current {
        return;
      }
      transitioning := true;
      sectionActive := sectionActive[current := false];
      dotActive := dotActive[current := false];
      if index == 0 {
        footerSmall := false;
        if hasTypewriters {
          typewritersShown := true;
        }
      } else {
        footerSmall := true;
        if hasTypewriters {
          typewritersShown := false;
        }
      }
      current := index;
      sectionActive := sectionActive[current := true];
      dotActive := dotActive[current := true];
      assert sectionActive == Marker(count, current);
      assert dotActive == Marker(count, current);
    }

    /** What showSection leaves behind after a move: the lock taken, the
        footer small except on the first section, and the typewriters shown
        only on the first section (left as they were when the page has none). */
    predicate Moved(typewritersBefore: bool)
      reads this
    {
      && transitioning
      && footerSmall == (current != 0)
      && typewritersShown == (if hasTypewriters then current == 0 else typewritersBefore)
    }

    /** The lock, footer and typewriter flags are as they were. */
    predicate StayedPut(transitioningBefore: bool, footerBefore: bool, typewritersBefore: bool)
      reads this
    {
      transitioning == transitioningBefore && footerSmall == footerBefore && typewritersShown == typewritersBefore
    }

    /** The startup call `showSection(0)`: the first section is already
        current, so it changes nothing. */
    method Start()
      requires Valid() && current == 0
      modifies this
      ensures unchanged(this)
    {
      ShowSection(0);
    }

    /** The 800 ms timer started by a move fires and releases the lock. */
    method TransitionEnded()
      modifies this`transitioning
      ensures !transitioning
    {
      transitioning := false;
    }

    /** The wheel handler at time `now`: an event less than 700 ms after
        the last accepted one is ignored and its default kept; any other is
        accepted, records its time even when it moves nothing, asks for the
        neighbouring section in the wheel's direction, and prevents the
        default scroll. */
    method Wheel(deltaY: int, now: int) returns (preventDefault: bool)
      requires Valid()
      modifies this
      ensures Valid()
      ensures now - old(lastScrollTime) < ScrollThreshold ==> unchanged(this) && !preventDefault
      ensures now - old(lastScrollTime) >= ScrollThreshold ==>
                && preventDefault && lastScrollTime == now
                && current == (var t := if deltaY > 0 then Neighbour(old(current), count, true)
                                         else if deltaY < 0 then Neighbour(old(current), count, false)
                                         else None;
                               if t.Some? && !old(transitioning) then t.value else old(current))
      ensures current != old(current) ==> Moved(old(typewritersShown))
      ensures current == old(current) ==> StayedPut(old(transitioning), old(footerSmall), old(typewritersShown))
    {
      if now - lastScrollTime < ScrollThreshold {
        return false;
      }
      lastScrollTime := now;
      if deltaY > 0 && current < count - 1 {
        ShowSection(current + 1);
      } else if deltaY < 0 && current > 0 {
        ShowSection(current - 1);
      }
      return true;
    }

    /** The keydown handler: the down keys ask for the next section and the
        up keys for the previous one; the default is prevented exactly when
        such a neighbour exists, even if the lock then ignores the move. */
    method KeyDown(key: string) returns (preventDefault: bool)
      requires Valid()
      modifies this
      ensures Valid()
      ensures lastScrollTime == old(lastScrollTime)
      ensures var t := if IsDownKey(key) then Neighbour(old(current), count, true)
                       else if IsUpKey(key) then Neighbour(old(current), count, false)
                       else None;
              && preventDefault == t.Some?
              && current == (if t.Some? && !old(transitioning) then t.value else old(current))
      ensures !IsDownKey(key) && !IsUpKey(key) ==> unchanged(this)
      ensures current != old(current) ==> Moved(old(typewritersShown))
      ensures current == old(current) ==> StayedPut(old(transitioning), old(footerSmall), old(typewritersShown))
    {
      preventDefault := false;
      if IsDownKey(key) {
        if current < count - 1 {
          ShowSection(current + 1);
          preventDefault := true;
        }
      } else if IsUpKey(key) {
        if current > 0 {
          ShowSection(current - 1);
          preventDefault := true;
        }
      }
    }
  }

  /** Two wheel events less than 700 ms apart: whatever the first did,
      the second changes nothing, so the section, the dots and the lock,
      footer and typewriter flags are as the first event left them. */
  method WheelTwice(nav: SectionNavigator, delta1: int, delta2: int, t1: int, t2: int)
      returns (prevented1: bool, prevented2: bool, ghost afterFirst: nat)
    requires nav.Valid() && t1 - nav.lastScrollTime >= ScrollThreshold && t2 - t1 < ScrollThreshold
    modifies nav
    ensures nav.Valid() && prevented1 && !prevented2 && nav.lastScrollTime == t1
    ensures afterFirst == (var t := if delta1 > 0 then Neighbour(old(nav.current), nav.count, true)
                                    else if delta1 < 0 then Neighbour(old(nav.current), nav.count, false)
                                    else None;
                           if t.Some? && !old(nav.transitioning) then t.value else old(nav.current))
    ensures nav.current == afterFirst
    ensures afterFirst != old(nav.current) ==> nav.Moved(old(nav.typewritersShown))
    ensures afterFirst == old(nav.current) ==>
              nav.StayedPut(old(nav.transitioning), old(nav.footerSmall), old(nav.typewritersShown))
  {
    prevented1 := nav.Wheel(delta1, t1);
    afterFirst := nav.current;
    prevented2 := nav.Wheel(delta2, t2);
  }
}
