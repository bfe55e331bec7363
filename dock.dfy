/**
 * Dock geometry of `snap_to_tray`: where the overlay's top-left corner goes,
 * given the tray rectangle (if one was found), the screen rectangle, the
 * overlay size and the margin.
 */
module Dock {
  import opened Common

  /** How close (in pixels) a tray edge must be to a screen edge to count as docked there. */
  const EdgeSlack: int := 10

  function Abs(v: int): nat
  {
    if v < 0 then -v else v
  }

  predicate Near(a: int, b: int)
  {
    Abs(a - b) < EdgeSlack
  }

  /**
   * The dock position as a priority rule: the last matching edge test wins,
   * so a right-edge tray beats a left-edge one, which beats a top-edge one.
   * A top-edge match only moves y; the left and right matches set both.
   */
  function PlannedDock(tray: Option<Rect>, screen: Rect, w: int, h: int, m: int): Point
  {
    match tray
    case None => Point(screen.right - w - m, screen.bottom - h - m)
    case Some(t) =>
      if Near(t.right, screen.right) then Point(t.left - w - m, t.bottom - h - m)
      else if Near(t.left, screen.left) then Point(t.right + m, t.bottom - h - m)
      else if Near(t.top, screen.top) then Point(t.right - w - m, t.bottom + m)
      else Point(t.right - w - m, t.top - h - m)
  }

  /** The sequence of assignments of `snap_to_tray`, each later edge test overwriting earlier ones. */
  method DockPosition(tray: Option<Rect>, screen: Rect, w: int, h: int, m: int) returns (p: Point)
    ensures p == PlannedDock(tray, screen, w, h, m)
    ensures tray.None? ==> p == Point(screen.right - w - m, screen.bottom - h - m)
  {
    if tray.None? {
      return Point(screen.right - w - m, screen.bottom - h - m);
    }
    var Rect(l, t, r, b) := tray.value;
    var x := r - w - m;
    var y := t - h - m;
    if Abs(t - screen.top) < EdgeSlack {
      y := b + m;
    }
    if Abs(l - screen.left) < EdgeSlack {
      x := r + m;
      y := b - h - m;
    }
    if Abs(r - screen.right) < EdgeSlack {
      x := l - w - m;
      y := b - h - m;
    }
    p := Point(x, y);
  }

  /** A tray along the top edge only: the overlay sits just below it, right-aligned to it. */
  lemma TopTaskbarBelowTray(t: Rect, screen: Rect, w: int, h: int, m: int)
    requires Near(t.top, screen.top) && !Near(t.left, screen.left) && !Near(t.right, screen.right)
    ensures PlannedDock(Some(t), screen, w, h, m) == Point(t.right - w - m, t.bottom + m)
  {
  }

  /**
   * A tray in the top-left corner matches both the top and the left test;
   * the left test's y (tray bottom - h - m) replaces the top test's.
   */
  lemma TopLeftCornerLeftWins(t: Rect, screen: Rect, w: int, h: int, m: int)
    requires Near(t.top, screen.top) && Near(t.left, screen.left) && !Near(t.right, screen.right)
    ensures PlannedDock(Some(t), screen, w, h, m) == Point(t.right + m, t.bottom - h - m)
  {
  }

  /**
   * A rectangle spanning the whole screen width (the whole taskbar, returned
   * when its notification area is not found) matches the right test, which
   * wins: the overlay is placed left of the screen's left edge.
   */
  lemma FullWidthTrayPlacedLeftOfScreen(screen: Rect, barTop: int, w: int, h: int, m: int)
    requires w + m > 0
    ensures var t := Rect(screen.left, barTop, screen.right, screen.bottom);
      PlannedDock(Some(t), screen, w, h, m) == Point(screen.left - w - m, screen.bottom - h - m)
      && PlannedDock(Some(t), screen, w, h, m).x < screen.left
  {
  }

  /** A tray matching no edge: the overlay sits above it, its right edge `m` left of the tray's. */
  lemma FloatingTrayAbove(t: Rect, screen: Rect, w: int, h: int, m: int)
    requires !Near(t.top, screen.top) && !Near(t.left, screen.left) && !Near(t.right, screen.right)
    ensures var p := PlannedDock(Some(t), screen, w, h, m);
      p.x + w + m == t.right && p.y + h + m == t.top
  {
  }
}
