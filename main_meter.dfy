/**
 * The earlier "dynamic units" overlay (main.py): no persistence, locking
 * re-docks the strip, and a slow timer re-docks it whatever the lock state.
 */
module MainMeter {
  import opened Common
  import opened Units
  import opened Dock
  import opened Style
  import opened Sampler

  const MARGIN_PX: int := 2
  const W: int := 220
  const H: int := 24

  /** The overlay strip: lock flag, drag anchor, top-left position and native style word. */
  class CornerStrip {
    var clickThrough: bool
    var drag: Option<Point>
    var pos: Point
    var exStyle: bv32
    const config: UnitConfig

    /** The strip starts locked (click-through) and docked. */
    constructor (config: UnitConfig, tray: Option<Rect>, screen: Rect, style: bv32)
      ensures this.config == config
      ensures clickThrough && drag == None
      ensures exStyle == ApplyClickThrough(style, true)
      ensures pos == PlannedDock(tray, screen, W, H, MARGIN_PX)
    {
      this.config := config;
      clickThrough := true;
      exStyle := ApplyClickThrough(style, true);
      drag := None;
      pos := Point(0, 0);
      new;
      SnapToTray(tray, screen);
    }

    /** Flip the global unit mode; nothing is stored. */
    method ToggleUnits()
      modifies config
      ensures config.mode == ToggledMode(old(config.mode)) && config.force == old(config.force)
    {
      config.Toggle();
    }

    /**
     * Flip the lock flag and the click-through style. Becoming locked snaps
     * back to the dock position; becoming unlocked leaves the strip in place.
     */
    method ToggleLock(tray: Option<Rect>, screen: Rect)
      modifies this
      ensures clickThrough == !old(clickThrough)
      ensures exStyle == ApplyClickThrough(old(exStyle), clickThrough)
      ensures pos == if clickThrough then PlannedDock(tray, screen, W, H, MARGIN_PX) else old(pos)
      ensures drag == old(drag)
    {
      clickThrough := !clickThrough;
      exStyle := ApplyClickThrough(exStyle, clickThrough);
      if clickThrough {
        SnapToTray(tray, screen);
      }
    }

    /** A left press while unlocked records the pointer's offset from the top-left corner. */
    method MousePress(pointer: Point, leftButton: bool)
      modifies this
      ensures drag == if !old(clickThrough) && leftButton then Some(pointer.Minus(old(pos))) else old(drag)
      ensures clickThrough == old(clickThrough) && pos == old(pos) && exStyle == old(exStyle)
    {
      if clickThrough {
        return;
      }
      if leftButton {
        drag := Some(pointer.Minus(pos));
      }
    }

    /** While unlocked, anchored and with the left button held, the corner follows the pointer. */
    method MouseMove(pointer: Point, leftHeld: bool)
      modifies this
      ensures pos == if !clickThrough && drag.Some? && leftHeld then pointer.Minus(drag.value) else old(pos)
      ensures clickThrough == old(clickThrough) && drag == old(drag) && exStyle == old(exStyle)
    {
      if clickThrough || drag.None? {
        return;
      }
      if leftHeld {
        pos := pointer.Minus(drag.value);
      }
    }

    /** Releasing while unlocked drops the anchor; nothing is stored. */
    method MouseRelease()
      modifies this
      ensures drag == if old(clickThrough) then old(drag) else None
      ensures clickThrough == old(clickThrough) && pos == old(pos) && exStyle == old(exStyle)
    {
      if clickThrough {
        return;
      }
      drag := None;
    }

    /** Move to the dock position for the current tray and screen. */
    method SnapToTray(tray: Option<Rect>, screen: Rect)
      modifies this
      ensures pos == PlannedDock(tray, screen, W, H, MARGIN_PX)
      ensures clickThrough == old(clickThrough) && drag == old(drag) && exStyle == old(exStyle)
    {
      var p := DockPosition(tray, screen, W, H, MARGIN_PX);
      pos := p;
    }
  }

  /**
   * Two lock toggles from the unlocked state restore the flag and the style
   * word's unlocked bits, but leave the strip at the dock position the
   * locking toggle snapped it to.
   */
  method LockUnlockRoundTrip(s: CornerStrip, tray: Option<Rect>, screen: Rect)
    requires !s.clickThrough
    modifies s
    ensures !s.clickThrough && s.drag == old(s.drag)
    ensures s.exStyle == ApplyClickThrough(old(s.exStyle), false)
    ensures s.pos == PlannedDock(tray, screen, W, H, MARGIN_PX)
  {
    s.ToggleLock(tray, screen);
    s.ToggleLock(tray, screen);
    LastApplyWins(old(s.exStyle), true, false);
  }

  /** The application object: the strip, the rate sampler and the global unit settings. */
  class App {
    const strip: CornerStrip
    const sampler: RateSampler
    const config: UnitConfig

    constructor (tray: Option<Rect>, screen: Rect, style: bv32)
      ensures strip.config == config && fresh(strip) && fresh(sampler) && fresh(config)
      ensures sampler.prev == None && config.mode == "bits" && config.force == None
      ensures strip.clickThrough && strip.pos == PlannedDock(tray, screen, W, H, MARGIN_PX)
      ensures strip.drag == None && strip.exStyle == ApplyClickThrough(style, true)
    {
      var units := new UnitConfig();
      config := units;
      strip := new CornerStrip(units, tray, screen, style);
      sampler := new RateSampler();
    }

    /** One timer tick of `refresh`, formatting with the current global unit settings. */
    method Refresh(sent: int, recv: int, now: real) returns (out: Option<Readout>)
      modifies sampler
      ensures sampler.prev == Some(Snapshot(sent, recv, now))
      ensures old(sampler.prev).None? ==> out == None
      ensures old(sampler.prev).Some? ==>
        out == Some(ReadoutOf(Sample(old(sampler.prev).value, Snapshot(sent, recv, now)), config.mode, config.force))
    {
      out := sampler.Refresh(sent, recv, now, config.mode, config.force);
    }

    /**
     * The five-second re-dock timer. It does not look at the lock flag: an
     * unlocked strip, even mid-drag, is moved back to the dock position.
     */
    method SnapTick(tray: Option<Rect>, screen: Rect)
      modifies strip
      ensures strip.pos == PlannedDock(tray, screen, W, H, MARGIN_PX)
      ensures strip.clickThrough == old(strip.clickThrough) && strip.drag == old(strip.drag)
      ensures strip.exStyle == old(strip.exStyle)
    {
      strip.SnapToTray(tray, screen);
    }
  }
}
