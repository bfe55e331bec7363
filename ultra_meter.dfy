/**
 * The later overlay (ultra_meter.py): the strip window's lock/drag state, its
 * dock snapping, and the settings it persists after every change.
 */
module UltraMeter {
  import opened Common
  import opened Units
  import opened Dock
  import opened Style
  import opened Settings
  import opened Sampler

  const MARGIN_PX: int := 2
  const W: int := 230
  const H: int := 26

  /** The overlay strip: lock flag, drag anchor, top-left position and native style word. */
  class CornerStrip {
    var clickThrough: bool
    var drag: Option<Point>
    var pos: Point
    var exStyle: bv32
    const settings: SettingsFile
    const config: UnitConfig

    /**
     * Construction restores the persisted state: the stored position, or a
     * snap to the tray when there is none; then the stored lock flag, locked
     * when there is none.
     */
    constructor (settings: SettingsFile, config: UnitConfig, tray: Option<Rect>, screen: Rect, style: bv32)
      requires PosRestorable(settings.Loaded())
      modifies settings
      ensures this.settings == settings && this.config == config
      ensures drag == None
      ensures pos == RestoredPos(old(settings.Loaded()), PlannedDock(tray, screen, W, H, MARGIN_PX))
      ensures clickThrough == RestoredLock(old(settings.Loaded()))
      ensures exStyle == ApplyClickThrough(style, clickThrough)
      ensures settings.readable == old(settings.readable) && settings.writable == old(settings.writable)
      ensures !settings.writable ==> settings.contents == old(settings.contents)
      ensures settings.contents.Keys <= old(settings.contents.Keys) + {"pos", "locked"}
      ensures settings.writable ==> "pos" in settings.contents && settings.contents["pos"] == VPair(pos.x, pos.y)
      ensures settings.writable ==> "locked" in settings.contents && settings.contents["locked"] == VBool(clickThrough)
      ensures settings.readable && settings.writable ==>
        forall k :: k in old(settings.contents) && k != "pos" && k != "locked" ==>
          k in settings.contents && settings.contents[k] == old(settings.contents[k])
      ensures settings.contents
           == if old(settings.writable) then WithPosLock(old(settings.Loaded()), pos, clickThrough)
              else old(settings.contents)
    {
      this.settings := settings;
      this.config := config;
      clickThrough := true;
      drag := None;
      exStyle := style;
      pos := Point(0, 0);
      new;
      var st := settings.Load();
      if "pos" in st {
        pos := Point(st["pos"].first, st["pos"].second);
      } else {
        SnapToTray(tray, screen);
      }
      if "locked" in st {
        SetLocked(Truthy(st["locked"]));
      } else {
        SetLocked(true);
      }
    }

    /** `_persist`: reload the file, overwrite "pos" and "locked", save. */
    method Persist()
      modifies settings
      ensures settings.contents == old(settings.Stored(WithPosLock(settings.Loaded(), pos, clickThrough)))
      ensures settings.readable == old(settings.readable) && settings.writable == old(settings.writable)
    {
      var st := settings.Load();
      st := st["pos" := VPair(pos.x, pos.y)];
      st := st["locked" := VBool(clickThrough)];
      settings.Save(st);
    }

    /** Set the lock flag and the click-through style; the position stays where it is. */
    method SetLocked(locked: bool)
      modifies this, settings
      ensures clickThrough == locked
      ensures exStyle == ApplyClickThrough(old(exStyle), locked)
      ensures pos == old(pos) && drag == old(drag)
      ensures settings.contents == old(settings.Stored(WithPosLock(settings.Loaded(), pos, locked)))
      ensures settings.readable == old(settings.readable) && settings.writable == old(settings.writable)
    {
      clickThrough := locked;
      exStyle := ApplyClickThrough(exStyle, clickThrough);
      Persist();
    }

    /** Flip the lock flag; unlike the earlier version, locking does not re-dock. */
    method ToggleLock()
      modifies this, settings
      ensures clickThrough == !old(clickThrough)
      ensures exStyle == ApplyClickThrough(old(exStyle), clickThrough)
      ensures pos == old(pos) && drag == old(drag)
      ensures settings.contents == old(settings.Stored(WithPosLock(settings.Loaded(), pos, !clickThrough)))
      ensures settings.readable == old(settings.readable) && settings.writable == old(settings.writable)
    {
      SetLocked(!clickThrough);
    }

    /** Flip the global unit mode and store it under "units" only. */
    method ToggleUnits()
      modifies config, settings
      ensures config.mode == ToggledMode(old(config.mode)) && config.force == old(config.force)
      ensures settings.contents == old(settings.Stored(WithUnits(settings.Loaded(), ToggledMode(config.mode))))
      ensures settings.readable == old(settings.readable) && settings.writable == old(settings.writable)
    {
      config.Toggle();
      var st := settings.Load();
      st := st["units" := VStr(config.mode)];
      settings.Save(st);
    }

    /** A left press while unlocked records the pointer's offset from the top-left corner. */
    method MousePress(pointer: Point, leftButton: bool)
      modifies this
      ensures drag == if !old(clickThrough) && leftButton then Some(pointer.Minus(old(pos))) else old(drag)
      ensures clickThrough == old(clickThrough) && pos == old(pos) && exStyle == old(exStyle)
    {
      if clickThrough {
        return;
      }
      if leftButton {
        drag := Some(pointer.Minus(pos));
      }
    }

    /** While unlocked, anchored and with the left button held, the corner follows the pointer. */
    method MouseMove(pointer: Point, leftHeld: bool)
      modifies this
      ensures pos == if !clickThrough && drag.Some? && leftHeld then pointer.Minus(drag.value) else old(pos)
      ensures clickThrough == old(clickThrough) && drag == old(drag) && exStyle == old(exStyle)
    {
      if clickThrough || drag.None? {
        return;
      }
      if leftHeld {
        pos := pointer.Minus(drag.value);
      }
    }

    /** Releasing while unlocked drops the anchor and persists the position. */
    method MouseRelease()
      modifies this, settings
      ensures old(clickThrough) ==> drag == old(drag) && settings.contents == old(settings.contents)
      ensures !old(clickThrough) ==> drag == None
      ensures !old(clickThrough) ==>
        settings.contents == old(settings.Stored(WithPosLock(settings.Loaded(), pos, clickThrough)))
      ensures clickThrough == old(clickThrough) && pos == old(pos) && exStyle == old(exStyle)
      ensures settings.readable == old(settings.readable) && settings.writable == old(settings.writable)
    {
      if clickThrough {
        return;
      }
      drag := None;
      Persist();
    }

    /** Move to the dock position for the current tray and screen, then persist. */
    method SnapToTray(tray: Option<Rect>, screen: Rect)
      modifies this, settings
      ensures pos == PlannedDock(tray, screen, W, H, MARGIN_PX)
      ensures clickThrough == old(clickThrough) && drag == old(drag) && exStyle == old(exStyle)
      ensures settings.contents
           == old(settings.Stored(WithPosLock(settings.Loaded(), PlannedDock(tray, screen, W, H, MARGIN_PX), clickThrough)))
      ensures settings.readable == old(settings.readable) && settings.writable == old(settings.writable)
    {
      var p := DockPosition(tray, screen, W, H, MARGIN_PX);
      pos := p;
      Persist();
    }
  }

  /** An unlocked press and a held-button move at the same point leave the strip where it was. */
  method DragInPlaceKeepsPosition(s: CornerStrip, pointer: Point)
    requires !s.clickThrough
    modifies s
    ensures s.pos == old(s.pos) && s.drag == Some(pointer.Minus(old(s.pos)))
  {
    s.MousePress(pointer, true);
    s.MouseMove(pointer, true);
  }

  /** The application object: the strip, the rate sampler and the global unit settings. */
  class App {
    const strip: CornerStrip
    const sampler: RateSampler
    const config: UnitConfig

    /** Build the strip (restoring position and lock), then restore the unit mode. */
    constructor (settings: SettingsFile, tray: Option<Rect>, screen: Rect, style: bv32)
      requires PosRestorable(settings.Loaded())
      modifies settings
      ensures strip.settings == settings && strip.config == config
      ensures fresh(strip) && fresh(sampler) && fresh(config)
      ensures sampler.prev == None && config.force == None
      ensures strip.pos == RestoredPos(old(settings.Loaded()), PlannedDock(tray, screen, W, H, MARGIN_PX))
      ensures strip.clickThrough == RestoredLock(old(settings.Loaded()))
      ensures strip.drag == None && strip.exStyle == ApplyClickThrough(style, strip.clickThrough)
      ensures config.mode == "bits" || config.mode == "bytes"
      ensures config.mode == RestoredUnits(old(settings.Loaded()), "bits")
      ensures settings.readable == old(settings.readable) && settings.writable == old(settings.writable)
      ensures settings.contents
           == if old(settings.writable) then WithPosLock(old(settings.Loaded()), strip.pos, strip.clickThrough)
              else old(settings.contents)
    {
      var units := new UnitConfig();
      config := units;
      strip := new CornerStrip(settings, units, tray, screen, style);
      sampler := new RateSampler();
      new;
      var st := settings.Load();
      if "units" in old(settings.contents) {
        assert settings.readable ==> "units" in st && st["units"] == old(settings.contents["units"]);
      }
      if "units" in st && (st["units"] == VStr("bits") || st["units"] == VStr("bytes")) {
        config.mode := st["units"].text;
      }
    }

    /** One timer tick of `refresh`, formatting with the current global unit settings. */
    method Refresh(sent: int, recv: int, now: real) returns (out: Option<Readout>)
      modifies sampler
      ensures sampler.prev == Some(Snapshot(sent, recv, now))
      ensures old(sampler.prev).None? ==> out == None
      ensures old(sampler.prev).Some? ==>
        out == Some(ReadoutOf(Sample(old(sampler.prev).value, Snapshot(sent, recv, now)), config.mode, config.force))
    {
      out := sampler.Refresh(sent, recv, now, config.mode, config.force);
    }

    /** Quitting persists the strip's position and lock flag. */
    method QuitApp()
      modifies strip.settings
      ensures strip.settings.contents
           == old(strip.settings.Stored(WithPosLock(strip.settings.Loaded(), strip.pos, strip.clickThrough)))
      ensures strip.settings.readable == old(strip.settings.readable)
      ensures strip.settings.writable == old(strip.settings.writable)
    {
      strip.Persist();
    }
  }
}
