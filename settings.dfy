/**
 * The persisted settings: a JSON object kept as a dictionary, the best-effort
 * file that holds it, the merges that `_persist` and `toggle_units` make, and
 * how the startup code reads it back.
 */
module Settings {
  import opened Common

  /** The JSON values the settings dictionary can hold. */
  datatype Value = VPair(first: int, second: int) | VBool(flag: bool) | VStr(text: string) | VInt(num: int) | VNull

  type Dict = map<string, Value>

  /** Python truthiness of a JSON value (`bool(v)`); a pair is a non-empty list. */
  function Truthy(v: Value): bool
  {
    match v
    case VPair(_, _) => true
    case VBool(b) => b
    case VStr(s) => s != ""
    case VInt(n) => n != 0
    case VNull => false
  }

  /**
   * The settings file. `readable` and `writable` stand for whether reading and
   * writing the file currently succeed; a failed read yields the empty
   * dictionary and a failed write leaves the file as it was.
   */
  class SettingsFile {
    var contents: Dict
    var readable: bool
    var writable: bool

    constructor (contents: Dict, readable: bool, writable: bool)
      ensures this.contents == contents && this.readable == readable && this.writable == writable
    {
      this.contents := contents;
      this.readable := readable;
      this.writable := writable;
    }

    /** What `load_settings` returns now. */
    function Loaded(): Dict
      reads this
    {
      if readable then contents else map[]
    }

    /** The file's contents after `save_settings(d)`. */
    function Stored(d: Dict): Dict
      reads this
    {
      if writable then d else contents
    }

    method Load() returns (d: Dict)
      ensures d == Loaded()
      ensures readable ==> d == contents
      ensures !readable ==> d == map[]
    {
      if readable {
        d := contents;
      } else {
        d := map[];
      }
    }

    method Save(d: Dict)
      modifies this
      ensures contents == old(Stored(d))
      ensures old(readable && writable) ==> Loaded() == d
      ensures readable == old(readable) && writable == old(writable)
    {
      if writable {
        contents := d;
      }
    }
  }

  /** The merge of `_persist`: set "pos" and "locked", keep every other key. */
  function WithPosLock(st: Dict, pos: Point, locked: bool): (r: Dict)
    ensures r.Keys == st.Keys + {"pos", "locked"}
    ensures r["pos"] == VPair(pos.x, pos.y) && r["locked"] == VBool(locked)
    ensures forall k :: k in st && k != "pos" && k != "locked" ==> r[k] == st[k]
  {
    st["pos" := VPair(pos.x, pos.y)]["locked" := VBool(locked)]
  }

  /** The merge of `toggle_units`: set "units", keep every other key. */
  function WithUnits(st: Dict, mode: string): (r: Dict)
    ensures r.Keys == st.Keys + {"units"}
    ensures r["units"] == VStr(mode)
    ensures forall k :: k in st && k != "units" ==> r[k] == st[k]
  {
    st["units" := VStr(mode)]
  }

  /** The startup code can only restore a "pos" entry that is a pair of integers. */
  predicate PosRestorable(st: Dict)
  {
    "pos" in st ==> st["pos"].VPair?
  }

  /** Where the overlay starts: the stored pair, or the dock position when there is none. */
  function RestoredPos(st: Dict, docked: Point): (p: Point)
    requires PosRestorable(st)
    ensures "pos" !in st ==> p == docked
    ensures "pos" in st ==> VPair(p.x, p.y) == st["pos"]
  {
    if "pos" in st then Point(st["pos"].first, st["pos"].second) else docked
  }

  /** The lock state at startup: truthiness of "locked", locked when the key is missing. */
  function RestoredLock(st: Dict): (locked: bool)
    ensures "locked" !in st ==> locked
    ensures "locked" in st && st["locked"].VBool? ==> locked == st["locked"].flag
  {
    if "locked" in st then Truthy(st["locked"]) else true
  }

  /** The units mode at startup: only "bits" or "bytes" replace the current mode. */
  function RestoredUnits(st: Dict, current: string): (mode: string)
    ensures ("units" in st && st["units"] in {VStr("bits"), VStr("bytes")}) ==> VStr(mode) == st["units"]
    ensures !("units" in st && st["units"] in {VStr("bits"), VStr("bytes")}) ==> mode == current
  {
    if "units" in st && (st["units"] == VStr("bits") || st["units"] == VStr("bytes")) then st["units"].text
    else current
  }

  /** A restored mode is always valid when the mode it falls back to is. */
  lemma RestoredUnitsValid(st: Dict, current: string)
    requires current == "bits" || current == "bytes"
    ensures RestoredUnits(st, current) == "bits" || RestoredUnits(st, current) == "bytes"
  {
  }

  /**
   * What `_persist` writes is what startup reads back: the position and lock
   * flag round-trip, and the units setting is not disturbed.
   */
  lemma PersistRoundTrip(st: Dict, pos: Point, locked: bool, dock: Point, current: string)
    ensures PosRestorable(WithPosLock(st, pos, locked))
    ensures RestoredPos(WithPosLock(st, pos, locked), dock) == pos
    ensures RestoredLock(WithPosLock(st, pos, locked)) == locked
    ensures RestoredUnits(WithPosLock(st, pos, locked), current) == RestoredUnits(st, current)
  {
    var r := WithPosLock(st, pos, locked);
    assert "units" in r <==> "units" in st;
    if "units" in st {
      assert r["units"] == st["units"];
    }
  }

  /** What `toggle_units` writes is what startup reads back, and position and lock are not disturbed. */
  lemma UnitsRoundTrip(st: Dict, mode: string, dock: Point, current: string)
    requires mode == "bits" || mode == "bytes"
    requires PosRestorable(st)
    ensures RestoredUnits(WithUnits(st, mode), current) == mode
    ensures PosRestorable(WithUnits(st, mode))
    ensures RestoredPos(WithUnits(st, mode), dock) == RestoredPos(st, dock)
    ensures RestoredLock(WithUnits(st, mode)) == RestoredLock(st)
  {
    var r := WithUnits(st, mode);
    assert "pos" in r <==> "pos" in st;
    assert "locked" in r <==> "locked" in st;
  }
}
