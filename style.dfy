/** The click-through bits of the overlay window's extended style word. */
module Style {

  const WS_EX_TRANSPARENT: bv32 := 0x20
  const WS_EX_LAYERED: bv32 := 0x80000

  /**
   * Enabling sets TRANSPARENT and LAYERED; disabling clears TRANSPARENT and
   * sets LAYERED. No other bit changes.
   */
  function ApplyClickThrough(ex: bv32, enable: bool): (r: bv32)
    ensures r & WS_EX_LAYERED == WS_EX_LAYERED
    ensures (r & WS_EX_TRANSPARENT == WS_EX_TRANSPARENT) == enable
    ensures r & !(WS_EX_TRANSPARENT | WS_EX_LAYERED) == ex & !(WS_EX_TRANSPARENT | WS_EX_LAYERED)
  {
    if enable then ex | WS_EX_TRANSPARENT | WS_EX_LAYERED
    else (ex & !WS_EX_TRANSPARENT) | WS_EX_LAYERED
  }

  /** The result depends only on the bits other than TRANSPARENT and LAYERED. */
  lemma OnlyOtherBitsMatter(x: bv32, y: bv32, enable: bool)
    requires x & !(WS_EX_TRANSPARENT | WS_EX_LAYERED) == y & !(WS_EX_TRANSPARENT | WS_EX_LAYERED)
    ensures ApplyClickThrough(x, enable) == ApplyClickThrough(y, enable)
  {
    if enable {
      assert x | WS_EX_TRANSPARENT | WS_EX_LAYERED == y | WS_EX_TRANSPARENT | WS_EX_LAYERED;
    } else {
      assert (x & !WS_EX_TRANSPARENT) | WS_EX_LAYERED == (y & !WS_EX_TRANSPARENT) | WS_EX_LAYERED;
    }
  }

  /** Only the last call matters: applying twice is applying the second setting once. */
  lemma LastApplyWins(ex: bv32, first: bool, second: bool)
    ensures ApplyClickThrough(ApplyClickThrough(ex, first), second) == ApplyClickThrough(ex, second)
  {
    OnlyOtherBitsMatter(ApplyClickThrough(ex, first), ex, second);
  }

  /** Locking then unlocking leaves the original word with TRANSPARENT cleared and LAYERED set. */
  lemma UnlockAfterLock(ex: bv32)
    ensures ApplyClickThrough(ApplyClickThrough(ex, true), false) == (ex & !WS_EX_TRANSPARENT) | WS_EX_LAYERED
  {
  }
}
