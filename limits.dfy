/**
 * The numeric helpers the pager controller uses: page clamping, the zoom range
 * and the width available to a page in fit-to-width mode.
 */
module Limits {
  /** The zoom range `applyZoom` clamps to. */
  const MinScale: real := 0.6
  const MaxScale: real := 3.0

  /** Horizontal padding subtracted from the canvas wrapper's width. */
  const WrapPadding: int := 32
  /** Margin subtracted from the window width when the wrapper has no width yet. */
  const WindowMargin: int := 48
  /** Upper bound on the fallback width. */
  const MaxFallbackWidth: int := 960

  /**
   * `Math.min(Math.max(x, lo), hi)`: the value of `[lo, hi]` nearest to `x`.
   * Every caller passes `lo == 1` and the page count of a loaded document as `hi`.
   */
  function Clamp(x: int, lo: int, hi: int): (r: int)
    requires lo <= hi
    ensures lo <= r <= hi
    ensures lo <= x <= hi ==> r == x
    ensures x < lo ==> r == lo
    ensures hi < x ==> r == hi
  {
    var raised := if x >= lo then x else lo;
    if raised <= hi then raised else hi
  }

  /** The scale `applyZoom(delta)` moves to from `scale`. */
  function ZoomedScale(scale: real, delta: real): (r: real)
    ensures MinScale <= r <= MaxScale
    ensures MinScale <= scale + delta <= MaxScale ==> r == scale + delta
    ensures scale + delta < MinScale ==> r == MinScale
    ensures MaxScale < scale + delta ==> r == MaxScale
  {
    var raised := if scale + delta >= MinScale then scale + delta else MinScale;
    if raised <= MaxScale then raised else MaxScale
  }

  /**
   * `getAvailableWidth`: the wrapper's client width less its padding when the
   * wrapper has been laid out, otherwise the window width less a margin, capped.
   */
  function AvailableWidth(clientWidth: int, innerWidth: int): (w: int)
    ensures 0 < clientWidth ==> w == clientWidth - WrapPadding && w < clientWidth
    ensures clientWidth <= 0 ==> w <= MaxFallbackWidth && w <= innerWidth - WindowMargin
    ensures clientWidth <= 0 ==> w == MaxFallbackWidth || w == innerWidth - WindowMargin
  {
    if clientWidth > 0 then clientWidth - WrapPadding
    else if innerWidth - WindowMargin <= MaxFallbackWidth then innerWidth - WindowMargin
    else MaxFallbackWidth
  }
}
