/**
 * The pager controller of script.js as values: the module-level variables as
 * one record, and every operation that updates them as a function from the old
 * record to the new one.
 *
 * `numPages == 0` stands for "no document loaded" (`pdfDoc === null`).
 * `task` records which continuation of `renderPage`'s promise chain is
 * outstanding; it is not a variable of the script but the state of the event
 * loop, and it is what allows a completion to arrive at all.
 */
module PagerSpec {
  import opened Wrappers
  import opened Limits

  const ScrollMode: string := "scroll"
  const PagerMode: string := "pager"

  /** The outstanding step of the render started by `renderPage`, if any. */
  datatype RenderTask =
    | Idle               // no continuation is pending
    | Fetching(page: int) // `pdfDoc.getPage(page)` has not settled yet
    | Drawing(page: int)  // the page was fetched; `page.render` has not settled yet

  datatype PagerState = PagerState(
    numPages: nat,
    currentPage: int,
    scale: real,
    fitToWidth: bool,
    isRendering: bool,
    pendingPage: Option<int>,
    mode: string,
    task: RenderTask)
  {
    predicate HasDocument() { numPages > 0 }

    predicate InRange(p: int) { 1 <= p <= numPages }

    /**
     * What every reachable state satisfies: without a document nothing has
     * moved the page or started a render; with one, the current page, the
     * page being rendered and the pending page are all pages of it; a render
     * continuation or a pending page exists only while the busy flag is set.
     */
    predicate Valid() {
      && (!HasDocument() ==> currentPage == 1 && !isRendering)
      && (HasDocument() ==> InRange(currentPage))
      && (task.Idle? || (isRendering && InRange(task.page)))
      && (pendingPage.Some? ==> isRendering && InRange(pendingPage.value))
    }
  }

  /** The values script.js:2-8 declares. */
  function Initial(): (s: PagerState)
    ensures s.Valid() && !s.HasDocument() && !s.isRendering
  {
    PagerState(0, 1, 1.0, true, false, None, ScrollMode, Idle)
  }

  /** Document, page, zoom and mode are the same in `s` and `t`. */
  predicate SameView(s: PagerState, t: PagerState) {
    && t.numPages == s.numPages
    && t.currentPage == s.currentPage
    && t.scale == s.scale
    && t.fitToWidth == s.fitToWidth
    && t.mode == s.mode
  }

  /** The busy flag, the pending slot and the outstanding render are the same in `s` and `t`. */
  predicate SameRender(s: PagerState, t: PagerState) {
    && t.isRendering == s.isRendering
    && t.pendingPage == s.pendingPage
    && t.task == s.task
  }

  /**
   * The render bookkeeping of `t` is what a request for page `p` makes of
   * that of `s` when a document is loaded: while busy the request only takes
   * the single pending slot, overwriting what was there, and the render in
   * flight goes on; while idle the render of `p` starts at once.
   */
  predicate RenderRequested(s: PagerState, t: PagerState, p: int) {
    if s.isRendering then
      t.isRendering && t.task == s.task && t.pendingPage == Some(p)
    else
      t.isRendering && t.task == Fetching(p) && t.pendingPage == None
  }

  /** The synchronous part of `renderPage(p)`: set the busy flag and ask for the page. */
  function StartRender(s: PagerState, p: int): (t: PagerState)
    requires s.Valid() && !s.isRendering
    requires s.HasDocument() ==> s.InRange(p)
    ensures t.Valid() && SameView(s, t)
    ensures !s.HasDocument() ==> t == s
    ensures s.HasDocument() ==> RenderRequested(s, t, p)
  {
    if !s.HasDocument() then s
    else s.(isRendering := true, task := Fetching(p))
  }

  /** `queueRenderPage(p)`: single-slot, last-write-wins render request. */
  function QueueRender(s: PagerState, p: int): (t: PagerState)
    requires s.Valid()
    requires s.HasDocument() ==> s.InRange(p)
    ensures t.Valid() && SameView(s, t)
    ensures !s.HasDocument() ==> t == s
    ensures s.HasDocument() ==> RenderRequested(s, t, p)
  {
    if s.isRendering then s.(pendingPage := Some(p))
    else StartRender(s, p)
  }

  /** `changePage(offset)`: move by `offset` pages, clamped to the document. */
  function ChangePage(s: PagerState, offset: int): (t: PagerState)
    requires s.Valid()
    ensures t.Valid()
    ensures !s.HasDocument() ==> t == s
    ensures s.HasDocument() ==> t.currentPage == Clamp(s.currentPage + offset, 1, s.numPages)
    ensures t.currentPage == s.currentPage ==> t == s
    ensures t.currentPage != s.currentPage ==> RenderRequested(s, t, t.currentPage)
    ensures t.numPages == s.numPages && t.scale == s.scale
    ensures t.fitToWidth == s.fitToWidth && t.mode == s.mode
  {
    if !s.HasDocument() then s
    else
      var next := Clamp(s.currentPage + offset, 1, s.numPages);
      if next == s.currentPage then s
      else QueueRender(s.(currentPage := next), next)
  }

  /** `applyZoom(delta)`: leave fit-to-width, clamp the new scale, re-render the current page. */
  function ApplyZoom(s: PagerState, delta: real): (t: PagerState)
    requires s.Valid()
    ensures t.Valid()
    ensures !t.fitToWidth && MinScale <= t.scale <= MaxScale
    ensures t.scale == ZoomedScale(s.scale, delta)
    ensures t.numPages == s.numPages && t.currentPage == s.currentPage && t.mode == s.mode
    ensures s.HasDocument() ==> RenderRequested(s, t, s.currentPage)
    ensures !s.HasDocument() ==> SameRender(s, t)
  {
    var zoomed := s.(fitToWidth := false, scale := ZoomedScale(s.scale, delta));
    QueueRender(zoomed, zoomed.currentPage)
  }

  /** `fitPageToWidth`: turn fit-to-width on; the scale is recomputed when the page is fetched. */
  function FitPageToWidth(s: PagerState): (t: PagerState)
    requires s.Valid()
    ensures t.Valid()
    ensures t.fitToWidth && t.scale == s.scale
    ensures t.numPages == s.numPages && t.currentPage == s.currentPage && t.mode == s.mode
    ensures s.HasDocument() ==> RenderRequested(s, t, s.currentPage)
    ensures !s.HasDocument() ==> SameRender(s, t)
  {
    var fitted := s.(fitToWidth := true);
    QueueRender(fitted, fitted.currentPage)
  }

  /**
   * The first continuation of `renderPage`: the page has been fetched. In
   * fit-to-width mode the stored scale is overwritten by `fitScale`, the
   * available width divided by the page's width at scale 1, which may lie
   * outside the zoom range.
   */
  function PageFetched(s: PagerState, fitScale: real): (t: PagerState)
    requires s.Valid() && s.task.Fetching?
    ensures t.Valid()
    ensures t.task == Drawing(s.task.page)
    ensures t.isRendering && t.pendingPage == s.pendingPage
    ensures t.scale == (if s.fitToWidth then fitScale else s.scale)
    ensures t.numPages == s.numPages && t.currentPage == s.currentPage
    ensures t.fitToWidth == s.fitToWidth && t.mode == s.mode
  {
    var drawing := s.(task := Drawing(s.task.page));
    if s.fitToWidth then drawing.(scale := fitScale) else drawing
  }

  /**
   * The success continuation of `renderPage`: clear the busy flag, then, if a
   * page waits in the slot, empty the slot and start rendering that page.
   */
  function RenderSucceeded(s: PagerState): (t: PagerState)
    requires s.Valid() && s.task.Drawing?
    ensures t.Valid() && SameView(s, t)
    ensures t.pendingPage == None
    ensures s.pendingPage.None? ==> !t.isRendering && t.task == Idle
    ensures s.pendingPage.Some? ==> t.isRendering && t.task == Fetching(s.pendingPage.value)
  {
    var idle := s.(isRendering := false, task := Idle, pendingPage := None);
    match s.pendingPage
    case None => idle
    case Some(next) => StartRender(idle, next)
  }

  /**
   * The failure handler of `renderPage`: it only shows an error, so the busy
   * flag stays set and the pending slot is not drained.
   */
  function RenderFailed(s: PagerState): (t: PagerState)
    requires s.Valid() && !s.task.Idle?
    ensures t.Valid() && SameView(s, t)
    ensures t.isRendering && t.task == Idle && t.pendingPage == s.pendingPage
  {
    s.(task := Idle)
  }

  /**
   * The page input's change handler; `value` is the field parsed as a number,
   * `None` when that is NaN. A number is clamped to the document and always
   * re-rendered, even when it names the current page.
   */
  function PageInputChanged(s: PagerState, value: Option<int>): (t: PagerState)
    requires s.Valid()
    ensures t.Valid()
    ensures !s.HasDocument() || value.None? ==> t == s
    ensures s.HasDocument() && value.Some? ==>
              t.currentPage == Clamp(value.value, 1, s.numPages) && RenderRequested(s, t, t.currentPage)
    ensures t.numPages == s.numPages && t.scale == s.scale
    ensures t.fitToWidth == s.fitToWidth && t.mode == s.mode
  {
    if !s.HasDocument() || value.None? then s
    else
      var page := Clamp(value.value, 1, s.numPages);
      QueueRender(s.(currentPage := page), page)
  }

  /** The window's resize handler: re-render only in pager mode with fit-to-width on. */
  function Resize(s: PagerState): (t: PagerState)
    requires s.Valid()
    ensures t.Valid() && SameView(s, t)
    ensures s.HasDocument() && s.fitToWidth && s.mode == PagerMode ==>
              RenderRequested(s, t, s.currentPage)
    ensures !(s.fitToWidth && s.mode == PagerMode) ==> t == s
  {
    if s.fitToWidth && s.mode == PagerMode then QueueRender(s, s.currentPage) else s
  }

  /** `setMode(mode)`: record the mode; entering pager mode re-renders the current page. */
  function SetMode(s: PagerState, mode: string): (t: PagerState)
    requires s.Valid()
    ensures t.Valid()
    ensures t.mode == mode
    ensures t.numPages == s.numPages && t.currentPage == s.currentPage
    ensures t.scale == s.scale && t.fitToWidth == s.fitToWidth
    ensures s.HasDocument() && mode == PagerMode ==> RenderRequested(s, t, s.currentPage)
    ensures !s.HasDocument() || mode != PagerMode ==> SameRender(s, t)
  {
    var switched := s.(mode := mode);
    if mode == PagerMode then QueueRender(switched, switched.currentPage) else switched
  }

  /**
   * The success continuation of the document load in `initPdf`: the document
   * arrives (a PDF has at least one page) and the current page is rendered.
   */
  function DocumentLoaded(s: PagerState, pages: int): (t: PagerState)
    requires s.Valid() && !s.HasDocument() && pages >= 1
    ensures t.Valid()
    ensures t.numPages == pages && t.currentPage == 1
    ensures t.isRendering && t.task == Fetching(1) && t.pendingPage == None
    ensures t.scale == s.scale && t.fitToWidth == s.fitToWidth && t.mode == s.mode
  {
    var loaded := s.(numPages := pages);
    QueueRender(loaded, loaded.currentPage)
  }

  /** Which of the six pager controls `updateControls` disables. */
  datatype ControlState = ControlState(
    pageInputDisabled: bool,
    prevDisabled: bool,
    nextDisabled: bool,
    zoomOutDisabled: bool,
    zoomInDisabled: bool,
    zoomFitDisabled: bool)

  /** The enablement `updateControls` writes for state `s`. */
  function Controls(s: PagerState): (c: ControlState)
    ensures !s.HasDocument() ==> c == ControlState(true, true, true, true, true, true)
    ensures s.HasDocument() ==>
              && !c.pageInputDisabled && !c.zoomOutDisabled && !c.zoomInDisabled && !c.zoomFitDisabled
              && (c.prevDisabled <==> s.currentPage <= 1)
              && (c.nextDisabled <==> s.currentPage >= s.numPages)
  {
    if !s.HasDocument() then ControlState(true, true, true, true, true, true)
    else ControlState(false, s.currentPage <= 1, s.currentPage >= s.numPages, false, false, false)
  }

  /** A reader element tagged with `readerMode` is hidden unless it is the current mode's. */
  function ReaderHidden(s: PagerState, readerMode: string): bool
  {
    readerMode != s.mode
  }

  /**
   * The reader of the current mode is shown, and of two readers with
   * different mode tags at most one is shown; in particular the pager and
   * the scroll reader are never shown together.
   */
  lemma ReaderVisibility(s: PagerState, a: string, b: string)
    ensures !ReaderHidden(s, s.mode)
    ensures a != b ==> ReaderHidden(s, a) || ReaderHidden(s, b)
    ensures ReaderHidden(s, PagerMode) || ReaderHidden(s, ScrollMode)
  {
  }

  /**
   * The enablement `updateControls` writes for `s` disables "previous"
   * exactly when `changePage(-1)` in `s` would change nothing.
   */
  lemma PrevDisabledIffNoOp(s: PagerState)
    requires s.Valid()
    ensures Controls(s).prevDisabled <==> ChangePage(s, -1) == s
  {
  }

  /**
   * The enablement `updateControls` writes for `s` disables "next" exactly
   * when `changePage(1)` in `s` would change nothing.
   */
  lemma NextDisabledIffNoOp(s: PagerState)
    requires s.Valid()
    ensures Controls(s).nextDisabled <==> ChangePage(s, 1) == s
  {
  }
}
