/**
 * The pager controller as script.js keeps it: module-level variables updated
 * in place by event handlers and promise continuations. Each method does what
 * its JavaScript counterpart does, step by step, and is proved to move the
 * state exactly as the matching function of `PagerSpec` says.
 */
module PagerController {
  import opened Wrappers
  import opened Limits
  import PagerSpec

  class Pager {
    var numPages: nat            // `pdfDoc.numPages`; 0 while `pdfDoc` is null
    var currentPage: int
    var currentScale: real
    var fitToWidth: bool
    var isRendering: bool
    var pendingPage: Option<int>
    var currentMode: string
    var task: PagerSpec.RenderTask // the outstanding continuation of `renderPage`

    function State(): PagerSpec.PagerState
      reads this
    {
      PagerSpec.PagerState(numPages, currentPage, currentScale, fitToWidth,
                           isRendering, pendingPage, currentMode, task)
    }

    ghost predicate Valid()
      reads this
    {
      State().Valid()
    }

    constructor ()
      ensures Valid() && State() == PagerSpec.Initial()
    {
      numPages := 0;
      currentPage := 1;
      currentScale := 1.0;
      fitToWidth := true;
      isRendering := false;
      pendingPage := None;
      currentMode := PagerSpec.ScrollMode;
      task := PagerSpec.Idle;
    }

    /** The synchronous part of `renderPage(pageNumber)`. */
    method RenderPage(pageNumber: int)
      requires Valid() && !isRendering
      requires numPages > 0 ==> 1 <= pageNumber <= numPages
      modifies this
      ensures Valid() && State() == PagerSpec.StartRender(old(State()), pageNumber)
    {
      if numPages == 0 {
        return;
      }
      isRendering := true;
      task := PagerSpec.Fetching(pageNumber);
    }

    method QueueRenderPage(pageNumber: int)
      requires Valid()
      requires numPages > 0 ==> 1 <= pageNumber <= numPages
      modifies this
      ensures Valid() && State() == PagerSpec.QueueRender(old(State()), pageNumber)
    {
      if isRendering {
        pendingPage := Some(pageNumber);
      } else {
        RenderPage(pageNumber);
      }
    }

    method ChangePage(offset: int)
      requires Valid()
      modifies this
      ensures Valid() && State() == PagerSpec.ChangePage(old(State()), offset)
    {
      if numPages == 0 {
        return;
      }
      var nextPage := Clamp(currentPage + offset, 1, numPages);
      if nextPage == currentPage {
        return;
      }
      currentPage := nextPage;
      QueueRenderPage(currentPage);
    }

    method ApplyZoom(delta: real)
      requires Valid()
      modifies this
      ensures Valid() && State() == PagerSpec.ApplyZoom(old(State()), delta)
    {
      fitToWidth := false;
      currentScale := ZoomedScale(currentScale, delta);
      QueueRenderPage(currentPage);
    }

    method FitPageToWidth()
      requires Valid()
      modifies this
      ensures Valid() && State() == PagerSpec.FitPageToWidth(old(State()))
    {
      fitToWidth := true;
      QueueRenderPage(currentPage);
    }

    /** The first continuation of `renderPage`; `fitScale` is the available width over the page's width. */
    method PageFetched(fitScale: real)
      requires Valid() && task.Fetching?
      modifies this
      ensures Valid() && State() == PagerSpec.PageFetched(old(State()), fitScale)
    {
      if fitToWidth {
        currentScale := fitScale;
      }
      task := PagerSpec.Drawing(task.page);
    }

    /** The success continuation of `renderPage`. */
    method RenderSucceeded()
      requires Valid() && task.Drawing?
      modifies this
      ensures Valid() && State() == PagerSpec.RenderSucceeded(old(State()))
    {
      isRendering := false;
      task := PagerSpec.Idle;
      if pendingPage.Some? {
        var nextPage := pendingPage.value;
        pendingPage := None;
        RenderPage(nextPage);
      }
    }

    /** The failure handler of `renderPage`: it changes nothing but the error shown. */
    method RenderFailed()
      requires Valid() && !task.Idle?
      modifies this
      ensures Valid() && State() == PagerSpec.RenderFailed(old(State()))
      ensures isRendering && pendingPage == old(pendingPage)
    {
      task := PagerSpec.Idle;
    }

    /**
     * The page input's change handler. Returns the value written back into
     * the field: the current page when the input is not a number.
     */
    method PageInputChanged(value: Option<int>) returns (revertTo: Option<int>)
      requires Valid()
      modifies this
      ensures Valid() && State() == PagerSpec.PageInputChanged(old(State()), value)
      ensures revertTo == if old(numPages) > 0 && value.None? then Some(old(currentPage)) else None
    {
      revertTo := None;
      if numPages == 0 {
        return;
      }
      if value.None? {
        revertTo := Some(currentPage);
        return;
      }
      currentPage := Clamp(value.value, 1, numPages);
      QueueRenderPage(currentPage);
    }

    method Resize()
      requires Valid()
      modifies this
      ensures Valid() && State() == PagerSpec.Resize(old(State()))
    {
      if fitToWidth && currentMode == PagerSpec.PagerMode {
        QueueRenderPage(currentPage);
      }
    }

    method SetMode(mode: string)
      requires Valid()
      modifies this
      ensures Valid() && State() == PagerSpec.SetMode(old(State()), mode)
    {
      currentMode := mode;
      if mode == PagerSpec.PagerMode {
        QueueRenderPage(currentPage);
      }
    }

    /** The success continuation of the document load in `initPdf`. */
    method DocumentLoaded(pages: int)
      requires Valid() && numPages == 0 && pages >= 1
      modifies this
      ensures Valid() && State() == PagerSpec.DocumentLoaded(old(State()), pages)
    {
      numPages := pages;
      QueueRenderPage(currentPage);
    }

    /** The enablement `updateControls` writes; reading it changes nothing. */
    method UpdateControls() returns (c: PagerSpec.ControlState)
      requires Valid()
      ensures c == PagerSpec.Controls(State())
      ensures numPages == 0 ==> c == PagerSpec.ControlState(true, true, true, true, true, true)
      ensures numPages > 0 ==> !c.pageInputDisabled && !c.zoomOutDisabled && !c.zoomInDisabled && !c.zoomFitDisabled
      ensures numPages > 0 ==> (c.prevDisabled <==> currentPage == 1)
      ensures numPages > 0 ==> (c.nextDisabled <==> currentPage == numPages)
    {
      if numPages == 0 {
        c := PagerSpec.ControlState(true, true, true, true, true, true);
        return;
      }
      c := PagerSpec.ControlState(false, currentPage <= 1, currentPage >= numPages, false, false, false);
    }
  }

  /**
   * A session as the browser drives it: pager mode before the document
   * arrives, the load, a press of "previous" on page 1, a page fetched in
   * fit-to-width mode, a zoom while the first page is drawn, and a failure.
   */
  method Session()
  {
    var pager := new Pager();
    pager.SetMode(PagerSpec.PagerMode);
    assert !pager.isRendering;
    pager.DocumentLoaded(10);
    assert pager.task == PagerSpec.Fetching(1);
    pager.ChangePage(-1);
    assert pager.currentPage == 1 && pager.pendingPage == None;
    pager.PageFetched(4.5);
    assert pager.currentScale == 4.5;
    pager.ApplyZoom(0.1);
    assert pager.currentScale == 3.0 && pager.pendingPage == Some(1);
    pager.RenderSucceeded();
    assert pager.task == PagerSpec.Fetching(1) && pager.pendingPage == None;
    pager.RenderFailed();
    pager.ChangePage(1);
    assert pager.currentPage == 2 && pager.isRendering && pager.task == PagerSpec.Idle;
    assert pager.pendingPage == Some(2);
  }
}
