/**
 * Runs of the pager controller: every event the script reacts to, which of
 * them can happen in a state, and what a whole sequence of them does. The
 * properties that span several events are proved here.
 */
module PagerTraces {
  import opened Wrappers
  import opened Limits
  import opened PagerSpec

  datatype Event =
    | Navigate(offset: int)         // previous / next buttons: changePage(-1), changePage(1)
    | Zoom(delta: real)             // zoom buttons: applyZoom(-0.1), applyZoom(0.1)
    | FitWidth                      // fit button: fitPageToWidth()
    | PageInput(value: Option<int>) // change of the page-number field
    | WindowResized                 // window resize
    | SwitchMode(mode: string)      // mode toggle buttons: setMode(mode)
    | Loaded(pages: int)            // the document load resolved
    | Fetched(fitScale: real)       // getPage resolved
    | Drawn                         // page.render resolved
    | Failed                        // getPage or page.render rejected

  /** A settlement of the render chain started by `renderPage`. */
  predicate IsCompletion(e: Event) {
    e.Fetched? || e.Drawn? || e.Failed?
  }

  /**
   * Whether `e` can happen in `s`: the document arrives once, and a promise
   * continuation runs only while its promise is outstanding.
   */
  predicate Enabled(s: PagerState, e: Event) {
    match e
    case Loaded(pages) => !s.HasDocument() && pages >= 1
    case Fetched(_) => s.task.Fetching?
    case Drawn => s.task.Drawing?
    case Failed => !s.task.Idle?
    case _ => true
  }

  function Step(s: PagerState, e: Event): (t: PagerState)
    requires s.Valid() && Enabled(s, e)
    ensures t.Valid()
  {
    match e
    case Navigate(offset) => ChangePage(s, offset)
    case Zoom(delta) => ApplyZoom(s, delta)
    case FitWidth => FitPageToWidth(s)
    case PageInput(value) => PageInputChanged(s, value)
    case WindowResized => Resize(s)
    case SwitchMode(mode) => SetMode(s, mode)
    case Loaded(pages) => DocumentLoaded(s, pages)
    case Fetched(fitScale) => PageFetched(s, fitScale)
    case Drawn => RenderSucceeded(s)
    case Failed => RenderFailed(s)
  }

  /** Every event of `es` can happen when its turn comes. */
  predicate Admissible(s: PagerState, es: seq<Event>)
    requires s.Valid()
    decreases |es|
  {
    |es| == 0 || (Enabled(s, es[0]) && Admissible(Step(s, es[0]), es[1..]))
  }

  /** The state after the events `es`, in order; every state on the way is valid. */
  function Run(s: PagerState, es: seq<Event>): (t: PagerState)
    requires s.Valid() && Admissible(s, es)
    ensures t.Valid()
    decreases |es|
  {
    if |es| == 0 then s else Run(Step(s, es[0]), es[1..])
  }

  /** Whether `e` calls `queueRenderPage` when it happens in `s`. */
  predicate Requests(s: PagerState, e: Event)
    requires s.Valid()
  {
    match e
    case Navigate(offset) => s.HasDocument() && Clamp(s.currentPage + offset, 1, s.numPages) != s.currentPage
    case Zoom(_) => true
    case FitWidth => true
    case PageInput(value) => s.HasDocument() && value.Some?
    case WindowResized => s.fitToWidth && s.mode == PagerMode
    case SwitchMode(mode) => mode == PagerMode
    case Loaded(_) => true
    case _ => false
  }

  /** Running `es` and then `e` is one step after running `es`. */
  lemma {:induction false} RunAppend(s: PagerState, es: seq<Event>, e: Event)
    requires s.Valid() && Admissible(s, es + [e])
    ensures Admissible(s, es) && Enabled(Run(s, es), e)
    ensures Run(s, es + [e]) == Step(Run(s, es), e)
    decreases |es|
  {
    if |es| > 0 {
      assert (es + [e])[0] == es[0];
      assert (es + [e])[1..] == es[1..] + [e];
      RunAppend(Step(s, es[0]), es[1..], e);
    } else {
      assert es + [e] == [e];
    }
  }

  /**
   * Busy means busy until the render settles: while a render is outstanding
   * or the busy flag is stuck, no user event starts a render or touches the
   * one in flight, whatever it does to page, zoom or mode.
   */
  lemma {:induction false} BusyUntilCompletion(s: PagerState, es: seq<Event>)
    requires s.Valid() && s.isRendering && Admissible(s, es)
    requires forall i :: 0 <= i < |es| ==> !IsCompletion(es[i])
    ensures Run(s, es).isRendering && Run(s, es).task == s.task
    decreases |es|
  {
    if |es| > 0 {
      var t := Step(s, es[0]);
      assert !IsCompletion(es[0]);
      assert t.isRendering && t.task == s.task;
      BusyUntilCompletion(t, es[1..]);
    }
  }

  /**
   * Last write wins: if the last of a run of user events during a render
   * requests a render, the single pending slot holds exactly the page that
   * event asked for, whatever the earlier events put there, and the render in
   * flight is still the one that was in flight before.
   */
  lemma LastRequestWins(s: PagerState, es: seq<Event>, e: Event)
    requires s.Valid() && s.isRendering && Admissible(s, es) && Admissible(s, es + [e])
    requires forall i :: 0 <= i < |es| ==> !IsCompletion(es[i])
    requires !IsCompletion(e)
    requires Requests(Run(s, es), e)
    ensures Run(s, es + [e]).pendingPage == Some(Run(s, es + [e]).currentPage)
    ensures Run(s, es + [e]).isRendering && Run(s, es + [e]).task == s.task
  {
    RunAppend(s, es, e);
    BusyUntilCompletion(s, es);
    BusyRequestFillsSlot(Run(s, es), e);
  }

  /** One user event that requests a render while busy puts its page in the slot. */
  lemma BusyRequestFillsSlot(u: PagerState, e: Event)
    requires u.Valid() && u.isRendering && Enabled(u, e) && !IsCompletion(e)
    requires Requests(u, e)
    ensures Step(u, e).pendingPage == Some(Step(u, e).currentPage)
    ensures Step(u, e).isRendering && Step(u, e).task == u.task
  {
  }

  /** The busy flag is set but no render is outstanding: what a failed render leaves behind. */
  predicate Stuck(s: PagerState) {
    s.isRendering && s.task.Idle?
  }

  /** Once stuck, always stuck: no event can start a render again. */
  lemma {:induction false} StuckForever(s: PagerState, es: seq<Event>)
    requires s.Valid() && Stuck(s) && Admissible(s, es)
    ensures Stuck(Run(s, es))
    decreases |es|
  {
    if |es| > 0 {
      assert !IsCompletion(es[0]);
      BusyUntilCompletion(s, es[..1]);
      assert es[..1][1..] == [];
      StuckForever(Step(s, es[0]), es[1..]);
    }
  }

  /**
   * A failed render is never recovered from: after it, whatever the user
   * does, the busy flag stays set and no render is outstanding, so every
   * later request only overwrites the pending slot.
   */
  lemma FailureIsPermanent(s: PagerState, es: seq<Event>)
    requires s.Valid() && Enabled(s, Failed) && Admissible(Step(s, Failed), es)
    ensures Admissible(s, [Failed] + es)
    ensures Stuck(Run(s, [Failed] + es))
  {
    assert ([Failed] + es)[0] == Failed;
    assert ([Failed] + es)[1..] == es;
    StuckForever(Step(s, Failed), es);
  }

  /** The zoom range is kept whenever fit-to-width is off. */
  predicate ScaleBounded(s: PagerState) {
    !s.fitToWidth ==> MinScale <= s.scale <= MaxScale
  }

  lemma {:induction false} ScaleStaysBounded(s: PagerState, es: seq<Event>)
    requires s.Valid() && Admissible(s, es) && ScaleBounded(s)
    ensures ScaleBounded(Run(s, es))
    decreases |es|
  {
    if |es| > 0 {
      ScaleStaysBounded(Step(s, es[0]), es[1..]);
    }
  }

  /**
   * In every reachable state the scale lies in [0.6, 3] unless fit-to-width
   * is on: only a fit-to-width render can leave the range.
   */
  lemma ReachableScaleBounded(es: seq<Event>)
    requires Admissible(Initial(), es)
    ensures ScaleBounded(Run(Initial(), es))
  {
    ScaleStaysBounded(Initial(), es);
  }

  /** Five zoom-ins during a render of page 3 of 10, then the render completes. */
  lemma RapidZoomWhileBusy()
    ensures var busy := PagerState(10, 3, 1.0, false, true, None, PagerMode, Drawing(3));
            var zooms := [Zoom(0.1), Zoom(0.1), Zoom(0.1), Zoom(0.1), Zoom(0.1)];
            && Admissible(busy, zooms)
            && var after := Run(busy, zooms);
            && after.scale == 1.5 && after.task == Drawing(3) && after.pendingPage == Some(3)
            && RenderSucceeded(after).task == Fetching(3)
            && RenderSucceeded(after).pendingPage == None
  {
  }
}
