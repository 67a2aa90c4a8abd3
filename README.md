# Pager-mode controller of the fumetto PDF viewer

The viewer shows one PDF in two ways. Scroll mode is an `iframe` whose `src`
is set once. Pager mode draws one page at a time on a canvas, with page
navigation, zoom and fit-to-width. The pager's logic is a small state machine
over the module-level variables of `script.js` (`pdfDoc`, `currentPage`,
`currentScale`, `fitToWidth`, `isRendering`, `pendingPage`, `currentMode`).
This project models that state machine and proves its properties.

- `wrappers.dfy` (`Wrappers`): `Option`. `None` stands for JavaScript's
  `null` in the pending slot and for NaN from the page input.
- `limits.dfy` (`Limits`): page clamping, the zoom clamp to [0.6, 3] and
  `getAvailableWidth`.
- `pager_spec.dfy` (`PagerSpec`): the variables as a record `PagerState`.
  `numPages == 0` means no document is loaded. Every operation is a function
  from the old record to the new one. The file also holds the enablement
  `updateControls` writes and the reader visibility `setMode` writes.
- `pager_traces.dfy` (`PagerTraces`): the events the script reacts to and the
  state after a sequence of them. The properties that span several events are
  proved here.
- `pager.dfy` (`PagerController`): class `Pager`. Its fields are the
  variables, and each method updates them in place as its JavaScript
  counterpart does. Each method is proved to produce exactly the state the
  matching `PagerSpec` function gives.

The asynchronous `renderPage` is split at its suspension points:
- `StartRender`/`RenderPage`: the synchronous part.
- `PageFetched(fitScale)`: the first `.then`. Here `fitToWidth` is read and,
  when it is set, `currentScale` is overwritten.
- `RenderSucceeded`: the success handler.
- `RenderFailed`: the `catch` handler.

A field `task` (`Idle`, `Fetching(p)`, `Drawing(p)`) records which
continuation is outstanding. It is not a variable of the script. It is the
state of the event loop, and it decides which completion can arrive. At most
one render is ever in flight: `StartRender` requires the busy flag to be
clear, and `Valid` ties every outstanding continuation to the busy flag.

Two behaviours of the code are worth stating outright:
- A failed render leaves `isRendering` set and never drains `pendingPage`.
  From then on every request only overwrites the slot, and no render starts
  again (`FailureIsPermanent`).
- The scale stays in [0.6, 3] only while fit-to-width is off. A fit-to-width
  fetch stores whatever ratio it computes (`ReachableScaleBounded`,
  `PageFetched`).

`PagerController.Session` is a scenario, not a handler. It drives one
`Pager` through a short session: pager mode, the load, "previous" on page 1,
a fit-to-width fetch, a zoom during the render and a failure. Its assertions
show what a caller can conclude from the methods' contracts alone.

## Model

| member | source | states |
|---|---|---|
| Limits.Clamp | script.js:123 | the result lies in [lo, hi]; it is x when x is in range, lo below the range and hi above it |
| Limits.ZoomedScale | script.js:133 | the new scale lies in [0.6, 3] for any old scale and delta; it is scale + delta when that is in range, otherwise the nearer bound |
| Limits.AvailableWidth | script.js:56-62 | with a laid-out wrapper the width is the client width less 32 padding; otherwise it is the smaller of window width less 48 and the 960 cap |
| PagerSpec.Initial | script.js:2-8 | the starting state: no document, page 1, scale 1, fit-to-width on, idle, empty slot, scroll mode; it is valid |
| PagerSpec.StartRender | script.js:64-71 | without a document nothing changes; with one, the busy flag is set and the fetch of the page starts; page, zoom and mode are untouched |
| PagerSpec.QueueRender | script.js:111-117 | while busy only the one pending slot is overwritten with the page (last write wins) and the render in flight continues; when idle the render starts; without a document nothing changes |
| PagerSpec.ChangePage | script.js:119-129 | with a document the page becomes clamp(page + offset, 1, numPages); an unchanged page means an unchanged state with no render; a changed page requests its render; without a document nothing changes |
| PagerSpec.ApplyZoom | script.js:131-135 | fit-to-width goes off; the scale becomes the clamped scale + delta, in [0.6, 3]; the page is kept; a render of the current page is requested; without a document the render bookkeeping is untouched |
| PagerSpec.FitPageToWidth | script.js:137-140 | fit-to-width goes on; the scale is left for the next fetch to recompute; a render of the current page is requested |
| PagerSpec.PageFetched | script.js:73-81 | the fetched page moves to drawing; in fit-to-width mode the scale becomes the supplied width ratio, whatever its value; otherwise the scale is kept |
| PagerSpec.RenderSucceeded | script.js:95-104 | the slot ends up empty; with no pending page the controller is idle; with a pending page the render of exactly that page starts at once and the busy flag is set again |
| PagerSpec.RenderFailed | script.js:105-108 | the busy flag stays set and the pending page stays in the slot; no continuation remains outstanding |
| PagerSpec.PageInputChanged | script.js:196-207 | with no document, or input that is not a number, nothing changes; otherwise the page becomes clamp(value, 1, numPages) and a render is requested even when the page is unchanged |
| PagerSpec.Resize | script.js:209-213 | a render of the current page is requested exactly when fit-to-width is on and the mode is "pager"; otherwise nothing changes |
| PagerSpec.SetMode | script.js:142-158 | the mode is recorded; entering "pager" requests a render of the current page; any other mode leaves the render bookkeeping untouched |
| PagerSpec.DocumentLoaded | script.js:170-173 | the document arrives with its page count; the render of page 1 starts |
| PagerSpec.Controls | script.js:32-54 | with no document all six controls are disabled; with one, previous is disabled iff page <= 1, next iff page >= numPages, and input, zoom and fit are enabled |
| PagerSpec.ReaderVisibility | script.js:144-147 | the reader of the current mode is shown; of two readers with different mode tags at most one is shown, so the pager and scroll readers are never shown together |
| PagerSpec.PrevDisabledIffNoOp | script.js:48 | in every valid state, the enablement updateControls writes disables "previous" exactly when changePage(-1) would leave the state unchanged |
| PagerSpec.NextDisabledIffNoOp | script.js:49 | in every valid state, the enablement updateControls writes disables "next" exactly when changePage(1) would leave the state unchanged |
| PagerTraces.Step | script.js:187-213 | every event handler and promise continuation keeps the state valid: page in range, at most one render outstanding, pending page only while busy |
| PagerTraces.Run | script.js:187-213 | every state reached by any admissible sequence of events is valid |
| PagerTraces.BusyUntilCompletion | script.js:111-114 | while busy, no user event starts a render or disturbs the one outstanding, whatever it does to page, zoom or mode |
| PagerTraces.LastRequestWins | script.js:111-114 | after any run of user events during a render, if the last one requests a render, the single slot holds exactly its page, whatever earlier requests put there |
| PagerTraces.BusyRequestFillsSlot | script.js:111-114 | one user event that requests a render while busy puts exactly the page it asks for in the slot and leaves the render in flight alone |
| PagerTraces.StuckForever | script.js:105-114 | from a state with the busy flag set and nothing outstanding, no sequence of events ever starts a render again |
| PagerTraces.FailureIsPermanent | script.js:105-108 | after a failed render, whatever events follow, the busy flag stays set and no render is ever outstanding again |
| PagerTraces.ScaleStaysBounded | script.js:131-135 | every event keeps the scale in [0.6, 3] whenever fit-to-width is off |
| PagerTraces.ReachableScaleBounded | script.js:4-5 | in every reachable state the scale is in [0.6, 3] unless fit-to-width is on |
| PagerTraces.RapidZoomWhileBusy | script.js:131-135 | page 3 of 10 with a render in flight: five zoom-ins of 0.1 bring the scale from 1 to 1.5 and fill the slot once with page 3; on completion that single render starts |
| PagerController.Pager.constructor | script.js:2-8 | the object starts in the initial state |
| PagerController.Pager.RenderPage | script.js:64-71 | the fields change exactly as StartRender says |
| PagerController.Pager.QueueRenderPage | script.js:111-117 | the fields change exactly as QueueRender says |
| PagerController.Pager.ChangePage | script.js:119-129 | the fields change exactly as PagerSpec.ChangePage says |
| PagerController.Pager.ApplyZoom | script.js:131-135 | the fields change exactly as PagerSpec.ApplyZoom says |
| PagerController.Pager.FitPageToWidth | script.js:137-140 | the fields change exactly as PagerSpec.FitPageToWidth says |
| PagerController.Pager.PageFetched | script.js:73-81 | the fields change exactly as PagerSpec.PageFetched says |
| PagerController.Pager.RenderSucceeded | script.js:95-104 | the fields change exactly as PagerSpec.RenderSucceeded says |
| PagerController.Pager.RenderFailed | script.js:105-108 | the fields change exactly as PagerSpec.RenderFailed says; the busy flag stays set and the slot keeps its page |
| PagerController.Pager.PageInputChanged | script.js:196-207 | the fields change exactly as PagerSpec.PageInputChanged says; the field is given back the current page iff a document is loaded and the input is not a number |
| PagerController.Pager.Resize | script.js:209-213 | the fields change exactly as PagerSpec.Resize says |
| PagerController.Pager.SetMode | script.js:142-158 | the fields change exactly as PagerSpec.SetMode says |
| PagerController.Pager.DocumentLoaded | script.js:170-173 | the fields change exactly as PagerSpec.DocumentLoaded says |
| PagerController.Pager.UpdateControls | script.js:32-54 | it computes the enablement of Controls; with a document, previous is disabled iff on page 1 and next iff on the last page |

## Left out

- Loading pdf.js and the document (`initPdf`, script.js:160-178) is a foreign library call. Only its success is modelled, as `DocumentLoaded`: the page count arrives. A missing library or a failed load leaves the controller without a document, which is the state it starts in.
- Canvas sizing, device-pixel-ratio scaling, `getContext`/`setTransform` and `page.render` (script.js:83-94) are rasterisation done by the external library. Only whether they settle, and how, is modelled.
- PagerSpec.PageFetched: the fit-to-width scale `getAvailableWidth() / baseViewport.width` (script.js:78-79) is an arbitrary real passed in as a parameter. The base width comes from the external library. `AvailableWidth` is modelled on its own.
- PagerSpec.Controls: it is the enablement `updateControls` writes for the current state. The buttons show it only after init, a document load or a successful render (script.js:182, 172, 98). During a render, and for good after a failed one, they show the last enablement written. For example, "previous" stays enabled on page 1 until the render of page 1 succeeds. The enablement actually on screen is not a field of the model.
- The zoom label with `Math.round` (script.js:53), the total-pages label, the `max` attribute of the input and the loading overlay's text and visibility are display only.
- PagerSpec.PageInputChanged: the field is read as an integer or NaN. JavaScript's `Number()` parsing and fractional values such as 2.5 are not modelled. A fractional value would be clamped and stored as the current page, and the fetch of that page would then fail.
- Limits.ZoomedScale: scales are exact reals, not IEEE doubles. Repeated steps of 0.1 therefore add up exactly here, but only approximately in the browser.
- PagerSpec.SetMode: the request `setMode` makes is deferred to the next animation frame (script.js:156). The model makes it at once. The class toggling and `aria-pressed` on the mode buttons (script.js:149-153) are display only.
- The scroll-mode `iframe` (script.js:181) and the event-listener wiring in `init` (script.js:187-194) are UI plumbing. The `Event` datatype lists the events those listeners deliver.
