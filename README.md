# AlgoVisualizer: diagram panel and submission guard

AlgoVisualizer takes the text of a coding problem, asks a generative model for
an analysis, and shows the result. Part of the result is two Mermaid diagram
definitions, each drawn in its own pan-and-zoom panel. This project models the
two parts of that program that have exact behaviour:

- **The diagram panel** (`components/MermaidDiagram.tsx`). This covers:
  - the chart cleaner, which removes ```` ```mermaid ```` markers in any letter case, then every remaining ```` ``` ````, then trims;
  - the render effect, with the renderer as an outcome `Rendered(svg)` or `RenderFailed`;
  - the zoom, reset and pan handlers.

  The scale is counted in tenths (10 = 1.0, bounds 5 and 30, step 2), so the
  clamping is exact. Positions and pointer coordinates are integers.
- **The submission guard** (`App.tsx`). `handleVisualize` and the submit
  button's `disabled` condition act on `input`, `loading` and `data`. The
  analysis service is an outcome `Analyzed(result)` or `AnalysisFailed`.

Modules:

- `Wrappers`: `Option`, for the source's nullable state.
- `JsString`: ECMAScript `String.prototype.trim`, with the exact set of
  white-space and line-terminator characters.
- `ChartCleaner`: the two global replacements and the trim, as recursive
  functions. A global replace removes the leftmost match and resumes after it,
  so matches never overlap. Without the `u` flag, case-insensitive matching
  folds only ASCII letters.
- `Viewport`: the panel state as a value (`Panel`), one function per
  transition, and the lemmas about them.
- `DiagramComponent`: the panel as a class. Its fields are `chart`, `error`,
  `markup`, `scale`, `isPanning`, `position` and `startPos`. Each method is
  specified by the matching `Viewport` transition.
- `Types`: the `VisualizationData` record.
- `Shell`: the application state as a value, the handler's two halves (before
  and after the `await`), the button condition, and the class `App`.

Where the intended behaviour and the code differ, the model follows the code,
with one exception: the early return at line 29 of
`components/MermaidDiagram.tsx`, recorded under "## Findings".
`Viewport.RenderAsWritten` keeps that return, while `Viewport.Render` and the
class `DiagramComponent.Diagram` use the corrected effect without it. The
other differences are:

- There is no guard against stale asynchronous renders.
- The handler does not check `loading`. Only the disabled button stops a
  second submission.

A failed render leaves no markup behind, as intended. The code never
clears the markup itself, but the error view it then returns (lines 79-91)
unmounts the element that holds the markup. A container mounted again is empty.

## Model

| member | source | states |
|---|---|---|
| `JsString.TrimStart` | components/MermaidDiagram.tsx:37 | The result is a suffix of the input. Everything dropped is white space, and the result does not start with white space. |
| `JsString.TrimEnd` | components/MermaidDiagram.tsx:37 | The result is a prefix of the input. Everything dropped is white space, and the result does not end with white space. |
| `JsString.Trim` | components/MermaidDiagram.tsx:37 | `trim()` returns a contiguous slice of the input with no white space at either end and only white space outside it. |
| `JsString.TrimEmptyIff` | App.tsx:26 | `!input.trim()` holds exactly when every character of the input is white space. |
| `JsString.TrimIdempotent` | components/MermaidDiagram.tsx:37 | Trimming twice gives the same result as trimming once. |
| `JsString.TrimOfTrimmed` | components/MermaidDiagram.tsx:37 | A string with no white space at either end is its own trim. |
| `JsString.TrimAround` | components/MermaidDiagram.tsx:37 | White space around a trimmed core trims to exactly that core, so the result determines trim. |
| `ChartCleaner.RemoveMarkers` | components/MermaidDiagram.tsx:35 | The output is shorter than the input by a whole number of markers. The scan order and the case folding are stated by the lemmas below. |
| `ChartCleaner.RemoveFences` | components/MermaidDiagram.tsx:36 | Leftmost, non-overlapping removal of triple backticks. The output is shorter by a multiple of three. |
| `ChartCleaner.Clean` | components/MermaidDiagram.tsx:34-37 | The cleaned chart never contains three backticks in a row, so it never contains a marker in any letter case. It has no white space at either end. |
| `ChartCleaner.RemoveFencesLeavesNoFence` | components/MermaidDiagram.tsx:36 | No triple backtick survives the left-to-right, non-overlapping removal of triple backticks. |
| `ChartCleaner.RunShrinksModThree` | components/MermaidDiagram.tsx:36 | Each maximal run of `n` backticks becomes a run of `n mod 3` backticks. The rest is processed independently. |
| `ChartCleaner.RemoveFencesKeepsOtherCharacters` | components/MermaidDiagram.tsx:36 | The fence removal deletes only backticks. Every other character is kept, in order. |
| `ChartCleaner.RemoveFencesWithoutFence` | components/MermaidDiagram.tsx:36 | Text with no triple backtick passes the fence removal unchanged. |
| `ChartCleaner.RemoveFencesIdempotent` | components/MermaidDiagram.tsx:36 | A second fence removal changes nothing. |
| `ChartCleaner.RemoveFencesSkipsPlainPrefix` | components/MermaidDiagram.tsx:36 | A prefix without backticks passes the fence removal unchanged. |
| `ChartCleaner.RemoveMarkersWithoutMarker` | components/MermaidDiagram.tsx:35 | Text with no marker in any case passes the marker removal unchanged. |
| `ChartCleaner.RemoveMarkersSkipsPlainPrefix` | components/MermaidDiagram.tsx:35 | A prefix without backticks passes the marker removal unchanged. |
| `ChartCleaner.RemoveMarkersShort` | components/MermaidDiagram.tsx:35 | Text shorter than a marker cannot hold one and is unchanged. |
| `ChartCleaner.RemoveMarkersKeepsOtherCharacters` | components/MermaidDiagram.tsx:35 | The marker removal deletes only backticks and letters of the tag in either case. Every other character is kept, in order, for every input. |
| `ChartCleaner.BackticksBeforeMarkerKept` | components/MermaidDiagram.tsx:35 | One to three backticks right before a marker are not part of a match. They are kept, and the marker after them is removed. |
| `ChartCleaner.OnePassCanLeaveMarker` | components/MermaidDiagram.tsx:35 | One left-to-right pass can leave a marker behind. Three backticks, a marker and the tag become three backticks joined to the tag. The fence removal that follows deletes those backticks. |
| `ChartCleaner.LeadingMarkerDropped` | components/MermaidDiagram.tsx:35 | A leading marker is removed whatever the case of its letters. |
| `ChartCleaner.LowerCaseMarker` | components/MermaidDiagram.tsx:35 | ```` ```mermaid ```` is a marker. |
| `ChartCleaner.CleanIdempotent` | components/MermaidDiagram.tsx:34-37 | A cleaned chart cleans to itself. |
| `ChartCleaner.CleanWithoutBackticks` | components/MermaidDiagram.tsx:34-37 | A chart with no backtick is only trimmed. |
| `ChartCleaner.CleanEmptyIff` | components/MermaidDiagram.tsx:34-39 | The cleaned chart is empty exactly when only white space remains after the two removals. A blank chart always cleans to empty. |
| `ChartCleaner.FencedBlockCleans` | components/MermaidDiagram.tsx:34-37 | A marker in any case, then a body without backticks, then a closing fence, cleans to the trimmed body. |
| `ChartCleaner.FencedExampleCleans` | components/MermaidDiagram.tsx:34-37 | ```` ```mermaid\ngraph TD\nA-->B\n``` ```` cleans to `graph TD\nA-->B`. |
| `Viewport.Mounted` | components/MermaidDiagram.tsx:12-16 | Initial state: the given chart, no error, no markup, scale 1 (within bounds), not panning, offset and pan anchor at the origin. |
| `Viewport.View` | components/MermaidDiagram.tsx:79-123 | The error view with the message and raw chart when an error is set; otherwise the canvas with the markup, offset and scale. |
| `Viewport.ZoomIn` | components/MermaidDiagram.tsx:97 | `min(s + 0.2, 3)` is never above 3. It never decreases a scale of at most 3, and a scale of at least 0.5 stays at least 0.5. |
| `Viewport.ZoomOut` | components/MermaidDiagram.tsx:100 | `max(s - 0.2, 0.5)` is never below 0.5. It never increases a scale of at least 0.5, and a scale of at most 3 stays at most 3. |
| `Viewport.ZoomInTimesSaturates` | components/MermaidDiagram.tsx:97 | `n` zoom-ins from `s` give exactly `min(s + 0.2n, 3)`. |
| `Viewport.ZoomOutTimesSaturates` | components/MermaidDiagram.tsx:100 | `n` zoom-outs from `s` give exactly `max(s - 0.2n, 0.5)`. |
| `Viewport.ZoomFromDefault` | components/MermaidDiagram.tsx:97-100 | From scale 1, ten or more zoom-ins reach exactly 3 and three or more zoom-outs reach exactly 0.5. Any number of either stays in [0.5, 3]. |
| `Viewport.ZoomInPanel` | components/MermaidDiagram.tsx:97 | The zoom-in button changes only the scale, and a valid panel stays valid. |
| `Viewport.ZoomOutPanel` | components/MermaidDiagram.tsx:100 | The zoom-out button changes only the scale, and a valid panel stays valid. |
| `Viewport.Reset` | components/MermaidDiagram.tsx:103 | The reset button keeps a valid panel valid. |
| `Viewport.ResetRestoresDefaults` | components/MermaidDiagram.tsx:103 | Reset gives scale 1 and offset (0,0), which is within bounds, and changes nothing else. |
| `Viewport.ResetUndoesZoomAndDrag` | components/MermaidDiagram.tsx:97-103 | Reset after a zoom or after any drag gives the same state as reset alone. |
| `Viewport.MouseDown` | components/MermaidDiagram.tsx:62-65 | A press starts panning without moving the diagram, and a move to the press point leaves it where it is. |
| `Viewport.MouseMove` | components/MermaidDiagram.tsx:67-73 | While panning, the offset becomes the pointer minus the anchor; otherwise nothing changes. |
| `Viewport.MouseUp` | components/MermaidDiagram.tsx:75-77 | Release stops panning and keeps the offset and scale. Every later move is ignored. |
| `Viewport.Drag` | components/MermaidDiagram.tsx:67-73 | A sequence of moves changes only the offset. |
| `Viewport.DragFollowsPointer` | components/MermaidDiagram.tsx:67-73 | While panning, a sequence of moves puts the offset at the last pointer position minus the anchor. Nothing else changes. |
| `Viewport.DragWithoutPanning` | components/MermaidDiagram.tsx:67-68 | Moves while not panning change nothing. |
| `Viewport.PanMovesByPointerDelta` | components/MermaidDiagram.tsx:62-73 | A press at `p` followed by moves ending at `q` shifts the offset by exactly `q - p`. |
| `Viewport.PanRoundTrip` | components/MermaidDiagram.tsx:62-73 | Dragging back to the press point restores the offset. |
| `Viewport.ReleaseFreezesOffset` | components/MermaidDiagram.tsx:75-77 | Mouse-up keeps the offset and scale. Later moves change nothing until the next press. |
| `Viewport.Render` | components/MermaidDiagram.tsx:27-60 | The corrected effect: the chart is stored and a valid panel stays valid. The error is clear exactly when the cleaned chart is empty or renders. A set error is the fixed message and comes with no markup. Leaving the error view shows only markup from the new render. |
| `Viewport.RenderAsWritten` | components/MermaidDiagram.tsx:27-60 | The effect as written: the chart is stored, and while an error is shown the error and markup stay as they were. |
| `Viewport.RenderEmptyChart` | components/MermaidDiagram.tsx:30-42 | An empty cleaned chart is not rendered. On the canvas nothing but the stored chart changes. Coming from the error view (corrected effect only), the error is cleared and the canvas is empty. |
| `Viewport.RenderSuccessResetsView` | components/MermaidDiagram.tsx:46-51 | An accepted chart stores the svg and resets the scale to 1 and the offset to (0,0), whatever they were. The canvas is shown. From the error view this holds for the corrected effect only. |
| `Viewport.RenderFailureShowsRawChart` | components/MermaidDiagram.tsx:53-87 | A rejected chart shows the fixed message next to the raw, uncleaned chart, and the earlier markup is gone. From the error view this holds for the corrected effect only. |
| `Viewport.TransitionsKeepValid` | components/MermaidDiagram.tsx:27-105 | Every handler and both render effects keep the scale within [0.5, 3], and keep the markup empty while an error is shown. |
| `Viewport.AsWrittenErrorIsPermanent` | components/MermaidDiagram.tsx:29 | As written, once the error view is shown, a new chart leaves the error in place whatever the renderer would answer. |
| `Viewport.AsWrittenMissesValidChart` | components/MermaidDiagram.tsx:29-91 | A rejected chart followed by an accepted one: as written the error view stays; the corrected effect shows the new diagram. |
| `Viewport.RenderAgreesOnCanvas` | components/MermaidDiagram.tsx:28-60 | The two effects differ only by the line-29 return, so they agree whenever no error is shown. This holds by construction. |
| `Viewport.RenderRecovers` | components/MermaidDiagram.tsx:28-60 | With the corrected effect, a chart that renders is shown from any state, including the error view. |
| `DiagramComponent.Diagram.constructor` | components/MermaidDiagram.tsx:10-27 | Mounting gives the initial state, then runs the render effect for the first chart. |
| `DiagramComponent.Diagram.RenderChart` | components/MermaidDiagram.tsx:27-60 | The new state is the corrected render effect applied to the old one, and the panel stays valid. A chart that renders is shown on the canvas. An error view shows the fixed message and the new raw chart. |
| `DiagramComponent.Diagram.ZoomIn` | components/MermaidDiagram.tsx:97 | Only the scale changes, to the zoom-in of the old scale. |
| `DiagramComponent.Diagram.ZoomOut` | components/MermaidDiagram.tsx:100 | Only the scale changes, to the zoom-out of the old scale. |
| `DiagramComponent.Diagram.ResetView` | components/MermaidDiagram.tsx:103 | The scale becomes 1 and the offset (0,0). Nothing else changes. |
| `DiagramComponent.Diagram.MouseDown` | components/MermaidDiagram.tsx:62-65 | Panning starts, and the anchor becomes the pointer minus the offset. |
| `DiagramComponent.Diagram.MouseMove` | components/MermaidDiagram.tsx:67-73 | While panning, the offset becomes the pointer minus the anchor; otherwise nothing changes. |
| `DiagramComponent.Diagram.MouseUp` | components/MermaidDiagram.tsx:75-77 | Panning stops. Nothing else changes. |
| `DiagramComponent.Diagram.MouseLeave` | components/MermaidDiagram.tsx:112-113 | Leaving the canvas runs the mouse-up handler. |
| `Shell.SubmitEnabledIff` | App.tsx:73 | The button is enabled exactly when `loading` is false and the input has a character that is not white space. |
| `Shell.Dispatches` | App.tsx:26 | The handler gets past its first line exactly when the input has a character that is not white space. |
| `Shell.SubmitEnabled` | App.tsx:73 | An enabled button always leads to a call. |
| `Shell.Begin` | App.tsx:26-27 | Up to the `await`, input and data are kept. `loading` is set exactly when it was set before or the input is not blank. |
| `Shell.Settle` | App.tsx:28-35 | After the call, `loading` is false and the input is kept. A failure keeps `data`. |
| `Shell.Visualize` | App.tsx:25-36 | The whole handler keeps the input. `data` changes only to a record the service returned. |
| `Shell.Click` | App.tsx:71-73 | A click keeps input and data, and changes the state only by starting a call when nothing is loading. |
| `Shell.BlankInputIgnored` | App.tsx:26 | For a blank input the handler makes no call and changes no state. |
| `Shell.PendingIsLoading` | App.tsx:27 | While the call is pending, `loading` is true and nothing else has changed. |
| `Shell.SuccessReplacesData` | App.tsx:29-30 | A successful analysis makes `data` exactly the returned record, replacing any earlier one, and clears `loading`. |
| `Shell.FailureKeepsData` | App.tsx:31-32 | A failed analysis keeps `data`, including an absent one, and clears `loading`. |
| `Shell.LoadingClearedAfterCall` | App.tsx:33-35 | After the call, `loading` is false whatever the outcome. Only a blank input, which makes no call, leaves it unchanged. |
| `Shell.ButtonGuardsPendingCall` | App.tsx:73 | While loading, the handler would still dispatch for non-blank input. The button is disabled, so a click changes nothing. |
| `Shell.ClickStartsCallIff` | App.tsx:71-73 | A click starts a call exactly when the button is enabled. The call then only sets `loading`. |
| `Shell.App.constructor` | App.tsx:20-22 | Initial state: the given input, not loading, no data. |
| `Shell.App.Edit` | App.tsx:65 | Only the input changes. |
| `Shell.App.CanSubmit` | App.tsx:73 | Computes the button's enabled state: not loading, and some character of the input is not white space. |
| `Shell.App.Submit` | App.tsx:25-29 | Returns the input as the request exactly when its trim is non-empty. It then sets `loading`; otherwise nothing changes. |
| `Shell.App.Complete` | App.tsx:29-35 | A result replaces `data`, a failure keeps it, and `loading` is cleared. |
| `Shell.App.HandleVisualize` | App.tsx:25-36 | The whole handler: the service is called with the input, and the new state is the guard's outcome for its answer. |

## Findings

| source | as written | input that shows it | evidently intended | confidence | as-written member | corrected member |
|---|---|---|---|---|---|---|
| components/MermaidDiagram.tsx:29 | After a failed render the component shows the error view, so the element that holds `containerRef` is unmounted and the ref is null. Every later render effect returns at line 29. The error is never cleared and later charts are never drawn while the panel stays mounted. | A chart the renderer rejects, then a new chart it accepts while the same panel stays on screen. An example is a new analysis submitted while the Logic Flow tab is open. | A new chart clears the error and is rendered; a failure applies only to the chart that failed. | high (not executed) | `Viewport.AsWrittenMissesValidChart` | `Viewport.RenderRecovers` |

`Viewport.RenderAsWritten` models the effect as written. `Viewport.Render` is
the corrected effect, and `DiagramComponent.Diagram.RenderChart` uses it.

## Left out

- ChartCleaner.RemoveMarkers: no lemma fixes its output for every input. The lemmas pin it down on a backtick-free prefix, at a leading marker, on backticks just before a marker, and on short or marker-free text. For every other input, `RemoveMarkersKeepsOtherCharacters` guarantees only that every character that cannot belong to a marker survives, in order. `Clean`'s own ensures do not depend on this.
- The Mermaid library (`mermaid.initialize`, `mermaid.render`): an external renderer. Only its outcome for the cleaned chart is modelled, as a function from text to `Rendered(svg)` or `RenderFailed`.
- The random render id (components/MermaidDiagram.tsx:45): nondeterminism with no effect on the state.
- DOM plumbing: `innerHTML` is modelled as the `markup` field, and unmounting the container as dropping it. The CSS transform string and `console.error` are left out. The null check on `containerRef` after the `await` (line 47) always passes while the canvas is shown.
- The relative order of asynchronous renders and of overlapping analysis calls: the model runs each effect or call to completion in turn.
- IEEE-754 rounding of the 0.2 zoom steps: the scale is counted in exact tenths.
- Strings are sequences of characters, not UTF-16 code units. The cleaner and `trim` only look at characters of the Basic Multilingual Plane, so this changes nothing.
- The analysis service (services/geminiService.ts): a network call. Its answer is an outcome handed in by the caller.
- The analysis panel (components/AnalysisPanel.tsx) and the rest of App.tsx: layout, tab switching, `alert`, "Load Example". These are presentation with no state rules.
- Types: the record shape of `VisualizationData` is mirrored as a datatype. It has no behaviour.
