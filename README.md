# Particle network of the portfolio page, in Dafny

The portfolio page `script.js` draws an animated "network" background on a
`<canvas>`. `initNetworkCanvas()` does the following:

- It returns early when the canvas is missing, when it is styled `display: none`, or when the user prefers reduced motion.
- It sizes the canvas to its displayed size.
- It registers a resize listener, but only once.
- It creates `min(50, floor(width / 20))` nodes at random points.
- It starts an animation loop. Each frame moves every node one step. A node bounces off the canvas edges and is clamped back onto the canvas. After the moves, every pair of nodes closer than 150 pixels is joined by a line. The line's opacity falls linearly from 0.3 at distance 0 to 0 at distance 150.

Two handlers call init:

- a `DOMContentLoaded` handler;
- a global `resize` handler, but only while `networkInitialized` is false.

A scroll handler in `initActiveNavLink()` picks the current section and highlights its navigation link.

The model has five modules:

- `Particle` (`particle.dfy`): the node.
  - `NodeState` holds every field a node has.
  - The functions from random draws to velocity, radius and colour, and the constructor's resulting state.
  - The specification `Step` of one `update()`, and `Frames` for a run of updates across resizes.
  - `class Node`, whose `Update` method changes `x, y, vx, vy` in place and is proved equal to `Step`.
- `Network` (`network.dfy`):
  - `class Canvas`.
  - The node count, and the setup loop `CreateNodes`.
  - The pair loop `Connections` with its inner loop `ConnectRow`, proved equal to the row-by-row specification `RowLines` / `FrameLines` / `AllLines`.
  - The visiting order `Row` / `PairsBefore` / `AllPairs` and the facts about which pairs the loop visits.
  - `class Network` with the frame method `Animate`.
- `Lifecycle` (`lifecycle.dfy`):
  - A trace model of init and the two handlers that call it: `Lifecycle`, `Event`, `AfterInit`, `Dispatch` and `Run`.
  - `DispatchGuarded` / `RunGuarded`: the same handlers with `DOMContentLoaded` also checking the flag (see "## Findings").
  - `class Page`, holding the module-level flags. Each of its methods is tied to one step of the trace model.
- `ActiveNav` (`nav.dfy`): the section-selection fold and the link-matching rule.
- `Wrappers` (`wrappers.dfy`): `Option`.

Inputs the script takes from its host are parameters of the model:

- `Math.random()` values: a `NodeDraws` per node, in the order the script draws them (x, y, vx, vy, radius, colour).
- `Math.sqrt`: a function `root`. Lemmas that need it to be the square root require `IsSqrt(root)`.
- The computed style, the media query and the element's offset size: a `Host` value.
- The id returned by `requestAnimationFrame`: a `frameId` parameter.

## Model

| member | source | states |
|---|---|---|
| Particle.VelocityFromDraw | script.js:37-38 | `(random - 0.5) * 2` lies in [-1, 1) for every draw in [0, 1) |
| Particle.VelocityCoversRange | script.js:37-38 | every velocity in [-1, 1) comes from exactly one draw |
| Particle.RadiusFromDraw | script.js:39 | `random * 2 + 1` lies in [1, 3) |
| Particle.ColorIndexFromDraw | script.js:40-42 | `floor(random * 4)` is a valid index into the four-colour palette, namely the quarter of [0, 1) that holds the draw |
| Particle.ColorCoversPalette | script.js:40-42 | every palette colour is picked by some draw |
| Particle.StartCoordinate | script.js:80-83 | `random * extent` lies in [0, extent], and strictly below extent when extent > 0 |
| Particle.NewState | script.js:34-43 | the constructed node sits at the given point, with velocity components in [-1, 1), radius in [1, 3) and a colour from the palette |
| Particle.Spawned | script.js:78-85 | a node made during setup starts in [0, width] x [0, height] (on the canvas), strictly below each positive extent, with the constructor's ranges |
| Particle.Clamp | script.js:54-55 | `max(0, min(extent, p))` lies in [0, extent], leaves a point inside unchanged, and maps a point beyond an edge to that edge |
| Particle.ClampIsNearest | script.js:54-55 | the clamped point is the point of [0, extent] nearest to p |
| Particle.Step | script.js:45-56 | after a step the node is on the canvas, even if it started off it; vx is negated exactly when x + vx leaves [0, width], and unchanged otherwise; the same holds for vy; radius and colour are unchanged |
| Particle.StepInsideIsExact | script.js:46-47 | a step that stays on the canvas moves the node by exactly its velocity |
| Particle.BounceTurnsInward | script.js:50-51 | from a position on the canvas, a bounce off the left (top) edge leaves a positive vx (vy), and off the right (bottom) edge a negative one |
| Particle.StepMovesAtMostSpeed | script.js:45-56 | from a position on the canvas, one step moves a node at most its speed along each axis |
| Particle.Frames | script.js:45-56 | a run of updates, each on the canvas size of its frame, keeps radius and colour, and after at least one frame the node lies on the latest canvas, wherever it started |
| Particle.FramesInvariant | script.js:45-56 | over any run of frames, with resizes in between, a node keeps its speed on each axis |
| Particle.Node.constructor | script.js:34-43 | the new node's state is `NewState` of the given position and draws |
| Particle.Node.Update | script.js:45-56 | the node's new state is `Step` of its old state on the current canvas size; only x, y, vx and vy may change |
| Network.Canvas.Resize | script.js:22-25 | the canvas takes the element's displayed width and height |
| Network.NodeCount | script.js:77 | `min(50, floor(width / 20))`: at most 50, at most one node per 20 pixels of width, and 50 unless one more node would not fit |
| Network.NodeCountIsLargest | script.js:77 | no larger count satisfies both bounds |
| Network.NodeCountExamples | script.js:77 | 1000 gives 50, 400 gives 20, 10000 gives 50, 19 gives 0 and 39 gives 1 |
| Network.CreateNodes | script.js:76-85 | the loop creates exactly `NodeCount(width)` distinct fresh nodes; node k is `Spawned` from the k-th draws |
| Network.Distance | script.js:105-107 | with a true square root, the distance is the non-negative number whose square is dx * dx + dy * dy |
| Network.CloseIffSquaredClose | script.js:107-109 | with a true square root, `distance < 150` holds exactly when the squared distance is below 150 * 150 |
| Network.LineAlpha | script.js:110 | `(150 - d) / 150 * 0.3` is positive exactly when d < 150, is at most 0.3 for d >= 0, and is 0.3 at d = 0 |
| Network.LineAlphaDecreasing | script.js:110 | a line's opacity strictly decreases with distance |
| Network.LineAlphaExamples | script.js:110 | the opacity is 0.3 at distance 0, 0.15 at 75 and 0 at 150 |
| Network.RowLength | script.js:104 | the inner loop for outer index i, stopped at j, has made j - i - 1 visits |
| Network.RowElements | script.js:104 | the k-th visit of the inner loop for outer index i is the pair (i, i + 1 + k) |
| Network.PairsBeforeBounds | script.js:103-104 | every pair visited before outer index i has its first index below i, and its second index above the first and below n |
| Network.PairsBeforeCover | script.js:103-104 | every pair a < b < n with a < i has been visited before outer index i |
| Network.PairsBeforeAscending | script.js:103-104 | the pairs are visited in strictly ascending lexicographic order |
| Network.PairsBeforeCount | script.js:103-104 | i * (2n - i - 1) / 2 pairs are visited before outer index i |
| Network.AllPairsExact | script.js:103-104 | the nested loop visits exactly the pairs i < j < n, never a node with itself, each once, n(n-1)/2 visits in all |
| Network.RowLinesSound | script.js:104-116 | every line of row i joins node i to a later node below the bound, closer than 150, with opacity `LineAlpha` of the distance |
| Network.RowLinesAscending | script.js:104 | the lines of row i go to ever later nodes |
| Network.RowLinesComplete | script.js:104-116 | every node m with i < m < j closer than 150 to node i gets a line (i, m) in row i |
| Network.FrameLinesSound | script.js:103-116 | every line stroked before outer index i starts below i and joins two distinct nodes closer than 150, with opacity `LineAlpha` of the distance |
| Network.FrameLinesAscending | script.js:103-116 | the lines stroked before outer index i come in strictly ascending order of their pairs |
| Network.FrameLinesIndex | script.js:103-116 | for a close pair a < b with a below i, returns the position of its line among those stroked before outer index i |
| Network.FrameLinesComplete | script.js:103-116 | every close pair a < b with a below i has a line among those stroked before outer index i |
| Network.ConnectionsSound | script.js:103-116 | with a true square root, every line of a frame joins nodes i < j closer than 150, with opacity `LineAlpha` of the distance, in (0, 0.3] |
| Network.ConnectionsComplete | script.js:103-116 | every pair i < j of a frame closer than 150 gets a line |
| Network.ConnectionsOnce | script.js:103-116 | no pair of nodes gets two lines in a frame |
| Network.ConnectRow | script.js:104-116 | the inner loop appends exactly the lines of row i (`RowLines`) to those already drawn, and visits exactly the pairs of `Row(i, n)`, in order |
| Network.Connections | script.js:103-117 | the nested loop strokes exactly the lines of the whole frame (`AllLines`), row after row, and visits exactly the pairs of `AllPairs(n)`, in that order |
| Network.Network.Animate | script.js:88-121 | every node takes exactly one `Step` on the current canvas size and ends on the canvas; no other node state changes; the frame's lines (`AllLines` of the updated positions) are appended to the strokes; `globalAlpha` ends at 1 |
| Lifecycle.AfterInit | script.js:11-126 | one init call sets the flag exactly when the guards pass, then starts one more loop, and adds a listener only if the flag was unset; a failing guard changes nothing |
| Lifecycle.Dispatch | script.js:396-418 | DOMContentLoaded always runs init; a resize runs it only while the flag is unset, so a resize after init changes nothing; one listener once initialised, none before, is kept |
| Lifecycle.RunKeepsOneListener | script.js:27-30 | however often init runs, there is exactly one network resize listener once initialised and none before |
| Lifecycle.ResizesKeepSingleLoop | script.js:414-418 | resize events never start a second listener or a second animation loop |
| Lifecycle.ResizesAfterInitChangeNothing | script.js:414-418 | after a successful init, the global resize handler never re-enters init |
| Lifecycle.InitializedIffSomeGuardsPass | script.js:12-16 | the network ends up initialised exactly when it already was, or some event found all guards passing |
| Lifecycle.GuardsFailingChangeNothing | script.js:12-16 | while a guard returns early, init changes nothing |
| Lifecycle.PageLifetime | script.js:396-418 | DOMContentLoaded once, followed by any resizes, leaves at most one listener and at most one animation loop |
| Lifecycle.ResizeBeforeLoadStartsSecondLoop | script.js:396-418 | a guard-passing resize before DOMContentLoaded runs init from the global handler, and DOMContentLoaded's unguarded call then starts a second loop |
| Lifecycle.DispatchGuarded | script.js:396-418 | with DOMContentLoaded guarded by the flag as well: the flag is set exactly when it was or the guards pass, one listener and one loop once initialised is kept, and resizes behave as in `Dispatch` |
| Lifecycle.GuardedRunKeepsSingleLoop | script.js:396-418 | with both callers guarded, any order of events leaves at most one listener and at most one loop |
| Lifecycle.GuardedAgreesOnPageOrder | script.js:396-418 | for DOMContentLoaded first and resizes after, the guarded handlers behave exactly as the script's |
| Lifecycle.DirectReinitStartsSecondLoop | script.js:27-30 | a second successful init call adds no listener but starts a second loop, since only the listener is guarded by the flag |
| Lifecycle.Page.constructor | script.js:6-8 | when the script loads, the flag is false, no listener is registered and no loop runs |
| Lifecycle.Page.InitNetworkCanvas | script.js:11-126 | the effect is `AfterInit` of the guard outcome; when a guard fails nothing changes; otherwise the canvas is resized, its resize handler is appended only if the flag was unset, `NodeCount` fresh nodes `Spawned` from the draws form one more running network, the frame id is recorded and the flag is set |
| Lifecycle.Page.OnWindowResize | script.js:414-418 | the effect is `Dispatch` of a resize event and `Valid` is kept; the canvas takes the new size when the network was already initialised or init succeeds now, and is untouched otherwise; when init is not re-entered or fails, the listeners, the running networks and the frame id stay; when it succeeds, one fresh network of `NodeCount` `Spawned` nodes is started, its frame id recorded and its listener added |
| ActiveNav.LastReached | script.js:322-328 | returns the last section whose top minus 200 is at or below the scroll position, or -1 when there is none |
| ActiveNav.Current | script.js:321-328 | `current` is `""` when no section is reached; otherwise it is the id of the last reached section, null when that section has no id |
| ActiveNav.ScrollCurrent | script.js:321-328 | the loop over the sections computes `Current` |
| ActiveNav.DropFirst | script.js:332 | `slice(1)`: the href is its first character followed by the result; an empty href gives the empty string |
| ActiveNav.HighlightLinks | script.js:330-339 | link k is highlighted exactly when its href without the first character equals `current` |
| ActiveNav.LastReachedMonotone | script.js:325-327 | scrolling down never selects an earlier section |
| ActiveNav.SectionInBandIsCurrent | script.js:325-327 | with sections ordered top to bottom, section k is current exactly when the scroll position is at most 200 px above its top and not yet 200 px above the next section's top |
| ActiveNav.NothingReachedHighlightsBareLinks | script.js:321-333 | before any section is reached, exactly the links whose href has at most one character are highlighted |
| ActiveNav.AtMostOneHighlighted | script.js:330-333 | among links of the form `#id` with distinct hrefs, at most one is highlighted |

## Left out

- Drawing is not modelled: `fillRect`, `arc`, `fill`, `stroke`, the styles, line widths and the glow in `draw()`. Within a frame, the glow also sets `globalAlpha` to 0.5 and back to 1. The model records each connecting line together with the opacity it is stroked with, in the order it is stroked.
- Scheduling is not modelled. `requestAnimationFrame` and the per-frame re-scheduling of `animate` are outside the model: `Animate` is one frame, and `Frames` describes a run of frames. `networkAnimationId` is recorded from the first request only, as the script does. The script never reads it again.
- `Math.random` and `Math.sqrt` are parameters. IEEE 754 rounding is not modelled: coordinates, velocities and opacities are exact reals.
- `Particle.Node.color` is the colour string. The script's array literal indexed by the floored draw is the constant `Palette`.
- `Network.Network.nodes` is a `seq<Node>` fixed at construction, not a growable array. Setup only pushes onto the array, and `CreateNodes` builds the list the same way before the network holds it.
- `Network.ConnectRow`: the inner `j` loop of the pair pass is a method of its own, called once per outer iteration by `Connections`.
- `Network.Network.Animate` takes the frame's line pass as the pure positions after all updates (`Positions()`). This is exactly what the nested loop reads, since no node moves during the pair pass.
- The canvas lookup, `getComputedStyle` and `matchMedia` are `Host` fields and the nullable `Page.canvas`. The 2D context is the `Context` object.
- A nav link without an `href` is not modelled: the script would throw on `slice`. Links are strings.
- `ActiveNav.DropFirst` drops one Unicode scalar value, while `slice(1)` drops one UTF-16 code unit. The two differ only for an href whose first character lies outside the Basic Multilingual Plane.
- `Lifecycle.PageLifetime` assumes that `DOMContentLoaded` comes before every resize. Nothing in the script enforces that order: the global resize handler exists from the moment the script runs. The other order is `ResizeBeforeLoadStartsSecondLoop`.
- `Lifecycle.Page` keeps the script's handlers as written. The guarded alternative exists only in the trace model (`DispatchGuarded`).
- The other initialisers are not part of this model:
  - `initSmoothScroll`, `initNavbarAnimation`, `initScrollAnimations`, `initCursorEffects`;
  - `addRippleAnimation`, `initButtonEffects`, `addLetterFadeAnimation`;
  - `initTextAnimation`, `initContactValidation`;
  - the style and class writes in `initActiveNavLink`.

  They are DOM and CSS glue with no state the network depends on.
- The window's resize dispatch order is modelled as event listeners fire: the global handler, registered when the script loads, runs first. A network handler added by init during that same event does not fire for it.

## Findings

| source | as written | input that shows it | evidently intended | confidence | as-written member | corrected member |
|---|---|---|---|---|---|---|
| script.js:396-418 | the `DOMContentLoaded` handler calls `initNetworkCanvas()` without checking `networkInitialized`, while the global resize handler, registered when the script runs, does check it | a resize with the guards passing that fires after the script runs and before `DOMContentLoaded` | a single animation loop, as the flag and the guarded listener suggest | plausible, not executed | Lifecycle.ResizeBeforeLoadStartsSecondLoop | Lifecycle.GuardedRunKeepsSingleLoop |
