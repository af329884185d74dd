# Tiling engine with master-stack layout, in Dafny

This project models the core of a KWin tiling script: the tiling engine and
its master-stack layout (`src/engine.ts`). The engine keeps an ordered list of
tiles, one per managed window, and a list of screens. When windows, screens or
the user's commands change, it re-arranges. For every screen that has a layout,
it asks the host which tiles are visible there. It lays the visible tiles out
as a master column and a stack column and sends the host one geometry write
per visible tile.

The model is functional. Tiles, screens and rectangles are immutable
datatypes. Every engine operation maps a state to a new state plus the list of
geometry writes it sends (`Engine.Step`). The host (KWin driver) is a
`Driver` value holding three oracle functions:

- `workingArea`: the usable area of a screen.
- `isVisible`: whether a window is visible on a screen, or `None` when the query throws.
- `geometryOf`: the geometry the host reports for a window, or `None` when the query throws.

Modules, leaves first:

- `Wrappers`: `Option`.
- `Geometry`: `Rect`, the host's integer rectangle.
- `Tiles`: `Tile`, `Screen`, `LayoutOpts` and the constructors' defaults.
- `Seqs`: order-preserving filtering, shared by tile and screen removal.
- `MasterStack`: `layout_tile`, both as a function (`LayoutTile`) and as the
  source's two in-place loops (`LayoutInPlace`), plus its geometry lemmas.
- `Arrangement`: one arrangement pass per screen, the pass over all screens
  and single-window reconciliation (`arrangeClient`).
- `Commands`: `getCurrentTileIndex`, `moveFocus` and `moveTile`.
- `Engine`: the engine state and its public operations.

The layout ratio is an integer percentage of the area width given to the stack
column, so the master width is `floor(areaWidth * (100 - ratio) / 100)`. An
option value of 0 stands for an option that is absent or falsy. Such options
are replaced by the defaults, 45 and 1.

Behaviours of `src/engine.ts` that the model makes explicit:

- The stack column is areaWidth - masterWidth wide (src/engine.ts:79).
  At 900 x 600 with four tiles and two masters that is 900 - 495 = 405
  (`MasterStack.ExampleTwoMasters`).
- The visibility filter (src/engine.ts:116-123) never reads `isError`. A
  flagged tile is therefore laid out again when a later query answers
  "visible", and only the next unmanage drops it (src/engine.ts:154-157).
- `isNew` is set when a tile is created (src/engine.ts:39-50) and nothing in
  the engine clears it.
- Within a column, tile tops strictly increase only when the area is at least
  one pixel high per tile. Otherwise every cell is 0 pixels high and all of
  them sit at y = 0 (`MasterStack.ColumnStrictlyIncreasing`).

## Model

| member | source | states |
|---|---|---|
| `MasterStack.WithDefaults` | src/engine.ts:56-57 | an absent or falsy ratio becomes 45 and an absent or falsy master count becomes 1; options already set are kept |
| `MasterStack.DefaultsSettle` | src/engine.ts:56-57 | defaulting changes a bag exactly when one of its options is unset, and defaulting twice equals defaulting once |
| `MasterStack.LayoutTile` | src/engine.ts:55-98 | one rectangle per tile; n <= nmaster gives one full-width column at x = 0 with height floor(h/n) and y = height*i; otherwise the first nmaster tiles form a column at x = 0 of width floor(w*(100-ratio)/100) and the rest a column at x = masterWidth+1 of width w - masterWidth, each with floor-divided equal heights |
| `MasterStack.LayoutSettled` | src/engine.ts:56-57 | laying out with already-defaulted options gives the same result |
| `MasterStack.ColumnCoverage` | src/engine.ts:84-97 | in a column all cells have equal height, the first starts at y = 0, each starts where the previous ends, and the column's bottom lies in (areaHeight - count, areaHeight] |
| `MasterStack.ColumnStrictlyIncreasing` | src/engine.ts:84-97 | in a column of two or more cells, tops strictly increase exactly when the area height is at least the cell count |
| `MasterStack.TwoColumnWidths` | src/engine.ts:73-82 | with both columns, master width + stack width = area width, the stack starts one pixel right of the master column, every stack tile's right edge is areaWidth + 1, and a ratio <= 100 keeps the master width in [0, areaWidth] |
| `MasterStack.MasterWidthFits` | src/engine.ts:75 | with a ratio of at most 100 percent the floored master width lies in [0, areaWidth] |
| `MasterStack.ExampleThreeTiles` | src/engine.ts:55-98 | 1000 x 800 with three tiles and default options gives {0,0,550,800}, {551,0,450,400}, {551,400,450,400} |
| `MasterStack.ExampleOneTile` | src/engine.ts:67-72 | 1000 x 800 with one tile gives the whole area |
| `MasterStack.ExampleTwoMasters` | src/engine.ts:73-82 | 900 x 600, four tiles, two masters: masters 495 wide and 300 high, stack at x = 496, 405 wide, 300 high |
| `MasterStack.ExampleNoTiles` | src/engine.ts:84-97 | zero tiles receive no geometry |
| `MasterStack.LayoutInPlace` | src/engine.ts:55-98 | the source's two loops give tile i exactly the i-th rectangle of LayoutTile, change nothing else about any tile, and leave the options defaulted |
| `Tiles.NewTile` | src/engine.ts:39-50 | a new tile belongs to its window, is new, is not flagged, and has the all-zero geometry |
| `Tiles.NewScreen` | src/engine.ts:26-30 | a new screen keeps its id, has the master-stack layout and an empty option bag |
| `Arrangement.Effects` | src/engine.ts:116-126 | the layout's rectangles go to the positions that answered "visible", in order; a position is flagged exactly when its query threw |
| `Arrangement.CommitsPlaced` | src/engine.ts:126-130 | after layout, committing each visible tile's own geometry sends the k-th visible window the k-th rectangle |
| `Arrangement.ScreenPass` | src/engine.ts:112-131 | a screen without layout changes nothing and writes nothing; otherwise exactly one write per visible tile in tile order with its layout rectangle, a tile is flagged iff it was or its query threw, hidden and failed tiles keep their geometry, windows and order are unchanged |
| `Arrangement.ArrangeScreens` | src/engine.ts:111-132 | over all screens windows, order and isNew never change, a tile ends flagged iff it was or some screen's query for it threw, a tile no screen shows keeps its geometry, every laid-out screen has its options defaulted, and the write log is each laid-out screen's writes (the k-th visible window gets the k-th rectangle) concatenated in screen order |
| `Arrangement.ArrangeClosedForm` | src/engine.ts:111-132 | a full pass applies one effect per tile that depends only on the windows and the screens, not on earlier geometry or flags |
| `Arrangement.ArrangeClient` | src/engine.ts:134-147 | writes go only to window c: exactly one per tile of c whose geometry differs from the host-reported one, in tile order, carrying the tile's geometry; a throwing geometry query aborts with no write |
| `Arrangement.ArrangeClientInSync` | src/engine.ts:138-143 | when every tile of the window already has the host-reported geometry, nothing is written |
| `Engine.Arrange` | src/engine.ts:111-132 | arranging keeps windows, order and isNew; a tile ends flagged exactly when it already was or some screen's visibility query for it threw; screen options are defaulted and nothing is activated; the tiles end as one merged effect computed from the windows and screens applied to them, and the writes are every laid-out screen's writes in screen order |
| `Engine.ArrangeIdempotent` | src/engine.ts:111-132 | arranging twice with the same host leaves the same state and sends the same writes as arranging once |
| `Engine.ManageClient` | src/engine.ts:149-152 | the new window is appended after all existing tiles, which keep their order; the new tile is fresh, flagged only if a query for it threw, and keeps zero geometry if no screen shows it; the arrangement that follows flags existing tiles only when already flagged or their query threw, leaves the tiles as the merged effect over the extended window list, sends every laid-out screen's writes for that list in screen order, and activates nothing |
| `Engine.Unmanaged` | src/engine.ts:154-157 | the kept tiles are exactly those of other windows that are not flagged |
| `Engine.UnmanagedOrder` | src/engine.ts:154-157 | the kept tiles keep their relative order (filtering distributes over concatenation) |
| `Engine.ManageThenUnmanage` | src/engine.ts:150-157 | appending a fresh tile for a new window and filtering that window out again restores a list with no flagged tile and no tile of that window (the arrangements in between are not part of this statement) |
| `Engine.UnmanageClient` | src/engine.ts:154-159 | after unmanaging, the windows are those of the kept tiles in order and no tile of the window remains; the arrangement that follows leaves the kept tiles as the merged effect over their windows, sends every laid-out screen's writes for them in screen order, and activates nothing |
| `Engine.FailedTilePurged` | src/engine.ts:116-157 | a tile whose visibility query threw during arrangement is flagged and dropped by the next unmanage of any window |
| `Engine.AddScreen` | src/engine.ts:161-163 | one screen is appended with master-stack layout and empty options; existing screens and tiles are unchanged |
| `Engine.RemoveScreen` | src/engine.ts:165-169 | the remaining screens are exactly those with another id; tiles are unchanged |
| `Engine.RemoveUnknownScreen` | src/engine.ts:165-169 | removing an id no screen has is a no-op |
| `Engine.AddThenRemoveScreen` | src/engine.ts:161-169 | removing a just-added screen equals removing that id from the screens before |
| `Engine.ReconcileClient` | src/engine.ts:134-147 | the operation fails exactly when the window has a tile and its geometry query throws; otherwise the engine is unchanged, each write targets the window, differs from the reported geometry and is some tile's geometry, every drifted tile of the window is restored, and the writes are exactly one per drifted tile in tile order |
| `Engine.HandleUserInput` | src/engine.ts:171-179 | Up/Down keep the tile order and activate the clamped neighbour; ShiftUp/ShiftDown reorder by the clamped move and activate nothing; Up/Down leave the same state and writes as `Arrange` of the engine, ShiftUp/ShiftDown give exactly `Arrange` of the moved tiles, so the flag and idempotence facts of `Arrange` carry over |
| `Commands.CurrentTileIndex` | src/engine.ts:185-193 | the result is the first index whose window is the active one, and None exactly when no tile's window is active |
| `Commands.Clamp` | src/engine.ts:207-211 | the index lands in [lo, hi] and is unchanged when already inside |
| `Commands.MoveFocus` | src/engine.ts:203-215 | step 0 or no current tile activates nothing; otherwise the window at clamp(i+step, 0, len-1) is activated |
| `Commands.Swap` | src/engine.ts:223-225 | exchanging two positions puts each element at the other's place and leaves every other position alone |
| `Commands.RepositionPermutes` | src/engine.ts:217-234 | moving one element to another position is a permutation: no tile is added, lost or duplicated |
| `Commands.RepositionAt` | src/engine.ts:217-234 | only the moved element changes place: it lands at j, the elements between shift by one toward i, all others stay |
| `Commands.RepositionInverse` | src/engine.ts:217-234 | moving an element back to where it came from restores the sequence |
| `Commands.Shift` | src/engine.ts:222-233 | the swap loops keep the length and touch only the positions between i and i+step |
| `Commands.ShiftForward` | src/engine.ts:222-227 | the forward swap loop moves the element to clamp(i+step, 0, len-1) |
| `Commands.ShiftBackward` | src/engine.ts:228-233 | the backward swap loop moves the element to clamp(i+step, 0, len-1) |
| `Commands.ShiftIsReposition` | src/engine.ts:217-234 | the swap loops move only the current element, to clamp(i+step, 0, len-1), shifting those in between by one |
| `Commands.MoveTile` | src/engine.ts:217-234 | step 0 or no current tile leaves the tiles unchanged; otherwise the result is the clamped reposition of the current tile, a permutation |
| `Commands.MoveDownThenUp` | src/engine.ts:217-234 | moving a tile down one place and then back up restores the order when i+1 < len |
| `Commands.MoveThenBack` | src/engine.ts:217-234 | moving by any in-range step and back by its opposite restores the order |

## Left out

- src/driver/kwin/kwindriver.ts is not part of this model. It is KWin host plumbing: signal binding, globals, the mouse poller, timeouts, popups and the re-entrancy guard of event dispatch. It also targets a different engine interface.
- Floating-point ratios: the ratio is an integer percentage and the master width uses integer floor division.
- MasterStack.LayoutTile: a non-numeric or fractional option value cannot be expressed. A negative master count cannot be expressed either, because options are natural numbers.
- Commands.MoveFocus: when no tile is active, the source adds `null` to the step (JavaScript makes that the step itself) and on an empty tile list reads past the array. The model treats no current tile as a no-op. This is an idealisation.
- Commands.MoveTile: with no active tile the source indexes the array with `null` and can corrupt it. The model treats it as a no-op, like MoveFocus.
- Engine.HandleUserInput: the current index is a parameter produced by `Commands.CurrentTileIndex` from the active window, not read from a global.
- Arrangement.ArrangeClient: the host-reported geometry is a snapshot per reconciliation. A second tile of the same window does not see the write sent for the first one.
- Exceptions from `getWorkingArea` and `setClientGeometry` are not modelled; both are total here. Only the visibility and geometry queries can fail. A failing visibility query is caught and flags the tile; a failing geometry query escapes `arrangeClient`, which `Engine.ReconcileClient` reports as `None`.
- Geometry I/O is a returned list of writes, and window activation is a returned optional window. Nothing is sent to a host.
- `buildInputHandlermap` (src/engine.ts:195-201) builds a map that is never returned or used, so it is dead code.
- The untyped layout reference and option bag are a single layout variant and a two-field record.
- The `TilingEngine` constructor (src/engine.ts:105-109) only stores the driver and two empty arrays; the model has no separate member for it, and an empty engine is `Engine([], [])`.
- Startup (reading the stacking order) belongs to the driver and is not modelled.
