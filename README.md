# terminal-draw: the canvas and the toolbar, modelled in Dafny

terminal-draw is a paint program for the terminal. The screen holds a toolbar band above a
character grid (the canvas). Pressing the mouse starts a drag, and every motion event of the
drag paints the current brush glyph, in the current colour, into the grid cell one column left
of the pointer (grid row `y - toolbarHeight`, column `x - 1`).
The toolbar shows three categories of swatches: colours, strokes (brush glyphs) and widths.
A press on a swatch selects it. Keys change the colour (`r`, `w`) and the brush (`e`, `b`),
`c` clears the canvas, and the interrupt key quits.

The model has three modules:

- `Canvas` (canvas.dfy) holds the grid of cells and its allocation (`MakeMatrix`). A cell
  is either a literal string or an opaque styled glyph, the pair of colour and glyph the styling
  library renders. The module also has the single-cell write (`WriteCell`) and the frame's
  row-by-row flattening (`Flatten`, specified by `Flat`).
- `Toolbar` (toolbar.dfy) holds the static swatch table and the token strip the toolbar line
  is built from (`RenderStrip`). It has the offset pass that records one hitbox offset per
  swatch (`HitboxOffsets`, specified by `Layout` and `SwatchOffset`, each offset being the
  pass's start plus a shift, `SwatchShift`). It also has the hit-test of a press, a fold over the
  categories in a given order (`PressInOrder`) of a fold over one category's swatches
  (`CategoryPress`); `PressEffect` is the fold in table order. The styling library's
  display width is a parameter `dw` of type `Measure`. `IsDisplayWidth` says what the layout
  relies on: widths add up over concatenation, and a space is one column wide.
- `Paint` (paint.dfy) holds the program state as a class `Model` with the event handlers
  `HandleInit`, `HandleMouse`, `HandleKey` and `Update`, and the frame `View`. The colour of
  the global cursor style is a field `colour` of the state. The hitbox table is a field
  `hitboxes` with one offset sequence per category; it is empty until the first frame is drawn.
  `Valid` is the invariant every handler keeps: the grid is rectangular with every row ending
  in the terminator, and the hitbox table fits the swatch table. Drawing a frame makes the
  hitbox table the layout for the current width. The event handlers never change the table.
  `PickSwatch`, `DragOnce` and `PickThenDrag` follow a short session through the handlers:
  a size event, a frame, a press on a swatch, a drag and a second frame.

The main results:

- A fresh grid is blank with a terminator column, and it flattens to `h` copies of
  (`w - 1` blanks, terminator).
- A paint stroke changes exactly one cell and never the terminator column. In the flattened
  frame it changes exactly position `r * w + c`.
- The hitbox offsets increase by at least three columns across the whole toolbar. So at most
  one swatch matches any press (`HitIsUnique`). The outcome of a press on a layout is the same
  for every order that visits all categories (`PressOrderIrrelevant`), which matters because
  Go's map iteration order is unspecified.
- A press on a colour swatch sets the colour, a press on a stroke swatch sets the glyph, and
  a press on a width swatch, or one that matches nothing, changes neither.

One behaviour of the code as written is proved but not corrected, since a user cannot see it:
offset drift (`Toolbar.OffsetIsGlyphColumn`). Measured against the token strip, the offsets of
colours and strokes land on their glyph's column. Those of the width category land one
inter-padding (3 columns) to the right. The pass adds one inter-padding after each category,
which the strip does not contain. Selecting a width has no effect anyway.

A second one is visible, and is listed under "Findings": the row guard of a drag compares the
terminal row `y`, not the grid row `y - toolbarHeight`, with the number of grid rows. So a drag
over the last `toolbarHeight` rows of the grid paints nothing there.

Where the program's evident intent and its code differ, the model follows the code:

- A press inside the toolbar also starts a drag.
- A motion event on a grid that has not been allocated yet faults, because row 0 of the grid
  is read. This is a precondition here.
- The offset pass starts at `width / 2 - total / 2 + dw(padding)`, with both halves truncated
  separately (Go's integer division, `Toolbar.Half`).
- The colour before any selection is the one-character string U+0000, which is what converting
  the integer 0 to the library's string-based colour type gives.

## Model

| member | source | states |
|---|---|---|
| Canvas.MakeMatrix | main.go:55-67 | `h` rows of `w` cells, every cell blank except column `w - 1`, which is the terminator; a negative row count, or a negative width with rows to fill, is excluded because allocation faults on it |
| Canvas.BlankGridIsWellFormed | main.go:55-67 | a fresh grid is rectangular and every row ends in the terminator |
| Canvas.WriteCell | main.go:114 | the written cell holds the new value, the grid keeps its shape, and every other cell is unchanged |
| Canvas.WriteCellKeepsWellFormed | main.go:106-118 | a write strictly left of the terminator column keeps the grid rectangular and terminated |
| Canvas.Flatten | main.go:146-151 | the frame's canvas part is the first `len(row 0)` cells of every row, row after row (`Flat`) |
| Canvas.FlatLength | main.go:146-151 | a flattened `h`-row grid read `w` cells per row has `h * w` cells |
| Canvas.FlatWriteCell | main.go:146-151 | flattening after a write to (r, c) equals flattening before it with exactly position `r * w + c` replaced |
| Canvas.FlatBlank | main.go:146-151 | a fresh `h` by `w` grid flattens to `h` repetitions of `w - 1` blanks followed by the terminator |
| Toolbar.CharCountIsDisplayWidth | main.go:210 | counting characters satisfies the assumptions made of the display width, so they are consistent |
| Toolbar.PaddingWidths | main.go:170-171 | under any such measure the inter-padding is 3 columns wide and the padding 4 |
| Toolbar.Half | main.go:212 | Go's division by 2, truncating toward zero, for both signs |
| Toolbar.RenderStrip | main.go:192-205 | the toolbar line is the padding, a glyph and inter-padding per colour, then per further category a double padding and the inter-padded values, then the padding |
| Toolbar.AppendCategory | main.go:199-204 | one category adds a double padding, then each of its values with the inter-padding in front |
| Toolbar.JoinWidth | main.go:208-210 | the width of the joined line is the sum of its tokens' widths |
| Toolbar.Layout | main.go:214-229 | the hitbox table has one row per category and one offset per swatch of that category |
| Toolbar.HitboxOffsets | main.go:207-231 | the offset pass computes the table `Layout`: it starts at `width / 2 - total / 2 + dw(padding)`, steps by `dw(interPadding + value)` and adds `2 * dw(padding) + dw(interPadding)` after each category |
| Toolbar.CategoryOffsets | main.go:215-229 | starting where category `k` begins, the inner walk records exactly the layout's offsets of that category and ends at the offset after its last swatch |
| Toolbar.OffsetsSpreadWithin | main.go:216-229 | within a category, each step moves the pass at least 3 columns right |
| Toolbar.CategoriesFollow | main.go:230 | a later category starts to the right of where an earlier one ended |
| Toolbar.OffsetsIncrease | main.go:212-231 | in display order, each hitbox offset is at least 3 columns right of every earlier one |
| Toolbar.LayoutIncreases | main.go:212-231 | the same ordering for the whole table returned by the pass |
| Toolbar.TokensBeforeSwatchInStrip | main.go:192-205 | the tokens preceding a swatch's token are a prefix of the rendered strip |
| Toolbar.ShiftIsGlyphColumn | main.go:192-231 | the pass's shift from its start at each swatch, plus the leading padding, is that swatch's glyph column in the strip plus the drift |
| Toolbar.OffsetIsGlyphColumn | main.go:192-231 | each offset equals the strip's left edge plus its glyph's column in the strip, plus a drift of one inter-padding per category after the first value category (zero for colours and strokes, 3 for widths) |
| Toolbar.HitIsUnique | main.go:249-253 | with the offsets of a layout, at most one swatch is within one column of a press on the selectable row |
| Toolbar.TableOrder | main.go:249 | the categories in table order: the `n` indices `0 .. n - 1`, in that order |
| Toolbar.PressInOrderStep | main.go:249-253 | visiting one more category of the table order applies that category's fold to the brush reached so far |
| Toolbar.ReadHitboxIdempotent | main.go:262-270 | selecting the same swatch twice has the effect of selecting it once |
| Toolbar.PressInOrderNoHit | main.go:249-253 | in any category order, a press that matches no swatch leaves the brush unchanged |
| Toolbar.PressInOrderOneHit | main.go:249-253 | in any category order, a press that matches exactly one swatch selects it if its category is visited, and otherwise changes nothing |
| Toolbar.PressMissesAll | main.go:249-253 | a press that matches no swatch, such as one off row `toolbarHeight / 2 - 1`, leaves colour and brush unchanged |
| Toolbar.PressSelectsSwatch | main.go:249-253 | a press matching swatch (k, i) of a layout has exactly the effect of selecting that swatch, in every category order that visits category `k` |
| Toolbar.PressOrderIrrelevant | main.go:249-253 | on a layout, every category order that visits all categories has the effect of the table order |
| Toolbar.SelectionEffects | main.go:262-270 | selecting colour `i` sets the colour to `colors[i]` and keeps the glyph; stroke `i` sets the glyph to `strokes[i]` and keeps the colour; a width changes nothing |
| Paint.Model.constructor | main.go:25-34 | start state: pointer at the origin, sizes 0, no grid, not dragging, brush `#`, colour U+0000, no hitboxes |
| Paint.Model.HandleInit | main.go:73-92 | records width and height and sets the toolbar height to 5; with a positive size the grid becomes a fresh `(h - 5)` by `w` grid, otherwise it is kept; a terminal shorter than the band is excluded because allocation faults |
| Paint.Model.ReadHitboxes | main.go:262-270 | the new colour and brush are those `ReadHitbox` gives: `colors` sets the colour, `strokes` the brush, anything else nothing |
| Paint.Model.ToolbarUpdate | main.go:244-260 | a press leaves colour and brush as the hit-test fold over the whole hitbox table, in table order, gives; any other action changes neither |
| Paint.Model.CategoryUpdate | main.go:250-254 | the inner loop over one category's hitboxes applies that category's fold to colour and brush |
| Paint.Drag | main.go:108-116 | the grid after a drag's motion, with the guards as written: `x < len(row 0)` and `toolbarHeight <= y < len(grid)` write the cell into `[y - toolbarHeight][x - 1]`, and the grid stays well formed |
| Paint.DragIntended | main.go:108-116 | the same step with the row guard `y - toolbarHeight < len(grid)` on the grid row; the grid stays well formed |
| Paint.DragSkipsBottomRows | main.go:113 | as written, a motion over the pointer position of a cell in the last `toolbarHeight` grid rows leaves the grid as it was, while the intended step paints that cell |
| Paint.BottomRowsNeverPainted | main.go:113 | as written, no motion changes any of the last `toolbarHeight` grid rows |
| Paint.DragReachesEveryCell | main.go:113-114 | with the intended guard, a motion to (c + 1, r + toolbarHeight) writes the cell into grid cell (r, c), for every cell left of the terminator column |
| Paint.Model.HandleMouse | main.go:94-120 | records the pointer; a press sets dragging and applies the hit-test, a release clears dragging, a motion keeps it; a motion during a drag changes the grid as `Drag` says, with the colour and brush before the event; any other event leaves the grid unchanged |
| Paint.Model.Press | main.go:98-103 | a press applies the hit-test to colour and brush and starts a drag wherever it lands, inside the toolbar too |
| Paint.Model.Stroke | main.go:114 | the styled (colour, brush) is written into one cell left of the terminator column, and the grid stays well formed |
| Paint.Model.Motion | main.go:106-118 | during a drag, motion changes the grid as `Drag` says, otherwise not at all; inside the band it goes to the toolbar, which ignores it; colour and brush never change |
| Paint.Model.MotionIntended | main.go:106-118 | the same handler with the row guard on the grid row: during a drag it changes the grid as `DragIntended` says |
| Paint.Model.HandleKey | main.go:122-140 | the interrupt key asks to quit; `r`/`w` set the colour to `#ff0000`/`#ffffffff`, `e`/`b` set the brush to a space/a full block, `c` replaces the grid by a fresh `(height - toolbarHeight)` by `width` grid; all else is kept |
| Paint.Model.Update | main.go:69-143 | each event has its handler's effect: the size event sets the sizes, the band height and a fresh grid; a mouse event records the pointer, updates dragging, applies the hit-test on a press and `Drag` on a motion during a drag; a key sets colour, brush or grid as `HandleKey` does; only the interrupt key quits; no event changes the hitbox table, and each leaves the state the other kinds of event own unchanged |
| Paint.Model.ToolbarView | main.go:189-231 | the hitbox table becomes the layout for the current width |
| Paint.Model.View | main.go:145-153 | the frame's canvas part is the grid flattened row by row, and the hitbox table is laid out again for the current width |
| Paint.FirstFrame | main.go:73-92 | after the size event and the first frame, the grid is blank below the band, nothing is dragged, the pen is the default, and the hitbox table is the layout for the width |
| Paint.PickSwatch | main.go:94-103 | after the size event and a frame, a press on the selectable row at the offset of swatch (k, i) selects exactly that swatch and starts a drag, on a blank grid |
| Paint.DragStep | main.go:106-118 | during a drag, motion to column 2 of the first row below the band writes the styled pen into grid cell (0, 1) only |
| Paint.DragOnce | main.go:106-151 | the frame after that motion differs from the frame before it only at position 1, which holds the styled pen |
| Paint.PickThenDrag | main.go:94-151 | the whole session: the second frame is the first with position 1 replaced by the glyph and colour that the chosen swatch selects |

## Findings

| source | as written | input that shows it | evidently intended | confidence | as-written member | corrected member |
|---|---|---|---|---|---|---|
| main.go:113 | `msg.Y < len(m.matrix)` compares the terminal row with the number of grid rows | toolbar height 5, a 19-row grid, dragging, motion to (2, 20): grid row 15 exists, but `20 < 19` fails and cell (15, 1) is not painted; no drag reaches grid rows 14 to 18 | `msg.Y - toolbarHeight < len(m.matrix)`, so that every grid row can be painted | high (not executed) | Paint.DragSkipsBottomRows | Paint.DragReachesEveryCell |

The rest of the model (`HandleMouse`, `Update`, the session methods) follows the code as
written. `Paint.DragIntended` and `Paint.Model.MotionIntended` give the corrected step.

## Left out

- Process and terminal plumbing (`main`, `Init`, `toolbarInit`, the debug log file, program start-up and exit): the interrupt key only returns a quit flag.
- The terminal size query and its fatal error path: the size arrives as the arguments of `HandleInit`.
- The styling library's rendering, borders, centring and joining of the toolbar with the canvas, whose output cannot be seen. The toolbar line is modelled as its token sequence joined by concatenation, a styled cell as the opaque pair it is built from, and the display width as the parameter `dw`.
- Toolbar.ColourTokens: a tinted colour swatch is measured as its bare glyph, since the colour escape codes the library adds have no display width.
- Canvas.Flatten: the frame concatenates the cells' strings; the model keeps the sequence of cells, because a styled cell's string comes from the styling library.
- The debug loop that marks every hitbox offset with `*` in grid row 0 on each frame: it is test scaffolding, and it can index outside the grid.
- Go map iteration order and the sharing of slices and maps between value-receiver copies of the state: the hitbox table is one sequence per category, stored in the state, and `ToolbarUpdate` visits the categories in table order. `PressOrderIrrelevant` shows that on a layout every order visiting all categories gives the same result.
- The faults of the Go code become preconditions rather than modelled failures: reading row 0 of an empty grid on motion, writing column `-1` when a drag reaches `x == 0`, and allocating a grid of negative size (a size event with `0 < h < 5`, or `c` on such a terminal).
