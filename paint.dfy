/** The application state and its event handler: the pointer, the press/drag
    flag, the brush and the colour of the global cursor style, the canvas grid
    and the toolbar's hitbox table, updated one event at a time. */
module Paint {
  import opened Canvas
  import opened Toolbar

  /** The toolbar band's height, fixed when the terminal size arrives. */
  const ToolbarRows: int := 5

  const Red: string := "#ff0000"
  const White: string := "#ffffffff"
  const Eraser: string := " "
  const Block: string := "\U{2588}"
  const DefaultBrush: string := "#"
  /** The start-up colour: converting the integer 0 to the string-based colour
      type gives the one-character string U+0000. */
  const DefaultColour: string := "\0"
  /** The string form of the interrupt key, which asks the program to quit. */
  const CtrlC: string := "ctrl+c"

  datatype MouseAction = MousePress | MouseRelease | MouseMotion

  /** The events the terminal layer delivers: the terminal size once known,
      a mouse event in terminal cells, a key by its string form. */
  datatype Msg =
    | InitMsg(cols: int, rows: int)
    | MouseMsg(x: int, y: int, action: MouseAction)
    | KeyMsg(key: string)

  /** What a motion event of a drag does to the grid, with the guards as the
      handler writes them: the pointer left of the terminator column, and the
      terminal row `y` at or below the band and less than the number of grid
      rows. The cell goes into grid row `y - th`, one column left of the
      pointer. */
  function Drag(g: seq<seq<Cell>>, th: int, x: int, y: int, cell: Cell): (p: seq<seq<Cell>>)
    requires WellFormed(g) && |g| > 0 && 0 <= th
    requires x < |g[0]| && th <= y < |g| ==> 1 <= x
    ensures WellFormed(p) && |p| == |g|
  {
    if x < |g[0]| && th <= y < |g| then
      WriteCellKeepsWellFormed(g, y - th, x - 1, cell);
      WriteCell(g, y - th, x - 1, cell)
    else g
  }

  /** The same step with the row guard on the grid row `y - th`, as the
      handler evidently means it. */
  function DragIntended(g: seq<seq<Cell>>, th: int, x: int, y: int, cell: Cell): (p: seq<seq<Cell>>)
    requires WellFormed(g) && |g| > 0 && 0 <= th
    requires x < |g[0]| && th <= y && y - th < |g| ==> 1 <= x
    ensures WellFormed(p) && |p| == |g|
  {
    if x < |g[0]| && th <= y && y - th < |g| then
      WriteCellKeepsWellFormed(g, y - th, x - 1, cell);
      WriteCell(g, y - th, x - 1, cell)
    else g
  }

  /** As written, the guard keeps every drag out of the last `th` grid rows:
      a motion over the pointer position of such a cell, (c + 1, r + th),
      leaves the grid as it was, while the intended step paints the cell. */
  lemma DragSkipsBottomRows(g: seq<seq<Cell>>, th: int, r: int, c: int, cell: Cell)
    requires WellFormed(g) && 0 <= th
    requires 0 <= r < |g| && |g| - th <= r && 0 <= c && c + 1 < |g[r]|
    ensures Drag(g, th, c + 1, r + th, cell) == g
    ensures DragIntended(g, th, c + 1, r + th, cell)[r][c] == cell
  {
  }

  /** As written, no drag ever changes the last `th` grid rows. */
  lemma BottomRowsNeverPainted(g: seq<seq<Cell>>, th: int, x: int, y: int, cell: Cell)
    requires WellFormed(g) && |g| > 0 && 0 <= th
    requires x < |g[0]| && th <= y < |g| ==> 1 <= x
    ensures forall r :: 0 <= r < |g| && |g| - th <= r ==> Drag(g, th, x, y, cell)[r] == g[r]
  {
  }

  /** With the intended guard every cell left of the terminator column is
      painted by a drag over its pointer position (c + 1, r + th). */
  lemma DragReachesEveryCell(g: seq<seq<Cell>>, th: int, r: int, c: int, cell: Cell)
    requires WellFormed(g) && 0 <= th
    requires 0 <= r < |g| && 0 <= c && c + 1 < |g[r]|
    ensures DragIntended(g, th, c + 1, r + th, cell) == WriteCell(g, r, c, cell)
  {
  }

  class Model {
    var mouseX: int
    var mouseY: int
    var width: int
    var height: int
    var matrix: seq<seq<Cell>>
    var clicking: bool
    var brush: string
    /** The foreground of the global cursor style. */
    var colour: string
    var toolbarHeight: int
    /** Hitbox offsets per category, in the order of `Elements`; empty until
        the toolbar has first been laid out. */
    var hitboxes: seq<seq<int>>
    /** The display-width measure of the styling library. */
    const dispWidth: Measure

    ghost predicate Valid()
      reads this`toolbarHeight, this`matrix, this`hitboxes
    {
      && IsDisplayWidth(dispWidth)
      && 0 <= toolbarHeight
      && WellFormed(matrix)
      && Fits(hitboxes)
    }

    function Pen(): (pen: Brush)
      reads this
    {
      Brush(colour, brush)
    }

    /** The state the program starts from, before the terminal size is known. */
    constructor (dw: Measure)
      requires IsDisplayWidth(dw)
      ensures Valid() && dispWidth == dw
      ensures mouseX == 0 && mouseY == 0 && width == 0 && height == 0 && toolbarHeight == 0
      ensures matrix == [] && !clicking && hitboxes == []
      ensures brush == DefaultBrush && colour == DefaultColour
    {
      dispWidth := dw;
      mouseX, mouseY, width, height := 0, 0, 0, 0;
      matrix := [];
      clicking := false;
      brush := DefaultBrush;
      colour := DefaultColour;
      toolbarHeight := 0;
      hitboxes := [];
    }

    /** The terminal size has arrived: record it, fix the toolbar height and,
        for a positive size, allocate a fresh grid below the toolbar band.
        A terminal shorter than the band would ask for a negative row count,
        on which allocation faults. */
    method HandleInit(w: int, h: int)
      requires Valid()
      requires 0 < w && 0 < h ==> ToolbarRows <= h
      modifies this`width, this`height, this`toolbarHeight, this`matrix
      ensures Valid()
      ensures width == w && height == h && toolbarHeight == ToolbarRows
      ensures 0 < w && 0 < h ==> IsBlankGrid(matrix, w, h - ToolbarRows)
      ensures !(0 < w && 0 < h) ==> matrix == old(matrix)
    {
      width := w;
      height := h;
      toolbarHeight := ToolbarRows;
      if w > 0 && h > 0 {
        matrix := MakeMatrix(width, height - toolbarHeight);
        BlankGridIsWellFormed(matrix, w, h - ToolbarRows);
      }
    }

    /** Applies the selection of swatch `i` of the category called `name`. */
    method ReadHitboxes(name: string, i: nat)
      requires name == "colors" ==> i < |Elements[0].values|
      requires name == "strokes" ==> i < |Elements[1].values|
      modifies this`colour, this`brush
      ensures Pen() == ReadHitbox(old(Pen()), name, i)
    {
      if name == "colors" {
        colour := Elements[0].values[i];
      } else if name == "strokes" {
        brush := Elements[1].values[i];
      }
    }

    /** Hit-tests a press against every recorded hitbox, category by category;
        any other action is ignored. */
    method ToolbarUpdate(x: int, y: int, action: MouseAction)
      requires Fits(hitboxes)
      modifies this`colour, this`brush
      ensures Pen() == if action == MousePress then PressEffect(old(Pen()), hitboxes, x, y, toolbarHeight) else old(Pen())
    {
      if action == MousePress {
        var k := 0;
        while k < |hitboxes|
          invariant 0 <= k <= |hitboxes|
          invariant Pen() == PressInOrder(old(Pen()), hitboxes, x, y, toolbarHeight, TableOrder(|hitboxes|)[..k])
        {
          PressInOrderStep(old(Pen()), hitboxes, x, y, toolbarHeight, k);
          CategoryUpdate(x, y, k);
          k := k + 1;
        }
        assert TableOrder(|hitboxes|)[..k] == TableOrder(|hitboxes|);
      }
    }

    /** The hit-test of a press against the hitboxes of category `k`, in the
        order of its values. */
    method CategoryUpdate(x: int, y: int, k: nat)
      requires Fits(hitboxes) && k < |hitboxes|
      modifies this`colour, this`brush
      ensures Pen() == CategoryPress(old(Pen()), hitboxes, x, y, toolbarHeight, k, |hitboxes[k]|)
    {
      var hitbox := hitboxes[k];
      var i := 0;
      while i < |hitbox|
        invariant 0 <= i <= |hitbox|
        invariant Pen() == CategoryPress(old(Pen()), hitboxes, x, y, toolbarHeight, k, i)
      {
        var xCoord := hitbox[i];
        if (x == xCoord || x + 1 == xCoord || x - 1 == xCoord) && y == Half(toolbarHeight) - 1 {
          ReadHitboxes(Elements[k].name, i);
        }
        i := i + 1;
      }
    }

    /** A mouse event: the pointer is recorded; a press is hit-tested against
        the toolbar and starts a drag, a release ends it; motion during a
        drag, below the band and left of the terminator column, paints the
        styled brush into cell (y - toolbarHeight, x - 1). Motion reads row 0
        of the grid, and painting at column 0 would index column -1: both
        fault in the Go code, so callers must rule them out. */
    method HandleMouse(x: int, y: int, action: MouseAction)
      requires Valid()
      requires action == MouseMotion ==> |matrix| > 0
      requires action == MouseMotion && clicking && x < |matrix[0]| && toolbarHeight <= y < |matrix| ==> 1 <= x
      modifies this`mouseX, this`mouseY, this`clicking, this`colour, this`brush, this`matrix
      ensures Valid()
      ensures mouseX == x && mouseY == y
      ensures clicking == (action == MousePress || (action == MouseMotion && old(clicking)))
      ensures action == MousePress ==> Pen() == PressEffect(old(Pen()), hitboxes, x, y, toolbarHeight)
      ensures action != MousePress ==> Pen() == old(Pen())
      ensures matrix ==
        if action == MouseMotion && old(clicking)
        then Drag(old(matrix), toolbarHeight, x, y, Styled(old(colour), old(brush)))
        else old(matrix)
    {
      mouseX := x;
      mouseY := y;
      match action {
        case MousePress =>
          Press(x, y);
        case MouseRelease =>
          clicking := false;
        case MouseMotion =>
          Motion(x, y);
      }
    }

    /** A press at (x, y): hit-tested against the toolbar, then a drag starts,
        wherever the press was. */
    method Press(x: int, y: int)
      requires Valid()
      modifies this`clicking, this`colour, this`brush
      ensures Valid() && clicking
      ensures Pen() == PressEffect(old(Pen()), hitboxes, x, y, toolbarHeight)
    {
      ToolbarUpdate(x, y, MousePress);
      clicking := true;
    }

    /** Motion at (x, y), the pointer already recorded: inside the band it goes
        to the toolbar, which ignores it; during a drag below the band it
        paints the styled brush one column left of the pointer. */
    method Motion(x: int, y: int)
      requires Valid() && |matrix| > 0
      requires clicking && x < |matrix[0]| && toolbarHeight <= y < |matrix| ==> 1 <= x
      modifies this`colour, this`brush, this`matrix
      ensures Valid() && Pen() == old(Pen())
      ensures matrix == if clicking then Drag(old(matrix), toolbarHeight, x, y, Styled(old(colour), old(brush))) else old(matrix)
    {
      ghost var g, cell := matrix, Styled(colour, brush);
      if x < |matrix[0]| {
        if y < toolbarHeight {
          ToolbarUpdate(x, y, MouseMotion);
          assert Drag(g, toolbarHeight, x, y, cell) == g;
        } else if clicking && y < |matrix| {
          Stroke(y - toolbarHeight, x - 1);
          assert matrix == Drag(g, toolbarHeight, x, y, cell);
        } else {
          assert !clicking || Drag(g, toolbarHeight, x, y, cell) == g;
        }
      } else {
        assert Drag(g, toolbarHeight, x, y, cell) == g;
      }
    }

    /** Motion with the row guard on the grid row, as the handler evidently
        means it: a drag reaches the last `toolbarHeight` grid rows too. */
    method MotionIntended(x: int, y: int)
      requires Valid() && |matrix| > 0
      requires clicking && x < |matrix[0]| && toolbarHeight <= y && y - toolbarHeight < |matrix| ==> 1 <= x
      modifies this`colour, this`brush, this`matrix
      ensures Valid() && Pen() == old(Pen())
      ensures matrix == if clicking then DragIntended(old(matrix), toolbarHeight, x, y, Styled(old(colour), old(brush))) else old(matrix)
    {
      ghost var g, cell := matrix, Styled(colour, brush);
      if x < |matrix[0]| {
        if y < toolbarHeight {
          ToolbarUpdate(x, y, MouseMotion);
          assert DragIntended(g, toolbarHeight, x, y, cell) == g;
        } else if clicking && y - toolbarHeight < |matrix| {
          Stroke(y - toolbarHeight, x - 1);
          assert matrix == DragIntended(g, toolbarHeight, x, y, cell);
        } else {
          assert !clicking || DragIntended(g, toolbarHeight, x, y, cell) == g;
        }
      } else {
        assert DragIntended(g, toolbarHeight, x, y, cell) == g;
      }
    }

    /** Writes the styled brush into grid cell (r, c), left of the terminator column. */
    method Stroke(r: int, c: int)
      requires Valid() && 0 <= r < |matrix| && 0 <= c && c + 1 < |matrix[r]|
      modifies this`matrix
      ensures Valid()
      ensures matrix == WriteCell(old(matrix), r, c, Styled(colour, brush))
    {
      WriteCellKeepsWellFormed(matrix, r, c, Styled(colour, brush));
      matrix := WriteCell(matrix, r, c, Styled(colour, brush));
    }

    /** A key: `r` and `w` set the colour, `e` and `b` the brush glyph, `c`
        replaces the grid by a fresh one of the current size (allocation
        faults on a negative size); the interrupt key asks to quit. */
    method HandleKey(key: string) returns (quit: bool)
      requires Valid()
      requires key == "c" ==> toolbarHeight <= height && (toolbarHeight < height ==> 0 <= width)
      modifies this`colour, this`brush, this`matrix
      ensures Valid()
      ensures quit == (key == CtrlC)
      ensures colour == if key == "r" then Red else if key == "w" then White else old(colour)
      ensures brush == if key == "e" then Eraser else if key == "b" then Block else old(brush)
      ensures key == "c" ==> IsBlankGrid(matrix, width, height - toolbarHeight)
      ensures key != "c" ==> matrix == old(matrix)
    {
      if key == CtrlC {
        return true;
      }
      quit := false;
      if key == "r" {
        colour := Red;
      } else if key == "w" {
        colour := White;
      } else if key == "e" {
        brush := Eraser;
      } else if key == "b" {
        brush := Block;
      } else if key == "c" {
        matrix := MakeMatrix(width, height - toolbarHeight);
        BlankGridIsWellFormed(matrix, width, height - toolbarHeight);
      }
    }

    /** One event, dispatched to its handler. */
    method Update(msg: Msg) returns (quit: bool)
      requires Valid()
      requires msg.InitMsg? && 0 < msg.cols && 0 < msg.rows ==> ToolbarRows <= msg.rows
      requires msg.MouseMsg? && msg.action == MouseMotion ==> |matrix| > 0
      requires msg.MouseMsg? && msg.action == MouseMotion && clicking && msg.x < |matrix[0]| && toolbarHeight <= msg.y < |matrix| ==> 1 <= msg.x
      requires msg.KeyMsg? && msg.key == "c" ==> toolbarHeight <= height && (toolbarHeight < height ==> 0 <= width)
      modifies this
      ensures Valid()
      ensures quit == (msg.KeyMsg? && msg.key == CtrlC)
      ensures hitboxes == old(hitboxes)
      ensures !msg.InitMsg? ==> width == old(width) && height == old(height) && toolbarHeight == old(toolbarHeight)
      ensures !msg.MouseMsg? ==> mouseX == old(mouseX) && mouseY == old(mouseY) && clicking == old(clicking)
      ensures msg.InitMsg? ==> width == msg.cols && height == msg.rows && toolbarHeight == ToolbarRows
      ensures msg.InitMsg? && 0 < msg.cols && 0 < msg.rows ==> IsBlankGrid(matrix, msg.cols, msg.rows - ToolbarRows)
      ensures msg.InitMsg? && !(0 < msg.cols && 0 < msg.rows) ==> matrix == old(matrix)
      ensures msg.InitMsg? ==> Pen() == old(Pen())
      ensures msg.MouseMsg? ==> mouseX == msg.x && mouseY == msg.y
      ensures msg.MouseMsg? ==> clicking == (msg.action == MousePress || (msg.action == MouseMotion && old(clicking)))
      ensures msg.MouseMsg? && msg.action == MousePress ==> Pen() == PressEffect(old(Pen()), hitboxes, msg.x, msg.y, toolbarHeight)
      ensures msg.MouseMsg? && msg.action != MousePress ==> Pen() == old(Pen())
      ensures msg.MouseMsg? ==>
        matrix == if msg.action == MouseMotion && old(clicking) then Drag(old(matrix), toolbarHeight, msg.x, msg.y, Styled(old(colour), old(brush))) else old(matrix)
      ensures msg.KeyMsg? ==> colour == if msg.key == "r" then Red else if msg.key == "w" then White else old(colour)
      ensures msg.KeyMsg? ==> brush == if msg.key == "e" then Eraser else if msg.key == "b" then Block else old(brush)
      ensures msg.KeyMsg? && msg.key == "c" ==> IsBlankGrid(matrix, width, height - toolbarHeight)
      ensures msg.KeyMsg? && msg.key != "c" ==> matrix == old(matrix)
    {
      match msg {
        case InitMsg(w, h) =>
          HandleInit(w, h);
          quit := false;
        case MouseMsg(x, y, action) =>
          HandleMouse(x, y, action);
          quit := false;
        case KeyMsg(key) =>
          quit := HandleKey(key);
      }
    }

    /** The offset pass of the toolbar view, stored as the new hitbox table. */
    method ToolbarView()
      requires Valid()
      modifies this`hitboxes
      ensures Valid()
      ensures hitboxes == Layout(width, dispWidth)
    {
      hitboxes := HitboxOffsets(width, dispWidth);
    }

    /** A frame: the canvas flattened row by row, after which the toolbar is
        laid out again for the current width. */
    method View() returns (final: seq<Cell>)
      requires Valid()
      modifies this`hitboxes
      ensures Valid()
      ensures final == Flat(matrix, if matrix == [] then 0 else |matrix[0]|)
      ensures hitboxes == Layout(width, dispWidth)
    {
      final := Flatten(matrix);
      ToolbarView();
    }
  }

  /** A session up to its first frame: the size event allocates a blank grid
      below the band, and the frame lays out the hitboxes for the width. */
  method FirstFrame(dw: Measure, cols: int, rows: int) returns (m: Model)
    requires IsDisplayWidth(dw)
    requires 0 < cols && ToolbarRows <= rows
    ensures fresh(m) && m.Valid() && !m.clicking && m.dispWidth == dw
    ensures m.toolbarHeight == ToolbarRows && IsBlankGrid(m.matrix, cols, rows - ToolbarRows)
    ensures m.hitboxes == Layout(cols, dw)
    ensures m.Pen() == Brush(DefaultColour, DefaultBrush)
  {
    m := new Model(dw);
    m.HandleInit(cols, rows);
    var frame := m.View();
  }

  /** A session's start: once the terminal size is known and a frame has
      been drawn, a press on swatch `i` of category `k`, on the toolbar's
      selectable row, selects that swatch and starts a drag. */
  method PickSwatch(dw: Measure, cols: int, rows: int, k: nat, i: nat) returns (m: Model)
    requires IsDisplayWidth(dw)
    requires 0 < cols && ToolbarRows <= rows
    requires k < |Elements| && i < |Elements[k].values|
    ensures fresh(m) && m.Valid() && m.clicking
    ensures m.toolbarHeight == ToolbarRows && IsBlankGrid(m.matrix, cols, rows - ToolbarRows)
    ensures m.Pen() == ReadHitbox(Brush(DefaultColour, DefaultBrush), Elements[k].name, i)
  {
    m := FirstFrame(dw, cols, rows);
    var x := m.hitboxes[k][i];
    var y := Half(ToolbarRows) - 1;
    assert TableOrder(|Elements|)[k] == k;
    PressSelectsSwatch(cols, dw, m.Pen(), x, y, ToolbarRows, TableOrder(|Elements|), k, i);
    m.HandleMouse(x, y, MousePress);
  }

  /** During a drag, a motion to column 2 of the first row below the band
      paints grid cell (0, 1) with the current colour and glyph: the frame
      after it differs from the frame before it in that one position. */
  method DragOnce(m: Model) returns (before: seq<Cell>, after: seq<Cell>)
    requires m.Valid() && m.clicking && m.toolbarHeight == ToolbarRows
    requires ToolbarRows < |m.matrix| && 3 <= |m.matrix[0]|
    modifies m
    ensures |before| == |old(m.matrix)| * |old(m.matrix)[0]|
    ensures after == before[1 := Styled(old(m.colour), old(m.brush))]
  {
    before := m.View();
    ghost var grid := m.matrix;
    DragStep(m);
    after := m.View();
    FlatWriteCell(grid, |grid[0]|, 0, 1, Styled(old(m.colour), old(m.brush)));
  }

  /** The motion event of `DragOnce`. */
  method DragStep(m: Model)
    requires m.Valid() && m.clicking && m.toolbarHeight == ToolbarRows
    requires ToolbarRows < |m.matrix| && 3 <= |m.matrix[0]|
    modifies m
    ensures m.Valid() && m.colour == old(m.colour) && m.brush == old(m.brush)
    ensures m.matrix == WriteCell(old(m.matrix), 0, 1, Styled(old(m.colour), old(m.brush)))
  {
    m.HandleMouse(2, ToolbarRows, MouseMotion);
  }

  /** The whole session: pick a swatch, then drag across the canvas. */
  method PickThenDrag(dw: Measure, cols: int, rows: int, k: nat, i: nat) returns (before: seq<Cell>, after: seq<Cell>)
    requires IsDisplayWidth(dw)
    requires 3 <= cols && 2 * ToolbarRows < rows
    requires k < |Elements| && i < |Elements[k].values|
    ensures |before| == (rows - ToolbarRows) * cols
    ensures after == before[1 := Styled(ReadHitbox(Brush(DefaultColour, DefaultBrush), Elements[k].name, i).colour,
                                        ReadHitbox(Brush(DefaultColour, DefaultBrush), Elements[k].name, i).glyph)]
  {
    var m := PickSwatch(dw, cols, rows, k, i);
    before, after := DragOnce(m);
  }
}
