/** The drawing surface: a grid of pre-rendered cells whose last column holds
    the row terminator, its allocation, a single-cell write and its flattening
    into the row-major sequence of cells shown on screen. */
module Canvas {

  /** One display unit of the grid. `Text` is a literal string (the blank and
      the row terminator); `Styled` is the brush glyph rendered in a colour by
      the styling library, kept opaque as the pair it was built from. */
  datatype Cell = Text(text: string) | Styled(colour: string, glyph: string)

  const Blank: Cell := Text(" ")
  const Newline: Cell := Text("\n")

  /** `g` is an `h` by `w` grid, blank except for the terminator column `w - 1`. */
  ghost predicate IsBlankGrid(g: seq<seq<Cell>>, w: int, h: int)
  {
    && |g| == h
    && (forall i :: 0 <= i < |g| ==> |g[i]| == w)
    && (forall i, j :: 0 <= i < |g| && 0 <= j < |g[i]| ==> g[i][j] == (if j == w - 1 then Newline else Blank))
  }

  /** Every row as long as the first, and every non-empty row ends in the terminator. */
  ghost predicate WellFormed(g: seq<seq<Cell>>)
  {
    && (forall i :: 0 <= i < |g| ==> |g[i]| == |g[0]|)
    && (forall i :: 0 <= i < |g| && |g[i]| > 0 ==> g[i][|g[i]| - 1] == Newline)
  }

  /** Allocates `h` rows of `w` cells; Go's `make` faults on a negative length,
      which for the rows is only asked for when there is at least one row. */
  method MakeMatrix(w: int, h: int) returns (matrix: seq<seq<Cell>>)
    requires 0 <= h && (0 < h ==> 0 <= w)
    ensures IsBlankGrid(matrix, w, h)
  {
    matrix := seq(h, _ => []);
    var i := 0;
    while i < h
      invariant 0 <= i <= h && |matrix| == h
      invariant forall r :: 0 <= r < i ==> |matrix[r]| == w
      invariant forall r, j :: 0 <= r < i && 0 <= j < |matrix[r]| ==> matrix[r][j] == (if j == w - 1 then Newline else Blank)
    {
      var row := seq(w, _ => Text(""));
      var j := 0;
      while j < w
        invariant 0 <= j <= w && |row| == w
        invariant forall c :: 0 <= c < j ==> row[c] == (if c == w - 1 then Newline else Blank)
      {
        row := row[j := Blank];
        if j == w - 1 {
          row := row[j := Newline];
        }
        j := j + 1;
      }
      matrix := matrix[i := row];
      i := i + 1;
    }
  }

  lemma BlankGridIsWellFormed(g: seq<seq<Cell>>, w: int, h: int)
    requires IsBlankGrid(g, w, h)
    ensures WellFormed(g)
  {
  }

  /** The grid with cell (r, c) replaced by `cell`: exactly that cell differs. */
  function WriteCell(g: seq<seq<Cell>>, r: int, c: int, cell: Cell): (p: seq<seq<Cell>>)
    requires 0 <= r < |g| && 0 <= c < |g[r]|
    ensures |p| == |g| && forall i :: 0 <= i < |p| ==> |p[i]| == |g[i]|
    ensures p[r][c] == cell
    ensures forall i :: 0 <= i < |p| && i != r ==> p[i] == g[i]
    ensures forall i, j :: 0 <= i < |p| && 0 <= j < |p[i]| && (i != r || j != c) ==> p[i][j] == g[i][j]
  {
    g[r := g[r][c := cell]]
  }

  /** A write that stays left of the terminator column keeps the grid well formed. */
  lemma WriteCellKeepsWellFormed(g: seq<seq<Cell>>, r: int, c: int, cell: Cell)
    requires WellFormed(g) && 0 <= r < |g| && 0 <= c && c + 1 < |g[r]|
    ensures WellFormed(WriteCell(g, r, c, cell))
  {
  }

  /** The first `w` cells of every row, row after row. */
  function Flat(g: seq<seq<Cell>>, w: nat): (cells: seq<Cell>)
    requires forall i :: 0 <= i < |g| ==> w <= |g[i]|
    decreases |g|
  {
    if g == [] then [] else Flat(g[..|g| - 1], w) + g[|g| - 1][..w]
  }

  /** The canvas half of the frame: every row is read up to the length of row 0. */
  method Flatten(g: seq<seq<Cell>>) returns (final: seq<Cell>)
    requires forall i :: 0 <= i < |g| ==> |g[0]| <= |g[i]|
    ensures final == Flat(g, if g == [] then 0 else |g[0]|)
  {
    final := [];
    var i := 0;
    while i < |g|
      invariant 0 <= i <= |g|
      invariant final == Flat(g[..i], if g == [] then 0 else |g[0]|)
    {
      var j := 0;
      while j < |g[0]|
        invariant 0 <= j <= |g[0]|
        invariant final == Flat(g[..i], |g[0]|) + g[i][..j]
      {
        final := final + [g[i][j]];
        assert g[i][..j + 1] == g[i][..j] + [g[i][j]];
        j := j + 1;
      }
      assert g[..i + 1][..i] == g[..i];
      i := i + 1;
    }
    assert g[..|g|] == g;
  }

  lemma {:induction false} FlatLength(g: seq<seq<Cell>>, w: nat)
    requires forall i :: 0 <= i < |g| ==> w <= |g[i]|
    ensures |Flat(g, w)| == |g| * w
    decreases |g|
  {
    if g != [] {
      FlatLength(g[..|g| - 1], w);
      assert (|g| - 1) * w + w == |g| * w;
    }
  }

  /** Updating a concatenation at a position of its second part. */
  lemma UpdateRight<T>(a: seq<T>, b: seq<T>, i: int, v: T)
    requires |a| <= i < |a| + |b|
    ensures (a + b)[i := v] == a + b[i - |a| := v]
  {
  }

  /** Updating a concatenation at a position of its first part. */
  lemma UpdateLeft<T>(a: seq<T>, b: seq<T>, i: int, v: T)
    requires 0 <= i < |a|
    ensures (a + b)[i := v] == a[i := v] + b
  {
  }

  /** Flattening after a write differs from flattening before it in exactly the
      position r * w + c. */
  lemma {:induction false} FlatWriteCell(g: seq<seq<Cell>>, w: nat, r: int, c: int, cell: Cell)
    requires forall i :: 0 <= i < |g| ==> w <= |g[i]|
    requires 0 <= r < |g| && 0 <= c < w
    ensures |Flat(g, w)| == |g| * w && r * w + c < |g| * w
    ensures Flat(WriteCell(g, r, c, cell), w) == Flat(g, w)[r * w + c := cell]
    decreases |g|
  {
    var n := |g|;
    var p := WriteCell(g, r, c, cell);
    FlatLength(g, w);
    FlatLength(g[..n - 1], w);
    var front := Flat(g[..n - 1], w);
    assert (n - 1) * w + w == n * w;
    if r == n - 1 {
      assert p[..n - 1] == g[..n - 1];
      assert p[n - 1][..w] == g[n - 1][..w][c := cell];
      UpdateRight(front, g[n - 1][..w], r * w + c, cell);
    } else {
      assert p[..n - 1] == WriteCell(g[..n - 1], r, c, cell);
      FlatWriteCell(g[..n - 1], w, r, c, cell);
      assert p[n - 1] == g[n - 1];
      UpdateLeft(front, g[n - 1][..w], r * w + c, cell);
    }
  }

  /** `n` copies of `s`, one after another. */
  function Repeat<T>(s: seq<T>, n: nat): (r: seq<T>)
    ensures |r| == n * |s|
  {
    if n == 0 then [] else Repeat(s, n - 1) + s
  }

  /** One row of a fresh grid as it reaches the screen. */
  function BlankLine(w: nat): (line: seq<Cell>)
    requires 1 <= w
  {
    seq(w - 1, _ => Blank) + [Newline]
  }

  /** A fresh `h` by `w` grid flattens to `h` copies of (`w - 1` blanks, terminator). */
  lemma {:induction false} FlatBlank(g: seq<seq<Cell>>, w: nat, h: nat)
    requires IsBlankGrid(g, w, h) && 1 <= w
    ensures Flat(g, w) == Repeat(BlankLine(w), h)
    decreases h
  {
    if h > 0 {
      var front := g[..h - 1];
      assert IsBlankGrid(front, w, h - 1) by {
        forall i, j | 0 <= i < |front| && 0 <= j < |front[i]|
          ensures front[i][j] == (if j == w - 1 then Newline else Blank)
        {
          assert front[i] == g[i];
        }
      }
      FlatBlank(front, w, h - 1);
      assert g[h - 1][..w] == BlankLine(w);
    }
  }
}
