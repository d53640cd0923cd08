/** The toolbar: a fixed table of swatch categories, the strip of tokens it is
    rendered from, the offset pass that records where each swatch starts
    (its hitbox), and the hit-test that maps a press back to a swatch. */
module Toolbar {

  const Padding: string := "    "
  const InterPadding: string := "   "
  /** The glyph every colour swatch is drawn with, tinted per swatch. */
  const ColourGlyph: string := "\U{2B24}"

  datatype Entry = Entry(name: string, values: seq<string>)

  /** The three categories, in display order. */
  const Elements: seq<Entry> := [
    Entry("colors", ["#ff0000", "#0000ff", "#00ff00"]),
    Entry("strokes", ["#", ".", "-", "\U{2588}"]),
    Entry("width", ["\U{25FC}", "\U{25FC}\U{25FC}", "\U{25FC}\U{25FC}\U{25FC}"])
  ]

  /** The display width the styling library measures a string with. */
  type Measure = string -> nat

  /** What the layout relies on from the measure: widths add up over
      concatenation, and a space is one column wide. */
  ghost predicate IsDisplayWidth(dw: Measure)
  {
    && (forall a: string, b: string :: dw(a + b) == dw(a) + dw(b))
    && dw(" ") == 1
  }

  /** Counting characters is one such measure (every glyph one column). */
  lemma CharCountIsDisplayWidth()
    ensures IsDisplayWidth(s => |s|)
  {
  }

  lemma PaddingWidths(dw: Measure)
    requires IsDisplayWidth(dw)
    ensures dw(InterPadding) == 3 && dw(Padding) == 4
  {
    assert InterPadding == " " + (" " + " ");
    assert Padding == " " + InterPadding;
  }

  /** Go's `n / 2`, which truncates toward zero. */
  function Half(n: int): (r: int)
    ensures n >= 0 ==> 0 <= r && r + r <= n < r + r + 2
    ensures n < 0 ==> r <= 0 && n <= r + r < n + 2
  {
    if n >= 0 then n / 2 else -((-n) / 2)
  }

  /** Horizontal joining of one-line blocks: plain concatenation. */
  function Join(ss: seq<string>): (line: string)
  {
    if ss == [] then "" else Join(ss[..|ss| - 1]) + ss[|ss| - 1]
  }

  // ---------------------------------------------------------------------------
  // The rendered strip

  /** A tinted glyph followed by the inter-padding, `n` times. */
  function ColourTokens(n: nat): (tokens: seq<string>)
  {
    if n == 0 then [] else ColourTokens(n - 1) + [ColourGlyph, InterPadding]
  }

  /** The inter-padding glued to each value. */
  function ValueTokens(vs: seq<string>): (tokens: seq<string>)
  {
    if vs == [] then [] else ValueTokens(vs[..|vs| - 1]) + [InterPadding + vs[|vs| - 1]]
  }

  /** Each category: a double padding, then its values. */
  function CategoryTokens(es: seq<Entry>): (tokens: seq<string>)
  {
    if es == [] then [] else CategoryTokens(es[..|es| - 1]) + [Padding + Padding] + ValueTokens(es[|es| - 1].values)
  }

  /** The tokens of the toolbar line, left to right. */
  function Strip(): (tokens: seq<string>)
  {
    [Padding] + ColourTokens(|Elements[0].values|) + CategoryTokens(Elements[1..]) + [Padding]
  }

  /** Appends one category's tokens: a double padding, then each value with
      the inter-padding glued in front. */
  method AppendCategory(tokens: seq<string>, e: Entry) returns (finalArr: seq<string>)
    ensures finalArr == tokens + [Padding + Padding] + ValueTokens(e.values)
  {
    finalArr := tokens + [Padding + Padding];
    var j := 0;
    while j < |e.values|
      invariant 0 <= j <= |e.values|
      invariant finalArr == tokens + [Padding + Padding] + ValueTokens(e.values[..j])
    {
      finalArr := finalArr + [InterPadding + e.values[j]];
      assert e.values[..j + 1][..j] == e.values[..j];
      j := j + 1;
    }
    assert e.values[..j] == e.values;
  }

  /** Builds the toolbar line's tokens the way the Go code appends them. */
  method RenderStrip() returns (finalArr: seq<string>)
    ensures finalArr == Strip()
  {
    finalArr := [Padding];
    var colours := Elements[0].values;
    var i := 0;
    while i < |colours|
      invariant 0 <= i <= |colours|
      invariant finalArr == [Padding] + ColourTokens(i)
    {
      finalArr := finalArr + [ColourGlyph, InterPadding];
      i := i + 1;
    }
    var rest := Elements[1..];
    var k := 0;
    while k < |rest|
      invariant 0 <= k <= |rest|
      invariant finalArr == [Padding] + ColourTokens(|colours|) + CategoryTokens(rest[..k])
    {
      finalArr := AppendCategory(finalArr, rest[k]);
      assert rest[..k + 1][..k] == rest[..k];
      k := k + 1;
    }
    assert rest[..k] == rest;
    finalArr := finalArr + [Padding];
  }

  // ---------------------------------------------------------------------------
  // The offset pass

  /** The string whose width separates swatch `i` of category `k` from the next
      one, after the inter-padding: the tinted glyph for colours (its escape
      codes have no width), the value itself otherwise. */
  function Label(k: nat, i: nat): (text: string)
    requires k < |Elements| && i < |Elements[k].values|
  {
    if Elements[k].name == "colors" then ColourGlyph else Elements[k].values[i]
  }

  /** What the pass adds after a category. */
  function Gap(dw: Measure): (gap: int)
  {
    dw(Padding) * 2 + dw(InterPadding)
  }

  /** Where the pass starts on a terminal `width` columns wide. */
  function Start(width: int, dw: Measure): (offset: int)
  {
    Half(width) - Half(dw(Join(Strip()))) + dw(Padding)
  }

  /** How far right of the start the pass is when category `k` begins. */
  function CategoryShift(dw: Measure, k: nat): (shift: int)
    requires k < |Elements|
    decreases k, 0
  {
    if k == 0 then 0
    else SwatchShift(dw, k - 1, |Elements[k - 1].values|) + Gap(dw)
  }

  /** How far right of the start the pass is when it records swatch `i` of
      category `k`; for `i == |values|` the shift reached at the end of the
      category. */
  function SwatchShift(dw: Measure, k: nat, i: nat): (shift: int)
    requires k < |Elements| && i <= |Elements[k].values|
    decreases k, i + 1
  {
    if i == 0 then CategoryShift(dw, k)
    else SwatchShift(dw, k, i - 1) + dw(InterPadding + Label(k, i - 1))
  }

  /** The offset at which category `k` begins. */
  function CategoryStart(width: int, dw: Measure, k: nat): (offset: int)
    requires k < |Elements|
  {
    Start(width, dw) + CategoryShift(dw, k)
  }

  /** The offset recorded for swatch `i` of category `k`; for
      `i == |values|` the offset reached at the end of the category. */
  function SwatchOffset(width: int, dw: Measure, k: nat, i: nat): (offset: int)
    requires k < |Elements| && i <= |Elements[k].values|
  {
    Start(width, dw) + SwatchShift(dw, k, i)
  }

  /** The hitbox table: one offset per swatch, category by category. */
  function Layout(width: int, dw: Measure): (hb: seq<seq<int>>)
    ensures |hb| == |Elements|
    ensures forall k :: 0 <= k < |hb| ==> |hb[k]| == |Elements[k].values|
  {
    seq(|Elements|, k requires 0 <= k < |Elements| =>
      seq(|Elements[k].values|, i requires 0 <= i < |Elements[k].values| => SwatchOffset(width, dw, k, i)))
  }

  /** The inner walk of the offset pass over category `k`, from the offset at
      which the category begins: one recorded offset per swatch, then the
      offset reached at the end of the category. */
  method CategoryOffsets(width: int, dw: Measure, k: nat, start: int) returns (row: seq<int>, offset: int)
    requires k < |Elements| && start == CategoryStart(width, dw, k)
    ensures row == Layout(width, dw)[k]
    ensures offset == SwatchOffset(width, dw, k, |Elements[k].values|)
  {
    var values := Elements[k].values;
    offset := start;
    row := [];
    var i := 0;
    while i < |values|
      invariant 0 <= i <= |values| && |row| == i
      invariant forall i' :: 0 <= i' < i ==> row[i'] == SwatchOffset(width, dw, k, i')
      invariant offset == SwatchOffset(width, dw, k, i)
    {
      var rendered := if Elements[k].name == "colors" then InterPadding + ColourGlyph else InterPadding + values[i];
      row := row + [offset];
      offset := offset + dw(rendered);
      i := i + 1;
    }
  }

  /** The offset pass of the toolbar view: measure the strip, centre it, then
      walk the categories recording each swatch's offset. */
  method HitboxOffsets(width: int, dw: Measure) returns (hitboxes: seq<seq<int>>)
    ensures hitboxes == Layout(width, dw)
  {
    var finalArr := RenderStrip();
    var lenOfStrs := dw(Join(finalArr));
    var offset := Half(width) - Half(lenOfStrs) + dw(Padding);
    hitboxes := [];
    var k := 0;
    while k < |Elements|
      invariant 0 <= k <= |Elements| && |hitboxes| == k
      invariant forall k' :: 0 <= k' < k ==> hitboxes[k'] == Layout(width, dw)[k']
      invariant k < |Elements| ==> offset == CategoryStart(width, dw, k)
    {
      var row;
      row, offset := CategoryOffsets(width, dw, k, offset);
      hitboxes := hitboxes + [row];
      offset := offset + dw(Padding) * 2 + dw(InterPadding);
      k := k + 1;
    }
  }

  // ---------------------------------------------------------------------------
  // Ordering of the offsets

  /** Within a category, `j - i` steps move the offset at least `3 * (j - i)` right. */
  lemma {:induction false} OffsetsSpreadWithin(dw: Measure, k: nat, i: nat, j: nat)
    requires IsDisplayWidth(dw)
    requires k < |Elements| && i <= j <= |Elements[k].values|
    ensures SwatchShift(dw, k, j) >= SwatchShift(dw, k, i) + 3 * (j - i)
    decreases j
  {
    if i < j {
      OffsetsSpreadWithin(dw, k, i, j - 1);
      PaddingWidths(dw);
      assert dw(InterPadding + Label(k, j - 1)) == dw(InterPadding) + dw(Label(k, j - 1));
    }
  }

  /** A later category starts to the right of the end of an earlier one. */
  lemma {:induction false} CategoriesFollow(dw: Measure, k1: nat, k2: nat)
    requires IsDisplayWidth(dw)
    requires k1 < k2 < |Elements|
    ensures CategoryShift(dw, k2) >= SwatchShift(dw, k1, |Elements[k1].values|)
    decreases k2
  {
    PaddingWidths(dw);
    if k1 < k2 - 1 {
      CategoriesFollow(dw, k1, k2 - 1);
      OffsetsSpreadWithin(dw, k2 - 1, 0, |Elements[k2 - 1].values|);
    }
  }

  /** Swatch (k2, i2) lies after swatch (k1, i1) in display order. */
  predicate After(k1: nat, i1: nat, k2: nat, i2: nat)
  {
    k1 < k2 || (k1 == k2 && i1 < i2)
  }

  /** Offsets increase strictly, by at least the inter-padding's three columns,
      in display order across the whole toolbar. */
  lemma {:induction false} OffsetsIncrease(width: int, dw: Measure, k1: nat, i1: nat, k2: nat, i2: nat)
    requires IsDisplayWidth(dw)
    requires k1 < |Elements| && i1 < |Elements[k1].values|
    requires k2 < |Elements| && i2 < |Elements[k2].values|
    requires After(k1, i1, k2, i2)
    ensures SwatchOffset(width, dw, k2, i2) >= SwatchOffset(width, dw, k1, i1) + 3
  {
    if k1 == k2 {
      OffsetsSpreadWithin(dw, k1, i1, i2);
    } else {
      OffsetsSpreadWithin(dw, k1, i1, |Elements[k1].values|);
      CategoriesFollow(dw, k1, k2);
      OffsetsSpreadWithin(dw, k2, 0, i2);
    }
  }

  /** The table as a whole: one offset per swatch, strictly increasing. */
  lemma LayoutIncreases(width: int, dw: Measure)
    requires IsDisplayWidth(dw)
    ensures forall k1, i1, k2, i2 ::
      (&& 0 <= k1 < |Layout(width, dw)| && 0 <= i1 < |Layout(width, dw)[k1]|
       && 0 <= k2 < |Layout(width, dw)| && 0 <= i2 < |Layout(width, dw)[k2]|
       && After(k1, i1, k2, i2))
      ==> Layout(width, dw)[k2][i2] >= Layout(width, dw)[k1][i1] + 3
  {
    var hb := Layout(width, dw);
    forall k1, i1, k2, i2 |
      0 <= k1 < |hb| && 0 <= i1 < |hb[k1]| && 0 <= k2 < |hb| && 0 <= i2 < |hb[k2]| && After(k1, i1, k2, i2)
      ensures hb[k2][i2] >= hb[k1][i1] + 3
    {
      OffsetsIncrease(width, dw, k1, i1, k2, i2);
    }
  }

  // ---------------------------------------------------------------------------
  // Offsets against the rendered strip

  /** The summed display width of a token sequence. */
  function Widths(ss: seq<string>, dw: Measure): (total: int)
  {
    if ss == [] then 0 else Widths(ss[..|ss| - 1], dw) + dw(ss[|ss| - 1])
  }

  lemma {:induction false} WidthsAppend(a: seq<string>, b: seq<string>, dw: Measure)
    ensures Widths(a + b, dw) == Widths(a, dw) + Widths(b, dw)
    decreases |b|
  {
    if b != [] {
      assert (a + b)[..|a + b| - 1] == a + b[..|b| - 1];
      WidthsAppend(a, b[..|b| - 1], dw);
    } else {
      assert a + b == a;
    }
  }

  /** Measuring the joined line is measuring its tokens one by one. */
  lemma {:induction false} JoinWidth(ss: seq<string>, dw: Measure)
    requires IsDisplayWidth(dw)
    ensures dw(Join(ss)) == Widths(ss, dw)
    decreases |ss|
  {
    if ss == [] {
      assert "" + "" == "";
      assert dw("" + "") == dw("") + dw("");
    } else {
      JoinWidth(ss[..|ss| - 1], dw);
      assert dw(Join(ss)) == dw(Join(ss[..|ss| - 1])) + dw(ss[|ss| - 1]);
    }
  }

  /** The tokens of the strip that precede category `k`'s double padding
      (for `k` at least 1). */
  function TokensBefore(k: nat): (tokens: seq<string>)
    requires 1 <= k <= |Elements|
  {
    [Padding] + ColourTokens(|Elements[0].values|) + CategoryTokens(Elements[1..k])
  }

  /** The tokens of the strip that precede the token of swatch `i` of
      category `k`; for `i == |values|`, those that end the category. */
  function TokensBeforeSwatch(k: nat, i: nat): (tokens: seq<string>)
    requires k < |Elements| && i <= |Elements[k].values|
  {
    if k == 0 then [Padding] + ColourTokens(i)
    else TokensBefore(k) + [Padding + Padding] + ValueTokens(Elements[k].values[..i])
  }

  lemma {:induction false} ColourTokensPrefix(i: nat, n: nat)
    requires i <= n
    ensures ColourTokens(i) <= ColourTokens(n)
    decreases n
  {
    if i < n {
      ColourTokensPrefix(i, n - 1);
    }
  }

  lemma {:induction false} ValueTokensPrefix(vs: seq<string>, i: nat)
    requires i <= |vs|
    ensures ValueTokens(vs[..i]) <= ValueTokens(vs)
    decreases |vs|
  {
    if i < |vs| {
      var front := vs[..|vs| - 1];
      assert front[..i] == vs[..i];
      ValueTokensPrefix(front, i);
    } else {
      assert vs[..i] == vs;
    }
  }

  lemma {:induction false} CategoryTokensPrefix(es: seq<Entry>, k: nat)
    requires k <= |es|
    ensures CategoryTokens(es[..k]) <= CategoryTokens(es)
    decreases |es|
  {
    if k < |es| {
      var front := es[..|es| - 1];
      assert front[..k] == es[..k];
      CategoryTokensPrefix(front, k);
    } else {
      assert es[..k] == es;
    }
  }

  /** The tokens of the categories before `es[k]`, its double padding and its
      first `i` values start the tokens of all of `es`. */
  lemma CategoryTokensUpTo(es: seq<Entry>, k: nat, i: nat)
    requires k < |es| && i <= |es[k].values|
    ensures CategoryTokens(es[..k]) + [Padding + Padding] + ValueTokens(es[k].values[..i]) <= CategoryTokens(es)
  {
    assert es[..k + 1][..k] == es[..k];
    ValueTokensPrefix(es[k].values, i);
    CategoryTokensPrefix(es, k + 1);
  }

  /** The tokens before a swatch are the start of the strip itself. */
  lemma TokensBeforeSwatchInStrip(k: nat, i: nat)
    requires k < |Elements| && i <= |Elements[k].values|
    ensures TokensBeforeSwatch(k, i) <= Strip()
  {
    if k == 0 {
      ColourTokensPrefix(i, |Elements[0].values|);
    } else {
      var rest := Elements[1..];
      var head := [Padding] + ColourTokens(|Elements[0].values|);
      var part := CategoryTokens(rest[..k - 1]) + [Padding + Padding] + ValueTokens(rest[k - 1].values[..i]);
      assert rest[..k - 1] == Elements[1..k];
      assert TokensBeforeSwatch(k, i) == head + part;
      CategoryTokensUpTo(rest, k - 1, i);
      PrefixInside(head, part, CategoryTokens(rest), [Padding]);
    }
  }

  /** A prefix stays a prefix inside a common head and after a tail. */
  lemma PrefixInside<T>(head: seq<T>, a: seq<T>, b: seq<T>, tail: seq<T>)
    requires a <= b
    ensures head + a <= head + b + tail
  {
  }

  /** The display column, from the left edge of the strip, at which the glyph
      of swatch `i` of category `k` is drawn: a colour token is the glyph
      itself, a value token starts with the inter-padding. */
  function GlyphColumn(k: nat, i: nat, dw: Measure): (column: int)
    requires k < |Elements| && i <= |Elements[k].values|
  {
    Widths(TokensBeforeSwatch(k, i), dw) + (if k == 0 then 0 else dw(InterPadding))
  }

  /** How far right of its glyph the offset pass puts the hitboxes of
      category `k`: after a category of value tokens the pass adds one
      inter-padding more than the strip holds. */
  function Drift(k: nat, dw: Measure): (shift: int)
  {
    if k <= 1 then 0 else Drift(k - 1, dw) + dw(InterPadding)
  }

  /** One more colour swatch: its glyph and the inter-padding after it. */
  lemma ColourTokensStep(i: nat, dw: Measure)
    requires 1 <= i <= |Elements[0].values|
    ensures Widths(TokensBeforeSwatch(0, i), dw) == Widths(TokensBeforeSwatch(0, i - 1), dw) + dw(ColourGlyph) + dw(InterPadding)
  {
    assert TokensBeforeSwatch(0, i) == ([Padding] + ColourTokens(i - 1)) + [ColourGlyph, InterPadding];
    WidthsAppend([Padding] + ColourTokens(i - 1), [ColourGlyph, InterPadding], dw);
    assert [ColourGlyph, InterPadding][..1] == [ColourGlyph];
    assert [ColourGlyph][..0] == [];
    assert Widths([ColourGlyph], dw) == dw(ColourGlyph);
    assert Widths([ColourGlyph, InterPadding], dw) == Widths([ColourGlyph], dw) + dw(InterPadding);
  }

  /** One more value swatch of category `k`: its inter-padded token. */
  lemma ValueTokensStep(k: nat, i: nat, dw: Measure)
    requires 1 <= k < |Elements| && 1 <= i <= |Elements[k].values|
    ensures Widths(TokensBeforeSwatch(k, i), dw) == Widths(TokensBeforeSwatch(k, i - 1), dw) + dw(InterPadding + Elements[k].values[i - 1])
  {
    var vals := Elements[k].values;
    assert vals[..i][..i - 1] == vals[..i - 1];
    var front := TokensBefore(k) + [Padding + Padding];
    assert ValueTokens(vals[..i]) == ValueTokens(vals[..i - 1]) + [InterPadding + vals[i - 1]];
    WidthsAppend(front, ValueTokens(vals[..i]), dw);
    WidthsAppend(front, ValueTokens(vals[..i - 1]), dw);
    WidthsAppend(ValueTokens(vals[..i - 1]), [InterPadding + vals[i - 1]], dw);
  }

  /** The tokens ending category `k - 1` are those before category `k`. */
  lemma CategoryBoundary(k: nat)
    requires 1 <= k < |Elements|
    ensures TokensBeforeSwatch(k - 1, |Elements[k - 1].values|) == TokensBefore(k)
  {
    var n := |Elements[k - 1].values|;
    if k == 1 {
      assert Elements[1..1] == [];
    } else {
      var vals := Elements[k - 1].values;
      assert vals[..n] == vals;
      assert Elements[1..k][..k - 2] == Elements[1..k - 1];
    }
  }

  /** The first swatch of category `k` follows the double padding. */
  lemma CategoryOpening(k: nat, dw: Measure)
    requires 1 <= k < |Elements|
    ensures Widths(TokensBeforeSwatch(k, 0), dw) == Widths(TokensBefore(k), dw) + dw(Padding + Padding)
  {
    assert Elements[k].values[..0] == [];
    assert TokensBeforeSwatch(k, 0) == TokensBefore(k) + [Padding + Padding];
    WidthsAppend(TokensBefore(k), [Padding + Padding], dw);
    assert [Padding + Padding][..0] == [];
    assert Widths([Padding + Padding], dw) == dw(Padding + Padding);
  }

  /** The two sums of widths by which the offset pass and the strip are
      compared: a tinted glyph after the inter-padding, and the double
      padding that opens a category. */
  ghost predicate SplitsGlyphWidths(dw: Measure)
  {
    && dw(InterPadding + ColourGlyph) == dw(InterPadding) + dw(ColourGlyph)
    && dw(Padding + Padding) == dw(Padding) + dw(Padding)
  }

  /** The first colour swatch sits on its glyph. */
  lemma FirstSwatchOnGlyph(dw: Measure)
    requires SplitsGlyphWidths(dw)
    ensures SwatchShift(dw, 0, 0) + dw(Padding) == GlyphColumn(0, 0, dw) + Drift(0, dw)
  {
    assert TokensBeforeSwatch(0, 0) == [Padding];
    assert [Padding][..0] == [];
  }

  /** Colour swatch `i` sits on its glyph, as swatch `i - 1` does. */
  lemma {:induction false} NextColourOnGlyph(dw: Measure, i: nat)
    requires SplitsGlyphWidths(dw)
    requires 1 <= i <= |Elements[0].values|
    ensures SwatchShift(dw, 0, i) + dw(Padding) == GlyphColumn(0, i, dw) + Drift(0, dw)
    decreases 0, i, 0
  {
    ShiftIsGlyphColumn(dw, 0, i - 1);
    assert Label(0, i - 1) == ColourGlyph;
    ColourTokensStep(i, dw);
  }

  /** Value swatch `i` of category `k` sits on its glyph shifted by the
      drift, as swatch `i - 1` does. */
  lemma {:induction false} NextValueOnGlyph(dw: Measure, k: nat, i: nat)
    requires SplitsGlyphWidths(dw)
    requires 1 <= k < |Elements| && 1 <= i <= |Elements[k].values|
    ensures SwatchShift(dw, k, i) + dw(Padding) == GlyphColumn(k, i, dw) + Drift(k, dw)
    decreases k, i, 0
  {
    ShiftIsGlyphColumn(dw, k, i - 1);
    ValueSwatchStep(dw, k, i);
  }

  /** One value swatch further, the pass and the strip both advance by the
      width of the inter-padded value. */
  lemma ValueSwatchStep(dw: Measure, k: nat, i: nat)
    requires 1 <= k < |Elements| && 1 <= i <= |Elements[k].values|
    ensures SwatchShift(dw, k, i) == SwatchShift(dw, k, i - 1) + dw(InterPadding + Elements[k].values[i - 1])
    ensures GlyphColumn(k, i, dw) == GlyphColumn(k, i - 1, dw) + dw(InterPadding + Elements[k].values[i - 1])
  {
    ValueTokensStep(k, i, dw);
    assert Label(k, i - 1) == Elements[k].values[i - 1];
  }

  /** Category `k` opens on its first glyph shifted by one inter-padding
      more than category `k - 1` ends, except after the colours, whose
      tokens already end in one. */
  lemma {:induction false} CategoryOpensOnGlyph(dw: Measure, k: nat)
    requires SplitsGlyphWidths(dw)
    requires 1 <= k < |Elements|
    ensures SwatchShift(dw, k, 0) + dw(Padding) == GlyphColumn(k, 0, dw) + Drift(k, dw)
    decreases k, 0, 0
  {
    ShiftIsGlyphColumn(dw, k - 1, |Elements[k - 1].values|);
    CategoryBoundary(k);
    CategoryOpening(k, dw);
  }

  /** The shifts of the offset pass measured against the strip: each is its
      glyph's column less the leading padding, plus the drift. */
  lemma {:induction false} ShiftIsGlyphColumn(dw: Measure, k: nat, i: nat)
    requires SplitsGlyphWidths(dw)
    requires k < |Elements| && i <= |Elements[k].values|
    ensures SwatchShift(dw, k, i) + dw(Padding) == GlyphColumn(k, i, dw) + Drift(k, dw)
    decreases k, i, 1
  {
    if i > 0 && k == 0 {
      NextColourOnGlyph(dw, i);
    } else if i > 0 {
      NextValueOnGlyph(dw, k, i);
    } else if k == 0 {
      FirstSwatchOnGlyph(dw);
    } else {
      CategoryOpensOnGlyph(dw, k);
    }
  }

  /** The offset pass measured against the strip: with the strip's left edge
      at `width / 2 - total / 2`, each hitbox sits on its glyph's column,
      shifted by the drift, which is zero for colours and strokes and one
      inter-padding for widths. */
  lemma OffsetIsGlyphColumn(width: int, dw: Measure, k: nat, i: nat)
    requires IsDisplayWidth(dw)
    requires k < |Elements| && i <= |Elements[k].values|
    ensures SwatchOffset(width, dw, k, i) == Half(width) - Half(dw(Join(Strip()))) + GlyphColumn(k, i, dw) + Drift(k, dw)
  {
    assert dw(InterPadding + ColourGlyph) == dw(InterPadding) + dw(ColourGlyph);
    assert dw(Padding + Padding) == dw(Padding) + dw(Padding);
    ShiftIsGlyphColumn(dw, k, i);
  }

  // ---------------------------------------------------------------------------
  // Hit-testing a press

  /** A press at (x, y) selects swatch (k, i): x within one column of its
      offset, on the toolbar's selectable row. */
  predicate Hit(hb: seq<seq<int>>, x: int, y: int, th: int, k: nat, i: nat)
    requires k < |hb| && i < |hb[k]|
  {
    (x == hb[k][i] || x + 1 == hb[k][i] || x - 1 == hb[k][i]) && y == Half(th) - 1
  }

  /** With the offsets of a layout at most one swatch matches a press. */
  lemma HitIsUnique(width: int, dw: Measure, x: int, y: int, th: int, k1: nat, i1: nat, k2: nat, i2: nat)
    requires IsDisplayWidth(dw)
    requires k1 < |Elements| && i1 < |Elements[k1].values|
    requires k2 < |Elements| && i2 < |Elements[k2].values|
    requires Hit(Layout(width, dw), x, y, th, k1, i1) && Hit(Layout(width, dw), x, y, th, k2, i2)
    ensures k1 == k2 && i1 == i2
  {
    if After(k1, i1, k2, i2) {
      OffsetsIncrease(width, dw, k1, i1, k2, i2);
    } else if After(k2, i2, k1, i1) {
      OffsetsIncrease(width, dw, k2, i2, k1, i1);
    }
  }

  /** The brush as the toolbar can change it: the colour of the global style
      and the glyph painted into cells. */
  datatype Brush = Brush(colour: string, glyph: string)

  /** The effect of selecting swatch `i` of the category called `name`. */
  function ReadHitbox(b: Brush, name: string, i: nat): (r: Brush)
    requires name == "colors" ==> i < |Elements[0].values|
    requires name == "strokes" ==> i < |Elements[1].values|
  {
    if name == "colors" then b.(colour := Elements[0].values[i])
    else if name == "strokes" then b.(glyph := Elements[1].values[i])
    else b
  }

  /** A hitbox table the effects can index: no more categories than the
      table, no more offsets than a category has values. */
  ghost predicate Fits(hb: seq<seq<int>>)
  {
    && |hb| <= |Elements|
    && forall k :: 0 <= k < |hb| ==> |hb[k]| <= |Elements[k].values|
  }

  /** The brush after the hit-test has visited the first `i` swatches of
      category `k`, in the order of its values. */
  function CategoryPress(b: Brush, hb: seq<seq<int>>, x: int, y: int, th: int, k: nat, i: nat): (pen: Brush)
    requires Fits(hb) && k < |hb| && i <= |hb[k]|
    decreases i
  {
    if i == 0 then b
    else
      var prev := CategoryPress(b, hb, x, y, th, k, i - 1);
      if Hit(hb, x, y, th, k, i - 1) then ReadHitbox(prev, Elements[k].name, i - 1) else prev
  }

  /** The brush after the hit-test has visited whole categories in the order
      `ord`: the Go code ranges over a map, whose order is unspecified. An
      index with no hitboxes is a category without any. */
  function PressInOrder(b: Brush, hb: seq<seq<int>>, x: int, y: int, th: int, ord: seq<nat>): (pen: Brush)
    requires Fits(hb)
    decreases |ord|
  {
    if ord == [] then b
    else
      var k, prev := ord[|ord| - 1], PressInOrder(b, hb, x, y, th, ord[..|ord| - 1]);
      if k < |hb| then CategoryPress(prev, hb, x, y, th, k, |hb[k]|) else prev
  }

  /** The categories in table order. */
  function TableOrder(n: nat): (ord: seq<nat>)
    ensures |ord| == n && forall j :: 0 <= j < n ==> ord[j] == j
  {
    if n == 0 then [] else TableOrder(n - 1) + [n - 1]
  }

  /** The brush after a press has been hit-tested against the whole table,
      category by category in table order. */
  function PressEffect(b: Brush, hb: seq<seq<int>>, x: int, y: int, th: int): (pen: Brush)
    requires Fits(hb)
  {
    PressInOrder(b, hb, x, y, th, TableOrder(|hb|))
  }

  /** Visiting one more category of the table order is applying its
      category fold to the brush reached so far. */
  lemma PressInOrderStep(b: Brush, hb: seq<seq<int>>, x: int, y: int, th: int, k: nat)
    requires Fits(hb) && k < |hb|
    ensures PressInOrder(b, hb, x, y, th, TableOrder(|hb|)[..k + 1])
         == CategoryPress(PressInOrder(b, hb, x, y, th, TableOrder(|hb|)[..k]), hb, x, y, th, k, |hb[k]|)
  {
    assert TableOrder(|hb|)[..k + 1][..k] == TableOrder(|hb|)[..k];
  }

  /** Selecting the same swatch twice is selecting it once. */
  lemma ReadHitboxIdempotent(b: Brush, name: string, i: nat)
    requires name == "colors" ==> i < |Elements[0].values|
    requires name == "strokes" ==> i < |Elements[1].values|
    ensures ReadHitbox(ReadHitbox(b, name, i), name, i) == ReadHitbox(b, name, i)
  {
  }

  lemma {:induction false} CategoryPressNoHit(b: Brush, hb: seq<seq<int>>, x: int, y: int, th: int, k: nat, i: nat)
    requires Fits(hb) && k < |hb| && i <= |hb[k]|
    requires forall i' :: 0 <= i' < |hb[k]| ==> !Hit(hb, x, y, th, k, i')
    ensures CategoryPress(b, hb, x, y, th, k, i) == b
    decreases i
  {
    if i > 0 {
      CategoryPressNoHit(b, hb, x, y, th, k, i - 1);
    }
  }

  lemma {:induction false} CategoryPressOneHit(b: Brush, hb: seq<seq<int>>, x: int, y: int, th: int, k: nat, i: nat, hi: nat)
    requires Fits(hb) && k < |hb| && i <= |hb[k]|
    requires hi < |hb[k]| && Hit(hb, x, y, th, k, hi)
    requires forall i' :: 0 <= i' < |hb[k]| && Hit(hb, x, y, th, k, i') ==> i' == hi
    ensures CategoryPress(b, hb, x, y, th, k, i) == if hi < i then ReadHitbox(b, Elements[k].name, hi) else b
    decreases i
  {
    if i > 0 {
      CategoryPressOneHit(b, hb, x, y, th, k, i - 1, hi);
    }
  }

  /** Whatever the order, a press that matches no swatch of the categories
      visited leaves the brush as it was. */
  lemma {:induction false} PressInOrderNoHit(b: Brush, hb: seq<seq<int>>, x: int, y: int, th: int, ord: seq<nat>)
    requires Fits(hb)
    requires forall k, i :: 0 <= k < |hb| && 0 <= i < |hb[k]| ==> !Hit(hb, x, y, th, k, i)
    ensures PressInOrder(b, hb, x, y, th, ord) == b
    decreases |ord|
  {
    if ord != [] {
      PressInOrderNoHit(b, hb, x, y, th, ord[..|ord| - 1]);
      if ord[|ord| - 1] < |hb| {
        CategoryPressNoHit(b, hb, x, y, th, ord[|ord| - 1], |hb[ord[|ord| - 1]]|);
      }
    }
  }

  /** Whatever the order, a press that matches exactly one swatch (hk, hi)
      selects it if category `hk` is visited at all, and changes nothing
      otherwise; visiting `hk` more than once selects it again, to the same
      effect. */
  lemma {:induction false} PressInOrderOneHit(b: Brush, hb: seq<seq<int>>, x: int, y: int, th: int, ord: seq<nat>, hk: nat, hi: nat)
    requires Fits(hb)
    requires hk < |hb| && hi < |hb[hk]| && Hit(hb, x, y, th, hk, hi)
    requires forall k, i :: 0 <= k < |hb| && 0 <= i < |hb[k]| && Hit(hb, x, y, th, k, i) ==> k == hk && i == hi
    ensures PressInOrder(b, hb, x, y, th, ord) == if hk in ord then ReadHitbox(b, Elements[hk].name, hi) else b
    decreases |ord|
  {
    if ord != [] {
      var front, k := ord[..|ord| - 1], ord[|ord| - 1];
      assert ord == front + [k];
      PressInOrderOneHit(b, hb, x, y, th, front, hk, hi);
      var prev := PressInOrder(b, hb, x, y, th, front);
      if k == hk {
        CategoryPressOneHit(prev, hb, x, y, th, k, |hb[k]|, hi);
        ReadHitboxIdempotent(b, Elements[hk].name, hi);
      } else if k < |hb| {
        CategoryPressNoHit(prev, hb, x, y, th, k, |hb[k]|);
      }
    }
  }

  /** A press that matches no swatch, for instance one off the selectable row,
      leaves the brush as it was. */
  lemma PressMissesAll(b: Brush, hb: seq<seq<int>>, x: int, y: int, th: int)
    requires Fits(hb)
    requires forall k, i :: 0 <= k < |hb| && 0 <= i < |hb[k]| ==> !Hit(hb, x, y, th, k, i)
    ensures PressEffect(b, hb, x, y, th) == b
  {
    PressInOrderNoHit(b, hb, x, y, th, TableOrder(|hb|));
  }

  /** A press on a swatch of the layout selects exactly that swatch, in
      whatever order the categories are visited, as long as its own is. */
  lemma PressSelectsSwatch(width: int, dw: Measure, b: Brush, x: int, y: int, th: int, ord: seq<nat>, k: nat, i: nat)
    requires IsDisplayWidth(dw)
    requires k < |Elements| && i < |Elements[k].values| && k in ord
    requires Hit(Layout(width, dw), x, y, th, k, i)
    ensures PressInOrder(b, Layout(width, dw), x, y, th, ord) == ReadHitbox(b, Elements[k].name, i)
  {
    var hb := Layout(width, dw);
    forall k', i' | 0 <= k' < |hb| && 0 <= i' < |hb[k']| && Hit(hb, x, y, th, k', i')
      ensures k' == k && i' == i
    {
      HitIsUnique(width, dw, x, y, th, k, i, k', i');
    }
    PressInOrderOneHit(b, hb, x, y, th, ord, k, i);
  }

  /** On a layout the order of the categories does not matter: any order
      that visits every category has the effect of the table order. */
  lemma PressOrderIrrelevant(width: int, dw: Measure, b: Brush, x: int, y: int, th: int, ord: seq<nat>)
    requires IsDisplayWidth(dw)
    requires forall k :: 0 <= k < |Elements| ==> k in ord
    ensures PressInOrder(b, Layout(width, dw), x, y, th, ord) == PressEffect(b, Layout(width, dw), x, y, th)
  {
    var hb := Layout(width, dw);
    var table := TableOrder(|hb|);
    if k, i :| 0 <= k < |hb| && 0 <= i < |hb[k]| && Hit(hb, x, y, th, k, i) {
      assert table[k] == k;
      PressSelectsSwatch(width, dw, b, x, y, th, ord, k, i);
      PressSelectsSwatch(width, dw, b, x, y, th, table, k, i);
    } else {
      PressInOrderNoHit(b, hb, x, y, th, ord);
      PressInOrderNoHit(b, hb, x, y, th, table);
    }
  }

  /** What selecting a swatch does, category by category: a colour sets the
      brush colour, a stroke sets the glyph, a width changes nothing. */
  lemma SelectionEffects(width: int, dw: Measure, b: Brush, x: int, y: int, th: int, k: nat, i: nat)
    requires IsDisplayWidth(dw)
    requires k < |Elements| && i < |Elements[k].values|
    requires Hit(Layout(width, dw), x, y, th, k, i)
    ensures k == 0 ==> PressEffect(b, Layout(width, dw), x, y, th) == Brush(Elements[0].values[i], b.glyph)
    ensures k == 1 ==> PressEffect(b, Layout(width, dw), x, y, th) == Brush(b.colour, Elements[1].values[i])
    ensures k == 2 ==> PressEffect(b, Layout(width, dw), x, y, th) == b
  {
    assert TableOrder(|Elements|)[k] == k;
    PressSelectsSwatch(width, dw, b, x, y, th, TableOrder(|Elements|), k, i);
  }
}
