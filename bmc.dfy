/** The Business Model Canvas renderer (bmcRenderer.js): the tag dispatch of
    `drawIcon`, `drawBlock` with its item prefixing and its inline wrap loop,
    and the nine-block grid of `drawBmcImage`. */
module Bmc {
  import opened Strings
  import opened Canvas
  import opened Wrap
  import opened Bullets

  // ---------------------------------------------------------------------------
  // drawIcon
  // ---------------------------------------------------------------------------

  /** The `case` label of `drawIcon`'s `switch` that draws icon `k`. */
  function IconTag(k: IconKind): string {
    match k
    case Partners => "partners"
    case Activities => "activities"
    case Resources => "resources"
    case Value => "value"
    case Relations => "relations"
    case Channels => "channels"
    case Segments => "segments"
    case Costs => "costs"
    case Revenues => "revenues"
  }

  /** `drawIcon`'s `switch (type)`: the icon a tag selects, or none when no
      `case` matches and nothing is drawn. */
  function IconFor(tag: string): (k: Option<IconKind>)
    ensures k.Some? ==> IconTag(k.value) == tag
  {
    if tag == "partners" then Some(Partners)
    else if tag == "activities" then Some(Activities)
    else if tag == "resources" then Some(Resources)
    else if tag == "value" then Some(Value)
    else if tag == "relations" then Some(Relations)
    else if tag == "channels" then Some(Channels)
    else if tag == "segments" then Some(Segments)
    else if tag == "costs" then Some(Costs)
    else if tag == "revenues" then Some(Revenues)
    else None
  }

  /** Every icon has its tag: together with the contract of `IconFor`, exactly
      nine tags draw something, one icon each. */
  lemma IconTagRoundTrip(k: IconKind)
    ensures IconFor(IconTag(k)) == Some(k)
  {
  }

  /** What `drawIcon(ctx, tag, cx, cy)` leaves on the canvas. */
  function IconMarks(tag: string, cx: real, cy: real): (ms: seq<Mark>)
    ensures |ms| <= 1
    ensures ms == [] <==> IconFor(tag).None?
  {
    match IconFor(tag)
    case Some(k) => [Icon(k, cx, cy)]
    case None => []
  }

  // ---------------------------------------------------------------------------
  // drawBlock
  // ---------------------------------------------------------------------------

  /** A field of the input object: an array of items, or anything else
      (including a missing field, `undefined`). */
  datatype FieldValue = Items(items: seq<string>) | NotAList

  /** `if (!Array.isArray(values)) values = []`. */
  function ItemsOf(values: FieldValue): seq<string> {
    if values.Items? then values.items else []
  }

  /** Each item as the loop draws it: `"• " + item`. */
  function Prefixed(items: seq<string>): (lines: seq<string>)
    ensures |lines| == |items|
    ensures forall i :: 0 <= i < |items| ==> lines[i] == "\U{2022} " + items[i]
  {
    seq(|items|, i requires 0 <= i < |items| => "\U{2022} " + items[i])
  }

  const BlockLineHeight: real := 34.0

  /** What `drawBlock(ctx, x, y, w, h, title, values, tag)` draws: the title
      at `(x+20, y+20)`, the icon centred on `(x+w-60, y+45)`, then the wrapped
      lines of every prefixed item at `x+20`, from `y+90` down, wrapped to
      `w-40`. */
  function BlockMarks(x: real, y: real, w: real, title: string, values: FieldValue, tag: string, measure: string -> real): seq<Mark> {
    [Text(title, x + 20.0, y + 20.0)]
      + IconMarks(tag, x + w - 60.0, y + 45.0)
      + Placed(AllLines(Prefixed(ItemsOf(values)), Wrapper(measure, w - 40.0)), x + 20.0, y + 90.0, BlockLineHeight)
  }

  /** `drawBlock`, its text and its icon: the title, the icon, and for each
      item the inline wrap loop on `"• " + item` sharing one cursor. */
  method DrawBlock(x: real, y: real, w: real, title: string, values: FieldValue, tag: string, measure: string -> real)
    returns (marks: seq<Mark>)
    ensures marks == BlockMarks(x, y, w, title, values, tag, measure)
  {
    marks := [Text(title, x + 20.0, y + 20.0)] + IconMarks(tag, x + w - 60.0, y + 45.0);
    var items := if values.Items? then values.items else [];
    var textX := x + 20.0;
    var cursorY := y + 90.0;
    ghost var top := cursorY;
    var maxWidth := w - 40.0;
    var lineHeight := 34.0;
    ghost var lines := Prefixed(items);
    var body: seq<Mark> := [];
    for i := 0 to |items|
      invariant body == Placed(AllLines(lines[..i], Wrapper(measure, maxWidth)), textX, top, lineHeight)
      invariant cursorY == Top(lines, i, top, lineHeight, Wrapper(measure, maxWidth))
    {
      var line := "\U{2022} " + items[i];
      var drawn, next := WrapText(line, measure, maxWidth, textX, cursorY, lineHeight);
      assert line == lines[i];
      DrawLines(lines, i, body, cursorY, drawn, textX, top, lineHeight, Wrapper(measure, maxWidth));
      CursorStep(lines, i, top, lineHeight, Wrapper(measure, maxWidth));
      body := body + drawn;
      cursorY := next;
    }
    assert lines[..|items|] == lines;
    marks := marks + body;
  }

  /** The body of a block: every line drawn at `x+20`, line `i` exactly
      `34·i` below `y+90`, every line empty, a single word or within `w-40`,
      and the words of all lines together are the words of the prefixed items
      in order: no item is clipped, no word lost or repeated. */
  lemma BlockBody(x: real, y: real, w: real, title: string, values: FieldValue, tag: string, measure: string -> real)
    ensures var lines := AllLines(Prefixed(ItemsOf(values)), Wrapper(measure, w - 40.0));
      var ms := BlockMarks(x, y, w, title, values, tag, measure);
      var body := ms[|ms| - |lines|..];
      && (forall i :: 0 <= i < |lines| ==> body[i] == Text(lines[i], x + 20.0, y + 90.0 + i as real * 34.0))
      && (forall l :: l in lines ==> Acceptable(l, Tokens(Prefixed(ItemsOf(values))), measure, w - 40.0))
      && NonEmpty(Tokens(lines)) == NonEmpty(Tokens(Prefixed(ItemsOf(values))))
  {
    var items := Prefixed(ItemsOf(values));
    var lines := AllLines(items, Wrapper(measure, w - 40.0));
    var ms := BlockMarks(x, y, w, title, values, tag, measure);
    var placed := Placed(lines, x + 20.0, y + 90.0, BlockLineHeight);
    assert ms[|ms| - |lines|..] == placed;
    forall i | 0 <= i < |lines|
      ensures placed[i] == Text(lines[i], x + 20.0, y + 90.0 + i as real * 34.0)
    {
      PlacedAt(lines, x + 20.0, y + 90.0, BlockLineHeight, i);
      AdvanceIsProduct(i, BlockLineHeight);
    }
    AllLinesShape(items, measure, w - 40.0);
    AllLinesKeepWords(items, measure, w - 40.0);
  }

  /** A field that is not an array draws no body text. */
  lemma NotAListDrawsNoText(x: real, y: real, w: real, title: string, tag: string, measure: string -> real)
    ensures BlockMarks(x, y, w, title, NotAList, tag, measure) == [Text(title, x + 20.0, y + 20.0)] + IconMarks(tag, x + w - 60.0, y + 45.0)
  {
    assert Prefixed([]) == [];
  }

  // ---------------------------------------------------------------------------
  // Layout
  // ---------------------------------------------------------------------------

  const Width: real := 3000.0
  const Height: real := 2000.0
  const MarginX: real := 80.0
  const MarginY: real := 80.0
  const InnerWidth: real := Width - MarginX * 2.0
  const InnerHeight: real := Height - MarginY * 2.0
  const ColWidth: real := InnerWidth / 5.0
  const BlockHeight: real := InnerHeight / 3.0
  const TopY: real := MarginY
  const MidY: real := MarginY + BlockHeight
  const BottomY: real := MarginY + BlockHeight * 2.0
  const BottomWidthHalf: real := ColWidth * 2.5

  /** The left edge of column `c`. */
  function Col(c: nat): real {
    MarginX + c as real * ColWidth
  }

  /** A block of the canvas: where it is, its title, the input field it
      lists, and its icon tag. */
  datatype Block = Block(rect: Rect, title: string, field: string, tag: string)

  /** The nine `drawBlock` calls of `drawBmcImage`, in source order. */
  function Blocks(): seq<Block> {
    [ Block(Rect(Col(0), TopY, ColWidth, BlockHeight * 2.0), "Partenaires cl\U{E9}s", "partenairesCles", "partners"),
      Block(Rect(Col(1), TopY, ColWidth, BlockHeight), "Activit\U{E9}s cl\U{E9}s", "activitesCles", "activities"),
      Block(Rect(Col(1), MidY, ColWidth, BlockHeight), "Ressources cl\U{E9}s", "ressourcesCles", "resources"),
      Block(Rect(Col(2), TopY, ColWidth, BlockHeight * 2.0), "Proposition de valeur", "propositionValeur", "value"),
      Block(Rect(Col(3), TopY, ColWidth, BlockHeight), "Relation client", "relationClient", "relations"),
      Block(Rect(Col(3), MidY, ColWidth, BlockHeight), "Canaux", "canaux", "channels"),
      Block(Rect(Col(4), TopY, ColWidth, BlockHeight * 2.0), "Segments de client\U{E8}le", "segments", "segments"),
      Block(Rect(Col(0), BottomY, BottomWidthHalf, BlockHeight), "Structure de co\U{FB}ts", "structureCouts", "costs"),
      Block(Rect(Col(0) + BottomWidthHalf, BottomY, BottomWidthHalf, BlockHeight), "Sources de revenus", "sourcesRevenus", "revenues") ]
  }

  /** The rectangles of the nine blocks. */
  function Rects(): (rs: seq<Rect>)
    ensures |rs| == 9
  {
    seq(9, i requires 0 <= i < 9 => Blocks()[i].rect)
  }

  function Inner(): Rect {
    Rect(MarginX, MarginY, InnerWidth, InnerHeight)
  }

  /** The block holding a point of the inner area. */
  function BlockAt(px: real, py: real): (i: nat)
    ensures i < 9
  {
    if py >= BottomY then (if px < Col(0) + BottomWidthHalf then 7 else 8)
    else if px < Col(1) then 0
    else if px < Col(2) then (if py < MidY then 1 else 2)
    else if px < Col(3) then 3
    else if px < Col(4) then (if py < MidY then 4 else 5)
    else 6
  }

  /** Every point inside the margins lies in a block. */
  lemma BmcCover(px: real, py: real)
    requires Contains(Inner(), px, py)
    ensures Contains(Rects()[BlockAt(px, py)], px, py)
  {
  }

  /** No two blocks overlap. */
  lemma BmcDisjoint()
    ensures PairwiseDisjoint(Rects())
  {
    BmcRects();
    RowsDisjoint(1840.0 / 3.0);
  }

  /** Nine rectangles laid out as the blocks are, for any positive row height. */
  lemma RowsDisjoint(third: real)
    requires third > 0.0
    ensures PairwiseDisjoint(Numbers(third))
  {
  }

  /** The nine block rectangles in numbers, rows `third` high: columns are
      568 wide and start at 80, 648, 1216, 1784 and 2352. */
  function Numbers(third: real): seq<Rect> {
    [ Rect(80.0, 80.0, 568.0, 2.0 * third), Rect(648.0, 80.0, 568.0, third),
      Rect(648.0, 80.0 + third, 568.0, third), Rect(1216.0, 80.0, 568.0, 2.0 * third),
      Rect(1784.0, 80.0, 568.0, third), Rect(1784.0, 80.0 + third, 568.0, third),
      Rect(2352.0, 80.0, 568.0, 2.0 * third), Rect(80.0, 80.0 + 2.0 * third, 1420.0, third),
      Rect(1500.0, 80.0 + 2.0 * third, 1420.0, third) ]
  }

  /** The blocks are those rectangles with rows a third of 1840 high. */
  lemma BmcRects()
    ensures Rects() == Numbers(1840.0 / 3.0)
  {
    assert ColWidth == 568.0 && BottomWidthHalf == 1420.0 && BlockHeight == 1840.0 / 3.0;
  }

  /** Each block lies inside the margins. */
  lemma BmcWithin()
    ensures forall i :: 0 <= i < 9 ==> Within(Rects()[i], Inner())
  {
  }

  /** The nine blocks tile the area inside the margins: none overlaps
      another, each lies inside it, every point of it is in one, and their
      areas add up to the inner area. */
  lemma BmcLayout()
    ensures ColWidth == 568.0 && BlockHeight * 3.0 == 1840.0
    ensures Tiles(Rects(), Inner())
    ensures SumAreas(Rects()) == InnerWidth * InnerHeight
  {
    var rs := Rects();
    BmcDisjoint();
    BmcWithin();
    forall px: real, py: real | Contains(Inner(), px, py)
      ensures exists i :: 0 <= i < |rs| && Contains(rs[i], px, py)
    {
      BmcCover(px, py);
    }
    BmcAreas();
  }

  /** The areas of the nine blocks add up to the inner area. */
  lemma BmcAreas()
    ensures SumAreas(Rects()) == InnerWidth * InnerHeight
  {
    BmcRects();
    RowsArea(1840.0 / 3.0);
    assert InnerWidth == 2840.0 && InnerHeight == 1840.0;
  }

  /** The nine rectangles laid out as the blocks are cover 8520 row heights'
      worth of area: three columns two rows high, four blocks one row high,
      and two bottom blocks two and a half columns wide. */
  lemma RowsArea(third: real)
    ensures SumAreas(Numbers(third)) == 8520.0 * third
  {
    var rs := Numbers(third);
    assert rs[9..] == [];
    assert SumAreas(rs[8..]) == 1420.0 * third by {
      assert rs[8..][1..] == rs[9..];
    }
    assert SumAreas(rs[7..]) == 2840.0 * third by {
      assert rs[7..][1..] == rs[8..];
    }
    assert SumAreas(rs[6..]) == 3976.0 * third by {
      assert rs[6..][1..] == rs[7..];
    }
    assert SumAreas(rs[5..]) == 4544.0 * third by {
      assert rs[5..][1..] == rs[6..];
    }
    assert SumAreas(rs[4..]) == 5112.0 * third by {
      assert rs[4..][1..] == rs[5..];
    }
    assert SumAreas(rs[3..]) == 6248.0 * third by {
      assert rs[3..][1..] == rs[4..];
    }
    assert SumAreas(rs[2..]) == 6816.0 * third by {
      assert rs[2..][1..] == rs[3..];
    }
    assert SumAreas(rs[1..]) == 7384.0 * third by {
      assert rs[1..][1..] == rs[2..];
    }
    assert SumAreas(rs[0..]) == 8520.0 * third by {
      assert rs[0..][1..] == rs[1..];
    }
    assert rs[0..] == rs;
  }

  /** Partners, value and segments fill both upper rows of columns 0, 2 and 4;
      activities over resources and relations over channels share columns 1
      and 3; the two bottom blocks are two and a half columns wide each, the
      second starting where the first ends, together as wide as the inner
      area. */
  lemma BmcColumns()
    ensures forall i :: i in {0, 3, 6} ==> Blocks()[i].rect == Rect(Col(i / 3 * 2), TopY, ColWidth, MidY + BlockHeight - TopY)
    ensures Blocks()[1].rect.x == Blocks()[2].rect.x == Col(1) && Blocks()[1].rect.y + Blocks()[1].rect.h == Blocks()[2].rect.y
    ensures Blocks()[4].rect.x == Blocks()[5].rect.x == Col(3) && Blocks()[4].rect.y + Blocks()[4].rect.h == Blocks()[5].rect.y
    ensures Blocks()[7].rect.w == Blocks()[8].rect.w == 2.5 * ColWidth
    ensures Blocks()[8].rect.x == Blocks()[7].rect.x + Blocks()[7].rect.w
    ensures Blocks()[7].rect.w + Blocks()[8].rect.w == InnerWidth
  {
  }

  /** Every block has an icon of its own, centred inside it. */
  lemma BmcIcons()
    ensures forall i :: 0 <= i < 9 ==> IconFor(Blocks()[i].tag).Some?
    ensures forall i, j :: 0 <= i < j < 9 ==> IconFor(Blocks()[i].tag) != IconFor(Blocks()[j].tag)
    ensures forall i :: 0 <= i < 9 ==>
      var r := Blocks()[i].rect;
      Contains(r, r.x + r.w - 60.0, r.y + 45.0)
  {
  }

  // ---------------------------------------------------------------------------
  // drawBmcImage
  // ---------------------------------------------------------------------------

  /** The value of a field of the input object (`bmc.field`). */
  function Field(bmc: map<string, FieldValue>, field: string): FieldValue {
    if field in bmc then bmc[field] else NotAList
  }

  function BlockOf(b: Block, bmc: map<string, FieldValue>, measure: string -> real): seq<Mark> {
    BlockMarks(b.rect.x, b.rect.y, b.rect.w, b.title, Field(bmc, b.field), b.tag, measure)
  }

  /** `drawBmcImage(bmc)`, as far as its text and icons go: the nine blocks in
      source order. */
  function BmcImage(bmc: map<string, FieldValue>, measure: string -> real): seq<Mark> {
    var bs := Blocks();
    BlockOf(bs[0], bmc, measure) + BlockOf(bs[1], bmc, measure) + BlockOf(bs[2], bmc, measure)
      + BlockOf(bs[3], bmc, measure) + BlockOf(bs[4], bmc, measure) + BlockOf(bs[5], bmc, measure)
      + BlockOf(bs[6], bmc, measure) + BlockOf(bs[7], bmc, measure) + BlockOf(bs[8], bmc, measure)
  }

  method DrawBmcImage(bmc: map<string, FieldValue>, measure: string -> real) returns (marks: seq<Mark>)
    ensures marks == BmcImage(bmc, measure)
  {
    var colWidth := ColWidth;
    var blockHeight := BlockHeight;
    var topY := MarginY;
    var midY := MarginY + blockHeight;
    var bottomY := MarginY + blockHeight * 2.0;
    var col0 := MarginX;
    var col1 := MarginX + colWidth;
    var col2 := MarginX + 2.0 * colWidth;
    var col3 := MarginX + 3.0 * colWidth;
    var col4 := MarginX + 4.0 * colWidth;
    var partners := DrawBlock(col0, topY, colWidth, "Partenaires cl\U{E9}s", Field(bmc, "partenairesCles"), "partners", measure);
    var activities := DrawBlock(col1, topY, colWidth, "Activit\U{E9}s cl\U{E9}s", Field(bmc, "activitesCles"), "activities", measure);
    var resources := DrawBlock(col1, midY, colWidth, "Ressources cl\U{E9}s", Field(bmc, "ressourcesCles"), "resources", measure);
    var value := DrawBlock(col2, topY, colWidth, "Proposition de valeur", Field(bmc, "propositionValeur"), "value", measure);
    var relations := DrawBlock(col3, topY, colWidth, "Relation client", Field(bmc, "relationClient"), "relations", measure);
    var channels := DrawBlock(col3, midY, colWidth, "Canaux", Field(bmc, "canaux"), "channels", measure);
    var segments := DrawBlock(col4, topY, colWidth, "Segments de client\U{E8}le", Field(bmc, "segments"), "segments", measure);
    var bottomWidthHalf := colWidth * 2.5;
    var costs := DrawBlock(col0, bottomY, bottomWidthHalf, "Structure de co\U{FB}ts", Field(bmc, "structureCouts"), "costs", measure);
    var revenues := DrawBlock(col0 + bottomWidthHalf, bottomY, bottomWidthHalf, "Sources de revenus", Field(bmc, "sourcesRevenus"), "revenues", measure);
    marks := partners + activities + resources + value + relations + channels + segments + costs + revenues;
  }
}
