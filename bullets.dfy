/** The bulleted body of a SWOT box (`drawBox`, swotRenderer.js) and of a
    matrix quadrant (`drawQuadrant`, matrixRenderer.js): for each item a `•`
    glyph at `bulletX` on the current cursor line, then the item word-wrapped
    at `textX` from that same line down. The cursor is shared, so each item
    starts on the line after the last line of the previous one. The
    wrapping routine is a parameter `wrap` (the lines drawn for one item):
    the renderers pass `Wrapper(measure, maxWidth)`, that is `WrapLines`. */
module Bullets {
  import opened Strings
  import opened Canvas
  import opened Wrap

  /** The wrapped lines of every item, one item after the other. */
  function AllLines(items: seq<string>, wrap: string -> seq<string>): seq<string>
    decreases |items|
  {
    if items == [] then []
    else AllLines(items[..|items| - 1], wrap) + wrap(items[|items| - 1])
  }

  /** One more item: its wrapped lines follow those of the items before it. */
  lemma AllLinesStep(items: seq<string>, i: nat, wrap: string -> seq<string>)
    requires i < |items|
    ensures AllLines(items[..i + 1], wrap) == AllLines(items[..i], wrap) + wrap(items[i])
  {
    assert items[..i + 1][..i] == items[..i];
  }

  /** One more item drawn without a glyph (the items of a Business Model
      Canvas block carry their own): its placed lines follow those of the
      items before it. */
  lemma DrawLines(items: seq<string>, i: nat, body: seq<Mark>, cursorY: real, drawn: seq<Mark>,
                  x: real, y: real, lineHeight: real, wrap: string -> seq<string>)
    requires i < |items|
    requires body == Placed(AllLines(items[..i], wrap), x, y, lineHeight)
    requires cursorY == Top(items, i, y, lineHeight, wrap)
    requires drawn == Placed(wrap(items[i]), x, cursorY, lineHeight)
    ensures body + drawn == Placed(AllLines(items[..i + 1], wrap), x, y, lineHeight)
  {
    AllLinesStep(items, i, wrap);
    PlacedAppend(AllLines(items[..i], wrap), wrap(items[i]), x, y, lineHeight);
  }

  /** The words of two blocks of lines are those of the first, then those of
      the second. */
  lemma {:induction false} TokensAppend(a: seq<string>, b: seq<string>)
    ensures Tokens(a + b) == Tokens(a) + Tokens(b)
    decreases |b|
  {
    if b == [] {
      assert a + b == a;
    } else {
      var init := b[..|b| - 1];
      var last := b[|b| - 1];
      assert Tokens(a + b) == Tokens(a + init) + Split(last, ' ') by {
        assert a + b == (a + init) + [last];
        TokensSnoc(a + init, last);
      }
      assert Tokens(b) == Tokens(init) + Split(last, ' ') by {
        assert b == init + [last];
        TokensSnoc(init, last);
      }
      TokensAppend(a, init);
    }
  }

  /** No word of any item is lost, duplicated or reordered: reading all the
      lines drawn for a list word by word gives the words of its items, in
      order, leaving out the empty words that runs of spaces produce. */
  lemma {:induction false} AllLinesKeepWords(items: seq<string>, measure: string -> real, maxWidth: real)
    ensures NonEmpty(Tokens(AllLines(items, Wrapper(measure, maxWidth)))) == NonEmpty(Tokens(items))
    decreases |items|
  {
    if items != [] {
      var init := items[..|items| - 1];
      var last := items[|items| - 1];
      var before := AllLines(init, Wrapper(measure, maxWidth));
      var lines := WrapLines(last, measure, maxWidth);
      assert AllLines(items, Wrapper(measure, maxWidth)) == before + lines;
      AllLinesKeepWords(init, measure, maxWidth);
      WrapKeepsWords(last, measure, maxWidth);
      TokensAppend(before, lines);
      NonEmptyAppend(Tokens(before), Tokens(lines));
      NonEmptyAppend(Tokens(init), Split(last, ' '));
    }
  }

  /** Every line drawn for a list is empty, one word of its items, or fits. */
  lemma {:induction false} AllLinesShape(items: seq<string>, measure: string -> real, maxWidth: real)
    ensures forall l :: l in AllLines(items, Wrapper(measure, maxWidth)) ==> Acceptable(l, Tokens(items), measure, maxWidth)
    decreases |items|
  {
    if items != [] {
      var init := items[..|items| - 1];
      var last := items[|items| - 1];
      assert AllLines(items, Wrapper(measure, maxWidth)) == AllLines(init, Wrapper(measure, maxWidth)) + WrapLines(last, measure, maxWidth);
      AllLinesShape(init, measure, maxWidth);
      WrapShape(last, measure, maxWidth);
      assert Tokens(items) == Tokens(init) + Split(last, ' ');
    }
  }

  /** The cursor when item `i` starts: one line height per line drawn for the
      items before it. */
  function Top(items: seq<string>, i: nat, y: real, lineHeight: real, wrap: string -> seq<string>): real
    requires i <= |items|
  {
    y + Advance(|AllLines(items[..i], wrap)|, lineHeight)
  }

  /** What the bullet loop draws for `items` from cursor `y`. */
  function BulletList(items: seq<string>, bulletX: real, textX: real, y: real, lineHeight: real,
                      wrap: string -> seq<string>): seq<Mark>
    decreases |items|
  {
    if items == [] then []
    else
      var init := items[..|items| - 1];
      var top := y + Advance(|AllLines(init, wrap)|, lineHeight);
      BulletList(init, bulletX, textX, y, lineHeight, wrap)
        + [Text("\U{2022}", bulletX, top)]
        + Placed(wrap(items[|items| - 1]), textX, top, lineHeight)
  }

  /** One more item: its glyph and its lines follow what was drawn for the
      items before it. */
  lemma BulletStep(items: seq<string>, i: nat, bulletX: real, textX: real, y: real, lineHeight: real,
                   wrap: string -> seq<string>)
    requires i < |items|
    ensures AllLines(items[..i + 1], wrap) == AllLines(items[..i], wrap) + wrap(items[i])
    ensures BulletList(items[..i + 1], bulletX, textX, y, lineHeight, wrap)
         == BulletList(items[..i], bulletX, textX, y, lineHeight, wrap)
            + [Text("\U{2022}", bulletX, Top(items, i, y, lineHeight, wrap))]
            + Placed(wrap(items[i]), textX, Top(items, i, y, lineHeight, wrap), lineHeight)
  {
    AllLinesStep(items, i, wrap);
    assert items[..i + 1] == items[..i] + [items[i]];
    BulletListSnoc(items[..i], items[i], bulletX, textX, y, lineHeight, wrap);
  }

  /** The definition of `BulletList`, with one item added at the end. */
  lemma BulletListSnoc(init: seq<string>, item: string, bulletX: real, textX: real, y: real, lineHeight: real,
                       wrap: string -> seq<string>)
    ensures var top := y + Advance(|AllLines(init, wrap)|, lineHeight);
      BulletList(init + [item], bulletX, textX, y, lineHeight, wrap)
        == BulletList(init, bulletX, textX, y, lineHeight, wrap)
           + [Text("\U{2022}", bulletX, top)]
           + Placed(wrap(item), textX, top, lineHeight)
  {
    var items := init + [item];
    assert items[..|items| - 1] == init && items[|items| - 1] == item;
  }

  /** The loop body of the bullet loop (glyph, then the wrapped item on the
      shared cursor) keeps the marks in step with the items done. */
  lemma DrawItem(items: seq<string>, i: nat, marks: seq<Mark>, cursorY: real, drawn: seq<Mark>,
                 bulletX: real, textX: real, y: real, lineHeight: real, wrap: string -> seq<string>)
    requires i < |items|
    requires marks == BulletList(items[..i], bulletX, textX, y, lineHeight, wrap)
    requires cursorY == Top(items, i, y, lineHeight, wrap)
    requires drawn == Placed(wrap(items[i]), textX, cursorY, lineHeight)
    ensures marks + [Text("\U{2022}", bulletX, cursorY)] + drawn
         == BulletList(items[..i + 1], bulletX, textX, y, lineHeight, wrap)
  {
    BulletStep(items, i, bulletX, textX, y, lineHeight, wrap);
  }

  /** After item `i` the cursor has moved one line height per line of it. */
  lemma CursorStep(items: seq<string>, i: nat, y: real, lineHeight: real, wrap: string -> seq<string>)
    requires i < |items|
    ensures Top(items, i, y, lineHeight, wrap) + Advance(|wrap(items[i])|, lineHeight)
         == Top(items, i + 1, y, lineHeight, wrap)
  {
    var before := AllLines(items[..i], wrap);
    var k := |wrap(items[i])|;
    assert items[..i + 1][..i] == items[..i];
    assert |AllLines(items[..i + 1], wrap)| == |before| + k;
    AdvanceAdd(|before|, k, lineHeight);
  }

  // ---------------------------------------------------------------------------
  // Columns: the glyphs and the text lines
  // ---------------------------------------------------------------------------

  /** The text drawn at abscissa `cx`, in drawing order. */
  function Column(ms: seq<Mark>, cx: real): seq<Mark> {
    if ms == [] then []
    else (if ms[0].Text? && ms[0].x == cx then [ms[0]] else []) + Column(ms[1..], cx)
  }

  lemma {:induction false} ColumnAppend(a: seq<Mark>, b: seq<Mark>, cx: real)
    ensures Column(a + b, cx) == Column(a, cx) + Column(b, cx)
  {
    if a == [] {
      assert a + b == b;
    } else {
      assert (a + b)[1..] == a[1..] + b;
      ColumnAppend(a[1..], b, cx);
    }
  }

  /** Lines placed at `x` are all in column `x` and in no other. */
  lemma {:induction false} ColumnPlaced(lines: seq<string>, x: real, y: real, lineHeight: real, cx: real)
    ensures Column(Placed(lines, x, y, lineHeight), cx) == if cx == x then Placed(lines, x, y, lineHeight) else []
    decreases |lines|
  {
    if lines != [] {
      var init := lines[..|lines| - 1];
      var last := Text(lines[|lines| - 1], x, y + Advance(|init|, lineHeight));
      ColumnPlaced(init, x, y, lineHeight, cx);
      ColumnAppend(Placed(init, x, y, lineHeight), [last], cx);
    }
  }

  /** The `•` glyphs the loop draws: one per item, on the line where the item starts. */
  function Glyphs(items: seq<string>, bulletX: real, y: real, lineHeight: real, wrap: string -> seq<string>): (gs: seq<Mark>)
    ensures |gs| == |items|
    decreases |items|
  {
    if items == [] then []
    else Glyphs(items[..|items| - 1], bulletX, y, lineHeight, wrap)
         + [Text("\U{2022}", bulletX, y + Advance(|AllLines(items[..|items| - 1], wrap)|, lineHeight))]
  }

  /** Glyph `i` is drawn at the cursor where item `i` starts. */
  lemma {:induction false} GlyphAt(items: seq<string>, i: nat, bulletX: real, y: real, lineHeight: real, wrap: string -> seq<string>)
    requires i < |items|
    ensures Glyphs(items, bulletX, y, lineHeight, wrap)[i] == Text("\U{2022}", bulletX, Top(items, i, y, lineHeight, wrap))
    decreases |items|
  {
    var init := items[..|items| - 1];
    var head := Glyphs(init, bulletX, y, lineHeight, wrap);
    var top := y + Advance(|AllLines(init, wrap)|, lineHeight);
    assert Glyphs(items, bulletX, y, lineHeight, wrap) == head + [Text("\U{2022}", bulletX, top)];
    if i < |items| - 1 {
      GlyphAt(init, i, bulletX, y, lineHeight, wrap);
      assert init[..i] == items[..i];
    } else {
      assert items[..i] == init;
    }
  }

  /** The glyphs of the first `n` items are drawn where those items start
      within the whole list. */
  lemma GlyphsOfPrefix(items: seq<string>, n: nat, bulletX: real, y: real, lineHeight: real, wrap: string -> seq<string>)
    requires n <= |items|
    ensures forall j :: 0 <= j < n ==>
      Glyphs(items[..n], bulletX, y, lineHeight, wrap)[j] == Text("\U{2022}", bulletX, Top(items, j, y, lineHeight, wrap))
  {
    forall j | 0 <= j < n
      ensures Glyphs(items[..n], bulletX, y, lineHeight, wrap)[j] == Text("\U{2022}", bulletX, Top(items, j, y, lineHeight, wrap))
    {
      GlyphAt(items[..n], j, bulletX, y, lineHeight, wrap);
      assert items[..n][..j] == items[..j];
    }
  }

  /** A glyph off column `cx` between two blocks contributes nothing to it. */
  lemma ColumnSkip(head: seq<Mark>, glyph: Mark, body: seq<Mark>, cx: real)
    requires glyph.Text? && glyph.x != cx
    ensures Column(head + [glyph] + body, cx) == Column(head, cx) + Column(body, cx)
  {
    ColumnAppend(head + [glyph], body, cx);
    ColumnAppend(head, [glyph], cx);
  }

  /** A glyph on column `cx` between two blocks is kept between their columns. */
  lemma ColumnKeep(head: seq<Mark>, glyph: Mark, body: seq<Mark>, cx: real)
    requires glyph.Text? && glyph.x == cx
    ensures Column(head + [glyph] + body, cx) == Column(head, cx) + [glyph] + Column(body, cx)
  {
    ColumnAppend(head + [glyph], body, cx);
    ColumnAppend(head, [glyph], cx);
  }

  /** With the glyph column apart from the text column, the text column holds
      exactly the wrapped lines of all items, in order, one line height apart
      from `y` down: continuation lines hang at `textX`, nothing is skipped and
      no line is left blank between items. */
  lemma {:induction false} TextColumn(items: seq<string>, bulletX: real, textX: real, y: real, lineHeight: real,
                                      wrap: string -> seq<string>)
    requires bulletX != textX
    ensures Column(BulletList(items, bulletX, textX, y, lineHeight, wrap), textX)
         == Placed(AllLines(items, wrap), textX, y, lineHeight)
    decreases |items|
  {
    if items != [] {
      var init := items[..|items| - 1];
      var lines := wrap(items[|items| - 1]);
      var before := AllLines(init, wrap);
      var top := y + Advance(|before|, lineHeight);
      var head := BulletList(init, bulletX, textX, y, lineHeight, wrap);
      var glyph := Text("\U{2022}", bulletX, top);
      calc {
        Column(BulletList(items, bulletX, textX, y, lineHeight, wrap), textX);
        Column(head + [glyph] + Placed(lines, textX, top, lineHeight), textX);
        { ColumnSkip(head, glyph, Placed(lines, textX, top, lineHeight), textX); }
        Column(head, textX) + Column(Placed(lines, textX, top, lineHeight), textX);
        { TextColumn(init, bulletX, textX, y, lineHeight, wrap);
          ColumnPlaced(lines, textX, top, lineHeight, textX); }
        Placed(before, textX, y, lineHeight) + Placed(lines, textX, top, lineHeight);
        { PlacedAppend(before, lines, textX, y, lineHeight); }
        Placed(before + lines, textX, y, lineHeight);
      }
    }
  }

  /** With the glyph column apart from the text column, the glyph column holds
      one `•` per item, each where its item starts. */
  lemma {:induction false} GlyphColumn(items: seq<string>, bulletX: real, textX: real, y: real, lineHeight: real,
                                       wrap: string -> seq<string>)
    requires bulletX != textX
    ensures Column(BulletList(items, bulletX, textX, y, lineHeight, wrap), bulletX)
         == Glyphs(items, bulletX, y, lineHeight, wrap)
    decreases |items|
  {
    if items != [] {
      var init := items[..|items| - 1];
      var lines := wrap(items[|items| - 1]);
      var top := y + Advance(|AllLines(init, wrap)|, lineHeight);
      var head := BulletList(init, bulletX, textX, y, lineHeight, wrap);
      var glyph := Text("\U{2022}", bulletX, top);
      var body := Placed(lines, textX, top, lineHeight);
      assert BulletList(items, bulletX, textX, y, lineHeight, wrap) == head + [glyph] + body;
      assert Column(head + [glyph] + body, bulletX) == Column(head, bulletX) + [glyph] by {
        ColumnKeep(head, glyph, body, bulletX);
        ColumnPlaced(lines, textX, top, lineHeight, bulletX);
      }
      GlyphColumn(init, bulletX, textX, y, lineHeight, wrap);
      assert Glyphs(items, bulletX, y, lineHeight, wrap) == Glyphs(init, bulletX, y, lineHeight, wrap) + [glyph];
    }
  }
}
