/** The SWOT renderer (swotRenderer.js): `parseSwot`, the 2x2 box layout of
    `drawSwotImage`, and the bullet loop of its `drawBox`. */
module Swot {
  import opened Strings
  import opened Sections
  import opened Canvas
  import opened Wrap
  import opened Bullets

  /** The keys of the sections object `parseSwot` returns. */
  const SwotKeys: set<string> := {"forces", "faiblesses", "opportunites", "menaces"}
  const SwotKeyList: seq<string> := ["forces", "faiblesses", "opportunites", "menaces"]

  /** The four heading tests of `parseSwot`, in source order:
      `/^1\.\s*forces?/i`, `/^2\.\s*faiblesses?/i`, `/^3\.\s*opportunités?/i` or
      `/^3\.\s*opportunites?/i`, and `/^4\.\s*menaces?/i`. The optional plural
      `s`, white space and `:`/`-` that close each pattern never decide a match. */
  function SwotHeading(t: string): (k: Option<string>)
    ensures k.Some? ==> k.value in SwotKeys
  {
    if |t| < 2 || t[1] != '.' then None
    else
      var j := SkipSpaces(t, 2);
      if t[0] == '1' && MatchesAt(t, j, "force") then Some("forces")
      else if t[0] == '2' && MatchesAt(t, j, "faiblesse") then Some("faiblesses")
      else if t[0] == '3' && (MatchesAt(t, j, "opportunit\U{E9}") || MatchesAt(t, j, "opportunite")) then Some("opportunites")
      else if t[0] == '4' && MatchesAt(t, j, "menace") then Some("menaces")
      else None
  }

  lemma SwotClassifies()
    ensures ClassifiesInto(SwotHeading, SwotKeys)
  {
    forall t | SwotHeading(t).Some? ensures SwotHeading(t).value in SwotKeys {
    }
  }

  /** What `parseSwot(rawText)` returns: always the four keys. */
  function SwotSections(rawText: Option<string>): (m: map<string, seq<string>>)
    ensures m.Keys == SwotKeys
  {
    SwotClassifies();
    Parse(rawText, SwotKeys, SwotHeading)
  }

  /** `parseSwot(rawText)`. */
  method ParseSwot(rawText: Option<string>) returns (sections: map<string, seq<string>>)
    ensures sections.Keys == SwotKeys
    ensures sections == SwotSections(rawText)
  {
    SwotClassifies();
    var lines := Lines(rawText);
    sections := ParseLines(lines, SwotKeys, SwotHeading);
  }

  // ---------------------------------------------------------------------------
  // Properties of the parser
  // ---------------------------------------------------------------------------

  /** A heading line never reads as a bullet: it starts with its number. */
  lemma SwotHeadingIsNotBullet(t: string)
    requires SwotHeading(t).Some?
    ensures !IsBullet(t)
  {
    NumberedIsNotBullet(t);
  }

  /** Undefined, empty or all-`=`/white-space input yields four empty lists. */
  lemma SwotBlank(rawText: Option<string>)
    requires rawText.Some? ==> forall i :: 0 <= i < |rawText.value| ==> IsEqOrSpace(rawText.value[i])
    ensures forall k :: k in SwotKeys ==> SwotSections(rawText)[k] == []
  {
    SwotClassifies();
    BlankInput(rawText, SwotKeys, SwotHeading);
  }

  /** The four lists together hold one bullet per bullet line after the first
      heading. */
  lemma SwotCount(rawText: Option<string>)
    ensures Total(SwotSections(rawText), SwotKeyList) == BulletLineCount(Lines(rawText), false, SwotHeading)
  {
    SwotClassifies();
    ParseCount(rawText, SwotKeys, SwotHeading, SwotKeyList);
  }

  /** The third heading matches in capitals, with its accent. */
  lemma AccentedHeading()
    ensures SwotHeading("3. OPPORTUNIT\U{C9}S") == Some("opportunites")
  {
    var t := "3. OPPORTUNIT\U{C9}S";
    assert t == ['3', '.', ' '] + "OPPORTUNIT\U{C9}S";
    assert SkipSpaces(t, 2) == 3 by {
      SkipSpacesTo(t, 2, 3);
    }
    assert MatchesAt(t, 3, "opportunit\U{E9}") by {
      assert t[3..] == "OPPORTUNIT\U{C9}S";
    }
  }

  /** The third heading matches without its accent and without white space
      after the dot. */
  lemma UnaccentedHeading()
    ensures SwotHeading("3.opportunites :") == Some("opportunites")
  {
    var u := "3.opportunites :";
    assert u == ['3', '.'] + "opportunites :";
    assert SkipSpaces(u, 2) == 2 by {
      SkipSpacesTo(u, 2, 2);
    }
    assert MatchesAt(u, 2, "opportunite") by {
      assert u[2..] == "opportunites :";
    }
  }

  /** A number without its dot, or a marker in front of the number, makes the
      line no heading. */
  lemma NotHeadings()
    ensures SwotHeading("3 Menaces") == None
    ensures SwotHeading("- 1. Forces") == None
  {
  }

  /** A heading is recognised whatever the case of its letters. */
  lemma SwotHeadingCase(t: string, u: string)
    requires SameUpToCase(t, u)
    ensures SwotHeading(t) == SwotHeading(u)
  {
    if |t| >= 2 {
      NumberedCase(t, u);
      var j := SkipSpaces(t, 2);
      MatchFromCase(t, u, j, "force", 0);
      MatchFromCase(t, u, j, "faiblesse", 0);
      MatchFromCase(t, u, j, "opportunit\U{E9}", 0);
      MatchFromCase(t, u, j, "opportunite", 0);
      MatchFromCase(t, u, j, "menace", 0);
    }
  }

  // ---------------------------------------------------------------------------
  // Layout
  // ---------------------------------------------------------------------------

  const Width: real := 2000.0
  const Height: real := 2000.0
  const Margin: real := 80.0
  const BoxWidth: real := (Width - Margin * 3.0) / 2.0
  const BoxHeight: real := (Height - Margin * 3.0) / 2.0

  /** The boxes of Forces, Faiblesses, Opportunités and Menaces, in that order. */
  function Boxes(): seq<Rect> {
    [ Rect(Margin, Margin, BoxWidth, BoxHeight),
      Rect(Margin * 2.0 + BoxWidth, Margin, BoxWidth, BoxHeight),
      Rect(Margin, Margin * 2.0 + BoxHeight, BoxWidth, BoxHeight),
      Rect(Margin * 2.0 + BoxWidth, Margin * 2.0 + BoxHeight, BoxWidth, BoxHeight) ]
  }

  /** The boxes do not overlap, lie inside the margins, are a margin apart and
      end exactly a margin before the right and bottom edges. */
  lemma SwotLayout()
    ensures |Boxes()| == 4
    ensures PairwiseDisjoint(Boxes())
    ensures forall i :: 0 <= i < 4 ==> Within(Boxes()[i], Rect(Margin, Margin, Width - 2.0 * Margin, Height - 2.0 * Margin))
    ensures Boxes()[1].x - (Boxes()[0].x + Boxes()[0].w) == Margin
    ensures Boxes()[2].y - (Boxes()[0].y + Boxes()[0].h) == Margin
    ensures Boxes()[3].x + Boxes()[3].w == Width - Margin && Boxes()[3].y + Boxes()[3].h == Height - Margin
    ensures BoxWidth == 880.0 && BoxHeight == 880.0
  {
  }

  // ---------------------------------------------------------------------------
  // drawBox
  // ---------------------------------------------------------------------------

  const LineHeight: real := 42.0
  const MaxWidth: real := BoxWidth - 70.0

  /** What `drawBox(title, textLines, x, y)` draws: the title at `(x+24, y+24)`,
      then every item with its glyph at `x+32` and its lines at `x+60`,
      starting two line heights under the 40px title. */
  function BoxMarks(title: string, textLines: seq<string>, x: real, y: real, measure: string -> real): seq<Mark> {
    [Text(title, x + 24.0, y + 24.0)]
      + BulletList(textLines, x + 32.0, x + 60.0, y + 24.0 + 40.0 + LineHeight * 2.0, LineHeight, Wrapper(measure, MaxWidth))
  }

  /** `drawBox`'s text: the title, then for each item the `•` glyph and
      `wrapBulletLine(line)` on the shared cursor. */
  method DrawBox(title: string, textLines: seq<string>, x: real, y: real, measure: string -> real)
    returns (marks: seq<Mark>)
    ensures marks == BoxMarks(title, textLines, x, y, measure)
  {
    marks := [Text(title, x + 24.0, y + 24.0)];
    var lineHeight := LineHeight;
    var cursorY := y + 24.0 + 40.0 + lineHeight * 2.0;
    ghost var top := cursorY;
    var maxWidth := BoxWidth - 70.0;
    var bulletX := x + 32.0;
    var textX := x + 60.0;
    var body: seq<Mark> := [];
    for i := 0 to |textLines|
      invariant body == BulletList(textLines[..i], bulletX, textX, top, lineHeight, Wrapper(measure, maxWidth))
      invariant cursorY == Top(textLines, i, top, lineHeight, Wrapper(measure, maxWidth))
    {
      var glyph := Text("\U{2022}", bulletX, cursorY);
      var drawn, next := WrapText(textLines[i], measure, maxWidth, textX, cursorY, lineHeight);
      DrawItem(textLines, i, body, cursorY, drawn, bulletX, textX, top, lineHeight, Wrapper(measure, maxWidth));
      CursorStep(textLines, i, top, lineHeight, Wrapper(measure, maxWidth));
      body := body + [glyph] + drawn;
      cursorY := next;
    }
    assert textLines[..|textLines|] == textLines;
    marks := marks + body;
  }

  /** Nothing is clipped: every item gets its glyph, and the text column holds
      every wrapped line of every item, one line height apart. */
  lemma BoxDrawsEverything(title: string, textLines: seq<string>, x: real, y: real, measure: string -> real)
    ensures var body := BoxMarks(title, textLines, x, y, measure)[1..];
      && Column(body, x + 32.0) == Glyphs(textLines, x + 32.0, y + 148.0, LineHeight, Wrapper(measure, MaxWidth))
      && |Column(body, x + 32.0)| == |textLines|
      && Column(body, x + 60.0) == Placed(AllLines(textLines, Wrapper(measure, MaxWidth)), x + 60.0, y + 148.0, LineHeight)
  {
    var top := y + 24.0 + 40.0 + LineHeight * 2.0;
    assert top == y + 148.0;
    assert BoxMarks(title, textLines, x, y, measure)[1..] == BulletList(textLines, x + 32.0, x + 60.0, top, LineHeight, Wrapper(measure, MaxWidth));
    GlyphColumn(textLines, x + 32.0, x + 60.0, top, LineHeight, Wrapper(measure, MaxWidth));
    TextColumn(textLines, x + 32.0, x + 60.0, top, LineHeight, Wrapper(measure, MaxWidth));
  }

  /** `drawSwotImage(swotText)`, as far as its text goes: the four boxes in
      source order, each with the list of its section. */
  function SwotImage(swotText: Option<string>, measure: string -> real): seq<Mark> {
    var s := SwotSections(swotText);
    var b := Boxes();
    BoxMarks("Forces", s["forces"], b[0].x, b[0].y, measure)
      + BoxMarks("Faiblesses", s["faiblesses"], b[1].x, b[1].y, measure)
      + BoxMarks("Opportunit\U{E9}s", s["opportunites"], b[2].x, b[2].y, measure)
      + BoxMarks("Menaces", s["menaces"], b[3].x, b[3].y, measure)
  }

  method DrawSwotImage(swotText: Option<string>, measure: string -> real) returns (marks: seq<Mark>)
    ensures marks == SwotImage(swotText, measure)
  {
    var s := ParseSwot(swotText);
    var forces := DrawBox("Forces", s["forces"], Margin, Margin, measure);
    var faiblesses := DrawBox("Faiblesses", s["faiblesses"], Margin * 2.0 + BoxWidth, Margin, measure);
    var opportunites := DrawBox("Opportunit\U{E9}s", s["opportunites"], Margin, Margin * 2.0 + BoxHeight, measure);
    var menaces := DrawBox("Menaces", s["menaces"], Margin * 2.0 + BoxWidth, Margin * 2.0 + BoxHeight, measure);
    marks := forces + faiblesses + opportunites + menaces;
  }
}
