/** The Eisenhower matrix renderer (matrixRenderer.js): `parseMatrix`, the grid
    of `drawMatrixImage`, and `drawQuadrant` with its bullet loop, its
    `wrapLine` and its stop rule. */
module Matrix {
  import opened Strings
  import opened Sections
  import opened Canvas
  import opened Wrap
  import opened Bullets

  /** The keys of the sections object `parseMatrix` returns. */
  const MatrixKeys: set<string> := {"faire", "planifier", "deleguer", "abandonner"}
  const MatrixKeyList: seq<string> := ["faire", "planifier", "deleguer", "abandonner"]

  /** `[àa]` under `/i`: the optional article in front of a verb. */
  predicate IsA(c: char) {
    Lower(c) == 'a' || Lower(c) == '\U{E0}'
  }

  /** `[ée]` under `/i`. */
  predicate IsE(c: char) {
    Lower(c) == 'e' || Lower(c) == '\U{E9}'
  }

  /** `d[ée]l[ée]guer` at index `i` of `t` (the alternative `deleguer` of the
      source is one of its spellings). */
  predicate DeleguerAt(t: string, i: nat) {
    i + 4 <= |t| && Lower(t[i]) == 'd' && IsE(t[i + 1]) && Lower(t[i + 2]) == 'l' && IsE(t[i + 3])
    && MatchesAt(t, i + 4, "guer")
  }

  /** `(à\s*V|a\s*V|V)` at index `i` of `t`, for the verb `V`. */
  predicate VerbAt(t: string, i: nat, verb: string) {
    MatchesAt(t, i, verb) || (i < |t| && IsA(t[i]) && MatchesAt(t, SkipSpaces(t, i + 1), verb))
  }

  /** `(à\s*d[ée]l[ée]guer|a\s*d[ée]l[ée]guer|d[ée]l[ée]guer|deleguer)` at index `i` of `t`. */
  predicate DeleguerVerbAt(t: string, i: nat) {
    DeleguerAt(t, i) || (i < |t| && IsA(t[i]) && DeleguerAt(t, SkipSpaces(t, i + 1)))
  }

  /** `VerbAt` is the alternation `(à\s*V|a\s*V|V)`: the verb right at `i`, or
      an article, then any run of white space, then the verb. A verb starts
      with a letter, so the greedy `\s*` stops where the regular expression's
      backtracking would. */
  lemma VerbShape(t: string, i: nat, verb: string)
    requires verb != "" && !IsJsSpace(verb[0])
    ensures VerbAt(t, i, verb) <==> || MatchesAt(t, i, verb)
                                    || (i < |t| && IsA(t[i]) && exists e: nat :: SpacesBetween(t, i + 1, e) && MatchesAt(t, e, verb))
  {
    if i < |t| {
      SpacesThenMatch(t, i + 1, verb);
    }
  }

  /** `DeleguerVerbAt` is the alternation of the third heading: `déléguer` (in
      any of its spellings) right at `i`, or an article, white space, then
      `déléguer`. */
  lemma DeleguerShape(t: string, i: nat)
    ensures DeleguerVerbAt(t, i) <==> || DeleguerAt(t, i)
                                      || (i < |t| && IsA(t[i]) && exists e: nat :: SpacesBetween(t, i + 1, e) && DeleguerAt(t, e))
  {
    if i < |t| {
      var j := SkipSpaces(t, i + 1);
      assert SpacesBetween(t, i + 1, j);
      forall e: nat | SpacesBetween(t, i + 1, e) && DeleguerAt(t, e)
        ensures e == j
      {
        assert Lower(t[e]) == 'd';
        SkipSpacesTo(t, i + 1, e);
      }
    }
  }

  /** The four heading tests of `parseMatrix`, in source order:
      `/^1\.\s*(à\s*faire|a\s*faire|faire)/i`, the same for `2.` and
      `planifier`, `/^3\.\s*(à\s*d[ée]l[ée]guer|…)/i` and `4.` with
      `abandonner`. The trailing `\s*[:\-]?` of each pattern never decides a
      match. */
  function MatrixHeading(t: string): (k: Option<string>)
    ensures k.Some? ==> k.value in MatrixKeys
  {
    if |t| < 2 || t[1] != '.' then None
    else
      var j := SkipSpaces(t, 2);
      if t[0] == '1' && VerbAt(t, j, "faire") then Some("faire")
      else if t[0] == '2' && VerbAt(t, j, "planifier") then Some("planifier")
      else if t[0] == '3' && DeleguerVerbAt(t, j) then Some("deleguer")
      else if t[0] == '4' && VerbAt(t, j, "abandonner") then Some("abandonner")
      else None
  }

  lemma MatrixClassifies()
    ensures ClassifiesInto(MatrixHeading, MatrixKeys)
  {
    forall t | MatrixHeading(t).Some? ensures MatrixHeading(t).value in MatrixKeys {
    }
  }

  /** What `parseMatrix(rawText)` returns: always the four keys. */
  function MatrixSections(rawText: Option<string>): (m: map<string, seq<string>>)
    ensures m.Keys == MatrixKeys
  {
    MatrixClassifies();
    Parse(rawText, MatrixKeys, MatrixHeading)
  }

  /** `parseMatrix(rawText)`. */
  method ParseMatrix(rawText: Option<string>) returns (sections: map<string, seq<string>>)
    ensures sections.Keys == MatrixKeys
    ensures sections == MatrixSections(rawText)
  {
    MatrixClassifies();
    var lines := Lines(rawText);
    sections := ParseLines(lines, MatrixKeys, MatrixHeading);
  }

  // ---------------------------------------------------------------------------
  // Properties of the parser
  // ---------------------------------------------------------------------------

  /** A heading line never reads as a bullet: it starts with its number. */
  lemma MatrixHeadingIsNotBullet(t: string)
    requires MatrixHeading(t).Some?
    ensures !IsBullet(t)
  {
    NumberedIsNotBullet(t);
  }

  /** Undefined, empty or all-`=`/white-space input yields four empty lists. */
  lemma MatrixBlank(rawText: Option<string>)
    requires rawText.Some? ==> forall i :: 0 <= i < |rawText.value| ==> IsEqOrSpace(rawText.value[i])
    ensures forall k :: k in MatrixKeys ==> MatrixSections(rawText)[k] == []
  {
    MatrixClassifies();
    BlankInput(rawText, MatrixKeys, MatrixHeading);
  }

  /** The four lists together hold one bullet per bullet line after the first
      heading. */
  lemma MatrixCount(rawText: Option<string>)
    ensures Total(MatrixSections(rawText), MatrixKeyList) == BulletLineCount(Lines(rawText), false, MatrixHeading)
  {
    MatrixClassifies();
    ParseCount(rawText, MatrixKeys, MatrixHeading, MatrixKeyList);
  }

  /** A verb matches at the same places whatever the case of the letters. */
  lemma VerbCase(t: string, u: string, i: nat, verb: string)
    requires SameUpToCase(t, u)
    ensures VerbAt(t, i, verb) == VerbAt(u, i, verb)
  {
    MatchFromCase(t, u, i, verb, 0);
    if i < |t| {
      SkipSpacesCase(t, u, i + 1);
      MatchFromCase(t, u, SkipSpaces(t, i + 1), verb, 0);
    }
  }

  /** So does `déléguer`. */
  lemma DeleguerCase(t: string, u: string, i: nat)
    requires SameUpToCase(t, u)
    ensures DeleguerVerbAt(t, i) == DeleguerVerbAt(u, i)
  {
    DeleguerAtCase(t, u, i);
    if i < |t| {
      SkipSpacesCase(t, u, i + 1);
      DeleguerAtCase(t, u, SkipSpaces(t, i + 1));
    }
  }

  lemma DeleguerAtCase(t: string, u: string, i: nat)
    requires SameUpToCase(t, u)
    ensures DeleguerAt(t, i) == DeleguerAt(u, i)
  {
    if i + 4 <= |t| {
      assert Lower(t[i]) == Lower(u[i]) && Lower(t[i + 1]) == Lower(u[i + 1]);
      assert Lower(t[i + 2]) == Lower(u[i + 2]) && Lower(t[i + 3]) == Lower(u[i + 3]);
      MatchFromCase(t, u, i + 4, "guer", 0);
    }
  }

  /** A heading is recognised whatever the case of its letters. */
  lemma MatrixHeadingCase(t: string, u: string)
    requires SameUpToCase(t, u)
    ensures MatrixHeading(t) == MatrixHeading(u)
  {
    if |t| >= 2 {
      NumberedCase(t, u);
      var j := SkipSpaces(t, 2);
      VerbCase(t, u, j, "faire");
      VerbCase(t, u, j, "planifier");
      DeleguerCase(t, u, j);
      VerbCase(t, u, j, "abandonner");
    }
  }

  /** The verb may follow an accented article and white space. */
  lemma ArticleHeading()
    ensures MatrixHeading("1. \U{C0} faire :") == Some("faire")
  {
    var t := "1. \U{C0} faire :";
    assert t == ['1', '.', ' ', '\U{C0}', ' '] + "faire :";
    assert SkipSpaces(t, 2) == 3 by {
      SkipSpacesTo(t, 2, 3);
    }
    assert SkipSpaces(t, 4) == 5 by {
      SkipSpacesTo(t, 4, 5);
    }
    assert VerbAt(t, 3, "faire") by {
      assert IsA(t[3]) && MatchesAt(t, 5, "faire");
    }
  }

  /** The article may be glued to the verb, with no white space after the dot. */
  lemma GluedArticleHeading()
    ensures MatrixHeading("2.aplanifier") == Some("planifier")
  {
    var u := "2.aplanifier";
    assert u == ['2', '.', 'a'] + "planifier";
    assert SkipSpaces(u, 2) == 2 by {
      SkipSpacesTo(u, 2, 2);
    }
    assert SkipSpaces(u, 3) == 3 by {
      SkipSpacesTo(u, 3, 3);
    }
    assert VerbAt(u, 2, "planifier") by {
      assert IsA(u[2]) && MatchesAt(u, 3, "planifier");
    }
  }

  /** Both `e`s of `déléguer` may carry the accent or not, in either case. */
  lemma DeleguerHeading()
    ensures MatrixHeading("3. D\U{C9}LEGUER") == Some("deleguer")
  {
    var t := "3. D\U{C9}LEGUER";
    assert t == ['3', '.', ' '] + "D\U{C9}LEGUER";
    assert SkipSpaces(t, 2) == 3 by {
      SkipSpacesTo(t, 2, 3);
    }
    assert DeleguerAt(t, 3) by {
      assert MatchesAt(t, 7, "guer");
    }
  }

  // ---------------------------------------------------------------------------
  // Layout
  // ---------------------------------------------------------------------------

  const Width: real := 2000.0
  const Height: real := 2000.0
  const Margin: real := 120.0
  const TitleHeight: real := 180.0
  const AxisLabelSpace: real := 120.0
  const GridX: real := Margin + AxisLabelSpace
  const GridY: real := Margin + TitleHeight
  const GridW: real := Width - Margin * 2.0 - AxisLabelSpace
  const GridH: real := Height - Margin * 2.0 - TitleHeight
  const HalfW: real := GridW / 2.0
  const HalfH: real := GridH / 2.0

  function Grid(): Rect {
    Rect(GridX, GridY, GridW, GridH)
  }

  /** The quadrants À faire, À planifier, À déléguer and À abandonner, in that
      order: urgent on the left, important on top. */
  function Quadrants(): seq<Rect> {
    [ Rect(GridX, GridY, HalfW, HalfH),
      Rect(GridX + HalfW, GridY, HalfW, HalfH),
      Rect(GridX, GridY + HalfH, HalfW, HalfH),
      Rect(GridX + HalfW, GridY + HalfH, HalfW, HalfH) ]
  }

  /** The grid sits right of the axis labels and under the title, ends a
      margin before the right and bottom edges, and the four quadrants tile
      it exactly. */
  lemma MatrixLayout()
    ensures GridX == 240.0 && GridY == 300.0 && GridW == 1640.0 && GridH == 1580.0
    ensures GridX + GridW == Width - Margin && GridY + GridH == Height - Margin
    ensures |Quadrants()| == 4
    ensures Tiles(Quadrants(), Grid())
    ensures SumAreas(Quadrants()) == Area(Grid())
  {
    var qs := Quadrants();
    forall px: real, py: real | Contains(Grid(), px, py)
      ensures exists i :: 0 <= i < |qs| && Contains(qs[i], px, py)
    {
      var i := (if px < GridX + HalfW then 0 else 1) + (if py < GridY + HalfH then 0 else 2);
      assert Contains(qs[i], px, py);
    }
    assert SumAreas(qs) == Area(qs[0]) + Area(qs[1]) + Area(qs[2]) + Area(qs[3]) by {
      assert qs[1..][1..][1..][1..] == [];
    }
  }

  // ---------------------------------------------------------------------------
  // drawQuadrant
  // ---------------------------------------------------------------------------

  const LineHeight: real := 50.0
  const MaxWidth: real := HalfW - 110.0

  /** Where the first bullet of a quadrant at `y` starts: under the 48px title. */
  function FirstLine(y: real): real {
    y + 48.0 + 70.0
  }

  /** The stop rule: a bullet whose cursor is below this line is not drawn. */
  function Limit(y: real): real {
    y + HalfH - 70.0
  }

  /** The number of items the loop draws when it has already drawn `i`: it
      stops at the first item whose cursor is past `limit`, or at the end. */
  function FitFrom(items: seq<string>, i: nat, top: real, limit: real, wrap: string -> seq<string>): (n: nat)
    requires i <= |items|
    ensures i <= n <= |items|
    decreases |items| - i
  {
    if i == |items| || Top(items, i, top, LineHeight, wrap) > limit then i
    else FitFrom(items, i + 1, top, limit, wrap)
  }

  /** The stop rule draws a prefix of the list: every item before the cut
      starts at or above the limit, and the item at the cut, if there is one,
      starts below it. */
  lemma {:induction false} FitFromCut(items: seq<string>, i: nat, top: real, limit: real, wrap: string -> seq<string>)
    requires i <= |items|
    ensures var n := FitFrom(items, i, top, limit, wrap);
      && (forall j :: i <= j < n ==> Top(items, j, top, LineHeight, wrap) <= limit)
      && (n < |items| ==> Top(items, n, top, LineHeight, wrap) > limit)
    decreases |items| - i
  {
    if i < |items| && Top(items, i, top, LineHeight, wrap) <= limit {
      FitFromCut(items, i + 1, top, limit, wrap);
    }
  }

  /** How many items `drawQuadrant` draws for a quadrant at `y`. */
  function Fit(items: seq<string>, y: real, measure: string -> real): (n: nat)
    ensures n <= |items|
  {
    FitFrom(items, 0, FirstLine(y), Limit(y), Wrapper(measure, MaxWidth))
  }

  /** What `drawQuadrant(title, lines, x, y)` draws: the title at
      `(x+48, y+48)`, then the bullet list of the items that pass the stop
      rule, glyphs at `x+52` and text at `x+90`. */
  function QuadrantMarks(title: string, items: seq<string>, x: real, y: real, measure: string -> real): seq<Mark> {
    [Text(title, x + 48.0, y + 48.0)]
      + BulletList(items[..Fit(items, y, measure)], x + 52.0, x + 90.0, FirstLine(y), LineHeight, Wrapper(measure, MaxWidth))
  }

  /** `drawQuadrant`'s text: the title, then for each item, unless the cursor
      is already past the limit, the `•` glyph and `wrapLine(line)`. */
  method DrawQuadrant(title: string, lines: seq<string>, x: real, y: real, measure: string -> real)
    returns (marks: seq<Mark>)
    ensures marks == QuadrantMarks(title, lines, x, y, measure)
  {
    marks := [Text(title, x + 48.0, y + 48.0)];
    var lineHeight := LineHeight;
    var cursorY := y + 48.0 + 70.0;
    ghost var top := cursorY;
    var maxWidth := HalfW - 110.0;
    var bulletX := x + 52.0;
    var textX := x + 90.0;
    ghost var n := Fit(lines, y, measure);
    var body: seq<Mark> := [];
    var i := 0;
    while i < |lines|
      invariant i <= |lines|
      invariant FitFrom(lines, i, top, Limit(y), Wrapper(measure, maxWidth)) == n
      invariant body == BulletList(lines[..i], bulletX, textX, top, lineHeight, Wrapper(measure, maxWidth))
      invariant cursorY == Top(lines, i, top, lineHeight, Wrapper(measure, maxWidth))
    {
      if cursorY > y + HalfH - 70.0 {
        break;
      }
      var glyph := Text("\U{2022}", bulletX, cursorY);
      var drawn, next := WrapText(lines[i], measure, maxWidth, textX, cursorY, lineHeight);
      DrawItem(lines, i, body, cursorY, drawn, bulletX, textX, top, lineHeight, Wrapper(measure, maxWidth));
      CursorStep(lines, i, top, lineHeight, Wrapper(measure, maxWidth));
      body := body + [glyph] + drawn;
      cursorY := next;
      i := i + 1;
    }
    assert i == n;
    marks := marks + body;
  }

  /** The glyphs of a quadrant are those of a prefix of its items: one per
      drawn item, each on the line where its item starts, none below the
      limit; and the first item left out starts below the limit. */
  lemma QuadrantStops(title: string, items: seq<string>, x: real, y: real, measure: string -> real)
    ensures var n := Fit(items, y, measure);
      var glyphs := Column(QuadrantMarks(title, items, x, y, measure)[1..], x + 52.0);
      && |glyphs| == n
      && (forall j :: 0 <= j < n ==>
            glyphs[j] == Text("\U{2022}", x + 52.0, Top(items, j, FirstLine(y), LineHeight, Wrapper(measure, MaxWidth)))
            && glyphs[j].y <= Limit(y))
      && (n < |items| ==> Top(items, n, FirstLine(y), LineHeight, Wrapper(measure, MaxWidth)) > Limit(y))
  {
    var n := Fit(items, y, measure);
    var top := FirstLine(y);
    var glyphs := Column(QuadrantMarks(title, items, x, y, measure)[1..], x + 52.0);
    assert QuadrantMarks(title, items, x, y, measure)[1..] == BulletList(items[..n], x + 52.0, x + 90.0, top, LineHeight, Wrapper(measure, MaxWidth));
    GlyphColumn(items[..n], x + 52.0, x + 90.0, top, LineHeight, Wrapper(measure, MaxWidth));
    assert glyphs == Glyphs(items[..n], x + 52.0, top, LineHeight, Wrapper(measure, MaxWidth));
    GlyphsOfPrefix(items, n, x + 52.0, top, LineHeight, Wrapper(measure, MaxWidth));
    FitFromCut(items, 0, top, Limit(y), Wrapper(measure, MaxWidth));
  }

  /** The text of a quadrant: every wrapped line of every drawn item, in
      order, one line height apart at `x+90`. */
  lemma QuadrantText(title: string, items: seq<string>, x: real, y: real, measure: string -> real)
    ensures Column(QuadrantMarks(title, items, x, y, measure)[1..], x + 90.0)
         == Placed(AllLines(items[..Fit(items, y, measure)], Wrapper(measure, MaxWidth)), x + 90.0, FirstLine(y), LineHeight)
  {
    var drawn := items[..Fit(items, y, measure)];
    assert QuadrantMarks(title, items, x, y, measure)[1..] == BulletList(drawn, x + 52.0, x + 90.0, FirstLine(y), LineHeight, Wrapper(measure, MaxWidth));
    TextColumn(drawn, x + 52.0, x + 90.0, FirstLine(y), LineHeight, Wrapper(measure, MaxWidth));
  }

  // ---------------------------------------------------------------------------
  // drawMatrixImage
  // ---------------------------------------------------------------------------

  /** The title and the two upper axis labels (the rotated side labels are
      not modelled). */
  function Headers(): seq<Mark> {
    [ Text("Matrice Importance / Urgence", Width / 2.0, Margin + 60.0),
      Text("Urgent", GridX + HalfW / 2.0, GridY - 60.0),
      Text("Non urgent", GridX + HalfW + HalfW / 2.0, GridY - 60.0) ]
  }

  /** `drawMatrixImage(matrixText)`, as far as its text goes: the headers, then
      the four quadrants in Eisenhower order with the list of their section. */
  function MatrixImage(matrixText: Option<string>, measure: string -> real): seq<Mark> {
    var s := MatrixSections(matrixText);
    var q := Quadrants();
    Headers()
      + QuadrantMarks("\U{C0} faire", s["faire"], q[0].x, q[0].y, measure)
      + QuadrantMarks("\U{C0} planifier", s["planifier"], q[1].x, q[1].y, measure)
      + QuadrantMarks("\U{C0} d\U{E9}l\U{E9}guer", s["deleguer"], q[2].x, q[2].y, measure)
      + QuadrantMarks("\U{C0} abandonner", s["abandonner"], q[3].x, q[3].y, measure)
  }

  method DrawMatrixImage(matrixText: Option<string>, measure: string -> real) returns (marks: seq<Mark>)
    ensures marks == MatrixImage(matrixText, measure)
  {
    var s := ParseMatrix(matrixText);
    marks := Headers();
    var faire := DrawQuadrant("\U{C0} faire", s["faire"], GridX, GridY, measure);
    var planifier := DrawQuadrant("\U{C0} planifier", s["planifier"], GridX + HalfW, GridY, measure);
    var deleguer := DrawQuadrant("\U{C0} d\U{E9}l\U{E9}guer", s["deleguer"], GridX, GridY + HalfH, measure);
    var abandonner := DrawQuadrant("\U{C0} abandonner", s["abandonner"], GridX + HalfW, GridY + HalfH, measure);
    marks := marks + faire + planifier + deleguer + abandonner;
  }
}
