# swot-renderer in Dafny

This project models the logic of the three infographic renderers of
swot-renderer. They turn loosely structured French planning text into PNG
images: a SWOT analysis, an Eisenhower (importance / urgency) matrix and a
Business Model Canvas.

What is modelled:

- **The section parsers** `parseSwot` and `parseMatrix`.
  - Each normalises its input: it strips the leading run of `=` and white
    space, deletes every `\r` and splits the text on `\n`.
  - It then scans the lines with one state variable, `current`.
  - A numbered heading selects a section. A `-`/`•` bullet under a selected
    section is appended to that section. Any other line is dropped.
  - The shared loop is `Sections.ParseLines`. It is proved equal to a pure
    fold, `Sections.Run`, over `Sections.Step`.
  - Each renderer's heading regular expressions become a classifier,
    `Swot.SwotHeading` or `Matrix.MatrixHeading`. Each is written as explicit
    string tests with the case folding of a `/i` pattern.
- **The greedy word wrap** `wrapBulletLine`, `wrapLine`, and the inner loop of
  `drawBlock`. These are the same loop, modelled once as `Wrap.WrapText`.
  - It is proved against the fold `Wrap.WrapPrefix`.
  - `ctx.measureText(s).width` is a parameter `measure`, and nothing is
    assumed about it.
  - `ctx.fillText(s, x, y)` appends `Text(s, x, y)` to a log of marks.
- **The bullet loops** of `drawBox` and `drawQuadrant`. Both share one cursor
  across the items. `drawQuadrant` adds a stop rule (`Matrix.DrawQuadrant`).
  `drawBlock` prefixes each item with `"• "` (`Bmc.DrawBlock`).
- **The fixed grids**: the 2x2 SWOT boxes, the matrix grid and its quadrants,
  and the nine Business Model Canvas blocks. All are computed with exact
  reals on the source's constants.
- **`drawIcon`'s tag dispatch**.

Modules:

| module | what |
|---|---|
| `Strings` | JavaScript `\s`, `trim`, `split` on one character, `replace(/c/g, "")`, `/i` case folding |
| `Sections` | the line parser shared by `parseSwot` and `parseMatrix`, with its heading test as a parameter |
| `Canvas` | the drawn-mark log and axis-aligned rectangles |
| `Wrap` | the greedy word wrap |
| `Bullets` | the bullet loop with a shared cursor (glyph column and hanging text column) |
| `Swot`, `Matrix`, `Bmc` | one module per renderer |

The code and the design notes that accompany it disagree in two places; the
model follows the code:

- The design notes say a heading line that starts with `-` is still a
  heading. The code's heading patterns are anchored at `^N\.`, so
  `"- 1. Forces"` is a bullet (`Swot.NotHeadings`).
- The design notes say headings are matched against a copy of the line with
  diacritics stripped and white space collapsed. The code matches the line as
  trimmed. Only the accented and unaccented spellings written in each pattern
  are accepted, and white space is allowed only where a pattern has `\s*`.

## Model

| member | source | states |
|---|---|---|
| Strings.DropWhile | swotRenderer.js:8 | `replace(/^[=\s]+/, "")` removes exactly the longest leading run of the class: the result is a suffix, everything cut is in the class, and the result does not start with it |
| Strings.Trim | swotRenderer.js:23 | `trim()` returns the slice between the leading and trailing white space; it neither starts nor ends with white space |
| Strings.RemoveAll | swotRenderer.js:9 | `replace(/\r/g, "")` deletes every `\r`, keeps the count of every other character, and shortens the text by the number of `\r` |
| Strings.RemoveAllAppend | swotRenderer.js:9 | removal works character by character and keeps order: removing from a concatenation is removing from each part in turn |
| Strings.RemoveOne | swotRenderer.js:9 | a single character is dropped exactly when it is `\r` (the character removed) and kept otherwise |
| Strings.Split | swotRenderer.js:11 | `split("\n")` gives one more piece than there are separators |
| Strings.SplitPieces | swotRenderer.js:11 | no piece of a split holds the separator |
| Strings.JoinSplit | swotRenderer.js:11 | joining the pieces with the separator gives back the text (split loses nothing) |
| Strings.SkipSpaces | swotRenderer.js:26 | a `\s*` stops at the first non-white-space index, having crossed only white space |
| Strings.SkipSpacesCase | swotRenderer.js:26 | where `\s*` stops does not depend on the case of letters |
| Strings.MatchFromCase | swotRenderer.js:26 | a `/i` keyword match does not depend on the case of letters |
| Strings.SpacesThenMatch | matrixRenderer.js:37 | a greedy `\s*` in front of a literal that starts with a non-space character matches exactly when some run of white space followed by the literal does, so the greedy scan gives the regular expression's answer |
| Strings.UncasedFolds | swotRenderer.js:26 | a digit, dot or space folds only onto itself under `/i` |
| Sections.Normalise | swotRenderer.js:7-9 | the normalised text holds no `\r` and does not start with `=` or white space |
| Sections.NormaliseSplit | swotRenderer.js:7-9 | for any input made of a leading run of `=` and white space followed by text not starting with one, normalisation returns that text, in order, with only its `\r` removed |
| Sections.Lines | swotRenderer.js:11 | there is always at least one line |
| Sections.LinesClean | swotRenderer.js:7-11 | no line holds `\n` or `\r` |
| Sections.CleanInputLines | swotRenderer.js:7-11 | normalisation touches only the leading noise and `\r`: clean input is unchanged, and its lines joined with `\n` give it back |
| Sections.BlankInput | swotRenderer.js:7-18 | absent, empty or all-noise input leaves every section empty |
| Sections.NumberedCase | swotRenderer.js:26 | the `^N\.\s*` prefix reads the same digit, dot and white-space end whatever the case |
| Sections.NumberedIsNotBullet | swotRenderer.js:26-42 | a line that starts with a digit is never bullet-shaped |
| Sections.BulletShape | swotRenderer.js:42 | a line passes the bullet test exactly when a `-` or `•` marker follows white space only; that marker position is unique (the end of the leading white space) |
| Sections.StripBullet | swotRenderer.js:44 | a bullet line loses exactly its leading white space, its one marker and the white space after that marker, and the rest of the line is kept as it is; the result does not start with white space; a line that is not a bullet is kept whole |
| Sections.Step | swotRenderer.js:22-46 | one iteration keeps `current` null or a section key, and keeps the set of keys |
| Sections.StepMoves | swotRenderer.js:22-46 | one line appends its stripped bullet to section `k` exactly when it is a non-blank, non-heading bullet line while `k` is selected, and otherwise leaves `k` alone; `current` changes only on a heading |
| Sections.Run | swotRenderer.js:22-47 | the whole scan keeps the same invariant and key set |
| Sections.Initial | swotRenderer.js:13-20 | the scan starts with no section selected and every key mapped to an empty list |
| Sections.Parse | swotRenderer.js:6-50 | the result has exactly the section keys |
| Sections.ParseLines | swotRenderer.js:13-49 | the loop that reassigns `current` and pushes bullets returns the fold `Run` over the lines, with exactly the section keys |
| Sections.RunSection | swotRenderer.js:42-46 | each section ends with its earlier bullets followed by exactly the bullets addressed to it, in input order; other sections' bullets and a re-selected heading never replace it |
| Sections.RunAppend | swotRenderer.js:22-47 | scanning two blocks of lines is scanning one and then the other |
| Sections.NoHeadingNoEffect | swotRenderer.js:20-46 | before any heading, no line (bullet or noise) changes the state |
| Sections.TotalAppend | swotRenderer.js:43-45 | one push adds one bullet to the total |
| Sections.TotalInitial | swotRenderer.js:13-18 | the initial sections hold no bullet |
| Sections.RunCount | swotRenderer.js:20-47 | the scan adds exactly one bullet per non-blank, non-heading, marker-first line seen while a section is selected |
| Sections.ParseCount | swotRenderer.js:20-47 | the parser's bullets number exactly the bullet lines after the first heading |
| Swot.SwotHeading | swotRenderer.js:26-40 | the four heading patterns only ever select one of the four SWOT keys |
| Swot.SwotClassifies | swotRenderer.js:26-40 | every heading names a SWOT section |
| Swot.SwotSections | swotRenderer.js:6-50 | `parseSwot` always returns exactly forces, faiblesses, opportunites, menaces |
| Swot.ParseSwot | swotRenderer.js:6-50 | the method returns the four keys and equals the fold |
| Swot.SwotHeadingIsNotBullet | swotRenderer.js:26-46 | a heading line is never taken as a bullet |
| Swot.SwotBlank | swotRenderer.js:7-18 | undefined, empty or all-noise input gives four empty lists |
| Swot.SwotCount | swotRenderer.js:20-47 | the four lists hold one bullet per bullet line after the first heading |
| Swot.AccentedHeading | swotRenderer.js:33 | `"3. OPPORTUNITÉS"` selects opportunites (capitals and accent) |
| Swot.UnaccentedHeading | swotRenderer.js:34 | `"3.opportunites :"` selects opportunites (no accent, no space, trailing colon) |
| Swot.NotHeadings | swotRenderer.js:26-40 | `"3 Menaces"` (no dot) and `"- 1. Forces"` (marker first) are not headings |
| Swot.SwotHeadingCase | swotRenderer.js:26-40 | heading recognition ignores the case of letters |
| Swot.SwotLayout | swotRenderer.js:156-159 | the boxes of size `(2000-3·80)/2 = 880` (lines 82-84) are pairwise disjoint, inside the margins, a margin apart, and end a margin before the edges |
| Swot.DrawBox | swotRenderer.js:110-153 | `drawBox` draws its title at `(x+24, y+24)`, then the bullet list from `y+148` with glyphs at `x+32` and text at `x+60`, wrapped to `boxWidth-70` |
| Swot.BoxDrawsEverything | swotRenderer.js:150-153 | nothing is clipped: one glyph per item where the item starts, and the text column holds every wrapped line of every item, 42 apart |
| Swot.DrawSwotImage | swotRenderer.js:96-159 | the image text is the four boxes in source order, each with its section |
| Wrap.WrapText | swotRenderer.js:127-147 | the wrap loop draws exactly the lines of the fold `WrapLines`, one line height apart from the start, and leaves the cursor one line height per drawn line lower |
| Wrap.AdvanceIsProduct | swotRenderer.js:136 | `n` steps of `cursorY += lineHeight` move the cursor by `n·lineHeight` |
| Wrap.AdvanceAdd | swotRenderer.js:136 | cursor moves add up |
| Wrap.PlacedAt | swotRenderer.js:135-145 | the `i`-th drawn line is `i` line heights below the first |
| Wrap.PlacedAppend | swotRenderer.js:150-153 | lines drawn after others continue on the next line of the same cursor |
| Wrap.DrawOne | swotRenderer.js:135-136 | one `fillText` then `cursorY += lineHeight` keeps the log and cursor in step |
| Wrap.WrapPrefixShape | swotRenderer.js:131-141 | during the loop every line drawn and the line under construction are empty, a single word, or within `maxWidth` |
| Wrap.WrapShape | swotRenderer.js:127-147 | every drawn line is empty (the first word overflowed), one word, or measures at most `maxWidth` |
| Wrap.CandidateWords | swotRenderer.js:132 | `currentLine + " " + word` adds exactly that word to the line's words |
| Wrap.OverflowWords | swotRenderer.js:134-137 | a flush on overflow does not change the words read in order |
| Wrap.WrapPrefixWords | swotRenderer.js:131-141 | at every step the drawn lines then the current line hold exactly the non-empty words consumed, in order |
| Wrap.WrapKeepsWords | swotRenderer.js:127-147 | every non-empty word is drawn exactly once and in order |
| Wrap.NonEmptyAppend | swotRenderer.js:128 | dropping empty words commutes with concatenation |
| Bullets.AllLinesStep | swotRenderer.js:150-153 | the lines of one more item follow those of the items before it |
| Bullets.DrawItem | swotRenderer.js:150-153 | the loop body (glyph, then the wrapped item on the shared cursor) keeps the log equal to the bullet list of the items done |
| Bullets.CursorStep | swotRenderer.js:150-153 | after an item the cursor sits one line height lower per line of that item |
| Bullets.BulletStep | swotRenderer.js:150-153 | the glyph and lines of item `i` follow those of the earlier items, at the cursor where item `i` starts |
| Bullets.TextColumn | swotRenderer.js:150-153 | the text column holds every wrapped line of every item, in order, one line height apart, with no blank line between items (hanging indent) |
| Bullets.GlyphColumn | swotRenderer.js:151 | the glyph column holds exactly one `•` per item |
| Bullets.GlyphAt | swotRenderer.js:151 | glyph `i` is on the line where item `i` starts |
| Bullets.GlyphsOfPrefix | matrixRenderer.js:237-243 | the glyphs of the first `n` items sit where those items start in the whole list |
| Bullets.DrawLines | bmcRenderer.js:144-164 | one more item of a block continues the placed lines on the shared cursor |
| Bullets.AllLinesShape | bmcRenderer.js:144-164 | every line drawn for a list of items is empty, one word, or within `maxWidth` |
| Bullets.AllLinesKeepWords | bmcRenderer.js:144-164 | the lines of all items hold exactly the non-empty words of the items, in order |
| Bullets.TokensAppend | bmcRenderer.js:144-164 | the words of two blocks of lines are those of the first then those of the second |
| Bullets.ColumnPlaced | swotRenderer.js:135-145 | wrapped lines fall only in their own column |
| Matrix.MatrixHeading | matrixRenderer.js:37-58 | the four heading patterns only ever select one of the four matrix keys |
| Matrix.MatrixClassifies | matrixRenderer.js:37-58 | every heading names a matrix section |
| Matrix.MatrixSections | matrixRenderer.js:16-67 | `parseMatrix` always returns exactly faire, planifier, deleguer, abandonner |
| Matrix.ParseMatrix | matrixRenderer.js:16-67 | the method returns the four keys and equals the fold |
| Matrix.MatrixHeadingIsNotBullet | matrixRenderer.js:37-62 | a heading line is never taken as a bullet |
| Matrix.MatrixBlank | matrixRenderer.js:17-28 | undefined, empty or all-noise input gives four empty lists |
| Matrix.MatrixCount | matrixRenderer.js:30-64 | the four lists hold one bullet per bullet line after the first heading |
| Matrix.VerbShape | matrixRenderer.js:37 | the alternation `(à\s*V\|a\s*V\|V)` holds at an index exactly when the verb is there, or an article is there followed by white space only and then the verb |
| Matrix.DeleguerShape | matrixRenderer.js:49 | the third heading's alternation holds at an index exactly when `déléguer` in one of its spellings is there, or an article followed by white space only and then `déléguer` |
| Matrix.VerbCase | matrixRenderer.js:37 | `(à\s*V\|a\s*V\|V)` matches whatever the case of letters |
| Matrix.DeleguerAtCase | matrixRenderer.js:49 | `d[ée]l[ée]guer` matches whatever the case of letters |
| Matrix.DeleguerCase | matrixRenderer.js:49 | the `déléguer` alternatives match whatever the case of letters |
| Matrix.MatrixHeadingCase | matrixRenderer.js:37-58 | heading recognition ignores the case of letters |
| Matrix.ArticleHeading | matrixRenderer.js:37 | `"1. À faire :"` selects faire (accented article, then white space) |
| Matrix.GluedArticleHeading | matrixRenderer.js:43 | `"2.aplanifier"` selects planifier (article glued to the verb) |
| Matrix.DeleguerHeading | matrixRenderer.js:49 | `"3. DÉLEGUER"` selects deleguer (capitals, one accented `e`) |
| Matrix.MatrixLayout | matrixRenderer.js:105-115 | the grid is at (240, 300), 1640 by 1580, ends a margin before the edges, and the four quadrants tile it with areas summing to its area |
| Matrix.FitFrom | matrixRenderer.js:237-243 | the number of items drawn lies between the items already drawn and the list length |
| Matrix.FitFromCut | matrixRenderer.js:237-243 | the stop rule draws a prefix: every item before the cut starts at or above `y+halfH-70`, the first item left out starts below it |
| Matrix.Fit | matrixRenderer.js:237-243 | at most the whole list is drawn |
| Matrix.DrawQuadrant | matrixRenderer.js:199-243 | `drawQuadrant` draws its title at `(x+48, y+48)`, then the bullet list of the items before the cut, from `y+118`, glyphs at `x+52`, text at `x+90`, wrapped to `halfW-110` |
| Matrix.QuadrantStops | matrixRenderer.js:237-243 | one glyph per drawn item, each where its item starts and none below the limit; the first item left out starts below the limit |
| Matrix.QuadrantText | matrixRenderer.js:216-243 | the text column holds every wrapped line of every drawn item, in order, 50 apart |
| Matrix.DrawMatrixImage | matrixRenderer.js:128-256 | the image text is the title, the two upper axis labels, then the four quadrants in Eisenhower order |
| Bmc.IconFor | bmcRenderer.js:46-109 | a tag selects an icon only if it is that icon's `case` label |
| Bmc.IconTagRoundTrip | bmcRenderer.js:46-109 | each of the nine icons is selected by its own label; with `IconFor`, exactly nine tags draw something |
| Bmc.IconMarks | bmcRenderer.js:39-112 | `drawIcon` draws one icon or, for any other tag, nothing |
| Bmc.Prefixed | bmcRenderer.js:145 | item `i` is drawn as `"• " + item` |
| Bmc.DrawBlock | bmcRenderer.js:126-164 | `drawBlock` draws the title at `(x+20, y+20)`, the icon at `(x+w-60, y+45)`, then every prefixed item wrapped to `w-40` at `x+20` from `y+90`, on one cursor; a non-array value draws no items |
| Bmc.BlockBody | bmcRenderer.js:139-163 | line `i` of a block is at `(x+20, y+90+34·i)`; every line is empty, one word or within `w-40`; the lines hold exactly the words of the prefixed items in order (nothing clipped) |
| Bmc.NotAListDrawsNoText | bmcRenderer.js:137 | a value that is not an array draws only the title and icon |
| Bmc.BmcCover | bmcRenderer.js:182-214 | every point inside the margins lies in a block |
| Bmc.BmcRects | bmcRenderer.js:184-214 | the blocks are 568 wide and a third of 1840 high |
| Bmc.RowsDisjoint | bmcRenderer.js:195-214 | blocks laid out in these columns and rows never overlap, for any row height |
| Bmc.BmcDisjoint | bmcRenderer.js:182-214 | no two blocks overlap |
| Bmc.BmcWithin | bmcRenderer.js:182-214 | every block lies inside the margins |
| Bmc.RowsArea | bmcRenderer.js:195-214 | the blocks cover 8520 row heights of area |
| Bmc.BmcAreas | bmcRenderer.js:184-214 | the block areas sum to `innerWidth·innerHeight` |
| Bmc.BmcLayout | bmcRenderer.js:182-214 | `colWidth = 568`, three rows fill 1840, and the nine blocks tile the inner area |
| Bmc.BmcColumns | bmcRenderer.js:195-214 | partners, value and segments span two rows in columns 0, 2, 4; activities/resources and relations/channels stack in columns 1 and 3; the bottom blocks are 2.5 columns wide, adjacent, and span the inner width |
| Bmc.BmcIcons | bmcRenderer.js:202-214 | every block's tag draws an icon, no two blocks share one, and the icon centre `(x+w-60, y+45)` lies inside its block |
| Bmc.DrawBmcImage | bmcRenderer.js:182-214 | the image is the nine blocks in source order, each reading its fixed camelCase field |

## Left out

- server.js: HTTP routing, JSON body parsing, base64 encoding and the 400 replies are I/O plumbing around the renderers.
- Canvas drawing other than text and icons: `createCanvas`, background fills, `roundRect` paths, borders and separators, colours, fonts, `textAlign`/`textBaseline` and PNG encoding are calls into the canvas library.
- The line art of each icon (its strokes and `Math.PI` arcs): only which icon is drawn and where is modelled.
- The rotated "Important" / "Non important" axis labels of the matrix (matrixRenderer.js:153-163) involve a rotated coordinate frame.
- Font registration and its fallback (bmcRenderer.js:9-17) is a file-system side effect.
- `measureText` is the parameter `measure`. Nothing is assumed about it, so NaN widths and font metrics are not modelled.
- JavaScript numbers are doubles and the model uses exact reals. For example, `1840/3` is rounded in the source and exact here.
- `/i` case folding covers ASCII letters and À/à, É/é only. These are the only cased letters in the patterns, and no other character folds onto them without the `u` flag.
- Inputs that are not strings are not modelled. The parsers take an optional string; an absent value stands for `undefined`/`null`. A Business Model Canvas field is an array of strings or not an array.
- `drawBlock`'s height parameter `h` is used only by the frame, so it is dropped.
- Strings.Split: its own contract states only the piece count. What the pieces are is stated by `Strings.SplitPieces` and `Strings.JoinSplit`.
- Bullets: the wrapping routine is a parameter of the bullet-list functions. The renderers pass `Wrap.Wrapper(measure, maxWidth)`, which is `WrapLines`.
