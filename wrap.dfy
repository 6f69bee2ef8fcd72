/** The greedy word wrap the three renderers share: `wrapBulletLine`
    (swotRenderer.js), `wrapLine` (matrixRenderer.js) and the inner loop of
    `drawBlock` (bmcRenderer.js) are the same loop. The text is split on " ";
    words accumulate while the measured width of the line stays within
    `maxWidth`; on overflow the accumulated line is drawn, the cursor moves
    down one line, and the overflowing word starts the next line.

    `ctx.measureText(s).width` comes from font metrics this model cannot see:
    it is the parameter `measure`, and nothing is assumed about it. */
module Wrap {
  import opened Strings
  import opened Canvas

  /** The loop's state between two words: the lines already drawn and the
      line under construction. */
  datatype Progress = Progress(done: seq<string>, cur: string)

  /** `currentLine ? currentLine + " " + word : word`. */
  function Candidate(cur: string, word: string): string {
    if cur != "" then cur + " " + word else word
  }

  /** One iteration of the loop: on overflow the line under construction is
      drawn and `word` starts the next one; otherwise `word` joins it. */
  function WrapStep(p: Progress, word: string, measure: string -> real, maxWidth: real): Progress {
    var test := Candidate(p.cur, word);
    if measure(test) > maxWidth then Progress(p.done + [p.cur], word)
    else Progress(p.done, test)
  }

  /** The state after the loop has consumed `words`. */
  function WrapPrefix(words: seq<string>, measure: string -> real, maxWidth: real): Progress
    decreases |words|
  {
    if words == [] then Progress([], "")
    else WrapStep(WrapPrefix(words[..|words| - 1], measure, maxWidth), words[|words| - 1], measure, maxWidth)
  }

  /** The final `if (currentLine)` flush. */
  function Flush(p: Progress): seq<string> {
    if p.cur != "" then p.done + [p.cur] else p.done
  }

  /** The lines drawn for `text`. */
  function WrapLines(text: string, measure: string -> real, maxWidth: real): seq<string> {
    Flush(WrapPrefix(Split(text, ' '), measure, maxWidth))
  }

  /** The wrapping routine with its measure and width fixed, as the bullet
      loops call it: the lines drawn for one item. */
  function Wrapper(measure: string -> real, maxWidth: real): string -> seq<string> {
    t => WrapLines(t, measure, maxWidth)
  }

  /** How far the cursor moves over `n` lines: `n` times `lineHeight`, one
      `cursorY += lineHeight` at a time. */
  function Advance(n: nat, lineHeight: real): real {
    if n == 0 then 0.0 else Advance(n - 1, lineHeight) + lineHeight
  }

  /** The cursor moves by exactly `n * lineHeight` over `n` lines. */
  lemma {:induction false} AdvanceIsProduct(n: nat, lineHeight: real)
    ensures Advance(n, lineHeight) == n as real * lineHeight
  {
    if n > 0 {
      AdvanceIsProduct(n - 1, lineHeight);
      assert n as real * lineHeight == (n - 1) as real * lineHeight + lineHeight;
    }
  }

  /** Moving over `m` and then `n` lines is moving over `m + n` lines. */
  lemma {:induction false} AdvanceAdd(m: nat, n: nat, lineHeight: real)
    ensures Advance(m + n, lineHeight) == Advance(m, lineHeight) + Advance(n, lineHeight)
  {
    if n > 0 {
      AdvanceAdd(m, n - 1, lineHeight);
    }
  }

  /** `lines` drawn one under the other at `x`, the first at `y`. */
  function Placed(lines: seq<string>, x: real, y: real, lineHeight: real): (ms: seq<Mark>)
    ensures |ms| == |lines|
    decreases |lines|
  {
    if lines == [] then []
    else Placed(lines[..|lines| - 1], x, y, lineHeight) + [Text(lines[|lines| - 1], x, y + Advance(|lines| - 1, lineHeight))]
  }

  /** The `i`-th line is drawn `i` line heights below the first. */
  lemma {:induction false} PlacedAt(lines: seq<string>, x: real, y: real, lineHeight: real, i: nat)
    requires i < |lines|
    ensures Placed(lines, x, y, lineHeight)[i] == Text(lines[i], x, y + Advance(i, lineHeight))
    decreases |lines|
  {
    if i < |lines| - 1 {
      PlacedAt(lines[..|lines| - 1], x, y, lineHeight, i);
    }
  }

  /** Placing two blocks of lines is placing the second under the first. */
  lemma {:induction false} PlacedAppend(a: seq<string>, b: seq<string>, x: real, y: real, lineHeight: real)
    ensures Placed(a + b, x, y, lineHeight)
         == Placed(a, x, y, lineHeight) + Placed(b, x, y + Advance(|a|, lineHeight), lineHeight)
    decreases |b|
  {
    if b == [] {
      assert a + b == a;
    } else {
      var b' := b[..|b| - 1];
      var l := b[|b| - 1];
      assert a + b == (a + b') + [l];
      assert b == b' + [l];
      var y' := y + Advance(|a|, lineHeight);
      calc {
        Placed(a + b, x, y, lineHeight);
        { PlaceOneMore(a + b', l, x, y, lineHeight); }
        Placed(a + b', x, y, lineHeight) + [Text(l, x, y + Advance(|a| + |b'|, lineHeight))];
        { PlacedAppend(a, b', x, y, lineHeight); AdvanceAdd(|a|, |b'|, lineHeight); }
        Placed(a, x, y, lineHeight) + Placed(b', x, y', lineHeight) + [Text(l, x, y' + Advance(|b'|, lineHeight))];
        { PlaceOneMore(b', l, x, y', lineHeight); }
        Placed(a, x, y, lineHeight) + Placed(b, x, y', lineHeight);
      }
    }
  }

  /** The wrap loop: draws the lines of `text` at `x`, from `y` down, one
      `lineHeight` apart, and returns the cursor below the last line drawn. */
  method WrapText(text: string, measure: string -> real, maxWidth: real, x: real, y: real, lineHeight: real)
    returns (drawn: seq<Mark>, cursorY: real)
    ensures drawn == Placed(WrapLines(text, measure, maxWidth), x, y, lineHeight)
    ensures cursorY == y + Advance(|drawn|, lineHeight)
  {
    var words := Split(text, ' ');
    var currentLine := "";
    drawn := [];
    cursorY := y;
    ghost var done: seq<string> := [];
    for i := 0 to |words|
      invariant Progress(done, currentLine) == WrapPrefix(words[..i], measure, maxWidth)
      invariant drawn == Placed(done, x, y, lineHeight)
      invariant cursorY == y + Advance(|done|, lineHeight)
    {
      var word := words[i];
      assert words[..i + 1][..i] == words[..i];
      var test := Candidate(currentLine, word);
      if measure(test) > maxWidth {
        DrawOne(drawn, done, currentLine, x, y, cursorY, lineHeight);
        drawn := drawn + [Text(currentLine, x, cursorY)];
        done := done + [currentLine];
        cursorY := cursorY + lineHeight;
        currentLine := word;
      } else {
        currentLine := test;
      }
    }
    assert words[..|words|] == words;
    if currentLine != "" {
      DrawOne(drawn, done, currentLine, x, y, cursorY, lineHeight);
      drawn := drawn + [Text(currentLine, x, cursorY)];
      done := done + [currentLine];
      cursorY := cursorY + lineHeight;
    }
  }

  /** The loop's drawing step keeps the drawn marks and the cursor in step
      with the lines drawn. */
  lemma DrawOne(drawn: seq<Mark>, done: seq<string>, line: string, x: real, y: real, cursorY: real, lineHeight: real)
    requires drawn == Placed(done, x, y, lineHeight)
    requires cursorY == y + Advance(|done|, lineHeight)
    ensures drawn + [Text(line, x, cursorY)] == Placed(done + [line], x, y, lineHeight)
    ensures cursorY + lineHeight == y + Advance(|done + [line]|, lineHeight)
  {
    PlaceOneMore(done, line, x, y, lineHeight);
  }

  /** One more line goes one line height under the last one. */
  lemma PlaceOneMore(done: seq<string>, line: string, x: real, y: real, lineHeight: real)
    ensures Placed(done + [line], x, y, lineHeight)
         == Placed(done, x, y, lineHeight) + [Text(line, x, y + Advance(|done|, lineHeight))]
  {
    assert (done + [line])[..|done|] == done;
  }

  // ---------------------------------------------------------------------------
  // The wrap guarantee
  // ---------------------------------------------------------------------------

  /** A drawn line is one of three things: empty (the first word already
      overflowed), a single word (a word wider than `maxWidth` on its own), or a
      line whose measured width is within `maxWidth`. */
  predicate Acceptable(line: string, words: seq<string>, measure: string -> real, maxWidth: real) {
    line == "" || line in words || measure(line) <= maxWidth
  }

  /** Every line drawn so far, and the line under construction, is acceptable. */
  lemma {:induction false} WrapPrefixShape(words: seq<string>, pool: seq<string>, measure: string -> real, maxWidth: real)
    requires forall i :: 0 <= i < |words| ==> words[i] in pool
    ensures var p := WrapPrefix(words, measure, maxWidth);
      Acceptable(p.cur, pool, measure, maxWidth)
      && forall l :: l in p.done ==> Acceptable(l, pool, measure, maxWidth)
    decreases |words|
  {
    if words != [] {
      WrapPrefixShape(words[..|words| - 1], pool, measure, maxWidth);
    }
  }

  /** Every line the wrap draws is empty, one word of the text, or fits. */
  lemma WrapShape(text: string, measure: string -> real, maxWidth: real)
    ensures forall l :: l in WrapLines(text, measure, maxWidth) ==> Acceptable(l, Split(text, ' '), measure, maxWidth)
  {
    var words := Split(text, ' ');
    WrapPrefixShape(words, words, measure, maxWidth);
  }

  /** The words of a sequence of lines, in order. */
  function Tokens(lines: seq<string>): seq<string> {
    if lines == [] then [] else Tokens(lines[..|lines| - 1]) + Split(lines[|lines| - 1], ' ')
  }

  /** The non-empty strings of `ws`, in order. */
  function NonEmpty(ws: seq<string>): seq<string>
  {
    if ws == [] then [] else (if ws[0] == "" then [] else [ws[0]]) + NonEmpty(ws[1..])
  }

  lemma {:induction false} NonEmptyAppend(a: seq<string>, b: seq<string>)
    ensures NonEmpty(a + b) == NonEmpty(a) + NonEmpty(b)
  {
    if a == [] {
      assert a + b == b;
    } else {
      assert (a + b)[1..] == a[1..] + b;
      NonEmptyAppend(a[1..], b);
    }
  }

  /** The words of one more line follow the words of the lines before it. */
  lemma TokensSnoc(lines: seq<string>, line: string)
    ensures Tokens(lines + [line]) == Tokens(lines) + Split(line, ' ')
  {
    assert (lines + [line])[..|lines|] == lines;
  }

  /** Joining a word onto a line adds just that word to the line's words. */
  lemma CandidateWords(cur: string, w: string)
    requires ' ' !in w
    ensures NonEmpty(Split(Candidate(cur, w), ' ')) == NonEmpty(Split(cur, ' ')) + NonEmpty([w])
  {
    SplitWithoutSeparator(w, ' ');
    if cur != "" {
      assert Candidate(cur, w) == cur + [' '] + w;
      SplitAround(cur, w, ' ');
      NonEmptyAppend(Split(cur, ' '), [w]);
    } else {
      assert NonEmpty(Split(cur, ' ')) == NonEmpty([""]) == [];
    }
  }

  /** After any prefix of the words, the words of the lines drawn followed by
      those of the line under construction are the non-empty words consumed. */
  lemma {:induction false} WrapPrefixWords(words: seq<string>, measure: string -> real, maxWidth: real)
    requires forall i :: 0 <= i < |words| ==> ' ' !in words[i]
    ensures var p := WrapPrefix(words, measure, maxWidth);
      NonEmpty(Tokens(p.done)) + NonEmpty(Split(p.cur, ' ')) == NonEmpty(words)
    decreases |words|
  {
    if words == [] {
      assert NonEmpty(Split("", ' ')) == NonEmpty([""]) == [];
    } else {
      var init := words[..|words| - 1];
      var w := words[|words| - 1];
      var q := WrapPrefix(init, measure, maxWidth);
      var p := WrapPrefix(words, measure, maxWidth);
      assert ' ' !in w;
      assert NonEmpty(words) == NonEmpty(init) + NonEmpty([w]) by {
        assert words == init + [w];
        NonEmptyAppend(init, [w]);
      }
      WrapPrefixWords(init, measure, maxWidth);
      assert NonEmpty(Tokens(p.done)) + NonEmpty(Split(p.cur, ' '))
          == NonEmpty(Tokens(q.done)) + NonEmpty(Split(q.cur, ' ')) + NonEmpty([w]) by {
        assert p == WrapStep(q, w, measure, maxWidth);
        if measure(Candidate(q.cur, w)) > maxWidth {
          OverflowWords(q.done, q.cur, w);
        } else {
          CandidateWords(q.cur, w);
        }
      }
    }
  }

  /** On overflow, the line under construction moves to the drawn lines and
      the word starts a new one: the words read in order do not change. */
  lemma OverflowWords(done: seq<string>, cur: string, w: string)
    requires ' ' !in w
    ensures NonEmpty(Tokens(done + [cur])) + NonEmpty(Split(w, ' '))
         == NonEmpty(Tokens(done)) + NonEmpty(Split(cur, ' ')) + NonEmpty([w])
  {
    TokensSnoc(done, cur);
    NonEmptyAppend(Tokens(done), Split(cur, ' '));
    SplitWithoutSeparator(w, ' ');
  }

  /** No word is lost, duplicated or reordered: reading the drawn lines word by
      word gives the words of the text, leaving out the empty words that runs
      of spaces produce. */
  lemma WrapKeepsWords(text: string, measure: string -> real, maxWidth: real)
    ensures NonEmpty(Tokens(WrapLines(text, measure, maxWidth))) == NonEmpty(Split(text, ' '))
  {
    var p := WrapPrefix(Split(text, ' '), measure, maxWidth);
    SplitPieces(text, ' ');
    WrapPrefixWords(Split(text, ' '), measure, maxWidth);
    if p.cur != "" {
      TokensSnoc(p.done, p.cur);
      NonEmptyAppend(Tokens(p.done), Split(p.cur, ' '));
    } else {
      assert NonEmpty(Split("", ' ')) == NonEmpty([""]) == [];
    }
  }
}
