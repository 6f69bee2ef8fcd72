/** The line-based section parser behind `parseSwot` (swotRenderer.js) and
    `parseMatrix` (matrixRenderer.js). Both normalise the raw text the same
    way and run the same loop over its lines; they differ only in the heading
    patterns, which each renderer passes in as a classifier: a function that
    maps a trimmed line to `Some(key)` when it is the heading of section `key`. */
module Sections {
  import opened Strings

  /** The parser between two lines: the section bullets currently go to
      (`current`, `null` in the source) and the sections object built so far. */
  datatype State = State(current: Option<string>, sections: map<string, seq<string>>)

  /** Every heading the classifier recognises names one of `keys`. */
  ghost predicate ClassifiesInto(heading: string -> Option<string>, keys: set<string>) {
    forall t :: heading(t).Some? ==> heading(t).value in keys
  }

  /** The state invariant: `current` is null or one of the section keys, and the
      classifier only ever selects section keys. */
  ghost predicate Good(st: State, heading: string -> Option<string>) {
    && (st.current.Some? ==> st.current.value in st.sections)
    && ClassifiesInto(heading, st.sections.Keys)
  }

  /** `(rawText || "").replace(/^[=\s]+/, "").replace(/\r/g, "")`. An absent
      input (`undefined`, `null`) is `None`. */
  function Normalise(raw: Option<string>): (txt: string)
    ensures '\r' !in txt
    ensures txt == "" || !IsEqOrSpace(txt[0])
  {
    var s := if raw.Some? then raw.value else "";
    var body := DropWhile(s, IsEqOrSpace);
    var txt := RemoveAll(body, '\r');
    assert body != "" ==> txt == [body[0]] + RemoveAll(body[1..], '\r');
    txt
  }

  /** Normalisation removes the leading run of `=` and white space, whatever
      it is, and then only the `\r` characters: the rest of the text is kept
      in order. */
  lemma NormaliseSplit(noise: string, rest: string)
    requires forall i :: 0 <= i < |noise| ==> IsEqOrSpace(noise[i])
    requires rest == "" || !IsEqOrSpace(rest[0])
    ensures Normalise(Some(noise + rest)) == RemoveAll(rest, '\r')
  {
    var s := noise + rest;
    var r := DropWhile(s, IsEqOrSpace);
    assert forall i :: 0 <= i < |noise| ==> s[i] == noise[i];
    assert rest != "" ==> s[|noise|] == rest[0];
    assert r != "" ==> r[0] == s[|s| - |r|];
    assert |r| == |rest|;
    assert r == s[|noise|..] == rest;
  }

  /** The lines the parser scans: `txt.split("\n")`; there is always at least one. */
  function Lines(raw: Option<string>): (lines: seq<string>)
    ensures |lines| >= 1
  {
    Split(Normalise(raw), '\n')
  }

  /** No line holds a line break: every `\r` is gone and the split removed the `\n`. */
  lemma LinesClean(raw: Option<string>, i: nat)
    requires i < |Lines(raw)|
    ensures '\n' !in Lines(raw)[i] && '\r' !in Lines(raw)[i]
  {
    SplitPieces(Normalise(raw), '\n');
    SplitAbsent(Normalise(raw), '\n', '\r', i);
  }

  /** A character absent from a string is absent from every piece of its split. */
  lemma {:induction false} SplitAbsent(s: string, c: char, x: char, i: nat)
    requires x !in s
    requires i < |Split(s, c)|
    ensures x !in Split(s, c)[i]
  {
    if s != "" {
      var rest := Split(s[1..], c);
      if s[0] == c {
        if i > 0 {
          SplitAbsent(s[1..], c, x, i - 1);
        }
      } else {
        SplitAbsent(s[1..], c, x, i);
        if i == 0 {
          assert x != s[0];
        }
      }
    }
  }

  /** The `^N\.\s*` prefix of a heading pattern reads the same whatever the
      case of the letters: the same digit, the same dot, and the white space
      after them ends at the same index. */
  lemma NumberedCase(t: string, u: string)
    requires SameUpToCase(t, u) && |t| >= 2
    ensures (t[1] == '.') == (u[1] == '.')
    ensures ('0' <= t[0] <= '9' || '0' <= u[0] <= '9') ==> t[0] == u[0]
    ensures SkipSpaces(t, 2) == SkipSpaces(u, 2)
  {
    if t[1] == '.' { UncasedFolds(t[1], u[1]); }
    if u[1] == '.' { UncasedFolds(u[1], t[1]); }
    if '0' <= t[0] <= '9' { UncasedFolds(t[0], u[0]); }
    if '0' <= u[0] <= '9' { UncasedFolds(u[0], t[0]); }
    SkipSpacesCase(t, u, 2);
  }

  /** A line that starts with a digit is not bullet-shaped: heading lines and
      bullet lines are told apart by their first character. */
  lemma NumberedIsNotBullet(t: string)
    requires t != "" && '0' <= t[0] <= '9'
    ensures !IsBullet(t)
  {
    assert !IsJsSpace(t[0]);
    assert SkipSpaces(t, 0) == 0;
  }

  /** The character class `[-•]` of the bullet pattern. */
  predicate IsMarker(c: char) {
    c == '-' || c == '\U{2022}'
  }

  /** `t[m]` is a marker with only white space before it: `/^\s*[-•]/`
      matches with its `\s*` covering `t[..m]`. */
  predicate BulletAt(t: string, m: nat) {
    m < |t| && IsMarker(t[m]) && forall i :: 0 <= i < m ==> IsJsSpace(t[i])
  }

  /** `/^\s*[-•]/.test(t)`: after its leading white space the line starts
      with a `-` or `•` marker. */
  predicate IsBullet(t: string) {
    var m := SkipSpaces(t, 0);
    m < |t| && IsMarker(t[m])
  }

  /** `IsBullet` is the bullet pattern: the line is a bullet exactly when a
      marker follows white space only. A marker is not white space, so that
      white space is the line's whole leading run and the marker has one
      place. */
  lemma BulletShape(t: string)
    ensures IsBullet(t) <==> exists m: nat :: BulletAt(t, m)
    ensures forall m: nat :: BulletAt(t, m) ==> m == SkipSpaces(t, 0)
  {
    forall m: nat | BulletAt(t, m)
      ensures m == SkipSpaces(t, 0)
    {
      SkipSpacesTo(t, 0, m);
    }
    if IsBullet(t) {
      assert BulletAt(t, SkipSpaces(t, 0));
    }
  }

  /** `t.replace(/^\s*[-•]\s*\/, "")`: a bullet line loses exactly its
      leading white space, its one marker and the white space after that
      marker; the rest of the line is kept as it is. Any other line is kept
      whole. */
  function StripBullet(t: string): (b: string)
    ensures !IsBullet(t) ==> b == t
    ensures IsBullet(t) ==>
      exists m: nat :: && BulletAt(t, m) && m < |t| - |b| && b == t[|t| - |b|..]
                       && (forall i :: m < i < |t| - |b| ==> IsJsSpace(t[i]))
    ensures b == "" || !IsBullet(t) || !IsJsSpace(b[0])
  {
    if IsBullet(t) then
      var m := SkipSpaces(t, 0);
      assert BulletAt(t, m);
      t[SkipSpaces(t, m + 1)..]
    else t
  }

  /** One iteration of the source's `for (const line of lines)` loop. */
  function Step(st: State, line: string, heading: string -> Option<string>): (st': State)
    requires Good(st, heading)
    ensures Good(st', heading) && st'.sections.Keys == st.sections.Keys
  {
    var t := Trim(line);
    if t == "" then st
    else if heading(t).Some? then st.(current := heading(t))
    else if IsBullet(t) && st.current.Some? then
      var k := st.current.value;
      st.(sections := st.sections[k := st.sections[k] + [StripBullet(t)]])
    else st
  }

  /** The whole loop: the state after scanning `lines` from `st`. */
  function Run(lines: seq<string>, st: State, heading: string -> Option<string>): (st': State)
    requires Good(st, heading)
    ensures Good(st', heading) && st'.sections.Keys == st.sections.Keys
    decreases |lines|
  {
    if lines == [] then st else Run(lines[1..], Step(st, lines[0], heading), heading)
  }

  /** The sections object the source starts from: every key with an empty list. */
  function Initial(keys: set<string>): (st: State)
    ensures st.current.None? && st.sections.Keys == keys
    ensures forall k :: k in keys ==> st.sections[k] == []
  {
    State(None, map k | k in keys :: [])
  }

  /** The parser's result for a raw input. */
  function Parse(raw: Option<string>, keys: set<string>, heading: string -> Option<string>): (m: map<string, seq<string>>)
    requires ClassifiesInto(heading, keys)
    ensures m.Keys == keys
  {
    Run(Lines(raw), Initial(keys), heading).sections
  }

  /** The loop of `parseSwot` / `parseMatrix` over the normalised lines. */
  method ParseLines(lines: seq<string>, keys: set<string>, heading: string -> Option<string>)
    returns (sections: map<string, seq<string>>)
    requires ClassifiesInto(heading, keys)
    ensures sections.Keys == keys
    ensures sections == Run(lines, Initial(keys), heading).sections
  {
    sections := map k | k in keys :: [];
    var current: Option<string> := None;
    for i := 0 to |lines|
      invariant Good(State(current, sections), heading) && sections.Keys == keys
      invariant Run(lines[i..], State(current, sections), heading) == Run(lines, Initial(keys), heading)
    {
      assert lines[i..][1..] == lines[i + 1..];
      var trimmed := Trim(lines[i]);
      if trimmed == "" {
        continue;
      }
      var h := heading(trimmed);
      if h.Some? {
        current := h;
        continue;
      }
      if IsBullet(trimmed) && current.Some? {
        sections := sections[current.value := sections[current.value] + [StripBullet(trimmed)]];
      }
    }
  }

  // ---------------------------------------------------------------------------
  // Properties of the parser
  // ---------------------------------------------------------------------------

  /** The bullets section `k` receives from `lines` when the scan starts with
      `cur` selected: a reference definition that follows one section only. */
  function SectionBullets(lines: seq<string>, cur: Option<string>, k: string, heading: string -> Option<string>): seq<string>
    decreases |lines|
  {
    if lines == [] then []
    else
      var t := Trim(lines[0]);
      if t == "" then SectionBullets(lines[1..], cur, k, heading)
      else if heading(t).Some? then SectionBullets(lines[1..], heading(t), k, heading)
      else if IsBullet(t) && cur == Some(k) then [StripBullet(t)] + SectionBullets(lines[1..], cur, k, heading)
      else SectionBullets(lines[1..], cur, k, heading)
  }

  /** Each section ends up with the bullets it already had followed by exactly
      the bullets addressed to it, in input order; what other sections receive
      does not affect it. In particular nothing is ever replaced: a repeated
      heading re-selects its section and later bullets go after the existing ones. */
  lemma {:induction false} RunSection(lines: seq<string>, st: State, heading: string -> Option<string>, k: string)
    requires Good(st, heading) && k in st.sections
    ensures Run(lines, st, heading).sections[k] == st.sections[k] + SectionBullets(lines, st.current, k, heading)
    decreases |lines|
  {
    if lines != [] {
      RunSection(lines[1..], Step(st, lines[0], heading), heading, k);
      StepSection(lines, st, heading, k);
    }
  }

  /** One line moves into section `k` exactly what `SectionBullets` takes
      from it, and selects the same section. */
  lemma StepSection(lines: seq<string>, st: State, heading: string -> Option<string>, k: string)
    requires lines != [] && Good(st, heading) && k in st.sections
    ensures var st1 := Step(st, lines[0], heading);
      st1.sections[k] + SectionBullets(lines[1..], st1.current, k, heading)
      == st.sections[k] + SectionBullets(lines, st.current, k, heading)
  {
    var st1 := Step(st, lines[0], heading);
    var moved := if Feeds(lines[0], st.current, k, heading) then [StripBullet(Trim(lines[0]))] else [];
    var later := SectionBullets(lines[1..], Selects(lines[0], st.current, heading), k, heading);
    assert st1.sections[k] == st.sections[k] + moved && st1.current == Selects(lines[0], st.current, heading) by {
      StepMoves(st, lines[0], heading, k);
    }
    assert SectionBullets(lines, st.current, k, heading) == moved + later by {
      SectionBulletsHead(lines, st.current, k, heading);
    }
    AppendAssoc(st.sections[k], moved, later);
  }

  lemma AppendAssoc(a: seq<string>, b: seq<string>, c: seq<string>)
    ensures (a + b) + c == a + (b + c)
  {
  }

  /** `line` is a bullet for section `k` while `cur` is selected. */
  predicate Feeds(line: string, cur: Option<string>, k: string, heading: string -> Option<string>) {
    var t := Trim(line);
    t != "" && heading(t).None? && IsBullet(t) && cur == Some(k)
  }

  /** The section a line leaves selected. */
  function Selects(line: string, cur: Option<string>, heading: string -> Option<string>): Option<string> {
    var t := Trim(line);
    if t != "" && heading(t).Some? then heading(t) else cur
  }

  /** What one iteration does to section `k` and to `current`. */
  lemma StepMoves(st: State, line: string, heading: string -> Option<string>, k: string)
    requires Good(st, heading) && k in st.sections
    ensures var st1 := Step(st, line, heading);
      && st1.sections[k] == st.sections[k] + (if Feeds(line, st.current, k, heading) then [StripBullet(Trim(line))] else [])
      && st1.current == Selects(line, st.current, heading)
  {
  }

  /** The first step of `SectionBullets`. */
  lemma SectionBulletsHead(lines: seq<string>, cur: Option<string>, k: string, heading: string -> Option<string>)
    requires lines != []
    ensures SectionBullets(lines, cur, k, heading)
      == (if Feeds(lines[0], cur, k, heading) then [StripBullet(Trim(lines[0]))] else [])
         + SectionBullets(lines[1..], Selects(lines[0], cur, heading), k, heading)
  {
  }

  /** Scanning two blocks of lines is scanning the first and then the second. */
  lemma {:induction false} RunAppend(l1: seq<string>, l2: seq<string>, st: State, heading: string -> Option<string>)
    requires Good(st, heading)
    ensures Run(l1 + l2, st, heading) == Run(l2, Run(l1, st, heading), heading)
    decreases |l1|
  {
    if l1 != [] {
      assert (l1 + l2)[0] == l1[0];
      assert (l1 + l2)[1..] == l1[1..] + l2;
      RunAppend(l1[1..], l2, Step(st, l1[0], heading), heading);
    } else {
      assert l1 + l2 == l2;
    }
  }

  /** Lines before the first heading change nothing: with no section selected, a
      bullet is dropped, and noise is always dropped. */
  lemma {:induction false} NoHeadingNoEffect(lines: seq<string>, st: State, heading: string -> Option<string>)
    requires Good(st, heading) && st.current.None?
    requires forall i :: 0 <= i < |lines| ==> heading(Trim(lines[i])).None?
    ensures Run(lines, st, heading) == st
    decreases |lines|
  {
    if lines != [] {
      assert heading(Trim(lines[0])).None?;
      assert Step(st, lines[0], heading) == st;
      NoHeadingNoEffect(lines[1..], st, heading);
    }
  }

  /** `ks` lists distinct keys. */
  predicate Distinct(ks: seq<string>) {
    forall i, j :: 0 <= i < j < |ks| ==> ks[i] != ks[j]
  }

  /** The number of bullets in the sections listed by `ks`. */
  function Total(m: map<string, seq<string>>, ks: seq<string>): nat {
    if ks == [] then 0 else (if ks[0] in m then |m[ks[0]]| else 0) + Total(m, ks[1..])
  }

  /** Appending one bullet to one listed section adds one to the total. */
  lemma {:induction false} TotalAppend(m: map<string, seq<string>>, ks: seq<string>, k: string, b: string)
    requires Distinct(ks) && k in m
    ensures Total(m[k := m[k] + [b]], ks) == Total(m, ks) + (if k in ks then 1 else 0)
  {
    if ks != [] {
      assert k in ks[1..] <==> k in ks && k != ks[0] by {
        if k in ks[1..] {
          var j :| 0 <= j < |ks[1..]| && ks[1..][j] == k;
          assert ks[j + 1] == k;
        }
        if k in ks && k != ks[0] {
          var j :| 0 <= j < |ks| && ks[j] == k;
          assert ks[1..][j - 1] == k;
        }
      }
      TotalAppend(m, ks[1..], k, b);
    }
  }

  /** How many of `lines` are bullet lines that come after a heading (`active`
      says whether one was already seen): non-blank, not a heading, marker first. */
  function BulletLineCount(lines: seq<string>, active: bool, heading: string -> Option<string>): nat
    decreases |lines|
  {
    if lines == [] then 0
    else
      var t := Trim(lines[0]);
      if t == "" then BulletLineCount(lines[1..], active, heading)
      else if heading(t).Some? then BulletLineCount(lines[1..], true, heading)
      else (if active && IsBullet(t) then 1 else 0) + BulletLineCount(lines[1..], active, heading)
  }

  /** Every bullet line after the first heading yields exactly one bullet: the
      total number of bullets grows by the number of such lines. */
  lemma {:induction false} RunCount(lines: seq<string>, st: State, heading: string -> Option<string>, ks: seq<string>)
    requires Good(st, heading) && Distinct(ks)
    requires forall k :: k in st.sections <==> k in ks
    ensures Total(Run(lines, st, heading).sections, ks)
         == Total(st.sections, ks) + BulletLineCount(lines, st.current.Some?, heading)
    decreases |lines|
  {
    if lines != [] {
      var st1 := Step(st, lines[0], heading);
      var t := Trim(lines[0]);
      if t != "" && heading(t).None? && IsBullet(t) && st.current.Some? {
        TotalAppend(st.sections, ks, st.current.value, StripBullet(t));
      }
      RunCount(lines[1..], st1, heading, ks);
    }
  }

  /** An absent, empty or all-noise input (only `=` and white space) parses to
      every section empty. */
  lemma BlankInput(raw: Option<string>, keys: set<string>, heading: string -> Option<string>)
    requires ClassifiesInto(heading, keys)
    requires raw.Some? ==> forall i :: 0 <= i < |raw.value| ==> IsEqOrSpace(raw.value[i])
    ensures forall k :: k in keys ==> Parse(raw, keys, heading)[k] == []
  {
    var s := if raw.Some? then raw.value else "";
    var body := DropWhile(s, IsEqOrSpace);
    assert body == "";
    assert Normalise(raw) == "";
    assert Lines(raw) == [""];
    assert Trim("") == "";
    var st := Initial(keys);
    assert Step(st, "", heading) == st;
    assert Run([""], st, heading) == Run([], st, heading);
  }

  /** Normalisation removes only the leading `=`/white-space run and the `\r`
      characters: an input that has neither comes back unchanged, one line per
      `\n`-separated piece. */
  lemma CleanInputLines(raw: string)
    requires raw == "" || !IsEqOrSpace(raw[0])
    requires '\r' !in raw
    ensures Normalise(Some(raw)) == raw
    ensures Join(Lines(Some(raw)), '\n') == raw
  {
    RemoveAbsent(raw, '\r');
    JoinSplit(raw, '\n');
  }

  /** Removing a character that does not occur changes nothing. */
  lemma {:induction false} RemoveAbsent(s: string, c: char)
    requires c !in s
    ensures RemoveAll(s, c) == s
  {
    if s != "" {
      RemoveAbsent(s[1..], c);
    }
  }

  /** The sections object the source starts from holds no bullet. */
  lemma {:induction false} TotalInitial(keys: set<string>, ks: seq<string>)
    ensures Total(Initial(keys).sections, ks) == 0
  {
    if ks != [] {
      TotalInitial(keys, ks[1..]);
    }
  }

  /** The parser returns exactly as many bullets as the normalised input has
      bullet lines after its first heading. */
  lemma ParseCount(raw: Option<string>, keys: set<string>, heading: string -> Option<string>, ks: seq<string>)
    requires ClassifiesInto(heading, keys) && Distinct(ks)
    requires forall k :: k in keys <==> k in ks
    ensures Total(Parse(raw, keys, heading), ks) == BulletLineCount(Lines(raw), false, heading)
  {
    TotalInitial(keys, ks);
    RunCount(Lines(raw), Initial(keys), heading, ks);
  }
}
