/** String primitives the renderers borrow from JavaScript: the `\s` class and
    `String.prototype.trim`, `String.prototype.split` on one character,
    `replace(/c/g, "")`, and the case folding of a `/i` regular expression. */
module Strings {

  datatype Option<T> = None | Some(value: T)

  /** ECMAScript WhiteSpace and LineTerminator: the characters `\s` matches and
      `trim` removes. */
  predicate IsJsSpace(c: char) {
    c == '\t' || c == '\n' || c == '\U{B}' || c == '\U{C}' || c == '\r' || c == ' '
    || c == '\U{A0}' || c == '\U{1680}' || ('\U{2000}' <= c <= '\U{200A}')
    || c == '\U{2028}' || c == '\U{2029}' || c == '\U{202F}' || c == '\U{205F}'
    || c == '\U{3000}' || c == '\U{FEFF}'
  }

  /** The character class `[=\s]` of the leading-noise pattern `/^[=\s]+/`. */
  predicate IsEqOrSpace(c: char) {
    c == '=' || IsJsSpace(c)
  }

  /** `s` without its longest prefix of characters satisfying `p`
      (`s.replace(/^[p]+/, "")`). */
  function DropWhile(s: string, p: char -> bool): (r: string)
    ensures |r| <= |s| && r == s[|s| - |r|..]
    ensures forall i :: 0 <= i < |s| - |r| ==> p(s[i])
    ensures r == "" || !p(r[0])
  {
    if s != "" && p(s[0]) then
      var r := DropWhile(s[1..], p);
      assert s[1..][|s| - 1 - |r|..] == s[|s| - |r|..];
      r
    else s
  }

  /** `s.trimStart()`, also the effect of a leading `\s*` in a pattern. */
  function TrimStart(s: string): (r: string)
    ensures |r| <= |s| && r == s[|s| - |r|..]
    ensures forall i :: 0 <= i < |s| - |r| ==> IsJsSpace(s[i])
    ensures r == "" || !IsJsSpace(r[0])
  {
    if s != "" && IsJsSpace(s[0]) then
      var r := TrimStart(s[1..]);
      assert s[1..][|s| - 1 - |r|..] == s[|s| - |r|..];
      r
    else s
  }

  /** `s.trimEnd()`. */
  function TrimEnd(s: string): (r: string)
    ensures |r| <= |s| && r == s[..|r|]
    ensures forall i :: |r| <= i < |s| ==> IsJsSpace(s[i])
    ensures r == "" || !IsJsSpace(r[|r| - 1])
  {
    if s != "" && IsJsSpace(s[|s| - 1]) then TrimEnd(s[..|s| - 1]) else s
  }

  /** `s.trim()`: the result is the slice of `s` left after cutting the white
      space off both ends, and it neither starts nor ends with white space. */
  function Trim(s: string): (r: string)
    ensures |r| <= |s|
    ensures var lead := |s| - |TrimStart(s)|;
      lead + |r| <= |s| && r == s[lead..lead + |r|]
      && (forall j :: lead + |r| <= j < |s| ==> IsJsSpace(s[j]))
    ensures r == "" || (!IsJsSpace(r[0]) && !IsJsSpace(r[|r| - 1]))
  {
    var t := TrimStart(s);
    var r := TrimEnd(t);
    TrimParts(s, t, r);
    r
  }

  /** A suffix `t` of `s`, cut down to a prefix `r` whose tail is white space. */
  lemma TrimParts(s: string, t: string, r: string)
    requires |t| <= |s| && t == s[|s| - |t|..]
    requires |r| <= |t| && r == t[..|r|]
    requires forall i :: |r| <= i < |t| ==> IsJsSpace(t[i])
    ensures var lead := |s| - |t|;
      lead + |r| <= |s| && r == s[lead..lead + |r|]
      && (forall j :: lead + |r| <= j < |s| ==> IsJsSpace(s[j]))
  {
    var lead := |s| - |t|;
    forall j | lead + |r| <= j < |s|
      ensures IsJsSpace(s[j])
    {
      assert s[j] == t[j - lead];
    }
  }

  /** The number of times `c` occurs in `s`. */
  function Occurrences(s: string, c: char): nat {
    if s == "" then 0 else (if s[0] == c then 1 else 0) + Occurrences(s[1..], c)
  }

  /** `s.replace(/c/g, "")`: every `c` is deleted, every other character kept. */
  function RemoveAll(s: string, c: char): (r: string)
    ensures c !in r
    ensures forall x :: x != c ==> Occurrences(r, x) == Occurrences(s, x)
    ensures |r| == |s| - Occurrences(s, c)
  {
    if s == "" then ""
    else
      var rest := RemoveAll(s[1..], c);
      if s[0] == c then rest
      else
        assert ([s[0]] + rest)[1..] == rest;
        [s[0]] + rest
  }

  /** `replace(/c/g, "")` keeps the other characters in order: removing from
      two strings and concatenating is removing from their concatenation
      (and `RemoveOne`: a single character is dropped exactly when it is `c`). */
  lemma {:induction false} RemoveAllAppend(a: string, b: string, c: char)
    ensures RemoveAll(a + b, c) == RemoveAll(a, c) + RemoveAll(b, c)
    decreases |a|
  {
    if a != "" {
      assert (a + b)[0] == a[0] && (a + b)[1..] == a[1..] + b;
      RemoveAllAppend(a[1..], b, c);
    } else {
      assert a + b == b;
    }
  }

  /** A single character is dropped exactly when it is `c`. */
  lemma RemoveOne(x: char, c: char)
    ensures RemoveAll([x], c) == if x == c then "" else [x]
  {
    assert [x][1..] == "";
  }

  /** `s.split(c)` for a one-character separator: one piece more than there
      are separators (`SplitPieces`: none of them contains the separator). */
  function Split(s: string, c: char): (r: seq<string>)
    ensures |r| == Occurrences(s, c) + 1
  {
    if s == "" then [""]
    else
      var rest := Split(s[1..], c);
      if s[0] == c then [""] + rest
      else [[s[0]] + rest[0]] + rest[1..]
  }

  /** `parts.join(c)`. */
  function Join(parts: seq<string>, c: char): string {
    if parts == [] then ""
    else if |parts| == 1 then parts[0]
    else parts[0] + [c] + Join(parts[1..], c)
  }

  /** No piece of a split contains the separator. */
  lemma {:induction false} SplitPieces(s: string, c: char)
    ensures forall i :: 0 <= i < |Split(s, c)| ==> c !in Split(s, c)[i]
  {
    if s != "" {
      var rest := Split(s[1..], c);
      SplitPieces(s[1..], c);
      if s[0] != c {
        assert Split(s, c) == [[s[0]] + rest[0]] + rest[1..];
        assert c !in [s[0]] + rest[0];
      } else {
        assert Split(s, c) == [""] + rest;
      }
    }
  }

  /** Joining the pieces of a split with the same separator gives back the string. */
  lemma {:induction false} JoinSplit(s: string, c: char)
    ensures Join(Split(s, c), c) == s
  {
    if s != "" {
      var rest := Split(s[1..], c);
      JoinSplit(s[1..], c);
      if s[0] == c {
        assert Split(s, c) == [""] + rest;
        JoinCons("", rest, c);
      } else {
        assert Split(s, c) == [[s[0]] + rest[0]] + rest[1..];
        JoinFront([s[0]], rest, c);
      }
      assert s == [s[0]] + s[1..];
    }
  }

  /** Prepending text to the first piece prepends it to the joined string. */
  lemma JoinFront(a: string, parts: seq<string>, c: char)
    requires parts != []
    ensures Join([a + parts[0]] + parts[1..], c) == a + Join(parts, c)
  {
    JoinCons(a + parts[0], parts[1..], c);
    JoinCons(parts[0], parts[1..], c);
    assert parts == [parts[0]] + parts[1..];
  }

  /** Join of a piece in front of other pieces. */
  lemma JoinCons(p: string, parts: seq<string>, c: char)
    ensures Join([p] + parts, c) == if parts == [] then p else p + [c] + Join(parts, c)
  {
    assert ([p] + parts)[1..] == parts;
  }

  /** Splitting at a separator splits the two sides independently. */
  lemma {:induction false} SplitAround(a: string, b: string, c: char)
    ensures Split(a + [c] + b, c) == Split(a, c) + Split(b, c)
  {
    if a == "" {
      assert a + [c] + b == [c] + b;
      assert ([c] + b)[1..] == b;
    } else {
      assert (a + [c] + b)[1..] == a[1..] + [c] + b;
      SplitAround(a[1..], b, c);
    }
  }

  /** A string without the separator splits into itself. */
  lemma {:induction false} SplitWithoutSeparator(w: string, c: char)
    requires c !in w
    ensures Split(w, c) == [w]
  {
    if w != "" {
      assert w == [w[0]] + w[1..];
      SplitWithoutSeparator(w[1..], c);
    }
  }

  /** The case folding a `/i` pattern without the `u` flag applies, restricted
      to the letters the renderers' patterns use: ASCII letters and À, É. No
      other character folds onto one of these, so the restriction is exact for
      those patterns. */
  function Lower(c: char): char {
    if 'A' <= c <= 'Z' then (c as int + 32) as char
    else if c == '\U{C0}' then '\U{E0}'
    else if c == '\U{C9}' then '\U{E9}'
    else c
  }

  /** Where a `\s*` that starts at index `i` of `s` stops: the first index at
      or after `i` that does not hold white space, or `|s|`. */
  function SkipSpaces(s: string, i: nat): (j: nat)
    requires i <= |s|
    ensures i <= j <= |s|
    ensures forall k :: i <= k < j ==> IsJsSpace(s[k])
    ensures j == |s| || !IsJsSpace(s[j])
    decreases |s| - i
  {
    if i < |s| && IsJsSpace(s[i]) then SkipSpaces(s, i + 1) else i
  }

  /** Only white space lies between indices `i` and `e` of `s`. */
  predicate SpacesBetween(s: string, i: nat, e: nat) {
    i <= e <= |s| && forall k :: i <= k < e ==> IsJsSpace(s[k])
  }

  /** A `\s*` stops at the first character after a run of white space. */
  lemma SkipSpacesTo(s: string, i: nat, e: nat)
    requires SpacesBetween(s, i, e)
    requires e == |s| || !IsJsSpace(s[e])
    ensures SkipSpaces(s, i) == e
  {
  }

  /** From its `k`-th character on, `p` occurs in `s` at index `i + k`, letters
      compared case-insensitively. */
  predicate MatchFrom(s: string, i: nat, p: string, k: nat)
    decreases |p| - k
  {
    k >= |p| || (i + k < |s| && Lower(s[i + k]) == Lower(p[k]) && MatchFrom(s, i, p, k + 1))
  }

  /** `p` occurs in `s` at index `i`, letters compared case-insensitively: the
      `/p/i` part of a pattern, matched at a fixed position. */
  predicate MatchesAt(s: string, i: nat, p: string) {
    MatchFrom(s, i, p, 0)
  }

  /** A greedy `\s*` in front of a literal that starts with a non-space
      character (as in `a\s*faire`) matches exactly when some run of white
      space followed by the literal does: the greedy stop is the only place
      the literal can start, so no backtracking is ever needed. */
  lemma SpacesThenMatch(s: string, i: nat, p: string)
    requires i <= |s| && p != "" && !IsJsSpace(p[0])
    ensures MatchesAt(s, SkipSpaces(s, i), p) <==> exists e: nat :: SpacesBetween(s, i, e) && MatchesAt(s, e, p)
  {
    var j := SkipSpaces(s, i);
    assert SpacesBetween(s, i, j);
    forall e: nat | SpacesBetween(s, i, e) && MatchesAt(s, e, p)
      ensures e == j
    {
      assert e < |s| && Lower(s[e]) == Lower(p[0]);
      SkipSpacesTo(s, i, e);
    }
  }

  /** The characters `Lower` changes or produces. */
  predicate IsCased(c: char) {
    ('A' <= c <= 'Z') || ('a' <= c <= 'z') || c == '\U{C0}' || c == '\U{E0}' || c == '\U{C9}' || c == '\U{E9}'
  }

  /** `t` and `u` differ at most in the case of their letters. */
  predicate SameUpToCase(t: string, u: string) {
    |t| == |u| && forall i :: 0 <= i < |t| ==> Lower(t[i]) == Lower(u[i])
  }

  /** A character without case equals every character it folds together with. */
  lemma UncasedFolds(c: char, d: char)
    requires !IsCased(c) && Lower(c) == Lower(d)
    ensures c == d
  {
  }

  /** A `\s*` stops at the same index whatever the case of the letters. */
  lemma {:induction false} SkipSpacesCase(t: string, u: string, i: nat)
    requires SameUpToCase(t, u) && i <= |t|
    ensures SkipSpaces(t, i) == SkipSpaces(u, i)
    decreases |t| - i
  {
    if i < |t| {
      if IsJsSpace(t[i]) {
        UncasedFolds(t[i], u[i]);
        SkipSpacesCase(t, u, i + 1);
      } else if IsJsSpace(u[i]) {
        UncasedFolds(u[i], t[i]);
      }
    }
  }

  /** A case-insensitive match does not depend on the case of the letters. */
  lemma {:induction false} MatchFromCase(t: string, u: string, i: nat, p: string, k: nat)
    requires SameUpToCase(t, u)
    ensures MatchFrom(t, i, p, k) == MatchFrom(u, i, p, k)
    decreases |p| - k
  {
    if k < |p| {
      MatchFromCase(t, u, i, p, k + 1);
    }
  }
}
