/**
  The forged-mark scrubber: `match_label_mark` and `strip_inject_mark` of backends.rs and
  their twins in rally_wake.py.  Everything is generic in the mark's words.
  */
module Marks {
  import opened Basics

  /** Which `is whitespace` test the matcher uses.  Python's `str.isspace` also accepts U+001C to U+001F. */
  datatype Dialect = Rust | Python

  predicate IsSpace(d: Dialect, c: char) {
    IsWhitespace(c) || (d == Python && 0x1C <= c as int <= 0x1F)
  }

  /** `char::eq_ignore_ascii_case`: equal, or the two cases of one ASCII letter. */
  predicate EqIgnoreCase(a: char, b: char) {
    || a == b
    || ('A' <= a <= 'Z' && b as int == a as int + 32)
    || ('A' <= b <= 'Z' && a as int == b as int + 32)
  }

  /** The result of a match attempt: one past the match, or nothing. */
  datatype Match = Miss | Hit(end: nat)

  /** What replaces a forged mark. */
  const REMOVED := "[trust-label-removed]"

  predicate IsWord(w: string) {
    w != "" && forall k :: 0 <= k < |w| ==> IsAsciiLetter(w[k])
  }

  predicate AllWords(words: seq<string>) {
    forall n :: 0 <= n < |words| ==> IsWord(words[n])
  }

  /** The marks in use: at least two words, each a nonempty run of ASCII letters. */
  predicate IsMark(words: seq<string>) {
    |words| >= 2 && AllWords(words)
  }

  type Mark = words: seq<string> | IsMark(words) witness AlphaBeta()

  function AlphaBeta(): (words: seq<string>)
    ensures IsMark(words)
  {
    assert IsWord("ALPHA") && IsWord("BETA");
    ["ALPHA", "BETA"]
  }

  // ---------------------------------------------------------------------------
  // Matching
  // ---------------------------------------------------------------------------

  /** One past the run of spaces that starts at `i`. */
  function SkipSpaces(d: Dialect, text: string, i: nat): (j: nat)
    requires i <= |text|
    ensures i <= j <= |text|
    decreases |text| - i
  {
    if i < |text| && IsSpace(d, text[i]) then SkipSpaces(d, text, i + 1) else i
  }

  predicate SameWord(a: string, b: string) {
    |a| == |b| && forall k :: 0 <= k < |a| ==> EqIgnoreCase(a[k], b[k])
  }

  predicate WordAt(text: string, i: nat, word: string) {
    i + |word| <= |text| && SameWord(text[i..i + |word|], word)
  }

  /** Matches the words from the `n`-th on, each preceded by a nonempty run of spaces. */
  function MatchRest(d: Dialect, text: string, i: nat, words: seq<string>, n: nat): (m: Match)
    requires i <= |text| && n <= |words|
    ensures m.Hit? ==> i <= m.end <= |text|
    decreases |words| - n
  {
    if n == |words| then Hit(i) else
    var j := SkipSpaces(d, text, i);
    if j == i || !WordAt(text, j, words[n]) then Miss
    else MatchRest(d, text, j + |words[n]|, words, n + 1)
  }

  /** One past the mark that starts at `start`, if one does. */
  function MatchMark(d: Dialect, text: string, start: nat, words: seq<string>): (m: Match)
    requires start <= |text| && IsMark(words)
    ensures m.Hit? ==> start < m.end <= |text|
  {
    if WordAt(text, start, words[0]) then MatchRest(d, text, start + |words[0]|, words, 1) else Miss
  }

  ghost predicate Absent(d: Dialect, text: string, words: seq<string>)
    requires IsMark(words)
  {
    forall p :: 0 <= p < |text| ==> MatchMark(d, text, p, words).Miss?
  }

  /** The inner whitespace loop of `match_label_mark`. */
  method SkipRun(d: Dialect, chars: string, start: nat) returns (i: nat)
    requires start <= |chars|
    ensures i == SkipSpaces(d, chars, start)
  {
    i := start;
    while i < |chars| && IsSpace(d, chars[i])
      invariant start <= i <= |chars|
      invariant SkipSpaces(d, chars, start) == SkipSpaces(d, chars, i)
    {
      i := i + 1;
    }
  }

  /** The inner letter loop of `match_label_mark`. */
  method MatchLetters(chars: string, start: nat, word: string) returns (ok: bool)
    requires start <= |chars|
    ensures ok == WordAt(chars, start, word)
  {
    var i := 0;
    while i < |word|
      invariant i <= |word| && start + i <= |chars|
      invariant forall k :: 0 <= k < i ==> EqIgnoreCase(chars[start + k], word[k])
    {
      if start + i >= |chars| || !EqIgnoreCase(chars[start + i], word[i]) {
        assert start + |word| <= |chars| ==> chars[start..start + |word|][i] == chars[start + i];
        return false;
      }
      i := i + 1;
    }
    return true;
  }

  /** The word loop of `match_label_mark`. */
  method MatchLabelMark(d: Dialect, chars: string, start: nat, words: seq<string>) returns (m: Match)
    requires start <= |chars| && IsMark(words)
    ensures m == MatchMark(d, chars, start, words)
  {
    var ok := MatchLetters(chars, start, words[0]);
    if !ok { return Miss; }
    var i := start + |words[0]|;
    var n := 1;
    ghost var result := MatchMark(d, chars, start, words);
    while n < |words|
      invariant 1 <= n <= |words| && start <= i <= |chars|
      invariant result == MatchRest(d, chars, i, words, n)
    {
      m := MatchNextWord(d, chars, i, words, n);
      if m.Miss? { return; }
      i, n := m.end, n + 1;
    }
    return Hit(i);
  }

  /** One round of that loop: a nonempty run of spaces and the next word. */
  method MatchNextWord(d: Dialect, chars: string, i: nat, words: seq<string>, n: nat) returns (m: Match)
    requires i <= |chars| && n < |words|
    ensures m.Miss? ==> MatchRest(d, chars, i, words, n) == Miss
    ensures m.Hit? ==>
      i <= m.end <= |chars| && MatchRest(d, chars, i, words, n) == MatchRest(d, chars, m.end, words, n + 1)
  {
    var j := SkipRun(d, chars, i);
    if j == i { return Miss; }
    var ok := MatchLetters(chars, j, words[n]);
    return if ok then Hit(j + |words[n]|) else Miss;
  }

  // ---------------------------------------------------------------------------
  // Scrubbing
  // ---------------------------------------------------------------------------

  function StripFrom(d: Dialect, text: string, i: nat, words: seq<string>): string
    requires i <= |text| && IsMark(words)
    decreases |text| - i
  {
    if i == |text| then "" else
    match MatchMark(d, text, i, words)
    case Hit(end) => REMOVED + StripFrom(d, text, end, words)
    case Miss => [text[i]] + StripFrom(d, text, i + 1, words)
  }

  function Strip(d: Dialect, text: string, words: seq<string>): string
    requires IsMark(words)
  {
    StripFrom(d, text, 0, words)
  }

  lemma Assoc(a: string, b: string, c: string)
    ensures a + (b + c) == (a + b) + c
  {
  }

  /** The index loop of `strip_inject_mark`. */
  method StripInjectMark(d: Dialect, text: string, words: seq<string>) returns (out: string)
    requires IsMark(words)
    ensures out == Strip(d, text, words)
  {
    out := "";
    var i := 0;
    while i < |text|
      invariant i <= |text|
      invariant Strip(d, text, words) == out + StripFrom(d, text, i, words)
    {
      var m := MatchLabelMark(d, text, i, words);
      match m
      case Hit(e) =>
        Assoc(out, REMOVED, StripFrom(d, text, e, words));
        out := out + REMOVED;
        i := e;
      case Miss =>
        Assoc(out, [text[i]], StripFrom(d, text, i + 1, words));
        out := out + [text[i]];
        i := i + 1;
    }
  }

  // ---------------------------------------------------------------------------
  // What a match looks like
  // ---------------------------------------------------------------------------

  /** Characters a match can cover: spaces and ASCII letters, so never a bracket or a hyphen. */
  predicate MarkChar(d: Dialect, c: char) {
    IsSpace(d, c) || IsAsciiLetter(c)
  }

  lemma {:induction false} SkipShape(d: Dialect, text: string, i: nat)
    requires i <= |text|
    ensures forall k :: i <= k < SkipSpaces(d, text, i) ==> IsSpace(d, text[k])
    ensures SkipSpaces(d, text, i) < |text| ==> !IsSpace(d, text[SkipSpaces(d, text, i)])
    decreases |text| - i
  {
    if i < |text| && IsSpace(d, text[i]) { SkipShape(d, text, i + 1); }
  }

  lemma WordIsLetters(text: string, i: nat, word: string)
    requires WordAt(text, i, word) && IsWord(word)
    ensures forall k :: i <= k < i + |word| ==> IsAsciiLetter(text[k])
  {
    forall k | i <= k < i + |word| ensures IsAsciiLetter(text[k]) {
      assert EqIgnoreCase(text[i..i + |word|][k - i], word[k - i]) && IsAsciiLetter(word[k - i]);
    }
  }

  lemma {:induction false} RestShape(d: Dialect, text: string, i: nat, words: seq<string>, n: nat)
    requires i <= |text| && n <= |words| && AllWords(words)
    requires MatchRest(d, text, i, words, n).Hit?
    ensures forall k :: i <= k < MatchRest(d, text, i, words, n).end ==> MarkChar(d, text[k])
    ensures n < |words| ==> i < MatchRest(d, text, i, words, n).end && IsSpace(d, text[i])
    decreases |words| - n
  {
    if n < |words| {
      var j := SkipSpaces(d, text, i);
      SkipShape(d, text, i);
      WordIsLetters(text, j, words[n]);
      RestShape(d, text, j + |words[n]|, words, n + 1);
    }
  }

  /** A match covers only mark characters, starts on a letter and holds a space right after its first word. */
  lemma MatchShape(d: Dialect, text: string, p: nat, words: seq<string>)
    requires p <= |text| && IsMark(words) && MatchMark(d, text, p, words).Hit?
    ensures forall k :: p <= k < MatchMark(d, text, p, words).end ==> MarkChar(d, text[k])
    ensures IsAsciiLetter(text[p])
    ensures p + |words[0]| < MatchMark(d, text, p, words).end && IsSpace(d, text[p + |words[0]|])
  {
    WordIsLetters(text, p, words[0]);
    RestShape(d, text, p + |words[0]|, words, 1);
  }

  /** The `n` characters of `b` from `j` are those of `a` from `i`. */
  ghost predicate SameSpan(a: string, i: nat, b: string, j: nat, n: nat) {
    i + n <= |a| && j + n <= |b| && a[i..i + n] == b[j..j + n]
  }

  lemma SameChars(a: string, i: nat, b: string, j: nat, n: nat)
    requires SameSpan(a, i, b, j, n)
    ensures forall k :: j <= k < j + n ==> b[k] == a[k - j + i]
  {
    forall k | j <= k < j + n ensures b[k] == a[k - j + i] {
      assert b[k] == b[j..j + n][k - j] && a[k - j + i] == a[i..i + n][k - j];
    }
  }

  predicate EndsAt(m: Match, end: nat) {
    m.Hit? && m.end == end
  }

  lemma {:induction false} RestLocal(d: Dialect, a: string, i: nat, b: string, j: nat, words: seq<string>, n: nat,
      len: nat)
    requires SameSpan(a, i, b, j, len)
    requires n <= |words| && AllWords(words) && EndsAt(MatchRest(d, a, i, words, n), i + len)
    ensures EndsAt(MatchRest(d, b, j, words, n), j + len)
    decreases |words| - n
  {
    if n < |words| {
      var s := StepAcross(d, a, i, b, j, words, n, len);
      var p, q, left := s + |words[n]|, j + (s - i) + |words[n]|, i + len - (s + |words[n]|);
      assert p + left == i + len && q + left == j + len;
      RestLocal(d, a, p, b, q, words, n + 1, left);
    }
  }

  /** One step of a match, which moves with its text: the next word stands at `s`. */
  lemma StepAcross(d: Dialect, a: string, i: nat, b: string, j: nat, words: seq<string>, n: nat, len: nat)
      returns (s: nat)
    requires SameSpan(a, i, b, j, len)
    requires n < |words| && AllWords(words) && EndsAt(MatchRest(d, a, i, words, n), i + len)
    ensures i < s && s + |words[n]| <= i + len
    ensures SameSpan(a, s + |words[n]|, b, j + (s - i) + |words[n]|, i + len - (s + |words[n]|))
    ensures EndsAt(MatchRest(d, a, s + |words[n]|, words, n + 1), i + len)
    ensures MatchRest(d, b, j, words, n) == MatchRest(d, b, j + (s - i) + |words[n]|, words, n + 1)
  {
    assert IsWord(words[n]);
    s := RestOpens(d, a, i, words, n);
    SpanBehind(a, i, b, j, len, s, |words[n]|);
    MatchBehind(d, a, i, b, j, words, n, len, s);
  }

  lemma SpanBehind(a: string, i: nat, b: string, j: nat, len: nat, s: nat, w: nat)
    requires SameSpan(a, i, b, j, len) && i <= s && s + w <= i + len
    ensures SameSpan(a, s + w, b, j + (s - i) + w, i + len - (s + w))
  {
    SubSpan(a, i, b, j, len, s - i + w, len - (s - i + w));
  }

  lemma MatchBehind(d: Dialect, a: string, i: nat, b: string, j: nat, words: seq<string>, n: nat, len: nat, s: nat)
    requires SameSpan(a, i, b, j, len) && n < |words| && IsWord(words[n])
    requires NextWord(d, a, i, s, words[n]) && s + |words[n]| <= i + len
    ensures MatchRest(d, b, j, words, n) == MatchRest(d, b, j + (s - i) + |words[n]|, words, n + 1)
  {
    WordMoved(d, a, i, b, j, words[n], len, s);
    RestGoesOn(d, b, j, words, n, j + (s - i));
  }

  /** The spaces from `i` on end at `s`, where `word` stands. */
  predicate NextWord(d: Dialect, text: string, i: nat, s: nat, word: string) {
    i < s <= |text| && s == SkipSpaces(d, text, i) && WordAt(text, s, word)
  }

  /** A match of the remaining words begins with a nonempty run of spaces and the next word. */
  lemma RestOpens(d: Dialect, text: string, i: nat, words: seq<string>, n: nat) returns (s: nat)
    requires i <= |text| && n < |words| && MatchRest(d, text, i, words, n).Hit?
    ensures NextWord(d, text, i, s, words[n]) && s + |words[n]| <= MatchRest(d, text, i, words, n).end
    ensures EndsAt(MatchRest(d, text, s + |words[n]|, words, n + 1), MatchRest(d, text, i, words, n).end)
  {
    s := SkipSpaces(d, text, i);
  }

  lemma RestGoesOn(d: Dialect, text: string, i: nat, words: seq<string>, n: nat, s: nat)
    requires i <= |text| && n < |words| && NextWord(d, text, i, s, words[n])
    ensures MatchRest(d, text, i, words, n) == MatchRest(d, text, s + |words[n]|, words, n + 1)
  {
  }

  lemma WordMoved(d: Dialect, a: string, i: nat, b: string, j: nat, word: string, len: nat, s: nat)
    requires SameSpan(a, i, b, j, len) && IsWord(word) && NextWord(d, a, i, s, word) && s + |word| <= i + len
    ensures NextWord(d, b, j, j + (s - i), word)
  {
    SkipMoved(d, a, i, b, j, len, word);
    SubSpan(a, i, b, j, len, s - i, |word|);
  }

  lemma SubSpan(a: string, i: nat, b: string, j: nat, n: nat, from: nat, len: nat)
    requires SameSpan(a, i, b, j, n) && from + len <= n
    ensures SameSpan(a, i + from, b, j + from, len)
  {
    SameChars(a, i, b, j, n);
    assert a[i + from..i + from + len] == b[j + from..j + from + len];
  }

  lemma SkipMoved(d: Dialect, a: string, i: nat, b: string, j: nat, n: nat, word: string)
    requires SameSpan(a, i, b, j, n) && IsWord(word)
    requires var s := SkipSpaces(d, a, i); WordAt(a, s, word) && s + |word| <= i + n
    ensures SkipSpaces(d, b, j) == j + (SkipSpaces(d, a, i) - i)
  {
    var s := SkipSpaces(d, a, i);
    var t := j + (s - i);
    SameChars(a, i, b, j, n);
    SkipShape(d, a, i);
    WordIsLetters(a, s, word);
    assert b[t] == a[s];
    forall k | j <= k < t ensures IsSpace(d, b[k]) {
      assert b[k] == a[k - j + i];
    }
    SkipIs(d, b, j, t);
  }

  lemma {:induction false} SkipIs(d: Dialect, text: string, i: nat, j: nat)
    requires i <= j < |text| && !IsSpace(d, text[j])
    requires forall k :: i <= k < j ==> IsSpace(d, text[k])
    ensures SkipSpaces(d, text, i) == j
    decreases j - i
  {
    if i < j { SkipIs(d, text, i + 1, j); }
  }

  /** Matching looks at nothing outside the span it covers. */
  lemma MatchLocal(d: Dialect, a: string, p: nat, b: string, q: nat, words: seq<string>, n: nat)
    requires SameSpan(a, p, b, q, n)
    requires IsMark(words) && EndsAt(MatchMark(d, a, p, words), p + n)
    ensures EndsAt(MatchMark(d, b, q, words), q + n)
  {
    var w := |words[0]|;
    SubSpan(a, p, b, q, n, 0, w);
    SubSpan(a, p, b, q, n, w, n - w);
    RestLocal(d, a, p + w, b, q + w, words, 1, n - w);
  }

  // ---------------------------------------------------------------------------
  // No mark survives scrubbing
  // ---------------------------------------------------------------------------

  /** Output that does not open with a replacement opens with a copied character. */
  lemma CopiesFirst(d: Dialect, text: string, i: nat, words: seq<string>)
    requires i <= |text| && IsMark(words)
    requires StripFrom(d, text, i, words) != "" && StripFrom(d, text, i, words)[0] != '['
    ensures i < |text| && StripFrom(d, text, i, words) == [text[i]] + StripFrom(d, text, i + 1, words)
  {
    assert REMOVED[0] == '[';
  }

  lemma OneMore(text: string, i: nat, rest: string, n: nat)
    requires 0 < n && i + n <= |text| && n - 1 <= |rest| && rest[..n - 1] == text[i + 1..i + n]
    ensures ([text[i]] + rest)[..n] == text[i..i + n]
  {
  }

  /** Scrubbed output that shows no `[` is an unbroken copy of the input. */
  lemma {:induction false} CopiedPrefix(d: Dialect, text: string, i: nat, words: seq<string>, n: nat)
    requires i <= |text| && IsMark(words) && n <= |StripFrom(d, text, i, words)|
    requires forall k :: 0 <= k < n ==> StripFrom(d, text, i, words)[k] != '['
    ensures i + n <= |text| && StripFrom(d, text, i, words)[..n] == text[i..i + n]
    decreases |text| - i
  {
    if n > 0 {
      CopiesFirst(d, text, i, words);
      var out, rest := StripFrom(d, text, i, words), StripFrom(d, text, i + 1, words);
      assert forall k :: 0 <= k < n - 1 ==> rest[k] == out[k + 1];
      CopiedPrefix(d, text, i + 1, words, n - 1);
      OneMore(text, i, rest, n);
    }
  }

  /** The replacement text holds no space, so no mark of two words starts inside it. */
  lemma NoMatchInsideRemoved(d: Dialect, rest: string, q: nat, words: seq<string>)
    requires IsMark(words) && q < |REMOVED|
    ensures MatchMark(d, REMOVED + rest, q, words).Miss?
  {
    var out := REMOVED + rest;
    assert forall k :: 0 <= k < |REMOVED| ==> out[k] == REMOVED[k] && !IsSpace(d, out[k]);
    assert out[|REMOVED| - 1] == ']';
    if MatchMark(d, out, q, words).Hit? { MatchShape(d, out, q, words); }
  }

  /**
    The heart of the scrubber: if every position the scrub copies is free of `other`, then so is the
    whole output.  Nothing is created by joining, nor by the replacement text.
    */
  lemma {:induction false} StripKeepsAbsent(d: Dialect, text: string, i: nat, words: seq<string>, other: seq<string>,
      q: nat)
    requires i <= |text| && IsMark(words) && IsMark(other)
    requires forall p :: i <= p < |text| && MatchMark(d, text, p, words).Miss? ==> MatchMark(d, text, p, other).Miss?
    requires q < |StripFrom(d, text, i, words)|
    ensures MatchMark(d, StripFrom(d, text, i, words), q, other).Miss?
    decreases |text| - i
  {
    if MatchMark(d, text, i, words).Hit? {
      var end := MatchMark(d, text, i, words).end;
      if q < |REMOVED| {
        NoMatchInsideRemoved(d, StripFrom(d, text, end, words), q, other);
      } else {
        StripKeepsAbsent(d, text, end, words, other, q - |REMOVED|);
        AbsentShifted(d, REMOVED, StripFrom(d, text, end, words), q, other);
      }
    } else if q > 0 {
      StripKeepsAbsent(d, text, i + 1, words, other, q - 1);
      AbsentShifted(d, [text[i]], StripFrom(d, text, i + 1, words), q, other);
    } else {
      CopiedHeadAbsent(d, text, i, words, other);
    }
  }

  /** Where the scrub copies a character, the output matches no more than the input does. */
  lemma CopiedHeadAbsent(d: Dialect, text: string, i: nat, words: seq<string>, other: seq<string>)
    requires i < |text| && IsMark(words) && IsMark(other)
    requires MatchMark(d, text, i, other).Miss?
    ensures MatchMark(d, StripFrom(d, text, i, words), 0, other).Miss?
  {
    var out := StripFrom(d, text, i, words);
    if MatchMark(d, out, 0, other).Hit? {
      var n := MatchMark(d, out, 0, other).end;
      MatchShape(d, out, 0, other);
      CopiedPrefix(d, text, i, words, n);
      assert out[0..0 + n] == out[..n];
      MatchLocal(d, out, 0, text, i, other, n);
    }
  }

  lemma AbsentShifted(d: Dialect, prefix: string, rest: string, q: nat, words: seq<string>)
    requires IsMark(words) && |prefix| <= q <= |prefix + rest|
    requires MatchMark(d, rest, q - |prefix|, words).Miss?
    ensures MatchMark(d, prefix + rest, q, words).Miss?
  {
    if MatchMark(d, prefix + rest, q, words).Hit? { Shifted(d, prefix, rest, q, words); }
  }

  /** A match that starts past a prefix is a match of what follows the prefix. */
  lemma Shifted(d: Dialect, prefix: string, rest: string, q: nat, words: seq<string>)
    requires IsMark(words) && |prefix| <= q <= |prefix + rest|
    requires MatchMark(d, prefix + rest, q, words).Hit?
    ensures EndsAt(MatchMark(d, rest, q - |prefix|, words), MatchMark(d, prefix + rest, q, words).end - |prefix|)
  {
    var out := prefix + rest;
    var n := MatchMark(d, out, q, words).end - q;
    assert SameSpan(out, q, rest, q - |prefix|, n);
    MatchLocal(d, out, q, rest, q - |prefix|, words, n);
  }

  /** Scrubbing removes its own mark and brings back no mark that was already absent. */
  lemma StripRemoves(d: Dialect, text: string, words: seq<string>)
    requires IsMark(words)
    ensures Absent(d, Strip(d, text, words), words)
  {
    forall q | 0 <= q < |Strip(d, text, words)| ensures MatchMark(d, Strip(d, text, words), q, words).Miss? {
      StripKeepsAbsent(d, text, 0, words, words, q);
    }
  }

  lemma StripKeepsOthersAbsent(d: Dialect, text: string, words: seq<string>, other: seq<string>)
    requires IsMark(words) && IsMark(other) && Absent(d, text, other)
    ensures Absent(d, Strip(d, text, words), other)
  {
    forall q | 0 <= q < |Strip(d, text, words)| ensures MatchMark(d, Strip(d, text, words), q, other).Miss? {
      StripKeepsAbsent(d, text, 0, words, other, q);
    }
  }

  lemma {:induction false} StripOfAbsent(d: Dialect, text: string, i: nat, words: seq<string>)
    requires i <= |text| && IsMark(words) && Absent(d, text, words)
    ensures StripFrom(d, text, i, words) == text[i..]
    decreases |text| - i
  {
    if i < |text| {
      StripOfAbsent(d, text, i + 1, words);
      assert text[i..] == [text[i]] + text[i + 1..];
    }
  }

  /** Scrubbing changes a text exactly when the text carries the mark. */
  lemma StripIdentity(d: Dialect, text: string, words: seq<string>)
    requires IsMark(words)
    ensures Strip(d, text, words) == text <==> Absent(d, text, words)
  {
    StripRemoves(d, text, words);
    if Absent(d, text, words) {
      StripOfAbsent(d, text, 0, words);
      assert text[0..] == text;
    }
  }

  /** A second scrub finds nothing to do. */
  lemma StripIdempotent(d: Dialect, text: string, words: seq<string>)
    requires IsMark(words)
    ensures Strip(d, Strip(d, text, words), words) == Strip(d, text, words)
  {
    StripRemoves(d, text, words);
    StripIdentity(d, Strip(d, text, words), words);
  }

  /** Every character of scrubbed text was in the input or is in the replacement. */
  lemma {:induction false} StripChars(d: Dialect, text: string, i: nat, words: seq<string>, c: char)
    requires i <= |text| && IsMark(words) && c in StripFrom(d, text, i, words)
    ensures c in text || c in REMOVED
    decreases |text| - i
  {
    if i < |text| {
      match MatchMark(d, text, i, words)
      case Hit(end) =>
        if c !in REMOVED { StripChars(d, text, end, words, c); }
      case Miss =>
        if c != text[i] { StripChars(d, text, i + 1, words, c); }
    }
  }

  // ---------------------------------------------------------------------------
  // What counts as an occurrence, said without the matcher
  // ---------------------------------------------------------------------------

  function Lower(c: char): char {
    if 'A' <= c <= 'Z' then (c as int + 32) as char else c
  }

  predicate IsBlank(d: Dialect, c: char) {
    || c as int in {0x09, 0x0A, 0x0B, 0x0C, 0x0D, 0x20, 0x85, 0xA0, 0x1680, 0x2028, 0x2029, 0x202F, 0x205F, 0x3000}
    || 0x2000 <= c as int <= 0x200A
    || (d == Python && c as int in {0x1C, 0x1D, 0x1E, 0x1F})
  }

  /** `word` stands at `i` in any mix of cases. */
  predicate Spells(text: string, i: nat, word: string) {
    i + |word| <= |text| && forall k :: 0 <= k < |word| ==> Lower(text[i + k]) == Lower(word[k])
  }

  /** A nonempty run of blanks from `i` to `j`. */
  predicate Gap(d: Dialect, text: string, i: nat, j: nat) {
    i < j <= |text| && forall k :: i <= k < j ==> IsBlank(d, text[k])
  }

  /** The words from the `n`-th on stand in a row, each behind a gap, and end at `end`. */
  ghost predicate Follows(d: Dialect, text: string, i: nat, words: seq<string>, n: nat, end: nat)
    requires n <= |words|
    decreases |words| - n
  {
    if n == |words| then i == end else
    exists j: nat ::
      && Gap(d, text, i, j) && Spells(text, j, words[n])
      && Follows(d, text, j + |words[n]|, words, n + 1, end)
  }

  lemma BlankIsSpace(d: Dialect, c: char)
    ensures IsBlank(d, c) == IsSpace(d, c)
    ensures IsAsciiLetter(Lower(c)) ==> !IsSpace(d, c)
  {
  }

  lemma SpellsIsWordAt(text: string, i: nat, word: string)
    requires IsWord(word)
    ensures Spells(text, i, word) == WordAt(text, i, word)
  {
    if i + |word| <= |text| {
      var piece := text[i..i + |word|];
      assert forall k :: 0 <= k < |word| ==> piece[k] == text[i + k];
    }
  }

  lemma {:induction false} FollowsMatches(d: Dialect, text: string, i: nat, words: seq<string>, n: nat, end: nat)
    requires i <= |text| && n <= |words| && AllWords(words) && Follows(d, text, i, words, n, end)
    ensures EndsAt(MatchRest(d, text, i, words, n), end)
    decreases |words| - n
  {
    if n < |words| {
      var j := NextFollows(d, text, i, words, n, end);
      RestGoesOn(d, text, i, words, n, j);
      FollowsMatches(d, text, j + |words[n]|, words, n + 1, end);
    }
  }

  lemma NextFollows(d: Dialect, text: string, i: nat, words: seq<string>, n: nat, end: nat) returns (j: nat)
    requires i <= |text| && n < |words| && AllWords(words) && Follows(d, text, i, words, n, end)
    ensures NextWord(d, text, i, j, words[n]) && j + |words[n]| <= |text|
    ensures Follows(d, text, j + |words[n]|, words, n + 1, end)
  {
    j :|
      && Gap(d, text, i, j) && Spells(text, j, words[n])
      && Follows(d, text, j + |words[n]|, words, n + 1, end);
    GapIsSkip(d, text, i, words[n], j);
  }

  lemma {:induction false} MatchFollows(d: Dialect, text: string, i: nat, words: seq<string>, n: nat, end: nat)
    requires i <= |text| && n <= |words| && AllWords(words) && EndsAt(MatchRest(d, text, i, words, n), end)
    ensures Follows(d, text, i, words, n, end)
    decreases |words| - n
  {
    if n < |words| {
      var s := RestOpens(d, text, i, words, n);
      SkippedIsGap(d, text, i);
      SpellsIsWordAt(text, s, words[n]);
      MatchFollows(d, text, s + |words[n]|, words, n + 1, end);
    }
  }

  lemma SkippedIsGap(d: Dialect, text: string, i: nat)
    requires i <= |text| && SkipSpaces(d, text, i) > i
    ensures Gap(d, text, i, SkipSpaces(d, text, i))
  {
    SkipShape(d, text, i);
    forall k | i <= k < SkipSpaces(d, text, i) ensures IsBlank(d, text[k]) {
      BlankIsSpace(d, text[k]);
    }
  }

  lemma GapIsSkip(d: Dialect, text: string, i: nat, word: string, j: nat)
    requires Gap(d, text, i, j) && Spells(text, j, word) && IsWord(word)
    ensures SkipSpaces(d, text, i) == j && WordAt(text, j, word)
  {
    forall k | i <= k < j ensures IsSpace(d, text[k]) {
      BlankIsSpace(d, text[k]);
    }
    BlankIsSpace(d, text[j]);
    assert Lower(text[j]) == Lower(word[0]) && IsAsciiLetter(word[0]);
    SkipIs(d, text, i, j);
    SpellsIsWordAt(text, j, word);
  }

  /** The matcher hits exactly where the words stand in a row, in any case, with blanks between them. */
  lemma MatchIsOccurrence(d: Dialect, text: string, p: nat, words: seq<string>, end: nat)
    requires p <= |text| && IsMark(words)
    ensures EndsAt(MatchMark(d, text, p, words), end)
       <==> Spells(text, p, words[0]) && Follows(d, text, p + |words[0]|, words, 1, end)
  {
    assert IsWord(words[0]);
    SpellsIsWordAt(text, p, words[0]);
    if WordAt(text, p, words[0]) {
      var i := p + |words[0]|;
      if Follows(d, text, i, words, 1, end) { FollowsMatches(d, text, i, words, 1, end); }
      if EndsAt(MatchRest(d, text, i, words, 1), end) { MatchFollows(d, text, i, words, 1, end); }
    }
  }

  /** Scrubbing replaces the first occurrence, whole and by exactly this text, and scrubs on behind it. */
  lemma StripCuts(d: Dialect, text: string, p: nat, words: seq<string>)
    requires p <= |text| && IsMark(words) && MatchMark(d, text, p, words).Hit?
    requires forall q :: 0 <= q < p ==> MatchMark(d, text, q, words).Miss?
    ensures var end := MatchMark(d, text, p, words).end;
      Strip(d, text, words) == text[..p] + ("[trust-label-removed]" + Strip(d, text[end..], words))
  {
    var end := MatchMark(d, text, p, words).end;
    MatchLong(d, text, p, words);
    StripsTo(d, text, 0, p, words);
    StripBehind(d, text, end, text[end..], end, words);
  }

  lemma MatchLong(d: Dialect, text: string, p: nat, words: seq<string>)
    requires p <= |text| && IsMark(words) && MatchMark(d, text, p, words).Hit?
    ensures p < |text| && MatchMark(d, text, p, words).end <= |text|
  {
  }

  lemma {:induction false} StripsTo(d: Dialect, text: string, i: nat, p: nat, words: seq<string>)
    requires i <= p <= |text| && IsMark(words)
    requires forall q :: i <= q < p ==> MatchMark(d, text, q, words).Miss?
    ensures StripFrom(d, text, i, words) == text[i..p] + StripFrom(d, text, p, words)
    decreases p - i
  {
    if i < p {
      StripsTo(d, text, i + 1, p, words);
      assert text[i..p] == [text[i]] + text[i + 1..p];
      Assoc([text[i]], text[i + 1..p], StripFrom(d, text, p, words));
    }
  }

  /** What stands before a position does not matter to the scrub behind it. */
  lemma {:induction false} StripBehind(d: Dialect, text: string, cut: nat, rest: string, i: nat, words: seq<string>)
    requires cut <= i <= |text| && rest == text[cut..] && IsMark(words)
    ensures StripFrom(d, text, i, words) == StripFrom(d, rest, i - cut, words)
    decreases |text| - i
  {
    if i < |text| {
      MatchBehindCut(d, text, cut, i, words);
      var next := if MatchMark(d, text, i, words).Hit? then MatchMark(d, text, i, words).end else i + 1;
      StripBehind(d, text, cut, rest, next, words);
      assert next - cut == if MatchMark(d, rest, i - cut, words).Hit? then MatchMark(d, rest, i - cut, words).end
                           else i - cut + 1;
      SameStep(d, text, i, rest, i - cut, words);
    }
  }

  lemma SameStep(d: Dialect, a: string, i: nat, b: string, j: nat, words: seq<string>)
    requires i < |a| && j < |b| && a[i] == b[j] && IsMark(words)
    requires MatchMark(d, a, i, words).Miss? ==>
      MatchMark(d, b, j, words).Miss? && StripFrom(d, a, i + 1, words) == StripFrom(d, b, j + 1, words)
    requires MatchMark(d, a, i, words).Hit? ==>
      && MatchMark(d, b, j, words).Hit?
      && StripFrom(d, a, MatchMark(d, a, i, words).end, words) == StripFrom(d, b, MatchMark(d, b, j, words).end, words)
    ensures StripFrom(d, a, i, words) == StripFrom(d, b, j, words)
  {
  }

  lemma MatchBehindCut(d: Dialect, text: string, cut: nat, i: nat, words: seq<string>)
    requires cut <= i < |text| && IsMark(words)
    ensures MatchMark(d, text, i, words).Miss? ==> MatchMark(d, text[cut..], i - cut, words).Miss?
    ensures MatchMark(d, text, i, words).Hit?
      ==> MatchMark(d, text[cut..], i - cut, words) == Hit(MatchMark(d, text, i, words).end - cut)
  {
    var rest := text[cut..];
    if MatchMark(d, text, i, words).Hit? {
      var n := MatchMark(d, text, i, words).end - i;
      assert text[i..i + n] == rest[i - cut..i - cut + n];
      MatchLocal(d, text, i, rest, i - cut, words, n);
    }
    if MatchMark(d, rest, i - cut, words).Hit? {
      var n := MatchMark(d, rest, i - cut, words).end - (i - cut);
      assert text[i..i + n] == rest[i - cut..i - cut + n];
      MatchLocal(d, rest, i - cut, text, i, words, n);
    }
  }
}
