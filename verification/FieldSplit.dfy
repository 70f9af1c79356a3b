/** `split_tmux_fields` of backends.rs: one probe reply, three possible separators, an exact field count. */
module FieldSplit {
  import opened Basics

  const FIELD_SEP := ":::rally:::"
  const FIELD_STEM := ":::rally"
  const TAB := "\t"
  const UNDERSCORE := "_"

  // ---------------------------------------------------------------------------
  // str::contains, str::split and str::trim_matches
  // ---------------------------------------------------------------------------

  predicate At(s: string, k: nat, sep: string) {
    k + |sep| <= |s| && s[k..k + |sep|] == sep
  }

  /** The leftmost occurrence of `sep` from `k` on, or `|s|` when there is none. */
  function Find(s: string, sep: string, k: nat): (r: nat)
    requires sep != "" && k <= |s|
    ensures k <= r <= |s|
    ensures r < |s| ==> At(s, r, sep)
    decreases |s| - k
  {
    if k == |s| || At(s, k, sep) then k else Find(s, sep, k + 1)
  }

  predicate Contains(s: string, sep: string)
    requires sep != ""
  {
    Find(s, sep, 0) < |s|
  }

  lemma {:induction false} FindIsLeftmost(s: string, sep: string, k: nat, i: nat)
    requires sep != "" && k <= i && At(s, i, sep)
    ensures Find(s, sep, k) <= i
    decreases i - k
  {
    if !At(s, k, sep) { FindIsLeftmost(s, sep, k + 1, i); }
  }

  lemma ContainsAt(s: string, sep: string, k: nat)
    requires sep != "" && At(s, k, sep)
    ensures Contains(s, sep)
  {
    FindIsLeftmost(s, sep, 0, k);
  }

  function Split(s: string, sep: string): (parts: seq<string>)
    requires sep != ""
    ensures parts != []
    decreases |s|
  {
    var k := Find(s, sep, 0);
    if k == |s| then [s] else [s[..k]] + Split(s[k + |sep|..], sep)
  }

  predicate IsEdge(c: char) {
    c == '\n' || c == '\r' || c == ' '
  }

  function TrimStart(s: string): string {
    if s != "" && IsEdge(s[0]) then TrimStart(s[1..]) else s
  }

  function TrimEnd(s: string): string {
    if s != "" && IsEdge(s[|s| - 1]) then TrimEnd(s[..|s| - 1]) else s
  }

  function Trim(s: string): string {
    TrimEnd(TrimStart(s))
  }

  predicate AllEdge(s: string) {
    forall k :: 0 <= k < |s| ==> s[k] in "\n\r "
  }

  /** Line breaks and spaces come off both ends, and nothing else does. */
  lemma {:induction false} TrimIs(left: string, line: string, right: string)
    requires AllEdge(left) && AllEdge(right)
    requires line != "" && line[0] !in "\n\r " && line[|line| - 1] !in "\n\r "
    ensures Trim(left + line + right) == line
  {
    TrimStartIs(left, line + right);
    TrimEndIs(line, right);
    assert left + line + right == left + (line + right);
  }

  lemma {:induction false} TrimStartIs(left: string, rest: string)
    requires AllEdge(left) && rest != "" && rest[0] !in "\n\r "
    ensures TrimStart(left + rest) == rest
  {
    if left == "" {
      assert left + rest == rest;
    } else {
      assert (left + rest)[1..] == left[1..] + rest;
      TrimStartIs(left[1..], rest);
    }
  }

  lemma {:induction false} TrimEndIs(line: string, right: string)
    requires AllEdge(right) && line != "" && line[|line| - 1] !in "\n\r "
    ensures TrimEnd(line + right) == line
  {
    if right == "" {
      assert line + right == line;
    } else {
      var s := line + right;
      assert s[..|s| - 1] == line + right[..|right| - 1];
      TrimEndIs(line, right[..|right| - 1]);
    }
  }

  // ---------------------------------------------------------------------------
  // The splitter
  // ---------------------------------------------------------------------------

  function Exactly(parts: seq<string>, expected: nat): Option<seq<string>> {
    if |parts| == expected then Some(parts) else None
  }

  function SplitFields(output: string, expected: nat, free: Option<nat>): Option<seq<string>> {
    var line := Trim(output);
    if Contains(line, FIELD_SEP) then Exactly(Split(line, FIELD_SEP), expected)
    else if Contains(line, TAB) then Exactly(Split(line, TAB), expected)
    else
      var parts := Split(line, UNDERSCORE);
      if |parts| == expected then Some(parts)
      else if free.None? || expected == 0 || |parts| < expected || free.value >= expected then None
      else Some(Absorb(parts, expected, free.value))
  }

  /** The free field takes the surplus pieces. */
  function Absorb(parts: seq<string>, expected: nat, free: nat): (fields: seq<string>)
    requires free < expected <= |parts|
    ensures |fields| == expected
  {
    var tail := expected - free - 1;
    parts[..free] + [Join(parts[free..|parts| - tail], UNDERSCORE)] + parts[|parts| - tail..]
  }

  // ---------------------------------------------------------------------------
  // Splitting and joining are inverse
  // ---------------------------------------------------------------------------

  lemma {:induction false} JoinOfSplit(s: string, sep: string)
    requires sep != ""
    ensures Join(Split(s, sep), sep) == s
    decreases |s|
  {
    var k := Find(s, sep, 0);
    if k < |s| {
      var rest := s[k + |sep|..];
      JoinOfSplit(rest, sep);
      var parts := [s[..k]] + Split(rest, sep);
      assert parts[1..] == Split(rest, sep);
      assert s == s[..k] + sep + rest;
    }
  }

  /** Before a separator, the field ends where that separator starts: no occurrence begins inside the field. */
  predicate Closed(field: string, sep: string) {
    forall k :: 0 <= k < |field| ==> !At(field + sep, k, sep)
  }

  lemma FindAfter(field: string, sep: string, rest: string)
    requires sep != "" && Closed(field, sep)
    ensures Find(field + sep + rest, sep, 0) == |field|
  {
    var s := field + sep + rest;
    assert At(s, |field|, sep);
    FindIsLeftmost(s, sep, 0, |field|);
    var k := Find(s, sep, 0);
    assert s[k..k + |sep|] == (field + sep)[k..k + |sep|];
    assert At(field + sep, k, sep);
  }

  lemma {:induction false} SplitOfJoin(fields: seq<string>, sep: string)
    requires sep != "" && fields != []
    requires forall i :: 0 <= i < |fields| ==> Closed(fields[i], sep) && !Contains(fields[i], sep)
    ensures Split(Join(fields, sep), sep) == fields
  {
    if |fields| > 1 {
      var rest := Join(fields[1..], sep);
      var s := fields[0] + sep + rest;
      FindAfter(fields[0], sep, rest);
      assert s[..|fields[0]|] == fields[0] && s[|fields[0]| + |sep|..] == rest;
      SplitOfJoin(fields[1..], sep);
    }
  }

  /** The named separator overlaps no shift of itself that starts inside its stem. */
  lemma StemCloses(field: string)
    requires !Contains(field, FIELD_STEM)
    ensures Closed(field, FIELD_SEP) && !Contains(field, FIELD_SEP)
  {
    var s := field + FIELD_SEP;
    forall k | 0 <= k < |field| ensures !At(s, k, FIELD_SEP) {
      if At(s, k, FIELD_SEP) {
        StemOrShift(field, k);
      }
    }
    if Contains(field, FIELD_SEP) {
      var k := Find(field, FIELD_SEP, 0);
      assert field[k..k + 8] == field[k..k + 11][..8] == FIELD_SEP[..8] == FIELD_STEM;
      ContainsAt(field, FIELD_STEM, k);
    }
  }

  lemma StemOrShift(field: string, k: nat)
    requires k < |field| && At(field + FIELD_SEP, k, FIELD_SEP)
    ensures Contains(field, FIELD_STEM)
  {
    var s := field + FIELD_SEP;
    var shift := |field| - k;
    if shift >= 8 {
      assert field[k..k + 8] == s[k..k + 11][..8] == FIELD_SEP[..8] == FIELD_STEM;
      ContainsAt(field, FIELD_STEM, k);
    } else {
      NoShift(field, k);
    }
  }

  /** Shifted by one to seven places, a letter of the separator meets a colon. */
  lemma NoShift(field: string, k: nat)
    requires |field| - 8 < k < |field|
    ensures !At(field + FIELD_SEP, k, FIELD_SEP)
  {
    var s, shift := field + FIELD_SEP, |field| - k;
    var i := if shift < 3 then k + 3 else |field|;
    assert s[i] == s[k..k + 11][i - k] && s[i] == FIELD_SEP[i - |field|] == ':' && FIELD_SEP[i - k] != ':';
  }

  lemma SingleCloses(field: string, sep: string)
    requires |sep| == 1 && !Contains(field, sep)
    ensures Closed(field, sep)
  {
    forall k | 0 <= k < |field| ensures !At(field + sep, k, sep) {
      if At(field + sep, k, sep) {
        assert (field + sep)[k..k + 1] == field[k..k + 1];
        ContainsAt(field, sep, k);
      }
    }
  }

  // ---------------------------------------------------------------------------
  // The underscore form
  // ---------------------------------------------------------------------------

  lemma FindSingle(a: string, sep: string, b: string, k: nat)
    requires |sep| == 1 && k <= |a| && Find(a, sep, k) < |a|
    ensures Find(a + b, sep, k) == Find(a, sep, k)
    decreases |a| - k
  {
    assert At(a + b, k, sep) <==> At(a, k, sep) by { assert k < |a| ==> (a + b)[k..k + 1] == a[k..k + 1]; }
    if !At(a, k, sep) { FindSingle(a, sep, b, k + 1); }
  }

  /** A single-character separator cuts a text into the pieces of its two sides. */
  lemma {:induction false} SplitConcat(a: string, sep: string, b: string)
    requires |sep| == 1
    ensures Split(a + sep + b, sep) == Split(a, sep) + Split(b, sep)
    decreases |a|
  {
    var k, all := Find(a, sep, 0), a + sep + b;
    if k == |a| {
      SingleCloses(a, sep);
      FindAfter(a, sep, b);
      FirstCut(all, sep, a, b);
    } else {
      var rest := a[k + 1..];
      assert a + (sep + b) == all && all == a[..k] + sep + (rest + sep + b);
      FindSingle(a, sep, sep + b, 0);
      FirstCut(all, sep, a[..k], rest + sep + b);
      SplitConcat(rest, sep, b);
      assert [a[..k]] + (Split(rest, sep) + Split(b, sep)) == ([a[..k]] + Split(rest, sep)) + Split(b, sep);
    }
  }

  lemma FirstCut(s: string, sep: string, first: string, rest: string)
    requires sep != "" && s == first + sep + rest && Find(s, sep, 0) == |first|
    ensures Split(s, sep) == [first] + Split(rest, sep)
  {
    assert s[..|first|] == first && s[|first| + |sep|..] == rest;
  }

  predicate NoneContains(fields: seq<string>, sep: string)
    requires sep != ""
  {
    forall i :: 0 <= i < |fields| ==> !Contains(fields[i], sep)
  }

  /** Where only the free field holds underscores, splitting cuts up the free field and nothing else. */
  lemma {:induction false} SplitAroundFree(before: seq<string>, free: string, after: seq<string>)
    requires NoneContains(before, UNDERSCORE) && NoneContains(after, UNDERSCORE)
    ensures Split(Join(before + [free] + after, UNDERSCORE), UNDERSCORE) == before + Split(free, UNDERSCORE) + after
  {
    if before != [] {
      var rest := before[1..] + [free] + after;
      SplitAroundFree(before[1..], free, after);
      SplitHead(before[0], rest);
      Cons(before, [free], after);
      Cons(before, Split(free, UNDERSCORE), after);
    } else {
      Nil([free], after);
      Nil(Split(free, UNDERSCORE), after);
      if after == [] {
        assert [free] + after == [free] && Split(free, UNDERSCORE) + after == Split(free, UNDERSCORE);
      } else {
        AllWhole(after, UNDERSCORE);
        assert ([free] + after)[1..] == after;
        SplitConcat(free, UNDERSCORE, Join(after, UNDERSCORE));
      }
    }
  }

  lemma Cons(a: seq<string>, b: seq<string>, c: seq<string>)
    requires a != []
    ensures a + b + c == [a[0]] + (a[1..] + b + c)
  {
  }

  lemma Nil(b: seq<string>, c: seq<string>)
    ensures [] + b + c == b + c
  {
  }

  lemma SplitHead(first: string, rest: seq<string>)
    requires !Contains(first, UNDERSCORE) && rest != []
    ensures Split(Join([first] + rest, UNDERSCORE), UNDERSCORE) == [first] + Split(Join(rest, UNDERSCORE), UNDERSCORE)
  {
    assert ([first] + rest)[1..] == rest;
    SplitConcat(first, UNDERSCORE, Join(rest, UNDERSCORE));
  }

  lemma AllWhole(fields: seq<string>, sep: string)
    requires |sep| == 1 && fields != [] && NoneContains(fields, sep)
    ensures Split(Join(fields, sep), sep) == fields
  {
    forall i | 0 <= i < |fields| ensures Closed(fields[i], sep) && !Contains(fields[i], sep) {
      SingleCloses(fields[i], sep);
    }
    SplitOfJoin(fields, sep);
  }

  // ---------------------------------------------------------------------------
  // The splitter inverts joining, for all three encodings
  // ---------------------------------------------------------------------------

  lemma {:induction false} JoinContains(fields: seq<string>, sep: string)
    requires |fields| >= 2 && sep != ""
    ensures Contains(Join(fields, sep), sep)
  {
    var s := Join(fields, sep);
    assert s == fields[0] + sep + Join(fields[1..], sep);
    ContainsAt(s, sep, |fields[0]|);
  }

  lemma NamedForm(output: string, fields: seq<string>, free: Option<nat>)
    requires |fields| >= 2 && NoneContains(fields, ":::rally")
    requires Trim(output) == Join(fields, ":::rally:::")
    ensures SplitFields(output, |fields|, free) == Some(fields)
  {
    forall i | 0 <= i < |fields| ensures Closed(fields[i], FIELD_SEP) && !Contains(fields[i], FIELD_SEP) {
      StemCloses(fields[i]);
    }
    SplitOfJoin(fields, FIELD_SEP);
    JoinContains(fields, FIELD_SEP);
  }

  lemma TabForm(output: string, fields: seq<string>, free: Option<nat>)
    requires |fields| >= 2 && NoneContains(fields, "\t")
    requires Trim(output) == Join(fields, "\t") && !Contains(Trim(output), ":::rally:::")
    ensures SplitFields(output, |fields|, free) == Some(fields)
  {
    AllWhole(fields, TAB);
    JoinContains(fields, TAB);
  }

  lemma UnderscoreForm(output: string, fields: seq<string>, free: nat)
    requires free < |fields| && NoneContains(fields[..free] + fields[free + 1..], "_")
    requires Trim(output) == Join(fields, "_")
    requires !Contains(Trim(output), ":::rally:::") && !Contains(Trim(output), "\t")
    ensures SplitFields(output, |fields|, Some(free)) == Some(fields)
  {
    var before, after := fields[..free], fields[free + 1..];
    SplitsAtFree(fields, free);
    SplitAroundFree(before, fields[free], after);
    JoinOfSplit(fields[free], UNDERSCORE);
    AbsorbOfPieces(before, fields[free], after, Split(fields[free], UNDERSCORE));
  }

  lemma SplitsAtFree(fields: seq<string>, free: nat)
    requires free < |fields| && NoneContains(fields[..free] + fields[free + 1..], UNDERSCORE)
    ensures fields == fields[..free] + [fields[free]] + fields[free + 1..]
    ensures NoneContains(fields[..free], UNDERSCORE) && NoneContains(fields[free + 1..], UNDERSCORE)
  {
    var a, b := fields[..free], fields[free + 1..];
    assert forall i :: 0 <= i < |a| ==> a[i] == (a + b)[i];
    assert forall i :: 0 <= i < |b| ==> b[i] == (a + b)[|a| + i];
  }

  lemma AbsorbOfPieces(before: seq<string>, free: string, after: seq<string>, pieces: seq<string>)
    requires pieces != [] && Join(pieces, UNDERSCORE) == free
    ensures var parts, fields := before + pieces + after, before + [free] + after;
      && |parts| == |fields| - 1 + |pieces| && Absorb(parts, |fields|, |before|) == fields
      && (|pieces| == 1 ==> parts == fields)
  {
    var parts := before + pieces + after;
    assert parts[|before|..|parts| - |after|] == pieces;
    assert parts[..|before|] == before && parts[|parts| - |after|..] == after;
    if |pieces| == 1 { assert pieces == [free]; }
  }

  /** Whatever the splitter returns has the expected count and joins back to the trimmed line. */
  lemma SplitFieldsSound(output: string, expected: nat, free: Option<nat>)
    requires SplitFields(output, expected, free).Some?
    ensures var fields := SplitFields(output, expected, free).value;
      && |fields| == expected
      && exists sep <- [FIELD_SEP, TAB, UNDERSCORE] :: Join(fields, sep) == Trim(output)
  {
    var line := Trim(output);
    var seps := [FIELD_SEP, TAB, UNDERSCORE];
    assert seps[0] == FIELD_SEP && seps[1] == TAB && seps[2] == UNDERSCORE;
    JoinOfSplit(line, FIELD_SEP);
    JoinOfSplit(line, TAB);
    JoinOfSplit(line, UNDERSCORE);
    if !Contains(line, FIELD_SEP) && !Contains(line, TAB) && |Split(line, UNDERSCORE)| != expected {
      JoinOfAbsorb(Split(line, UNDERSCORE), expected, free.value);
    }
  }

  lemma {:induction false} JoinConcat(a: seq<string>, b: seq<string>, sep: string)
    requires a != [] && b != []
    ensures Join(a + b, sep) == Join(a, sep) + sep + Join(b, sep)
  {
    if |a| == 1 {
      assert (a + b)[1..] == b;
    } else {
      assert (a + b)[1..] == a[1..] + b;
      JoinConcat(a[1..], b, sep);
    }
  }

  lemma JoinOfAbsorb(parts: seq<string>, expected: nat, free: nat)
    requires free < expected <= |parts|
    ensures Join(Absorb(parts, expected, free), UNDERSCORE) == Join(parts, UNDERSCORE)
  {
    var tail := expected - free - 1;
    var a, b, c := parts[..free], parts[free..|parts| - tail], parts[|parts| - tail..];
    var mid := [Join(b, UNDERSCORE)];
    ThreePieces(parts, free, |parts| - tail);
    JoinSwap(a, b, mid);
    JoinAppend(a + b, a + mid, c);
  }

  lemma ThreePieces(parts: seq<string>, i: nat, j: nat)
    requires i <= j <= |parts|
    ensures parts == parts[..i] + parts[i..j] + parts[j..]
  {
  }

  lemma JoinAppend(x: seq<string>, y: seq<string>, c: seq<string>)
    requires x != [] && y != [] && Join(x, UNDERSCORE) == Join(y, UNDERSCORE)
    ensures Join(x + c, UNDERSCORE) == Join(y + c, UNDERSCORE)
  {
    if c == [] {
      assert x + c == x && y + c == y;
    } else {
      JoinConcat(x, c, UNDERSCORE);
      JoinConcat(y, c, UNDERSCORE);
    }
  }

  lemma JoinSwap(a: seq<string>, b: seq<string>, mid: seq<string>)
    requires b != [] && mid != [] && Join(mid, UNDERSCORE) == Join(b, UNDERSCORE)
    ensures Join(a + mid, UNDERSCORE) == Join(a + b, UNDERSCORE)
  {
    if a == [] {
      assert a + mid == mid && a + b == b;
    } else {
      JoinConcat(a, b, UNDERSCORE);
      JoinConcat(a, mid, UNDERSCORE);
    }
  }
}
