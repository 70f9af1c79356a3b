/** How a backlog item is written into the fields of a fact and read back: the helpers of backlog.rs. */
module BacklogCodec {
  import opened Basics
  import opened Sorting
  import opened Ledger

  const KIND := "backlog-item"
  const OWNS := "owns:"
  const DEP := "dep:"
  const EXPECTED := "expected_by:"
  const ID := "id:"

  // ---------------------------------------------------------------------------
  // str::trim and lines
  // ---------------------------------------------------------------------------

  function TrimStart(s: string): string {
    if s != "" && IsWhitespace(s[0]) then TrimStart(s[1..]) else s
  }

  function TrimEnd(s: string): string {
    if s != "" && IsWhitespace(s[|s| - 1]) then TrimEnd(s[..|s| - 1]) else s
  }

  function Trim(s: string): string {
    TrimEnd(TrimStart(s))
  }

  lemma {:induction false} TrimStartEdge(s: string)
    ensures TrimStart(s) == "" || !IsWhitespace(TrimStart(s)[0])
    ensures forall c <- TrimStart(s) :: c in s
  {
    if s != "" && IsWhitespace(s[0]) { TrimStartEdge(s[1..]); }
  }

  lemma {:induction false} TrimEndEdge(s: string)
    ensures TrimEnd(s) == "" || !IsWhitespace(TrimEnd(s)[|TrimEnd(s)| - 1])
    ensures TrimEnd(s) != "" ==> TrimEnd(s)[0] == s[0]
    ensures forall c <- TrimEnd(s) :: c in s
  {
    if s != "" && IsWhitespace(s[|s| - 1]) { TrimEndEdge(s[..|s| - 1]); }
  }

  predicate AllBlank(s: string) {
    forall k :: 0 <= k < |s| ==> IsWhitespace(s[k])
  }

  /** No blank at either end. */
  predicate IsTrimmed(s: string) {
    s == "" || (!IsWhitespace(s[0]) && !IsWhitespace(s[|s| - 1]))
  }

  /** Trimming takes off the blanks at both ends and nothing else. */
  lemma TrimIs(left: string, core: string, right: string)
    requires AllBlank(left) && IsTrimmed(core) && AllBlank(right)
    ensures Trim(left + core + right) == core
  {
    TrimStartIs(left, core, right);
    if core != "" { TrimEndIs(core, right); }
  }

  lemma {:induction false} TrimStartIs(left: string, core: string, right: string)
    requires AllBlank(left) && IsTrimmed(core) && AllBlank(right)
    ensures TrimStart(left + core + right) == if core == "" then "" else core + right
  {
    var s := left + core + right;
    if left != "" {
      assert s[1..] == left[1..] + core + right;
      TrimStartIs(left[1..], core, right);
    } else if core != "" {
      assert s == core + right;
    } else {
      assert s == right;
      AllBlankStart(right);
    }
  }

  lemma {:induction false} AllBlankStart(s: string)
    requires AllBlank(s)
    ensures TrimStart(s) == ""
  {
    if s != "" { AllBlankStart(s[1..]); }
  }

  lemma {:induction false} TrimEndIs(core: string, right: string)
    requires core != "" && IsTrimmed(core) && AllBlank(right)
    ensures TrimEnd(core + right) == core
  {
    var s := core + right;
    if right != "" {
      assert s[..|s| - 1] == core + right[..|right| - 1];
      TrimEndIs(core, right[..|right| - 1]);
    } else {
      assert s == core;
    }
  }

  lemma TrimTwice(s: string)
    ensures Trim(Trim(s)) == Trim(s) && forall c <- Trim(s) :: c in s
  {
    TrimStartEdge(s);
    TrimEndEdge(TrimStart(s));
  }

  /** The text before the first line break. */
  function FirstLine(s: string): string {
    if s == "" || s[0] == '\n' then "" else [s[0]] + FirstLine(s[1..])
  }

  lemma {:induction false} FirstLineIs(s: string)
    ensures '\n' !in FirstLine(s) && ('\n' !in s ==> FirstLine(s) == s)
  {
    if s != "" {
      FirstLineIs(s[1..]);
      assert s == [s[0]] + s[1..];
    }
  }

  function Nonempty(s: string): Option<string> {
    if s == "" then None else Some(s)
  }

  /** An optional text as it is kept: trimmed, and dropped when blank. */
  function Tidy(o: Option<string>): Option<string> {
    match o
    case None => None
    case Some(s) => Nonempty(Trim(s))
  }

  lemma TidyTwice(o: Option<string>)
    ensures Tidy(Tidy(o)) == Tidy(o)
  {
    if o.Some? { TrimTwice(o.value); }
  }

  // ---------------------------------------------------------------------------
  // Lists of marked strings
  // ---------------------------------------------------------------------------

  function Prefixed(p: string, s: seq<string>): (r: seq<string>)
    ensures |r| == |s|
  {
    if s == [] then [] else [p + s[0]] + Prefixed(p, s[1..])
  }

  predicate HasPrefix(p: string, s: string) {
    |p| <= |s| && s[..|p|] == p
  }

  /** The strings that carry the mark, without it. */
  function Stripped(p: string, s: seq<string>): seq<string> {
    if s == [] then [] else (if HasPrefix(p, s[0]) then [s[0][|p|..]] else []) + Stripped(p, s[1..])
  }

  /** `Vec::dedup`: of equal neighbours, one stays. */
  function Dedup(s: seq<string>): (r: seq<string>)
    ensures s != [] ==> r != [] && r[0] == s[0]
  {
    if |s| < 2 then s else if s[0] == s[1] then Dedup(s[1..]) else [s[0]] + Dedup(s[1..])
  }

  function Canonical(s: seq<string>): seq<string> {
    Dedup(Sort(s, StrLeq))
  }

  lemma {:induction false} StrippedConcat(p: string, a: seq<string>, b: seq<string>)
    ensures Stripped(p, a + b) == Stripped(p, a) + Stripped(p, b)
  {
    if a == [] {
      assert a + b == b;
    } else {
      StrippedConcat(p, a[1..], b);
      StrippedCons(p, a[0], a[1..] + b);
      assert a + b == [a[0]] + (a[1..] + b);
    }
  }

  lemma StrippedCons(p: string, x: string, s: seq<string>)
    ensures Stripped(p, [x] + s) == (if HasPrefix(p, x) then [x[|p|..]] else []) + Stripped(p, s)
  {
    assert ([x] + s)[1..] == s;
  }

  lemma {:induction false} StrippedPrefixed(p: string, s: seq<string>)
    ensures Stripped(p, Prefixed(p, s)) == s
  {
    if s != [] {
      var t := Prefixed(p, s);
      assert t[1..] == Prefixed(p, s[1..]) && t[0] == p + s[0];
      StrippedPrefixed(p, s[1..]);
      assert HasPrefix(p, t[0]) && t[0][|p|..] == s[0];
      assert s == [s[0]] + s[1..];
    }
  }

  /** A mark never reads what another wrote, when they start differently. */
  lemma {:induction false} StrippedOther(p: string, q: string, s: seq<string>)
    requires p != "" && q != "" && p[0] != q[0]
    ensures Stripped(p, Prefixed(q, s)) == []
  {
    if s != [] {
      var t := Prefixed(q, s);
      assert t[1..] == Prefixed(q, s[1..]) && t[0][0] == q[0];
      StrippedOther(p, q, s[1..]);
    }
  }

  lemma {:induction false} InsertPrefixed(p: string, x: string, s: seq<string>)
    ensures Insert(p + x, Prefixed(p, s), StrLeq) == Prefixed(p, Insert(x, s, StrLeq))
  {
    if s == [] {
      assert Prefixed(p, [x]) == [p + x] + Prefixed(p, [x][1..]);
    } else {
      var t := Prefixed(p, s);
      assert t[0] == p + s[0] && t[1..] == Prefixed(p, s[1..]);
      StrLeqPrefix(p, x, s[0]);
      InsertPrefixed(p, x, s[1..]);
      var r := Insert(x, s, StrLeq);
      if StrLeq(x, s[0]) {
        assert r == [x] + s && r[1..] == s;
      } else {
        assert r[1..] == Insert(x, s[1..], StrLeq);
      }
    }
  }

  /** Marking commutes with sorting. */
  lemma {:induction false} SortPrefixed(p: string, s: seq<string>)
    ensures Sort(Prefixed(p, s), StrLeq) == Prefixed(p, Sort(s, StrLeq))
  {
    if s != [] {
      var t := Prefixed(p, s);
      assert t[0] == p + s[0] && t[1..] == Prefixed(p, s[1..]);
      SortPrefixed(p, s[1..]);
      InsertPrefixed(p, s[0], Sort(s[1..], StrLeq));
    }
  }

  lemma SamePrefix(p: string, a: string, b: string)
    ensures p + a == p + b <==> a == b
  {
    assert (p + a)[|p|..] == a && (p + b)[|p|..] == b;
  }

  lemma {:induction false} DedupPrefixed(p: string, s: seq<string>)
    ensures Dedup(Prefixed(p, s)) == Prefixed(p, Dedup(s))
  {
    var t := Prefixed(p, s);
    if |s| >= 2 {
      assert t[1..] == Prefixed(p, s[1..]) && t[0] == p + s[0];
      assert t[1] == t[1..][0] == p + s[1];
      SamePrefix(p, s[0], s[1]);
      DedupPrefixed(p, s[1..]);
      if s[0] != s[1] {
        var d := [s[0]] + Dedup(s[1..]);
        assert d[0] == s[0] && d[1..] == Dedup(s[1..]);
      }
    }
  }

  lemma CanonicalPrefixed(p: string, s: seq<string>)
    ensures Canonical(Prefixed(p, s)) == Prefixed(p, Canonical(s))
  {
    SortPrefixed(p, s);
    DedupPrefixed(p, Sort(s, StrLeq));
  }

  // ---------------------------------------------------------------------------
  // One odd string among marked ones
  // ---------------------------------------------------------------------------

  /** A string that sorts before the mark comes first. */
  lemma CanonicalFirst(x: string, p: string, s: seq<string>)
    requires x != "" && p != "" && x[0] < p[0]
    ensures Canonical([x] + Prefixed(p, s)) == [x] + Prefixed(p, Canonical(s))
  {
    var t := Prefixed(p, s);
    SortPrefixed(p, s);
    var u := Prefixed(p, Sort(s, StrLeq));
    assert ([x] + t)[1..] == t && ([x] + t)[0] == x;
    assert u != [] ==> u[0][0] == p[0];
    var v := [x] + u;
    assert v[1..] == u;
    DedupPrefixed(p, Sort(s, StrLeq));
  }

  lemma {:induction false} InsertBefore(x: string, s: seq<string>, y: string)
    requires StrLeq(x, y)
    ensures Insert(x, s + [y], StrLeq) == Insert(x, s, StrLeq) + [y]
  {
    if s == [] {
      assert s + [y] == [y] && [y][0] == y;
    } else {
      assert (s + [y])[0] == s[0] && (s + [y])[1..] == s[1..] + [y];
      InsertBefore(x, s[1..], y);
    }
  }

  lemma {:induction false} SortBefore(p: string, s: seq<string>, y: string)
    requires p != "" && y != "" && p[0] < y[0]
    ensures Sort(Prefixed(p, s) + [y], StrLeq) == Prefixed(p, Sort(s, StrLeq)) + [y]
  {
    var t := Prefixed(p, s);
    if s == [] {
      assert t + [y] == [y] && [y][1..] == [];
    } else {
      assert (t + [y])[0] == p + s[0] && (t + [y])[1..] == Prefixed(p, s[1..]) + [y];
      SortBefore(p, s[1..], y);
      InsertBefore(p + s[0], Prefixed(p, Sort(s[1..], StrLeq)), y);
      InsertPrefixed(p, s[0], Sort(s[1..], StrLeq));
    }
  }

  lemma {:induction false} DedupBefore(p: string, s: seq<string>, y: string)
    requires p != "" && y != "" && p[0] < y[0]
    ensures Dedup(Prefixed(p, s) + [y]) == Prefixed(p, Dedup(s)) + [y]
  {
    var t := Prefixed(p, s);
    if |s| == 1 {
      assert t[0] == p + s[0] && (t + [y])[1..] == [y];
    } else if |s| >= 2 {
      assert (t + [y])[1..] == Prefixed(p, s[1..]) + [y] && t[1..] == Prefixed(p, s[1..]);
      assert t[0] == p + s[0] && t[1] == t[1..][0] == p + s[1];
      SamePrefix(p, s[0], s[1]);
      DedupBefore(p, s[1..], y);
      if s[0] != s[1] {
        var d := [s[0]] + Dedup(s[1..]);
        assert d[0] == s[0] && d[1..] == Dedup(s[1..]);
      }
    }
  }

  /** A string that sorts after the mark comes last. */
  lemma CanonicalLast(p: string, s: seq<string>, y: string)
    requires p != "" && y != "" && p[0] < y[0]
    ensures Canonical(Prefixed(p, s) + [y]) == Prefixed(p, Canonical(s)) + [y]
  {
    SortBefore(p, s, y);
    DedupBefore(p, Sort(s, StrLeq), y);
  }

  // ---------------------------------------------------------------------------
  // What sorting and deduplicating comes to
  // ---------------------------------------------------------------------------

  lemma {:induction false} DedupIs(s: seq<string>)
    requires Sorted(s, StrLeq)
    ensures Sorted(Dedup(s), StrLeq) && NoRepeats(Dedup(s)) && forall x :: x in Dedup(s) <==> x in s
  {
    if |s| >= 2 {
      DedupIs(s[1..]);
      var rest := Dedup(s[1..]);
      assert s == [s[0]] + s[1..];
      if s[0] != s[1] {
        forall x | x in rest ensures StrLeq(s[0], x) && x != s[0] {
          assert x in s[1..];
          var k :| 0 <= k < |s[1..]| && s[1..][k] == x;
          assert StrLeq(s[0], s[1]) && (k > 0 ==> StrLeq(s[1], s[k + 1]));
          StrLeqTotal(s[0], s[1]);
        }
      }
    }
  }

  /** The same strings, in order, once each. */
  lemma CanonicalIs(s: seq<string>)
    ensures Sorted(Canonical(s), StrLeq) && NoRepeats(Canonical(s)) && forall x :: x in Canonical(s) <==> x in s
  {
    StrLeqIsOrder();
    SortSorts(s, StrLeq);
    DedupIs(Sort(s, StrLeq));
    assert forall x :: x in s <==> x in multiset(s);
    assert forall x :: x in Sort(s, StrLeq) <==> x in multiset(Sort(s, StrLeq));
  }

  lemma {:induction false} DedupOfNoRepeats(s: seq<string>)
    requires NoRepeats(s)
    ensures Dedup(s) == s
  {
    if |s| >= 2 {
      assert s[0] != s[1];
      DedupOfNoRepeats(s[1..]);
      assert s == [s[0]] + s[1..];
    }
  }

  lemma CanonicalTwice(s: seq<string>)
    ensures Canonical(Canonical(s)) == Canonical(s)
  {
    CanonicalIs(s);
    SortOfSorted(Canonical(s), StrLeq);
    DedupOfNoRepeats(Canonical(s));
  }

  // ---------------------------------------------------------------------------
  // Items and facts
  // ---------------------------------------------------------------------------

  datatype Item = Item(id: string, intent: string, owns: seq<string>, dependsOn: seq<string>, status: string,
      target: Option<string>,
                       expectedBy: Option<string>, tool: Option<string>, createdAt: string, eventId: string,
                         number: int)

  /** What the ledger adds to a fact when it stores it. */
  datatype Stamp = Stamp(eventId: string, createdAt: string, number: int)

  /** What a caller asks to be written. */
  datatype Draft = Draft(tool: string, id: string, intent: string, owns: seq<string>, dependsOn: seq<string>,
      status: string,
                         target: Option<string>, expectedBy: Option<string>)

  function ExtractId(f: Fact): Option<string> {
    if f.summary.None? || !HasPrefix(ID, f.summary.value) then None
    else Nonempty(Trim(FirstLine(f.summary.value[|ID|..])))
  }

  function LastOf(s: seq<string>): Option<string> {
    if s == [] then None else Some(s[|s| - 1])
  }

  /** The id a fact counts under in the projection. */
  function KeyOf(f: Fact): Option<string> {
    if f.kind == KIND && KIND in f.scope then ExtractId(f) else None
  }

  function Decode(f: Fact): (item: Option<Item>)
    ensures item.Some? <==> KeyOf(f).Some?
    ensures item.Some? ==> item.value.id == KeyOf(f).value && item.value.number == f.number
  {
    if KeyOf(f).None? then None else
    Some(Item(KeyOf(f).value, f.subject, Stripped(OWNS, f.scope), Stripped(DEP, f.evidence), if f.status.Some?
      then f.status.value else "open",
              f.target, Tidy(LastOf(Stripped(EXPECTED, f.evidence))), f.tool, f.createdAt, f.eventId, f.number))
  }

  function BuildScope(owns: seq<string>): seq<string> {
    Canonical([KIND] + Prefixed(OWNS, owns))
  }

  function BuildEvidence(deps: seq<string>, expectedBy: Option<string>): seq<string> {
    match Tidy(expectedBy)
    case None => Canonical(Prefixed(DEP, deps))
    case Some(e) => Canonical(Prefixed(DEP, deps) + [EXPECTED + e])
  }

  function Build(d: Draft, stamp: Stamp): Fact {
    Fact(stamp.eventId, stamp.number, KIND, Some(d.tool), None, d.intent, BuildScope(d.owns), stamp.createdAt,
      Some(ID + d.id),
         BuildEvidence(d.dependsOn, d.expectedBy), d.target, None, Some(d.status))
  }

  /** The item a draft stands for. */
  function Written(d: Draft, stamp: Stamp): Item {
    Item(Trim(d.id), d.intent, Canonical(d.owns), Canonical(d.dependsOn), d.status, d.target, Tidy(d.expectedBy),
      Some(d.tool),
         stamp.createdAt, stamp.eventId, stamp.number)
  }

  lemma ScopeDecodes(owns: seq<string>)
    ensures KIND in BuildScope(owns) && Stripped(OWNS, BuildScope(owns)) == Canonical(owns)
  {
    assert KIND[0] == 'b' && OWNS[0] == 'o';
    ScopeShape(KIND, OWNS, owns);
  }

  lemma ScopeShape(x: string, p: string, owns: seq<string>)
    requires x != "" && p != "" && x[0] < p[0]
    ensures x in Canonical([x] + Prefixed(p, owns)) &&
      Stripped(p, Canonical([x] + Prefixed(p, owns))) == Canonical(owns)
  {
    CanonicalFirst(x, p, owns);
    var t := Prefixed(p, Canonical(owns));
    StrippedPrefixed(p, Canonical(owns));
    assert ([x] + t)[0] == x && ([x] + t)[1..] == t;
  }

  lemma EvidenceDecodes(deps: seq<string>, expectedBy: Option<string>)
    ensures Stripped(DEP, BuildEvidence(deps, expectedBy)) == Canonical(deps)
    ensures LastOf(Stripped(EXPECTED, BuildEvidence(deps, expectedBy))) == Tidy(expectedBy)
  {
    assert DEP[0] == 'd' && EXPECTED[0] == 'e';
    match Tidy(expectedBy)
    case None =>
      CanonicalPrefixed(DEP, deps);
      StrippedPrefixed(DEP, Canonical(deps));
      StrippedOther(EXPECTED, DEP, Canonical(deps));
    case Some(e) => EvidenceShape(DEP, EXPECTED, deps, e);
  }

  lemma EvidenceShape(p: string, q: string, deps: seq<string>, e: string)
    requires p != "" && q != "" && p[0] < q[0]
    ensures var ev := Canonical(Prefixed(p, deps) + [q + e]);
      Stripped(p, ev) == Canonical(deps) && Stripped(q, ev) == [e]
  {
    CanonicalLast(p, deps, q + e);
    var t := Prefixed(p, Canonical(deps));
    StrippedConcat(p, t, [q + e]);
    StrippedConcat(q, t, [q + e]);
    StrippedPrefixed(p, Canonical(deps));
    StrippedOther(q, p, Canonical(deps));
    assert [q + e] == Prefixed(q, [e]);
    StrippedPrefixed(q, [e]);
    StrippedOther(p, q, [e]);
  }

  lemma IdDecodes(id: string)
    requires '\n' !in id
    ensures HasPrefix(ID, ID + id) && Trim(FirstLine((ID + id)[|ID|..])) == Trim(id)
  {
    assert (ID + id)[|ID|..] == id && (ID + id)[..|ID|] == ID;
    FirstLineIs(id);
  }

  /** Reading back what was written: the draft, with its id trimmed and its lists sorted and deduplicated. */
  lemma DecodeBuild(d: Draft, stamp: Stamp)
    requires '\n' !in d.id && Trim(d.id) != ""
    ensures Decode(Build(d, stamp)) == Some(Written(d, stamp))
  {
    IdDecodes(d.id);
    ScopeDecodes(d.owns);
    EvidenceDecodes(d.dependsOn, d.expectedBy);
    TidyTwice(d.expectedBy);
  }

  /** A fact written under an id that is blank, or whose first line is, cannot be read back. */
  lemma BlankIdIsLost(d: Draft, stamp: Stamp)
    ensures Decode(Build(d, stamp)).Some? <==> Trim(FirstLine(d.id)) != ""
  {
    assert (ID + d.id)[|ID|..] == d.id && (ID + d.id)[..|ID|] == ID;
    ScopeDecodes(d.owns);
  }

  /** An item as this module writes it: trimmed, sorted, deduplicated. */
  predicate Clean(x: Item) {
    x.id == Trim(x.id) != "" && '\n' !in x.id && Canonical(x.owns) == x.owns && Canonical(x.dependsOn) == x.dependsOn &&
      Tidy(x.expectedBy) == x.expectedBy
  }

  lemma WrittenIsClean(d: Draft, stamp: Stamp)
    requires '\n' !in d.id && Trim(d.id) != ""
    ensures Clean(Written(d, stamp))
  {
    TrimTwice(d.id);
    CanonicalTwice(d.owns);
    CanonicalTwice(d.dependsOn);
    TidyTwice(d.expectedBy);
  }

  /** Every readable id is one trimmed, nonempty line. */
  lemma DecodedId(f: Fact)
    requires KeyOf(f).Some?
    ensures var id := KeyOf(f).value; id == Trim(id) != "" && '\n' !in id
  {
    var line := FirstLine(f.summary.value[|ID|..]);
    FirstLineIs(f.summary.value[|ID|..]);
    TrimTwice(line);
  }

  // ---------------------------------------------------------------------------
  // The stored form, string by string
  // ---------------------------------------------------------------------------

  lemma {:induction false} PrefixedMembers(p: string, s: seq<string>, x: string)
    ensures x in Prefixed(p, s) <==> exists y <- s :: x == p + y
  {
    if s != [] {
      PrefixedMembers(p, s[1..], x);
      assert s == [s[0]] + s[1..];
    }
  }

  lemma {:induction false} StrippedMembers(p: string, s: seq<string>, x: string)
    ensures x in Stripped(p, s) <==> p + x in s
  {
    if s != [] {
      StrippedMembers(p, s[1..], x);
      assert s == [s[0]] + s[1..];
      assert (p + x)[..|p|] == p && (p + x)[|p|..] == x;
      if HasPrefix(p, s[0]) { assert s[0] == p + s[0][|p|..]; }
    }
  }

  /** In order, each once. */
  ghost predicate IsOrderedSet(s: seq<string>) {
    Sorted(s, StrLeq) && NoRepeats(s)
  }

  /** What a write stores: the marks, each path and dependency once and in order, and the given fields. */
  lemma BuiltFactIs(d: Draft, stamp: Stamp, x: string)
    ensures var f := Build(d, stamp);
      && f == Fact(stamp.eventId, stamp.number, "backlog-item", Some(d.tool), None, d.intent, f.scope, stamp.createdAt,
                   Some("id:" + d.id), f.evidence, d.target, None, Some(d.status))
      && IsOrderedSet(f.scope) && IsOrderedSet(f.evidence)
      && (x in f.scope <==> x == "backlog-item" || exists path <- d.owns :: x == "owns:" + path)
      && (x in f.evidence <==>
            || (exists dep <- d.dependsOn :: x == "dep:" + dep)
            || (d.expectedBy.Some? && Trim(d.expectedBy.value) != ""
                && x == "expected_by:" + Trim(d.expectedBy.value)))
  {
    CanonicalIs([KIND] + Prefixed(OWNS, d.owns));
    PrefixedMembers(OWNS, d.owns, x);
    EvidenceIs(d.dependsOn, d.expectedBy, x);
  }

  lemma EvidenceIs(deps: seq<string>, expectedBy: Option<string>, x: string)
    ensures var e := BuildEvidence(deps, expectedBy);
      && IsOrderedSet(e)
      && (x in e <==>
            || (exists dep <- deps :: x == "dep:" + dep)
            || (expectedBy.Some? && Trim(expectedBy.value) != "" && x == "expected_by:" + Trim(expectedBy.value)))
  {
    PrefixedMembers(DEP, deps, x);
    match Tidy(expectedBy)
    case None => CanonicalIs(Prefixed(DEP, deps));
    case Some(e) => CanonicalIs(Prefixed(DEP, deps) + [EXPECTED + e]);
  }

  /** What any fact reads as, whoever wrote it. */
  lemma DecodedFactIs(f: Fact, x: string)
    ensures Decode(f).Some? <==>
      && f.kind == "backlog-item" && "backlog-item" in f.scope && f.summary.Some? && "id:" <= f.summary.value
      && Trim(FirstLine(f.summary.value[3..])) != ""
    ensures Decode(f).Some? ==>
      var item := Decode(f).value;
      && item == Item(Trim(FirstLine(f.summary.value[3..])), f.subject, item.owns, item.dependsOn, item.status,
                      f.target, item.expectedBy, f.tool, f.createdAt, f.eventId, f.number)
      && (x in item.owns <==> "owns:" + x in f.scope) && (x in item.dependsOn <==> "dep:" + x in f.evidence)
      && item.status == (if f.status == None then "open" else f.status.value)
      && (item.expectedBy == Some(x) ==> x == Trim(x) != "")
  {
    StrippedMembers(OWNS, f.scope, x);
    StrippedMembers(DEP, f.evidence, x);
    if f.summary.Some? { assert HasPrefix(ID, f.summary.value) <==> "id:" <= f.summary.value; }
    var last := LastOf(Stripped(EXPECTED, f.evidence));
    if last.Some? { TrimTwice(last.value); }
  }
}
