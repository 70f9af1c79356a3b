/** The latest presence per tool, and which tools have gone stale: agent_state.rs. */
module AgentStates {
  import opened Basics
  import opened Sorting
  import opened Ledger
  import opened FieldSplit
  import C = BacklogCodec

  const IDLE_THRESHOLD_SECS := 900

  predicate SystemAuthored(f: Fact) {
    f.role == Some("system") || f.tool == Some("rally")
  }

  function ToolOf(f: Fact): Option<string> {
    if f.kind == "presence" && !SystemAuthored(f) then f.tool else None
  }

  // ---------------------------------------------------------------------------
  // Markers
  // ---------------------------------------------------------------------------

  /** The position of the first `=`, or the length. */
  function Equals(s: string): (i: nat)
    ensures i <= |s| && '=' !in s[..i] && (i < |s| ==> s[i] == '=')
  {
    if s == "" || s[0] == '=' then 0 else 1 + Equals(s[1..])
  }

  function KeyOf(segment: string): string {
    C.Trim(segment[..Equals(segment)])
  }

  /** A segment without `=` is a flag with an empty value. */
  function ValueOf(segment: string): string {
    var i := Equals(segment);
    if i == |segment| then "" else C.Trim(segment[i + 1..])
  }

  /** The value of the last nonblank segment with this key. */
  function Assigned(segments: seq<string>, key: string): Option<string> {
    if segments == [] then None else
    var last := C.Trim(segments[|segments| - 1]);
    if last != "" && KeyOf(last) == key then Some(ValueOf(last)) else Assigned(segments[..|segments| - 1], key)
  }

  /** `parse_marker_string`: segments between bars, blank ones skipped, a later key overwrites an earlier one. */
  method ParseMarkers(s: string) returns (m: map<string, string>)
    ensures forall k :: Lookup(m, k) == Assigned(Split(s, "|"), k)
  {
    m := map[];
    var segments := Split(s, "|");
    for i := 0 to |segments|
      invariant forall k :: Lookup(m, k) == Assigned(segments[..i], k)
    {
      var segment := C.Trim(segments[i]);
      assert segments[..i + 1][..i] == segments[..i];
      if segment != "" { m := m[KeyOf(segment) := ValueOf(segment)]; }
    }
    assert segments[..|segments|] == segments;
  }

  /** A marker of a presence: the subject wins, the summary fills gaps. */
  function Marker(f: Fact, key: string): Option<string> {
    var own := Assigned(Split(f.subject, "|"), key);
    if own.Some? || f.summary.None? then own else Assigned(Split(f.summary.value, "|"), key)
  }

  /** The two marker strings of a fact, merged entry by entry. */
  method Markers(f: Fact) returns (m: map<string, string>)
    ensures forall k :: Lookup(m, k) == Marker(f, k)
  {
    m := ParseMarkers(f.subject);
    if f.summary.Some? {
      var own := m;
      var more := ParseMarkers(f.summary.value);
      var todo := more.Keys;
      while todo != {}
        invariant todo <= more.Keys
        invariant forall k :: Lookup(m, k) == if k in own then Some(own[k]) else if k in todo then None
          else Lookup(more, k)
      {
        var k :| k in todo;
        if k !in m { m := m[k := more[k]]; }
        todo := todo - {k};
      }
      forall k ensures Lookup(m, k) == Marker(f, k) {
        assert Lookup(own, k) == Assigned(Split(f.subject, "|"), k);
        assert Lookup(more, k) == Assigned(Split(f.summary.value, "|"), k);
      }
    }
  }

  datatype AgentState =
    | Idle(wakeAfter: Option<string>)
    | Working(file: string, intent: string)
    | Blocked(refId: string)
    | Done(committedSha: string, worktreeBranch: string)
    | Unknown(raw: string)

  function OrEmpty(o: Option<string>): string {
    if o.Some? then o.value else ""
  }

  /** How one presence reads; without a state marker it is idle. */
  function StateOf(f: Fact): AgentState {
    match Marker(f, "state")
    case None => Idle(None)
    case Some(s) =>
      if s == "idle" then Idle(Marker(f, "wake_after"))
      else if s == "working" then Working(OrEmpty(Marker(f, "file")), OrEmpty(Marker(f, "intent")))
      else if s == "blocked" then Blocked(OrEmpty(Marker(f, "ref")))
      else if s == "done" then Done(OrEmpty(Marker(f, "committed_sha")), OrEmpty(Marker(f, "worktree_branch")))
      else Unknown(s)
  }

  /** `project_presence_to_state`, with the default of its caller. */
  method ProjectPresence(f: Fact) returns (st: AgentState)
    ensures st == StateOf(f)
  {
    var m := Markers(f);
    assert forall k :: Lookup(m, k) == Marker(f, k);
    var state := Lookup(m, "state");
    if state.None? { return Idle(None); }
    match state.value {
      case "idle" => st := Idle(Lookup(m, "wake_after"));
      case "working" => st := Working(OrEmpty(Lookup(m, "file")), OrEmpty(Lookup(m, "intent")));
      case "blocked" => st := Blocked(OrEmpty(Lookup(m, "ref")));
      case "done" => st := Done(OrEmpty(Lookup(m, "committed_sha")), OrEmpty(Lookup(m, "worktree_branch")));
      case _ => st := Unknown(state.value);
    }
  }

  /** A segment as agents write it: `key=value` with blanks anywhere around the two. */
  ghost predicate Writes(segment: string, key: string, value: string) {
    && key != "" && C.IsTrimmed(key) && '=' !in key && C.IsTrimmed(value)
    && exists left, mid, gap, right :: Spaced(segment, key, value, left, mid, gap, right)
  }

  predicate Spaced(segment: string, key: string, value: string, left: string, mid: string, gap: string,
      right: string)
  {
    && C.AllBlank(left) && C.AllBlank(mid) && C.AllBlank(gap) && C.AllBlank(right)
    && segment == left + (key + mid + "=" + (gap + value)) + right
  }

  lemma WrittenReads(segment: string, key: string, value: string)
    requires Writes(segment, key, value)
    ensures C.Trim(segment) != "" && KeyOf(C.Trim(segment)) == key && ValueOf(C.Trim(segment)) == value
  {
    var left, mid, gap, right :| Spaced(segment, key, value, left, mid, gap, right);
    var tail, end := if value == "" then "" else gap + value, if value == "" then gap + right else right;
    CoreOf(segment, key + mid + "=", value, left, gap, right);
    CoreIsTrimmed(key, mid, tail, value);
    C.TrimIs(left, key + mid + "=" + tail, end);
    CoreReads(key, mid, tail, gap, value);
  }

  lemma CoreIsTrimmed(key: string, mid: string, tail: string, value: string)
    requires key != "" && C.IsTrimmed(key) && C.IsTrimmed(value)
    requires if value == "" then tail == "" else |tail| >= |value| && tail[|tail| - 1] == value[|value| - 1]
    ensures key + mid + "=" + tail != "" && C.IsTrimmed(key + mid + "=" + tail)
  {
    var core := key + mid + "=" + tail;
    assert core[0] == key[0] && core[|core| - 1] == if value == "" then '=' else value[|value| - 1];
  }

  lemma CoreReads(key: string, mid: string, tail: string, gap: string, value: string)
    requires key != "" && C.IsTrimmed(key) && '=' !in key && C.IsTrimmed(value) && C.AllBlank(mid) && C.AllBlank(gap)
    requires tail == if value == "" then "" else gap + value
    ensures KeyOf(key + mid + "=" + tail) == key && ValueOf(key + mid + "=" + tail) == value
  {
    var core, at := key + mid + "=" + tail, |key + mid|;
    assert core[..at] == key + mid && core[at + 1..] == tail;
    EqualsIs(core, at);
    assert "" + key + mid == key + mid && gap + value + "" == gap + value;
    C.TrimIs("", key, mid);
    C.TrimIs(gap, value, "");
  }

  lemma CoreOf(segment: string, front: string, value: string, left: string, gap: string, right: string)
    requires segment == left + (front + (gap + value)) + right
    ensures segment == left + (front + if value == "" then "" else gap + value) +
      if value == "" then gap + right else right
  {
  }

  lemma {:induction false} EqualsIs(s: string, i: nat)
    requires i < |s| && s[i] == '=' && '=' !in s[..i]
    ensures Equals(s) == i
  {
    if i > 0 {
      assert s[0] == s[..i][0] && s[1..][..i - 1] == s[..i][1..];
      EqualsIs(s[1..], i - 1);
    }
  }

  predicate Sets(segment: string, key: string) {
    C.Trim(segment) != "" && KeyOf(C.Trim(segment)) == key
  }

  lemma {:induction false} AssignedBefore(segments: seq<string>, after: seq<string>, key: string)
    requires forall k :: 0 <= k < |after| ==> !Sets(after[k], key)
    ensures Assigned(segments + after, key) == Assigned(segments, key)
  {
    var all := segments + after;
    if after == [] {
      assert all == segments;
    } else {
      assert all[..|all| - 1] == segments + after[..|after| - 1];
      AssignedBefore(segments, after[..|after| - 1], key);
    }
  }

  /** A marker written into a bar-separated text is read back, unless a later segment has its key. */
  lemma WrittenMarkerReads(before: seq<string>, segment: string, after: seq<string>, key: string, value: string)
    requires NoneContains(before + [segment] + after, "|") && Writes(segment, key, value)
    requires forall k :: 0 <= k < |after| ==> !Sets(after[k], key)
    ensures Assigned(Split(Join(before + [segment] + after, "|"), "|"), key) == Some(value)
  {
    var up := before + [segment];
    AllWhole(up + after, "|");
    AssignedBefore(up, after, key);
    WrittenReads(segment, key, value);
    assert up[..|up| - 1] == before && up[|up| - 1] == segment;
  }

  /** Which state each marker names, and which markers fill it in; no marker reads as empty, no state as idle. */
  lemma StatesAre(f: Fact)
    ensures Marker(f, "state") == None ==> StateOf(f) == Idle(None)
    ensures Marker(f, "state") == Some("idle") ==> StateOf(f) == Idle(Marker(f, "wake_after"))
    ensures Marker(f, "state") == Some("working") ==>
      StateOf(f) == Working(OrEmpty(Marker(f, "file")), OrEmpty(Marker(f, "intent")))
    ensures Marker(f, "state") == Some("blocked") ==> StateOf(f) == Blocked(OrEmpty(Marker(f, "ref")))
    ensures Marker(f, "state") == Some("done") ==>
      StateOf(f) == Done(OrEmpty(Marker(f, "committed_sha")), OrEmpty(Marker(f, "worktree_branch")))
    ensures Marker(f, "state").Some? && Marker(f, "state").value !in {"idle", "working", "blocked", "done"} ==>
      StateOf(f) == Unknown(Marker(f, "state").value)
    ensures forall value :: OrEmpty(Some(value)) == value && OrEmpty(None) == ""
  {
  }

  /** A value that can stand between bars. */
  predicate IsValue(s: string) {
    C.IsTrimmed(s) && !Contains(s, "|")
  }

  predicate IsKey(s: string) {
    s != "" && C.IsTrimmed(s) && '=' !in s && !Contains(s, "|")
  }

  function Pair(key: string, value: string): string {
    key + "=" + value
  }

  lemma {:induction false} BarAt(s: string)
    ensures Contains(s, "|") <==> '|' in s
  {
    if Contains(s, "|") {
      var k := Find(s, "|", 0);
      assert s[k] == s[k..k + 1][0];
    }
    if '|' in s {
      var k :| 0 <= k < |s| && s[k] == '|';
      assert s[k..k + 1] == "|";
      ContainsAt(s, "|", k);
    }
  }

  /** A pair with one blank at each side, or none. */
  lemma PairWrites(left: string, key: string, value: string, right: string)
    requires IsKey(key) && IsValue(value) && left in {"", " "} && right in {"", " "}
    ensures Writes(left + Pair(key, value) + right, key, value)
    ensures !Contains(left + Pair(key, value) + right, "|")
  {
    BarAt(key);
    BarAt(value);
    BarAt(left + Pair(key, value) + right);
    assert C.AllBlank("") && C.AllBlank(left) && C.AllBlank(right);
    assert key + "" + "=" + ("" + value) == Pair(key, value);
    assert Spaced(left + Pair(key, value) + right, key, value, left, "", "", right);
  }

  /** The `i`-th of some written segments is read back. */
  lemma MarkerAmong(segments: seq<string>, i: nat, key: string, value: string)
    requires i < |segments| && NoneContains(segments, "|") && Writes(segments[i], key, value)
    requires forall k :: i < k < |segments| ==> !Sets(segments[k], key)
    ensures Assigned(Split(Join(segments, "|"), "|"), key) == Some(value)
  {
    var after := segments[i + 1..];
    assert segments[..i] + [segments[i]] + after == segments;
    assert forall k :: 0 <= k < |after| ==> after[k] == segments[i + 1 + k];
    WrittenMarkerReads(segments[..i], segments[i], after, key, value);
  }

  lemma OtherKey(segment: string, key: string, value: string, other: string)
    requires Writes(segment, key, value) && other != key
    ensures !Sets(segment, other)
  {
    WrittenReads(segment, key, value);
  }

  /** Three markers in a row read back, each under its own key. */
  lemma ThreeMarkers(s: string, a: string, x: string, b: string, y: string, c: string, z: string)
    requires IsKey(a) && IsKey(b) && IsKey(c) && a != b && b != c && a != c && IsValue(x) && IsValue(y) && IsValue(z)
    requires s == Pair(a, x) + " | " + Pair(b, y) + " | " + Pair(c, z)
    ensures Assigned(Split(s, "|"), a) == Some(x) && Assigned(Split(s, "|"), b) == Some(y)
      && Assigned(Split(s, "|"), c) == Some(z)
  {
    var p, q, r := "" + Pair(a, x) + " ", " " + Pair(b, y) + " ", " " + Pair(c, z) + "";
    PairWrites("", a, x, " ");
    PairWrites(" ", b, y, " ");
    PairWrites(" ", c, z, "");
    ThreeJoined(Pair(a, x), Pair(b, y), Pair(c, z));
    OtherKey(q, b, y, a);
    OtherKey(r, c, z, a);
    OtherKey(r, c, z, b);
    MarkerAmong([p, q, r], 0, a, x);
    MarkerAmong([p, q, r], 1, b, y);
    MarkerAmong([p, q, r], 2, c, z);
  }

  lemma ThreeJoined(x: string, y: string, z: string)
    ensures Join(["" + x + " ", " " + y + " ", " " + z + ""], "|") == x + " | " + y + " | " + z
  {
    var p, q, r := "" + x + " ", " " + y + " ", " " + z + "";
    assert [p, q, r][1..] == [q, r] && [q, r][1..] == [r];
    assert Join([q, r], "|") == q + "|" + r;
    assert Join([p, q, r], "|") == p + "|" + (q + "|" + r);
  }

  /** Two markers in a row. */
  lemma TwoMarkers(s: string, a: string, x: string, b: string, y: string)
    requires IsKey(a) && IsKey(b) && a != b && IsValue(x) && IsValue(y)
    requires s == Pair(a, x) + " | " + Pair(b, y)
    ensures Assigned(Split(s, "|"), a) == Some(x) && Assigned(Split(s, "|"), b) == Some(y)
  {
    var p, q := "" + Pair(a, x) + " ", " " + Pair(b, y) + "";
    PairWrites("", a, x, " ");
    PairWrites(" ", b, y, "");
    TwoJoined(Pair(a, x), Pair(b, y));
    OtherKey(q, b, y, a);
    MarkerAmong([p, q], 0, a, x);
    MarkerAmong([p, q], 1, b, y);
  }

  lemma TwoJoined(x: string, y: string)
    ensures Join(["" + x + " ", " " + y + ""], "|") == x + " | " + y
  {
    assert ["" + x + " ", " " + y + ""][1..] == [" " + y + ""];
  }

  /** The subject's own marker is the fact's. */
  lemma OwnMarker(f: Fact, key: string, value: string)
    requires Assigned(Split(f.subject, "|"), key) == Some(value)
    ensures Marker(f, key) == Some(value)
  {
  }

  /** The four states as agents write them into a subject are read back with their values. */
  lemma WorkingReads(f: Fact, file: string, intent: string)
    requires IsValue(file) && IsValue(intent)
    requires f.subject == Pair("state", "working") + " | " + Pair("file", file) + " | " + Pair("intent", intent)
    ensures StateOf(f) == Working(file, intent)
  {
    StateWords();
    WorkWords();
    ThreeMarkers(f.subject, "state", "working", "file", file, "intent", intent);
    OwnMarker(f, "state", "working");
    OwnMarker(f, "file", file);
    OwnMarker(f, "intent", intent);
    StatesAre(f);
  }

  lemma DoneReads(f: Fact, sha: string, branch: string)
    requires IsValue(sha) && IsValue(branch)
    requires f.subject
          == Pair("state", "done") + " | " + Pair("committed_sha", sha) + " | " + Pair("worktree_branch", branch)
    ensures StateOf(f) == Done(sha, branch)
  {
    StateWords();
    DoneWords();
    DoneWordsDiffer();
    ThreeMarkers(f.subject, "state", "done", "committed_sha", sha, "worktree_branch", branch);
    OwnMarker(f, "state", "done");
    OwnMarker(f, "committed_sha", sha);
    OwnMarker(f, "worktree_branch", branch);
    StatesAre(f);
  }

  lemma BlockedReads(f: Fact, ref: string)
    requires IsValue(ref) && f.subject == Pair("state", "blocked") + " | " + Pair("ref", ref)
    ensures StateOf(f) == Blocked(ref)
  {
    PauseWords();
    WaitWords();
    TwoMarkers(f.subject, "state", "blocked", "ref", ref);
    OwnMarker(f, "state", "blocked");
    OwnMarker(f, "ref", ref);
    StatesAre(f);
  }

  lemma IdleReads(f: Fact, wake: string)
    requires IsValue(wake) && f.subject == Pair("state", "idle") + " | " + Pair("wake_after", wake)
    ensures StateOf(f) == Idle(Some(wake))
  {
    PauseWords();
    WaitWords();
    TwoMarkers(f.subject, "state", "idle", "wake_after", wake);
    OwnMarker(f, "state", "idle");
    OwnMarker(f, "wake_after", wake);
    StatesAre(f);
  }

  /** Lower-case words, perhaps with underscores, are keys and values. */
  predicate IsLower(s: string) {
    s != "" && forall k :: 0 <= k < |s| ==> 'a' <= s[k] <= 'z' || s[k] == '_'
  }

  lemma LowerIs(s: string)
    requires IsLower(s)
    ensures IsKey(s) && IsValue(s)
  {
    BarAt(s);
  }

  lemma StartsDiffer(a: string, b: string)
    requires a != "" && b != "" && a[0] != b[0]
    ensures a != b
  {
  }

  lemma StateWords()
    ensures IsKey("state") && IsValue("working") && IsValue("done")
  {
    LowerIs("state");
    LowerIs("working");
    LowerIs("done");
  }

  lemma PauseWords()
    ensures IsKey("state") && IsValue("blocked") && IsValue("idle")
  {
    LowerIs("state");
    LowerIs("blocked");
    LowerIs("idle");
  }

  lemma WorkWords()
    ensures IsKey("file") && IsKey("intent")
    ensures "state" != "file" && "file" != "intent" && "state" != "intent"
  {
    LowerIs("file");
    LowerIs("intent");
    StartsDiffer("state", "intent");
  }

  lemma DoneWords()
    ensures IsKey("committed_sha") && IsKey("worktree_branch")
  {
    LowerIs("committed_sha");
    LowerIs("worktree_branch");
  }

  lemma DoneWordsDiffer()
    ensures "state" != "committed_sha" && "committed_sha" != "worktree_branch" && "state" != "worktree_branch"
  {
    StartsDiffer("state", "committed_sha");
    StartsDiffer("committed_sha", "worktree_branch");
    StartsDiffer("state", "worktree_branch");
  }

  lemma WaitWords()
    ensures IsKey("ref") && IsKey("wake_after") && "state" != "ref" && "state" != "wake_after"
  {
    LowerIs("ref");
    LowerIs("wake_after");
    StartsDiffer("state", "ref");
    StartsDiffer("state", "wake_after");
  }

  /** Which facts count as whose presence. */
  lemma PresenceIs(f: Fact, tool: string)
    ensures ToolOf(f) == Some(tool) <==>
      f.kind == "presence" && f.tool == Some(tool) && f.role != Some("system") && tool != "rally"
  {
  }

  // ---------------------------------------------------------------------------
  // The roster
  // ---------------------------------------------------------------------------

  datatype Entry = Entry(tool: string, state: AgentState, lastSeenSeq: int, lastSeenTs: string, stale: bool)

  /** How a timestamp reads, in seconds. */
  type Clock = string -> Option<int>

  /** An unreadable clock or timestamp never counts as stale. */
  function EntryOf(r: Clock, now: string, tool: string, f: Fact): Entry {
    var n, s := r(now), r(f.createdAt);
    Entry(tool, StateOf(f), f.number, f.createdAt, n.Some? && s.Some? && n.value - s.value > IDLE_THRESHOLD_SECS)
  }

  /** What an entry shows, and that it goes stale after a quarter of an hour by two readable clocks. */
  lemma EntryIs(r: Clock, now: string, tool: string, f: Fact)
    ensures var e := EntryOf(r, now, tool, f);
      && e.tool == tool && e.state == StateOf(f) && e.lastSeenSeq == f.number && e.lastSeenTs == f.createdAt
      && (e.stale <==> r(now).Some? && r(f.createdAt).Some? && r(now).value > r(f.createdAt).value + 15 * 60)
  {
  }

  predicate ByTool(a: Entry, b: Entry) {
    StrLeq(a.tool, b.tool) && a.tool != b.tool
  }

  ghost predicate Current(facts: seq<Fact>, r: Clock, now: string, e: Entry) {
    var f := Latest(facts, ToolOf, e.tool);
    f.Some? && e == EntryOf(r, now, e.tool, f.value)
  }

  /** One entry per present tool, in tool order, from that tool's latest presence. */
  ghost predicate IsRoster(facts: seq<Fact>, r: Clock, now: string, entries: seq<Entry>) {
    && Sorted(entries, ByTool)
    && (forall e :: e in entries <==> Current(facts, r, now, e))
  }

  method ProjectAgentStates(facts: seq<Fact>, r: Clock, now: string) returns (entries: seq<Entry>)
    ensures IsRoster(facts, r, now, entries)
  {
    var latest := LatestPerKey(facts, ToolOf);
    var tools := SortedKeys(latest.Keys);
    entries := [];
    for i := 0 to |tools|
      invariant |entries| == i
      invariant forall k :: 0 <= k < i ==> entries[k].tool == tools[k] && Current(facts, r, now, entries[k])
    {
      assert Lookup(latest, tools[i]) == Latest(facts, ToolOf, tools[i]);
      var f := latest[tools[i]];
      var state := ProjectPresence(f);
      var n, s := r(now), r(f.createdAt);
      var stale := n.Some? && s.Some? && n.value - s.value > IDLE_THRESHOLD_SECS;
      entries := entries + [Entry(tools[i], state, f.number, f.createdAt, stale)];
    }
    forall e | Current(facts, r, now, e) ensures e in entries {
      assert Lookup(latest, e.tool) == Latest(facts, ToolOf, e.tool);
      assert e.tool in tools;
      var k :| 0 <= k < |tools| && tools[k] == e.tool;
      assert entries[k] == e;
    }
  }

  /** The roster does not depend on the order in which the facts are read. */
  lemma RosterIgnoresOrder(a: seq<Fact>, b: seq<Fact>, r: Clock, now: string, entries: seq<Entry>)
    requires DistinctNumbers(a, ToolOf) && forall f :: f in a <==> f in b
    requires IsRoster(a, r, now, entries)
    ensures IsRoster(b, r, now, entries)
  {
    forall e ensures Current(a, r, now, e) <==> Current(b, r, now, e) { LatestIgnoresOrder(a, b, ToolOf, e.tool); }
  }

  /** Nor on any fact that is not a presence of an agent. */
  lemma RosterOfFiltered(facts: seq<Fact>, p: Fact -> bool, r: Clock, now: string, entries: seq<Entry>)
    requires forall f :: ToolOf(f).Some? ==> p(f)
    ensures IsRoster(Filter(facts, p), r, now, entries) <==> IsRoster(facts, r, now, entries)
  {
    forall e
      ensures Current(Filter(facts, p), r, now, e) <==> Current(facts, r, now, e)
    {
      LatestOfFiltered(facts, ToolOf, p, e.tool);
    }
  }

  /** Two rosters of the same facts are one. */
  lemma OneRoster(facts: seq<Fact>, r: Clock, now: string, a: seq<Entry>, b: seq<Entry>)
    requires IsRoster(facts, r, now, a) && IsRoster(facts, r, now, b)
    ensures a == b
  {
    forall x: Entry, y: Entry ensures !(ByTool(x, y) && ByTool(y, x)) { StrLeqTotal(x.tool, y.tool); }
    OneStrictOrder(a, b, ByTool);
  }
}
