/** The before-write check: findings gathered from the room, and the verdict they add up to.  check.rs. */
module WriteCheck {
  import opened Basics
  import opened Ledger

  datatype Severity = Stop | Warn | Info

  datatype Code =
    | MissingPath | StaleOwnerClaim | ClaimedPath | AmbiguousPath | BindingDecision | UnscopedDecision
    | ActiveBlocker | RoomFreeze | UnscopedBlocker | HandoffBaseBehind

  datatype Finding = Finding(code: Code, severity: Severity, message: string, factId: Option<string>,
      owner: Option<string>,
                             path: Option<string>, ownerIdleSecs: Option<int>, scope: seq<string>)

  datatype Squad = Squad(tool: string, status: string, ageSecs: Option<int>)

  datatype Snapshot = Snapshot(claims: seq<Fact>, decisions: seq<Fact>, blockers: seq<Fact>, handoffs: seq<Fact>,
                               squads: seq<Squad>, roomFreezeId: Option<string>)

  /**
    One call: who asks, for which path, how paths and scopes compare, and how a finding is worded from its
    code, its fact, the owner's silence and the colliding scope.  `behind` tells the handoffs that this tool
    could be working from and whose recorded base differs from the file.
    */
  datatype Query = Query(tool: string, path: Option<string>, strict: bool, matches: (string, string) -> bool,
                         collides: (string, string) -> bool, words: (Code, Fact, Option<int>, string) -> string,
                         behind: Fact -> bool)

  // ---------------------------------------------------------------------------
  // Findings
  // ---------------------------------------------------------------------------

  function IdleOwners(s: Snapshot): set<string> {
    set q | q in s.squads && q.status == "idle" :: q.tool
  }

  function AgeOf(squads: seq<Squad>, tool: string): Option<int> {
    if squads == [] then None else if squads[0].tool == tool then squads[0].ageSecs else AgeOf(squads[1..], tool)
  }

  predicate Covers(q: Query, f: Fact) {
    q.path.Some? && exists scope <- f.scope :: q.matches(scope, q.path.value)
  }

  predicate OwnerIdle(s: Snapshot, f: Fact) {
    f.tool.Some? && f.tool.value in IdleOwners(s)
  }

  /** The first scope that may be the same file under another name. */
  function Colliding(q: Query, scopes: seq<string>): Option<string>
    requires q.path.Some?
  {
    if scopes == [] then None else if q.collides(scopes[0], q.path.value) then Some(scopes[0])
      else Colliding(q, scopes[1..])
  }

  function ClaimFinding(s: Snapshot, q: Query, c: Fact): Option<Finding> {
    if q.path.None? || c.tool == Some(q.tool) then None else
    var idle := AgeOf(s.squads, if c.tool.Some? then c.tool.value else "unknown owner");
    if Covers(q, c) && OwnerIdle(s, c) then
      Some(Finding(StaleOwnerClaim, Warn, q.words(StaleOwnerClaim, c, idle, ""), Some(c.eventId), c.tool, q.path, idle,
        []))
    else if Covers(q, c) then
      Some(Finding(ClaimedPath, Stop, q.words(ClaimedPath, c, idle, ""), Some(c.eventId), c.tool, q.path, idle, []))
    else match Colliding(q, c.scope)
      case None => None
      case Some(scope) => Some(Finding(AmbiguousPath, Warn, q.words(AmbiguousPath, c, None, scope), Some(c.eventId),
        c.tool, q.path, None, []))
  }

  function DecisionFinding(q: Query, d: Fact): Option<Finding> {
    if Covers(q, d) then Some(Finding(BindingDecision, Info, d.subject, Some(d.eventId), None, q.path, None, []))
    else if d.scope == [] then Some(Finding(UnscopedDecision, Info, d.subject, Some(d.eventId), None, None, None, []))
    else None
  }

  function BlockerFinding(s: Snapshot, q: Query, b: Fact): Option<Finding> {
    if Covers(q, b) then Some(Finding(ActiveBlocker, Stop, b.subject, Some(b.eventId), None, q.path, None, []))
    else if b.scope != [] then None
    else if s.roomFreezeId == Some(b.eventId) then
      Some(Finding(RoomFreeze, Stop, q.words(RoomFreeze, b, None, ""), Some(b.eventId), b.tool, q.path, None, []))
    else Some(Finding(UnscopedBlocker, Warn, q.words(UnscopedBlocker, b, None, ""), Some(b.eventId), b.tool, None, None,
      []))
  }

  /** This tool has claimed the path since the handoff was written. */
  predicate AlreadyTaken(s: Snapshot, q: Query, h: Fact) {
    exists c <- s.claims :: c.tool == Some(q.tool) && c.number > h.number && Covers(q, c)
  }

  function HandoffFinding(s: Snapshot, q: Query, h: Fact): Option<Finding> {
    if q.path.None? || !q.behind(h) || AlreadyTaken(s, q, h) then None
    else Some(Finding(HandoffBaseBehind, Warn, q.words(HandoffBaseBehind, h, None, ""), Some(h.eventId), h.tool, q.path,
      None, h.scope))
  }

  function PathFinding(q: Query): Option<Finding> {
    if q.path.Some? then None
    else Some(Finding(MissingPath, Warn, "before-write checks are stronger with --path", None, None, None, None, []))
  }

  function Listed(o: Option<Finding>): seq<Finding> {
    if o.Some? then [o.value] else []
  }

  /** The findings of a list of facts, in its order. */
  function Collect(facts: seq<Fact>, find: Fact -> Option<Finding>): seq<Finding> {
    if facts == [] then [] else Listed(find(facts[0])) + Collect(facts[1..], find)
  }

  lemma {:induction false} CollectConcat(a: seq<Fact>, b: seq<Fact>, find: Fact -> Option<Finding>)
    ensures Collect(a + b, find) == Collect(a, find) + Collect(b, find)
  {
    if a == [] {
      assert a + b == b;
    } else {
      assert (a + b)[0] == a[0] && (a + b)[1..] == a[1..] + b;
      CollectConcat(a[1..], b, find);
    }
  }

  function Findings(s: Snapshot, q: Query): seq<Finding> {
    Listed(PathFinding(q)) + Collect(s.claims, c => ClaimFinding(s, q, c)) +
      Collect(s.decisions, d => DecisionFinding(q, d))
    + Collect(s.blockers, b => BlockerFinding(s, q, b)) + Collect(s.handoffs, h => HandoffFinding(s, q, h))
  }

  /** One of the loops that push onto the shared list. */
  method PushFindings(facts: seq<Fact>, find: Fact -> Option<Finding>, sofar: seq<Finding>)
      returns (findings: seq<Finding>)
    ensures findings == sofar + Collect(facts, find)
  {
    findings := sofar;
    for i := 0 to |facts|
      invariant findings == sofar + Collect(facts[..i], find)
    {
      assert facts[..i + 1] == facts[..i] + [facts[i]];
      CollectConcat(facts[..i], [facts[i]], find);
      assert Collect([facts[i]], find) == Listed(find(facts[i]));
      var found := find(facts[i]);
      if found.Some? { findings := findings + [found.value]; }
    }
    assert facts[..|facts|] == facts;
  }

  // ---------------------------------------------------------------------------
  // The verdict
  // ---------------------------------------------------------------------------

  /** What the agent sees of the finding that stopped the write. */
  datatype Visible = Visible(present: bool, severity: Severity, message: string, owner: Option<string>,
      path: Option<string>, idleSecs: Option<int>)

  datatype Outcome = Outcome(allow: bool, exitCode: int, visible: Visible, findings: seq<Finding>)

  function FirstStop(findings: seq<Finding>): Option<Finding> {
    if findings == [] then None else if findings[0].severity.Stop? then Some(findings[0]) else FirstStop(findings[1..])
  }

  function VisibleOf(stop: Option<Finding>): Visible {
    match stop
    case None => Visible(false, Info, "Rally check passed.", None, None, None)
    case Some(f) => Visible(true, Stop, f.message, f.owner, f.path, f.ownerIdleSecs)
  }

  /** `build_check` for the before-write phase. */
  method BuildCheck(s: Snapshot, q: Query) returns (o: Outcome)
    ensures o.findings == Findings(s, q)
    ensures o.allow == FirstStop(Findings(s, q)).None?
    ensures o.exitCode == if q.strict && !o.allow then 4 else 0
    ensures o.visible == VisibleOf(FirstStop(Findings(s, q)))
  {
    var findings := Listed(PathFinding(q));
    findings := PushFindings(s.claims, c => ClaimFinding(s, q, c), findings);
    findings := PushFindings(s.decisions, d => DecisionFinding(q, d), findings);
    findings := PushFindings(s.blockers, b => BlockerFinding(s, q, b), findings);
    findings := PushFindings(s.handoffs, h => HandoffFinding(s, q, h), findings);
    var stop := FirstStop(findings);
    return Outcome(stop.None?, if q.strict && stop.Some? then 4 else 0, VisibleOf(stop), findings);
  }

  lemma {:induction false} FirstStopConcat(a: seq<Finding>, b: seq<Finding>)
    ensures FirstStop(a + b) == if FirstStop(a).Some? then FirstStop(a) else FirstStop(b)
  {
    if a == [] {
      assert a + b == b;
    } else {
      assert (a + b)[0] == a[0] && (a + b)[1..] == a[1..] + b;
      FirstStopConcat(a[1..], b);
    }
  }

  /** A fact that stops the write. */
  predicate Stops(find: Fact -> Option<Finding>, f: Fact) {
    find(f).Some? && find(f).value.severity.Stop?
  }

  /** The finding of the first fact that stops the write. */
  function FirstStopping(facts: seq<Fact>, find: Fact -> Option<Finding>): Option<Finding> {
    if facts == [] then None else if Stops(find, facts[0]) then find(facts[0]) else FirstStopping(facts[1..], find)
  }

  lemma {:induction false} FirstStopCollect(facts: seq<Fact>, find: Fact -> Option<Finding>)
    ensures FirstStop(Collect(facts, find)) == FirstStopping(facts, find)
  {
    if facts != [] {
      FirstStopConcat(Listed(find(facts[0])), Collect(facts[1..], find));
      FirstStopCollect(facts[1..], find);
    }
  }

  lemma {:induction false} StoppingExists(facts: seq<Fact>, find: Fact -> Option<Finding>)
    ensures FirstStopping(facts, find).Some? <==> exists f <- facts :: Stops(find, f)
  {
    if facts != [] {
      StoppingExists(facts[1..], find);
      assert facts == [facts[0]] + facts[1..];
    }
  }

  /** Facts that do not stop the write may be left out, wherever they stand. */
  lemma {:induction false} StoppingFiltered(facts: seq<Fact>, find: Fact -> Option<Finding>)
    ensures FirstStopping(Filter(facts, f => Stops(find, f)), find) == FirstStopping(facts, find)
  {
    if facts != [] {
      var rest := Filter(facts[1..], f => Stops(find, f));
      StoppingFiltered(facts[1..], find);
      if Stops(find, facts[0]) {
        assert Filter(facts, f => Stops(find, f)) == [facts[0]] + rest;
      } else {
        assert Filter(facts, f => Stops(find, f)) == rest;
      }
    }
  }

  /** The deciding finding is the first stopping claim's, or else the first stopping blocker's. */
  lemma FirstStopIs(s: Snapshot, q: Query)
    ensures var claim := FirstStopping(s.claims, c => ClaimFinding(s, q, c));
      FirstStop(Findings(s, q)) == if claim.Some? then claim
        else FirstStopping(s.blockers, b => BlockerFinding(s, q, b))
  {
    var missing, claims := Listed(PathFinding(q)), Collect(s.claims, c => ClaimFinding(s, q, c));
    var decisions, blockers := Collect(s.decisions, d => DecisionFinding(q, d)),
      Collect(s.blockers, b => BlockerFinding(s, q, b));
    var handoffs := Collect(s.handoffs, h => HandoffFinding(s, q, h));
    FirstStopConcat(missing, claims);
    FirstStopConcat(missing + claims, decisions);
    FirstStopConcat(missing + claims + decisions, blockers);
    FirstStopConcat(missing + claims + decisions + blockers, handoffs);
    FirstStopCollect(s.claims, c => ClaimFinding(s, q, c));
    FirstStopCollect(s.blockers, b => BlockerFinding(s, q, b));
    NeverStops(s.decisions, d => DecisionFinding(q, d));
    NeverStops(s.handoffs, h => HandoffFinding(s, q, h));
  }

  lemma NeverStops(facts: seq<Fact>, find: Fact -> Option<Finding>)
    requires forall f :: !Stops(find, f)
    ensures FirstStop(Collect(facts, find)) == None
  {
    FirstStopCollect(facts, find);
    StoppingExists(facts, find);
  }

  /** A claim of another tool, or of nobody, that covers the path and whose owner is not idle. */
  predicate BlockingClaim(s: Snapshot, q: Query, c: Fact) {
    c.tool != Some(q.tool) && Covers(q, c) && !OwnerIdle(s, c)
  }

  /** A blocker that covers the path, or the authorized freeze. */
  predicate BlockingBlocker(s: Snapshot, q: Query, b: Fact) {
    Covers(q, b) || (b.scope == [] && s.roomFreezeId == Some(b.eventId))
  }

  /** The owner is a squad that the room lists as idle. */
  predicate HasIdleOwner(s: Snapshot, f: Fact) {
    exists squad <- s.squads :: squad.status == "idle" && f.tool == Some(squad.tool)
  }

  /** One of the fact's scopes covers the path asked for. */
  predicate OnPath(q: Query, f: Fact) {
    exists scope <- f.scope :: q.path.Some? && q.matches(scope, q.path.value)
  }

  lemma BlockingIs(s: Snapshot, q: Query, f: Fact)
    ensures BlockingClaim(s, q, f) <==> f.tool != Some(q.tool) && OnPath(q, f) && !HasIdleOwner(s, f)
    ensures BlockingBlocker(s, q, f) <==> OnPath(q, f) || (f.scope == [] && s.roomFreezeId == Some(f.eventId))
    ensures Covers(q, f) <==> OnPath(q, f)
    ensures OwnerIdle(s, f) <==> HasIdleOwner(s, f)
  {
    if HasIdleOwner(s, f) {
      var squad :| squad in s.squads && squad.status == "idle" && f.tool == Some(squad.tool);
      assert squad.tool in IdleOwners(s);
    }
  }

  /**
    The write is denied exactly for a live foreign claim on the path, a blocker on the path, or the authorized
    freeze.
    */
  lemma DeniedExactly(s: Snapshot, q: Query)
    ensures FirstStop(Findings(s, q)).Some? <==>
      || (exists c <- s.claims :: c.tool != Some(q.tool) && OnPath(q, c) && !HasIdleOwner(s, c))
      || (exists b <- s.blockers :: OnPath(q, b) || (b.scope == [] && s.roomFreezeId == Some(b.eventId)))
  {
    FirstStopIs(s, q);
    StoppingExists(s.claims, c => ClaimFinding(s, q, c));
    StoppingExists(s.blockers, b => BlockerFinding(s, q, b));
    forall f ensures BlockingClaim(s, q, f) <==> f.tool != Some(q.tool) && OnPath(q, f) && !HasIdleOwner(s, f) {
      BlockingIs(s, q, f);
    }
    forall f
      ensures BlockingBlocker(s, q, f) <==> OnPath(q, f) || (f.scope == [] && s.roomFreezeId == Some(f.eventId))
    {
      BlockingIs(s, q, f);
    }
    assert forall c :: Stops(x => ClaimFinding(s, q, x), c) <==> BlockingClaim(s, q, c);
    assert forall b :: Stops(x => BlockerFinding(s, q, x), b) <==> BlockingBlocker(s, q, b);
  }

  lemma {:induction false} FirstStoppingIs(facts: seq<Fact>, find: Fact -> Option<Finding>) returns (i: nat)
    ensures FirstStopping(facts, find).Some? ==>
      && i < |facts| && Stops(find, facts[i]) && FirstStopping(facts, find) == find(facts[i])
      && forall k :: 0 <= k < i ==> !Stops(find, facts[k])
  {
    i := 0;
    if facts != [] && !Stops(find, facts[0]) {
      i := FirstStoppingIs(facts[1..], find);
      i := i + 1;
    }
  }

  /** The first claim in the list that denies the write. */
  predicate FirstDenier(s: Snapshot, q: Query, i: nat) {
    && i < |s.claims| && BlockingClaim(s, q, s.claims[i])
    && forall k :: 0 <= k < i ==> !BlockingClaim(s, q, s.claims[k])
  }

  /** A write denied for a claim is reported by the first such claim: its owner, the path, the owner's silence. */
  lemma ReportedClaim(s: Snapshot, q: Query, i: nat)
    requires FirstDenier(s, q, i)
    ensures var c := s.claims[i]; var v := VisibleOf(FirstStop(Findings(s, q)));
      && v.present && v.severity == Stop && v.owner == c.tool && v.path == q.path
      && v.idleSecs == AgeOf(s.squads, if c.tool.Some? then c.tool.value else "unknown owner")
      && v.message == q.words(ClaimedPath, c, v.idleSecs, "")
      && FirstStop(Findings(s, q)).value.code == ClaimedPath
      && FirstStop(Findings(s, q)).value.factId == Some(c.eventId)
  {
    FirstStopIs(s, q);
    var find := c => ClaimFinding(s, q, c);
    assert forall c :: Stops(find, c) <==> BlockingClaim(s, q, c);
    assert Stops(find, s.claims[i]);
    StoppingExists(s.claims, find);
    var j := FirstStoppingIs(s.claims, find);
  }

  /** Nothing is shown exactly when nothing stops the write. */
  lemma NothingReported(s: Snapshot, q: Query)
    ensures var v := VisibleOf(FirstStop(Findings(s, q)));
      && (v.present <==> FirstStop(Findings(s, q)).Some?)
      && (!v.present ==> v == Visible(false, Info, "Rally check passed.", None, None, None))
  {
  }

  /** With no such claim, the first stopping blocker reports it. */
  lemma ReportedBlocker(s: Snapshot, q: Query, i: nat)
    requires forall c <- s.claims :: !BlockingClaim(s, q, c)
    requires i < |s.blockers| && BlockingBlocker(s, q, s.blockers[i])
    requires forall k :: 0 <= k < i ==> !BlockingBlocker(s, q, s.blockers[k])
    ensures var b, found := s.blockers[i], FirstStop(Findings(s, q));
      && found.Some? && found.value.factId == Some(b.eventId) && found.value.path == q.path
      && found.value.code == (if OnPath(q, b) then ActiveBlocker else RoomFreeze)
      && VisibleOf(found).present && VisibleOf(found).severity == Stop && VisibleOf(found).path == q.path
      && VisibleOf(found).message == if OnPath(q, b) then b.subject else q.words(RoomFreeze, b, None, "")
  {
    FirstStopIs(s, q);
    BlockingIs(s, q, s.blockers[i]);
    var claim, find := c => ClaimFinding(s, q, c), b => BlockerFinding(s, q, b);
    assert forall c :: Stops(claim, c) <==> BlockingClaim(s, q, c);
    assert forall b :: Stops(find, b) <==> BlockingBlocker(s, q, b);
    StoppingExists(s.claims, claim);
    assert Stops(find, s.blockers[i]);
    StoppingExists(s.blockers, find);
    var j := FirstStoppingIs(s.blockers, find);
  }

  /** What each kind of fact is found for, and how gravely. */
  lemma CodesExactly(s: Snapshot, q: Query, f: Fact)
    ensures var foreign := q.path.Some? && f.tool != Some(q.tool);
      var near := exists scope <- f.scope :: q.path.Some? && q.collides(scope, q.path.value);
      match ClaimFinding(s, q, f)
      case None => !foreign || (!OnPath(q, f) && !near)
      case Some(x) =>
        && foreign && x.factId == Some(f.eventId) && x.owner == f.tool
        && ((x.code, x.severity) == if OnPath(q, f) && HasIdleOwner(s, f) then (StaleOwnerClaim, Warn)
            else if OnPath(q, f) then (ClaimedPath, Stop) else (AmbiguousPath, Warn))
        && (OnPath(q, f) || near)
    ensures match DecisionFinding(q, f)
      case None => f.scope != [] && !OnPath(q, f)
      case Some(x) =>
        && x.severity == Info && x.message == f.subject && x.factId == Some(f.eventId)
        && x.code == if OnPath(q, f) then BindingDecision else UnscopedDecision
    ensures match BlockerFinding(s, q, f)
      case None => f.scope != [] && !OnPath(q, f)
      case Some(x) =>
        && x.factId == Some(f.eventId)
        && (x.code, x.severity) == if OnPath(q, f) then (ActiveBlocker, Stop)
          else if s.roomFreezeId == Some(f.eventId) then (RoomFreeze, Stop) else (UnscopedBlocker, Warn)
  {
    BlockingIs(s, q, f);
    if q.path.Some? { CollidingIs(q, f.scope); }
  }

  /** A handoff warns when its base is behind, unless this tool has claimed the path since; no path warns by itself. */
  lemma HandoffExactly(s: Snapshot, q: Query, h: Fact)
    ensures match HandoffFinding(s, q, h)
      case Some(x) =>
        && q.path.Some? && q.behind(h) && x.code == HandoffBaseBehind && x.severity == Warn && x.path == q.path
        && x.factId == Some(h.eventId) && x.scope == h.scope
        && forall c <- s.claims :: c.tool == Some(q.tool) && OnPath(q, c) ==> c.number <= h.number
      case None =>
        || q.path.None? || !q.behind(h)
        || exists c <- s.claims :: c.tool == Some(q.tool) && OnPath(q, c) && c.number > h.number
    ensures PathFinding(q).Some? <==> q.path.None?
    ensures q.path.None? ==> PathFinding(q).value.code == MissingPath && PathFinding(q).value.severity == Warn
  {
    forall f ensures Covers(q, f) <==> OnPath(q, f) { BlockingIs(s, q, f); }
  }

  /** The silence of a tool is that of its first squad. */
  lemma {:induction false} AgeIs(squads: seq<Squad>, tool: string, i: nat)
    requires i <= |squads| && forall k :: 0 <= k < i ==> squads[k].tool != tool
    ensures i == |squads| ==> AgeOf(squads, tool) == None
    ensures i < |squads| && squads[i].tool == tool ==> AgeOf(squads, tool) == squads[i].ageSecs
  {
    if i > 0 { AgeIs(squads[1..], tool, i - 1); }
  }

  lemma {:induction false} CollidingIs(q: Query, scopes: seq<string>)
    requires q.path.Some?
    ensures Colliding(q, scopes).Some? <==> exists scope <- scopes :: q.collides(scope, q.path.value)
  {
    if scopes != [] {
      CollidingIs(q, scopes[1..]);
      assert scopes == [scopes[0]] + scopes[1..];
    }
  }

  lemma {:induction false} StoppingSame(facts: seq<Fact>, f: Fact -> Option<Finding>, g: Fact -> Option<Finding>)
    requires forall x :: f(x) == g(x)
    ensures FirstStopping(facts, f) == FirstStopping(facts, g)
  {
    if facts != [] { StoppingSame(facts[1..], f, g); }
  }

  lemma {:induction false} FilterSame<T(!new)>(s: seq<T>, p: T -> bool, q: T -> bool)
    requires forall x :: p(x) == q(x)
    ensures Filter(s, p) == Filter(s, q)
  {
    if s != [] { FilterSame(s[1..], p, q); }
  }

  /** The first stop of a list is fixed by its blocking members alone. */
  lemma StoppingFixed(a: seq<Fact>, b: seq<Fact>, f: Fact -> Option<Finding>, g: Fact -> Option<Finding>,
      blocking: Fact -> bool)
    requires (forall x :: f(x) == g(x)) && (forall x :: blocking(x) == Stops(f, x))
    requires Filter(a, blocking) == Filter(b, blocking)
    ensures FirstStopping(a, f) == FirstStopping(b, g)
  {
    StoppingFiltered(a, f);
    StoppingFiltered(b, f);
    FilterSame(a, blocking, x => Stops(f, x));
    FilterSame(b, blocking, x => Stops(f, x));
    StoppingSame(b, f, g);
  }

  /**
    Two rooms with the same liveness and freeze, the same blocking claims and the same blocking blockers reach
    one verdict, for one reason.
    */
  lemma OnlyBlockingFactsMatter(s: Snapshot, t: Snapshot, q: Query)
    requires s.squads == t.squads && s.roomFreezeId == t.roomFreezeId
    requires Filter(s.claims, c => BlockingClaim(s, q, c)) == Filter(t.claims, c => BlockingClaim(s, q, c))
    requires Filter(s.blockers, b => BlockingBlocker(s, q, b)) == Filter(t.blockers, b => BlockingBlocker(s, q, b))
    ensures FirstStop(Findings(s, q)) == FirstStop(Findings(t, q))
  {
    FirstStopIs(s, q);
    FirstStopIs(t, q);
    SameClaims(s, t, q);
    SameBlockers(s, t, q);
  }

  lemma SameClaims(s: Snapshot, t: Snapshot, q: Query)
    requires s.squads == t.squads
    requires Filter(s.claims, c => BlockingClaim(s, q, c)) == Filter(t.claims, c => BlockingClaim(s, q, c))
    ensures FirstStopping(s.claims, c => ClaimFinding(s, q, c)) == FirstStopping(t.claims, c => ClaimFinding(t, q, c))
  {
    assert forall c :: OwnerIdle(s, c) == OwnerIdle(t, c);
    StoppingFixed(s.claims, t.claims, c => ClaimFinding(s, q, c), c => ClaimFinding(t, q, c),
      c => BlockingClaim(s, q, c));
  }

  lemma SameBlockers(s: Snapshot, t: Snapshot, q: Query)
    requires s.roomFreezeId == t.roomFreezeId
    requires Filter(s.blockers, b => BlockingBlocker(s, q, b)) == Filter(t.blockers, b => BlockingBlocker(s, q, b))
    ensures FirstStopping(s.blockers, b => BlockerFinding(s, q, b)) ==
      FirstStopping(t.blockers, b => BlockerFinding(t, q, b))
  {
    StoppingFixed(s.blockers, t.blockers, b => BlockerFinding(s, q, b), b => BlockerFinding(t, q, b),
      b => BlockingBlocker(s, q, b));
  }

  lemma FilterDrop(a: seq<Fact>, x: Fact, b: seq<Fact>, p: Fact -> bool)
    requires !p(x)
    ensures Filter(a + [x] + b, p) == Filter(a + b, p)
  {
    FilterConcat(a + [x], b, p);
    FilterSnoc(a, x, p);
    FilterConcat(a, b, p);
  }

  /** The caller's own claims and those of idle owners change nothing, wherever they are put. */
  lemma InsertedClaimIgnored(s: Snapshot, q: Query, a: seq<Fact>, c: Fact, b: seq<Fact>)
    requires s.claims == a + b && (c.tool == Some(q.tool) || OwnerIdle(s, c))
    ensures FirstStop(Findings(s.(claims := a + [c] + b), q)) == FirstStop(Findings(s, q))
  {
    FilterDrop(a, c, b, x => BlockingClaim(s, q, x));
    OnlyBlockingFactsMatter(s, s.(claims := a + [c] + b), q);
  }

  /** Nor does an unscoped blocker that is not the authorized freeze. */
  lemma InsertedBlockerIgnored(s: Snapshot, q: Query, a: seq<Fact>, x: Fact, b: seq<Fact>)
    requires s.blockers == a + b && x.scope == [] && s.roomFreezeId != Some(x.eventId)
    ensures FirstStop(Findings(s.(blockers := a + [x] + b), q)) == FirstStop(Findings(s, q))
  {
    FilterDrop(a, x, b, y => BlockingBlocker(s, q, y));
    OnlyBlockingFactsMatter(s, s.(blockers := a + [x] + b), q);
  }

  /** Nor do any decisions and handoffs. */
  lemma DecisionsAndHandoffsIgnored(s: Snapshot, q: Query, decisions: seq<Fact>, handoffs: seq<Fact>)
    ensures FirstStop(Findings(s.(decisions := decisions, handoffs := handoffs), q)) == FirstStop(Findings(s, q))
  {
    OnlyBlockingFactsMatter(s, s.(decisions := decisions, handoffs := handoffs), q);
  }
}
