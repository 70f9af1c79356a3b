/** Claims projected into lanes, and the scopes that still count as claimed: board.rs. */
module Lanes {
  import opened Basics
  import opened Sorting
  import opened Ledger
  import B = Backlog

  datatype LaneStatus = InFlight | LandedUnverified | Closed

  datatype Lane = Lane(status: LaneStatus, owner: Option<string>, subject: string, eventId: string, number: int,
      scope: seq<string>)

  const EXTERNAL := "external-intake"

  predicate Closes(f: Fact) {
    f.kind == "resolve" || f.kind == "release"
  }

  predicate IsArtifact(f: Fact) {
    f.kind == "artifact"
  }

  /** A claim made inside the repository. */
  predicate IsLaneClaim(f: Fact) {
    f.kind == "claim" && EXTERNAL !in f.scope
  }

  // ---------------------------------------------------------------------------
  // What a claim's lane is, read off the ledger directly
  // ---------------------------------------------------------------------------

  /** Resolved or released by name, or any of its scopes released by anyone at any time. */
  predicate Released(facts: seq<Fact>, c: Fact) {
    || (exists f <- facts :: Closes(f) && f.refId == Some(c.eventId))
    || (exists f <- facts :: f.kind == "release" && exists s <- c.scope :: s in f.scope)
  }

  predicate ArtifactFor(f: Fact, c: Fact) {
    IsArtifact(f) && f.refId == Some(c.eventId)
  }

  predicate Landed(facts: seq<Fact>, c: Fact) {
    exists a <- facts :: ArtifactFor(a, c)
  }

  /** Resolved, released, or built upon by another artifact. */
  predicate Settled(facts: seq<Fact>, artifact: string) {
    exists f <- facts :: (Closes(f) || IsArtifact(f)) && f.refId == Some(artifact)
  }

  predicate Accepted(facts: seq<Fact>, c: Fact) {
    exists a <- facts :: ArtifactFor(a, c) && Settled(facts, a.eventId)
  }

  function StatusOf(facts: seq<Fact>, c: Fact): LaneStatus {
    if Released(facts, c) || Accepted(facts, c) then Closed
    else if Landed(facts, c) then LandedUnverified
    else InFlight
  }

  function LaneOf(facts: seq<Fact>, c: Fact): Lane {
    Lane(StatusOf(facts, c), c.tool, c.subject, c.eventId, c.number, c.scope)
  }

  function LanesFor(facts: seq<Fact>, claims: seq<Fact>): (r: seq<Lane>)
    ensures |r| == |claims| && forall k :: 0 <= k < |claims| ==> r[k] == LaneOf(facts, claims[k])
  {
    seq(|claims|, k requires 0 <= k < |claims| => LaneOf(facts, claims[k]))
  }

  predicate BySeq(a: Lane, b: Lane) {
    a.number <= b.number
  }

  function Lanes(facts: seq<Fact>): seq<Lane> {
    Sort(LanesFor(facts, Filter(facts, IsLaneClaim)), BySeq)
  }

  // ---------------------------------------------------------------------------
  // The projection as the board computes it
  // ---------------------------------------------------------------------------

  function ResolvedIds(facts: seq<Fact>): set<string> {
    set f | f in facts && Closes(f) && f.refId.Some? :: f.refId.value
  }

  function ReleasedScopes(facts: seq<Fact>): set<string> {
    set f, s | f in facts && f.kind == "release" && s in f.scope :: s
  }

  function Consumed(facts: seq<Fact>): set<string> {
    set f | f in facts && IsArtifact(f) && f.refId.Some? :: f.refId.value
  }

  predicate Named(facts: seq<Fact>, id: string, artifact: string) {
    exists f <- facts :: IsArtifact(f) && f.refId == Some(id) && f.eventId == artifact
  }

  predicate Listed(m: map<string, seq<string>>, id: string, artifact: string) {
    id in m && artifact in m[id]
  }

  /** The artifacts that name each event, no event listed without one. */
  ghost predicate IsIndex(facts: seq<Fact>, m: map<string, seq<string>>) {
    && (forall id, a :: Listed(m, id, a) <==> Named(facts, id, a))
    && (forall id <- m :: m[id] != [])
  }

  lemma NamedStep(facts: seq<Fact>, f: Fact, id: string, a: string)
    ensures Named(facts + [f], id, a) <==>
      Named(facts, id, a) || (IsArtifact(f) && f.refId == Some(id) && f.eventId == a)
  {
    if Named(facts, id, a) {
      var g :| g in facts && IsArtifact(g) && g.refId == Some(id) && g.eventId == a;
      assert g in facts + [f];
    }
    assert f in facts + [f];
  }

  /** `artifacts_per_claim`. */
  method ArtifactsPerClaim(facts: seq<Fact>) returns (m: map<string, seq<string>>)
    ensures IsIndex(facts, m)
  {
    m := map[];
    for i := 0 to |facts|
      invariant IsIndex(facts[..i], m)
    {
      var f := facts[i];
      assert facts[..i + 1] == facts[..i] + [f];
      forall id, a ensures Named(facts[..i + 1], id, a) <==>
        Named(facts[..i], id, a) || (IsArtifact(f) && f.refId == Some(id) && f.eventId == a) {
        NamedStep(facts[..i], f, id, a);
      }
      if IsArtifact(f) && f.refId.Some? { m := Pushed(m, f.refId.value, f.eventId); }
    }
    assert facts[..|facts|] == facts;
  }

  function Pushed(m: map<string, seq<string>>, id: string, artifact: string): (r: map<string, seq<string>>)
    ensures forall x, a :: Listed(r, x, a) <==> Listed(m, x, a) || (x == id && a == artifact)
  {
    m[id := (if id in m then m[id] else []) + [artifact]]
  }

  predicate ReleasedBySets(resolved: set<string>, scopes: set<string>, c: Fact) {
    c.eventId in resolved || exists s <- c.scope :: s in scopes
  }

  lemma ReleasedIs(facts: seq<Fact>, c: Fact)
    ensures ReleasedBySets(ResolvedIds(facts), ReleasedScopes(facts), c) <==> Released(facts, c)
  {
  }

  /** The status branches of the loop body. */
  function StatusBySets(resolved: set<string>, scopes: set<string>, consumed: set<string>, artifacts: map<string,
      seq<string>>, c: Fact): LaneStatus {
    if ReleasedBySets(resolved, scopes, c) then Closed else
    var landed := c.eventId in artifacts;
    var mine := if landed then artifacts[c.eventId] else [];
    if landed && (exists a <- mine :: a in resolved || a in consumed) then Closed
    else if landed then LandedUnverified
    else InFlight
  }

  lemma StatusIs(facts: seq<Fact>, artifacts: map<string, seq<string>>, c: Fact)
    requires IsIndex(facts, artifacts)
    ensures StatusBySets(ResolvedIds(facts), ReleasedScopes(facts), Consumed(facts), artifacts, c) == StatusOf(facts, c)
  {
    ReleasedIs(facts, c);
    LandedIs(facts, artifacts, c);
    AcceptedIs(facts, artifacts, c);
  }

  lemma LandedIs(facts: seq<Fact>, artifacts: map<string, seq<string>>, c: Fact)
    requires IsIndex(facts, artifacts)
    ensures c.eventId in artifacts <==> Landed(facts, c)
  {
    if c.eventId in artifacts { assert Listed(artifacts, c.eventId, artifacts[c.eventId][0]); }
    if Landed(facts, c) {
      var a :| a in facts && ArtifactFor(a, c);
      assert Named(facts, c.eventId, a.eventId);
    }
  }

  lemma SettledIs(facts: seq<Fact>, artifact: string)
    ensures Settled(facts, artifact) <==> artifact in ResolvedIds(facts) || artifact in Consumed(facts)
  {
  }

  lemma AcceptedIs(facts: seq<Fact>, artifacts: map<string, seq<string>>, c: Fact)
    requires IsIndex(facts, artifacts)
    ensures Accepted(facts, c) <==>
      c.eventId in artifacts && exists a <- artifacts[c.eventId] :: a in ResolvedIds(facts) || a in Consumed(facts)
  {
    forall id
      ensures Settled(facts, id) <==> id in ResolvedIds(facts) || id in Consumed(facts)
    {
      SettledIs(facts, id);
    }
    if Accepted(facts, c) {
      var a :| a in facts && ArtifactFor(a, c) && Settled(facts, a.eventId);
      assert Named(facts, c.eventId, a.eventId);
      assert Listed(artifacts, c.eventId, a.eventId);
    }
    if c.eventId in artifacts && exists a <- artifacts[c.eventId] :: a in ResolvedIds(facts) || a in Consumed(facts) {
      var a :| a in artifacts[c.eventId] && (a in ResolvedIds(facts) || a in Consumed(facts));
      assert Listed(artifacts, c.eventId, a);
      assert Named(facts, c.eventId, a);
    }
  }

  lemma LanesForStep(facts: seq<Fact>, i: nat)
    requires i < |facts|
    ensures LanesFor(facts, Filter(facts[..i + 1], IsLaneClaim))
         == LanesFor(facts, Filter(facts[..i], IsLaneClaim)) + if IsLaneClaim(facts[i]) then [LaneOf(facts, facts[i])]
           else []
  {
    assert facts[..i + 1] == facts[..i] + [facts[i]];
    FilterSnoc(facts[..i], facts[i], IsLaneClaim);
  }

  method ProjectLanes(facts: seq<Fact>) returns (lanes: seq<Lane>)
    ensures lanes == Lanes(facts)
  {
    var resolved, scopes, consumed := ResolvedIds(facts), ReleasedScopes(facts), Consumed(facts);
    var artifacts := ArtifactsPerClaim(facts);
    lanes := [];
    for i := 0 to |facts|
      invariant lanes == LanesFor(facts, Filter(facts[..i], IsLaneClaim))
    {
      var c := facts[i];
      LanesForStep(facts, i);
      if IsLaneClaim(c) {
        StatusIs(facts, artifacts, c);
        lanes := lanes + [Lane(StatusBySets(resolved, scopes, consumed, artifacts, c), c.tool, c.subject, c.eventId,
          c.number, c.scope)];
      }
    }
    assert facts[..|facts|] == facts;
    lanes := Sort(lanes, BySeq);
  }

  // ---------------------------------------------------------------------------
  // Appending moves lanes forward only
  // ---------------------------------------------------------------------------

  function Rank(s: LaneStatus): nat {
    match s case InFlight => 0 case LandedUnverified => 1 case Closed => 2
  }

  /** More facts, wherever they come in, never move a claim back. */
  lemma StatusGrows(facts: seq<Fact>, more: seq<Fact>, c: Fact)
    requires forall f <- facts :: f in more
    ensures Rank(StatusOf(facts, c)) <= Rank(StatusOf(more, c))
  {
    if Accepted(facts, c) {
      var a :| a in facts && ArtifactFor(a, c) && Settled(facts, a.eventId);
      assert a in more;
      assert Accepted(more, c);
    }
  }

  lemma {:induction false} FilterKeepsIncreasing(facts: seq<Fact>, p: Fact -> bool)
    requires B.Increasing(facts)
    ensures B.Increasing(Filter(facts, p))
  {
    var lt := (a: Fact, b: Fact) => a.number < b.number;
    assert Sorted(facts, lt);
    FilterSorted(facts, p, lt);
  }

  /** On a ledger, whose numbers grow, the lanes come in the order of their claims. */
  lemma LanesInLedgerOrder(facts: seq<Fact>)
    requires B.Increasing(facts)
    ensures Lanes(facts) == LanesFor(facts, Filter(facts, IsLaneClaim))
  {
    var claims := Filter(facts, IsLaneClaim);
    FilterKeepsIncreasing(facts, IsLaneClaim);
    SortOfSorted(LanesFor(facts, claims), BySeq);
  }

  predicate MovedForward(before: Lane, after: Lane) {
    before.(status := after.status) == after && Rank(before.status) <= Rank(after.status)
  }

  /** Appending to a ledger keeps every lane in place, moves it forward or not at all, and adds lanes behind. */
  lemma AppendMovesLanesForward(facts: seq<Fact>, more: seq<Fact>)
    requires B.Increasing(facts + more)
    ensures |Lanes(facts)| <= |Lanes(facts + more)|
    ensures forall k :: 0 <= k < |Lanes(facts)| ==> MovedForward(Lanes(facts)[k], Lanes(facts + more)[k])
  {
    var all := facts + more;
    assert forall i :: 0 <= i < |facts| ==> all[i] == facts[i];
    assert B.Increasing(facts);
    LanesInLedgerOrder(facts);
    LanesInLedgerOrder(all);
    FilterConcat(facts, more, IsLaneClaim);
    var claims := Filter(facts, IsLaneClaim);
    forall k | 0 <= k < |claims| ensures MovedForward(Lanes(facts)[k], Lanes(all)[k]) {
      assert Filter(all, IsLaneClaim)[k] == claims[k];
      StatusGrows(facts, all, claims[k]);
    }
  }

  /** Every claim made inside the repository has exactly one lane, which says what the ledger says of it. */
  lemma OneLanePerClaim(facts: seq<Fact>, c: Fact)
    requires B.Increasing(facts) && c in facts && IsLaneClaim(c)
    requires forall d <- facts :: IsLaneClaim(d) && d.eventId == c.eventId ==> d == c
    ensures exists k :: 0 <= k < |Lanes(facts)| && Lanes(facts)[k] == LaneOf(facts, c)
              && forall j :: 0 <= j < |Lanes(facts)| && Lanes(facts)[j].eventId == c.eventId ==> j == k
  {
    var claims := Filter(facts, IsLaneClaim);
    LanesInLedgerOrder(facts);
    FilterKeepsIncreasing(facts, IsLaneClaim);
    FilterMembers(facts, IsLaneClaim, c);
    var k :| 0 <= k < |claims| && claims[k] == c;
    forall j | 0 <= j < |claims| && claims[j].eventId == c.eventId ensures j == k {
      FilterMembers(facts, IsLaneClaim, claims[j]);
    }
    assert Lanes(facts)[k] == LaneOf(facts, c);
  }

  // ---------------------------------------------------------------------------
  // Active claim scopes
  // ---------------------------------------------------------------------------

  /** As `build_board` computes them, apart from the lanes. */
  function ActiveScopes(facts: seq<Fact>): set<string> {
    set f, s | f in facts && f.kind == "claim" && f.eventId !in ResolvedIds(facts)
               && !(exists t <- f.scope :: t in ReleasedScopes(facts)) && EXTERNAL !in f.scope && s in f.scope :: s
  }

  lemma ActiveScopesAre(facts: seq<Fact>, s: string)
    ensures s in ActiveScopes(facts) <==> exists c <- facts :: IsLaneClaim(c) && !Released(facts, c) && s in c.scope
  {
    forall c
      ensures ReleasedBySets(ResolvedIds(facts), ReleasedScopes(facts), c) <==> Released(facts, c)
    {
      ReleasedIs(facts, c);
    }
  }

  // ---------------------------------------------------------------------------
  // The same in the words of the ledger
  // ---------------------------------------------------------------------------

  predicate Names(f: Fact, kinds: set<string>, id: string) {
    f.kind in kinds && f.refId == Some(id)
  }

  /** `a` is an artifact for the event, and `f` settles or builds on that artifact. */
  predicate BuiltUpon(id: string, a: Fact, f: Fact) {
    Names(a, {"artifact"}, id) && Names(f, {"resolve", "release", "artifact"}, a.eventId)
  }

  /**
    Released: resolved or released by id, or sharing a scope with any release.  Closed: released, or an artifact for it
    was itself resolved, released or built upon.  Landed: an artifact names it.
    */
  lemma StatusExactly(facts: seq<Fact>, c: Fact)
    ensures Released(facts, c) <==> exists f <- facts ::
      Names(f, {"resolve", "release"}, c.eventId) || (f.kind == "release" && exists s <- c.scope :: s in f.scope)
    ensures StatusOf(facts, c) == Closed <==>
      || Released(facts, c)
      || (exists a <- facts, f <- facts :: BuiltUpon(c.eventId, a, f))
    ensures StatusOf(facts, c) == InFlight <==>
      !Released(facts, c) && forall a <- facts :: !Names(a, {"artifact"}, c.eventId)
  {
    if StatusOf(facts, c) == Closed && !Released(facts, c) {
      var a :| a in facts && ArtifactFor(a, c) && Settled(facts, a.eventId);
      var f :| f in facts && (Closes(f) || IsArtifact(f)) && f.refId == Some(a.eventId);
      assert BuiltUpon(c.eventId, a, f);
    }
    if a, f :| a in facts && f in facts && BuiltUpon(c.eventId, a, f) {
      assert ArtifactFor(a, c) && Settled(facts, a.eventId);
    }
    if StatusOf(facts, c) == InFlight {
      forall a <- facts ensures !Names(a, {"artifact"}, c.eventId) {
        assert !ArtifactFor(a, c);
      }
    }
    if Landed(facts, c) {
      var a :| a in facts && ArtifactFor(a, c);
      assert Names(a, {"artifact"}, c.eventId);
    }
  }

  /** The lanes are those of the claims made inside the repository, the active scopes those of the unreleased ones. */
  lemma LanesExactly(facts: seq<Fact>, l: Lane, scope: string)
    ensures l in Lanes(facts) <==>
      exists c <- facts ::
        && c.kind == "claim" && "external-intake" !in c.scope
        && l == Lane(StatusOf(facts, c), c.tool, c.subject, c.eventId, c.number, c.scope)
    ensures scope in ActiveScopes(facts) <==>
      exists c <- facts ::
        && c.kind == "claim" && "external-intake" !in c.scope
        && scope in c.scope && !Released(facts, c)
  {
    var claims := Filter(facts, IsLaneClaim);
    var unsorted := LanesFor(facts, claims);
    SortMembers(unsorted, BySeq, l);
    ActiveScopesAre(facts, scope);
    if l in Lanes(facts) {
      var j :| 0 <= j < |unsorted| && unsorted[j] == l;
      FilterMembers(facts, IsLaneClaim, claims[j]);
    }
    if c :| c in facts && IsLaneClaim(c) && l == LaneOf(facts, c) {
      FilterMembers(facts, IsLaneClaim, c);
      var j :| 0 <= j < |claims| && claims[j] == c;
      assert unsorted[j] == l;
    }
  }

  /** A lane that is not closed has all its scopes among the active ones. */
  lemma OpenLaneScopesAreActive(facts: seq<Fact>, k: nat, s: string)
    requires k < |Lanes(facts)| && Lanes(facts)[k].status != Closed && s in Lanes(facts)[k].scope
    ensures s in ActiveScopes(facts)
  {
    var claims := Filter(facts, IsLaneClaim);
    var unsorted := LanesFor(facts, claims);
    SortMembers(unsorted, BySeq, Lanes(facts)[k]);
    var j :| 0 <= j < |unsorted| && unsorted[j] == Lanes(facts)[k];
    FilterMembers(facts, IsLaneClaim, claims[j]);
    ActiveScopesAre(facts, s);
  }

  /** A lane closed through an accepted artifact alone still counts among the active scopes. */
  lemma ClosedLaneStillClaims(facts: seq<Fact>, c: Fact, s: string)
    requires c in facts && IsLaneClaim(c) && StatusOf(facts, c) == Closed && s in c.scope && !Released(facts, c)
    ensures Accepted(facts, c) && s in ActiveScopes(facts)
  {
    ActiveScopesAre(facts, s);
  }

  /** Release by scope ignores order: a claim made after the release of one of its scopes is closed at birth. */
  lemma ReclaimedScopeIsClosed(facts: seq<Fact>, release: Fact, c: Fact, s: string)
    requires release in facts && release.kind == "release" && s in release.scope && s in c.scope
    ensures StatusOf(facts + [c], c) == Closed
  {
    assert release in facts + [c];
  }
}
