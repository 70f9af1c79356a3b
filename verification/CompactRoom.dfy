/**
  `compose` of agent_view.rs: a document that states its own byte length, trimmed to a budget by
  dropping optional peers and never by cutting a critical row.
  */
module CompactRoom {
  import opened Basics
  import opened Sorting
  import opened Ledger

  // ---------------------------------------------------------------------------
  // Rendered sizes
  // ---------------------------------------------------------------------------

  datatype Squad = Squad(tool: string, freshness: string, lastSeen: int)

  datatype Reason = NoReason | OverBudget | Severe {
    function Text(): (text: string)
      ensures Bytes() == if NoReason? then |"null"| else |text| + 2
    {
      match this
      case NoReason => ""
      case OverBudget => "critical context exceeds budget; retained in full"
      case Severe => "critical context exceeds 3x budget; retained in full; see budget.breakdown"
    }

    /** JSON bytes of the value: `null`, or the quoted text. */
    function Bytes(): nat {
      match this
      case NoReason => 4
      case OverBudget => 51
      case Severe => 76
    }
  }

  function ReasonFor(over: bool, severe: bool): Reason {
    if severe then Severe else if over then OverBudget else NoReason
  }

  function FlagBytes(b: bool): nat {
    if b then 4 else 5
  }

  /** Decimal digits of `n`. */
  function Digits(n: nat): (d: nat)
    ensures 1 <= d <= n / 2 + 1
  {
    if n < 10 then 1 else 1 + Digits(n / 10)
  }

  lemma {:induction false} DigitsMonotone(a: nat, b: nat)
    requires a <= b
    ensures Digits(a) <= Digits(b)
  {
    if a >= 10 { DigitsMonotone(a / 10, b / 10); }
  }

  lemma {:induction false} DigitsAreWritten(n: nat)
    ensures |DecimalNat(n)| == Digits(n)
  {
    if n >= 10 { DigitsAreWritten(n / 10); }
  }

  /**
    The parts of the rendered size that do not depend on the budget fields: everything fixed, the peers
    array as any function of the kept peers, and the breakdown, which is never empty.
    */
  datatype Layout = Layout(fixed: nat, peers: seq<Squad> -> nat, breakdown: nat)

  /** `budget * 3` in 64-bit arithmetic. */
  function Tripled(budget: nat): nat {
    budget * 3 % 0x1_0000_0000_0000_0000
  }

  /** The size without the digits of `emitted`. */
  function Base(l: Layout, peers: seq<Squad>, omitted: nat, over: bool, severe: bool, reason: Reason,
      broken: bool): nat {
    l.fixed + l.peers(peers) + Digits(omitted) + FlagBytes(over) + FlagBytes(severe) + reason.Bytes()
    + if broken then l.breakdown else 0
  }

  /** The fixed pieces of a rendered document and what it shows of peers and breakdown. */
  datatype Texts = Texts(pieces: seq<string>, peers: seq<Squad> -> string, breakdown: string)

  ghost predicate Fits(t: Texts, l: Layout) {
    && |t.pieces| == 8 && l.breakdown == |t.breakdown| && (forall peers :: l.peers(peers) == |t.peers(peers)|)
    && l.fixed == |t.pieces[0]| + |t.pieces[1]| + |t.pieces[2]| + |t.pieces[3]| + |t.pieces[4]| + |t.pieces[5]|
       + |t.pieces[6]| + |t.pieces[7]|
  }

  function Flag(b: bool): string {
    if b then "true" else "false"
  }

  /** The whole document as text, with its own length written into it. */
  function Rendered(t: Texts, peers: seq<Squad>, omitted: nat, emitted: nat, over: bool, severe: bool, reason: string,
      broken: bool): string
    requires |t.pieces| == 8
  {
    t.pieces[0] + t.peers(peers) + t.pieces[1] + DecimalNat(omitted) + t.pieces[2] + DecimalNat(emitted) + t.pieces[3]
    + Flag(over) + t.pieces[4] + Flag(severe) + t.pieces[5] + reason + t.pieces[6]
    + (if broken then t.breakdown else "") + t.pieces[7]
  }

  /** `Base` and the digits of the stated size are the length of the rendered text, whatever its fixed pieces. */
  lemma BaseIsLength(t: Texts, l: Layout, peers: seq<Squad>, omitted: nat, emitted: nat, over: bool, severe: bool)
    requires Fits(t, l)
    ensures var reason :=
        if severe then "\"critical context exceeds 3x budget; retained in full; see budget.breakdown\""
        else if over then "\"critical context exceeds budget; retained in full\"" else "null";
      |Rendered(t, peers, omitted, emitted, over, severe, reason, over)|
      == Base(l, peers, omitted, over, severe, ReasonFor(over, severe), over) + Digits(emitted)
    ensures severe ==>
      ReasonFor(over, severe).Text() == "critical context exceeds 3x budget; retained in full; see budget.breakdown"
    ensures over && !severe ==> ReasonFor(over, severe).Text() == "critical context exceeds budget; retained in full"
    ensures !over && !severe ==> ReasonFor(over, severe) == NoReason
  {
    DigitsAreWritten(omitted);
    DigitsAreWritten(emitted);
  }

  /** Raising flags never shortens the document: the reason or the breakdown outweighs `false` becoming `true`. */
  lemma RaisingGrows(l: Layout, peers: seq<Squad>, omitted: nat, over: bool, severe: bool, over': bool, severe': bool)
    requires l.breakdown > 0 && (over ==> over') && (severe ==> severe')
    ensures Base(l, peers, omitted, over, severe, ReasonFor(over, severe), over)
         <= Base(l, peers, omitted, over', severe', ReasonFor(over', severe'), over')
  {
  }

  // ---------------------------------------------------------------------------
  // The distance of a claimed size from a fixpoint of base + digits
  // ---------------------------------------------------------------------------

  /** Falls with every step `emitted := base + Digits(emitted)` that changes `emitted`. */
  function Distance(base: nat, emitted: nat): nat {
    if emitted <= base + Digits(emitted) then Roof(base, emitted); (2 * base + 4) - emitted
      else (2 * base + 4) + 1 + emitted
  }

  /** A claimed size that is not too large lies below twice its base. */
  lemma Roof(base: nat, emitted: nat)
    requires emitted <= base + Digits(emitted)
    ensures emitted <= 2 * base + 4
  {
  }

  lemma DistanceFalls(base: nat, emitted: nat)
    requires emitted != base + Digits(emitted)
    ensures Distance(base, base + Digits(emitted)) < Distance(base, emitted)
  {
    var next := base + Digits(emitted);
    if emitted < next {
      DigitsMonotone(emitted, next);
    } else {
      DigitsMonotone(next, emitted);
    }
  }

  // ---------------------------------------------------------------------------
  // The document
  // ---------------------------------------------------------------------------

  class Body {
    const layout: Layout
    const squadsTotal: nat
    var claims: seq<Fact>
    var blockers: seq<Fact>
    var obligations: seq<Fact>
    var decisions: seq<Fact>
    var peers: seq<Squad>
    var peersOmitted: nat
    var emittedBytes: nat
    var overBudget: bool
    var severe: bool
    var reason: Reason
    var hasBreakdown: bool

    constructor (layout: Layout, squadsTotal: nat, claims: seq<Fact>, blockers: seq<Fact>, obligations: seq<Fact>,
                 decisions: seq<Fact>, peers: seq<Squad>)
      requires |peers| <= squadsTotal
      ensures this.layout == layout && this.squadsTotal == squadsTotal && this.peers == peers
      ensures this.claims == claims && this.blockers == blockers && this.obligations == obligations
           && this.decisions == decisions
      ensures Initial() && |peers| + peersOmitted == squadsTotal
    {
      this.layout, this.squadsTotal := layout, squadsTotal;
      this.claims, this.blockers, this.obligations, this.decisions := claims, blockers, obligations, decisions;
      this.peers, this.peersOmitted := peers, squadsTotal - |peers|;
      emittedBytes, overBudget, severe, reason, hasBreakdown := 0, false, false, NoReason, false;
    }

    predicate Initial()
      reads this
    {
      emittedBytes == 0 && !overBudget && !severe && reason == NoReason && !hasBreakdown
    }

    function BaseBytes(): nat
      reads this
    {
      Base(layout, peers, peersOmitted, overBudget, severe, reason, hasBreakdown)
    }

    /** The bytes of the whole rendered envelope, its own length included. */
    function Size(): nat
      reads this
    {
      BaseBytes() + Digits(emittedBytes)
    }

    /** What every round of the loop keeps. */
    ghost predicate Kept(budget: nat)
      reads this
    {
      && reason == ReasonFor(overBudget, severe)
      && hasBreakdown == overBudget
      && (budget == 0 ==> !overBudget && !severe)
      && (overBudget ==> peers == [] && budget < emittedBytes <= Size())
      && (!overBudget && budget != 0 ==> emittedBytes <= budget)
      && (budget != 0 && budget * 3 < 0x1_0000_0000_0000_0000 && severe ==> overBudget && budget * 3 < emittedBytes)
    }

    /** The stated size is no larger than the real one, and a raised severe flag is backed by the wrapped comparison. */
    ghost predicate SevereStands(budget: nat)
      reads this
    {
      emittedBytes <= Size() && (severe ==> budget != 0 && Tripled(budget) < emittedBytes)
    }

    /** The document fits the budget with every flag raised, so that no peer will have to go. */
    predicate Roomy(budget: nat)
      reads this
    {
      Base(layout, peers, peersOmitted, true, true, Severe, true) + Digits(budget) <= budget
    }

    /**
      The settling loop.  It ends for every document and budget; the size it states is the size it has;
      the over-budget flag is exact; so is the severe flag whenever `budget * 3` fits 64 bits, and where
      no peer is dropped it is exact for the wrapped product; nothing but peers is dropped, from the end,
      and every drop is counted.
      */
    method Settle(budget: nat)
      requires Initial() && |peers| + peersOmitted == squadsTotal && layout.breakdown > 0
      modifies `peers, `peersOmitted, `emittedBytes, `overBudget, `severe, `reason, `hasBreakdown
      ensures emittedBytes == Size()
      ensures peers <= old(peers) && |peers| + peersOmitted == squadsTotal
      ensures overBudget <==> budget != 0 && Size() > budget
      ensures budget * 3 < 0x1_0000_0000_0000_0000 ==> (severe <==> budget != 0 && Size() > budget * 3)
      ensures budget != 0 && Size() > Tripled(budget) ==> severe
      ensures peers == old(peers) ==> (severe <==> budget != 0 && Size() > Tripled(budget))
      ensures peers == old(peers) && Size() < 0x1_0000_0000_0000_0000 ==>
        ((severe <==> budget != 0 && Size() > budget * 3) <==>
          budget * 3 < 0x1_0000_0000_0000_0000 || Size() <= Tripled(budget))
      ensures budget == 0 ==> !severe
      ensures old(Roomy(budget)) ==> peers == old(peers) && !overBudget
      ensures overBudget ==> peers == []
      ensures hasBreakdown <==> overBudget
      ensures reason == ReasonFor(overBudget, severe)
      ensures budget == 0 ==> peers == old(peers)
    {
      var done := false;
      while !done
        invariant Kept(budget) && peers <= old(peers) && |peers| + peersOmitted == squadsTotal
        invariant budget == 0 ==> peers == old(peers)
        invariant peers == old(peers) ==> SevereStands(budget)
        invariant old(Roomy(budget)) ==> Roomy(budget) && peers == old(peers) && emittedBytes <= budget
        invariant done ==> Settled(budget)
        decreases !done, |peers|, !overBudget, !severe, Distance(BaseBytes(), emittedBytes)
      {
        done := Round(budget);
      }
    }

    /** A round that would change nothing. */
    ghost predicate Settled(budget: nat)
      reads this
    {
      && emittedBytes == Size()
      && (budget != 0 && Size() > budget ==> overBudget)
      && (budget != 0 && Size() > Tripled(budget) ==> severe)
    }

    /** One pass of the loop: drop a peer, or stop, or restate the budget fields. */
    method Round(budget: nat) returns (done: bool)
      requires Kept(budget) && layout.breakdown > 0
      modifies `peers, `peersOmitted, `emittedBytes, `overBudget, `severe, `reason, `hasBreakdown
      ensures Kept(budget)
      ensures done ==> Settled(budget) && peers == old(peers) && peersOmitted == old(peersOmitted)
      ensures peers <= old(peers) && |peers| + peersOmitted == |old(peers)| + old(peersOmitted)
      ensures budget == 0 ==> peers == old(peers)
      ensures (old(overBudget) ==> overBudget) && (old(severe) ==> severe)
      ensures old(SevereStands(budget)) && peers == old(peers) ==> SevereStands(budget)
      ensures old(Roomy(budget) && emittedBytes <= budget) ==>
        Roomy(budget) && peers == old(peers) && emittedBytes <= budget
      ensures !done && peers == old(peers) && overBudget == old(overBudget) && severe == old(severe)
          ==> Distance(BaseBytes(), emittedBytes) < old(Distance(BaseBytes(), emittedBytes))
    {
      var size := Size();
      RaisingGrows(layout, peers, peersOmitted, overBudget, severe, true, true);
      if emittedBytes <= budget { DigitsMonotone(emittedBytes, budget); }
      if budget != 0 && size > budget && peers != [] {
        Pop();
        return false;
      }
      var overflow := overBudget || (budget != 0 && size > budget);
      var isSevere := severe || (budget != 0 && size > Tripled(budget));
      var addBreakdown := overflow && !hasBreakdown;
      if emittedBytes == size && overBudget == overflow && severe == isSevere
         && reason == ReasonFor(overflow, isSevere) && !addBreakdown {
        return true;
      }
      if overBudget == overflow && severe == isSevere { DistanceFalls(BaseBytes(), emittedBytes); }
      Restate(size, overflow, isSevere, addBreakdown, budget);
      return false;
    }

    /** Drops the least recent peer and counts it. */
    method Pop()
      requires peers != []
      modifies `peers, `peersOmitted
      ensures peers == old(peers)[..|old(peers)| - 1] && peersOmitted == old(peersOmitted) + 1
    {
      peers := peers[..|peers| - 1];
      peersOmitted := peersOmitted + 1;
    }

    /** Writes the measured size and the flags, which only ever rise. */
    method Restate(size: nat, overflow: bool, isSevere: bool, addBreakdown: bool, budget: nat)
      requires Kept(budget) && size == Size() && layout.breakdown > 0
      requires overflow == (overBudget || (budget != 0 && size > budget)) && (overflow ==> peers == [])
      requires isSevere == (severe || (budget != 0 && size > Tripled(budget)))
      requires addBreakdown == (overflow && !hasBreakdown)
      modifies `emittedBytes, `overBudget, `severe, `reason, `hasBreakdown
      ensures Kept(budget) && (old(emittedBytes) <= size ==> size <= Size())
      ensures emittedBytes == size && overBudget == overflow && severe == isSevere
      ensures reason == ReasonFor(overflow, isSevere) && hasBreakdown == (old(hasBreakdown) || addBreakdown)
    {
      ghost var base := BaseBytes();
      RaisingGrows(layout, peers, peersOmitted, overBudget, severe, overflow, isSevere);
      if emittedBytes <= size { DigitsMonotone(emittedBytes, size); }
      emittedBytes := size;
      overBudget := overflow;
      severe := isSevere;
      reason := ReasonFor(overflow, isSevere);
      if addBreakdown { hasBreakdown := true; }
      assert base <= BaseBytes();
    }
  }

  // ---------------------------------------------------------------------------
  // Composing a room view
  // ---------------------------------------------------------------------------

  predicate MoreRecent(a: Squad, b: Squad) {
    a.lastSeen > b.lastSeen || (a.lastSeen == b.lastSeen && StrLeq(a.tool, b.tool))
  }

  lemma MoreRecentIsOrder()
    ensures IsOrder(MoreRecent)
  {
    StrLeqIsOrder();
  }

  /** The other squads that are fresh, most recently seen first, ties by tool. */
  function RecencyOrder(squads: seq<Squad>, tool: string): (order: seq<Squad>)
    ensures |order| <= |squads|
  {
    var others := Filter(squads, (s: Squad) => s.tool != tool && s.freshness == "fresh");
    SortKeeps(others, MoreRecent);
    Sort(others, MoreRecent)
  }

  lemma RecencyOrderIs(squads: seq<Squad>, tool: string, s: Squad)
    ensures var order := RecencyOrder(squads, tool);
      forall i, j :: 0 <= i < j < |order| ==>
        || order[i].lastSeen > order[j].lastSeen
        || (order[i].lastSeen == order[j].lastSeen && StrLeq(order[i].tool, order[j].tool))
    ensures multiset(RecencyOrder(squads, tool))[s]
         == if s.tool != tool && s.freshness == "fresh" then multiset(squads)[s] else 0
    ensures |RecencyOrder(squads, tool)| <= |squads|
  {
    var p := (s: Squad) => s.tool != tool && s.freshness == "fresh";
    MoreRecentIsOrder();
    SortSorts(Filter(squads, p), MoreRecent);
    SortKeeps(Filter(squads, p), MoreRecent);
    FilterCounts(squads, p, s);
  }

  /** Who asks, for which paths, and how a scope covers a path. */
  datatype Viewer = Viewer(tool: string, paths: seq<string>, matches: (string, string) -> bool)

  predicate Addressed(v: Viewer, f: Fact) {
    f.tool == Some(v.tool) || f.target == Some(v.tool)
  }

  predicate Scoped(v: Viewer, f: Fact) {
    exists p <- v.paths :: exists s <- f.scope :: v.matches(s, p)
  }

  predicate ShowsClaim(v: Viewer, f: Fact) {
    v.paths == [] || Addressed(v, f) || Scoped(v, f)
  }

  predicate ShowsFact(v: Viewer, f: Fact) {
    v.paths == [] || f.scope == [] || Addressed(v, f) || Scoped(v, f)
  }

  predicate ShowsObligation(v: Viewer, f: Fact) {
    f.target == Some(v.tool)
  }

  /**
    What the viewer is shown: without paths everything but other tools' obligations; with paths the claims and facts
    that name the viewer or cover one of them, and the facts without a scope.
    */
  lemma ShownExactly(v: Viewer, f: Fact)
    ensures var mine := f.tool == Some(v.tool) || f.target == Some(v.tool);
      var covers := exists p <- v.paths, s <- f.scope :: v.matches(s, p);
      && (ShowsClaim(v, f) <==> v.paths == [] || mine || covers)
      && (ShowsFact(v, f) <==> v.paths == [] || mine || covers || f.scope == [])
      && (ShowsObligation(v, f) <==> f.target == Some(v.tool))
  {
  }

  /**
    The compact view of a room: the viewer's claims, blockers, obligations and decisions in full, whatever
    the budget; at most eight peers in recency order, settled to the budget.
    */
  method Compose(layout: Layout, squads: seq<Squad>, v: Viewer, claims: seq<Fact>, blockers: seq<Fact>,
                 obligations: seq<Fact>, decisions: seq<Fact>, budget: nat) returns (body: Body)
    requires layout.breakdown > 0
    ensures fresh(body)
    ensures body.claims == Filter(claims, f => ShowsClaim(v, f)) &&
      body.blockers == Filter(blockers, f => ShowsFact(v, f))
    ensures body.obligations == Filter(obligations, f => ShowsObligation(v, f)) &&
      body.decisions == Filter(decisions, f => ShowsFact(v, f))
    ensures body.peers <= RecencyOrder(squads, v.tool) && |body.peers| <= 8
    ensures |body.peers| + body.peersOmitted == |squads|
    ensures var order := RecencyOrder(squads, v.tool);
      var kept := if |order| > 8 then order[..8] else order;
      budget == 0 || Base(layout, kept, |squads| - |kept|, true, true, Severe, true) + Digits(budget) <= budget
      ==> body.peers == kept && !body.overBudget
    ensures body.emittedBytes == body.Size()
    ensures body.overBudget <==> budget != 0 && body.Size() > budget
    ensures budget * 3 < 0x1_0000_0000_0000_0000 ==> (body.severe <==> budget != 0 && body.Size() > budget * 3)
    ensures body.overBudget ==> body.peers == [] && body.hasBreakdown
  {
    var order := RecencyOrder(squads, v.tool);
    var kept := if |order| > 8 then order[..8] else order;
    body := new Body(layout, |squads|, Filter(claims, f => ShowsClaim(v, f)), Filter(blockers, f => ShowsFact(v, f)),
                     Filter(obligations, f => ShowsObligation(v, f)), Filter(decisions, f => ShowsFact(v, f)), kept);
    body.Settle(budget);
  }

  const WRAPPING_BUDGET := 6148914691236517206

  /** Where `budget * 3` wraps, the severe flag is wrong: every document ends severe, even one within its budget. */
  method SevereAtWrappingBudget(body: Body)
    requires body.Initial() && |body.peers| + body.peersOmitted == body.squadsTotal && body.layout.breakdown > 0
    modifies body
    ensures body.severe && (body.Size() <= WRAPPING_BUDGET ==> !body.overBudget)
  {
    assert Tripled(WRAPPING_BUDGET) == 2;
    body.Settle(WRAPPING_BUDGET);
  }
}
