/** The backlog view of board.rs: what is open, what waits, what is done, and how far finishing open items gets. */
module BacklogView {
  import opened Basics
  import opened Sorting
  import opened Ledger
  import opened BacklogCodec
  import opened Backlog

  // ---------------------------------------------------------------------------
  // The view
  // ---------------------------------------------------------------------------

  function AllIds(items: seq<Item>): set<string> {
    set x | x in items :: x.id
  }

  function SatisfiedIds(items: seq<Item>): set<string> {
    set x | x in items && x.status == "done" :: x.id
  }

  predicate OwnsClaimed(x: Item, scopes: set<string>) {
    exists path <- x.owns :: path in scopes || ("file:" + path) in scopes
  }

  predicate Waits(x: Item, ids: set<string>, done: set<string>) {
    exists dep <- x.dependsOn :: dep in ids && dep !in done
  }

  datatype View = View(open: seq<Item>, blocked: seq<Item>, done: seq<Item>)

  datatype Place = IsOpen | IsBlocked | IsDone

  function PlaceOf(items: seq<Item>, scopes: set<string>, x: Item): Place {
    var done := SatisfiedIds(items);
    if x.id in done then IsDone
    else if Waits(x, AllIds(items), done) || OwnsClaimed(x, scopes) then IsBlocked
    else IsOpen
  }

  function Placed(items: seq<Item>, scopes: set<string>, some: seq<Item>, place: Place): seq<Item> {
    Filter(some, x => PlaceOf(items, scopes, x) == place)
  }

  lemma PlacedStep(items: seq<Item>, scopes: set<string>, some: seq<Item>, x: Item, place: Place)
    ensures Placed(items, scopes, some + [x], place)
         == if PlaceOf(items, scopes, x) == place then Placed(items, scopes, some, place) + [x]
           else Placed(items, scopes, some, place)
  {
    FilterSnoc(some, x, y => PlaceOf(items, scopes, y) == place);
  }

  /** Each item goes to one of the three lists, which keep the order of the items. */
  method ProjectBacklogView(items: seq<Item>, scopes: set<string>) returns (v: View)
    ensures v == View(Placed(items, scopes, items, IsOpen), Placed(items, scopes, items, IsBlocked),
      Placed(items, scopes, items, IsDone))
  {
    var ids, doneIds := AllIds(items), SatisfiedIds(items);
    var open: seq<Item>, blocked: seq<Item>, done: seq<Item> := [], [], [];
    for i := 0 to |items|
      invariant open == Placed(items, scopes, items[..i], IsOpen)
      invariant blocked == Placed(items, scopes, items[..i], IsBlocked)
      invariant done == Placed(items, scopes, items[..i], IsDone)
    {
      var x := items[i];
      assert items[..i + 1] == items[..i] + [x];
      PlacedStep(items, scopes, items[..i], x, IsOpen);
      PlacedStep(items, scopes, items[..i], x, IsBlocked);
      PlacedStep(items, scopes, items[..i], x, IsDone);
      if x.id in doneIds { done := done + [x]; }
      else if Waits(x, ids, doneIds) || OwnsClaimed(x, scopes) { blocked := blocked + [x]; }
      else { open := open + [x]; }
    }
    assert items[..|items|] == items;
    return View(open, blocked, done);
  }

  /** Some item carries the id and is done. */
  predicate DoneId(items: seq<Item>, id: string) {
    exists y <- items :: y.id == id && y.status == "done"
  }

  /**
    An item is done when one of its id is; open when no listed dependency is unfinished and no path is claimed, as it
    stands or behind `file:`; and waits otherwise.  Each list holds it as often as the backlog does.
    */
  lemma PlacesExactly(items: seq<Item>, scopes: set<string>, x: Item)
    ensures var place := PlaceOf(items, scopes, x);
      && (place == IsDone <==> DoneId(items, x.id))
      && (place == IsOpen <==>
            && !DoneId(items, x.id)
            && (forall dep <- x.dependsOn :: (exists y <- items :: y.id == dep) ==> DoneId(items, dep))
            && (forall path <- x.owns :: path !in scopes && "file:" + path !in scopes))
    ensures forall place ::
      multiset(Placed(items, scopes, items, place))[x] == if PlaceOf(items, scopes, x) == place then multiset(items)[x]
        else 0
  {
    forall id ensures id in SatisfiedIds(items) <==> DoneId(items, id) {
    }
    forall id ensures id in AllIds(items) <==> exists y <- items :: y.id == id {
    }
    forall place ensures multiset(Placed(items, scopes, items, place))[x]
      == if PlaceOf(items, scopes, x) == place then multiset(items)[x] else 0
    {
      FilterCounts(items, y => PlaceOf(items, scopes, y) == place, x);
    }
  }

  // ---------------------------------------------------------------------------
  // Plans: the items as a dependency graph
  // ---------------------------------------------------------------------------

  /** Ids, the unfinished-or-not split, who needs whom, and the items held back by a claim. */
  datatype Plan = Plan(ids: set<string>, done: set<string>, needs: map<string, set<string>>, claimed: set<string>)

  ghost predicate ValidPlan(p: Plan) {
    p.done <= p.ids && p.needs.Keys == p.ids
  }

  predicate Pending(p: Plan, id: string) {
    id in p.ids && id !in p.done
  }

  /** Unfinished, unclaimed, and every need inside the backlog is finished. */
  predicate Ready(p: Plan, id: string)
    requires ValidPlan(p)
  {
    Pending(p, id) && id !in p.claimed && forall dep <- p.needs[id] :: !Pending(p, dep)
  }

  function Finish(p: Plan, id: string): Plan {
    p.(done := p.done + {id})
  }

  /** Finishing a list of ids, each open when its turn comes. */
  ghost predicate Feasible(p: Plan, run: seq<string>)
    requires ValidPlan(p)
    decreases |run|
  {
    run == [] || (Ready(p, run[0]) && Feasible(Finish(p, run[0]), run[1..]))
  }

  function After(p: Plan, run: seq<string>): Plan
    decreases |run|
  {
    if run == [] then p else After(Finish(p, run[0]), run[1..])
  }

  function Remaining(p: Plan): set<string> {
    p.ids - p.done
  }

  /** Each step finishes one item: nothing is finished twice and nothing comes back. */
  lemma {:induction false} RunCounts(p: Plan, run: seq<string>)
    requires ValidPlan(p) && Feasible(p, run)
    ensures ValidPlan(After(p, run)) && After(p, run) == p.(done := After(p, run).done)
    ensures p.done <= After(p, run).done
    ensures |Remaining(After(p, run))| == |Remaining(p)| - |run|
    decreases |run|
  {
    if run != [] {
      var next := Finish(p, run[0]);
      RunCounts(next, run[1..]);
      assert Remaining(p) == Remaining(next) + {run[0]};
    }
  }

  // ---------------------------------------------------------------------------
  // Ranks, traps and completion
  // ---------------------------------------------------------------------------

  /** A rank on the pending items that every pending need lowers, and no pending item claimed. */
  ghost predicate Ranked(p: Plan, rank: map<string, nat>)
    requires ValidPlan(p)
  {
    forall id :: Pending(p, id) ==>
      && id in rank && id !in p.claimed
      && forall dep <- p.needs[id] :: Pending(p, dep) ==> dep in rank && rank[dep] < rank[id]
  }

  /** A set of pending items each of which is claimed or needs another of the set: a dependency cycle is one. */
  ghost predicate Trap(p: Plan, t: set<string>)
    requires ValidPlan(p)
  {
    && t <= Remaining(p)
    && forall id <- t :: id in p.claimed || exists dep <- p.needs[id] :: dep in t
  }

  lemma {:induction false} LowestRank(t: set<string>, rank: map<string, nat>) returns (id: string)
    requires t != {} && t <= rank.Keys
    ensures id in t && forall other <- t :: rank[id] <= rank[other]
    decreases |t|
  {
    id :| id in t;
    if t != {id} {
      var rest := LowestRank(t - {id}, rank);
      if rank[rest] < rank[id] { id := rest; }
    }
  }

  /** With a rank, a plan that is not finished has an open item. */
  lemma RankedHasReady(p: Plan, rank: map<string, nat>) returns (id: string)
    requires ValidPlan(p) && Ranked(p, rank) && Remaining(p) != {}
    ensures Ready(p, id)
  {
    assert forall x <- Remaining(p) :: Pending(p, x);
    id := LowestRank(Remaining(p), rank);
    assert forall dep <- p.needs[id] :: Pending(p, dep) ==> dep in Remaining(p);
  }

  lemma FinishKeepsRank(p: Plan, rank: map<string, nat>, id: string)
    requires ValidPlan(p) && Ranked(p, rank) && Ready(p, id)
    ensures ValidPlan(Finish(p, id)) && Ranked(Finish(p, id), rank)
  {
    var q := Finish(p, id);
    forall x | Pending(q, x) ensures x in rank && x !in q.claimed && forall dep <- q.needs[x] :: Pending(q, dep) ==>
      dep in rank && rank[dep] < rank[x] {
      assert Pending(p, x);
      assert forall dep :: Pending(q, dep) ==> Pending(p, dep);
    }
  }

  lemma {:induction false} RankedAfter(p: Plan, rank: map<string, nat>, run: seq<string>)
    requires ValidPlan(p) && Ranked(p, rank) && Feasible(p, run)
    ensures ValidPlan(After(p, run)) && Ranked(After(p, run), rank)
    decreases |run|
  {
    if run != [] {
      FinishKeepsRank(p, rank, run[0]);
      RankedAfter(Finish(p, run[0]), rank, run[1..]);
    }
  }

  /**
    However open items are picked, a ranked plan never gets stuck: it ends only after exactly as many steps as
    items were pending.
    */
  lemma NeverStuck(p: Plan, rank: map<string, nat>, run: seq<string>)
    requires ValidPlan(p) && Ranked(p, rank) && Feasible(p, run)
    ensures ValidPlan(After(p, run)) && |run| <= |Remaining(p)|
    ensures (forall id :: !Ready(After(p, run), id)) <==> |run| == |Remaining(p)|
    ensures After(p, run).done == p.ids <==> |run| == |Remaining(p)|
  {
    RunCounts(p, run);
    RankedAfter(p, rank, run);
    var q := After(p, run);
    if Remaining(q) != {} {
      var id := RankedHasReady(q, rank);
      assert |Remaining(q)| > 0;
    } else {
      assert forall id :: Pending(q, id) ==> id in Remaining(q);
      assert q.done == q.ids;
    }
  }

  /** Members of a trap never open, whatever else is finished. */
  lemma {:induction false} TrapNeverOpens(p: Plan, t: set<string>, run: seq<string>)
    requires ValidPlan(p) && Trap(p, t) && Feasible(p, run)
    ensures forall id <- run :: id !in t
    ensures ValidPlan(After(p, run)) && Trap(After(p, run), t)
    ensures forall id <- t :: !Ready(After(p, run), id)
    decreases |run|
  {
    TrapNotReady(p, t);
    if run != [] {
      assert run[0] !in t;
      var q := Finish(p, run[0]);
      assert Trap(q, t);
      TrapNeverOpens(q, t, run[1..]);
      assert run == [run[0]] + run[1..];
    }
  }

  lemma TrapNotReady(p: Plan, t: set<string>)
    requires ValidPlan(p) && Trap(p, t)
    ensures forall id <- t :: !Ready(p, id)
  {
    forall id | id in t ensures !Ready(p, id) {
      if id !in p.claimed {
        var dep :| dep in p.needs[id] && dep in t;
        assert Pending(p, dep);
      }
    }
  }

  /** Pending items each of which needs the next, the last the first, are a trap. */
  lemma CycleIsTrap(p: Plan, cycle: seq<string>)
    requires ValidPlan(p) && forall k :: 0 <= k < |cycle| ==>
      Pending(p, cycle[k]) && cycle[if k + 1 < |cycle| then k + 1 else 0] in p.needs[cycle[k]]
    ensures Trap(p, set id | id in cycle)
  {
    var t := set id | id in cycle;
    forall id | id in t ensures exists dep <- p.needs[id] :: dep in t {
      var k :| 0 <= k < |cycle| && cycle[k] == id;
      var dep := cycle[if k + 1 < |cycle| then k + 1 else 0];
      assert dep in p.needs[id] && dep in t;
    }
  }

  ghost predicate Completable(p: Plan)
    requires ValidPlan(p)
  {
    exists run :: Feasible(p, run) && After(p, run).done == p.ids
  }

  /** Without a trap there is a run to the end. */
  lemma {:induction false} NoTrapCompletes(p: Plan) returns (run: seq<string>)
    requires ValidPlan(p) && forall t :: Trap(p, t) ==> t == {}
    ensures Feasible(p, run) && After(p, run).done == p.ids
    decreases |Remaining(p)|
  {
    run := [];
    if Remaining(p) == {} {
      assert p.done == p.ids;
    } else {
      assert !Trap(p, Remaining(p));
      var id :| id in Remaining(p) && id !in p.claimed && forall dep <- p.needs[id] :: dep !in Remaining(p);
      assert Ready(p, id);
      var q := Finish(p, id);
      forall t | Trap(q, t) ensures t == {} { assert Trap(p, t); }
      assert Remaining(q) == Remaining(p) - {id};
      var rest := NoTrapCompletes(q);
      run := [id] + rest;
      assert run[1..] == rest;
    }
  }

  /** A run to the end ranks the items by its order. */
  lemma {:induction false} RunRanks(p: Plan, run: seq<string>) returns (rank: map<string, nat>)
    requires ValidPlan(p) && Feasible(p, run) && After(p, run).done == p.ids
    ensures Ranked(p, rank)
    decreases |run|
  {
    if run == [] {
      rank := map[];
    } else {
      var id, q := run[0], Finish(p, run[0]);
      var later := RunRanks(q, run[1..]);
      rank := (map x: string | x in later :: later[x] + 1)[id := 0];
      forall x | Pending(p, x) ensures x in rank && x !in p.claimed && forall dep <- p.needs[x] :: Pending(p, dep) ==>
        dep in rank && rank[dep] < rank[x] {
        if x != id {
          assert Pending(q, x);
          forall dep | dep in p.needs[x] && Pending(p, dep) ensures dep in rank && rank[dep] < rank[x] {
            if dep != id { assert Pending(q, dep); }
          }
        }
      }
    }
  }

  /** The backlog can be finished exactly when it has a rank, and exactly when it holds no trap. */
  lemma CompletableExactly(p: Plan)
    requires ValidPlan(p)
    ensures Completable(p) <==> exists rank :: Ranked(p, rank)
    ensures Completable(p) <==> forall t :: Trap(p, t) ==> t == {}
  {
    if Completable(p) {
      var run :| Feasible(p, run) && After(p, run).done == p.ids;
      var rank := RunRanks(p, run);
    }
    if rank :| Ranked(p, rank) {
      forall t | Trap(p, t) ensures t == {} { RankedHasNoTrap(p, rank, t); }
    }
    if forall t :: Trap(p, t) ==> t == {} {
      var run := NoTrapCompletes(p);
    }
  }

  lemma TrapDescends(p: Plan, rank: map<string, nat>, t: set<string>, id: string) returns (dep: string)
    requires ValidPlan(p) && Ranked(p, rank) && Trap(p, t) && id in t
    ensures t <= rank.Keys && dep in t && rank[dep] < rank[id]
  {
    assert Pending(p, id);
    dep :| dep in p.needs[id] && dep in t;
    assert Pending(p, dep);
    forall x | x in t ensures x in rank { assert Pending(p, x); }
  }

  lemma RankedHasNoTrap(p: Plan, rank: map<string, nat>, t: set<string>)
    requires ValidPlan(p) && Ranked(p, rank) && Trap(p, t)
    ensures t == {}
  {
    if t != {} {
      forall x | x in t ensures x in rank { assert Pending(p, x); }
      var id := LowestRank(t, rank);
      var dep := TrapDescends(p, rank, t, id);
    }
  }

  // ---------------------------------------------------------------------------
  // The view is the plan's, and marking an open item done is a plan step
  // ---------------------------------------------------------------------------

  function ClaimedIds(items: seq<Item>, scopes: set<string>): set<string> {
    set x | x in items && OwnsClaimed(x, scopes) :: x.id
  }

  function Needs(items: seq<Item>): map<string, set<string>> {
    map id | id in AllIds(items) :: NeedsOf(Find(items, id).value)
  }

  function NeedsOf(x: Item): set<string> {
    set dep | dep in x.dependsOn
  }

  function PlanOf(items: seq<Item>, scopes: set<string>): (p: Plan)
    ensures ValidPlan(p)
  {
    Plan(AllIds(items), SatisfiedIds(items), Needs(items), ClaimedIds(items, scopes))
  }

  lemma {:induction false} FindMember(items: seq<Item>, x: Item)
    requires Sorted(items, DifferentIds) && x in items
    ensures Find(items, x.id) == Some(x)
  {
    if items[0] != x {
      assert items == [items[0]] + items[1..] && x in items[1..];
      var k :| 0 <= k < |items| - 1 && items[1..][k] == x;
      assert DifferentIds(items[0], items[k + 1]);
      FindMember(items[1..], x);
    }
  }

  lemma SameIdSameItem(items: seq<Item>, x: Item, y: Item)
    requires Sorted(items, DifferentIds) && x in items && y in items && x.id == y.id
    ensures x == y
  {
    FindMember(items, x);
    FindMember(items, y);
  }

  lemma WaitsIs(items: seq<Item>, scopes: set<string>, x: Item)
    ensures Waits(x, AllIds(items), SatisfiedIds(items)) <==>
      exists dep <- NeedsOf(x) :: Pending(PlanOf(items, scopes), dep)
  {
    if Waits(x, AllIds(items), SatisfiedIds(items)) {
      var dep :| dep in x.dependsOn && dep in AllIds(items) && dep !in SatisfiedIds(items);
      assert dep in NeedsOf(x) && Pending(PlanOf(items, scopes), dep);
    }
  }

  /** An item is in the open list exactly when its id is ready in the plan. */
  lemma OpenIsReady(items: seq<Item>, scopes: set<string>, x: Item)
    requires Sorted(items, DifferentIds) && x in items
    ensures PlaceOf(items, scopes, x) == IsOpen <==> Ready(PlanOf(items, scopes), x.id)
  {
    FindMember(items, x);
    assert forall dep :: dep in NeedsOf(x) <==> dep in x.dependsOn;
    assert PlanOf(items, scopes).needs[x.id] == NeedsOf(x);
    WaitsIs(items, scopes, x);
    if x.id in ClaimedIds(items, scopes) {
      var y :| y in items && OwnsClaimed(y, scopes) && y.id == x.id;
      SameIdSameItem(items, x, y);
    }
  }

  /** The open list is empty exactly when nothing is ready. */
  lemma OpenListEmpty(items: seq<Item>, scopes: set<string>)
    requires Sorted(items, DifferentIds)
    ensures Placed(items, scopes, items, IsOpen) == [] <==> forall id :: !Ready(PlanOf(items, scopes), id)
  {
    var open := Placed(items, scopes, items, IsOpen);
    if open != [] {
      assert open[0] in open;
      FilterMembers(items, x => PlaceOf(items, scopes, x) == IsOpen, open[0]);
      OpenIsReady(items, scopes, open[0]);
    }
    forall id | Ready(PlanOf(items, scopes), id) ensures open != [] {
      var x :| x in items && x.id == id;
      OpenIsReady(items, scopes, x);
      FilterMembers(items, y => PlaceOf(items, scopes, y) == IsOpen, x);
    }
  }

  /** Unique ids without outer blanks, as every projection has them, whoever wrote the facts. */
  ghost predicate Named(items: seq<Item>) {
    Sorted(items, DifferentIds) && forall x <- items :: x.id == Trim(x.id)
  }

  lemma {:induction false} LedgerIsNamed(facts: seq<Fact>)
    ensures Named(ItemsOf(facts))
  {
    IdsAreTrimmed(facts);
    if facts != [] {
      var f := facts[|facts| - 1];
      LedgerIsNamed(facts[..|facts| - 1]);
      if Decode(f).Some? { PutMembers(ItemsOf(facts[..|facts| - 1]), Decode(f).value); }
    }
  }

  /** The item marked done, with the fields a finish keeps, up to order and repeats. */
  ghost predicate Finished(x: Item, w: Item) {
    && w.id == x.id && w.status == "done" && NeedsOf(w) == NeedsOf(x)
    && forall path :: path in w.owns <==> path in x.owns
  }

  lemma PutFinishedIds(items: seq<Item>, x: Item, w: Item)
    requires Sorted(items, DifferentIds) && x in items && Finished(x, w)
    ensures AllIds(Put(items, w)) == AllIds(items) && SatisfiedIds(Put(items, w)) == SatisfiedIds(items) + {x.id}
  {
    PutMembers(items, w);
    var after := Put(items, w);
    forall id | id in AllIds(items) ensures id in AllIds(after) {
      var y :| y in items && y.id == id;
      assert (if id == w.id then w else y) in after;
    }
    forall id | id in SatisfiedIds(items) + {x.id} ensures id in SatisfiedIds(after) {
      if id != w.id {
        var y :| y in items && y.status == "done" && y.id == id;
        assert y in after;
      } else {
        assert w in after;
      }
    }
  }

  lemma PutFinishedNeeds(items: seq<Item>, x: Item, w: Item)
    requires Sorted(items, DifferentIds) && x in items && Finished(x, w)
    ensures Needs(Put(items, w)) == Needs(items)
  {
    PutFinishedIds(items, x, w);
    FindMember(items, x);
    forall id
      ensures Find(Put(items, w), id) == if id == w.id then Some(w) else Find(items, id)
    {
      FindPut(items, w, id);
    }
  }

  lemma PutFinishedClaims(items: seq<Item>, scopes: set<string>, x: Item, w: Item)
    requires Sorted(items, DifferentIds) && x in items && Finished(x, w)
    ensures ClaimedIds(Put(items, w), scopes) == ClaimedIds(items, scopes)
  {
    PutMembers(items, w);
    assert OwnsClaimed(w, scopes) == OwnsClaimed(x, scopes);
    forall id | id in ClaimedIds(items, scopes) ensures id in ClaimedIds(Put(items, w), scopes) {
      var y :| y in items && OwnsClaimed(y, scopes) && y.id == id;
      if id == w.id { SameIdSameItem(items, x, y); }
      assert (if id == w.id then w else y) in Put(items, w);
    }
  }

  lemma PutFinished(items: seq<Item>, scopes: set<string>, x: Item, w: Item)
    requires Sorted(items, DifferentIds) && x in items && Finished(x, w)
    ensures PlanOf(Put(items, w), scopes) == Finish(PlanOf(items, scopes), x.id)
  {
    PutFinishedIds(items, x, w);
    PutFinishedNeeds(items, x, w);
    PutFinishedClaims(items, scopes, x, w);
  }

  lemma WritesFinished(x: Item, tool: string, stamp: Stamp)
    requires x.id == Trim(x.id)
    ensures Finished(x, Written(Merge(tool, x, FINISH), stamp))
  {
    CanonicalIs(x.owns);
    CanonicalIs(x.dependsOn);
  }

  /** Marking an open item done succeeds and is one step of the plan. */
  lemma DoneIsFinish(s: State, scopes: set<string>, tool: string, id: string, t: Ticket)
    requires Named(s.items) && Ready(PlanOf(s.items, scopes), id)
    ensures Refused(s, Done(tool, id, t)).None?
    ensures var after := Apply(s, Done(tool, id, t)).items;
      Named(after) && PlanOf(after, scopes) == Finish(PlanOf(s.items, scopes), id)
  {
    ReadyAccepted(s, scopes, tool, id, t);
    var x := Find(s.items, id).value;
    WritesFinished(x, tool, StampAfter(s.last, t));
    var w := Written(Merge(tool, x, FINISH), StampAfter(s.last, t));
    PutFinished(s.items, scopes, x, w);
    PutMembers(s.items, w);
  }

  lemma ReadyAccepted(s: State, scopes: set<string>, tool: string, id: string, t: Ticket)
    requires Ready(PlanOf(s.items, scopes), id)
    ensures Refused(s, Done(tool, id, t)).None?
    ensures var x := Find(s.items, id).value;
      Apply(s, Done(tool, id, t)).items == Put(s.items, Written(Merge(tool, x, FINISH), StampAfter(s.last, t)))
  {
    var x := Find(s.items, id);
    assert x.Some? && x.value in s.items && x.value.status != "done";
  }

  /** One call of `mark_backlog_done`: who, which item, and what the ledger gives the fact. */
  datatype Mark = Mark(tool: string, id: string, ticket: Ticket)

  function Ids(marks: seq<Mark>): (ids: seq<string>)
    ensures |ids| == |marks|
  {
    if marks == [] then [] else [marks[0].id] + Ids(marks[1..])
  }

  /** Marks items done one after another. */
  function FinishAll(s: State, marks: seq<Mark>): State
    decreases |marks|
  {
    if marks == [] then s else FinishAll(Apply(s, Done(marks[0].tool, marks[0].id, marks[0].ticket)), marks[1..])
  }

  lemma {:induction false} RunIsPlanRun(s: State, scopes: set<string>, marks: seq<Mark>)
    requires Named(s.items) && Feasible(PlanOf(s.items, scopes), Ids(marks))
    ensures Named(FinishAll(s, marks).items)
    ensures PlanOf(FinishAll(s, marks).items, scopes) == After(PlanOf(s.items, scopes), Ids(marks))
    decreases |marks|
  {
    if marks != [] {
      assert Ids(marks)[0] == marks[0].id && Ids(marks)[1..] == Ids(marks[1..]);
      DoneIsFinish(s, scopes, marks[0].tool, marks[0].id, marks[0].ticket);
      RunIsPlanRun(Apply(s, Done(marks[0].tool, marks[0].id, marks[0].ticket)), scopes, marks[1..]);
    }
  }

  /**
    With a rank, marking open items done in any order, by anyone, empties the open list after exactly as many steps
    as there were unfinished items, and then all is done.
    */
  lemma BacklogCompletes(s: State, scopes: set<string>, rank: map<string, nat>, marks: seq<Mark>)
    requires Named(s.items) && Ranked(PlanOf(s.items, scopes), rank) && Feasible(PlanOf(s.items, scopes), Ids(marks))
    ensures var after, n := FinishAll(s, marks).items, |AllIds(s.items) - SatisfiedIds(s.items)|;
      && |marks| <= n
      && (Placed(after, scopes, after, IsOpen) == [] <==> |marks| == n)
      && (SatisfiedIds(after) == AllIds(s.items) <==> |marks| == n)
  {
    RunIsPlanRun(s, scopes, marks);
    NeverStuck(PlanOf(s.items, scopes), rank, Ids(marks));
    OpenListEmpty(FinishAll(s, marks).items, scopes);
  }

  /** Some marks, each of an item open at its turn, finish everything. */
  ghost predicate Finishable(s: State, scopes: set<string>) {
    exists marks :: Finishes(s, scopes, marks)
  }

  ghost predicate Finishes(s: State, scopes: set<string>, marks: seq<Mark>) {
    Feasible(PlanOf(s.items, scopes), Ids(marks)) && SatisfiedIds(FinishAll(s, marks).items) == AllIds(s.items)
  }

  lemma FinishesIsRun(s: State, scopes: set<string>, marks: seq<Mark>)
    requires Named(s.items)
    ensures var p := PlanOf(s.items, scopes);
      Finishes(s, scopes, marks) <==> Feasible(p, Ids(marks)) && After(p, Ids(marks)).done == p.ids
  {
    if Feasible(PlanOf(s.items, scopes), Ids(marks)) { RunIsPlanRun(s, scopes, marks); }
  }

  lemma FinishableIsCompletable(s: State, scopes: set<string>)
    requires Named(s.items)
    ensures Finishable(s, scopes) <==> Completable(PlanOf(s.items, scopes))
  {
    var p := PlanOf(s.items, scopes);
    if Completable(p) {
      var run :| Feasible(p, run) && After(p, run).done == p.ids;
      var marks := MarksOf(run);
      FinishesIsRun(s, scopes, marks);
    }
    if Finishable(s, scopes) {
      var marks :| Finishes(s, scopes, marks);
      FinishesIsRun(s, scopes, marks);
    }
  }

  /**
    On any ledger at all: everything can be finished exactly when no unfinished items wait on each other or on
    a claim.
    */
  lemma LedgerCompletes(facts: seq<Fact>, last: int, scopes: set<string>)
    ensures Finishable(State(ItemsOf(facts), last), scopes) <==> forall t :: Trap(PlanOf(ItemsOf(facts), scopes), t) ==>
      t == {}
  {
    LedgerIsNamed(facts);
    FinishableIsCompletable(State(ItemsOf(facts), last), scopes);
    CompletableExactly(PlanOf(ItemsOf(facts), scopes));
  }

  lemma {:induction false} MarksOf(run: seq<string>) returns (marks: seq<Mark>)
    ensures Ids(marks) == run
  {
    marks := [];
    if run != [] {
      var rest := MarksOf(run[1..]);
      marks := [Mark("", run[0], Ticket("", "", 0))] + rest;
      assert marks[1..] == rest;
    }
  }
}
