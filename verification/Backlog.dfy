/** The backlog projected from the ledger, and the writes that go through it: backlog.rs. */
module Backlog {
  import opened Basics
  import opened Sorting
  import opened Ledger
  import opened BacklogCodec

  // ---------------------------------------------------------------------------
  // The projection
  // ---------------------------------------------------------------------------

  predicate BySeq(a: Item, b: Item) {
    a.number <= b.number
  }

  predicate ById(a: Item, b: Item) {
    StrLeq(a.id, b.id)
  }

  /** By number, then by id. */
  predicate InOrder(a: Item, b: Item) {
    a.number < b.number || (a.number == b.number && StrLeq(a.id, b.id))
  }

  predicate DifferentIds(a: Item, b: Item) {
    a.id != b.id
  }

  /** `x` is what the latest fact of its id says. */
  ghost predicate Winner(facts: seq<Fact>, x: Item) {
    var f := Latest(facts, KeyOf, x.id);
    f.Some? && Decode(f.value) == Some(x)
  }

  /** The latest item of every id, once, by number and then by id. */
  ghost predicate IsProjection(facts: seq<Fact>, items: seq<Item>) {
    && Sorted(items, InOrder) && Sorted(items, DifferentIds)
    && forall x :: x in items <==> Winner(facts, x)
  }

  lemma LatestWins(facts: seq<Fact>, id: string)
    requires Latest(facts, KeyOf, id).Some?
    ensures Decode(Latest(facts, KeyOf, id).value).Some?
    ensures Decode(Latest(facts, KeyOf, id).value).value.id == id
    ensures Winner(facts, Decode(Latest(facts, KeyOf, id).value).value)
  {
    LatestIs(facts, KeyOf, id);
  }

  method ItemsFromFacts(facts: seq<Fact>) returns (items: seq<Item>)
    ensures IsProjection(facts, items)
  {
    var byId := LatestPerKey(facts, KeyOf);
    var ids := SortedKeys(byId.Keys);
    forall id ensures id in ids <==> Latest(facts, KeyOf, id).Some? {
      assert Lookup(byId, id) == Latest(facts, KeyOf, id);
    }
    items := ItemsOfIds(facts, byId, ids);
    SortedByNumber(facts, ids, items);
    items := Sort(items, BySeq);
  }

  /** The items of the chosen facts, in id order. */
  method ItemsOfIds(ghost facts: seq<Fact>, byId: map<string, Fact>, ids: seq<string>) returns (items: seq<Item>)
    requires forall k :: 0 <= k < |ids| ==> ids[k] in byId && Latest(facts, KeyOf, ids[k]) == Some(byId[ids[k]])
    ensures |items| == |ids| && forall k :: 0 <= k < |ids| ==> items[k].id == ids[k] && Winner(facts, items[k])
  {
    items := [];
    for i := 0 to |ids|
      invariant |items| == i
      invariant forall k :: 0 <= k < i ==> items[k].id == ids[k] && Winner(facts, items[k])
    {
      LatestWins(facts, ids[i]);
      var item := Decode(byId[ids[i]]);
      if item.Some? { items := items + [item.value]; }
    }
  }

  lemma {:induction false} InsertAgrees(x: Item, s: seq<Item>)
    requires forall y <- s :: ById(x, y)
    ensures Insert(x, s, BySeq) == Insert(x, s, InOrder)
  {
    if s != [] {
      assert s[0] in s;
      InsertAgrees(x, s[1..]);
    }
  }

  /** Stable sorting by number, of items already in id order, orders them by both. */
  lemma {:induction false} SortAgrees(s: seq<Item>)
    requires Sorted(s, ById)
    ensures Sort(s, BySeq) == Sort(s, InOrder)
  {
    if s != [] {
      SortAgrees(s[1..]);
      forall y | y in Sort(s[1..], BySeq) ensures ById(s[0], y) { SortMembers(s[1..], BySeq, y); }
      InsertAgrees(s[0], Sort(s[1..], BySeq));
    }
  }

  lemma InOrderIsOrder()
    ensures IsOrder(InOrder)
  {
    forall a, b ensures InOrder(a, b) || InOrder(b, a) { StrLeqTotal(a.id, b.id); }
    forall a, b, c | InOrder(a, b) && InOrder(b, c) ensures InOrder(a, c) {
      if a.number == b.number == c.number { StrLeqTransitive(a.id, b.id, c.id); }
    }
  }

  lemma SortedByNumber(facts: seq<Fact>, ids: seq<string>, items: seq<Item>)
    requires |items| == |ids| && Sorted(ids, StrLeq) && NoRepeats(ids)
    requires forall k :: 0 <= k < |ids| ==> items[k].id == ids[k] && Winner(facts, items[k])
    requires forall id :: Latest(facts, KeyOf, id).Some? ==> id in ids
    ensures IsProjection(facts, Sort(items, BySeq))
  {
    assert Sorted(items, ById);
    SortAgrees(items);
    InOrderIsOrder();
    SortSorts(items, InOrder);
    var out := Sort(items, BySeq);
    assert NoRepeats(items);
    SortNoRepeats(items, BySeq);
    forall x ensures x in out <==> Winner(facts, x) {
      SortMembers(items, BySeq, x);
      if Winner(facts, x) { WinnerListed(facts, ids, items, x); }
    }
    forall i, j | 0 <= i < j < |out| ensures DifferentIds(out[i], out[j]) {
      assert out[i] in out && out[j] in out;
    }
  }

  lemma WinnerListed(facts: seq<Fact>, ids: seq<string>, items: seq<Item>, x: Item)
    requires |items| == |ids| && Winner(facts, x) && x.id in ids
    requires forall k :: 0 <= k < |ids| ==> items[k].id == ids[k] && Winner(facts, items[k])
    ensures x in items
  {
    var k :| 0 <= k < |ids| && ids[k] == x.id;
    assert items[k] == x;
  }

  /** A fact set has one projection. */
  lemma OneProjection(facts: seq<Fact>, a: seq<Item>, b: seq<Item>)
    requires IsProjection(facts, a) && IsProjection(facts, b)
    ensures a == b
  {
    var lt := (x: Item, y: Item) => InOrder(x, y) && DifferentIds(x, y);
    forall x, y ensures !(lt(x, y) && lt(y, x)) { StrLeqTotal(x.id, y.id); }
    OneStrictOrder(a, b, lt);
  }

  // ---------------------------------------------------------------------------
  // The ordered map it stands for
  // ---------------------------------------------------------------------------

  function Without(items: seq<Item>, id: string): seq<Item> {
    Filter(items, (x: Item) => x.id != id)
  }

  /** A write takes its id to the end. */
  function Put(items: seq<Item>, x: Item): seq<Item> {
    Without(items, x.id) + [x]
  }

  function PutFact(items: seq<Item>, f: Fact): seq<Item> {
    match Decode(f)
    case None => items
    case Some(x) => Put(items, x)
  }

  function ItemsOf(facts: seq<Fact>): seq<Item> {
    if facts == [] then [] else PutFact(ItemsOf(facts[..|facts| - 1]), facts[|facts| - 1])
  }

  lemma ItemsOfAppend(facts: seq<Fact>, f: Fact)
    ensures ItemsOf(facts + [f]) == PutFact(ItemsOf(facts), f)
  {
    assert (facts + [f])[..|facts|] == facts;
  }

  ghost predicate Increasing(facts: seq<Fact>) {
    forall i, j :: 0 <= i < j < |facts| ==> facts[i].number < facts[j].number
  }

  lemma IncreasingAppend(facts: seq<Fact>, f: Fact)
    requires Increasing(facts) && (facts != [] ==> facts[|facts| - 1].number < f.number)
    ensures Increasing(facts + [f])
  {
  }

  lemma WinnerAppend(facts: seq<Fact>, f: Fact, x: Item)
    requires forall g <- facts :: g.number < f.number
    ensures Winner(facts + [f], x) <==> if KeyOf(f) == Some(x.id) then Decode(f) == Some(x) else Winner(facts, x)
    ensures Winner(facts, x) ==> x.number < f.number
  {
    LatestSnoc(facts, f, KeyOf, x.id);
    LatestIs(facts, KeyOf, x.id);
  }

  lemma PutMembers(items: seq<Item>, w: Item)
    requires Sorted(items, DifferentIds)
    ensures Sorted(Put(items, w), DifferentIds)
    ensures forall y :: y in Put(items, w) <==> (y in items && y.id != w.id) || y == w
  {
    var p := (y: Item) => y.id != w.id;
    FilterSorted(items, p, DifferentIds);
    forall y ensures y in Without(items, w.id) <==> y in items && y.id != w.id { FilterMembers(items, p, y); }
    var rest := Without(items, w.id);
    assert forall i :: 0 <= i < |rest| ==> rest[i] in rest;
  }

  lemma PutKeepsOrder(items: seq<Item>, x: Item)
    requires Sorted(items, InOrder) && forall y <- items :: y.number < x.number
    ensures Sorted(Put(items, x), InOrder)
  {
    var p := (y: Item) => y.id != x.id;
    FilterSorted(items, p, InOrder);
    var rest := Without(items, x.id);
    forall i | 0 <= i < |rest| ensures rest[i] in items { FilterMembers(items, p, rest[i]); }
  }

  lemma {:induction false} OrderedMapProjects(facts: seq<Fact>)
    requires Increasing(facts)
    ensures IsProjection(facts, ItemsOf(facts))
  {
    if facts != [] {
      var init, f := facts[..|facts| - 1], facts[|facts| - 1];
      OrderedMapProjects(init);
      assert facts == init + [f];
      var items := ItemsOf(init);
      forall x
        ensures Winner(facts, x) <==> if KeyOf(f) == Some(x.id) then Decode(f) == Some(x) else Winner(init, x)
      {
        WinnerAppend(init, f, x);
      }
      forall x | x in items ensures x.number < f.number { WinnerAppend(init, f, x); }
      if Decode(f).Some? {
        PutKeepsOrder(items, Decode(f).value);
        PutMembers(items, Decode(f).value);
      }
    }
  }

  /** On a ledger, whose numbers grow, the projection is the ordered map in which each write moves its id to the end. */
  lemma ProjectionIsOrderedMap(facts: seq<Fact>, items: seq<Item>)
    requires Increasing(facts) && IsProjection(facts, items)
    ensures items == ItemsOf(facts)
  {
    OrderedMapProjects(facts);
    OneProjection(facts, items, ItemsOf(facts));
  }

  /** The projection depends on which facts there are, not on their order. */
  lemma ProjectionIgnoresOrder(a: seq<Fact>, b: seq<Fact>, items: seq<Item>)
    requires DistinctNumbers(a, KeyOf) && forall f :: f in a <==> f in b
    requires IsProjection(a, items)
    ensures IsProjection(b, items)
  {
    forall x ensures Winner(a, x) <==> Winner(b, x) { LatestIgnoresOrder(a, b, KeyOf, x.id); }
  }

  /** Reading only the backlog facts, or any superset of them, gives the same projection. */
  lemma ProjectionOfFiltered(facts: seq<Fact>, p: Fact -> bool, items: seq<Item>)
    requires forall f: Fact :: f.kind == KIND ==> p(f)
    ensures IsProjection(Filter(facts, p), items) <==> IsProjection(facts, items)
  {
    forall x ensures Winner(Filter(facts, p), x) <==> Winner(facts, x) { LatestOfFiltered(facts, KeyOf, p, x.id); }
  }

  // ---------------------------------------------------------------------------
  // Writes
  // ---------------------------------------------------------------------------

  predicate ValidId(id: string) {
    Trim(id) != "" && ':' !in id && '\n' !in id
  }

  predicate ValidStatus(status: Option<string>) {
    status.None? || status.value in {"open", "planned", "in_progress", "blocked", "done"}
  }

  function Or<T>(o: Option<T>, otherwise: T): T {
    if o.Some? then o.value else otherwise
  }

  /** The fields a write may give; an update takes the omitted ones from the latest item. */
  datatype Edit = Edit(intent: Option<string>, owns: Option<seq<string>>, dependsOn: Option<seq<string>>,
      status: Option<string>,
                       target: Option<string>, expectedBy: Option<string>)

  function Merge(tool: string, x: Item, e: Edit): Draft {
    Draft(tool, x.id, Or(e.intent, x.intent), Or(e.owns, x.owns), Or(e.dependsOn, x.dependsOn), Or(e.status, x.status),
          if e.target.Some? then e.target else x.target, if e.expectedBy.Some? then e.expectedBy else x.expectedBy)
  }

  const FINISH := Edit(None, None, None, Some("done"), None, None)

  /** The first item with that id. */
  function Find(items: seq<Item>, id: string): (r: Option<Item>)
    ensures r.Some? ==> r.value in items && r.value.id == id
    ensures r.None? ==> forall x <- items :: x.id != id
  {
    if items == [] then None else if items[0].id == id then Some(items[0]) else Find(items[1..], id)
  }

  datatype Refusal = BadId | BadStatus | Missing | AlreadyDone

  /** What the ledger picks: an event id, a time, and how far the number jumps. */
  datatype Ticket = Ticket(eventId: string, createdAt: string, gap: nat)

  datatype Op =
    | Add(draft: Draft, status: Option<string>, ticket: Ticket)
    | Update(tool: string, id: string, edit: Edit, ticket: Ticket)
    | Done(tool: string, id: string, ticket: Ticket)
    | Other(fact: Fact, gap: nat)

  /** The backlog as an ordered map, with the last number given out. */
  datatype State = State(items: seq<Item>, last: int)

  function StampAfter(last: int, t: Ticket): Stamp {
    Stamp(t.eventId, t.createdAt, last + 1 + t.gap)
  }

  function Refused(s: State, op: Op): Option<Refusal> {
    match op
    case Add(d, status, _) => if !ValidId(d.id) then Some(BadId) else if !ValidStatus(status) then Some(BadStatus)
      else None
    case Update(_, id, e, _) =>
      if !ValidId(id) then Some(BadId) else if !ValidStatus(e.status) then Some(BadStatus)
      else if Find(s.items, id).None? then Some(Missing) else None
    case Done(_, id, _) =>
      var x := Find(s.items, id);
      if x.None? then Some(Missing) else if x.value.status == "done" then Some(AlreadyDone) else None
    case Other(_, _) => None
  }

  function Write(s: State, d: Draft, t: Ticket): State {
    State(Put(s.items, Written(d, StampAfter(s.last, t))), s.last + 1 + t.gap)
  }

  function Noted(s: State, f: Fact, gap: nat): State {
    State(PutFact(s.items, f.(number := s.last + 1 + gap)), s.last + 1 + gap)
  }

  lemma NotedAppend(facts: seq<Fact>, last: int, f: Fact, gap: nat)
    ensures State(ItemsOf(facts + [f.(number := last + 1 + gap)]), last + 1 + gap) ==
      Noted(State(ItemsOf(facts), last), f, gap)
  {
    ItemsOfAppend(facts, f.(number := last + 1 + gap));
    NotedIs(State(ItemsOf(facts), last), f, gap, ItemsOf(facts + [f.(number := last + 1 + gap)]));
  }

  lemma NotedIs(s: State, f: Fact, gap: nat, items: seq<Item>)
    requires items == PutFact(s.items, f.(number := s.last + 1 + gap))
    ensures State(items, s.last + 1 + gap) == Noted(s, f, gap)
  {
  }

  lemma NotedDraft(s: State, d: Draft, t: Ticket)
    requires '\n' !in d.id && Trim(d.id) != ""
    ensures Noted(s, Build(d, StampAfter(s.last, t)), t.gap) == Write(s, d, t)
  {
    DecodeBuild(d, StampAfter(s.last, t));
    NotedItem(s, Build(d, StampAfter(s.last, t)), t.gap, Written(d, StampAfter(s.last, t)));
  }

  lemma NotedItem(s: State, f: Fact, gap: nat, x: Item)
    requires f.number == s.last + 1 + gap && Decode(f) == Some(x)
    ensures Noted(s, f, gap) == State(Put(s.items, x), s.last + 1 + gap)
  {
    assert f.(number := s.last + 1 + gap) == f;
  }

  function Apply(s: State, op: Op): State {
    if Refused(s, op).Some? then s else
    match op
    case Add(d, status, t) => Write(s, d.(status := Or(status, "open")), t)
    case Update(tool, id, e, t) => Write(s, Merge(tool, Find(s.items, id).value, e), t)
    case Done(tool, id, t) => Write(s, Merge(tool, Find(s.items, id).value, FINISH), t)
    case Other(f, gap) => Noted(s, f, gap)
  }

  function ApplyAll(s: State, ops: seq<Op>): State {
    if ops == [] then s else Apply(ApplyAll(s, ops[..|ops| - 1]), ops[|ops| - 1])
  }

  lemma ApplyAllStep(s: State, ops: seq<Op>, i: nat)
    requires i < |ops|
    ensures ApplyAll(s, ops[..i + 1]) == Apply(ApplyAll(s, ops[..i]), ops[i])
  {
    assert ops[..i + 1][..i] == ops[..i];
  }

  /** Ids in the projection are single trimmed lines, whoever wrote the facts. */
  lemma {:induction false} IdsAreTrimmed(facts: seq<Fact>)
    ensures forall x <- ItemsOf(facts) :: x.id == Trim(x.id) != "" && '\n' !in x.id
  {
    if facts != [] {
      var f := facts[|facts| - 1];
      IdsAreTrimmed(facts[..|facts| - 1]);
      if Decode(f).Some? {
        DecodedId(f);
        var items, x := ItemsOf(facts[..|facts| - 1]), Decode(f).value;
        forall y | y in Without(items, x.id) ensures y in items { FilterMembers(items, (z: Item) => z.id != x.id, y); }
      }
    }
  }

  class Room {
    var facts: seq<Fact>
    var last: int

    ghost predicate Valid()
      reads this
    {
      Increasing(facts) && (facts != [] ==> facts[|facts| - 1].number <= last)
    }

    ghost function Value(): State
      reads this
    {
      State(ItemsOf(facts), last)
    }

    constructor ()
      ensures Valid() && Value() == State([], 0)
    {
      facts, last := [], 0;
    }

    /** The store keeps the fact as given, under a number above every earlier one. */
    method Append(f: Fact, gap: nat)
      requires Valid()
      modifies this
      ensures Valid() && facts == old(facts) + [f.(number := old(last) + 1 + gap)]
      ensures Value() == Noted(old(Value()), f, gap)
    {
      var stored := f.(number := last + 1 + gap);
      NotedAppend(facts, last, f, gap);
      IncreasingAppend(facts, stored);
      facts, last := facts + [stored], last + 1 + gap;
    }

    /** The kind-narrowed read and the projection loop. */
    method ListItems() returns (items: seq<Item>)
      requires Valid()
      ensures items == ItemsOf(facts)
    {
      var p := (f: Fact) => f.kind == KIND;
      items := ItemsFromFacts(Filter(facts, p));
      ProjectionOfFiltered(facts, p, items);
      ProjectionIsOrderedMap(facts, items);
    }

    method WriteDraft(d: Draft, t: Ticket)
      requires Valid() && '\n' !in d.id && Trim(d.id) != ""
      modifies this
      ensures Valid() && Value() == Write(old(Value()), d, t)
    {
      NotedDraft(Value(), d, t);
      Append(Build(d, StampAfter(last, t)), t.gap);
    }

    method AddItem(d: Draft, status: Option<string>, t: Ticket) returns (refused: Option<Refusal>)
      requires Valid()
      modifies this
      ensures Valid() && refused == Refused(old(Value()), Add(d, status, t)) &&
        Value() == Apply(old(Value()), Add(d, status, t))
    {
      if !ValidId(d.id) { return Some(BadId); }
      if !ValidStatus(status) { return Some(BadStatus); }
      WriteDraft(d.(status := Or(status, "open")), t);
      return None;
    }

    method UpdateItem(tool: string, id: string, e: Edit, t: Ticket) returns (refused: Option<Refusal>)
      requires Valid()
      modifies this
      ensures Valid() && refused == Refused(old(Value()), Update(tool, id, e, t)) &&
        Value() == Apply(old(Value()), Update(tool, id, e, t))
    {
      if !ValidId(id) { return Some(BadId); }
      if !ValidStatus(e.status) { return Some(BadStatus); }
      var items := ListItems();
      var x := Find(items, id);
      if x.None? { return Some(Missing); }
      WriteDraft(Merge(tool, x.value, e), t);
      return None;
    }

    method MarkDone(tool: string, id: string, t: Ticket) returns (refused: Option<Refusal>)
      requires Valid()
      modifies this
      ensures Valid() && refused == Refused(old(Value()), Done(tool, id, t)) &&
        Value() == Apply(old(Value()), Done(tool, id, t))
    {
      var items := ListItems();
      var x := Find(items, id);
      if x.None? { return Some(Missing); }
      if x.value.status == "done" { return Some(AlreadyDone); }
      IdsAreTrimmed(facts);
      WriteDraft(Merge(tool, x.value, FINISH), t);
      return None;
    }

    method Do(op: Op) returns (refused: Option<Refusal>)
      requires Valid()
      modifies this
      ensures Valid() && refused == Refused(old(Value()), op) && Value() == Apply(old(Value()), op)
    {
      match op {
        case Add(d, status, t) => refused := AddItem(d, status, t);
        case Update(tool, id, e, t) => refused := UpdateItem(tool, id, e, t);
        case Done(tool, id, t) => refused := MarkDone(tool, id, t);
        case Other(f, gap) => Append(f, gap); refused := None;
      }
    }

    /** Any run of writes, with any other facts between them, is the same run on the ordered map. */
    method Run(ops: seq<Op>)
      requires Valid()
      modifies this
      ensures Valid() && Value() == ApplyAll(old(Value()), ops)
    {
      for i := 0 to |ops|
        invariant Valid() && Value() == ApplyAll(old(Value()), ops[..i])
      {
        var _ := Do(ops[i]);
        ApplyAllStep(old(Value()), ops, i);
      }
      assert ops[..|ops|] == ops;
    }
  }

  // ---------------------------------------------------------------------------
  // What the writes keep
  // ---------------------------------------------------------------------------

  lemma {:induction false} FindAppended(items: seq<Item>, x: Item, id: string)
    requires forall y <- items :: y.id != x.id
    ensures Find(items + [x], id) == if id == x.id then Some(x) else Find(items, id)
  {
    if items != [] {
      assert (items + [x])[1..] == items[1..] + [x] && items[0] in items;
      FindAppended(items[1..], x, id);
    }
  }

  lemma {:induction false} FindWithout(items: seq<Item>, gone: string, id: string)
    ensures Find(Without(items, gone), id) == if id == gone then None else Find(items, id)
  {
    if items != [] {
      var rest := Without(items[1..], gone);
      FindWithout(items[1..], gone, id);
      if items[0].id != gone { assert ([items[0]] + rest)[1..] == rest; }
      else { assert Without(items, gone) == rest; }
    }
  }

  /** The map law: a write sets its own id and leaves every other lookup alone. */
  lemma FindPut(items: seq<Item>, x: Item, id: string)
    ensures Find(Put(items, x), id) == if id == x.id then Some(x) else Find(items, id)
  {
    FindWithout(items, x.id, x.id);
    FindWithout(items, x.id, id);
    FindAppended(Without(items, x.id), x, id);
  }

  /**
    An accepted update sets the given fields and keeps the omitted ones, in canonical form, and touches no other
    item, whoever wrote the item before.
    */
  lemma UpdateMerges(s: State, tool: string, id: string, e: Edit, t: Ticket)
    requires Refused(s, Update(tool, id, e, t)).None? && id == Trim(id)
    ensures var x := Find(s.items, id).value;
      Find(Apply(s, Update(tool, id, e, t)).items, id) ==
        Some(Item(id, Or(e.intent, x.intent), Canonical(Or(e.owns, x.owns)), Canonical(Or(e.dependsOn, x.dependsOn)),
                  Or(e.status, x.status), if e.target.Some? then e.target else x.target,
                  Tidy(if e.expectedBy.Some? then e.expectedBy else x.expectedBy),
                  Some(tool), t.createdAt, t.eventId, s.last + 1 + t.gap))
    ensures forall other :: other != id ==> Find(Apply(s, Update(tool, id, e, t)).items, other) == Find(s.items, other)
  {
    var x := Find(s.items, id).value;
    var w := Written(Merge(tool, x, e), StampAfter(s.last, t));
    forall other ensures Find(Put(s.items, w), other) == if other == id then Some(w) else Find(s.items, other) {
      FindPut(s.items, w, other);
    }
  }

  /** Of an item in canonical form, an update keeps every omitted field as it is. */
  lemma UpdateKeepsOmitted(s: State, tool: string, id: string, e: Edit, t: Ticket)
    requires Refused(s, Update(tool, id, e, t)).None? && Clean(Find(s.items, id).value)
    ensures var x, after := Find(s.items, id).value, Find(Apply(s, Update(tool, id, e, t)).items, id);
      && after.Some?
      && (e.intent.None? ==> after.value.intent == x.intent)
      && (e.owns.None? ==> after.value.owns == x.owns)
      && (e.dependsOn.None? ==> after.value.dependsOn == x.dependsOn)
      && (e.status.None? ==> after.value.status == x.status)
      && (e.target.None? ==> after.value.target == x.target)
      && (e.expectedBy.None? ==> after.value.expectedBy == x.expectedBy)
  {
    UpdateMerges(s, tool, id, e, t);
  }

  /** Finishing is an update of the status alone, and is refused the second time. */
  lemma DoneOnlyFinishes(s: State, tool: string, id: string, t: Ticket, again: Ticket)
    requires Refused(s, Done(tool, id, t)).None? && id == Trim(id)
    ensures var x, after := Find(s.items, id).value, Apply(s, Done(tool, id, t));
      && Find(after.items, id) ==
           Some(Item(id, x.intent, Canonical(x.owns), Canonical(x.dependsOn), "done", x.target, Tidy(x.expectedBy),
                     Some(tool), t.createdAt, t.eventId, s.last + 1 + t.gap))
      && Refused(after, Done(tool, id, again)) == Some(AlreadyDone)
  {
    var w := Written(Merge(tool, Find(s.items, id).value, FINISH), StampAfter(s.last, t));
    FindPut(s.items, w, id);
  }

  /** An item just added can be found under the id it was added with exactly when that id has no outer blanks. */
  lemma AddedItemFound(s: State, d: Draft, status: Option<string>, t: Ticket)
    requires Refused(s, Add(d, status, t)).None?
    requires forall x <- s.items :: x.id == Trim(x.id)
    ensures Find(Apply(s, Add(d, status, t)).items, d.id).Some? <==> d.id == Trim(d.id)
  {
    var w := Written(d.(status := Or(status, "open")), StampAfter(s.last, t));
    FindPut(s.items, w, d.id);
  }

  /** What an accepted write adds: the draft, trimmed and in canonical form, open unless it says otherwise. */
  lemma AddedItemIs(s: State, d: Draft, status: Option<string>, t: Ticket)
    requires Refused(s, Add(d, status, t)).None?
    ensures Find(Apply(s, Add(d, status, t)).items, Trim(d.id)) ==
      Some(Item(Trim(d.id), d.intent, Canonical(d.owns), Canonical(d.dependsOn),
                if status == None then "open" else status.value, d.target, Tidy(d.expectedBy), Some(d.tool),
                t.createdAt, t.eventId, s.last + 1 + t.gap))
    ensures forall other ::
      other != Trim(d.id) ==> Find(Apply(s, Add(d, status, t)).items, other) == Find(s.items, other)
  {
    var w := Written(d.(status := Or(status, "open")), StampAfter(s.last, t));
    forall id ensures Find(Put(s.items, w), id) == if id == w.id then Some(w) else Find(s.items, id) {
      FindPut(s.items, w, id);
    }
  }

  predicate Knows(s: State, id: string) {
    exists x <- s.items :: x.id == id
  }

  /** Which writes are refused, and why: a bad id first, then an unknown status, then a missing or finished item. */
  lemma RefusedExactly(s: State, d: Draft, tool: string, id: string, e: Edit, t: Ticket)
    requires forall x, y :: x in s.items && y in s.items && x.id == y.id ==> x == y
    ensures var statuses := {None, Some("open"), Some("planned"), Some("in_progress"), Some("blocked"), Some("done")};
      var named := Trim(id) != "" && ':' !in id && '\n' !in id;
      var add, update, done :=
        Refused(s, Add(d.(id := id), e.status, t)), Refused(s, Update(tool, id, e, t)), Refused(s, Done(tool, id, t));
      && (add == None <==> named && e.status in statuses)
      && (update == None <==> named && e.status in statuses && Knows(s, id))
      && (done == None <==> exists x <- s.items :: x.id == id && x.status != "done")
      && (add == Some(BadId) <==> !named) && (update == Some(BadId) <==> !named)
      && (add == Some(BadStatus) <==> named && e.status !in statuses)
      && (update == Some(BadStatus) <==> named && e.status !in statuses)
      && (update == Some(Missing) <==> named && e.status in statuses && !Knows(s, id))
      && (done == Some(Missing) <==> !Knows(s, id))
      && (done == Some(AlreadyDone) <==> exists x <- s.items :: x.id == id && x.status == "done")
  {
    var x := Find(s.items, id);
    assert Knows(s, id) <==> x.Some?;
    assert ValidStatus(e.status) <==>
      e.status in {None, Some("open"), Some("planned"), Some("in_progress"), Some("blocked"), Some("done")};
  }

  /** A fact that is not a backlog write: a claim, a presence, and so on. */
  predicate Unrelated(op: Op) {
    op.Other? && KeyOf(op.fact).None?
  }

  /** A run keeps every item clean, with any unrelated facts between the writes. */
  lemma {:induction false} RunKeepsClean(s: State, ops: seq<Op>)
    requires forall x <- s.items :: Clean(x)
    requires forall k :: 0 <= k < |ops| ==> !ops[k].Other? || Unrelated(ops[k])
    ensures forall x <- ApplyAll(s, ops).items :: Clean(x)
  {
    if ops != [] {
      var init, op := ops[..|ops| - 1], ops[|ops| - 1];
      RunKeepsClean(s, init);
      StepKeepsClean(ApplyAll(s, init), op);
    }
  }

  lemma StepKeepsClean(s: State, op: Op)
    requires (op.Other? ==> Unrelated(op)) && forall x <- s.items :: Clean(x)
    ensures forall x <- Apply(s, op).items :: Clean(x)
  {
    if Refused(s, op).None? {
      match op
      case Add(d, status, t) => WriteKeepsClean(s, d.(status := Or(status, "open")), t);
      case Update(tool, id, e, t) => WriteKeepsClean(s, Merge(tool, Find(s.items, id).value, e), t);
      case Done(tool, id, t) => WriteKeepsClean(s, Merge(tool, Find(s.items, id).value, FINISH), t);
      case Other(f, gap) => assert KeyOf(f.(number := s.last + 1 + gap)) == KeyOf(f);
    }
  }

  lemma WriteKeepsClean(s: State, d: Draft, t: Ticket)
    requires '\n' !in d.id && Trim(d.id) != "" && forall x <- s.items :: Clean(x)
    ensures forall x <- Write(s, d, t).items :: Clean(x)
  {
    WrittenIsClean(d, StampAfter(s.last, t));
    var w := Written(d, StampAfter(s.last, t));
    forall x | x in Without(s.items, w.id)
      ensures x in s.items
    {
      FilterMembers(s.items, (y: Item) => y.id != w.id, x);
    }
  }
}
