/**
  The session supervisor: launches behind the consent gate, drains adapter events into the store and
  drives session status.  supervisor.rs over the tables of store.rs.
  */
module Supervisor {
  import opened Basics
  import opened EventStore
  import C = Consent

  // ---------------------------------------------------------------------------
  // The store
  // ---------------------------------------------------------------------------

  class Store {
    var sessions: map<Id, Session>
    var events: seq<Row>

    ghost predicate Valid()
      reads this
    {
      && Numbered(events)
      && (forall id <- sessions :: |StreamOf(events, id)| == sessions[id].lastSeq)
      && (forall id :: id !in sessions ==> StreamOf(events, id) == [])
    }

    constructor ()
      ensures Valid() && sessions == map[] && events == []
    {
      sessions, events := map[], [];
    }

    /** Fails on a duplicate primary key. */
    method CreateSession(id: Id, s: Session) returns (ok: bool)
      requires Valid() && s.lastSeq == 0
      modifies `sessions
      ensures Valid() && ok == (id !in old(sessions))
      ensures sessions == if ok then old(sessions)[id := s] else old(sessions)
    {
      ok := id !in sessions;
      if ok { sessions := sessions[id := s]; }
    }

    /** An update of a missing row changes nothing. */
    method UpdateStatus(id: Id, status: Status)
      requires Valid()
      modifies `sessions
      ensures Valid()
      ensures sessions == if id in old(sessions) then old(sessions)[id := old(sessions)[id].(status := status)]
        else old(sessions)
    {
      if id in sessions { sessions := sessions[id := sessions[id].(status := status)]; }
    }

    /** Assigns the next number, stores the cleaned event, bumps the row. */
    method AppendEvent(id: Id, e: Event) returns (number: Option<nat>)
      requires Valid()
      modifies this
      ensures Valid()
      ensures id !in old(sessions) ==> number == None && sessions == old(sessions) && events == old(events)
      ensures id in old(sessions) ==>
        && number == Some(old(sessions)[id].lastSeq + 1)
        && events == Appended(old(events), id, e)
        && sessions == old(sessions)[id := old(sessions)[id].(lastSeq := old(sessions)[id].lastSeq + 1)]
    {
      if id !in sessions { return None; }
      var next := sessions[id].lastSeq + 1;
      var r := Row(id, next, Cleaned(e));
      NumberedAppend(events, r);
      forall other ensures StreamOf(events + [r], other) == if other == id then StreamOf(events, id) + [r]
        else StreamOf(events, other) {
        StreamAppend(events, r, other);
      }
      events := events + [r];
      sessions := sessions[id := sessions[id].(lastSeq := next)];
      return Some(next);
    }
  }

  // ---------------------------------------------------------------------------
  // What draining an adapter's events comes to
  // ---------------------------------------------------------------------------

  datatype Item = Emit(event: Event) | Finished | Crashed(message: string)

  /** The number of items before the first terminal one. */
  function Leading(items: seq<Item>): (n: nat)
    ensures n <= |items|
    ensures forall k :: 0 <= k < n ==> items[k].Emit?
    ensures n < |items| ==> !items[n].Emit?
  {
    if items == [] || !items[0].Emit? then 0 else 1 + Leading(items[1..])
  }

  function EventsOf(items: seq<Item>): (es: seq<Event>)
    requires forall k :: 0 <= k < |items| ==> items[k].Emit?
    ensures |es| == |items| && forall k :: 0 <= k < |items| ==> es[k] == items[k].event
  {
    seq(|items|, k requires 0 <= k < |items| => items[k].event)
  }

  /** The events that are stored: those before the first terminal item. */
  function Emitted(items: seq<Item>): seq<Event> {
    EventsOf(items[..Leading(items)])
  }

  function Waiting(es: seq<Event>): Status {
    if exists k :: 0 <= k < |es| && es[k].requiresInput then AwaitingInput else Active
  }

  /** The status the list fixes: its first terminal item, else a closed channel, else whether input is awaited. */
  function EndStatus(items: seq<Item>, closed: bool): Status {
    var n := Leading(items);
    if n < |items| then (if items[n].Finished? then Completed else EventStore.Failed)
    else if closed then Disconnected
    else Waiting(Emitted(items))
  }

  /** The status of a session whose items end at `i`, with a terminal item or a closed channel. */
  function Ending(items: seq<Item>, i: nat): Status
    requires i <= |items|
  {
    if i == |items| then Disconnected else if items[i].Finished? then Completed else EventStore.Failed
  }

  lemma EndingIs(items: seq<Item>, closed: bool)
    requires Leading(items) < |items| || closed
    ensures EndStatus(items, closed) == Ending(items, Leading(items)) && EndStatus(items, closed).IsTerminal()
  {
  }

  // The same, said of the items alone.

  /** Item `n` is the first that is not an event. */
  predicate FirstEnd(items: seq<Item>, n: int) {
    0 <= n < |items| && !items[n].Emit? && forall k :: 0 <= k < n ==> items[k].Emit?
  }

  predicate AllEmit(items: seq<Item>) {
    forall k :: 0 <= k < |items| ==> items[k].Emit?
  }

  /**
    The first terminal item decides; without one, a closed channel disconnects the session, and an open one leaves
    it waiting exactly when some event asked for input.
    */
  ghost predicate EndsAs(items: seq<Item>, closed: bool, status: Status) {
    && (forall n :: FirstEnd(items, n) ==>
          && (items[n].Finished? ==> status == Completed)
          && (items[n].Crashed? ==> status == EventStore.Failed))
    && (AllEmit(items) ==>
          && (closed ==> status == Disconnected)
          && (!closed && (exists k :: 0 <= k < |items| && items[k].event.requiresInput) ==> status == AwaitingInput)
          && (!closed && (forall k :: 0 <= k < |items| ==> !items[k].event.requiresInput) ==> status == Active))
  }

  lemma EndStatusEnds(items: seq<Item>, closed: bool)
    ensures EndsAs(items, closed, EndStatus(items, closed))
  {
    var n := Leading(items);
    forall m | FirstEnd(items, m) ensures m == n {
    }
    if AllEmit(items) {
      assert items[..n] == items;
      assert forall k :: 0 <= k < n ==> Emitted(items)[k] == items[k].event;
    }
  }

  /** The stream of a new session holds its events up to the first terminal item, cleaned and numbered from one. */
  ghost predicate StreamHolds(stream: seq<Row>, id: Id, items: seq<Item>) {
    && |stream| <= |items| && (|stream| < |items| ==> !items[|stream|].Emit?)
    && forall k :: 0 <= k < |stream| ==> items[k].Emit? && stream[k] == Row(id, k + 1, Cleaned(items[k].event))
  }

  lemma NewStreamHolds(rows: seq<Row>, id: Id, items: seq<Item>)
    requires StreamOf(rows, id) == []
    ensures StreamHolds(StreamOf(AppendAll(rows, id, Emitted(items)), id), id, items)
  {
    var es := Emitted(items);
    AppendAllStream(rows, id, es);
    var stream := StreamOf(AppendAll(rows, id, es), id);
    assert stream == NumberedOn(id, 0, es);
    forall k | 0 <= k < |stream| ensures items[k].Emit? && stream[k] == Row(id, k + 1, Cleaned(items[k].event)) {
      assert es[k] == items[..Leading(items)][k].event;
    }
  }

  function AppendAll(rows: seq<Row>, id: Id, es: seq<Event>): seq<Row> {
    if es == [] then rows else Appended(AppendAll(rows, id, es[..|es| - 1]), id, es[|es| - 1])
  }

  /** The cleaned events as rows numbered on from `last`. */
  function NumberedOn(id: Id, last: nat, es: seq<Event>): (rows: seq<Row>)
    ensures |rows| == |es| && forall k :: 0 <= k < |es| ==> rows[k] == Row(id, last + k + 1, Cleaned(es[k]))
  {
    if es == [] then [] else NumberedOn(id, last, es[..|es| - 1]) + [Row(id, last + |es|, Cleaned(es[|es| - 1]))]
  }

  /** Appending a list extends its own session's stream by the cleaned events, numbered on. */
  lemma {:induction false} AppendAllStream(rows: seq<Row>, id: Id, es: seq<Event>)
    ensures StreamOf(AppendAll(rows, id, es), id) == StreamOf(rows, id) + NumberedOn(id, |StreamOf(rows, id)|, es)
  {
    var stream := StreamOf(rows, id);
    if es == [] {
      assert stream + [] == stream;
    } else {
      var init := es[..|es| - 1];
      AppendAllStream(rows, id, init);
      var r := Row(id, |stream| + |es|, Cleaned(es[|es| - 1]));
      StreamAppend(AppendAll(rows, id, init), r, id);
      Assoc(stream, NumberedOn(id, |stream|, init), r);
    }
  }

  lemma Assoc(a: seq<Row>, b: seq<Row>, r: Row)
    ensures a + b + [r] == a + (b + [r])
  {
  }

  /** It leaves every other stream alone. */
  lemma {:induction false} AppendAllOthers(rows: seq<Row>, id: Id, es: seq<Event>, other: Id)
    requires other != id
    ensures StreamOf(AppendAll(rows, id, es), other) == StreamOf(rows, other)
  {
    if es != [] {
      var before := AppendAll(rows, id, es[..|es| - 1]);
      AppendAllOthers(rows, id, es[..|es| - 1], other);
      StreamAppend(before, Row(id, |StreamOf(before, id)| + 1, Cleaned(es[|es| - 1])), other);
    }
  }

  // ---------------------------------------------------------------------------
  // The supervisor
  // ---------------------------------------------------------------------------

  datatype Refusal = NoConsent(verdict: C.Verdict) | RowExists | StartFailed | NotLive | KillFailed | NoSession

  /** An adapter call made by the supervisor, with the consent log and depth at that moment. */
  datatype Dispatch = Dispatch(agentType: string, log: seq<C.Value>, depth: Option<string>)

  /** A known vendor, depth within the cap, a chain that holds, and a last entry about the vendor that says `auto`. */
  ghost predicate Permitted(h: C.Hasher, d: Dispatch) {
    && d.agentType in {"claude", "codex"} && !C.DepthExceeded(d.depth) && C.ChainHolds(h, d.log)
    && C.LastSays(d.log, d.agentType, "auto")
  }

  ghost predicate AllPermitted(h: C.Hasher, ds: seq<Dispatch>) {
    forall k :: 0 <= k < |ds| ==> Permitted(h, ds[k])
  }

  lemma PermittedAppend(h: C.Hasher, ds: seq<Dispatch>, d: Dispatch, made: bool)
    requires AllPermitted(h, ds) && (made ==> Permitted(h, d))
    ensures AllPermitted(h, Made(ds, d, made))
  {
  }

  function Made(ds: seq<Dispatch>, d: Dispatch, made: bool): seq<Dispatch> {
    if made then ds + [d] else ds
  }

  /** Rows stay, and a terminal status never changes again. */
  ghost predicate TerminalKept(a: map<Id, Session>, b: map<Id, Session>) {
    forall id <- a :: id in b && (a[id].status.IsTerminal() ==> b[id].status == a[id].status)
  }

  /** The rows, the live map, and the sessions whose channel waits for a pump or has one. */
  datatype View = View(rows: map<Id, Session>, live: map<Id, Status>, pending: set<Id>, pumps: set<Id>)

  /**
    Each live session has a non-terminal status and a row with a non-terminal status; a row with a non-terminal
    status is live exactly when its adapter was started; and a session with a channel can only be terminal by a kill.
    */
  ghost predicate Tracked(v: View, started: set<Id>) {
    forall id :: TrackedAt(v, started, id)
  }

  ghost predicate TrackedAt(v: View, started: set<Id>, id: Id) {
    && (id in v.live ==> id in v.rows && !v.live[id].IsTerminal() && !v.rows[id].status.IsTerminal())
    && (id in started ==> id in v.rows)
    && (id in v.rows && !v.rows[id].status.IsTerminal() ==> (id in v.live <==> id in started))
    && (id in v.pending ==> id !in v.pumps)
    && (id in v.pending || id in v.pumps ==> id in v.rows)
    && (id in v.pending || id in v.pumps ==> v.rows[id].status.IsTerminal() ==> v.rows[id].status == Killed)
  }

  /** The live map says what the rows say. */
  ghost predicate Aligned(v: View) {
    forall id <- v.live :: id in v.rows && v.rows[id].status == v.live[id]
  }

  /** A row that is not live and has no channel stays as it is. */
  ghost predicate RestKept(a: View, b: View) {
    forall id <- a.rows :: id !in a.live && id !in a.pending && id !in a.pumps ==>
      id in b.rows && b.rows[id] == a.rows[id] && id !in b.live && id !in b.pending && id !in b.pumps
  }

  lemma RestKeptTransitive(a: View, b: View, c: View)
    requires RestKept(a, b) && RestKept(b, c)
    ensures RestKept(a, c)
  {
  }

  /** What every launch and kill keeps. */
  ghost predicate Orderly(a: View, b: View) {
    TerminalKept(a.rows, b.rows) && RestKept(a, b) && (Aligned(a) ==> Aligned(b))
  }

  /** A fresh row, not live. */
  lemma RowAdded(v: View, started: set<Id>, id: Id, row: Session)
    requires Tracked(v, started) && id !in v.rows && row.status == Active
    ensures var w := v.(rows := v.rows[id := row]); Tracked(w, started) && Orderly(v, w)
  {
    var w := v.(rows := v.rows[id := row]);
    forall x ensures TrackedAt(w, started, x) { assert TrackedAt(v, started, x); }
    TrackedParts(v, started);
  }

  /** The facts behind `Tracked` that the changes below use. */
  lemma TrackedParts(v: View, started: set<Id>)
    requires Tracked(v, started)
    ensures forall id <- v.live :: id in v.rows && !v.rows[id].status.IsTerminal()
    ensures forall id <- v.pending + v.pumps :: id in v.rows
  {
    forall id
      ensures id in v.live ==> id in v.rows && !v.rows[id].status.IsTerminal()
    {
      assert TrackedAt(v, started, id);
    }
    forall id ensures id in v.pending + v.pumps ==> id in v.rows { assert TrackedAt(v, started, id); }
  }

  lemma RowlessNotLive(v: View, started: set<Id>, id: Id)
    requires Tracked(v, started) && id !in v.rows
    ensures id !in v.live
  {
    assert TrackedAt(v, started, id);
  }

  /** A fresh row, live unless it ended at once, perhaps with a channel. */
  lemma SessionAdded(v: View, started: set<Id>, id: Id, row: Session, pending: set<Id>)
    requires Tracked(v, started) && id !in v.rows
    requires pending == v.pending || (pending == v.pending + {id} && !row.status.IsTerminal())
    ensures var w := View(v.rows[id := row], LiveAfter(v.live, id, row.status), pending, v.pumps);
      Tracked(w, started + {id}) && Orderly(v, w)
  {
    var w := View(v.rows[id := row], LiveAfter(v.live, id, row.status), pending, v.pumps);
    forall x ensures TrackedAt(w, started + {id}, x) { assert TrackedAt(v, started, x); }
    TrackedParts(v, started);
  }

  lemma SessionKilled(v: View, started: set<Id>, id: Id)
    requires Tracked(v, started) && id in v.live
    ensures id in v.rows
    ensures var w := v.(rows := v.rows[id := v.rows[id].(status := Killed)], live := v.live - {id});
      Tracked(w, started) && Orderly(v, w)
  {
    TrackedParts(v, started);
    var w := v.(rows := v.rows[id := v.rows[id].(status := Killed)], live := v.live - {id});
    forall x ensures TrackedAt(w, started, x) { assert TrackedAt(v, started, x); }
  }

  // ---------------------------------------------------------------------------
  // What a pump does to a session
  // ---------------------------------------------------------------------------

  lemma PumpTaken(v: View, started: set<Id>, id: Id)
    requires Tracked(v, started) && id in v.pending
    ensures var w := v.(pending := v.pending - {id}, pumps := v.pumps + {id}); Tracked(w, started) && Orderly(v, w)
  {
    var w := v.(pending := v.pending - {id}, pumps := v.pumps + {id});
    forall x ensures TrackedAt(w, started, x) { assert TrackedAt(v, started, x); }
  }

  lemma PumpLeft(v: View, started: set<Id>, id: Id)
    requires Tracked(v, started)
    ensures Tracked(v.(pumps := v.pumps - {id}), started) && Orderly(v, v.(pumps := v.pumps - {id}))
  {
    forall x ensures TrackedAt(v.(pumps := v.pumps - {id}), started, x) { assert TrackedAt(v, started, x); }
  }

  lemma PumpHasRow(v: View, started: set<Id>, id: Id)
    requires Tracked(v, started) && id in v.pumps
    ensures id in v.rows
  {
    assert TrackedAt(v, started, id);
  }

  lemma PumpStored(v: View, started: set<Id>, id: Id, lastSeq: nat)
    requires Tracked(v, started) && id in v.pumps
    ensures id in v.rows
    ensures var w := v.(rows := v.rows[id := v.rows[id].(lastSeq := lastSeq)]); Tracked(w, started) && Orderly(v, w)
  {
    TrackedParts(v, started);
    var w := v.(rows := v.rows[id := v.rows[id].(lastSeq := lastSeq)]);
    forall x ensures TrackedAt(w, started, x) { assert TrackedAt(v, started, x); }
  }

  /** Setting the live status alone keeps the two in step exactly when the row already says so. */
  lemma LiveStatusSet(v: View, started: set<Id>, id: Id, status: Status)
    requires Tracked(v, started) && id in v.pumps && id in v.live && !status.IsTerminal()
    ensures id in v.rows
    ensures var w := v.(live := v.live[id := status]);
      && Tracked(w, started) && TerminalKept(v.rows, w.rows) && RestKept(v, w)
      && (Aligned(v) ==> (Aligned(w) <==> v.rows[id].status == status))
  {
    TrackedParts(v, started);
    var w := v.(live := v.live[id := status]);
    forall x ensures TrackedAt(w, started, x) { assert TrackedAt(v, started, x); }
    assert w.live[id] == status;
  }

  /** Ending a session from its pump keeps every terminal status exactly when it was not killed before. */
  lemma PumpEnded(v: View, started: set<Id>, id: Id, status: Status)
    requires Tracked(v, started) && id in v.pumps && status in {Completed, EventStore.Failed}
    ensures id in v.rows
    ensures var w := EndedView(v, id, status);
      && Tracked(w, started) && RestKept(v, w) && (Aligned(v) ==> Aligned(w))
      && (TerminalKept(v.rows, w.rows) <==> v.rows[id].status != Killed)
  {
    TrackedParts(v, started);
    var w := EndedView(v, id, status);
    forall x ensures TrackedAt(w, started, x) { assert TrackedAt(v, started, x); }
    assert TrackedAt(v, started, id) && w.rows[id].status == status;
  }

  function EndedView(v: View, id: Id, status: Status): View
    requires id in v.rows
  {
    View(v.rows[id := v.rows[id].(status := status)], v.live - {id}, v.pending, v.pumps - {id})
  }

  class Supervisor {
    const h: C.Hasher
    const store: Store
    var live: map<Id, Status>
    var pendingPumps: map<Id, seq<Item>>
    /** The sessions whose pump is running, as a task of the transport. */
    var pumps: set<Id>
    /** Every `Adapter::start` and `Adapter::send` so far. */
    ghost var dispatches: seq<Dispatch>
    /** Every session whose `Adapter::start` succeeded. */
    ghost var started: set<Id>

    constructor (h: C.Hasher, store: Store)
      requires store.Valid()
      ensures this.h == h && this.store == store && Valid() && live == map[] && dispatches == [] && started == {}
        && pendingPumps == map[] && pumps == {}
    {
      this.h, this.store := h, store;
      live, pendingPumps, pumps, dispatches, started := map[], map[], {}, [], {};
    }

    ghost function Now(): View
      reads this, store
    {
      View(store.sessions, live, pendingPumps.Keys, pumps)
    }

    ghost predicate Valid()
      reads this, store
    {
      store.Valid() && Tracked(Now(), started)
    }

    method Transition(id: Id, status: Status)
      requires store.Valid() && id in store.sessions
      modifies `live, store`sessions
      ensures store.Valid()
      ensures store.sessions == old(store.sessions)[id := old(store.sessions)[id].(status := status)]
      ensures live == if id in old(live) then old(live)[id := status] else old(live)
    {
      store.UpdateStatus(id, status);
      if id in live { live := live[id := status]; }
    }

    /** Stores one event and notes a request for input. */
    method StoreEvent(id: Id, e: Event)
      requires store.Valid() && id in store.sessions && id in live
      modifies `live, store
      ensures store.Valid() && store.events == Appended(old(store.events), id, e)
      ensures var row := old(store.sessions)[id];
        store.sessions == old(store.sessions)[id := row.(lastSeq := row.lastSeq + 1, status := if e.requiresInput
          then AwaitingInput else row.status)]
      ensures live == if e.requiresInput then old(live)[id := AwaitingInput] else old(live)
    {
      var number := store.AppendEvent(id, e);
      if e.requiresInput { Transition(id, AwaitingInput); }
    }

    method Close(id: Id, status: Status)
      requires store.Valid() && id in store.sessions
      modifies `live, store`sessions
      ensures store.Valid() && live == old(live) - {id}
      ensures store.sessions == old(store.sessions)[id := old(store.sessions)[id].(status := status)]
    {
      Transition(id, status);
      live := live - {id};
    }

    /** The non-terminal part of the loop; returns the number of items consumed. */
    method DrainLeading(id: Id, items: seq<Item>) returns (i: nat)
      requires store.Valid() && id in store.sessions && id in live && store.sessions[id].status == live[id] == Active
      modifies `live, store
      ensures store.Valid() && i == Leading(items)
      ensures store.events == AppendAll(old(store.events), id, Emitted(items))
      ensures store.sessions ==
        old(store.sessions)[id := After(old(store.sessions)[id], Emitted(items), Waiting(Emitted(items)))]
      ensures live == old(live)[id := Waiting(Emitted(items))]
    {
      ghost var row := store.sessions[id];
      ghost var es: seq<Event> := [];
      i := 0;
      while i < |items| && items[i].Emit?
        invariant i <= |items| && store.Valid()
        invariant forall k :: 0 <= k < i ==> items[k].Emit?
        invariant es == EventsOf(items[..i])
        invariant store.events == AppendAll(old(store.events), id, es)
        invariant store.sessions == old(store.sessions)[id := After(row, es, Waiting(es))]
        invariant live == old(live)[id := Waiting(es)]
      {
        var e := items[i].event;
        WaitingStep(es, e);
        StoreEvent(id, e);
        AppendAllStep(old(store.events), id, es, e);
        assert store.sessions[id] == After(row, es + [e], Waiting(es + [e]));
        Overwrite(old(store.sessions), id, After(row, es, Waiting(es)), store.sessions[id]);
        Overwrite(old(live), id, Waiting(es), Waiting(es + [e]));
        EventsStep(items, i);
        es := es + [e];
        i := i + 1;
      }
      LeadingIs(items, i);
    }

    /** Consumes the channel until a terminal item, or until it is empty or closed. */
    method DrainEvents(id: Id, items: seq<Item>, closed: bool)
      requires store.Valid() && id in store.sessions && id in live && store.sessions[id].status == live[id] == Active
      modifies `live, store
      ensures store.Valid()
      ensures store.events == AppendAll(old(store.events), id, Emitted(items))
      ensures store.sessions ==
        old(store.sessions)[id := After(old(store.sessions)[id], Emitted(items), EndStatus(items, closed))]
      ensures live == if EndStatus(items, closed).IsTerminal() then old(live) - {id}
        else old(live)[id := EndStatus(items, closed)]
      ensures id in store.sessions && EndsAs(items, closed, store.sessions[id].status)
    {
      ghost var es, row, status := Emitted(items), store.sessions[id], EndStatus(items, closed);
      var i := DrainLeading(id, items);
      Conclude(id, items, i, closed);
      Overwrite(old(store.sessions), id, After(row, es, Waiting(es)), After(row, es, status));
      Overwrite(old(live), id, Waiting(es), status);
      EndStatusEnds(items, closed);
      assert store.sessions[id].status == status;
    }

    /** What follows the loop: a terminal item or a closed channel ends the session. */
    method Conclude(id: Id, items: seq<Item>, i: nat, closed: bool)
      requires store.Valid() && id in store.sessions && id in live && i == Leading(items)
      requires store.sessions[id].status == live[id] == Waiting(Emitted(items))
      modifies `live, store`sessions
      ensures store.Valid()
      ensures store.sessions == old(store.sessions)[id := old(store.sessions)[id].(status := EndStatus(items, closed))]
      ensures live == if EndStatus(items, closed).IsTerminal() then old(live) - {id} else old(live)
    {
      if i < |items| || closed {
        EndingIs(items, closed);
        Close(id, Ending(items, i));
      } else {
        Overwrite(old(store.sessions), id, store.sessions[id], store.sessions[id]);
      }
    }

    method Gate(agentType: string, log: seq<C.Value>, depth: Option<string>) returns (verdict: C.Verdict)
      ensures verdict == C.CheckAgent(h, agentType, log, depth)
      ensures verdict == C.Allowed <==> Permitted(h, Dispatch(agentType, log, depth))
    {
      verdict := C.CheckForAgentType(h, agentType, log, depth);
      C.AllowedExactly(h, agentType, log, depth);
    }

    /** Past the gate: the row, `Adapter::start` and the live entry, which both kinds of launch share. */
    method Open(row: Session, id: Id, starts: bool) returns (refused: Option<Refusal>)
      requires Valid() && row.lastSeq == 0 && row.status == Active
      modifies `live, `started, store`sessions
      ensures store.Valid() && started == Starting(old(started), id, refused)
      ensures refused.Some? ==> Valid() && Orderly(old(Now()), Now())
      ensures refused == OpenRefusal(C.Allowed, id in old(store.sessions), starts)
      ensures store.sessions == if Reached(refused) then old(store.sessions)[id := row] else old(store.sessions)
      ensures live == if refused.None? then old(live)[id := Active] else old(live)
    {
      refused := None;
      var ok := store.CreateSession(id, row);
      if !ok { return Some(RowExists); }
      RowAdded(old(Now()), started, id, row);
      if !starts { return Some(StartFailed); }
      live, started := live[id := Active], started + {id};
    }

    method OpenAndDrain(row: Session, id: Id, starts: bool, items: seq<Item>, closed: bool)
        returns (refused: Option<Refusal>)
      requires Valid() && row.lastSeq == 0 && row.status == Active
      modifies `live, `started, store
      ensures Valid() && Orderly(old(Now()), Now()) && started == Starting(old(started), id, refused)
      ensures refused == OpenRefusal(C.Allowed, id in old(store.sessions), starts)
      ensures refused.Some? ==>
        store.sessions == if Reached(refused) then old(store.sessions)[id := row] else old(store.sessions)
      ensures refused.Some? ==> live == old(live) && store.events == old(store.events)
      ensures refused.None? ==>
        && store.sessions == old(store.sessions)[id := After(row, Emitted(items), EndStatus(items, closed))]
        && store.events == AppendAll(old(store.events), id, Emitted(items))
        && live == LiveAfter(old(live), id, EndStatus(items, closed))
    {
      refused := Open(row, id, starts);
      if refused.None? {
        RowlessNotLive(old(Now()), old(started), id);
        DrainOpened(old(store.sessions), old(live), row, id, items, closed);
        SessionAdded(old(Now()), old(started), id, After(row, Emitted(items), EndStatus(items, closed)),
          pendingPumps.Keys);
      }
    }

    /** The drain of a session that was opened just now. */
    method DrainOpened(ghost rows: map<Id, Session>, ghost were: map<Id, Status>, ghost row: Session, id: Id,
        items: seq<Item>, closed: bool)
      requires store.Valid() && id !in rows && id !in were && row.lastSeq == 0 && row.status == Active
      requires store.sessions == rows[id := row] && live == were[id := Active]
      modifies `live, store
      ensures store.Valid() && store.events == AppendAll(old(store.events), id, Emitted(items))
      ensures store.sessions == rows[id := After(row, Emitted(items), EndStatus(items, closed))]
      ensures live == LiveAfter(were, id, EndStatus(items, closed))
    {
      DrainEvents(id, items, closed);
      Overwrite(rows, id, row, After(row, Emitted(items), EndStatus(items, closed)));
      Overwrite(were, id, Active, EndStatus(items, closed));
      assert were - {id} == were;
    }

    /** Open and leave the channel for the transport's pump. */
    method OpenAndDefer(row: Session, id: Id, starts: bool, items: seq<Item>) returns (refused: Option<Refusal>)
      requires Valid() && row.lastSeq == 0 && row.status == Active
      modifies `live, `started, `pendingPumps, store`sessions
      ensures Valid() && Orderly(old(Now()), Now()) && started == Starting(old(started), id, refused)
      ensures refused == OpenRefusal(C.Allowed, id in old(store.sessions), starts)
      ensures refused.Some? ==>
        store.sessions == if Reached(refused) then old(store.sessions)[id := row] else old(store.sessions)
      ensures refused.Some? ==> live == old(live) && pendingPumps == old(pendingPumps)
      ensures refused.None? ==>
        && store.sessions == old(store.sessions)[id := row] && live == old(live)[id := Active]
        && pendingPumps == old(pendingPumps)[id := items]
    {
      refused := Open(row, id, starts);
      if refused.None? {
        pendingPumps := pendingPumps[id := items];
        SessionAdded(old(Now()), old(started), id, row, pendingPumps.Keys);
      }
    }

    ghost method Record(d: Dispatch, made: bool)
      requires Valid()
      modifies `dispatches
      ensures Valid() && Now() == old(Now()) && dispatches == Made(old(dispatches), d, made)
    {
      dispatches := Made(dispatches, d, made);
    }

    /** Launch and drain at once.  `items` and `closed` are what the adapter put on the channel. */
    method LaunchSession(agentType: string, repo: string, owner: string, id: Id, log: seq<C.Value>,
        depth: Option<string>, starts: bool, items: seq<Item>, closed: bool) returns (refused: Option<Refusal>)
      requires Valid()
      modifies `live, `started, `dispatches, store
      ensures Valid() && Orderly(old(Now()), Now()) && started == Starting(old(started), id, refused)
      ensures refused == OpenRefusal(C.CheckAgent(h, agentType, log, depth), id in old(store.sessions), starts)
      ensures refused.Some? ==>
        && live == old(live) && store.events == old(store.events)
        && store.sessions ==
          if Reached(refused) then old(store.sessions)[id := Session(owner, agentType, repo, Active, 0)]
          else old(store.sessions)
      ensures refused.None? ==>
        && store.sessions ==
          old(store.sessions)[id := After(Session(owner, agentType, repo, Active, 0), Emitted(items),
                                          EndStatus(items, closed))]
        && store.events == AppendAll(old(store.events), id, Emitted(items))
        && live == LiveAfter(old(live), id, EndStatus(items, closed))
      ensures refused.None? ==>
        && id in store.sessions && EndsAs(items, closed, store.sessions[id].status)
        && StreamHolds(StreamOf(store.events, id), id, items)
      ensures dispatches == Made(old(dispatches), Dispatch(agentType, log, depth), Reached(refused))
      ensures Reached(refused) ==> Permitted(h, Dispatch(agentType, log, depth))
    {
      EndStatusEnds(items, closed);
      if id !in store.sessions { NewStreamHolds(store.events, id, items); }
      var verdict := Gate(agentType, log, depth);
      if verdict != C.Allowed { return Some(NoConsent(verdict)); }
      refused := OpenAndDrain(Session(owner, agentType, repo, Active, 0), id, starts, items, closed);
      Record(Dispatch(agentType, log, depth), Reached(refused));
    }

    /** Launch and leave the channel for the transport's pump. */
    method LaunchSessionAsync(agentType: string, repo: string, owner: string, id: Id, log: seq<C.Value>,
        depth: Option<string>, starts: bool, items: seq<Item>) returns (refused: Option<Refusal>)
      requires Valid()
      modifies `live, `started, `dispatches, `pendingPumps, store`sessions
      ensures Valid() && Orderly(old(Now()), Now()) && started == Starting(old(started), id, refused)
      ensures refused == OpenRefusal(C.CheckAgent(h, agentType, log, depth), id in old(store.sessions), starts)
      ensures refused.Some? ==>
        && live == old(live) && pendingPumps == old(pendingPumps)
        && store.sessions ==
          if Reached(refused) then old(store.sessions)[id := Session(owner, agentType, repo, Active, 0)]
          else old(store.sessions)
      ensures refused.None? ==>
        && store.sessions == old(store.sessions)[id := Session(owner, agentType, repo, Active, 0)]
        && live == old(live)[id := Active] && pendingPumps == old(pendingPumps)[id := items]
      ensures dispatches == Made(old(dispatches), Dispatch(agentType, log, depth), Reached(refused))
      ensures Reached(refused) ==> Permitted(h, Dispatch(agentType, log, depth))
    {
      var verdict := Gate(agentType, log, depth);
      if verdict != C.Allowed { return Some(NoConsent(verdict)); }
      refused := OpenAndDefer(Session(owner, agentType, repo, Active, 0), id, starts, items);
      Record(Dispatch(agentType, log, depth), Reached(refused));
    }

    /** The one path to `Adapter::send`; the gate is asked again on every call. */
    method AdapterSend(id: Id, log: seq<C.Value>, depth: Option<string>) returns (refused: Option<Refusal>)
      requires Valid()
      modifies `dispatches
      ensures Valid()
      ensures id !in store.sessions ==> refused == Some(NoSession) && dispatches == old(dispatches)
      ensures id in store.sessions ==>
        var d := Dispatch(store.sessions[id].agentType, log, depth);
        && (refused.None? <==> Permitted(h, d))
        && dispatches == Made(old(dispatches), d, refused.None?)
    {
      if id !in store.sessions { return Some(NoSession); }
      var agentType := store.sessions[id].agentType;
      var verdict := Gate(agentType, log, depth);
      if verdict != C.Allowed { return Some(NoConsent(verdict)); }
      dispatches := dispatches + [Dispatch(agentType, log, depth)];
      return None;
    }

    method KillSession(id: Id, killed: bool) returns (refused: Option<Refusal>)
      requires Valid()
      modifies `live, store`sessions
      ensures Valid() && Orderly(old(Now()), Now())
      ensures refused == if id !in old(live) then Some(NotLive) else if !killed then Some(KillFailed) else None
      ensures refused.Some? ==> live == old(live) && store.sessions == old(store.sessions)
      ensures refused.None? ==> live == old(live) - {id}
      ensures refused.None? ==>
        && id in old(store.sessions)
        && store.sessions == old(store.sessions)[id := old(store.sessions)[id].(status := Killed)]
    {
      if id !in live { return Some(NotLive); }
      if !killed { return Some(KillFailed); }
      SessionKilled(Now(), started, id);
      Close(id, Killed);
      return None;
    }

    // The transport's pump: each of these is one stretch under the supervisor's lock.

    /** `take_pending_pump`; the transport then runs a pump on the channel. */
    method TakePendingPump(id: Id) returns (items: Option<seq<Item>>)
      requires Valid()
      modifies `pendingPumps, `pumps
      ensures Valid() && Orderly(old(Now()), Now())
      ensures items == if id in old(pendingPumps) then Some(old(pendingPumps)[id]) else None
      ensures pendingPumps == old(pendingPumps) - {id} && pumps == old(pumps) + if items.Some? then {id} else {}
    {
      if id !in pendingPumps { return None; }
      PumpTaken(Now(), started, id);
      items := Some(pendingPumps[id]);
      pendingPumps, pumps := pendingPumps - {id}, pumps + {id};
    }

    method SetStatus(id: Id, status: Status)
      modifies `live
      ensures live == if id in old(live) then old(live)[id := status] else old(live)
    {
      if id in live { live := live[id := status]; }
    }

    method RemoveLive(id: Id)
      modifies `live
      ensures live == old(live) - {id}
    {
      live := live - {id};
    }

    /** The pump stores an event, whatever has become of the session. */
    method PumpStore(id: Id, e: Event)
      requires Valid() && id in pumps
      modifies store
      ensures Valid() && Orderly(old(Now()), Now()) && store.events == Appended(old(store.events), id, e)
      ensures id in old(store.sessions) && store.sessions ==
        old(store.sessions)[id := old(store.sessions)[id].(lastSeq := old(store.sessions)[id].lastSeq + 1)]
    {
      PumpHasRow(Now(), started, id);
      PumpStored(Now(), started, id, store.sessions[id].lastSeq + 1);
      var _ := store.AppendEvent(id, e);
    }

    /** The pump notes that the session waits for input, or no longer does; only the live map is told. */
    method PumpStatus(id: Id, waits: bool)
      requires Valid() && id in pumps
      modifies `live
      ensures Valid() && RestKept(old(Now()), Now()) && id in store.sessions
      ensures live == if id in old(live) then old(live)[id := PumpedStatus(waits)] else old(live)
      ensures old(Aligned(Now())) ==>
        (Aligned(Now()) <==> id !in live || store.sessions[id].status == PumpedStatus(waits))
      ensures id in live ==> live[id] == if waits then AwaitingInput else Active
    {
      TrackedParts(Now(), started);
      if id in live { LiveStatusSet(Now(), started, id, PumpedStatus(waits)); }
      SetStatus(id, PumpedStatus(waits));
    }

    /** The pump met a terminal item: the row is overwritten without a look at it. */
    method PumpEnd(id: Id, failed: bool)
      requires Valid() && id in pumps
      modifies `live, `pumps, store`sessions
      ensures Valid() && id in old(store.sessions) && Now() == EndedView(old(Now()), id, EndedStatus(failed))
      ensures RestKept(old(Now()), Now()) && (old(Aligned(Now())) ==> Aligned(Now()))
      ensures id in old(store.sessions) &&
        (TerminalKept(old(store.sessions), store.sessions) <==> old(store.sessions)[id].status != Killed)
      ensures id in store.sessions && store.sessions[id].status == if failed then EventStore.Failed else Completed
    {
      PumpEnded(Now(), started, id, EndedStatus(failed));
      Overwrite(live, id, EndedStatus(failed), EndedStatus(failed));
      store.UpdateStatus(id, EndedStatus(failed));
      SetStatus(id, EndedStatus(failed));
      RemoveLive(id);
      pumps := pumps - {id};
    }

    /** The channel closed without a terminal item: the pump stops and the session stays as it is. */
    method PumpClosed(id: Id)
      requires Valid()
      modifies `pumps
      ensures Valid() && Orderly(old(Now()), Now()) && pumps == old(pumps) - {id}
    {
      PumpLeft(Now(), started, id);
      pumps := pumps - {id};
    }

    method Step(op: Op)
      requires Valid() && AllPermitted(h, dispatches)
      modifies this, store
      ensures Valid() && AllPermitted(h, dispatches) && Moved(old(Now()), op, Now())
    {
      match op {
        case Launch(agentType, repo, owner, id, log, depth, starts, items, closed) =>
          var refused := LaunchSession(agentType, repo, owner, id, log, depth, starts, items, closed);
          PermittedAppend(h, old(dispatches), Dispatch(agentType, log, depth), Reached(refused));
        case LaunchAsync(agentType, repo, owner, id, log, depth, starts, items) =>
          var refused := LaunchSessionAsync(agentType, repo, owner, id, log, depth, starts, items);
          PermittedAppend(h, old(dispatches), Dispatch(agentType, log, depth), Reached(refused));
        case Send(id, log, depth) =>
          var refused := AdapterSend(id, log, depth);
          if id in store.sessions {
            PermittedAppend(h, old(dispatches), Dispatch(store.sessions[id].agentType, log, depth), refused.None?);
          }
        case Kill(id, killed) =>
          var _ := KillSession(id, killed);
        case Pump(id, act) => PumpStep(id, act);
      }
    }

    method PumpStep(id: Id, act: PumpAct)
      requires Valid()
      modifies `live, `pendingPumps, `pumps, store
      ensures Valid() && Moved(old(Now()), Pump(id, act), Now())
    {
      if act.Take? {
        var _ := TakePendingPump(id);
      } else if id in pumps {
        match act {
          case Stored(e) => PumpStore(id, e);
          case Noted(waits) => PumpStatus(id, waits);
          case Ended(failed) => PumpEnd(id, failed);
          case Closed => PumpClosed(id);
        }
      }
    }

    /**
      Any run of launches, sends, kills and pump steps; `views` are the states it goes through.  Throughout, each
      live session has a non-terminal row, a non-terminal row is live exactly when its adapter was started (`Valid`),
      and every adapter start or send was permitted at its own step; a row that is neither live nor pumped never
      changes.  Terminal statuses never change, at any step, exactly when no pump ends a killed session; and the
      live map is in step with the rows at every step exactly when it is so at first and no pump notes a status that
      the row does not have.
      */
    method Run(ops: seq<Op>) returns (ghost views: seq<View>)
      requires Valid() && AllPermitted(h, dispatches)
      modifies this, store
      ensures Valid() && AllPermitted(h, dispatches)
      ensures |views| == |ops| + 1 && views[0] == old(Now()) && views[|ops|] == Now()
      ensures RestKept(views[0], views[|ops|])
      ensures AllTerminalKept(views) <==> forall k :: 0 <= k < |ops| ==> !LateEnd(views[k], ops[k])
      ensures AllAligned(views) <==> Aligned(views[0]) && forall k :: 0 <= k < |ops| ==> !Strays(views[k], ops[k])
    {
      views := [Now()];
      for i := 0 to |ops|
        invariant Valid() && AllPermitted(h, dispatches)
        invariant Traced(views, ops, i) && views[0] == old(Now()) && views[i] == Now()
      {
        Step(ops[i]);
        TracedOn(views, ops, i, Now());
        views := views + [Now()];
      }
      TracedKept(views, ops);
    }
  }

  /** The run in which a terminal status does change: a killed session whose pump then meets a terminal item. */
  method LateEndOverwrites(s: Supervisor, id: Id, failed: bool)
    requires s.Valid() && id in s.pumps && id in s.live
    modifies s, s.store
    ensures s.Valid() && id in s.store.sessions && s.store.sessions[id].status == EndedStatus(failed)
  {
    var _ := s.KillSession(id, true);
    assert s.store.sessions[id].status == Killed;
    s.PumpEnd(id, failed);
  }

  /** The states of a run so far, each following from the one before. */
  ghost predicate Traced(views: seq<View>, ops: seq<Op>, n: nat)
    requires n <= |ops|
  {
    |views| == n + 1 && RestKept(views[0], views[n]) && forall k :: 0 <= k < n ==> Moved(views[k], ops[k], views[k + 1])
  }

  lemma TracedOn(views: seq<View>, ops: seq<Op>, n: nat, v: View)
    requires n < |ops| && Traced(views, ops, n) && Moved(views[n], ops[n], v)
    ensures Traced(views + [v], ops, n + 1)
  {
    RestKeptTransitive(views[0], views[n], v);
  }

  ghost predicate AllTerminalKept(views: seq<View>) {
    forall k :: 0 <= k < |views| - 1 ==> TerminalKept(views[k].rows, views[k + 1].rows)
  }

  ghost predicate AllAligned(views: seq<View>) {
    forall k :: 0 <= k < |views| ==> Aligned(views[k])
  }

  lemma TracedKept(views: seq<View>, ops: seq<Op>)
    requires Traced(views, ops, |ops|)
    ensures AllTerminalKept(views) <==> forall k :: 0 <= k < |ops| ==> !LateEnd(views[k], ops[k])
    ensures AllAligned(views) <==> Aligned(views[0]) && forall k :: 0 <= k < |ops| ==> !Strays(views[k], ops[k])
  {
    if AllTerminalKept(views) {
      forall k | 0 <= k < |ops| ensures !LateEnd(views[k], ops[k]) {
        assert TerminalKept(views[k].rows, views[k + 1].rows) && Moved(views[k], ops[k], views[k + 1]);
      }
    }
    if forall k :: 0 <= k < |ops| ==> !LateEnd(views[k], ops[k]) {
      forall k | 0 <= k < |views| - 1 ensures TerminalKept(views[k].rows, views[k + 1].rows) {
        assert Moved(views[k], ops[k], views[k + 1]) && !LateEnd(views[k], ops[k]);
      }
    }
    if Aligned(views[0]) && forall k :: 0 <= k < |ops| ==> !Strays(views[k], ops[k]) {
      AlignedThrough(views, ops, |ops|);
    }
    if AllAligned(views) {
      forall k | 0 <= k < |ops| ensures !Strays(views[k], ops[k]) {
        assert Moved(views[k], ops[k], views[k + 1]) && Aligned(views[k]) && Aligned(views[k + 1]);
      }
    }
  }

  lemma {:induction false} AlignedThrough(views: seq<View>, ops: seq<Op>, n: nat)
    requires n <= |ops| && Traced(views, ops, |ops|)
    requires Aligned(views[0]) && forall k :: 0 <= k < |ops| ==> !Strays(views[k], ops[k])
    ensures forall k :: 0 <= k <= n ==> Aligned(views[k])
  {
    if n > 0 {
      AlignedThrough(views, ops, n - 1);
      assert Moved(views[n - 1], ops[n - 1], views[n]);
    }
  }

  /** A pump about to end a session that was killed. */
  predicate LateEnd(v: View, op: Op) {
    op.Pump? && op.act.Ended? && op.id in v.pumps && op.id in v.rows && v.rows[op.id].status == Killed
  }

  /** A pump about to note a status that the row of a live session does not have. */
  predicate Strays(v: View, op: Op) {
    op.Pump? && op.act.Noted? && op.id in v.pumps && op.id in v.live && op.id in v.rows
    && v.rows[op.id].status != PumpedStatus(op.act.waits)
  }

  /** What one operation does to the state. */
  ghost predicate Moved(v: View, op: Op, w: View) {
    && RestKept(v, w)
    && (TerminalKept(v.rows, w.rows) <==> !LateEnd(v, op))
    && (Aligned(v) ==> (Aligned(w) <==> !Strays(v, op)))
  }

  function PumpedStatus(waits: bool): Status {
    if waits then AwaitingInput else Active
  }

  function EndedStatus(failed: bool): Status {
    if failed then EventStore.Failed else Completed
  }

  function LiveAfter(live: map<Id, Status>, id: Id, status: Status): map<Id, Status> {
    if status.IsTerminal() then live else live[id := status]
  }

  datatype PumpAct = Take | Stored(event: Event) | Noted(waits: bool) | Ended(failed: bool) | Closed

  datatype Op =
    | Launch(agentType: string, repo: string, owner: string, id: Id, log: seq<C.Value>, depth: Option<string>,
             starts: bool, items: seq<Item>, closed: bool)
    | LaunchAsync(agentType: string, repo: string, owner: string, id: Id, log: seq<C.Value>, depth: Option<string>,
                  starts: bool, items: seq<Item>)
    | Send(id: Id, log: seq<C.Value>, depth: Option<string>)
    | Kill(id: Id, killed: bool)
    | Pump(id: Id, act: PumpAct)

  function OpenRefusal(verdict: C.Verdict, taken: bool, started: bool): Option<Refusal> {
    if verdict != C.Allowed then Some(NoConsent(verdict))
    else if taken then Some(RowExists)
    else if !started then Some(StartFailed)
    else None
  }

  /** Which launches are refused, and why: the gate first, then a taken id, then a failed start. */
  lemma LaunchRefusedExactly(h: C.Hasher, d: Dispatch, taken: bool, started: bool)
    ensures var refused := OpenRefusal(C.CheckAgent(h, d.agentType, d.log, d.depth), taken, started);
      && (refused == None <==> Permitted(h, d) && !taken && started)
      && (refused == Some(RowExists) <==> Permitted(h, d) && taken)
      && (refused == Some(StartFailed) <==> Permitted(h, d) && !taken && !started)
      && (refused.Some? && refused.value.NoConsent? <==> !Permitted(h, d))
  {
    C.AllowedExactly(h, d.agentType, d.log, d.depth);
  }

  /** Which sessions stay live: those that are active or wait for input. */
  lemma LiveAfterIs(live: map<Id, Status>, id: Id, items: seq<Item>, closed: bool)
    requires id !in live
    ensures var status := EndStatus(items, closed); var after := LiveAfter(live, id, status);
      && (id in after <==> status in {Active, AwaitingInput}) && (id in after ==> after[id] == status)
      && (id in after <==> AllEmit(items) && !closed)
  {
    var n := Leading(items);
    if AllEmit(items) { assert n == |items|; }
  }

  function Starting(started: set<Id>, id: Id, refused: Option<Refusal>): set<Id> {
    if refused.None? then started + {id} else started
  }

  /** `Adapter::start` was called. */
  predicate Reached(refused: Option<Refusal>) {
    refused.None? || refused.value.StartFailed?
  }

  lemma Overwrite<V>(m: map<Id, V>, id: Id, x: V, y: V)
    ensures m[id := x][id := y] == m[id := y] && m[id := x] - {id} == m - {id}
  {
  }

  /** The row after its session emitted `es`. */
  function After(row: Session, es: seq<Event>, status: Status): Session {
    row.(status := status, lastSeq := row.lastSeq + |es|)
  }

  lemma AppendAllStep(rows: seq<Row>, id: Id, es: seq<Event>, e: Event)
    ensures AppendAll(rows, id, es + [e]) == Appended(AppendAll(rows, id, es), id, e)
  {
    assert (es + [e])[..|es|] == es;
  }

  lemma EventsStep(items: seq<Item>, i: nat)
    requires i < |items| && forall k :: 0 <= k <= i ==> items[k].Emit?
    ensures EventsOf(items[..i + 1]) == EventsOf(items[..i]) + [items[i].event]
  {
  }

  lemma {:induction false} LeadingIs(items: seq<Item>, i: nat)
    requires i <= |items| && (forall k :: 0 <= k < i ==> items[k].Emit?) && (i < |items| ==> !items[i].Emit?)
    ensures Leading(items) == i
  {
    if i > 0 { LeadingIs(items[1..], i - 1); }
  }

  lemma WaitingStep(es: seq<Event>, e: Event)
    ensures Waiting(es + [e]) == if e.requiresInput then AwaitingInput else Waiting(es)
  {
    assert (es + [e])[|es|] == e;
    if exists k :: 0 <= k < |es| && es[k].requiresInput {
      var k :| 0 <= k < |es| && es[k].requiresInput;
      assert (es + [e])[k].requiresInput;
    }
  }
}
