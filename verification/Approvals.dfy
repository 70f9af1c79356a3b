/**
  Pending approvals: registered, then resolved, aborted or swept once.  approval.rs over the approvals table of
  store.rs.
  */
module Approvals {
  import opened Basics
  import opened EventStore

  /** Times are in nanoseconds; `created` is an instant, `ttlSecs` an unsigned 64-bit number. */
  datatype Approval = Approval(session: Id, eventSeq: nat, tool: string, args: string, created: int, ttlSecs: nat,
      resolution: Option<string>)

  const SECOND := 1_000_000_000

  function Deadline(a: Approval): int {
    a.created + AsI64(a.ttlSecs) * SECOND
  }

  predicate Due(a: Approval, now: int) {
    a.resolution.None? && now >= Deadline(a)
  }

  /** An approval is due its time to live after it was made; a time of 2^63 seconds or more is read as negative. */
  lemma DueExactly(a: Approval, now: int)
    requires a.ttlSecs < 0x1_0000_0000_0000_0000
    ensures a.resolution.None? && a.ttlSecs < 0x8000_0000_0000_0000 ==>
      (Due(a, now) <==> now >= a.created + 1_000_000_000 * a.ttlSecs)
    ensures a.resolution.None? && a.ttlSecs >= 0x8000_0000_0000_0000 ==>
      (Due(a, now) <==> now >= a.created - 1_000_000_000 * (0x1_0000_0000_0000_0000 - a.ttlSecs))
    ensures a.resolution.Some? ==> !Due(a, now)
  {
  }

  function SweptRow(a: Approval, now: int): Approval {
    if Due(a, now) then a.(resolution := Some("auto_denied")) else a
  }

  function SweptRows(rows: map<Id, Approval>, now: int): map<Id, Approval> {
    map id | id in rows :: SweptRow(rows[id], now)
  }

  function DueIds(rows: map<Id, Approval>, now: int): set<Id> {
    set id | id in rows && Due(rows[id], now)
  }

  /** Partway through a sweep: the rows in `done` have been handled. */
  function SweptAmong(rows: map<Id, Approval>, done: set<Id>, now: int): map<Id, Approval> {
    map id | id in rows :: if id in done then SweptRow(rows[id], now) else rows[id]
  }

  function DueAmong(rows: map<Id, Approval>, done: set<Id>, now: int): set<Id> {
    set id | id in done && id in rows && Due(rows[id], now)
  }

  lemma SweptStep(rows: map<Id, Approval>, done: set<Id>, id: Id, now: int)
    requires id in rows && id !in done
    ensures SweptAmong(rows, done + {id}, now) == SweptAmong(rows, done, now)[id := SweptRow(rows[id], now)]
    ensures |DueAmong(rows, done + {id}, now)| == |DueAmong(rows, done, now)| + if Due(rows[id], now) then 1 else 0
  {
    assert DueAmong(rows, done + {id}, now) == DueAmong(rows, done, now) + if Due(rows[id], now) then {id} else {};
  }

  lemma SweptAll(rows: map<Id, Approval>, done: set<Id>, now: int)
    requires done == set id | id in rows && rows[id].resolution.None?
    ensures SweptAmong(rows, done, now) == SweptRows(rows, now) && DueAmong(rows, done, now) == DueIds(rows, now)
  {
  }

  /** A sweep denies what is due and changes nothing else. */
  lemma SweptExactly(rows: map<Id, Approval>, now: int)
    ensures SweptRows(rows, now).Keys == rows.Keys
    ensures forall id <- rows ::
      SweptRows(rows, now)[id] == if Due(rows[id], now) then rows[id].(resolution := Some("auto_denied")) else rows[id]
  {
  }

  /** A sweep leaves nothing due, and sweeping again at that time or before it changes nothing. */
  lemma SweepSettles(rows: map<Id, Approval>, now: int, again: int)
    requires again <= now
    ensures DueIds(SweptRows(rows, now), again) == {}
    ensures SweptRows(SweptRows(rows, now), again) == SweptRows(rows, now)
  {
    forall id | id in rows ensures !Due(SweptRow(rows[id], now), again) {
    }
  }

  /** A sweep at an earlier time never changes what a later one leaves. */
  lemma SweepsCompose(rows: map<Id, Approval>, first: int, second: int)
    requires first <= second
    ensures SweptRows(SweptRows(rows, first), second) == SweptRows(rows, second)
  {
  }

  // ---------------------------------------------------------------------------
  // Runs
  // ---------------------------------------------------------------------------

  datatype Op =
    | Register(id: Id, approval: Approval, sessionExists: bool)
    | Resolve(id: Id, decision: string)
    | Abort(id: Id)
    | Sweep(now: int)

  /** Rows stay, keep everything but their resolution, and keep that too once it is set. */
  ghost predicate FirstKept(a: map<Id, Approval>, b: map<Id, Approval>) {
    forall id <- a :: id in b && Kept(a[id], b[id])
  }

  predicate Kept(a: Approval, b: Approval) {
    if a.resolution.Some? then b == a else b.(resolution := None) == a
  }

  lemma FirstKeptTransitive(a: map<Id, Approval>, b: map<Id, Approval>, c: map<Id, Approval>)
    requires FirstKept(a, b) && FirstKept(b, c)
    ensures FirstKept(a, c)
  {
    forall id | id in a ensures id in c && Kept(a[id], c[id]) {
      assert id in b && Kept(a[id], b[id]);
    }
  }

  /** What one operation does to the row of a registered approval. */
  function Effect(id: Id, a: Approval, op: Op): Approval {
    if a.resolution.Some? then a else
    match op
    case Register(_, _, _) => a
    case Resolve(other, decision) => if other == id then a.(resolution := Some(decision)) else a
    case Abort(other) => if other == id then a.(resolution := Some("aborted")) else a
    case Sweep(now) => SweptRow(a, now)
  }

  /** The row after a run. */
  function Fate(id: Id, a: Approval, ops: seq<Op>): Approval {
    if ops == [] then a else Effect(id, Fate(id, a, ops[..|ops| - 1]), ops[|ops| - 1])
  }

  predicate Settles(id: Id, a: Approval, op: Op) {
    match op
    case Register(_, _, _) => false
    case Resolve(other, _) => other == id
    case Abort(other) => other == id
    case Sweep(now) => now >= Deadline(a)
  }

  function Decision(op: Op): string {
    match op
    case Register(_, _, _) => ""
    case Resolve(_, decision) => decision
    case Abort(_) => "aborted"
    case Sweep(_) => "auto_denied"
  }

  /** Who settles a pending approval, and how. */
  lemma DecisionsAre(id: Id, other: Id, a: Approval, decision: string, now: int)
    requires a.resolution.None?
    ensures Settles(id, a, Resolve(other, decision)) <==> other == id
    ensures Settles(id, a, Abort(other)) <==> other == id
    ensures Settles(id, a, Sweep(now)) <==> Due(a, now)
    ensures forall b, known :: !Settles(id, a, Register(other, b, known))
    ensures Decision(Resolve(other, decision)) == decision
    ensures Decision(Abort(other)) == "aborted" && Decision(Sweep(now)) == "auto_denied"
  {
  }

  /** A pending approval ends with the decision of the first operation in the run that settles it, or stays pending. */
  lemma {:induction false} FirstSettlerDecides(id: Id, a: Approval, ops: seq<Op>)
    requires a.resolution.None?
    ensures Fate(id, a, ops).resolution.None? ==> Fate(id, a, ops) == a && forall k :: 0 <= k < |ops| ==>
      !Settles(id, a, ops[k])
    ensures Fate(id, a, ops).resolution.Some? ==>
      exists k :: FirstSettler(id, a, ops, k) && Fate(id, a, ops) == a.(resolution := Some(Decision(ops[k])))
  {
    if ops != [] {
      var init, last := ops[..|ops| - 1], |ops| - 1;
      FirstSettlerDecides(id, a, init);
      assert forall k :: 0 <= k < last ==> init[k] == ops[k];
      if Fate(id, a, init).resolution.Some? {
        var k :| FirstSettler(id, a, init, k) && Fate(id, a, init) == a.(resolution := Some(Decision(init[k])));
        assert FirstSettler(id, a, ops, k);
      } else if Settles(id, a, ops[last]) {
        assert FirstSettler(id, a, ops, last);
      }
    }
  }

  ghost predicate FirstSettler(id: Id, a: Approval, ops: seq<Op>, k: int) {
    0 <= k < |ops| && Settles(id, a, ops[k]) && forall j :: 0 <= j < k ==> !Settles(id, a, ops[j])
  }

  datatype RegisterError = PreResolved | DuplicateId | NoSuchSession

  class ApprovalManager {
    /** The instants the clock library can represent. */
    const earliest: int
    const latest: int
    var rows: map<Id, Approval>

    constructor (earliest: int, latest: int)
      ensures this.earliest == earliest && this.latest == latest && rows == map[]
    {
      this.earliest, this.latest, rows := earliest, latest, map[];
    }

    /** Adding the time to live does not overflow; otherwise the addition panics. */
    predicate Representable(a: Approval) {
      earliest <= Deadline(a) <= latest
    }

    /** Pending approvals whose deadline could be computed. */
    ghost predicate Handled(rows: map<Id, Approval>, done: set<Id>) {
      forall id <- done :: id in rows && rows[id].resolution.None? && Representable(rows[id])
    }

    ghost predicate PendingRepresentable(rows: map<Id, Approval>) {
      forall id <- rows :: rows[id].resolution.None? ==> Representable(rows[id])
    }

    method RegisterPending(id: Id, a: Approval, sessionExists: bool) returns (error: Option<RegisterError>)
      modifies `rows
      ensures error == if a.resolution.Some? then Some(PreResolved) else if id in old(rows) then Some(DuplicateId)
                       else if !sessionExists then Some(NoSuchSession) else None
      ensures rows == if error.None? then old(rows)[id := a] else old(rows)
      ensures FirstKept(old(rows), rows)
    {
      if a.resolution.Some? { return Some(PreResolved); }
      if id in rows { return Some(DuplicateId); }
      if !sessionExists { return Some(NoSuchSession); }
      rows := rows[id := a];
      return None;
    }

    /** `UPDATE approvals SET resolution`: the store overwrites whatever is there. */
    method ResolveApproval(id: Id, resolution: string)
      modifies `rows
      ensures rows == if id in old(rows) then old(rows)[id := old(rows)[id].(resolution := Some(resolution))]
        else old(rows)
    {
      if id in rows { rows := rows[id := rows[id].(resolution := Some(resolution))]; }
    }

    /** False when there is no such approval; a repeat is a no-op. */
    method SettleOnce(id: Id, resolution: string) returns (found: bool)
      modifies `rows
      ensures found == (id in old(rows)) && rows.Keys == old(rows).Keys
      ensures forall other <- rows ::
        rows[other] == if other == id && old(rows)[id].resolution.None?
          then old(rows)[id].(resolution := Some(resolution)) else old(rows)[other]
    {
      if id !in rows { return false; }
      if rows[id].resolution.None? { ResolveApproval(id, resolution); }
      return true;
    }

    /** As a resolution by "aborted". */
    method AbortApproval(id: Id) returns (found: bool)
      modifies `rows
      ensures found == (id in old(rows)) && rows.Keys == old(rows).Keys
      ensures forall other <- rows ::
        rows[other] == if other == id && old(rows)[id].resolution.None?
          then old(rows)[id].(resolution := Some("aborted")) else old(rows)[other]
    {
      found := SettleOnce(id, "aborted");
    }

    method DenyIfDue(id: Id, now: int) returns (due: bool)
      requires id in rows && rows[id].resolution.None?
      modifies `rows
      ensures due == Due(old(rows)[id], now) && rows == old(rows)[id := SweptRow(old(rows)[id], now)]
    {
      due := now >= Deadline(rows[id]);
      if due { ResolveApproval(id, "auto_denied"); }
    }

    /**
      Denies the pending approvals at or past their deadline, in whatever order the table yields them.
      It completes unless some pending deadline overflows; then a part of the due rows may already be denied.
      */
    method SweepNow(now: int) returns (completed: bool, count: nat)
      modifies `rows
      ensures completed <==> PendingRepresentable(old(rows))
      ensures completed ==> rows == SweptRows(old(rows), now) && count == |DueIds(old(rows), now)|
      ensures exists done :: Handled(old(rows), done) && rows == SweptAmong(old(rows), done, now)
    {
      var todo := set id | id in rows && rows[id].resolution.None?;
      ghost var was, pending := rows, todo;
      count := 0;
      while todo != {}
        invariant todo <= pending && rows == SweptAmong(was, pending - todo, now)
        invariant forall id <- pending - todo :: Representable(was[id])
        invariant count == |DueAmong(was, pending - todo, now)|
      {
        var id :| id in todo;
        if !Representable(rows[id]) {
          assert Handled(was, pending - todo);
          return false, count;
        }
        SweptStep(was, pending - todo, id, now);
        var due := DenyIfDue(id, now);
        if due { count := count + 1; }
        assert pending - (todo - {id}) == pending - todo + {id};
        todo := todo - {id};
      }
      assert pending - todo == pending;
      SweptAll(was, pending, now);
      assert Handled(was, pending) && rows == SweptAmong(was, pending, now);
      return true, count;
    }

    ghost predicate AllRepresentable(ops: seq<Op>)
      reads this
    {
      && (forall id <- rows :: Representable(rows[id]))
      && (forall k :: 0 <= k < |ops| && ops[k].Register? ==> Representable(ops[k].approval))
    }

    /**
      Any run keeps every first resolution; when no deadline overflows, each approval on the table meets
      exactly its fate.
      */
    method Run(ops: seq<Op>)
      modifies `rows
      ensures FirstKept(old(rows), rows)
      ensures old(AllRepresentable(ops)) ==>
        forall id <- old(rows) :: id in rows && rows[id] == Fate(id, old(rows)[id], ops)
    {
      for i := 0 to |ops|
        invariant FirstKept(old(rows), rows)
        invariant old(AllRepresentable(ops)) ==> forall id <- rows :: Representable(rows[id])
        invariant old(AllRepresentable(ops)) ==>
          forall id <- old(rows) :: id in rows && rows[id] == Fate(id, old(rows)[id], ops[..i])
      {
        ghost var before := rows;
        Step(ops[i]);
        FirstKeptTransitive(old(rows), before, rows);
        assert ops[..i + 1][..i] == ops[..i];
      }
      assert ops[..|ops|] == ops;
    }

    method Step(op: Op)
      modifies `rows
      ensures FirstKept(old(rows), rows)
      ensures (forall id <- old(rows) :: Representable(old(rows)[id])) ==>
        forall id <- old(rows) :: rows[id] == Effect(id, old(rows)[id], op)
      ensures forall id <- rows :: if id in old(rows) then Deadline(rows[id]) == Deadline(old(rows)[id])
        else op.Register? && rows[id] == op.approval
    {
      match op {
        case Register(id, a, sessionExists) => var _ := RegisterPending(id, a, sessionExists);
        case Resolve(id, decision) => var _ := SettleOnce(id, decision);
        case Abort(id) => var _ := AbortApproval(id);
        case Sweep(now) => var _, _ := SweepNow(now);
      }
    }
  }
}
