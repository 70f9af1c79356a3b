/** The start-attempt marker of daemon_autostart.rs: callers that race over one file, and calls made one at a time. */
module StartMarker {
  import opened Basics

  /** Times are in nanoseconds. */
  const ATTEMPT_INTERVAL := 60_000_000_000

  datatype Marker = Absent | Present(mtime: int)

  /** A marker dated after the caller's clock has no age and counts as fresh. */
  predicate Fresh(now: int, mtime: int) {
    now < mtime || now - mtime < ATTEMPT_INTERVAL
  }

  // ---------------------------------------------------------------------------
  // Interleaved callers
  // ---------------------------------------------------------------------------

  /** Where a caller stands: before one of the three file operations of a try, or finished. */
  datatype Caller = Creating(second: bool) | Statting(second: bool) | Removing(second: bool) | Won | Lost

  datatype World = World(marker: Marker, callers: seq<Caller>)

  /** One caller's next file operation; `fails` is any error of its own, `mtime` the date a new file gets. */
  datatype Move = Move(who: nat, fails: bool, mtime: int)

  function Act(now: int, marker: Marker, c: Caller, m: Move): (Marker, Caller) {
    match c
    case Creating(second) =>
      if m.fails then (marker, Lost)
      else if marker.Absent? then (Present(m.mtime), Won)
      else (marker, Statting(second))
    case Statting(second) =>
      if m.fails || marker.Absent? || Fresh(now, marker.mtime) then (marker, Lost) else (marker, Removing(second))
    case Removing(second) =>
      if m.fails || marker.Absent? then (marker, Lost)
      else (Absent, if second then Lost else Creating(true))
    case Won => (marker, c)
    case Lost => (marker, c)
  }

  function Next(nows: seq<int>, w: World, m: Move): (r: World)
    requires |nows| == |w.callers|
    ensures |r.callers| == |w.callers|
  {
    if m.who >= |nows| then w else
    var (marker, c) := Act(nows[m.who], w.marker, w.callers[m.who], m);
    World(marker, w.callers[m.who := c])
  }

  function RunMoves(nows: seq<int>, w: World, moves: seq<Move>): (r: World)
    requires |nows| == |w.callers|
    ensures |r.callers| == |w.callers|
    decreases |moves|
  {
    if moves == [] then w else RunMoves(nows, Next(nows, w, moves[0]), moves[1..])
  }

  function Start(n: nat, marker: Marker): (w: World)
    ensures |w.callers| == n
  {
    World(marker, seq(n, _ => Creating(false)))
  }

  predicate Stale(now: int, marker: Marker) {
    marker.Present? && !Fresh(now, marker.mtime)
  }

  /** Stale means at least a minute old by the caller's clock. */
  lemma StaleExactly(now: int, marker: Marker)
    ensures Stale(now, marker) <==> marker.Present? && now >= marker.mtime + 60 * 1_000_000_000
  {
  }

  /** A caller alone, without errors, wins exactly over an absent or stale marker, and else leaves it as it was. */
  lemma SoloRun(now: int, marker: Marker, t: int)
    ensures var m := Move(0, false, t); var w := RunMoves([now], Start(1, marker), [m, m, m, m]);
      if marker.Absent? || Stale(now, marker) then w == World(Present(t), [Won]) else w == World(marker, [Lost])
  {
    var m, w := Move(0, false, t), Start(1, marker);
    TwoMoves([now], w, m, [m, m]);
    TwoMoves([now], Twice([now], w, m), m, []);
    assert [m, m] + [m, m] == [m, m, m, m] && [m, m] + [] == [m, m];
    SoloLook(now, marker, m);
    if marker.Present? && Stale(now, marker) { SoloTake(now, marker, m); }
  }

  lemma SoloLook(now: int, marker: Marker, m: Move)
    requires m == Move(0, false, m.mtime)
    ensures var w := Twice([now], Start(1, marker), m);
      if marker.Absent? then w == World(Present(m.mtime), [Won])
      else w == World(marker, [if Stale(now, marker) then Removing(false) else Lost])
    ensures Twice([now], World(Present(m.mtime), [Won]), m) == World(Present(m.mtime), [Won])
    ensures Twice([now], World(marker, [Lost]), m) == World(marker, [Lost])
  {
    var w := Start(1, marker);
    assert w.callers == [Creating(false)];
    var v := Next([now], w, m);
    assert v.callers == [if marker.Absent? then Won else Statting(false)];
    assert forall c: Caller, d: Caller :: [c][0 := d] == [d];
  }

  lemma SoloTake(now: int, marker: Marker, m: Move)
    requires m == Move(0, false, m.mtime) && marker.Present?
    ensures Twice([now], World(marker, [Removing(false)]), m) == World(Present(m.mtime), [Won])
  {
    assert Next([now], World(marker, [Removing(false)]), m).callers == [Creating(true)];
  }

  /** Every file created in the run is fresh to every caller. */
  ghost predicate Prompt(nows: seq<int>, moves: seq<Move>) {
    forall k, i :: 0 <= k < |moves| && 0 <= i < |nows| ==> Fresh(nows[i], moves[k].mtime)
  }

  ghost predicate AtMostOneWinner(w: World) {
    forall i, j :: 0 <= i < |w.callers| && 0 <= j < |w.callers| && w.callers[i].Won? && w.callers[j].Won? ==> i == j
  }

  ghost predicate AtMostOneStale(nows: seq<int>, marker: Marker) {
    forall i, j :: 0 <= i < |nows| && 0 <= j < |nows| && Stale(nows[i], marker) && Stale(nows[j], marker) ==> i == j
  }

  ghost predicate NobodyRemoving(w: World) {
    forall i :: 0 <= i < |w.callers| ==> !w.callers[i].Removing?
  }

  ghost predicate NobodyWon(w: World) {
    forall i :: 0 <= i < |w.callers| ==> !w.callers[i].Won?
  }

  predicate FirstTry(c: Caller) {
    c.Won? || c.Lost? || !c.second
  }

  /** The first marker is still there: nobody has won, and only callers that see it as stale are about to remove it. */
  ghost predicate Untouched(nows: seq<int>, first: Marker, w: World)
    requires |nows| == |w.callers|
  {
    && w.marker == first && first.Present? && NobodyWon(w)
    && (forall i :: 0 <= i < |nows| ==> FirstTry(w.callers[i]))
    && (forall i :: 0 <= i < |nows| && w.callers[i].Removing? ==> Stale(nows[i], first))
  }

  ghost predicate Vacant(w: World) {
    w.marker.Absent? && NobodyWon(w) && NobodyRemoving(w)
  }

  /** A marker fresh to all is there: it will not be removed again. */
  ghost predicate Taken(nows: seq<int>, w: World) {
    && w.marker.Present? && (forall i :: 0 <= i < |nows| ==> Fresh(nows[i], w.marker.mtime))
    && NobodyRemoving(w) && AtMostOneWinner(w)
  }

  ghost predicate Inv(nows: seq<int>, first: Marker, w: World) {
    |nows| == |w.callers| && (Untouched(nows, first, w) || Vacant(w) || Taken(nows, w))
  }

  lemma NextKeepsInv(nows: seq<int>, first: Marker, w: World, m: Move)
    requires Inv(nows, first, w) && AtMostOneStale(nows, first) && Prompt(nows, [m])
    ensures Inv(nows, first, Next(nows, w, m))
  {
    assert forall i :: 0 <= i < |nows| ==> Fresh(nows[i], [m][0].mtime);
    if m.who < |nows| {
      NextCallers(nows, w, m);
      if w.callers[m.who].Removing? && Untouched(nows, first, w) { LastRemover(nows, first, w, m); }
    }
  }

  lemma NextCallers(nows: seq<int>, w: World, m: Move)
    requires |nows| == |w.callers| && m.who < |nows|
    ensures var v := Next(nows, w, m);
      && (v.marker, v.callers[m.who]) == Act(nows[m.who], w.marker, w.callers[m.who], m)
      && forall i :: 0 <= i < |nows| && i != m.who ==> v.callers[i] == w.callers[i]
  {
  }

  lemma LastRemover(nows: seq<int>, first: Marker, w: World, m: Move)
    requires |nows| == |w.callers| && m.who < |nows| && w.callers[m.who].Removing?
    requires Untouched(nows, first, w) && AtMostOneStale(nows, first)
    ensures NobodyRemoving(Next(nows, w, m)) && NobodyWon(Next(nows, w, m))
  {
    NextCallers(nows, w, m);
    assert Stale(nows[m.who], first);
    assert forall i :: 0 <= i < |nows| && w.callers[i].Removing? ==> Stale(nows[i], first);
  }

  lemma {:induction false} RunKeepsInv(nows: seq<int>, first: Marker, w: World, moves: seq<Move>)
    requires Inv(nows, first, w) && AtMostOneStale(nows, first) && Prompt(nows, moves)
    ensures Inv(nows, first, RunMoves(nows, w, moves))
    decreases |moves|
  {
    if moves != [] {
      assert forall i :: 0 <= i < |nows| ==> Fresh(nows[i], moves[0].mtime);
      NextKeepsInv(nows, first, w, moves[0]);
      RunKeepsInv(nows, first, Next(nows, w, moves[0]), moves[1..]);
    }
  }

  ghost predicate SingleFlight(nows: seq<int>, marker: Marker) {
    forall moves :: Prompt(nows, moves) ==> AtMostOneWinner(RunMoves(nows, Start(|nows|, marker), moves))
  }

  lemma {:induction false} Clock(nows: seq<int>) returns (t: int)
    ensures forall i :: 0 <= i < |nows| ==> nows[i] <= t
  {
    t := 0;
    if nows != [] {
      var last := |nows| - 1;
      t := Clock(nows[..last]);
      assert forall i :: 0 <= i < last ==> nows[i] == nows[..last][i];
      if t < nows[last] { t := nows[last]; }
    }
  }

  /** Both stale callers look before either removes; each then removes what it finds and creates its own. */
  function BothWin(i: nat, j: nat, t: int): seq<Move> {
    [Move(i, false, t), Move(i, false, t), Move(j, false, t), Move(j, false, t),
     Move(i, false, t), Move(i, false, t), Move(j, false, t), Move(j, false, t)]
  }

  function Twice(nows: seq<int>, w: World, m: Move): (r: World)
    requires |nows| == |w.callers|
    ensures |r.callers| == |w.callers|
  {
    Next(nows, Next(nows, w, m), m)
  }

  lemma TwoMoves(nows: seq<int>, w: World, m: Move, rest: seq<Move>)
    requires |nows| == |w.callers|
    ensures RunMoves(nows, w, [m, m] + rest) == RunMoves(nows, Twice(nows, w, m), rest)
  {
    assert ([m, m] + rest)[1..] == [m] + rest && ([m] + rest)[1..] == rest;
  }

  lemma StaleLooks(nows: seq<int>, w: World, i: nat, t: int)
    requires |nows| == |w.callers| && i < |nows| && w.callers[i] == Creating(false) && Stale(nows[i], w.marker)
    ensures Twice(nows, w, Move(i, false, t)) == World(w.marker, w.callers[i := Removing(false)])
  {
    var v := Next(nows, w, Move(i, false, t));
    assert v == World(w.marker, w.callers[i := Statting(false)]);
    assert v.callers[i := Removing(false)] == w.callers[i := Removing(false)];
  }

  lemma RemoverWins(nows: seq<int>, w: World, i: nat, t: int)
    requires |nows| == |w.callers| && i < |nows| && w.callers[i] == Removing(false) && w.marker.Present?
    ensures Twice(nows, w, Move(i, false, t)) == World(Present(t), w.callers[i := Won])
  {
    var v := Next(nows, w, Move(i, false, t));
    assert v == World(Absent, w.callers[i := Creating(true)]);
    assert v.callers[i := Won] == w.callers[i := Won];
  }

  /** Two callers that both see the first marker as stale can both win. */
  lemma StaleCallersBothWin(nows: seq<int>, marker: Marker, i: nat, j: nat, t: int)
    requires i < |nows| && j < |nows| && i != j && Stale(nows[i], marker) && Stale(nows[j], marker)
    ensures var w := RunMoves(nows, Start(|nows|, marker), BothWin(i, j, t)); w.callers[i].Won? && w.callers[j].Won?
  {
    var w0 := Start(|nows|, marker);
    var w1 := World(marker, w0.callers[i := Removing(false)]);
    var w2 := World(marker, w1.callers[j := Removing(false)]);
    var w3 := World(Present(t), w2.callers[i := Won]);
    StaleLooks(nows, w0, i, t);
    StaleLooks(nows, w1, j, t);
    RemoverWins(nows, w2, i, t);
    RemoverWins(nows, w3, j, t);
    BothWinSteps(nows, w0, i, j, t);
  }

  lemma BothWinSteps(nows: seq<int>, w: World, i: nat, j: nat, t: int)
    requires |nows| == |w.callers|
    ensures var mi, mj := Move(i, false, t), Move(j, false, t);
      RunMoves(nows, w, BothWin(i, j, t)) == Twice(nows, Twice(nows, Twice(nows, Twice(nows, w, mi), mj), mi), mj)
  {
    var mi, mj := Move(i, false, t), Move(j, false, t);
    var u := Twice(nows, w, mi);
    TwoMoves(nows, w, mi, [mj, mj, mi, mi, mj, mj]);
    TwoMoves(nows, u, mj, [mi, mi, mj, mj]);
    var v := Twice(nows, u, mj);
    TwoMoves(nows, v, mi, [mj, mj]);
    TwoMoves(nows, Twice(nows, v, mi), mj, []);
    assert BothWin(i, j, t) == [mi, mi] + [mj, mj, mi, mi, mj, mj];
    assert [mj, mj, mi, mi, mj, mj] == [mj, mj] + [mi, mi, mj, mj] && [mi, mi, mj, mj] == [mi, mi] + [mj, mj] &&
      [mj, mj] == [mj, mj] + [];
  }

  /** At most one caller wins in every interleaving exactly when at most one caller sees the first marker as stale. */
  lemma SingleFlightExactly(nows: seq<int>, marker: Marker)
    ensures SingleFlight(nows, marker) <==> AtMostOneStale(nows, marker)
  {
    if AtMostOneStale(nows, marker) {
      forall moves | Prompt(nows, moves) ensures AtMostOneWinner(RunMoves(nows, Start(|nows|, marker), moves)) {
        RunKeepsInv(nows, marker, Start(|nows|, marker), moves);
      }
    } else {
      var i, j :| 0 <= i < |nows| && 0 <= j < |nows| && Stale(nows[i], marker) && Stale(nows[j], marker) && i != j;
      var t := Clock(nows);
      StaleCallersBothWin(nows, marker, i, j, t);
      assert Prompt(nows, BothWin(i, j, t));
    }
  }

  // ---------------------------------------------------------------------------
  // Who wins when every operation works and all callers finish
  // ---------------------------------------------------------------------------

  ghost predicate Finished(w: World) {
    forall i :: 0 <= i < |w.callers| ==> w.callers[i].Won? || w.callers[i].Lost?
  }

  ghost predicate SomeCreating(w: World) {
    exists i :: 0 <= i < |w.callers| && w.callers[i].Creating?
  }

  ghost predicate SomeWon(w: World) {
    exists i :: 0 <= i < |w.callers| && w.callers[i].Won?
  }

  ghost predicate SomeStaleGoing(nows: seq<int>, w: World)
    requires |nows| == |w.callers|
  {
    exists i :: 0 <= i < |nows| && Stale(nows[i], w.marker) && !w.callers[i].Won? && !w.callers[i].Lost?
  }

  /**
    The attempt is not lost: a winner, someone about to create, or a stale caller on the way to the untouched
    marker.
    */
  ghost predicate Promising(nows: seq<int>, first: Marker, w: World)
    requires |nows| == |w.callers|
  {
    SomeWon(w) || (w.marker.Absent? && SomeCreating(w)) || (Untouched(nows, first, w) && SomeStaleGoing(nows, w))
  }

  lemma NextKeepsPromise(nows: seq<int>, first: Marker, w: World, m: Move)
    requires |nows| == |w.callers| && Promising(nows, first, w) && !m.fails
    ensures Promising(nows, first, Next(nows, w, m))
  {
    if m.who < |nows| {
      NextCallers(nows, w, m);
      var v := Next(nows, w, m);
      if SomeWon(w) {
        var i :| 0 <= i < |nows| && w.callers[i].Won?;
        assert v.callers[i].Won?;
      } else if w.marker.Absent? {
        var i :| 0 <= i < |nows| && w.callers[i].Creating?;
        assert v.callers[i].Creating? || v.callers[m.who].Won?;
      } else {
        var i :| 0 <= i < |nows| && Stale(nows[i], w.marker) && !w.callers[i].Won? && !w.callers[i].Lost?;
        assert v.callers[m.who].Creating? || (v.marker == w.marker && !v.callers[i].Won? && !v.callers[i].Lost?);
      }
    }
  }

  lemma {:induction false} RunKeepsPromise(nows: seq<int>, first: Marker, w: World, moves: seq<Move>)
    requires |nows| == |w.callers| && Promising(nows, first, w) && forall k :: 0 <= k < |moves| ==> !moves[k].fails
    ensures Promising(nows, first, RunMoves(nows, w, moves))
    decreases |moves|
  {
    if moves != [] {
      NextKeepsPromise(nows, first, w, moves[0]);
      RunKeepsPromise(nows, first, Next(nows, w, moves[0]), moves[1..]);
    }
  }

  /** A marker fresh to every caller is never touched, and nobody wins. */
  lemma {:induction false} FreshMarkerStays(nows: seq<int>, first: Marker, w: World, moves: seq<Move>)
    requires |nows| == |w.callers| && Untouched(nows, first, w) && forall i :: 0 <= i < |nows| ==>
      !Stale(nows[i], first)
    ensures Untouched(nows, first, RunMoves(nows, w, moves))
    decreases |moves|
  {
    if moves != [] {
      if moves[0].who < |nows| { NextCallers(nows, w, moves[0]); }
      FreshMarkerStays(nows, first, Next(nows, w, moves[0]), moves[1..]);
    }
  }

  /**
    When no operation fails and all callers have finished, there is a winner exactly when the marker was absent or
    stale to someone, however many saw it so and whatever dates new files got.
    */
  lemma {:induction false} WinnerExactly(nows: seq<int>, first: Marker, moves: seq<Move>)
    requires nows != [] && (forall k :: 0 <= k < |moves| ==> !moves[k].fails)
    requires Finished(RunMoves(nows, Start(|nows|, first), moves))
    ensures SomeWon(RunMoves(nows, Start(|nows|, first), moves)) <==>
      first.Absent? || exists i :: 0 <= i < |nows| && Stale(nows[i], first)
  {
    var w := Start(|nows|, first);
    if first.Absent? || exists i :: 0 <= i < |nows| && Stale(nows[i], first) {
      assert first.Absent? ==> w.callers[0].Creating?;
      RunKeepsPromise(nows, first, w, moves);
    } else {
      FreshMarkerStays(nows, first, w, moves);
    }
  }

  // ---------------------------------------------------------------------------
  // One call at a time
  // ---------------------------------------------------------------------------

  /** The errors of one try. */
  datatype Faults = Faults(create: bool, stat: bool, remove: bool)

  const NO_FAULTS := Faults(false, false, false)

  /** A call: the caller's clock, the date a new file gets, and the errors of the two tries. */
  datatype Call = Call(now: int, created: int, faults: seq<Faults>)

  class MarkerFile {
    var marker: Marker

    constructor (marker: Marker)
      ensures this.marker == marker
    {
      this.marker := marker;
    }

    /** `claim_attempt`: wins by creating the file, after removing a stale one at most. */
    method ClaimAttempt(call: Call) returns (won: bool)
      requires |call.faults| == 2
      modifies this
      ensures won ==> marker == Present(call.created) && (old(marker).Absent? || Stale(call.now, old(marker)))
      ensures !won ==> marker == old(marker) || (marker.Absent? && Stale(call.now, old(marker)))
      ensures call.faults == [NO_FAULTS, NO_FAULTS] ==> won == (old(marker).Absent? || Stale(call.now, old(marker)))
    {
      for i := 0 to 2
        invariant i == 0 ==> marker == old(marker)
        invariant i > 0 ==> marker.Absent? && Stale(call.now, old(marker))
        invariant i == 2 ==> call.faults[0] != NO_FAULTS || call.faults[1] != NO_FAULTS
      {
        var f := call.faults[i];
        if f.create { return false; }
        if marker.Absent? {
          marker := Present(call.created);
          return true;
        }
        if f.stat || Fresh(call.now, marker.mtime) || f.remove { return false; }
        marker := Absent;
      }
      return false;
    }

    /**
      Calls one after another on a clock that does not go back: any two wins are at least the interval apart,
      and a call that meets no error wins exactly when the file left by the last win, or the first file,
        is stale or missing.
      */
    method RunCalls(calls: seq<Call>) returns (won: seq<bool>)
      requires forall k :: 0 <= k < |calls| ==> |calls[k].faults| == 2 && calls[k].now <= calls[k].created
      requires forall k :: 0 < k < |calls| ==> calls[k - 1].created <= calls[k].now
      modifies this
      ensures |won| == |calls|
      ensures WinsApart(calls, won)
      ensures Faultless(calls) ==> AsClaimed(old(marker), calls, won)
    {
      won := [];
      for i := 0 to |calls|
        invariant |won| == i && Accounted(old(marker), calls, won, marker)
      {
        ghost var before := marker;
        var w := ClaimAttempt(calls[i]);
        assert Attempted(calls[i], before, w, marker);
        CallAccounted(old(marker), calls, won, before, w, marker);
        won := won + [w];
      }
    }
  }

  /** The clock when the `i`-th call begins, or after the last one. */
  function ClockAt(calls: seq<Call>, i: nat): int
    requires calls != [] && i <= |calls|
  {
    if i < |calls| then calls[i].now else calls[i - 1].created
  }

  /** What the calls so far amount to. */
  ghost predicate Accounted(first: Marker, calls: seq<Call>, won: seq<bool>, marker: Marker) {
    && |won| <= |calls| && WinsApart(calls, won)
    && (var last := LastWin(won, |won|);
        && (last >= 0 ==> Spaced(calls[last].now, marker, ClockAt(calls, |won|)))
        && (Faultless(calls) ==> marker == MarkerLeft(first, calls, last) && AsClaimed(first, calls, won)))
  }

  /** How a call leaves the marker. */
  predicate Attempted(call: Call, before: Marker, w: bool, after: Marker) {
    var claimable := before.Absent? || Stale(call.now, before);
    && (w ==> after == Present(call.created) && claimable)
    && (!w ==> after == before || (after.Absent? && Stale(call.now, before)))
    && (call.faults == [NO_FAULTS, NO_FAULTS] ==> w == claimable && (!w ==> after == before))
  }

  lemma CallAccounted(first: Marker, calls: seq<Call>, won: seq<bool>, before: Marker, w: bool, after: Marker)
    requires |won| < |calls| && Accounted(first, calls, won, before) && Attempted(calls[|won|], before, w, after)
    requires forall k :: 0 <= k < |calls| ==> calls[k].now <= calls[k].created
    requires forall k :: 0 < k < |calls| ==> calls[k - 1].created <= calls[k].now
    ensures Accounted(first, calls, won + [w], after)
  {
    var n, last := |won|, LastWin(won, |won|);
    AsClaimedStep(first, calls, won, w);
    if last >= 0 {
      assert n + 1 < |calls| ==> calls[n].created <= calls[n + 1].now;
      SpacedOn(calls[n], calls[last].now, before, w, after, ClockAt(calls, n + 1));
    }
    WinsApartStep(calls, won, w);
    if Faultless(calls) { assert calls[n].faults == [NO_FAULTS, NO_FAULTS]; }
    assert w ==> calls[n].created <= ClockAt(calls, n + 1);
  }

  /**
    One call, after a win at `last`: a second win is far enough from it, and otherwise the marker stays
    accounted for.
    */
  lemma SpacedOn(call: Call, last: int, before: Marker, w: bool, after: Marker, clock: int)
    requires Spaced(last, before, call.now) && Attempted(call, before, w, after)
    requires call.now <= call.created <= clock
    ensures w ==> last + ATTEMPT_INTERVAL <= call.now && Spaced(call.now, after, clock)
    ensures !w ==> Spaced(last, after, clock)
  {
  }

  ghost predicate Faultless(calls: seq<Call>) {
    forall k :: 0 <= k < |calls| ==> calls[k].faults == [NO_FAULTS, NO_FAULTS]
  }

  /** The last win before call `k`, or -1. */
  function LastWin(won: seq<bool>, k: nat): (j: int)
    requires k <= |won|
    ensures -1 <= j < k
  {
    if k == 0 then -1 else if won[k - 1] then k - 1 else LastWin(won, k - 1)
  }

  lemma {:induction false} LastWinIs(won: seq<bool>, k: nat)
    requires k <= |won|
    ensures var j := LastWin(won, k); (j >= 0 ==> won[j]) && forall i :: j < i < k ==> !won[i]
  {
    if k > 0 && !won[k - 1] { LastWinIs(won, k - 1); }
  }

  ghost predicate WinsApart(calls: seq<Call>, won: seq<bool>)
    requires |won| <= |calls|
  {
    forall j, k :: 0 <= j < k < |won| && won[j] && won[k] ==> calls[j].now + ATTEMPT_INTERVAL <= calls[k].now
  }

  lemma WinsApartStep(calls: seq<Call>, won: seq<bool>, w: bool)
    requires |won| < |calls| && WinsApart(calls, won)
    ensures var last := LastWin(won, |won|);
      (w && last >= 0 ==> calls[last].now + ATTEMPT_INTERVAL <= calls[|won|].now) ==> WinsApart(calls, won + [w])
  {
    var last, all := LastWin(won, |won|), won + [w];
    LastWinIs(won, |won|);
    if w && last >= 0 ==> calls[last].now + ATTEMPT_INTERVAL <= calls[|won|].now {
      forall j, k | 0 <= j < k < |all| && all[j] && all[k] ensures calls[j].now + ATTEMPT_INTERVAL <= calls[k].now {
        assert won[j];
        if k == |won| { assert j <= last; }
        else { assert won[k]; }
      }
    }
  }

  ghost predicate AsClaimed(first: Marker, calls: seq<Call>, won: seq<bool>)
    requires |won| <= |calls|
  {
    forall k :: 0 <= k < |won| ==> won[k] == Claimable(first, calls, won, k)
  }

  lemma AsClaimedStep(first: Marker, calls: seq<Call>, won: seq<bool>, w: bool)
    requires |won| < |calls|
    ensures LastWin(won + [w], |won|) == LastWin(won, |won|)
    ensures LastWin(won + [w], |won| + 1) == if w then |won| else LastWin(won, |won|)
    ensures AsClaimed(first, calls, won) && w == Claimable(first, calls, won, |won|) ==>
      AsClaimed(first, calls, won + [w])
  {
    forall k | 0 <= k <= |won| ensures LastWin(won + [w], k) == LastWin(won, k) { LastWinPrefix(won, w, k); }
  }

  lemma {:induction false} LastWinPrefix(won: seq<bool>, w: bool, k: nat)
    requires k <= |won|
    ensures LastWin(won + [w], k) == LastWin(won, k)
  {
    if k > 0 { LastWinPrefix(won, w, k - 1); }
  }

  function MarkerLeft(first: Marker, calls: seq<Call>, last: int): Marker
    requires last < |calls|
  {
    if last < 0 then first else Present(calls[last].created)
  }

  predicate Claimable(first: Marker, calls: seq<Call>, won: seq<bool>, k: nat)
    requires k < |calls| && k <= |won|
  {
    var marker := MarkerLeft(first, calls, LastWin(won, k));
    marker.Absent? || Stale(calls[k].now, marker)
  }

  /** After a win at `last`, the marker is no older than the win, or the interval is over. */
  predicate Spaced(last: int, marker: Marker, clock: int) {
    match marker
    case Present(mtime) => last <= mtime <= clock
    case Absent => last + ATTEMPT_INTERVAL <= clock
  }
}
