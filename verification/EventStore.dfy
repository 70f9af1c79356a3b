/** The session and event tables of store.rs: per-session numbering, replay after a sequence number, reconnects. */
module EventStore {
  import opened Basics
  import opened Sorting

  type Id = nat

  datatype Status = Active | AwaitingInput | Paused | Stale | Completed | Failed | Killed | Disconnected | Unknown {
    predicate IsTerminal() {
      Completed? || Failed? || Killed? || Disconnected?
    }
  }

  datatype Session = Session(owner: string, agentType: string, repo: string, status: Status, lastSeq: nat)

  datatype Event = Event(sender: string, kind: string, content: string, requiresInput: bool, metadata: string)

  /** A row of the events table, in insertion order. */
  datatype Row = Row(session: Id, number: nat, event: Event)

  // ---------------------------------------------------------------------------
  // Sanitizing
  // ---------------------------------------------------------------------------

  predicate Storable(c: char) {
    c as int >= 0x20 || c == '\t' || c == '\n' || c == '\r'
  }

  function Sanitize(s: string): string {
    Filter(s, Storable)
  }

  function Cleaned(e: Event): Event {
    e.(content := Sanitize(e.content))
  }

  /** What storing an event changes: control characters below U+0020 but three leave its content, in order. */
  lemma CleanedIs(e: Event, c: char)
    ensures Storable(c) <==> !(c as int < 32 && c as int !in {9, 10, 13})
    ensures Cleaned(e) == Event(e.sender, e.kind, Filter(e.content, Storable), e.requiresInput, e.metadata)
  {
  }

  lemma TerminalIs(s: Status)
    ensures s.IsTerminal() <==> s in {Completed, Failed, Killed, Disconnected}
  {
  }

  // ---------------------------------------------------------------------------
  // Streams
  // ---------------------------------------------------------------------------

  /** The rows of one session, in insertion order. */
  function StreamOf(rows: seq<Row>, id: Id): seq<Row> {
    Filter(rows, (r: Row) => r.session == id)
  }

  /** Each session's rows are numbered from one, without gaps. */
  ghost predicate Numbered(rows: seq<Row>) {
    forall id, k :: 0 <= k < |StreamOf(rows, id)| ==> StreamOf(rows, id)[k].number == k + 1
  }

  lemma StreamAppend(rows: seq<Row>, r: Row, id: Id)
    ensures StreamOf(rows + [r], id) == if r.session == id then StreamOf(rows, id) + [r] else StreamOf(rows, id)
  {
    FilterConcat(rows, [r], (x: Row) => x.session == id);
    assert Filter([r], (x: Row) => x.session == id) == if r.session == id then [r] else [];
    if r.session != id { assert StreamOf(rows, id) + [] == StreamOf(rows, id); }
  }

  lemma NumberedAppend(rows: seq<Row>, r: Row)
    requires Numbered(rows) && r.number == |StreamOf(rows, r.session)| + 1
    ensures Numbered(rows + [r])
  {
    forall id, k | 0 <= k < |StreamOf(rows + [r], id)| ensures StreamOf(rows + [r], id)[k].number == k + 1 {
      StreamAppend(rows, r, id);
    }
  }

  // ---------------------------------------------------------------------------
  // Replay
  // ---------------------------------------------------------------------------

  /** `as i64` of an unsigned 64-bit number. */
  function AsI64(n: nat): int {
    if n < 0x8000_0000_0000_0000 then n else n - 0x1_0000_0000_0000_0000
  }

  predicate BySeq(a: Row, b: Row) {
    a.number <= b.number
  }

  /** `replay_from`: the session's rows above `from`, ordered by number. */
  function ReplayFrom(rows: seq<Row>, id: Id, from: nat): seq<Row> {
    Sort(Filter(rows, (r: Row) => r.session == id && r.number > AsI64(from)), BySeq)
  }

  lemma {:induction false} FilterTwice<T>(s: seq<T>, p: T -> bool, q: T -> bool, pq: T -> bool)
    requires forall x :: pq(x) <==> p(x) && q(x)
    ensures Filter(s, pq) == Filter(Filter(s, p), q)
  {
    if s != [] {
      FilterTwice(s[1..], p, q, pq);
      if p(s[0]) {
        var rest := Filter(s[1..], p);
        assert ([s[0]] + rest)[1..] == rest;
      } else {
        assert Filter(s, p) == Filter(s[1..], p);
      }
    }
  }

  /** The rows above a number, of rows numbered upwards from `first`. */
  lemma {:induction false} FilterNumbered(stream: seq<Row>, first: nat, from: int)
    requires forall k :: 0 <= k < |stream| ==> stream[k].number == first + k
    ensures Filter(stream, (r: Row) => r.number > from)
         == if from < first then stream else if from - first + 1 <= |stream| then stream[from - first + 1..] else []
  {
    if stream != [] {
      FilterNumbered(stream[1..], first + 1, from);
      assert stream == [stream[0]] + stream[1..];
    }
  }

  /** Replay after `from` is the rest of the stream, as long as the number survives the cast to a signed column. */
  lemma ReplayIsSuffix(rows: seq<Row>, id: Id, from: nat)
    requires Numbered(rows) && from < 0x8000_0000_0000_0000
    ensures ReplayFrom(rows, id, from) == if from <= |StreamOf(rows, id)| then StreamOf(rows, id)[from..] else []
  {
    ReplayFiltered(rows, id, from);
  }

  /** Past that bound the cast turns the number negative and the whole stream comes back. */
  lemma ReplayAfterHugeNumber(rows: seq<Row>, id: Id, from: nat)
    requires Numbered(rows) && 0x8000_0000_0000_0000 <= from < 0x1_0000_0000_0000_0000
    ensures ReplayFrom(rows, id, from) == StreamOf(rows, id)
  {
    ReplayFiltered(rows, id, from);
  }

  lemma ReplayFiltered(rows: seq<Row>, id: Id, from: nat)
    requires Numbered(rows)
    ensures var stream, f := StreamOf(rows, id), AsI64(from);
      ReplayFrom(rows, id, from) == if f < 1 then stream else if f <= |stream| then stream[f..] else []
  {
    var stream, f := StreamOf(rows, id), AsI64(from);
    FilterTwice(rows, (r: Row) => r.session == id, (r: Row) => r.number > f, (r: Row) => r.session == id &&
      r.number > f);
    FilterNumbered(stream, 1, f);
    var out := Filter(stream, (r: Row) => r.number > f);
    assert forall k :: 0 <= k < |out| ==> out[k].number == k + 1 + if f < 1 then 0 else f;
    SortOfSorted(out, BySeq);
  }

  // ---------------------------------------------------------------------------
  // Reconnecting readers
  // ---------------------------------------------------------------------------

  /** A reader of one session: the last number it saw and what it has received. */
  datatype Reader = Reader(lastSeen: nat, received: seq<Row>)

  /**
    Either a row is appended to some session, or the reader reconnects and gets through `n` rows before the
    line drops.
    */
  datatype Step = Append(session: Id, event: Event) | Reconnect(n: nat)

  datatype World = World(rows: seq<Row>, reader: Reader)

  function Appended(rows: seq<Row>, id: Id, e: Event): seq<Row> {
    rows + [Row(id, |StreamOf(rows, id)| + 1, Cleaned(e))]
  }

  function Next(w: World, id: Id, s: Step): World {
    match s
    case Append(other, e) => w.(rows := Appended(w.rows, other, e))
    case Reconnect(n) =>
      var all := ReplayFrom(w.rows, id, w.reader.lastSeen);
      var got := if n < |all| then all[..n] else all;
      if got == [] then w
      else w.(reader := Reader(got[|got| - 1].number, w.reader.received + got))
  }

  function RunSteps(w: World, id: Id, steps: seq<Step>): World
    decreases |steps|
  {
    if steps == [] then w else RunSteps(Next(w, id, steps[0]), id, steps[1..])
  }

  /** The reader holds exactly the first `lastSeen` rows of its stream. */
  ghost predicate InStep(w: World, id: Id) {
    && Numbered(w.rows)
    && w.reader.lastSeen <= |StreamOf(w.rows, id)|
    && w.reader.received == StreamOf(w.rows, id)[..w.reader.lastSeen]
  }

  lemma NextInStep(w: World, id: Id, s: Step)
    requires InStep(w, id) && |StreamOf(w.rows, id)| < 0x8000_0000_0000_0000
    ensures InStep(Next(w, id, s), id)
    ensures |StreamOf(Next(w, id, s).rows, id)| <= |StreamOf(w.rows, id)| + 1
  {
    match s
    case Append(other, e) =>
      var r := Row(other, |StreamOf(w.rows, other)| + 1, Cleaned(e));
      NumberedAppend(w.rows, r);
      StreamAppend(w.rows, r, id);
    case Reconnect(n) => ReconnectInStep(w, id, n);
  }

  lemma ReconnectInStep(w: World, id: Id, n: nat)
    requires InStep(w, id) && |StreamOf(w.rows, id)| < 0x8000_0000_0000_0000
    ensures InStep(Next(w, id, Reconnect(n)), id) && Next(w, id, Reconnect(n)).rows == w.rows
  {
    var stream, seen := StreamOf(w.rows, id), w.reader.lastSeen;
    ReplayIsSuffix(w.rows, id, seen);
    var rest := stream[seen..];
    Received(w, id, if n < |rest| then n else |rest|);
    assert rest[..|rest|] == rest;
  }

  /** The next `n` rows of the stream, taken over by the reader. */
  lemma Received(w: World, id: Id, n: nat)
    requires InStep(w, id) && w.reader.lastSeen + n <= |StreamOf(w.rows, id)|
    ensures var seen := w.reader.lastSeen;
      var got := StreamOf(w.rows, id)[seen..][..n];
      InStep(if n == 0 then w else w.(reader := Reader(got[n - 1].number, w.reader.received + got)), id)
  {
    Extends(StreamOf(w.rows, id), w.reader.lastSeen, n);
  }

  lemma Extends(stream: seq<Row>, seen: nat, n: nat)
    requires seen + n <= |stream|
    ensures stream[seen..][..n] == stream[seen..seen + n] &&
      stream[..seen] + stream[seen..seen + n] == stream[..seen + n]
  {
  }

  /**
    However appends to any sessions and dropped connections interleave, what the reader has put together
    is a prefix of its session's stream, with no gap and no duplicate.
    */
  lemma {:induction false} ReaderNeverDiverges(w: World, id: Id, steps: seq<Step>)
    requires InStep(w, id) && |StreamOf(w.rows, id)| + |steps| < 0x8000_0000_0000_0000
    ensures InStep(RunSteps(w, id, steps), id)
    decreases |steps|
  {
    if steps != [] {
      NextInStep(w, id, steps[0]);
      ReaderNeverDiverges(Next(w, id, steps[0]), id, steps[1..]);
    }
  }

  /** One undropped reconnect at the end completes the stream. */
  lemma ReaderCatchesUp(w: World, id: Id, n: nat)
    requires InStep(w, id) && |StreamOf(w.rows, id)| < 0x8000_0000_0000_0000 && n >= |StreamOf(w.rows, id)|
    ensures Next(w, id, Reconnect(n)).reader == Reader(|StreamOf(w.rows, id)|, StreamOf(w.rows, id))
  {
    var stream, seen := StreamOf(w.rows, id), w.reader.lastSeen;
    ReplayIsSuffix(w.rows, id, seen);
    assert stream[..seen] + stream[seen..] == stream;
  }
}
