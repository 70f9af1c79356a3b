/** The hash-chained consent log and the gate it feeds: consent.rs. */
module Consent {
  import opened Basics

  // ---------------------------------------------------------------------------
  // Entries and their hashes
  // ---------------------------------------------------------------------------

  datatype Value = Null | Bool(b: bool) | Num(n: int) | Float(text: string) | Str(s: string) | Arr(items: seq<Value>)
      | Obj(fields: map<string, Value>)

  /** SHA-256 over the canonical JSON of a map of fields. */
  type Hasher = map<string, Value> -> string

  ghost predicate Injective(h: Hasher) {
    forall a, b :: h(a) == h(b) ==> a == b
  }

  const OWN_HASH := "entry_sha256"

  /** What an entry's hash covers: every field but the hash itself. */
  function Content(e: Value): map<string, Value> {
    if e.Obj? then e.fields - {OWN_HASH} else map[]
  }

  function EntryHash(h: Hasher, e: Value): string {
    h(Content(e))
  }

  /** A missing field reads as null. */
  function Get(e: Value, key: string): Value {
    if e.Obj? && key in e.fields then e.fields[key] else Null
  }

  function PrevHash(h: Hasher, log: seq<Value>, i: nat): Value
    requires i <= |log|
  {
    if i == 0 then Null else Str(EntryHash(h, log[i - 1]))
  }

  /** Entry `i` carries its index, its predecessor's hash and its own hash. */
  predicate Linked(h: Hasher, prev: Value, i: nat, e: Value) {
    && e.Obj? && Get(e, "seq") == Num(i) && Get(e, "prev_sha256") == prev
    && Get(e, OWN_HASH) == Str(EntryHash(h, e))
  }

  ghost predicate Verifies(h: Hasher, log: seq<Value>) {
    forall i :: 0 <= i < |log| ==> Linked(h, PrevHash(h, log, i), i, log[i])
  }

  ghost predicate VerifiesTo(h: Hasher, log: seq<Value>, n: nat)
    requires n <= |log|
  {
    forall i :: 0 <= i < n ==> Linked(h, PrevHash(h, log, i), i, log[i])
  }

  lemma VerifiesStep(h: Hasher, log: seq<Value>, n: nat)
    requires n < |log|
    ensures VerifiesTo(h, log, n + 1) <==> VerifiesTo(h, log, n) && Linked(h, PrevHash(h, log, n), n, log[n])
    ensures Verifies(h, log) ==> VerifiesTo(h, log, n + 1)
  {
  }

  /** The walk with a running `prev`. */
  method VerifyChain(h: Hasher, log: seq<Value>) returns (ok: bool)
    ensures ok == Verifies(h, log)
  {
    var prev := Null;
    for i := 0 to |log|
      invariant prev == PrevHash(h, log, i)
      invariant VerifiesTo(h, log, i)
    {
      VerifiesStep(h, log, i);
      if !Linked(h, prev, i, log[i]) { return false; }
      prev := Str(EntryHash(h, log[i]));
    }
    return true;
  }

  // ---------------------------------------------------------------------------
  // What a verifying log commits to
  // ---------------------------------------------------------------------------

  lemma SameContentSameEntry(h: Hasher, a: Value, b: Value)
    requires a.Obj? && b.Obj? && Content(a) == Content(b) && Get(a, OWN_HASH) == Get(b, OWN_HASH) &&
      Get(a, OWN_HASH).Str?
    ensures a == b
  {
    assert OWN_HASH in a.fields && OWN_HASH in b.fields;
    assert a.fields == Content(a)[OWN_HASH := a.fields[OWN_HASH]];
    assert b.fields == Content(b)[OWN_HASH := b.fields[OWN_HASH]];
  }

  /** Two linked entries with the same stored hash are one entry, at one index, behind one predecessor. */
  lemma SameHashSameEntry(h: Hasher, p: Value, i: nat, a: Value, q: Value, j: nat, b: Value)
    requires Injective(h) && Linked(h, p, i, a) && Linked(h, q, j, b) && Get(a, OWN_HASH) == Get(b, OWN_HASH)
    ensures i == j && p == q && a == b
  {
    assert Content(a) == Content(b);
    SameContentSameEntry(h, a, b);
  }

  lemma LinkedAt(h: Hasher, log: seq<Value>, i: nat)
    requires Verifies(h, log) && i < |log|
    ensures Linked(h, PrevHash(h, log, i), i, log[i]) && Get(log[i], OWN_HASH) == Str(EntryHash(h, log[i]))
  {
  }

  /** One shared entry hash, anywhere in either log, fixes the position and everything before it. */
  lemma {:induction false} SharedHashSharedPrefix(h: Hasher, a: seq<Value>, b: seq<Value>, i: nat, j: nat)
    requires Injective(h) && Verifies(h, a) && Verifies(h, b) && i < |a| && j < |b|
    requires Get(a[i], OWN_HASH) == Get(b[j], OWN_HASH)
    ensures i == j && a[..i + 1] == b[..i + 1]
  {
    SharedHashSharedEntry(h, a, b, i, j);
    if i > 0 { SharedHashSharedPrefix(h, a, b, i - 1, i - 1); }
    ExtendPrefix(a, b, i);
  }

  lemma SharedHashSharedEntry(h: Hasher, a: seq<Value>, b: seq<Value>, i: nat, j: nat)
    requires Injective(h) && Verifies(h, a) && Verifies(h, b) && i < |a| && j < |b|
    requires Get(a[i], OWN_HASH) == Get(b[j], OWN_HASH)
    ensures i == j && a[i] == b[i] && (i > 0 ==> Get(a[i - 1], OWN_HASH) == Get(b[i - 1], OWN_HASH))
  {
    LinkedAt(h, a, i);
    LinkedAt(h, b, j);
    SameHashSameEntry(h, PrevHash(h, a, i), i, a[i], PrevHash(h, b, j), j, b[j]);
    if i > 0 {
      LinkedAt(h, a, i - 1);
      LinkedAt(h, b, i - 1);
    }
  }

  lemma ExtendPrefix(a: seq<Value>, b: seq<Value>, i: nat)
    requires i < |a| && i < |b| && a[i] == b[i] && a[..i] == b[..i]
    ensures a[..i + 1] == b[..i + 1]
  {
    assert a[..i + 1] == a[..i] + [a[i]] && b[..i + 1] == b[..i] + [b[i]];
  }

  /** The head hash fixes both the length and the contents of a log. */
  lemma HeadFixesLog(h: Hasher, a: seq<Value>, b: seq<Value>)
    requires Injective(h) && Verifies(h, a) && Verifies(h, b) && a != [] && b != []
    requires Get(a[|a| - 1], OWN_HASH) == Get(b[|b| - 1], OWN_HASH)
    ensures a == b
  {
    SharedHashSharedPrefix(h, a, b, |a| - 1, |b| - 1);
    assert a[..|a|] == a && b[..|b|] == b;
  }

  /** An edit, insertion or removal at or before a kept hash breaks the chain. */
  lemma TamperingBreaks(h: Hasher, a: seq<Value>, b: seq<Value>, i: nat, j: nat)
    requires Injective(h) && Verifies(h, a) && i < |a| && j < |b|
    requires Get(a[i], OWN_HASH) == Get(b[j], OWN_HASH) && a[..i + 1] != b[..j + 1]
    ensures !Verifies(h, b)
  {
    if Verifies(h, b) { SharedHashSharedPrefix(h, a, b, i, j); }
  }

  /** A log verifies exactly when its prefix does and its last entry links to that prefix. */
  lemma AppendVerifies(h: Hasher, log: seq<Value>, e: Value)
    ensures Verifies(h, log + [e]) <==> Verifies(h, log) && Linked(h, PrevHash(h, log, |log|), |log|, e)
  {
    var all := log + [e];
    assert forall i :: 0 <= i < |log| ==> all[i] == log[i] && PrevHash(h, all, i) == PrevHash(h, log, i);
    assert PrevHash(h, all, |log|) == PrevHash(h, log, |log|) && all[|log|] == e;
  }

  lemma PrefixVerifies(h: Hasher, log: seq<Value>, n: nat)
    requires Verifies(h, log) && n <= |log|
    ensures Verifies(h, log[..n])
  {
    forall i | 0 <= i < n ensures Linked(h, PrevHash(h, log[..n], i), i, log[..n][i]) {
      assert Linked(h, PrevHash(h, log, i), i, log[i]);
    }
  }

  // ---------------------------------------------------------------------------
  // Replay
  // ---------------------------------------------------------------------------

  predicate IsMode(v: Value) {
    v.Str? && v.s in {"once", "ask", "auto", "denied"}
  }

  predicate RecognisedFor(key: string, e: Value) {
    e.Obj? && Get(e, "key") == Str(key) && IsMode(Get(e, "mode"))
  }

  /** The last recognised entry for `key`. */
  function LastFor(log: seq<Value>, key: string): Option<Value> {
    if log == [] then None
    else if RecognisedFor(key, log[|log| - 1]) then Some(log[|log| - 1])
    else LastFor(log[..|log| - 1], key)
  }

  /** `replay`: the map holds, for each key, its last recognised entry. */
  method Replay(log: seq<Value>) returns (state: map<string, Value>)
    ensures forall key :: (if key in state then Some(state[key]) else None) == LastFor(log, key)
  {
    state := map[];
    for i := 0 to |log|
      invariant forall key :: (if key in state then Some(state[key]) else None) == LastFor(log[..i], key)
    {
      var e := log[i];
      assert log[..i + 1][..i] == log[..i] && log[..i + 1][i] == e;
      if e.Obj? && Get(e, "key").Str? && IsMode(Get(e, "mode")) {
        state := state[Get(e, "key").s := e];
      }
    }
    assert log[..|log|] == log;
  }

  /** Only the recognised entries of a key count for it. */
  lemma {:induction false} LastOfFiltered(log: seq<Value>, key: string)
    ensures LastFor(log, key) == LastFor(Filter(log, e => RecognisedFor(key, e)), key)
  {
    if log != [] {
      var p := (e: Value) => RecognisedFor(key, e);
      var rest, last := log[..|log| - 1], log[|log| - 1];
      LastOfFiltered(rest, key);
      assert log == rest + [last];
      FilterConcat(rest, [last], p);
      var f := Filter(log, p);
      if RecognisedFor(key, last) {
        assert f == Filter(rest, p) + [last] && f[|f| - 1] == last;
      } else {
        assert f == Filter(rest, p) + [] == Filter(rest, p);
      }
    }
  }

  // ---------------------------------------------------------------------------
  // The depth cap
  // ---------------------------------------------------------------------------

  const DEPTH_CAP := 2

  function DecimalValue(s: string): (n: nat)
    requires forall k :: 0 <= k < |s| ==> IsDigit(s[k])
  {
    if s == "" then 0 else
    assert IsDigit(s[|s| - 1]);
    DecimalValue(s[..|s| - 1]) * 10 + (s[|s| - 1] as int - '0' as int)
  }

  /** `str::parse::<i64>`: an optional sign, decimal digits, and a value that fits. */
  function ParseI64(s: string): Option<int> {
    var digits := if s != "" && (s[0] == '+' || s[0] == '-') then s[1..] else s;
    if !AllDigits(digits) then None else
    var n: int := if s[0] == '-' then -(DecimalValue(digits) as int) else DecimalValue(digits);
    if -0x8000_0000_0000_0000 <= n < 0x8000_0000_0000_0000 then Some(n) else None
  }

  /** `depth_status`: unset and empty read as zero, garbage and negatives as too deep. */
  predicate DepthExceeded(raw: Option<string>) {
    match raw
    case None => false
    case Some(s) => s != "" && (match ParseI64(s) case None => true case Some(d) => d < 0 || d > DEPTH_CAP)
  }

  lemma {:induction false} SmallDecimal(s: string)
    requires AllDigits(s)
    ensures DecimalValue(s) == 0 <==> forall k :: 0 <= k < |s| ==> s[k] == '0'
    ensures DecimalValue(s) <= 2 <==> (forall k :: 0 <= k < |s| - 1 ==> s[k] == '0') && s[|s| - 1] <= '2'
  {
    var init := s[..|s| - 1];
    assert forall k :: 0 <= k < |init| ==> s[k] == init[k];
    if init != "" { SmallDecimal(init); }
  }

  /**
    The accepted spellings: nothing, or zeros and one last digit of at most 2 behind an optional plus, or a
    minus and zeros.
    */
  lemma DepthSpellings(s: string)
    ensures !DepthExceeded(None)
    ensures !DepthExceeded(Some(s)) <==>
      || s == ""
      || (var d := if s[0] == '+' then s[1..] else s;
          AllDigits(d) && (forall k :: 0 <= k < |d| - 1 ==> d[k] == '0') && d[|d| - 1] <= '2')
      || (s[0] == '-' && AllDigits(s[1..]) && forall k :: 0 <= k < |s| - 1 ==> s[1..][k] == '0')
  {
    if s != "" {
      var digits := if s[0] == '+' || s[0] == '-' then s[1..] else s;
      if AllDigits(digits) { SmallDecimal(digits); }
    }
  }

  // ---------------------------------------------------------------------------
  // The gate
  // ---------------------------------------------------------------------------

  datatype Verdict = Allowed | NoRecord | NotAuto | Denied | ChainBroken | DepthTooGreat | UnknownAgentType

  /** `check_with`: depth first, then the chain, then the replayed mode. */
  method CheckKey(h: Hasher, key: string, log: seq<Value>, depth: Option<string>) returns (v: Verdict)
    ensures v == Check(h, key, log, depth)
  {
    if DepthExceeded(depth) { return DepthTooGreat; }
    var ok := VerifyChain(h, log);
    if !ok { return ChainBroken; }
    var state := Replay(log);
    if key !in state { return NoRecord; }
    var mode := Get(state[key], "mode");
    if mode == Str("auto") { return Allowed; }
    if mode == Str("denied") { return Denied; }
    return NotAuto;
  }

  ghost function Check(h: Hasher, key: string, log: seq<Value>, depth: Option<string>): Verdict {
    if DepthExceeded(depth) then DepthTooGreat
    else if !Verifies(h, log) then ChainBroken
    else Recorded(LastFor(log, key))
  }

  /** What the deciding entry says. */
  function Recorded(last: Option<Value>): Verdict {
    match last
    case None => NoRecord
    case Some(e) =>
      if Get(e, "mode") == Str("auto") then Allowed else if Get(e, "mode") == Str("denied") then Denied else NotAuto
  }

  function KeyFor(agentType: string): Option<string> {
    if agentType == "claude" then Some("rally-point:claude")
    else if agentType == "codex" then Some("rally-point:codex")
    else None
  }

  ghost function CheckAgent(h: Hasher, agentType: string, log: seq<Value>, depth: Option<string>): Verdict {
    match KeyFor(agentType)
    case None => UnknownAgentType
    case Some(key) => Check(h, key, log, depth)
  }

  method CheckForAgentType(h: Hasher, agentType: string, log: seq<Value>, depth: Option<string>) returns (v: Verdict)
    ensures v == CheckAgent(h, agentType, log, depth)
  {
    match KeyFor(agentType)
    case None => v := UnknownAgentType;
    case Some(key) => v := CheckKey(h, key, log, depth);
  }

  /** An entry that decides for `key` at position `i`: recognised, and followed by no other recognised entry. */
  ghost predicate Decides(log: seq<Value>, key: string, i: int) {
    && 0 <= i < |log| && RecognisedFor(key, log[i])
    && forall k :: i < k < |log| ==> !RecognisedFor(key, log[k])
  }

  lemma {:induction false} LastForDecides(log: seq<Value>, key: string) returns (i: int)
    ensures LastFor(log, key).Some? ==> Decides(log, key, i) && LastFor(log, key).value == log[i]
    ensures LastFor(log, key).None? ==> forall k :: 0 <= k < |log| ==> !RecognisedFor(key, log[k])
  {
    i := |log| - 1;
    if log != [] && !RecognisedFor(key, log[i]) {
      var rest := log[..i];
      assert forall k :: 0 <= k < |rest| ==> rest[k] == log[k];
      i := LastForDecides(rest, key);
    }
  }

  lemma DecidesOnce(log: seq<Value>, key: string, i: int, j: int)
    requires Decides(log, key, i) && Decides(log, key, j)
    ensures i == j
  {
  }

  // The same in the words of the stored JSON, without the functions above.

  predicate Holds(e: Value, field: string, v: Value) {
    e.Obj? && field in e.fields && e.fields[field] == v
  }

  /** The hash of an entry covers all its fields but the hash itself. */
  ghost predicate Sealed(h: Hasher, log: seq<Value>, i: nat)
    requires i < |log|
  {
    && Holds(log[i], "seq", Num(i))
    && (if i == 0 then "prev_sha256" !in log[i].fields || log[i].fields["prev_sha256"] == Null
        else log[i - 1].Obj? && Holds(log[i], "prev_sha256", Str(h(log[i - 1].fields - {"entry_sha256"}))))
    && Holds(log[i], "entry_sha256", Str(h(log[i].fields - {"entry_sha256"})))
  }

  ghost predicate ChainHolds(h: Hasher, log: seq<Value>) {
    forall i :: 0 <= i < |log| ==> Sealed(h, log, i)
  }

  lemma ChainHoldsIs(h: Hasher, log: seq<Value>)
    ensures ChainHolds(h, log) <==> Verifies(h, log)
  {
    if Verifies(h, log) {
      forall i | 0 <= i < |log| ensures Sealed(h, log, i) {
        assert i > 0 ==> Linked(h, PrevHash(h, log, i - 1), i - 1, log[i - 1]);
        assert Linked(h, PrevHash(h, log, i), i, log[i]);
      }
    }
    if ChainHolds(h, log) {
      forall i | 0 <= i < |log| ensures Linked(h, PrevHash(h, log, i), i, log[i]) {
        assert Sealed(h, log, i);
      }
    }
  }

  /** An entry about dispatching `agentType`, in one of the four modes. */
  predicate Concerns(e: Value, agentType: string) {
    && Holds(e, "key", Str("rally-point:" + agentType))
    && exists mode <- {"once", "ask", "auto", "denied"} :: Holds(e, "mode", Str(mode))
  }

  /** The last entry about `agentType` says `mode`. */
  ghost predicate LastSays(log: seq<Value>, agentType: string, mode: string) {
    exists i :: 0 <= i < |log| && SaysAt(log, agentType, mode, i)
  }

  predicate SaysAt(log: seq<Value>, agentType: string, mode: string, i: nat)
    requires i < |log|
  {
    && Concerns(log[i], agentType) && Holds(log[i], "mode", Str(mode))
    && forall k :: i < k < |log| ==> !Concerns(log[k], agentType)
  }

  lemma ConcernsIs(e: Value, agentType: string)
    ensures Concerns(e, agentType) <==> RecognisedFor("rally-point:" + agentType, e)
  {
    if RecognisedFor("rally-point:" + agentType, e) { assert Holds(e, "mode", Str(Get(e, "mode").s)); }
  }

  /** A last entry in each mode excludes the others. */
  lemma LastSaysIs(log: seq<Value>, agentType: string, mode: string)
    requires mode in {"once", "ask", "auto", "denied"}
    ensures var last := LastFor(log, "rally-point:" + agentType);
      LastSays(log, agentType, mode) <==> last.Some? && Get(last.value, "mode") == Str(mode)
  {
    var key := "rally-point:" + agentType;
    var i := LastForDecides(log, key);
    forall e ensures Concerns(e, agentType) <==> RecognisedFor(key, e) { ConcernsIs(e, agentType); }
    if LastFor(log, key).Some? && Get(log[i], "mode") == Str(mode) {
      assert SaysAt(log, agentType, mode, i);
    }
    if LastSays(log, agentType, mode) {
      var j :| 0 <= j < |log| && SaysAt(log, agentType, mode, j);
      assert Decides(log, key, j);
      DecidesOnce(log, key, i, j);
    }
  }

  lemma KeysAre(agentType: string)
    ensures agentType in {"claude", "codex"} ==> KeyFor(agentType) == Some("rally-point:" + agentType)
    ensures agentType !in {"claude", "codex"} ==> KeyFor(agentType) == None
  {
    assert "rally-point:" + "claude" == "rally-point:claude" && "rally-point:" + "codex" == "rally-point:codex";
  }

  /**
    Which verdict a gate gives: the vendor first, then the depth, then the chain, then the mode of the last entry
    about this vendor.
    */
  lemma VerdictExactly(h: Hasher, agentType: string, log: seq<Value>, depth: Option<string>)
    ensures var v := CheckAgent(h, agentType, log, depth); var known := agentType in {"claude", "codex"};
      var read := known && !DepthExceeded(depth) && ChainHolds(h, log);
      && (v == UnknownAgentType <==> !known)
      && (v == DepthTooGreat <==> known && DepthExceeded(depth))
      && (v == ChainBroken <==> known && !DepthExceeded(depth) && !ChainHolds(h, log))
      && (v == Allowed <==> read && LastSays(log, agentType, "auto"))
      && (v == Denied <==> read && LastSays(log, agentType, "denied"))
      && (v == NotAuto <==> read && (LastSays(log, agentType, "once") || LastSays(log, agentType, "ask")))
      && (v == NoRecord <==> read && forall k :: 0 <= k < |log| ==> !Concerns(log[k], agentType))
  {
    KeysAre(agentType);
    ChainHoldsIs(h, log);
    LastSaysIs(log, agentType, "auto");
    LastSaysIs(log, agentType, "denied");
    LastSaysIs(log, agentType, "once");
    LastSaysIs(log, agentType, "ask");
    NoRecordIs(log, agentType);
  }

  lemma NoRecordIs(log: seq<Value>, agentType: string)
    ensures var last := LastFor(log, "rally-point:" + agentType);
      && (last.None? <==> forall k :: 0 <= k < |log| ==> !Concerns(log[k], agentType))
      && (last.Some? ==> IsMode(Get(last.value, "mode")))
  {
    var i := LastForDecides(log, "rally-point:" + agentType);
    forall e ensures Concerns(e, agentType) <==> RecognisedFor("rally-point:" + agentType, e) {
      ConcernsIs(e, agentType);
    }
  }

  /** A dispatch is allowed exactly when vendor, depth, chain and the last entry about the vendor all say so. */
  lemma AllowedExactly(h: Hasher, agentType: string, log: seq<Value>, depth: Option<string>)
    ensures CheckAgent(h, agentType, log, depth) == Allowed <==>
      && agentType in {"claude", "codex"} && !DepthExceeded(depth)
      && ChainHolds(h, log) && LastSays(log, agentType, "auto")
  {
    VerdictExactly(h, agentType, log, depth);
  }

  /**
    Entries for other keys never change a verdict: two verifying logs with the same recognised entries for the
    key agree.
    */
  lemma {:induction false} OtherKeysDoNotMatter(h: Hasher, key: string, a: seq<Value>, b: seq<Value>,
      depth: Option<string>)
    requires Verifies(h, a) && Verifies(h, b)
    requires Filter(a, e => RecognisedFor(key, e)) == Filter(b, e => RecognisedFor(key, e))
    ensures Check(h, key, a, depth) == Check(h, key, b, depth)
  {
    LastOfFiltered(a, key);
    LastOfFiltered(b, key);
    LastDecides(h, key, a, b, depth);
  }

  lemma {:induction false} LastDecides(h: Hasher, key: string, a: seq<Value>, b: seq<Value>, depth: Option<string>)
    requires Verifies(h, a) && Verifies(h, b) && LastFor(a, key) == LastFor(b, key)
    ensures Check(h, key, a, depth) == Check(h, key, b, depth)
  {
  }

  /** A recognised entry for the key, correctly appended, decides the verdict by its mode alone. */
  lemma {:induction false} AppendedEntryRules(h: Hasher, key: string, log: seq<Value>, e: Value, depth: Option<string>)
    requires Verifies(h, log) && Linked(h, PrevHash(h, log, |log|), |log|, e) && RecognisedFor(key, e)
    requires !DepthExceeded(depth)
    ensures Check(h, key, log + [e], depth) == Allowed <==> Get(e, "mode") == Str("auto")
  {
    AppendVerifies(h, log, e);
  }
}
