/** The append-only ledger of facts, and the latest fact per key that several projections take from it. */
module Ledger {
  import opened Basics
  import opened Sorting

  datatype Fact = Fact(eventId: string, number: int, kind: string, tool: Option<string>, role: Option<string>,
      subject: string,
                       scope: seq<string>, createdAt: string, summary: Option<string>, evidence: seq<string>,
                       target: Option<string>, refId: Option<string>, status: Option<string>)

  /** The key a fact counts under, if any. */
  type Keyer = Fact -> Option<string>

  /** The fact with the highest number under key `k`, the first of them if several share it. */
  function Latest(facts: seq<Fact>, key: Keyer, k: string): Option<Fact> {
    if facts == [] then None else
    var best, f := Latest(facts[..|facts| - 1], key, k), facts[|facts| - 1];
    if key(f) == Some(k) && (best.None? || f.number > best.value.number) then Some(f) else best
  }

  function Lookup<V>(m: map<string, V>, k: string): Option<V> {
    if k in m then Some(m[k]) else None
  }

  /** The loop both projections run: insert if absent, replace on a higher number. */
  method LatestPerKey(facts: seq<Fact>, key: Keyer) returns (m: map<string, Fact>)
    ensures forall k :: Lookup(m, k) == Latest(facts, key, k)
  {
    m := map[];
    for i := 0 to |facts|
      invariant forall k :: Lookup(m, k) == Latest(facts[..i], key, k)
    {
      var f := facts[i];
      assert facts[..i + 1][..i] == facts[..i];
      if key(f).Some? {
        var k := key(f).value;
        assert Lookup(m, k) == Latest(facts[..i], key, k);
        if k !in m { m := m[k := f]; }
        else if f.number > m[k].number { m := m[k := f]; }
      }
    }
    assert facts[..|facts|] == facts;
  }

  ghost predicate IsLatest(facts: seq<Fact>, key: Keyer, k: string, f: Fact) {
    f in facts && key(f) == Some(k) && forall g <- facts :: key(g) == Some(k) ==> g.number <= f.number
  }

  lemma {:induction false} LatestIs(facts: seq<Fact>, key: Keyer, k: string)
    ensures Latest(facts, key, k).Some? ==> IsLatest(facts, key, k, Latest(facts, key, k).value)
    ensures Latest(facts, key, k).None? ==> forall g <- facts :: key(g) != Some(k)
  {
    if facts != [] {
      LatestIs(facts[..|facts| - 1], key, k);
      assert facts == facts[..|facts| - 1] + [facts[|facts| - 1]];
    }
  }

  /** No two facts that count share a number. */
  ghost predicate DistinctNumbers(facts: seq<Fact>, key: Keyer) {
    forall f <- facts, g <- facts :: key(f).Some? && key(f) == key(g) && f.number == g.number ==> f == g
  }

  /** The latest fact depends on which facts there are, not on their order. */
  lemma LatestIgnoresOrder(a: seq<Fact>, b: seq<Fact>, key: Keyer, k: string)
    requires DistinctNumbers(a, key) && forall f :: f in a <==> f in b
    ensures Latest(a, key, k) == Latest(b, key, k)
  {
    LatestIs(a, key, k);
    LatestIs(b, key, k);
  }

  /** Facts that count under no key do not matter. */
  lemma {:induction false} LatestOfFiltered(facts: seq<Fact>, key: Keyer, p: Fact -> bool, k: string)
    requires forall f :: key(f).Some? ==> p(f)
    ensures Latest(Filter(facts, p), key, k) == Latest(facts, key, k)
  {
    if facts != [] {
      var init, f := facts[..|facts| - 1], facts[|facts| - 1];
      LatestOfFiltered(init, key, p, k);
      FilteredStep(init, f, key, p, k);
      assert facts == init + [f];
    }
  }

  lemma FilteredStep(facts: seq<Fact>, f: Fact, key: Keyer, p: Fact -> bool, k: string)
    requires Latest(Filter(facts, p), key, k) == Latest(facts, key, k) && (key(f).Some? ==> p(f))
    ensures Latest(Filter(facts + [f], p), key, k) == Latest(facts + [f], key, k)
  {
    FilterSnoc(facts, f, p);
    LatestSnoc(facts, f, key, k);
    LatestSnoc(Filter(facts, p), f, key, k);
  }

  lemma FilterSnoc<T>(s: seq<T>, x: T, p: T -> bool)
    ensures Filter(s + [x], p) == if p(x) then Filter(s, p) + [x] else Filter(s, p)
  {
    FilterConcat(s, [x], p);
    assert Filter([x], p) == if p(x) then [x] else [];
    assert Filter(s, p) + [] == Filter(s, p);
  }

  lemma LatestSnoc(facts: seq<Fact>, f: Fact, key: Keyer, k: string)
    ensures var best := Latest(facts, key, k);
      Latest(facts + [f], key, k) == if key(f) == Some(k) && (best.None? || f.number > best.value.number) then Some(f)
        else best
  {
    assert (facts + [f])[..|facts|] == facts;
  }

  ghost predicate NoRepeats<T>(s: seq<T>) {
    forall i, j :: 0 <= i < j < |s| ==> s[i] != s[j]
  }

  lemma {:induction false} OnceEach<T>(s: seq<T>)
    requires forall x :: multiset(s)[x] <= 1
    ensures NoRepeats(s)
  {
    forall i, j | 0 <= i < j < |s| ensures s[i] != s[j] {
      assert s == s[..j] + s[j..] && s[..j][i] == s[i] && s[j..][0] == s[j];
      assert multiset(s)[s[i]] == multiset(s[..j])[s[i]] + multiset(s[j..])[s[i]] <= 1;
      assert s[i] in multiset(s[..j]) && s[j] in multiset(s[j..]);
    }
  }

  lemma {:induction false} AtMostOnce<T>(s: seq<T>, x: T)
    requires NoRepeats(s)
    ensures multiset(s)[x] <= 1
  {
    if s != [] {
      AtMostOnce(s[1..], x);
      assert s == [s[0]] + s[1..];
      if x == s[0] { assert s[0] !in s[1..]; }
    }
  }

  lemma SortNoRepeats<T>(s: seq<T>, leq: (T, T) -> bool)
    requires NoRepeats(s)
    ensures NoRepeats(Sort(s, leq))
  {
    SortKeeps(s, leq);
    forall x ensures multiset(Sort(s, leq))[x] <= 1 { AtMostOnce(s, x); }
    OnceEach(Sort(s, leq));
  }

  lemma SortMembers<T>(s: seq<T>, leq: (T, T) -> bool, x: T)
    ensures x in Sort(s, leq) <==> x in s
  {
    SortKeeps(s, leq);
    assert x in s <==> x in multiset(s);
    assert x in Sort(s, leq) <==> x in multiset(Sort(s, leq));
  }

  lemma {:induction false} FilterMembers<T>(s: seq<T>, p: T -> bool, x: T)
    ensures x in Filter(s, p) <==> x in s && p(x)
  {
    if s != [] {
      FilterMembers(s[1..], p, x);
      assert s == [s[0]] + s[1..];
    }
  }

  /** What holds between earlier and later elements holds after leaving some out. */
  lemma {:induction false} FilterSorted<T>(s: seq<T>, p: T -> bool, rel: (T, T) -> bool)
    requires Sorted(s, rel)
    ensures Sorted(Filter(s, p), rel)
  {
    if s != [] {
      var rest := Filter(s[1..], p);
      FilterSorted(s[1..], p, rel);
      forall j | 0 <= j < |rest| ensures rel(s[0], rest[j]) {
        FilterMembers(s[1..], p, rest[j]);
      }
    }
  }

  /** The keys of an ordered map, in its iteration order. */
  method SortedKeys(keys: set<string>) returns (ks: seq<string>)
    ensures Sorted(ks, StrLeq) && NoRepeats(ks) && forall k :: k in ks <==> k in keys
  {
    ks := [];
    var todo := keys;
    while todo != {}
      invariant todo <= keys && Sorted(ks, StrLeq) && multiset(ks) == multiset(keys - todo)
    {
      var k :| k in todo;
      StrLeqIsOrder();
      InsertSorts(k, ks, StrLeq);
      InsertKeeps(k, ks, StrLeq);
      assert keys - (todo - {k}) == (keys - todo) + {k};
      ks := Insert(k, ks, StrLeq);
      todo := todo - {k};
    }
    OnceEach(ks);
    assert keys - todo == keys;
    assert forall k :: k in ks <==> k in multiset(ks);
  }
}
