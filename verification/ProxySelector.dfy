/**
 * Ranking of proxy entries: `sortProxies` copies the array and sorts the
 * copy with a comparator on (latency, failures), using the stable
 * `Array.prototype.sort`. The comparator only reads the records, so the
 * sort is modelled on entries that pair each record with the key the
 * comparator sees in it; the sort itself is a stable insertion sort.
 */
module ProxySelector {
  import opened Interfaces

  /** The values a comparator looks at. */
  datatype Key = Key(latency: Latency, failures: nat)

  /** The two comparators the balancer sorts with. */
  datatype Criterion =
    | LatencyThenFailures  // sortProxies: latency, then failures
    | LatencyOnly          // sortByLatency: `a.latency - b.latency`

  /** Latency order of the comparator: a non-finite latency is mapped to
      Number.MAX_VALUE, so `Unknown` ranks after every finite value. */
  predicate LatencyLe(a: Latency, b: Latency) {
    match a
    case Unknown => b == Unknown
    case Finite(x) => b.Unknown? || x <= b.ms
  }

  /** `a` may stay before `b`: the comparator does not return a positive
      number. Latencies are compared first, failures only on a tie. */
  predicate KeyLe(a: Key, b: Key) {
    if a.latency != b.latency then LatencyLe(a.latency, b.latency)
    else a.failures <= b.failures
  }

  function KeyOf(p: Proxy, c: Criterion): Key
    reads p
  {
    Key(p.latency, if c == LatencyThenFailures then p.failures else 0)
  }

  lemma KeyLeTotal(a: Key, b: Key)
    ensures KeyLe(a, b) || KeyLe(b, a)
    ensures KeyLe(a, b) && KeyLe(b, a) ==> a == b
  {
  }

  lemma KeyLeTransitive(a: Key, b: Key, d: Key)
    requires KeyLe(a, b) && KeyLe(b, d)
    ensures KeyLe(a, d)
  {
  }

  /** A record together with the key the comparator reads from it. */
  datatype Entry = Entry(key: Key, proxy: Proxy)

  /** The entries of a registry under criterion `c`, in registry order. */
  function Snapshot(s: seq<Proxy>, c: Criterion): (r: seq<Entry>)
    reads s
    ensures |r| == |s|
    ensures forall i :: 0 <= i < |s| ==> r[i].proxy == s[i] && r[i].key == KeyOf(s[i], c)
  {
    seq(|s|, i requires 0 <= i < |s| reads s => Entry(KeyOf(s[i], c), s[i]))
  }

  /** The records of a sequence of entries, in order. */
  function Records(es: seq<Entry>): (r: seq<Proxy>)
    ensures |r| == |es|
    ensures forall i :: 0 <= i < |es| ==> r[i] == es[i].proxy
  {
    seq(|es|, i requires 0 <= i < |es| => es[i].proxy)
  }

  lemma RecordsCons(x: Entry, t: seq<Entry>)
    ensures Records([x] + t) == [x.proxy] + Records(t)
  {
    assert Records([x] + t) == [x.proxy] + Records(t);
  }

  predicate Sorted(es: seq<Entry>) {
    forall i, j :: 0 <= i < j < |es| ==> KeyLe(es[i].key, es[j].key)
  }

  /** Places `x` before the first entry of `t` that the comparator does not
      rank strictly below it. */
  function Insert(x: Entry, t: seq<Entry>): (r: seq<Entry>)
    ensures |r| == |t| + 1
  {
    if t == [] || KeyLe(x.key, t[0].key) then [x] + t
    else [t[0]] + Insert(x, t[1..])
  }

  /** Inserting adds `x` and moves nothing in or out. */
  lemma {:induction false} InsertPerm(x: Entry, t: seq<Entry>)
    ensures multiset(Insert(x, t)) == multiset{x} + multiset(t)
    ensures multiset(Records(Insert(x, t))) == multiset{x.proxy} + multiset(Records(t))
  {
    if t == [] || KeyLe(x.key, t[0].key) {
      RecordsCons(x, t);
    } else {
      assert t == [t[0]] + t[1..];
      InsertPerm(x, t[1..]);
      RecordsCons(t[0], t[1..]);
      RecordsCons(t[0], Insert(x, t[1..]));
    }
  }

  /** A sequence is sorted when its tail is and the head's key is at most
      every key of the tail. */
  lemma ConsSorted(h: Entry, rest: seq<Entry>)
    requires Sorted(rest)
    requires forall j :: 0 <= j < |rest| ==> KeyLe(h.key, rest[j].key)
    ensures Sorted([h] + rest)
  {
    forall i, j | 0 <= i < j < |rest| + 1
      ensures KeyLe(([h] + rest)[i].key, ([h] + rest)[j].key)
    {
      if i > 0 { assert ([h] + rest)[i] == rest[i - 1]; }
      assert ([h] + rest)[j] == rest[j - 1];
    }
  }

  /** A lower bound of `x` and of every key of `t` bounds every key of the
      insertion. */
  lemma InsertBound(x: Entry, t: seq<Entry>, b: Key)
    requires KeyLe(b, x.key)
    requires forall j :: 0 <= j < |t| ==> KeyLe(b, t[j].key)
    ensures forall j :: 0 <= j < |Insert(x, t)| ==> KeyLe(b, Insert(x, t)[j].key)
  {
    var r := Insert(x, t);
    InsertPerm(x, t);
    forall j | 0 <= j < |r| ensures KeyLe(b, r[j].key) {
      assert r[j] in multiset(r);
      if r[j] != x {
        assert r[j] in multiset(t);
        var k :| 0 <= k < |t| && t[k] == r[j];
      }
    }
  }

  /** Inserting into a sorted sequence keeps it sorted. */
  lemma {:induction false} InsertSorted(x: Entry, t: seq<Entry>)
    requires Sorted(t)
    ensures Sorted(Insert(x, t))
  {
    if t == [] || KeyLe(x.key, t[0].key) {
      forall j | 0 <= j < |t| ensures KeyLe(x.key, t[j].key) {
        if j > 0 { KeyLeTransitive(x.key, t[0].key, t[j].key); }
      }
      ConsSorted(x, t);
    } else {
      assert Sorted(t[1..]);
      InsertSorted(x, t[1..]);
      KeyLeTotal(x.key, t[0].key);
      InsertBound(x, t[1..], t[0].key);
      ConsSorted(t[0], Insert(x, t[1..]));
    }
  }

  /** Stable sort of entries: `Array.prototype.sort` with a comparator whose
      sign is given by `KeyLe`. */
  function SortEntries(es: seq<Entry>): (r: seq<Entry>)
    ensures |r| == |es|
  {
    if es == [] then [] else Insert(es[0], SortEntries(es[1..]))
  }

  /** The sort permutes the entries, and so the records. */
  lemma {:induction false} SortEntriesPerm(es: seq<Entry>)
    ensures multiset(SortEntries(es)) == multiset(es)
    ensures multiset(Records(SortEntries(es))) == multiset(Records(es))
  {
    if es != [] {
      assert es == [es[0]] + es[1..];
      SortEntriesPerm(es[1..]);
      InsertPerm(es[0], SortEntries(es[1..]));
      RecordsCons(es[0], es[1..]);
    }
  }

  /** The sort leaves the keys in ascending order. */
  lemma {:induction false} SortEntriesSorted(es: seq<Entry>)
    ensures Sorted(SortEntries(es))
  {
    if es != [] {
      SortEntriesSorted(es[1..]);
      InsertSorted(es[0], SortEntries(es[1..]));
    }
  }

  /** Every sorted entry still carries the key of its record: the sort only
      moves the entries of the snapshot. */
  lemma SortedSnapshot(s: seq<Proxy>, c: Criterion)
    ensures var r := SortEntries(Snapshot(s, c)); Snapshot(Records(r), c) == r
  {
    var e := Snapshot(s, c);
    var r := SortEntries(e);
    SortEntriesPerm(e);
    forall i | 0 <= i < |r| ensures r[i].key == KeyOf(r[i].proxy, c) {
      assert r[i] in multiset(e);
      var j :| 0 <= j < |e| && e[j] == r[i];
    }
  }

  /** A registry sorted under criterion `c`: a permutation of `s` whose keys
      ascend. */
  function SortBy(s: seq<Proxy>, c: Criterion): (r: seq<Proxy>)
    reads s
    ensures |r| == |s| && multiset(r) == multiset(s)
    ensures forall i, j :: 0 <= i < j < |r| ==> KeyLe(KeyOf(r[i], c), KeyOf(r[j], c))
  {
    var e := Snapshot(s, c);
    SortedSnapshot(s, c);
    SortEntriesPerm(e);
    SortEntriesSorted(e);
    assert Records(e) == s;
    var r := Records(SortEntries(e));
    assert forall i :: 0 <= i < |r| ==> r[i] in multiset(s);
    assert forall i :: 0 <= i < |r| ==> KeyOf(r[i], c) == Snapshot(r, c)[i].key;
    r
  }

  /** `sortProxies`: a sorted copy of the registry, lowest latency first
      (unknown latency last), then fewest failures; the argument is a value
      and is left as it was. */
  function SortProxies(s: seq<Proxy>): (r: seq<Proxy>)
    reads s
    ensures |r| == |s| && multiset(r) == multiset(s)
    ensures forall i, j :: 0 <= i < j < |r| ==> LatencyLe(r[i].latency, r[j].latency)
    ensures forall i, j :: 0 <= i < j < |r| && r[i].latency == r[j].latency ==>
      r[i].failures <= r[j].failures
  {
    var r := SortBy(s, LatencyThenFailures);
    assert forall i :: 0 <= i < |r| ==> r[i] in multiset(s);
    assert forall i, j :: 0 <= i < j < |r| ==>
      KeyLe(KeyOf(r[i], LatencyThenFailures), KeyOf(r[j], LatencyThenFailures));
    r
  }

  /** Every entry with a measured latency precedes every entry without one. */
  lemma MeasuredFirst(s: seq<Proxy>, i: nat, j: nat)
    requires i < j < |SortProxies(s)|
    requires SortProxies(s)[j].latency.Finite?
    ensures SortProxies(s)[i].latency.Finite?
  {
  }

  /** The entries of `es` whose key is `k`, in the order of `es`. */
  function WithKey(es: seq<Entry>, k: Key): seq<Entry> {
    if es == [] then []
    else (if es[0].key == k then [es[0]] else []) + WithKey(es[1..], k)
  }

  /** `WithKey` keeps exactly the entries whose key is `k`. */
  lemma {:induction false} WithKeyMembers(es: seq<Entry>, k: Key)
    ensures forall e :: e in WithKey(es, k) <==> e in es && e.key == k
  {
    if es != [] {
      WithKeyMembers(es[1..], k);
      assert es == [es[0]] + es[1..];
    }
  }

  lemma WithKeyCons(x: Entry, t: seq<Entry>, k: Key)
    ensures WithKey([x] + t, k) == (if x.key == k then [x] else []) + WithKey(t, k)
  {
    assert ([x] + t)[0] == x && ([x] + t)[1..] == t;
  }

  /** Inserting `x` keeps the entries of every key in order, `x` going before
      the entries that share its key. */
  lemma {:induction false} InsertWithKey(x: Entry, t: seq<Entry>, k: Key)
    ensures WithKey(Insert(x, t), k) == (if x.key == k then [x] else []) + WithKey(t, k)
  {
    if t == [] || KeyLe(x.key, t[0].key) {
      WithKeyCons(x, t, k);
    } else {
      var rest := Insert(x, t[1..]);
      assert t == [t[0]] + t[1..];
      WithKeyCons(t[0], rest, k);
      WithKeyCons(t[0], t[1..], k);
      InsertWithKey(x, t[1..], k);
    }
  }

  /** Stability: for every key, the entries carrying it appear in the sorted
      sequence in the order they had in the input. */
  lemma {:induction false} SortStable(es: seq<Entry>, k: Key)
    ensures WithKey(SortEntries(es), k) == WithKey(es, k)
  {
    if es != [] {
      SortStable(es[1..], k);
      InsertWithKey(es[0], SortEntries(es[1..]), k);
      WithKeyCons(es[0], es[1..], k);
      assert es == [es[0]] + es[1..];
    }
  }

  /** Records equal on both latency and failures keep their relative order
      in `sortProxies`. */
  lemma RankingStable(s: seq<Proxy>, k: Key)
    ensures WithKey(Snapshot(SortProxies(s), LatencyThenFailures), k)
         == WithKey(Snapshot(s, LatencyThenFailures), k)
  {
    SortedSnapshot(s, LatencyThenFailures);
    SortStable(Snapshot(s, LatencyThenFailures), k);
  }

  /** Sorting a sorted sequence gives it back unchanged. */
  lemma {:induction false} SortIdempotent(es: seq<Entry>)
    requires Sorted(es)
    ensures SortEntries(es) == es
  {
    if es != [] {
      assert Sorted(es[1..]);
      SortIdempotent(es[1..]);
      assert es == [es[0]] + es[1..];
    }
  }

  /** Ranking the ranked registry again leaves its order as it is. */
  lemma RankingIdempotent(s: seq<Proxy>)
    ensures SortProxies(SortProxies(s)) == SortProxies(s)
  {
    var r := SortEntries(Snapshot(s, LatencyThenFailures));
    SortedSnapshot(s, LatencyThenFailures);
    SortEntriesSorted(Snapshot(s, LatencyThenFailures));
    SortIdempotent(r);
  }

  /** A stable sort is determined by its input: any sorted sequence that
      keeps every key's entries in input order is the output of the sort. */
  lemma SortUnique(es: seq<Entry>, r: seq<Entry>)
    requires Sorted(r)
    requires forall k :: WithKey(r, k) == WithKey(es, k)
    ensures r == SortEntries(es)
  {
    var t := SortEntries(es);
    SortEntriesSorted(es);
    forall k ensures WithKey(r, k) == WithKey(t, k) {
      SortStable(es, k);
    }
    SortedSameKeysEqual(r, t);
  }

  /** In a sorted sequence the head's key is at most every key present. */
  lemma HeadLeast(r: seq<Entry>, e: Entry)
    requires Sorted(r) && e in r
    ensures KeyLe(r[0].key, e.key)
  {
    var i :| 0 <= i < |r| && r[i] == e;
    if i == 0 {
      KeyLeTotal(e.key, e.key);
    }
  }

  /** The entries of the head's key start with the head. */
  lemma WithKeyHead(r: seq<Entry>)
    requires r != []
    ensures WithKey(r, r[0].key) == [r[0]] + WithKey(r[1..], r[0].key)
  {
    assert r == [r[0]] + r[1..];
    WithKeyCons(r[0], r[1..], r[0].key);
  }

  /** Two sorted sequences with the same entries per key have heads with the
      same key: each head's key is the least key present in both. */
  lemma HeadsSameKey(r: seq<Entry>, t: seq<Entry>)
    requires Sorted(r) && Sorted(t) && r != [] && t != []
    requires WithKey(r, r[0].key) == WithKey(t, r[0].key)
    requires WithKey(r, t[0].key) == WithKey(t, t[0].key)
    ensures r[0].key == t[0].key
  {
    WithKeyMembers(r, r[0].key);
    WithKeyMembers(t, r[0].key);
    WithKeyMembers(r, t[0].key);
    WithKeyMembers(t, t[0].key);
    HeadLeast(t, r[0]);
    HeadLeast(r, t[0]);
    KeyLeTotal(r[0].key, t[0].key);
  }

  /** Equal heads and equal entries per key leave equal entries per key in
      the tails. */
  lemma TailsSameKeys(r: seq<Entry>, t: seq<Entry>, k: Key)
    requires r != [] && t != [] && r[0] == t[0]
    requires WithKey(r, k) == WithKey(t, k)
    ensures WithKey(r[1..], k) == WithKey(t[1..], k)
  {
    assert r == [r[0]] + r[1..] && t == [t[0]] + t[1..];
    WithKeyCons(r[0], r[1..], k);
    WithKeyCons(t[0], t[1..], k);
    var h := if r[0].key == k then [r[0]] else [];
    assert WithKey(r[1..], k) == (h + WithKey(r[1..], k))[|h|..];
    assert WithKey(t[1..], k) == (h + WithKey(t[1..], k))[|h|..];
  }

  /** Two sorted sequences with the same entries per key are equal. */
  lemma {:induction false} SortedSameKeysEqual(r: seq<Entry>, t: seq<Entry>)
    requires Sorted(r) && Sorted(t)
    requires forall k :: WithKey(r, k) == WithKey(t, k)
    ensures r == t
  {
    if r == [] {
      if t != [] {
        WithKeyMembers(t, t[0].key);
        assert false;
      }
    } else if t == [] {
      WithKeyMembers(r, r[0].key);
      assert false;
    } else {
      HeadsSameKey(r, t);
      WithKeyHead(r);
      WithKeyHead(t);
      assert r[0] == WithKey(r, r[0].key)[0] == WithKey(t, r[0].key)[0] == t[0];
      forall k ensures WithKey(r[1..], k) == WithKey(t[1..], k) {
        TailsSameKeys(r, t, k);
      }
      assert Sorted(r[1..]) && Sorted(t[1..]);
      SortedSameKeysEqual(r[1..], t[1..]);
      assert r == [r[0]] + r[1..] && t == [t[0]] + t[1..];
    }
  }

  /** A worked ranking: A (50 ms, 0 failures), B (30 ms, 1 failure) and
      C (30 ms, 0 failures) rank C, B, A. */
  lemma RankingExample(a: Proxy, b: Proxy, c: Proxy)
    requires a.latency == Finite(50) && a.failures == 0
    requires b.latency == Finite(30) && b.failures == 1
    requires c.latency == Finite(30) && c.failures == 0
    ensures SortProxies([a, b, c]) == [c, b, a]
  {
    var ea, eb, ec := Entry(Key(Finite(50), 0), a), Entry(Key(Finite(30), 1), b),
      Entry(Key(Finite(30), 0), c);
    assert Snapshot([a, b, c], LatencyThenFailures) == [ea, eb, ec];
    assert SortEntries([ec]) == [ec] by { assert [ec][1..] == []; }
    assert Insert(eb, [ec]) == [ec, eb] by { assert [ec][1..] == []; }
    assert SortEntries([eb, ec]) == [ec, eb] by { assert [eb, ec][1..] == [ec]; }
    assert Insert(ea, [eb]) == [eb, ea] by { assert [eb][1..] == []; }
    assert Insert(ea, [ec, eb]) == [ec, eb, ea] by { assert [ec, eb][1..] == [eb]; }
    assert SortEntries([ea, eb, ec]) == [ec, eb, ea] by { assert [ea, eb, ec][1..] == [eb, ec]; }
    assert Records([ec, eb, ea]) == [c, b, a];
  }
}
