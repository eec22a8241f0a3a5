/**
 * The pool itself (`ProxyBalancer`): option defaults, building the registry,
 * the staggered refresh, choosing the best entry, and the read-only reports.
 * The TypeScript and the JavaScript versions of the class share everything
 * except how absent options are defaulted and the early return of
 * `getProxyStats`; both variants are modelled.
 */
module Balancer {
  import opened Interfaces
  import opened ProxySelector
  import opened ProxyTester
  import opened LoadProxy

  /** The resolved settings of a balancer. */
  datatype Config = Config(
    maxFailures: nat,
    testTimeout: nat,
    refreshInterval: nat,
    concurrentTests: nat,
    testUrl: string)

  const DefaultMaxFailures: nat := 3
  const DefaultTestTimeout: nat := 5000
  const DefaultRefreshInterval: nat := 60000
  const DefaultConcurrentTests: nat := 5
  const DefaultTestUrl: string := "https://example.com"

  /** The milliseconds between two consecutive start slots of a refresh. */
  const SlotMs: nat := 500

  /** `o ?? d`: the default only for an absent option. */
  function OrElse<T>(o: Option<T>, d: T): T {
    if o.Some? then o.value else d
  }

  /** `n || d` for a number: the default for an absent option and for 0. */
  function OrElseNonZero(o: Option<nat>, d: nat): nat {
    if o.Some? && o.value != 0 then o.value else d
  }

  /** The TypeScript constructor's defaults, written with `??`: an absent
      option takes its default and a present one, 0 included, is kept. */
  function ResolveOptions(o: ProxyBalancerOptions): (cfg: Config)
    ensures o.maxFailures.None? ==> cfg.maxFailures == DefaultMaxFailures
    ensures o.maxFailures.Some? ==> cfg.maxFailures == o.maxFailures.value
    ensures o.testTimeout.None? ==> cfg.testTimeout == DefaultTestTimeout
    ensures o.testTimeout.Some? ==> cfg.testTimeout == o.testTimeout.value
    ensures o.refreshInterval.None? ==> cfg.refreshInterval == DefaultRefreshInterval
    ensures o.refreshInterval.Some? ==> cfg.refreshInterval == o.refreshInterval.value
    ensures o.concurrentTests.None? ==> cfg.concurrentTests == DefaultConcurrentTests
    ensures o.concurrentTests.Some? ==> cfg.concurrentTests == o.concurrentTests.value
    ensures o.testUrl.None? ==> cfg.testUrl == DefaultTestUrl
    ensures o.testUrl.Some? ==> cfg.testUrl == o.testUrl.value
  {
    Config(
      OrElse(o.maxFailures, DefaultMaxFailures),
      OrElse(o.testTimeout, DefaultTestTimeout),
      OrElse(o.refreshInterval, DefaultRefreshInterval),
      OrElse(o.concurrentTests, DefaultConcurrentTests),
      OrElse(o.testUrl, DefaultTestUrl))
  }

  /** The JavaScript constructor's defaults, written with `||`: a falsy
      option (absent, 0 or the empty string) takes its default, so no
      resolved number is 0 and the address is never empty. */
  function ResolveOptionsJs(o: ProxyBalancerOptions): (cfg: Config)
    ensures cfg.maxFailures > 0 && cfg.testTimeout > 0 && cfg.refreshInterval > 0
    ensures cfg.concurrentTests > 0 && cfg.testUrl != ""
    ensures o.maxFailures.None? || o.maxFailures == Some(0) ==> cfg.maxFailures == DefaultMaxFailures
    ensures o.maxFailures.Some? && o.maxFailures.value != 0 ==> cfg.maxFailures == o.maxFailures.value
    ensures o.testTimeout.None? || o.testTimeout == Some(0) ==> cfg.testTimeout == DefaultTestTimeout
    ensures o.testTimeout.Some? && o.testTimeout.value != 0 ==> cfg.testTimeout == o.testTimeout.value
    ensures o.refreshInterval.None? || o.refreshInterval == Some(0) ==>
      cfg.refreshInterval == DefaultRefreshInterval
    ensures o.refreshInterval.Some? && o.refreshInterval.value != 0 ==>
      cfg.refreshInterval == o.refreshInterval.value
    ensures o.concurrentTests.None? || o.concurrentTests == Some(0) ==>
      cfg.concurrentTests == DefaultConcurrentTests
    ensures o.concurrentTests.Some? && o.concurrentTests.value != 0 ==>
      cfg.concurrentTests == o.concurrentTests.value
    ensures o.testUrl.None? || o.testUrl == Some("") ==> cfg.testUrl == DefaultTestUrl
    ensures o.testUrl.Some? && o.testUrl.value != "" ==> cfg.testUrl == o.testUrl.value
  {
    Config(
      OrElseNonZero(o.maxFailures, DefaultMaxFailures),
      OrElseNonZero(o.testTimeout, DefaultTestTimeout),
      OrElseNonZero(o.refreshInterval, DefaultRefreshInterval),
      OrElseNonZero(o.concurrentTests, DefaultConcurrentTests),
      if o.testUrl.Some? && o.testUrl.value != "" then o.testUrl.value else DefaultTestUrl)
  }

  /** Some option is present with a falsy value. */
  predicate HasFalsyOption(o: ProxyBalancerOptions) {
    || o.maxFailures == Some(0) || o.testTimeout == Some(0) || o.refreshInterval == Some(0)
    || o.concurrentTests == Some(0) || o.testUrl == Some("")
  }

  /** The two constructors resolve the same configuration exactly when no
      option is given as 0 or as the empty string. */
  lemma ResolveAgreement(o: ProxyBalancerOptions)
    ensures ResolveOptions(o) == ResolveOptionsJs(o) <==> !HasFalsyOption(o)
  {
    if HasFalsyOption(o) {
      var ts, js := ResolveOptions(o), ResolveOptionsJs(o);
      if o.maxFailures == Some(0) {
        assert ts.maxFailures != js.maxFailures;
      } else if o.testTimeout == Some(0) {
        assert ts.testTimeout != js.testTimeout;
      } else if o.refreshInterval == Some(0) {
        assert ts.refreshInterval != js.refreshInterval;
      } else if o.concurrentTests == Some(0) {
        assert ts.concurrentTests != js.concurrentTests;
      } else {
        assert ts.testUrl != js.testUrl;
      }
    }
  }

  /** The start delay of entry `index` in a refresh:
      `(index % concurrentTests) * 500`. With `concurrentTests == 0` the
      remainder is NaN, which the timer treats as no delay. */
  function StaggerOffset(index: nat, concurrentTests: nat): (d: nat)
    ensures concurrentTests == 0 ==> d == 0
    ensures concurrentTests > 0 ==> d % SlotMs == 0 && d < SlotMs * concurrentTests
  {
    if concurrentTests == 0 then 0 else (index % concurrentTests) * SlotMs
  }

  /** Two entries share a start time exactly when their indices agree
      modulo `concurrentTests`. */
  lemma StaggerSameSlot(i: nat, j: nat, c: nat)
    requires c > 0
    ensures StaggerOffset(i, c) == StaggerOffset(j, c) <==> i % c == j % c
  {
  }

  /** In the first round of slots an entry starts `index` slots in. */
  lemma StaggerFirstRound(i: nat, c: nat)
    requires i < c
    ensures StaggerOffset(i, c) == i * SlotMs
  {
  }

  /** The start delays repeat every `concurrentTests` entries. */
  lemma StaggerPeriodic(i: nat, c: nat)
    requires c > 0
    ensures StaggerOffset(i + c, c) == StaggerOffset(i, c)
  {
    ModShift(i, c);
  }

  lemma ModShift(i: nat, c: nat)
    requires c > 0
    ensures (i + c) % c == i % c
  {
    var q, r := i / c, i % c;
    assert i + c == (q + 1) * c + r;
    ModUnique(i + c, c, q + 1, r);
  }

  /** A quotient and a remainder below `c` are unique. */
  lemma ModUnique(n: nat, c: nat, q: nat, r: nat)
    requires c > 0 && r < c && n == q * c + r
    ensures n % c == r
  {
    var q', r' := n / c, n % c;
    assert q' * c + r' == q * c + r;
    if q' < q {
      MulStep(q', q, c);
      assert false;
    } else if q < q' {
      MulStep(q, q', c);
      assert false;
    }
  }

  /** A larger multiplier gives a product at least `c` larger. */
  lemma {:induction false} MulStep(a: nat, b: nat, c: nat)
    requires a < b
    ensures a * c + c <= b * c
    decreases b - a
  {
    assert b * c == (b - 1) * c + c;
    if a + 1 < b {
      MulStep(a, b - 1, c);
    }
  }

  /** The start delays of a refresh of `n` entries. */
  function Schedule(n: nat, c: nat): (r: seq<nat>)
    ensures |r| == n
  {
    seq(n, i requires 0 <= i < n => StaggerOffset(i, c))
  }

  /** Two slots over five entries start at 0, 500, 0, 500, 0 ms. */
  lemma ScheduleExample()
    ensures Schedule(5, 2) == [0, 500, 0, 500, 0]
  {
  }

  /** The partitions of the registry the reports and the selection use. */
  datatype Bucket =
    | ActiveBucket    // failures < maxFailures
    | FailedBucket    // failures >= maxFailures
    | MeasuredBucket  // active, with a finite latency

  predicate InBucket(p: Proxy, b: Bucket, maxFailures: nat)
    reads p
  {
    match b
    case ActiveBucket => p.failures < maxFailures
    case FailedBucket => p.failures >= maxFailures
    case MeasuredBucket => p.failures < maxFailures && p.latency.Finite?
  }

  /** `.filter(...)`: the entries of `s` in bucket `b`, in registry order. */
  function Filter(s: seq<Proxy>, b: Bucket, maxFailures: nat): (r: seq<Proxy>)
    reads s
    ensures |r| <= |s|
    ensures forall i :: 0 <= i < |r| ==> InBucket(r[i], b, maxFailures) && r[i] in s
  {
    if s == [] then []
    else (if InBucket(s[0], b, maxFailures) then [s[0]] else []) + Filter(s[1..], b, maxFailures)
  }

  /** The filter drops no entry of its bucket. */
  lemma {:induction false} FilterComplete(s: seq<Proxy>, b: Bucket, maxFailures: nat)
    ensures forall i :: 0 <= i < |s| && InBucket(s[i], b, maxFailures) ==>
      s[i] in Filter(s, b, maxFailures)
  {
    if s != [] {
      FilterComplete(s[1..], b, maxFailures);
      forall i | 0 <= i < |s| && InBucket(s[i], b, maxFailures)
        ensures s[i] in Filter(s, b, maxFailures)
      {
        if i > 0 { assert s[i] == s[1..][i - 1]; }
      }
    }
  }

  /** The filter works entry by entry, so it keeps registry order. */
  lemma {:induction false} FilterAppend(x: seq<Proxy>, y: seq<Proxy>, b: Bucket, maxFailures: nat)
    ensures Filter(x + y, b, maxFailures) == Filter(x, b, maxFailures) + Filter(y, b, maxFailures)
  {
    if x == [] {
      assert x + y == y;
    } else {
      var h := if InBucket(x[0], b, maxFailures) then [x[0]] else [];
      assert (x + y)[0] == x[0];
      assert (x + y)[1..] == x[1..] + y;
      calc {
        Filter(x + y, b, maxFailures);
        h + Filter(x[1..] + y, b, maxFailures);
        { FilterAppend(x[1..], y, b, maxFailures); }
        h + (Filter(x[1..], b, maxFailures) + Filter(y, b, maxFailures));
        (h + Filter(x[1..], b, maxFailures)) + Filter(y, b, maxFailures);
      }
    }
  }

  /** Active and failed entries partition the registry. */
  lemma {:induction false} ActiveFailedPartition(s: seq<Proxy>, maxFailures: nat)
    ensures multiset(Filter(s, ActiveBucket, maxFailures)) + multiset(Filter(s, FailedBucket, maxFailures))
         == multiset(s)
  {
    if s != [] {
      var t := s[1..];
      ActiveFailedPartition(t, maxFailures);
      assert s == [s[0]] + t;
      FilterCons(s[0], t, ActiveBucket, maxFailures);
      FilterCons(s[0], t, FailedBucket, maxFailures);
    }
  }

  /** Hence the two counts add up to the size of the registry. */
  lemma ActiveFailedCount(s: seq<Proxy>, maxFailures: nat)
    ensures |Filter(s, ActiveBucket, maxFailures)| + |Filter(s, FailedBucket, maxFailures)| == |s|
  {
    ActiveFailedPartition(s, maxFailures);
    assert |multiset(Filter(s, ActiveBucket, maxFailures)) + multiset(Filter(s, FailedBucket, maxFailures))|
        == |multiset(s)|;
  }

  lemma FilterCons(x: Proxy, t: seq<Proxy>, b: Bucket, maxFailures: nat)
    ensures Filter([x] + t, b, maxFailures)
         == (if InBucket(x, b, maxFailures) then [x] else []) + Filter(t, b, maxFailures)
  {
    assert ([x] + t)[0] == x && ([x] + t)[1..] == t;
  }

  /** The index of the first entry with fewer than `maxFailures` failures,
      or `|s|` when there is none. */
  function FirstActive(s: seq<Proxy>, maxFailures: nat): (k: nat)
    reads s
    ensures k <= |s|
    ensures k < |s| ==> s[k].failures < maxFailures
    ensures forall j :: 0 <= j < k ==> s[j].failures >= maxFailures
  {
    if s == [] then 0
    else if s[0].failures < maxFailures then 0
    else 1 + FirstActive(s[1..], maxFailures)
  }

  /** `availableProxies[0]` is the first active entry, and the list of
      available entries is empty exactly when there is none. */
  lemma {:induction false} FirstAvailable(s: seq<Proxy>, maxFailures: nat)
    ensures Filter(s, ActiveBucket, maxFailures) == [] <==> FirstActive(s, maxFailures) == |s|
    ensures Filter(s, ActiveBucket, maxFailures) != [] ==>
      Filter(s, ActiveBucket, maxFailures)[0] == s[FirstActive(s, maxFailures)]
  {
    if s != [] && s[0].failures >= maxFailures {
      FirstAvailable(s[1..], maxFailures);
    }
  }

  /** What `getBestProxy` relies on about the ranked registry: it holds the
      same records, each once, and its first available entry is its first
      active one, which is a record of the registry. */
  lemma RankedChoice(s: seq<Proxy>, maxFailures: nat)
    requires Distinct(s)
    ensures var r := SortProxies(s); var b := FirstActive(r, maxFailures);
      && Distinct(r)
      && (Filter(r, ActiveBucket, maxFailures) == [] <==> b == |r|)
      && (b < |r| ==> Filter(r, ActiveBucket, maxFailures)[0] == r[b] && r[b] in s)
  {
    var r := SortProxies(s);
    PermutationDistinct(s, r);
    FirstAvailable(r, maxFailures);
    var b := FirstActive(r, maxFailures);
    if b < |r| {
      assert r[b] in multiset(s);
    }
  }

  /** The entry `getBestProxy` picks from the ranked registry ranks at
      least as high as every other active entry: no active entry has a
      lower latency, and none with the same latency has fewer failures. It
      is missing only when every entry is exhausted. */
  lemma BestIsMinimal(s: seq<Proxy>, maxFailures: nat)
    ensures var r := SortProxies(s); var b := FirstActive(r, maxFailures);
      && (b == |r| <==> forall i :: 0 <= i < |s| ==> s[i].failures >= maxFailures)
      && (b < |r| ==> forall j :: 0 <= j < |r| && r[j].failures < maxFailures ==>
            LatencyLe(r[b].latency, r[j].latency)
            && (r[b].latency == r[j].latency ==> r[b].failures <= r[j].failures))
  {
    var r := SortProxies(s);
    var b := FirstActive(r, maxFailures);
    if b == |r| {
      forall i | 0 <= i < |s| ensures s[i].failures >= maxFailures {
        assert s[i] in multiset(r);
      }
    } else {
      assert r[b] in multiset(s);
      forall j | 0 <= j < |r| && r[j].failures < maxFailures
        ensures LatencyLe(r[b].latency, r[j].latency)
        ensures r[b].latency == r[j].latency ==> r[b].failures <= r[j].failures
      {
        if j != b { assert b < j; }
      }
    }
  }

  /** The measured entries of `s` (active, with a finite latency), stably
      sorted by latency alone
      (`a.latency - b.latency`): entries of equal latency keep their
      registry order. */
  function RankByLatency(s: seq<Proxy>, maxFailures: nat): (r: seq<Proxy>)
    reads s
    ensures multiset(r) == multiset(Filter(s, MeasuredBucket, maxFailures))
    ensures forall i :: 0 <= i < |r| ==>
      r[i] in s && r[i].failures < maxFailures && r[i].latency.Finite?
    ensures forall i, j :: 0 <= i < j < |r| ==> r[i].latency.ms <= r[j].latency.ms
  {
    var measured := Filter(s, MeasuredBucket, maxFailures);
    var r := SortBy(measured, LatencyOnly);
    RankedMembers(s, measured, r, maxFailures);
    LatencyOnlyOrder(r);
    r
  }

  lemma RankedMembers(s: seq<Proxy>, measured: seq<Proxy>, r: seq<Proxy>, maxFailures: nat)
    requires measured == Filter(s, MeasuredBucket, maxFailures)
    requires multiset(r) == multiset(measured)
    ensures forall i :: 0 <= i < |r| ==>
      r[i] in s && r[i].failures < maxFailures && r[i].latency.Finite?
  {
    forall i | 0 <= i < |r|
      ensures r[i] in s && r[i].failures < maxFailures && r[i].latency.Finite?
    {
      assert r[i] in multiset(measured);
      var k :| 0 <= k < |measured| && measured[k] == r[i];
      assert InBucket(measured[k], MeasuredBucket, maxFailures);
    }
  }

  /** Sorted by latency alone, measured entries ascend in milliseconds. */
  lemma LatencyOnlyOrder(r: seq<Proxy>)
    requires forall i, j :: 0 <= i < j < |r| ==> KeyLe(KeyOf(r[i], LatencyOnly), KeyOf(r[j], LatencyOnly))
    requires forall i :: 0 <= i < |r| ==> r[i].latency.Finite?
    ensures forall i, j :: 0 <= i < j < |r| ==> r[i].latency.ms <= r[j].latency.ms
  {
    forall i, j | 0 <= i < j < |r| ensures r[i].latency.ms <= r[j].latency.ms {
      assert KeyLe(KeyOf(r[i], LatencyOnly), KeyOf(r[j], LatencyOnly));
    }
  }

  /** Measured entries of equal latency keep their registry order in the
      latency ranking. */
  lemma RankByLatencyStable(s: seq<Proxy>, maxFailures: nat, k: Key)
    ensures WithKey(Snapshot(RankByLatency(s, maxFailures), LatencyOnly), k)
         == WithKey(Snapshot(Filter(s, MeasuredBucket, maxFailures), LatencyOnly), k)
  {
    var measured := Filter(s, MeasuredBucket, maxFailures);
    assert RankByLatency(s, maxFailures) == SortBy(measured, LatencyOnly);
    SortedSnapshot(measured, LatencyOnly);
    SortStable(Snapshot(measured, LatencyOnly), k);
  }

  /** The sum of the latencies of `s`, counting a missing one as 0. */
  function LatencySum(s: seq<Proxy>): nat
    reads s
  {
    if s == [] then 0
    else (if s[0].latency.Finite? then s[0].latency.ms else 0) + LatencySum(s[1..])
  }

  /** The sum is a fold over the entries. */
  lemma {:induction false} LatencySumAppend(x: seq<Proxy>, y: seq<Proxy>)
    ensures LatencySum(x + y) == LatencySum(x) + LatencySum(y)
  {
    if x == [] {
      assert x + y == y;
    } else {
      LatencySumAppend(x[1..], y);
      assert (x + y)[0] == x[0];
      assert (x + y)[1..] == x[1..] + y;
    }
  }

  /** `Math.round(sum / n)` for non-negative numbers: the integer nearest to
      `sum / n`, a half rounded up. */
  function RoundDiv(sum: nat, n: nat): (r: nat)
    requires n > 0
    ensures 2 * n * r <= 2 * sum + n < 2 * n * r + 2 * n
  {
    (2 * sum + n) / (2 * n)
  }

  /** The report row of one entry: the latency only when it is finite, the
      time of last use only when the entry was ever selected. */
  function StatsOf(p: Proxy): (r: ProxyStats)
    reads p
    ensures r.url == p.url && r.failures == p.failures
    ensures r.latency.Some? <==> p.latency.Finite?
    ensures r.latency.Some? ==> r.latency.value == p.latency.ms
    ensures r.lastUsed.None? <==> p.lastUsed == 0
    ensures r.lastUsed.Some? ==> r.lastUsed.value == p.lastUsed
  {
    ProxyStats(
      p.url,
      if p.latency.Finite? then Some(p.latency.ms) else None,
      p.failures,
      if p.lastUsed != 0 then Some(p.lastUsed) else None)
  }

  /** `.map(proxy => ({ ... }))`: one row per entry, in order. */
  function StatsList(s: seq<Proxy>): (r: seq<ProxyStats>)
    reads s
    ensures |r| == |s|
    ensures forall i :: 0 <= i < |s| ==> r[i] == StatsOf(s[i])
  {
    if s == [] then [] else [StatsOf(s[0])] + StatsList(s[1..])
  }

  /** The counts and the mean latency of the registry. */
  datatype StatsSummary = StatsSummary(total: nat, active: nat, failed: nat, avgLatency: Option<nat>)

  datatype BalancerError =
    | InvalidSource        // 'Invalid proxy source: must be a file path or an array'
    | NoProxiesAvailable   // 'No proxies available'
    | AllProxiesExhausted  // 'All proxies have exceeded the max failure threshold'
    | AgentCreationFailed  // building the agent for the chosen entry threw

  datatype Result<T> = Ok(value: T) | Err(error: BalancerError)

  /** The addresses `init` builds records for. */
  function Addresses(source: ProxySource, file: ReadResult): (urls: seq<string>)
    requires !source.OtherValue?
    ensures source.AddressList? ==> urls == source.urls
    ensures source.FilePath? ==> urls == LoadProxiesFromFile(file)
  {
    match source
    case AddressList(urls) => urls
    case FilePath(_) => LoadProxiesFromFile(file)
  }

  /** No record appears twice in `s`. */
  ghost predicate Distinct(s: seq<Proxy>) {
    forall i, j :: 0 <= i < j < |s| ==> s[i] != s[j]
  }

  /** A registry without repeated records has each record once. */
  lemma {:induction false} DistinctCount(s: seq<Proxy>, p: Proxy)
    requires Distinct(s)
    ensures multiset(s)[p] <= 1
  {
    if s != [] {
      assert Distinct(s[1..]);
      DistinctCount(s[1..], p);
      assert s == [s[0]] + s[1..];
      if p == s[0] {
        assert p !in s[1..];
      }
    }
  }

  /** Reordering keeps records distinct. */
  lemma PermutationDistinct(s: seq<Proxy>, t: seq<Proxy>)
    requires Distinct(s) && multiset(s) == multiset(t)
    ensures Distinct(t)
  {
    forall i, j | 0 <= i < j < |t| ensures t[i] != t[j] {
      DistinctCount(s, t[i]);
      if t[i] == t[j] {
        RepeatCount(t, i, j);
      }
    }
  }

  /** An entry held at two places is counted twice. */
  lemma RepeatCount(t: seq<Proxy>, i: nat, j: nat)
    requires i < j < |t| && t[i] == t[j]
    ensures multiset(t)[t[i]] >= 2
  {
    assert t == t[..j] + [t[j]] + t[j + 1..];
    assert t[i] in t[..j];
  }

  class ProxyBalancer {
    /** The registry: the records the tester updates in place. */
    var proxies: seq<Proxy>
    const source: ProxySource
    const config: Config

    /** Every record of the registry is held once; `init` creates a fresh
        record per address. */
    ghost predicate Valid()
      reads this
    {
      Distinct(proxies)
    }

    /** The TypeScript constructor: `??` defaults and an empty registry. */
    constructor (source: ProxySource, options: ProxyBalancerOptions)
      ensures this.source == source && config == ResolveOptions(options)
      ensures proxies == [] && Valid()
    {
      this.source := source;
      config := ResolveOptions(options);
      proxies := [];
    }

    /** The JavaScript constructor: `||` defaults and an empty registry. */
    constructor WithJsDefaults(source: ProxySource, options: ProxyBalancerOptions)
      ensures this.source == source && config == ResolveOptionsJs(options)
      ensures proxies == [] && Valid()
    {
      this.source := source;
      config := ResolveOptionsJs(options);
      proxies := [];
    }

    /** `init`: one fresh record per address, in order and duplicates kept,
        each with unknown latency, no failures and never used. `file` is
        what reading the list file gave, used only for a file source. Any
        other source is rejected and leaves the registry as it was. */
    method Init(file: ReadResult) returns (r: Result<()>)
      modifies this`proxies
      ensures source.OtherValue? ==> r == Err(InvalidSource) && proxies == old(proxies)
      ensures !source.OtherValue? ==> r.Ok? && Valid()
      ensures !source.OtherValue? ==>
        var urls := Addresses(source, file);
        && |proxies| == |urls|
        && forall i :: 0 <= i < |proxies| ==>
             && fresh(proxies[i]) && proxies[i].url == urls[i]
             && proxies[i].latency == Unknown && proxies[i].failures == 0
             && proxies[i].lastUsed == 0
    {
      if source.OtherValue? {
        return Err(InvalidSource);
      }
      var urls := Addresses(source, file);
      var created: seq<Proxy> := [];
      var i := 0;
      while i < |urls|
        invariant 0 <= i <= |urls| && |created| == i
        invariant forall k :: 0 <= k < i ==>
          && fresh(created[k]) && created[k].url == urls[k]
          && created[k].latency == Unknown && created[k].failures == 0
          && created[k].lastUsed == 0
        invariant Distinct(created)
      {
        var p := new Proxy(urls[i]);
        created := created + [p];
        i := i + 1;
      }
      proxies := created;
      return Ok(());
    }

    /** `refreshProxies`: every entry is probed exactly once, entry `i`
        with outcome `outcomes[i]`; the probes are applied in registry
        order, and since each touches only its own record the order does
        not matter. Returns each entry's start delay. It has no error
        result: a failing probe only counts against its entry. */
    method RefreshProxies(outcomes: seq<ProbeOutcome>) returns (offsets: seq<nat>)
      requires Valid() && |outcomes| == |proxies|
      modifies proxies
      ensures offsets == Schedule(|proxies|, config.concurrentTests)
      ensures forall i :: 0 <= i < |proxies| ==>
        HealthOf(proxies[i]) == Probe(old(HealthOf(proxies[i])), outcomes[i])
      ensures forall i :: 0 <= i < |proxies| ==> proxies[i].lastUsed == old(proxies[i].lastUsed)
    {
      offsets := [];
      var i := 0;
      while i < |proxies|
        invariant 0 <= i <= |proxies| && |offsets| == i
        invariant forall k :: 0 <= k < i ==> offsets[k] == StaggerOffset(k, config.concurrentTests)
        invariant forall k :: 0 <= k < i ==>
          HealthOf(proxies[k]) == Probe(old(HealthOf(proxies[k])), outcomes[k])
        invariant forall k :: i <= k < |proxies| ==> HealthOf(proxies[k]) == old(HealthOf(proxies[k]))
        invariant forall k :: 0 <= k < |proxies| ==> proxies[k].lastUsed == old(proxies[k].lastUsed)
      {
        offsets := offsets + [StaggerOffset(i, config.concurrentTests)];
        TestProxy(proxies[i], outcomes[i]);
        i := i + 1;
      }
    }

    /** `getBestProxy` at time `now`; `agentOk` says whether building the
        agent for the chosen address succeeded. An empty registry is
        rejected untouched. Otherwise the registry is replaced by its
        ranking, and stays so even when every entry turns out exhausted;
        the chosen entry `best` is the first ranked one with fewer than
        `maxFailures` failures, and only its `lastUsed` changes (to `now`,
        also when the agent then fails). */
    method GetBestProxy(now: nat, agentOk: bool) returns (r: Result<string>, ghost best: nat)
      requires Valid()
      modifies this`proxies, proxies
      ensures Valid()
      ensures old(proxies) == [] ==> r == Err(NoProxiesAvailable) && proxies == []
      ensures old(proxies) != [] ==>
        && proxies == old(SortProxies(proxies))
        && best == old(FirstActive(SortProxies(proxies), config.maxFailures))
      ensures old(proxies) != [] && best == |proxies| ==> r == Err(AllProxiesExhausted)
      ensures old(proxies) != [] && best < |proxies| ==>
        && proxies[best].lastUsed == now
        && r == (if agentOk then Ok(proxies[best].url) else Err(AgentCreationFailed))
      ensures forall p :: p in old(proxies) ==>
        p.latency == old(p.latency) && p.failures == old(p.failures)
      ensures forall p :: p in old(proxies) && (best >= |proxies| || p != proxies[best]) ==>
        p.lastUsed == old(p.lastUsed)
    {
      best := 0;
      if proxies == [] {
        r := Err(NoProxiesAvailable);
      } else {
        ghost var before := proxies;
        var ranked := SortProxies(proxies);
        var available := Filter(ranked, ActiveBucket, config.maxFailures);
        best := FirstActive(ranked, config.maxFailures);
        RankedChoice(before, config.maxFailures);
        proxies := ranked;
        if available == [] {
          r := Err(AllProxiesExhausted);
        } else {
          var chosen := available[0];
          assert chosen == ranked[best] && chosen in before;
          chosen.MarkUsed(now);
          r := if agentOk then Ok(chosen.url) else Err(AgentCreationFailed);
        }
      }
    }

    /** `getProxyStats` (TypeScript): one row per entry, in registry order. */
    function GetProxyStats(): (r: seq<ProxyStats>)
      reads this, proxies
      ensures |r| == |proxies|
      ensures forall i :: 0 <= i < |r| ==> r[i] == StatsOf(proxies[i])
    {
      StatsList(proxies)
    }

    /** `getProxyStats` (JavaScript): returns `[]` early for an empty
        registry, and the same rows otherwise. */
    function GetProxyStatsJs(): (r: seq<ProxyStats>)
      reads this, proxies
      ensures proxies == [] ==> r == []
      ensures proxies != [] ==> r == GetProxyStats()
    {
      if |proxies| == 0 then [] else StatsList(proxies)
    }

    /** The early return changes nothing: both variants report the same. */
    lemma StatsVariantsAgree()
      ensures GetProxyStatsJs() == GetProxyStats()
    {
    }

    /** The active entries with a measured latency, ranked by latency. */
    function MeasuredRanking(): (r: seq<Proxy>)
      reads this, proxies
      ensures multiset(r) == multiset(Filter(proxies, MeasuredBucket, config.maxFailures))
      ensures forall i :: 0 <= i < |r| ==>
        r[i] in proxies && r[i].failures < config.maxFailures && r[i].latency.Finite?
      ensures forall i, j :: 0 <= i < j < |r| ==> r[i].latency.ms <= r[j].latency.ms
    {
      RankByLatency(proxies, config.maxFailures)
    }

    /** `sortByLatency`: the rows of the active entries with a measured
        latency, lowest latency first. */
    function SortByLatency(): (r: seq<ProxyStats>)
      reads this, proxies
      ensures |r| == |Filter(proxies, MeasuredBucket, config.maxFailures)| == |MeasuredRanking()|
      ensures forall i :: 0 <= i < |r| ==> r[i] == StatsOf(MeasuredRanking()[i])
      ensures forall i :: 0 <= i < |r| ==> r[i].latency.Some? && r[i].failures < config.maxFailures
      ensures forall i, j :: 0 <= i < j < |r| ==> r[i].latency.value <= r[j].latency.value
    {
      var ranked := MeasuredRanking();
      assert |ranked| == |multiset(ranked)|;
      StatsList(ranked)
    }

    /** Every active entry with a measured latency is reported by
        `sortByLatency`. */
    lemma SortByLatencyComplete(i: nat)
      requires i < |proxies|
      requires proxies[i].failures < config.maxFailures && proxies[i].latency.Finite?
      ensures StatsOf(proxies[i]) in SortByLatency()
    {
      FilterComplete(proxies, MeasuredBucket, config.maxFailures);
      var ranked := MeasuredRanking();
      assert proxies[i] in multiset(ranked);
      var j :| 0 <= j < |ranked| && ranked[j] == proxies[i];
      assert SortByLatency()[j] == StatsOf(proxies[i]);
    }

    /** `getFailedProxies`: the rows of the exhausted entries, in registry
        order. */
    function GetFailedProxies(): (r: seq<ProxyStats>)
      reads this, proxies
      ensures |r| == |Filter(proxies, FailedBucket, config.maxFailures)|
      ensures forall i :: 0 <= i < |r| ==> r[i] == StatsOf(Filter(proxies, FailedBucket, config.maxFailures)[i])
      ensures forall i :: 0 <= i < |r| ==> r[i].failures >= config.maxFailures
    {
      StatsList(Filter(proxies, FailedBucket, config.maxFailures))
    }

    /** Every exhausted entry is reported by `getFailedProxies`. */
    lemma GetFailedProxiesComplete(i: nat)
      requires i < |proxies| && proxies[i].failures >= config.maxFailures
      ensures StatsOf(proxies[i]) in GetFailedProxies()
    {
      FilterComplete(proxies, FailedBucket, config.maxFailures);
      var failed := Filter(proxies, FailedBucket, config.maxFailures);
      var j :| 0 <= j < |failed| && failed[j] == proxies[i];
      assert GetFailedProxies()[j] == StatsOf(proxies[i]);
    }

    /** `getStatsSummary`: the registry size, the number of active entries,
        the rest as failed (as many as `getFailedProxies` reports), and the
        rounded mean latency of the active entries with a missing latency
        counted as 0, absent ('N/A') when no entry is active. */
    function GetStatsSummary(): (r: StatsSummary)
      reads this, proxies
      ensures r.total == |proxies|
      ensures r.active == |Filter(proxies, ActiveBucket, config.maxFailures)|
      ensures r.active + r.failed == r.total
      ensures r.failed == |GetFailedProxies()|
      ensures r.avgLatency.None? <==> r.active == 0
      ensures r.avgLatency.Some? ==>
        var sum := LatencySum(Filter(proxies, ActiveBucket, config.maxFailures));
        2 * r.active * r.avgLatency.value <= 2 * sum + r.active < 2 * r.active * r.avgLatency.value + 2 * r.active
    {
      var total := |proxies|;
      var active := Filter(proxies, ActiveBucket, config.maxFailures);
      ActiveFailedCount(proxies, config.maxFailures);
      var failed := total - |active|;
      var avg := if |active| > 0 then Some(RoundDiv(LatencySum(active), |active|)) else None;
      StatsSummary(total, |active|, failed, avg)
    }
  }

  /** A worked summary: entries of 100 ms with no
      failures, unknown latency with no failures, and unknown latency with
      three failures, under the default threshold of 3, give 3 in total,
      2 active, 1 failed and a mean of 50 ms. */
  lemma SummaryExample(b: ProxyBalancer)
    requires b.config.maxFailures == 3 && |b.proxies| == 3
    requires b.proxies[0].latency == Finite(100) && b.proxies[0].failures == 0
    requires b.proxies[1].latency == Unknown && b.proxies[1].failures == 0
    requires b.proxies[2].latency == Unknown && b.proxies[2].failures == 3
    ensures b.GetStatsSummary() == StatsSummary(3, 2, 1, Some(50))
  {
    var s := b.proxies;
    assert s[2..][1..] == [];
    assert Filter(s[2..], ActiveBucket, 3) == [];
    assert Filter(s[1..], ActiveBucket, 3) == [s[1]] by { assert s[1..][1..] == s[2..]; }
    assert Filter(s, ActiveBucket, 3) == [s[0], s[1]];
    assert LatencySum([s[1]]) == 0 by { assert [s[1]][1..] == []; }
    assert LatencySum([s[0], s[1]]) == 100 by { assert [s[0], s[1]][1..] == [s[1]]; }
  }
}
