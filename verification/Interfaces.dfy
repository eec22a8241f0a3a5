/**
 * The records shared by the balancer, the tester and the selector: the
 * mutable proxy entry, its latency, the read-only stats view of an entry,
 * the balancer's options and the source the pool is built from.
 */
module Interfaces {

  datatype Option<+T> = None | Some(value: T)

  /** The last measured round trip of a successful probe, in milliseconds.
      `Unknown` stands for the `Infinity` the source stores before the first
      successful probe and after every failed one. */
  datatype Latency = Finite(ms: nat) | Unknown

  /** One managed proxy. The tester and the balancer hold references to the
      same record and update its fields in place; the address never changes. */
  class Proxy {
    const url: string
    var latency: Latency
    var failures: nat
    var lastUsed: nat  // 0 means "never selected"

    /** A record as the balancer's `init` creates it. */
    constructor (url: string)
      ensures this.url == url
      ensures latency == Unknown && failures == 0 && lastUsed == 0
    {
      this.url := url;
      latency := Unknown;
      failures := 0;
      lastUsed := 0;
    }

    /** Records the time the entry was handed out. */
    method MarkUsed(now: nat)
      modifies this`lastUsed
      ensures lastUsed == now
    {
      lastUsed := now;
    }
  }

  /** The report row of one entry. `latency == None` renders as 'N/A' and
      `lastUsed == None` as 'Never used'; otherwise the number is rendered
      ("<n> ms", or a locale date string), which is not modelled. */
  datatype ProxyStats = ProxyStats(
    url: string,
    latency: Option<nat>,
    failures: nat,
    lastUsed: Option<nat>)

  /** The optional settings of a balancer; `None` is an absent property. */
  datatype ProxyBalancerOptions = ProxyBalancerOptions(
    maxFailures: Option<nat>,
    testTimeout: Option<nat>,
    refreshInterval: Option<nat>,
    concurrentTests: Option<nat>,
    testUrl: Option<string>)

  /** What the balancer is constructed from: a file path, an array of
      addresses, or (the language being untyped) any other value. */
  datatype ProxySource = FilePath(path: string) | AddressList(urls: seq<string>) | OtherValue
}
