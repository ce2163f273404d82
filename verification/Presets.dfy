/** The jobs of a recorder preset: what to capture where, shared by the launch planner and the
    shard supervisor. */
module Presets {
  datatype LaunchChannel = Trades | BookTicker | Orderbook

  datatype Channels = Channels(trades: bool, bookTicker: bool, orderbook: bool)

  const NO_CHANNELS := Channels(false, false, false)

  /** The order in which channels are examined. */
  const LAUNCH_CHANNELS: seq<LaunchChannel> := [Trades, BookTicker, Orderbook]

  predicate Selected(cs: Channels, c: LaunchChannel) {
    match c
    case Trades => cs.trades
    case BookTicker => cs.bookTicker
    case Orderbook => cs.orderbook
  }

  function With(cs: Channels, c: LaunchChannel, on: bool): (r: Channels)
    ensures forall d :: Selected(r, d) <==> if d == c then on else Selected(cs, d)
  {
    match c
    case Trades => cs.(trades := on)
    case BookTicker => cs.(bookTicker := on)
    case Orderbook => cs.(orderbook := on)
  }

  predicate AnySelected(cs: Channels) { cs.trades || cs.bookTicker || cs.orderbook }

  datatype Job = Job(name: string, exchange: string, market: string, symbol: string, channels: Channels)

  datatype Preset = Preset(
    jobs: seq<Job>, launchWaveSize: int, launchStaggerMs: int, sameExchangeCooldownMs: int,
    maxActiveJobs: int, outputDir: string)

  function LowerChar(c: char): char {
    if 'A' <= c <= 'Z' then ((c as int) + 32) as char else c
  }

  function LowerAscii(s: string): (r: string)
    ensures |r| == |s|
    ensures forall i :: 0 <= i < |s| ==> r[i] == LowerChar(s[i])
  {
    seq(|s|, i requires 0 <= i < |s| => LowerChar(s[i]))
  }
}
