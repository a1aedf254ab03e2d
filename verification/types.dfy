/** The dashboard's shared records: market snapshots and the signal flags derived
    from them. Floating-point fields are modelled as exact reals, and ISO-8601
    timestamps as integers (a day number for snapshots, an instant for flags). */
module Types {

  /** The kinds of signal the dashboard knows about. `NarrativeEmergence` is
      declared but no detection rule ever produces it. */
  datatype SignalType =
    | Rotation
    | LiquidityShift
    | NarrativeEmergence
    | RiskEvent
    | SocialVelocity

  /** The three severities a flag may carry. */
  datatype Severity = Info | Warning | Critical

  /** One observation of the market. `timestamp` is the day the snapshot is dated. */
  datatype MarketMetrics = MarketMetrics(
    timestamp: int,
    btcPrice: real,
    ethPrice: real,
    btcDominance: real,
    stablecoinCap: real,
    totalTvl: real,
    ethL2Volume: real,
    etfNetFlows: real,
    memeVelocity: real
  )

  /** Flag ids and display text are constants that are only stored and
      compared, never measured or cut, so they stay plain Dafny strings rather
      than the UTF-16 code-unit strings the text-rendering model needs. */

  /** The fixed display text of a flag, named by the rule that writes it; the
      title, description and source strings are given by the functions below. */
  datatype FlagCopy = RotationCopy | InflowCopy | ExploitCopy | SocialSpikeCopy
  {
    function Title(): string
    {
      match this
      case RotationCopy => "Altcoin Rotation Signal"
      case InflowCopy => "Institutional Inflow Surge"
      case ExploitCopy => "DeFi Bridge Exploit Detected"
      case SocialSpikeCopy => "Speculative Social Spike"
    }

    function Description(): string
    {
      match this
      case RotationCopy =>
        "BTC dominance dropped by >1% while stablecoin market cap remained steady, suggesting internal capital flow."
      case InflowCopy =>
        "Daily ETF net flows exceeded $300M, indicating sustained institutional demand."
      case ExploitCopy =>
        "Anomalous outbound transactions detected on a cross-chain bridge protocol."
      case SocialSpikeCopy =>
        "Meme coin social velocity is in the top 5th percentile, historical indicator of local tops."
    }

    function Source(): string
    {
      match this
      case RotationCopy => "On-chain Dominance Tracking"
      case InflowCopy => "SEC Filings / Bloomberg Terminals"
      case ExploitCopy => "Security Monitor Bot"
      case SocialSpikeCopy => "Social Intelligence Engine"
    }
  }

  /** A derived alert. `kind` is the signal's type; `copy` selects its title,
      description and source text; `timestamp` is the instant of detection, not
      the snapshot's date. */
  datatype SignalFlag = SignalFlag(
    id: string,
    kind: SignalType,
    severity: Severity,
    copy: FlagCopy,
    timestamp: int
  )
  {
    function Title(): string { copy.Title() }
    function Description(): string { copy.Description() }
    function Source(): string { copy.Source() }
  }

  /** True if some flag in `flags` has type `t`. */
  predicate HasType(flags: seq<SignalFlag>, t: SignalType)
  {
    exists i :: 0 <= i < |flags| && flags[i].kind == t
  }
}
