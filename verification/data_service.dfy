/** The data service: a mock generator for a week of market snapshots and the
    fixed rule table that turns the two most recent snapshots into signal flags.
    The ambient random source and clock of dataService.ts are explicit here: `rand`
    is the stream of draws in the order they are taken, `now` the current day. */
module DataService {
  import opened Types

  /** The number of daily snapshots the mock generator produces. */
  const MockDays: nat := 7

  /** Random draws consumed per snapshot, one per numeric field. */
  const DrawsPerSnapshot: nat := 8

  /** Random draws consumed by one call of the mock generator. */
  const MockDrawCount: nat := MockDays * DrawsPerSnapshot

  /** Every draw of the stream lies in [0, 1), as a platform random source promises. */
  ghost predicate UnitDraws(rand: nat -> real)
  {
    forall k: nat :: 0.0 <= rand(k) < 1.0
  }

  /** The range each field of a mock snapshot is drawn from. */
  predicate WithinMockRanges(m: MarketMetrics)
  {
    && 90000.0 <= m.btcPrice < 100000.0
    && 2500.0 <= m.ethPrice < 3000.0
    && 52.0 <= m.btcDominance < 57.0
    && 160.0 <= m.stablecoinCap < 170.0
    && 80.0 <= m.totalTvl < 100.0
    && 15.0 <= m.ethL2Volume < 20.0
    && -100.0 <= m.etfNetFlows < 400.0
    && 0.0 <= m.memeVelocity < 100.0
  }

  /** Snapshot `i` of a mock week: dated `6 - i` days before `now`, each field an
      affine image of its own draw, the draws taken in field order. */
  function MockSnapshot(now: int, rand: nat -> real, i: nat): MarketMetrics
  {
    var k := DrawsPerSnapshot * i;
    MarketMetrics(
      now - (6 - i),
      90000.0 + rand(k) * 10000.0,
      2500.0 + rand(k + 1) * 500.0,
      52.0 + rand(k + 2) * 5.0,
      160.0 + rand(k + 3) * 10.0,
      80.0 + rand(k + 4) * 20.0,
      15.0 + rand(k + 5) * 5.0,
      rand(k + 6) * 500.0 - 100.0,
      rand(k + 7) * 100.0
    )
  }

  /** A week of mock snapshots, oldest first, the last dated today. */
  function GenerateMockMetrics(now: int, rand: nat -> real): (r: seq<MarketMetrics>)
    ensures |r| == MockDays
    ensures r[|r| - 1].timestamp == now
    ensures forall i :: 0 < i < |r| ==> r[i].timestamp == r[i - 1].timestamp + 1
    ensures UnitDraws(rand) ==> forall i :: 0 <= i < |r| ==> WithinMockRanges(r[i])
  {
    seq(MockDays, i requires 0 <= i => MockSnapshot(now, rand, i))
  }

  /** Snapshot `i` depends only on its own eight draws. */
  lemma MockSnapshotUsesOwnDraws(now: int, rand: nat -> real, rand': nat -> real, i: nat)
    requires i < MockDays
    requires forall k: nat :: DrawsPerSnapshot * i <= k < DrawsPerSnapshot * (i + 1) ==> rand(k) == rand'(k)
    ensures GenerateMockMetrics(now, rand)[i] == GenerateMockMetrics(now, rand')[i]
  {
  }

  /** Which draw feeds which field of snapshot `i`: the eight draws are taken
      in field order (price, ETH price, dominance, stablecoin cap, TVL, L2
      volume, ETF flows, meme velocity). */
  lemma MockFieldsFromDraws(now: int, rand: nat -> real, i: nat)
    requires i < MockDays
    ensures var m, k := GenerateMockMetrics(now, rand)[i], DrawsPerSnapshot * i;
      && m.btcPrice == 90000.0 + rand(k) * 10000.0
      && m.ethPrice == 2500.0 + rand(k + 1) * 500.0
      && m.btcDominance == 52.0 + rand(k + 2) * 5.0
      && m.stablecoinCap == 160.0 + rand(k + 3) * 10.0
      && m.totalTvl == 80.0 + rand(k + 4) * 20.0
      && m.ethL2Volume == 15.0 + rand(k + 5) * 5.0
      && m.etfNetFlows == rand(k + 6) * 500.0 - 100.0
      && m.memeVelocity == rand(k + 7) * 100.0
  {
  }

  /** Position of a signal type in the rule table; 0 for a type no rule emits. */
  function RuleRank(t: SignalType): nat
  {
    match t
    case Rotation => 1
    case LiquidityShift => 2
    case RiskEvent => 3
    case SocialVelocity => 4
    case NarrativeEmergence => 0
  }

  /** The fixed id, severity and display text each emitted signal type carries. */
  predicate MatchesRuleTable(f: SignalFlag)
  {
    match f.kind
    case Rotation => f.id == "sig-1" && f.severity == Info && f.copy == RotationCopy
    case LiquidityShift => f.id == "sig-2" && f.severity == Info && f.copy == InflowCopy
    case RiskEvent => f.id == "sig-3" && f.severity == Warning && f.copy == ExploitCopy
    case SocialVelocity => f.id == "sig-4" && f.severity == Critical && f.copy == SocialSpikeCopy
    case NarrativeEmergence => false
  }

  /** Flags appear in strictly increasing rule order. */
  predicate InRuleOrder(flags: seq<SignalFlag>)
  {
    forall i, j :: 0 <= i < j < |flags| ==> RuleRank(flags[i].kind) < RuleRank(flags[j].kind)
  }

  /** One row of the rule table: the flag a rule emits and whether its condition holds. */
  datatype Rule = Rule(fires: bool, flag: SignalFlag)

  /** Some firing rule of `rules` emits a flag of type `t`. */
  predicate Fires(rules: seq<Rule>, t: SignalType)
  {
    exists k :: 0 <= k < |rules| && rules[k].fires && rules[k].flag.kind == t
  }

  /** `f` is the flag of some firing rule of `rules`. */
  predicate EmittedBy(rules: seq<Rule>, f: SignalFlag)
  {
    exists k :: 0 <= k < |rules| && rules[k].fires && rules[k].flag == f
  }

  /** The rows' flags have strictly increasing rule ranks. */
  predicate RanksIncrease(rules: seq<Rule>)
  {
    forall k, l :: 0 <= k < l < |rules| ==> RuleRank(rules[k].flag.kind) < RuleRank(rules[l].flag.kind)
  }

  /** The flags of the firing rules, in table order: one `push` per firing rule. */
  function Emitted(rules: seq<Rule>): (r: seq<SignalFlag>)
    ensures |r| <= |rules|
  {
    if |rules| == 0 then []
    else if rules[0].fires then [rules[0].flag] + Emitted(rules[1..])
    else Emitted(rules[1..])
  }

  /** Every emitted flag is the flag of some firing rule. */
  lemma {:induction false} EmittedFromFiringRules(rules: seq<Rule>)
    ensures forall i :: 0 <= i < |Emitted(rules)| ==> EmittedBy(rules, Emitted(rules)[i])
  {
    if |rules| > 0 {
      var r, rest := Emitted(rules), Emitted(rules[1..]);
      EmittedFromFiringRules(rules[1..]);
      forall i | 0 <= i < |r|
        ensures EmittedBy(rules, r[i])
      {
        if rules[0].fires && i == 0 {
          assert r[0] == rules[0].flag;
        } else {
          var j := if rules[0].fires then i - 1 else i;
          assert r[i] == rest[j];
          assert EmittedBy(rules[1..], rest[j]);
          var k :| 0 <= k < |rules[1..]| && rules[1..][k].fires && rules[1..][k].flag == rest[j];
          assert rules[k + 1] == rules[1..][k];
        }
      }
    }
  }

  /** A type is among the emitted flags exactly when some firing rule emits it. */
  lemma {:induction false} EmittedTypes(rules: seq<Rule>, t: SignalType)
    ensures HasType(Emitted(rules), t) <==> Fires(rules, t)
  {
    if |rules| > 0 {
      var r, rest := Emitted(rules), Emitted(rules[1..]);
      EmittedTypes(rules[1..], t);
      if HasType(r, t) {
        var i :| 0 <= i < |r| && r[i].kind == t;
        if rules[0].fires && i == 0 {
          assert rules[0].fires && rules[0].flag.kind == t;
        } else {
          var j := if rules[0].fires then i - 1 else i;
          assert rest[j] == r[i];
          assert HasType(rest, t);
          var k :| 0 <= k < |rules[1..]| && rules[1..][k].fires && rules[1..][k].flag.kind == t;
          assert rules[k + 1] == rules[1..][k];
        }
      }
      if Fires(rules, t) {
        var k :| 0 <= k < |rules| && rules[k].fires && rules[k].flag.kind == t;
        if k == 0 {
          assert r[0].kind == t;
        } else {
          assert rules[1..][k - 1] == rules[k];
          assert HasType(rest, t);
          var j :| 0 <= j < |rest| && rest[j].kind == t;
          var i := if rules[0].fires then j + 1 else j;
          assert r[i] == rest[j];
        }
      }
    }
  }

  /** A table whose ranks increase emits its flags in rule order. */
  lemma {:induction false} EmittedInRuleOrder(rules: seq<Rule>)
    requires RanksIncrease(rules)
    ensures InRuleOrder(Emitted(rules))
  {
    if |rules| > 0 {
      var r, rest := Emitted(rules), Emitted(rules[1..]);
      assert RanksIncrease(rules[1..]) by {
        forall k, l | 0 <= k < l < |rules[1..]|
          ensures RuleRank(rules[1..][k].flag.kind) < RuleRank(rules[1..][l].flag.kind)
        {
          assert rules[1..][k] == rules[k + 1] && rules[1..][l] == rules[l + 1];
        }
      }
      EmittedInRuleOrder(rules[1..]);
      if rules[0].fires {
        EmittedFromFiringRules(rules[1..]);
        forall i, j | 0 <= i < j < |r|
          ensures RuleRank(r[i].kind) < RuleRank(r[j].kind)
        {
          assert r[j] == rest[j - 1];
          if i == 0 {
            assert EmittedBy(rules[1..], rest[j - 1]);
            var k :| 0 <= k < |rules[1..]| && rules[1..][k].fires && rules[1..][k].flag == rest[j - 1];
            assert rules[1..][k] == rules[k + 1];
          } else {
            assert r[i] == rest[i - 1];
          }
        }
      }
    }
  }

  /** The flag of the capital-rotation rule. */
  function RotationFlag(detectedAt: int): SignalFlag
  {
    SignalFlag("sig-1", Rotation, Info, RotationCopy, detectedAt)
  }

  /** The flag of the ETF-flow rule. */
  function LiquidityFlag(detectedAt: int): SignalFlag
  {
    SignalFlag("sig-2", LiquidityShift, Info, InflowCopy, detectedAt)
  }

  /** The flag of the mock risk-event rule. */
  function RiskFlag(detectedAt: int): SignalFlag
  {
    SignalFlag("sig-3", RiskEvent, Warning, ExploitCopy, detectedAt)
  }

  /** The flag of the meme-velocity rule. */
  function SocialFlag(detectedAt: int): SignalFlag
  {
    SignalFlag("sig-4", SocialVelocity, Critical, SocialSpikeCopy, detectedAt)
  }

  /** Flags in rule order that each follow the rule table have distinct ids. */
  lemma RuleOrderedIdsDistinct(flags: seq<SignalFlag>)
    requires InRuleOrder(flags)
    requires forall i :: 0 <= i < |flags| ==> MatchesRuleTable(flags[i])
    ensures forall i, j :: 0 <= i < j < |flags| ==> flags[i].id != flags[j].id
  {
  }

  /** The rule table evaluated against `latest` and `previous`: capital rotation,
      ETF flows, the mock risk event and meme velocity, in that order. */
  function SignalRules(latest: MarketMetrics, previous: MarketMetrics, riskDraw: real, detectedAt: int): (rules: seq<Rule>)
    ensures |rules| == 4
    ensures RanksIncrease(rules)
    ensures forall k :: 0 <= k < |rules| ==>
              MatchesRuleTable(rules[k].flag) && rules[k].flag.timestamp == detectedAt
    ensures Fires(rules, Rotation) <==> latest.btcDominance < previous.btcDominance - 1.0
    ensures Fires(rules, LiquidityShift) <==> latest.etfNetFlows > 300.0
    ensures Fires(rules, RiskEvent) <==> riskDraw > 0.7
    ensures Fires(rules, SocialVelocity) <==> latest.memeVelocity > 80.0
    ensures !Fires(rules, NarrativeEmergence)
  {
    var rules := [
      Rule(latest.btcDominance < previous.btcDominance - 1.0, RotationFlag(detectedAt)),
      Rule(latest.etfNetFlows > 300.0, LiquidityFlag(detectedAt)),
      Rule(riskDraw > 0.7, RiskFlag(detectedAt)),
      Rule(latest.memeVelocity > 80.0, SocialFlag(detectedAt))
    ];
    assert forall k :: 0 <= k < |rules| ==> RuleRank(rules[k].flag.kind) == k + 1;
    assert Fires(rules, Rotation) <==> rules[0].fires;
    assert Fires(rules, LiquidityShift) <==> rules[1].fires;
    assert Fires(rules, RiskEvent) <==> rules[2].fires;
    assert Fires(rules, SocialVelocity) <==> rules[3].fires;
    rules
  }

  /** Runs the rule table against the last (`latest`) and second-to-last
      (`previous`) snapshots. `riskDraw` is the draw the risk rule consults and
      `detectedAt` the instant stamped on every flag. There is no guard for a
      shorter history: dataService.ts reads a missing snapshot and throws. */
  function DetectSignals(metrics: seq<MarketMetrics>, riskDraw: real, detectedAt: int): (r: seq<SignalFlag>)
    requires |metrics| >= 2
    ensures |r| <= 4
    ensures InRuleOrder(r)
    ensures forall i :: 0 <= i < |r| ==> MatchesRuleTable(r[i]) && r[i].timestamp == detectedAt
    ensures forall i, j :: 0 <= i < j < |r| ==> r[i].id != r[j].id
    ensures HasType(r, Rotation) <==>
              metrics[|metrics| - 1].btcDominance < metrics[|metrics| - 2].btcDominance - 1.0
    ensures HasType(r, LiquidityShift) <==> metrics[|metrics| - 1].etfNetFlows > 300.0
    ensures HasType(r, RiskEvent) <==> riskDraw > 0.7
    ensures HasType(r, SocialVelocity) <==> metrics[|metrics| - 1].memeVelocity > 80.0
    ensures !HasType(r, NarrativeEmergence)
  {
    var rules := SignalRules(metrics[|metrics| - 1], metrics[|metrics| - 2], riskDraw, detectedAt);
    var r := Emitted(rules);
    EmittedFromFiringRules(rules);
    EmittedInRuleOrder(rules);
    EmittedTypes(rules, Rotation);
    EmittedTypes(rules, LiquidityShift);
    EmittedTypes(rules, RiskEvent);
    EmittedTypes(rules, SocialVelocity);
    EmittedTypes(rules, NarrativeEmergence);
    assert forall i :: 0 <= i < |r| ==> MatchesRuleTable(r[i]) && r[i].timestamp == detectedAt by {
      forall i | 0 <= i < |r|
        ensures MatchesRuleTable(r[i]) && r[i].timestamp == detectedAt
      {
        assert EmittedBy(rules, r[i]);
      }
    }
    RuleOrderedIdsDistinct(r);
    r
  }

  /** Earlier history never matters: two histories that agree on their last two
      snapshots yield the same flags. */
  lemma DetectSignalsReadsLastTwo(a: seq<MarketMetrics>, b: seq<MarketMetrics>, riskDraw: real, detectedAt: int)
    requires |a| >= 2 && |b| >= 2
    requires a[|a| - 1] == b[|b| - 1] && a[|a| - 2] == b[|b| - 2]
    ensures DetectSignals(a, riskDraw, detectedAt) == DetectSignals(b, riskDraw, detectedAt)
  {
  }

  /** The risk rule ignores the metrics entirely. */
  lemma RiskEventIgnoresMetrics(a: seq<MarketMetrics>, b: seq<MarketMetrics>, riskDraw: real, detectedAt: int)
    requires |a| >= 2 && |b| >= 2
    ensures HasType(DetectSignals(a, riskDraw, detectedAt), RiskEvent)
        <==> HasType(DetectSignals(b, riskDraw, detectedAt), RiskEvent)
  {
  }
}
