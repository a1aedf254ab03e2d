# bittik dashboard core in Dafny

The bittik dashboard shows a week of mock crypto-market metrics. It derives
threshold "signal" flags from them and renders generated narrative text. This
project models the pure logic under that UI:

- **Signal detection** (`detectSignals`): a fixed table of four rules. The rules
  read only the last two `MarketMetrics` snapshots. They emit up to four
  `SignalFlag`s, always in the same order, each with a fixed id, type and severity.
- **Mock data generation** (`generateMockMetrics`): seven snapshots, one per
  day, ending today. Each field is an affine function of its own random draw.
- **One ingestion pass** (`runIngestion`, its synchronous part): generated
  metrics are passed straight to detection.
- **Content rendering** (the dashboard component): a generated body is split
  on line feeds. Each line is classified as bullet, heading or paragraph, and
  its display text is computed. The dashboard excerpt of a narrative is its
  first 180 code units followed by `...`.

Randomness and the clock are explicit parameters:

- `rand: nat -> real` is the stream of `Math.random()` draws, in the order the
  code takes them.
- `now`/`today` is the current day.
- `detectedAt` is the instant stamped on flags.

The four `if … push` blocks of `detectSignals` become a four-row rule table
(`DataService.SignalRules`). `DataService.Emitted` keeps the flags of the
firing rows in table order, as the successive pushes do.

Metric fields are exact `real`s. JavaScript strings are sequences of UTF-16
code units (`JsText.CodeUnit`), so `length`, `substring`, `startsWith` and
`split` count code units exactly as the browser does.

Files:

| file | module | models |
|---|---|---|
| `types.dfy` | `Types` | `types.ts`: `SignalType`, severities, `MarketMetrics`, `SignalFlag` |
| `data_service.dfy` | `DataService` | `services/dataService.ts` |
| `js_text.dfy` | `JsText` | the JavaScript string operations the component uses (`split`, `trim`, `substring`) |
| `app.dfy` | `App` | `App.tsx`: the ingestion call pattern, line classification, display text, excerpt |

## Model

| member | source | states |
|---|---|---|
| DataService.DetectSignals | services/dataService.ts:23-82 | At most four flags, in rule order, with distinct ids. Each flag carries the fixed table's id, severity and text, stamped with the detection instant. ROTATION is present iff the latest dominance is strictly below the previous one minus 1. LIQUIDITY_SHIFT is present iff the latest ETF flows exceed 300. RISK_EVENT is present iff the draw exceeds 0.7. SOCIAL_VELOCITY is present iff the latest meme velocity exceeds 80. NARRATIVE_EMERGENCE is never present. At least two snapshots are required. |
| DataService.SignalRules | services/dataService.ts:29-79 | The four rules in order (rotation, ETF flows, risk, meme velocity). Ranks increase, ids, severities and texts are fixed, and each rule fires exactly under its strict threshold. |
| DataService.Emitted | services/dataService.ts:27-81 | The successive pushes never yield more flags than there are rules. What they yield is stated by the three Emitted* lemmas below. |
| DataService.EmittedFromFiringRules | services/dataService.ts:27-81 | Every pushed flag belongs to a rule whose condition held. |
| DataService.EmittedTypes | services/dataService.ts:27-81 | A type is in the output iff some firing rule emits it (both directions). |
| DataService.EmittedInRuleOrder | services/dataService.ts:27-81 | Pushing in table order keeps flags in rule order. |
| DataService.RuleOrderedIdsDistinct | services/dataService.ts:31-73 | Flags that follow the id table and the rule order have pairwise distinct ids. |
| DataService.DetectSignalsReadsLastTwo | services/dataService.ts:24-25 | Two histories that share their last two snapshots give the same flags; earlier snapshots never matter. |
| DataService.RiskEventIgnoresMetrics | services/dataService.ts:56 | Whether RISK_EVENT fires does not depend on the metrics at all. |
| DataService.GenerateMockMetrics | services/dataService.ts:4-21 | Exactly seven snapshots. Each is dated one day after the previous one, and the last is dated today. When every draw lies in [0,1), each field lies in its range: price 90000..100000, ETH 2500..3000, dominance 52..57, stablecoin cap 160..170, TVL 80..100, L2 volume 15..20, ETF flows -100..400, meme velocity 0..100. Each range includes its lower bound and excludes its upper bound. |
| DataService.MockSnapshotUsesOwnDraws | services/dataService.ts:9-19 | Snapshot i is determined by draws 8i..8i+7 alone. |
| DataService.MockFieldsFromDraws | services/dataService.ts:11-18 | Draw 8i+j feeds the j-th numeric field of snapshot i, in field order, through that field's affine map (e.g. dominance = 52 + 5·draw(8i+2), ETF flows = 500·draw(8i+6) − 100). |
| App.RunIngestion | App.tsx:19-20 | The generator's output always meets detection's two-snapshot requirement. The detected flags are in rule order and follow the id/severity/text table. End to end, ROTATION fires iff draw 50 < draw 42 − 0.2. LIQUIDITY_SHIFT fires iff draw 54 > 0.8. SOCIAL_VELOCITY fires iff draw 55 > 0.8. RISK_EVENT fires iff draw 56 > 0.7. |
| JsText.Split | App.tsx:311 | `split('\n')` returns one more piece than there are line feeds, and no piece contains a line feed. |
| JsText.JoinSplit | App.tsx:311 | Joining the pieces with the separator gives back the body they were split from. |
| JsText.SplitJoin | App.tsx:311 | Splitting a join of separator-free pieces gives back the pieces. |
| JsText.Trim | App.tsx:317 | `trim()` returns the slice left after removing whitespace on both sides. The result neither starts nor ends with ECMAScript whitespace or a line terminator. |
| JsText.TrimIdempotent | App.tsx:317 | Trimming twice equals trimming once. |
| JsText.TrimSubset | App.tsx:317 | A trimmed string holds no code unit the untrimmed string lacks. |
| JsText.Prefix | App.tsx:193 | `substring(0, n)` keeps min(n, length) code units and is a prefix of the string. |
| App.Classify | App.tsx:312-316 | A line is a bullet iff it starts with `-`, with `•`, or with an ASCII digit followed by `.`. The bullet test comes before the length test. Any other line is a heading iff it is shorter than 50 code units, and a paragraph otherwise, so the empty line is a heading. |
| App.DisplayText | App.tsx:317 | A line starting with `-` or `•` is shown as the trim of the rest after its first code unit. Every other line is shown unchanged, numbered bullets included. |
| App.RenderBody | App.tsx:311-319 | One rendered element per line-feed-separated piece, so there are newline-count + 1 elements. Element i is piece i's class and display text, and no element's text contains a line feed. |
| App.Excerpt | App.tsx:193 | The first min(180, length) code units of the content followed by `...`. The result is at most 183 code units long and is exactly `content + "..."` when the content has at most 180 code units. |

## Left out

- DataService.DetectSignals: dataService.ts has no guard for fewer than two
  snapshots; it reads `metrics[metrics.length - 2]` (services/dataService.ts:24-25)
  and the field access at line 30 throws a TypeError. That failure is modelled as
  `requires |metrics| >= 2`. `App.RunIngestion`, the only caller, meets it
  because the generator always returns seven snapshots.

- Network calls to the generative-model service (`services/geminiService.ts`):
  foreign I/O whose JSON responses have no contract to check.
- Charts and metric cards (`components/MetricGraph.tsx`,
  `components/DetailedCharts.tsx`): rendering and locale-dependent number formatting.
- React state, hooks, the asynchronous remainder of `runIngestion`, view
  navigation and the CSS classes. Only the display category of a line is modelled.
- IEEE-754 rounding: metric fields are exact reals, so `previous.btcDominance - 1`
  and the affine draw maps are exact.
- Calendar arithmetic (`setDate`, `toISOString`): snapshot timestamps are
  integer day numbers, and flag timestamps are an integer instant parameter.
  dataService.ts takes a fresh `new Date()` for each flag; one instant stands
  for all of them.
- Flag display text: a `FlagCopy` tag stands for each flag's title,
  description and source. Its functions return the exact strings.
- The identity of the random source: draws are a stream parameter, and the
  risk rule's draw is a plain argument of `DataService.DetectSignals`.
