# Realm tool: a verified model of the scoring widget's state and logic

The realm tool is a single React component. It holds five brand-health scores:
R (rhythm), E (emotion), A (activation), L (literacy) and M (magnetism). Each
score is set by a slider in the range 0..100 and starts at 50. The component
can:

- save dated snapshots of the scores to a history, which is kept in browser
  storage under the key `realmHistory`;
- record "opportunity" ideas, each scored as impact×0.5 + novelty×0.3 +
  alignment×0.2 and listed best first;
- show one fixed advisory sentence for every dimension that scores below 40.

This project models that logic in Dafny and proves what the component does.

- `dimensions.dfy` (module `Dimensions`): the five dimensions and their key
  order R, E, A, L, M. A score set is a `map<Dim, Score>`, where `Score` is the
  slider range 0..100. `Complete` says all five keys are present.
- `recommendations.dfy` (module `Recommendations`): the filter-then-map over
  the score entries in key order. `Flagged` is the filter and `Advise` the map.
  The lemmas show the result has exactly one sentence per low dimension, none
  for the others, and keeps key order.
- `chart.dfy` (module `Chart`): the radar chart's input. It has one
  `{dimension, score}` point per key, and the chart shows every score exactly.
- `opportunities.dfy` (module `Opportunities`): the form (`Draft`), recorded
  opportunities, and the weighted score. The score is kept exactly as integer
  tenths, 5·impact + 3·novelty + 2·alignment, and proved equal to ten times the
  real-valued formula. It also holds the in-place descending sort used for
  display (`SortByScore`, an insertion sort on an `array`).
- `persistence.dfy` (module `Persistence`): snapshots and the key-value
  storage (class `LocalStorage`). A stored text is represented by what JSON
  parsing makes of it: a list of snapshots, or text that does not parse.
- `widget.dfy` (module `Widget`): the component as class `RealmTool`. Its
  fields are `scores`, `history`, `opportunities` and `draft`, plus the storage
  object. Each event is a method that modifies those fields. The object
  invariant `Valid` says three things:
  - the score object has its five keys;
  - storage holds exactly the current history;
  - every opportunity's score was computed from its own ratings.

Notes on the code as written:

- Loading does not fall back to an empty list on malformed text.
  `JSON.parse` throws on malformed text, and nothing catches the exception
  (src/RealmTool.jsx:12). `Mount` therefore returns `Crashed`. Only a missing
  key (and so `null`) falls back to `[]`.
- Mounting runs both effects. The history is read, and the storage write
  that follows leaves storage holding the loaded history under its key, with
  every other key as it was. In the component the first write stores the
  initial `[]` and the re-render then writes the loaded history. The model
  takes mounting as one step and keeps only the final state.
- The display sort at src/RealmTool.jsx:97 runs during rendering, and it sorts
  the state's own array. `SortForDisplay` models this: the component's list
  itself becomes sorted. A later `AddOpportunity` appends to that sorted list.
- The formula gives 6.0 for ratings 3/9/9 (`ScoreExamples`), so an 8/6/4
  idea (6.6) is listed before it (`SortExample`).
- The form has no control for impact, novelty or alignment, only for the idea
  text (src/RealmTool.jsx:93). In the running widget these ratings therefore
  stay at 5. The model still keeps them general.
- The `default: return null` branch of the switch cannot be reached, because
  the keys are always the five dimensions. `Advice` is total on `Dim`.

## Model

| member | source | states |
|---|---|---|
| Dimensions.InitialScores | src/RealmTool.jsx:5 | the initial score set has all five keys, each at 50 |
| Dimensions.OrderIsKeyOrder | src/RealmTool.jsx:5 | the key order R, E, A, L, M lists every dimension, each once, in rank order |
| Recommendations.AdviceInjective | src/RealmTool.jsx:41-48 | the switch gives different dimensions different sentences |
| Recommendations.Advise | src/RealmTool.jsx:38-40 | at most one sentence per listed dimension; every listed dimension below 40 has its sentence in the list, and every sentence is that of a listed dimension below 40 |
| Recommendations.Recommendations | src/RealmTool.jsx:38-49 | the list has exactly as many sentences as there are dimensions below 40, so at most five |
| Recommendations.Flagged | src/RealmTool.jsx:38-39 | the filtered entries are the listed dimensions scoring below 40, no more than the input, order-preserving |
| Recommendations.RecommendationsCover | src/RealmTool.jsx:38-49 | a dimension's sentence is in the list if and only if its score is below 40 |
| Recommendations.RecommendationsOnlyLow | src/RealmTool.jsx:38-49 | every sentence is the advice of some dimension below 40 |
| Recommendations.RecommendationsDistinct | src/RealmTool.jsx:38-49 | no sentence appears twice, so each low dimension gets exactly one |
| Recommendations.RecommendationsInKeyOrder | src/RealmTool.jsx:38-49 | for two low dimensions, the one earlier in key order has its sentence earlier in the list |
| Recommendations.RecommendationsExample | src/RealmTool.jsx:38-49 | scores R 30, E 50, A 50, L 35, M 80 give the rhythm sentence, then the literacy sentence |
| Chart.ChartData | src/RealmTool.jsx:51 | five points in key order, each carrying its dimension's score, all within the chart's 0..100 |
| Chart.ChartDataPlotsScores | src/RealmTool.jsx:51 | reading a dimension from the chart data gives back exactly its score |
| Opportunities.Tenths | src/RealmTool.jsx:32 | the integer tenths score equals ten times impact×0.5 + novelty×0.3 + alignment×0.2 in exact arithmetic |
| Opportunities.WithScore | src/RealmTool.jsx:33 | the recorded opportunity keeps the form's idea and three ratings, and its score is computed from them |
| Opportunities.ScoreExamples | src/RealmTool.jsx:32 | ratings 8/6/4 score 6.6 and 3/9/9 score 6.0 |
| Opportunities.SortByScore | src/RealmTool.jsx:97 | after the in-place sort the array is a permutation of its old contents, with scores non-increasing |
| Opportunities.SortExample | src/RealmTool.jsx:97 | any descending order of the 6.6 and 6.0 ideas lists the 6.6 idea first |
| Persistence.LocalStorage.SetItem | src/RealmTool.jsx:17 | writing a key replaces that key's value and leaves all other keys alone |
| Persistence.LoadHistory | src/RealmTool.jsx:12 | loading fails exactly when the stored text does not parse, with no silent fallback; an absent key yields the empty list; otherwise the stored list is returned as it is |
| Persistence.Persist | src/RealmTool.jsx:17 | the history key then holds the whole history `h`; the key set gains only that key, and every other key keeps its value |
| Persistence.LoadPersisted | src/RealmTool.jsx:17 | loading after the history was persisted yields exactly that history |
| Widget.RealmTool.constructor | src/RealmTool.jsx:5-8 | initial state: scores all 50, the loaded history, no opportunities, a blank form; storage holds the history |
| Widget.RealmTool.Mount | src/RealmTool.jsx:11-18 | the widget comes up exactly when the stored text loads, with that history, and storage then differs from before only in holding that history under its key; otherwise it crashes and storage is untouched |
| Widget.RealmTool.UpdateScore | src/RealmTool.jsx:21-23 | only the moved dimension changes; the key set and every other field stay the same, and storage is untouched |
| Widget.RealmTool.SaveSnapshot | src/RealmTool.jsx:26-28 | one snapshot of the current scores on the given date is appended, earlier entries are unchanged, and storage is overwritten with the whole new history |
| Widget.RealmTool.EditIdea | src/RealmTool.jsx:93 | only the form's idea text changes |
| Widget.RealmTool.AddOpportunity | src/RealmTool.jsx:31-35 | one opportunity is appended with the form's idea and ratings and score/10 = impact×0.5 + novelty×0.3 + alignment×0.2; earlier ones are unchanged and the form resets to "", 5, 5, 5 |
| Widget.RealmTool.SortForDisplay | src/RealmTool.jsx:97 | the component's own list becomes a permutation of itself, ordered non-increasing by score; nothing else changes |
| Widget.RealmTool.StoredIsHistory | src/RealmTool.jsx:16-18 | in every valid state, loading from storage gives back the whole current history |
| Widget.SnapshotSurvivesRestart | src/RealmTool.jsx:11-28 | after saving a snapshot, a fresh mount reads back the old history plus that snapshot |

## Left out

- Rendering is not modelled: the JSX layout, Tailwind classes and the recharts radar chart (src/RealmTool.jsx:53-113). They are presentation and a foreign library.
- Real `localStorage` and JSON text are not modelled. Storage is a map from keys to parsed values. Stored text that parses to something other than a list of snapshots is not represented: `null`, `false`, `0` or `""` would fall back to `[]`, and any other value would become the history as it is.
- The date string from `new Date().toLocaleDateString()` is a parameter of `SaveSnapshot`. It depends on the host clock and locale.
- Floating-point arithmetic in the score and the comparator is not modelled. Scores are exact integer tenths, so float effects are absent: rounding in impact×0.5 + novelty×0.3 + alignment×0.2 could make equal tenths compare unequal. The `toFixed(1)` display formatting is also left out.
- `Number(val)` coercion and NaN are not modelled. Slider values are integers within the input's bounds, 0..100.
- React's scheduling of effects and re-renders is not modelled. Each event is one atomic step. A mount that throws is assumed not to write storage.
- Opportunities.SortByScore: stability is not stated. The method is an insertion sort and keeps ties in order, but the contract promises only a non-increasing permutation.
- Widget.RealmTool.SortForDisplay: the in-place mutation is modelled on a fresh array copy that is written back to the state. The effect on the list is the same, but array identity and aliasing are not modelled.
