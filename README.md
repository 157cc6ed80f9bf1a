# sopare word-spotting core, modelled in Dafny

sopare recognises words that were learned from recordings. The feature
extractor (`Filtering` in `sopare/filter.py`) turns each audio chunk into
spectral features. It keeps a buffer that runs half a chunk out of phase, and
it decides whether a chunk starts a segment and so needs a Hann window. The
dictionary helpers (`sopare/util.py`) turn a training capture into a template
and weight the template's tokens. They also derive per-word statistics from
the dictionary (`compile_analysis`).

The matcher (`Analyze` in `sopare/analyze.py`) works in stages:

- `framing` picks promising start positions per word.
- `deep_inspection` lays every template of a word over the recording from a
  start.
- `deep_search` keeps the best comparison per list. The best comparisons claim
  the slots of a timeline with one slot per recorded token.
- `get_match` cuts the timeline into runs of one word.
- `validate_match_result` turns each run into at most one result.

The model is split into modules that follow the program:

| module | file | what it holds |
|---|---|---|
| `Basics` | `basics.dfy` | `Option`, sums of reals, Python's slicing, `count`, `min`, `max` |
| `Features` | `features.dfy` | `Characteristic`, `DictEntry`, the frame tags |
| `Sorting` | `sorting.dfy` | Python's stable `sorted()` on a tuple key |
| `Util` | `util.dfy` | `manhattan_distance`, `single_similarity`, `prepare_dict_model`, `add_weighting`, the filter of `delete_from_dict` |
| `DictAnalysis` | `dict_analysis.dfy` | `compile_analysis` |
| `Analyze` | `analyze.dfy` | the `[compare]` options, `row_validation`, `framing` |
| `DeepSearch` | `deep_search.dfy` | `deep_inspection`, `deep_search` |
| `Matching` | `matching.dfy` | `get_match`, `validate_match_result` |
| `Filter` | `filter.dfy` | `check_for_windowing`, `get_chunked_norm`, class `Filtering` with `n_shift` and the windowing branch of `filter` |

How the model represents the source:

- Python dictionaries whose iteration order matters become sequences in
  insertion order: `results` and `framing` in `framing`, and the dictionary's
  `dict` list.
- Each loop becomes a method proved against a function that specifies it.
  Lemmas about those functions state what the code promises.
- `Filtering` is a class, because `n_shift` and `filter` update its fields in
  place. `add_weighting` writes into the token list it is given, so it works
  on an `array`.
- Configuration values are parameters: the `Config` datatype for `[compare]`,
  and plain arguments for CHUNKS, HANNING and the progressive steps.
- `token_sim` is a function parameter (`tokenSim`), because its cosine
  similarity is floating-point work on numpy arrays.
- Floats are modelled as `real`. Python's `int()` on a float is written out
  as truncation toward zero (`Filter.Trunc`).

In several places the code does something its option names and comments do
not suggest. The model follows the code:

- `row_validation` zeroes a row whose length is *at most* MIN_START_TOKENS,
  not only a shorter one.
- `num_best_matches` is `min(1, NUMBER_OF_BEST_MATCHES)`, so at most one
  comparison per list survives, whatever the option says.
- The claim loop of `deep_search` counts every comparison it looks at, not
  only accepted ones. It stops after index `MAX_TOP_RESULTS + 1`.
- Under the strict length check, a run of the wrong length yields the result
  `''`; it is not dropped. `Matching.ExampleTooShort` shows `[A, A]` giving
  `['']` for a word whose templates are three tokens long.
- In `deep_inspection` the shifted similarity is computed and never used. The
  similarity that is summed is always the unshifted one
  (`DeepSearch.TokenScore`).
- `get_match` returns `[] * len(match_results)`, which is the empty list
  (`Matching.GetMatch`).

## Model

| member | source | states |
|---|---|---|
| Sorting.Sort | sopare/analyze.py:80 | `sorted()` by a key: the result is ordered by the key and is a permutation of the input |
| Sorting.SortMembers | sopare/analyze.py:80 | sorting keeps exactly the elements it was given |
| Sorting.SortStable | sopare/analyze.py:80 | the sort is stable: for every key, the elements with that key appear in the result in their input order, which decides which of two equal-score starts a full list keeps and which equal-key comparison claims a slot first (sopare/analyze.py:113-126) |
| Analyze.RowValidation | sopare/analyze.py:89-92 | same length; all zeros when `row[0] == 0` or `len(row) <= MIN_START_TOKENS`, otherwise the row unchanged |
| Analyze.RowValidationIdempotent | sopare/analyze.py:89-92 | validating a validated row changes nothing |
| Analyze.RejectedRowScoresZero | sopare/analyze.py:71-72 | a rejected row sums to 0 |
| Analyze.RowCandidatesMembers | sopare/analyze.py:70-74 | a start is a candidate of a word iff its row's score reaches MARGINAL_VALUE and it carries that score |
| Analyze.CandidatesMembers | sopare/analyze.py:68-78 | a start is in `arr` iff it is a qualifying row of one of the words, carrying that row's score |
| Analyze.CollectCandidates | sopare/analyze.py:68-78 | the first loop of framing builds exactly the candidate list; a word without rows contributes nothing and is never looked up in the statistics |
| Analyze.CollectRows | sopare/analyze.py:70-78 | the loop over one word's rows appends exactly the qualifying rows, in row order, each with its score |
| Analyze.Distribute | sopare/analyze.py:80-85 | the lists handed out from the sorted candidates have no repeated position, respect the cap, hold only qualifying positions in non-increasing score order, and every candidate is placed or was turned away by a full list of starts that score at least as well |
| Analyze.LeftOut | sopare/analyze.py:82-85 | a qualifying position missing from its word's list was left out only because that list is full of starts that score at least as well |
| Analyze.Framing | sopare/analyze.py:64-87 | one list per word, in order; positions distinct, at most MAX_WORD_START_RESULTS when positive, none when negative; only positions with `row_result >= MARGINAL_VALUE`; non-increasing score; a qualifying position is missing only from a full list of better-or-equal starts |
| DeepSearch.TokenScore | sopare/analyze.py:156-169 | the similarity is always the unshifted one; with a shift variant each distance is the smaller of the two |
| DeepSearch.Compared | sopare/analyze.py:152-170 | the number of compared tokens is `min(len(template), len(data) - startpos)`, 0 past the end, and never reaches beyond the recording |
| DeepSearch.InspectEntry | sopare/analyze.py:150-181 | the comparison records the word, the start and `c` compared tokens, and stays inside the recording |
| DeepSearch.InspectTemplate | sopare/analyze.py:150-181 | the token loop computes exactly the comparison InspectEntry describes, dividing only when `c > 0` |
| DeepSearch.TotalsBounds | sopare/analyze.py:167-170 | with token similarities in [0, 1] and non-negative distances, the sums over n tokens lie in [0, n] and are non-negative |
| DeepSearch.InspectEntryBounds | sopare/analyze.py:172-180 | the averaged similarity lies in [0, 1] when every token similarity does, so the "> 1.0" warning needs a token_sim outside [0, 1] |
| DeepSearch.InspectAllMembers | sopare/analyze.py:147-188 | a comparison is in `word_sim` iff it is that of a template of the word whose compared count passes the length rule |
| DeepSearch.InspectAllInBounds | sopare/analyze.py:150-187 | every comparison in `word_sim` is of the word, starts at the start and stays inside the recording |
| DeepSearch.DeepInspection | sopare/analyze.py:145-188 | the loop over the dictionary builds exactly the `word_sim` list |
| DeepSearch.NumBestMatches | sopare/analyze.py:100-101 | `num_best_matches` is never more than 1 |
| DeepSearch.Take | sopare/analyze.py:114-116 | the first `num` elements, none for `num <= 0`, all when the list is shorter |
| DeepSearch.TakeFirst | sopare/analyze.py:114-116 | the `range(0, num)` loop appends exactly the first `num` elements |
| DeepSearch.BestOfList | sopare/analyze.py:112-116 | with num 1, a list contributes one of its comparisons, and no comparison of the list has a smaller key |
| DeepSearch.BestMatchesLength | sopare/analyze.py:111-116 | at most one comparison per list survives, and none when `num <= 0` |
| DeepSearch.CollectWordMatches | sopare/analyze.py:105-108 | the loop over one word's starts keeps exactly the non-empty `word_sim` lists |
| DeepSearch.CollectMatches | sopare/analyze.py:104-108 | the loop over the words builds exactly `framing_match`; a word without starts adds nothing and is never looked up in the statistics |
| DeepSearch.FramingStats | sopare/analyze.py:47-54 | every list of starts that `framing` returns is accepted by `deep_search`: a word gets a start only from one of its rows, and a word with rows has statistics |
| DeepSearch.NoStartsNoLookup | sopare/analyze.py:104-106 | a word without starts contributes no list and needs no statistics |
| DeepSearch.CollectBest | sopare/analyze.py:111-116 | the loop builds exactly `best_match` from each sorted list |
| DeepSearch.MatchesInBounds | sopare/analyze.py:104-108 | every comparison of `framing_match` covers only slots of the timeline |
| DeepSearch.WordMatchesInBounds | sopare/analyze.py:105-108 | every comparison of one word's lists covers only slots of the timeline |
| DeepSearch.BestInBounds | sopare/analyze.py:111-124 | the best matches cover only slots of the timeline, so `match_results[x]` is always in range |
| DeepSearch.Processed | sopare/analyze.py:127-128 | the claim loop looks at every comparison, or at the first `MAX_TOP_RESULTS + 2` when the option is positive |
| DeepSearch.ClaimFirst | sopare/analyze.py:120-126 | a filled slot holds the word of the first writing comparison that covers it; an empty slot is covered by no writing comparison with a non-empty word |
| DeepSearch.ClaimStable | sopare/analyze.py:124-126 | a filled slot is never overwritten by later comparisons |
| DeepSearch.ClaimOne | sopare/analyze.py:121-126 | one pass of the claim loop fills only the empty slots the writing comparison covers, with its word |
| DeepSearch.ClaimSlots | sopare/analyze.py:120-128 | the claim loop leaves each slot holding what the comparisons it looked at claimed |
| DeepSearch.Search | sopare/analyze.py:94-131 | statistics are needed only for words with a start; the timeline has `len(data)` slots, and slot x holds the word of the first writing comparison, among the sorted best matches the loop looks at, that covers x |
| Matching.RunStart | sopare/analyze.py:195-202 | the last run of a timeline starts at a boundary, and the timeline holds one word from there on |
| Matching.RunStartUnique | sopare/analyze.py:195-202 | that boundary is the only one after which the timeline holds one word |
| Matching.Runs | sopare/analyze.py:195-202 | every run is non-empty and holds one word of the timeline |
| Matching.RunsFlatten | sopare/analyze.py:195-202 | the runs joined together give back the timeline |
| Matching.RunsDiffer | sopare/analyze.py:195-202 | adjacent runs hold different words, so runs are maximal |
| Matching.ValidateMatchResult | sopare/analyze.py:213-231 | appends at most one element; nothing iff the run is empty or silent; without the strict check the run's word; with it `''` iff the run's length is outside `[min_tokens - undermining, max_tokens]` |
| Matching.MatchesSplit | sopare/analyze.py:195-202 | closing the last run at a boundary adds its result after the earlier runs' results |
| Matching.MatchesLength | sopare/analyze.py:190-211 | there are no more results than runs |
| Matching.MatchesWords | sopare/analyze.py:190-231 | without the strict check, a word is a result iff it claimed some slot |
| Matching.TrailingSilence | sopare/analyze.py:190-211 | an empty slot at the end changes no result |
| Matching.LeadingSilence | sopare/analyze.py:190-211 | an empty slot at the start changes no result |
| Matching.ExampleOneRun | sopare/analyze.py:190-231 | a run as long as the word's templates yields the word |
| Matching.ExampleTooShort | sopare/analyze.py:220-228 | under the strict check a run that is too short yields `''` |
| Matching.ExampleTwoWords | sopare/analyze.py:190-231 | two runs yield two results, in order |
| Matching.ExampleRunThenSilence | sopare/analyze.py:190-231 | a run followed by silence yields the run's word |
| Matching.ExampleGap | sopare/analyze.py:190-231 | a gap splits two runs of one word into two results |
| Matching.ScanSlot | sopare/analyze.py:195-202 | one pass of the loop either continues the current run or validates it and starts a new one at a boundary; after the last slot every run has been validated |
| Matching.GetMatch | sopare/analyze.py:190-211 | the result is `[]` when `count('') > len * FILL_RESULT_PERCENTAGE`, otherwise the run-by-run results of the timeline |
| Util.AbsDiffSum | sopare/util.py:235 | the zipped sum of absolute differences is non-negative |
| Util.AbsDiffSumSymmetric | sopare/util.py:235-236 | the sum of absolute differences does not depend on the order of the two lists |
| Util.AbsDiffSumSelf | sopare/util.py:235-236 | a list has distance 0 to itself |
| Util.AbsDiffSumSplit | sopare/util.py:235-236 | splitting two equally long lists at one index splits their distance |
| Util.ManhattanDistance | sopare/util.py:233-237 | both halves of the distance are non-negative |
| Util.ManhattanDistanceSymmetric | sopare/util.py:233-237 | the distance is symmetric |
| Util.ManhattanDistanceSelf | sopare/util.py:233-237 | the distance of a vector to itself is `(0, 0)` |
| Util.ManhattanDistanceHalves | sopare/util.py:233-237 | for equally long vectors the halves add up to the whole Manhattan distance |
| Util.SingleSimilarity | sopare/util.py:264-271 | 1 when both are 0, 0 when exactly one is, otherwise the smaller over the larger; in (0, 1] for positive inputs; 1 on equal inputs |
| Util.SingleSimilaritySymmetric | sopare/util.py:264-271 | the ratio is symmetric |
| Util.FirstStart | sopare/util.py:136-142 | the index of the first 'start analysis' tag, or the number of tags |
| Util.ThroughStart | sopare/util.py:136-142 | the scanned tags are a prefix that ends at the first 'start analysis', or all tags when there is none |
| Util.Copies | sopare/util.py:136-142 | a frame is appended once per scanned tag other than 'stop'; never for all-'stop' tags; exactly once when the first tag is 'start analysis' |
| Util.ThroughStartAt | sopare/util.py:141-142 | scanning stops right after the first 'start analysis', or at the end |
| Util.AppendFrameTokens | sopare/util.py:136-142 | the tag loop appends exactly the frame's copies |
| Util.ModelTokensFromFrames | sopare/util.py:134-140 | every token comes from a frame that has a characteristic |
| Util.PrepareDictModel | sopare/util.py:132-143 | the token list is every frame's contribution in frame order, and holds only non-None characteristics |
| Util.High | sopare/util.py:197-201 | the running maximum is at least every token's peak energy, and is 0 or one of them |
| Util.MaxPeakScore | sopare/util.py:197-201 | the first loop computes exactly that maximum |
| Util.WeightingBounds | sopare/util.py:196-203 | the heaviest token weighs exactly 1, none weighs more, and with non-negative energies all weightings lie in [0, 1] |
| Util.SetWeightings | sopare/util.py:202-203 | the second loop sets every token's weighting to its energy over `high` and changes nothing else |
| Util.AddWeighting | sopare/util.py:196-203 | every token's weighting becomes its energy over the largest; when that largest is not positive the division fails and nothing is written |
| Util.WithoutKeepsOthers | sopare/util.py:210-212 | an entry survives iff its id differs, and as often as it occurs |
| Util.DeleteFromDict | sopare/util.py:205-213 | `'*'` keeps nothing; any other id keeps exactly the other entries, in order |
| DictAnalysis.SortInts | sopare/util.py:89 | `sorted()` on integers: ordered and a permutation |
| DictAnalysis.InsertKeepsIncreasing | sopare/util.py:95-98 | appending a new value and sorting keeps the list strictly increasing, with that value added |
| DictAnalysis.AddMissing | sopare/util.py:86-88 | the loop adds exactly the missing values, keeping the old list as a prefix |
| DictAnalysis.CountsAt | sopare/util.py:76-81 | `cp[i]` stays a non-empty list without repeats of exactly the peak counts seen at position i |
| DictAnalysis.PeaksAt | sopare/util.py:83-90 | `peaks[i]` holds exactly the peak indices seen at position i |
| DictAnalysis.FrequenciesAt | sopare/util.py:92-98 | `df[i]` stays strictly increasing and holds exactly the dominant frequencies seen at position i |
| DictAnalysis.AbsorbEntry | sopare/util.py:62-98 | folding one entry into a word's statistics keeps them a summary of the word's entries, the new one included |
| DictAnalysis.CollectEntry | sopare/util.py:56-98 | one pass of the entry loop creates the word's record if new and keeps every record a summary of the entries read |
| DictAnalysis.CollectStats | sopare/util.py:56-98 | after the entry loop there is a record exactly for every word, summarising that word's entries |
| DictAnalysis.Finalise | sopare/util.py:101-114 | `minp`/`maxp` are the min and max of each `peaks[i]` (0 when empty), `mincp`/`maxcp` those of each `cp[i]`; nothing else changes |
| DictAnalysis.FinaliseAll | sopare/util.py:100-114 | the loop over the words finalises every record and changes nothing else |
| DictAnalysis.CountsNonEmpty | sopare/util.py:112-114 | every `cp[i]` is non-empty, so `min` and `max` are defined on it |
| DictAnalysis.MinAtMostMax | sopare/util.py:68-73 | `min_tokens <= max_tokens` |
| DictAnalysis.CompileAnalysis | sopare/util.py:54-115 | one record per word of the dictionary: `max_tokens` is the longest entry; `min_tokens` is the shortest when no entry is empty; `df`/`cp`/`peaks` have one list per position up to `max_tokens`, holding exactly the values seen there (`df` sorted without repeats, `cp` without repeats); minima and maxima as Finalise states |
| Filter.CheckForWindowing | sopare/filter.py:46-51 | true iff some tag is 'start analysis' or 'silence' |
| Filter.Placeholder | sopare/filter.py:82 | the list `[0 .. n-1]` |
| Filter.NShiftStep | sopare/filter.py:77-92 | the counter restarts from 0 when `first` is set and grows by exactly 1; `last_data` becomes the chunk; from counter 0 the buffer is the placeholder plus the chunk's second half |
| Filter.Replay | sopare/filter.py:77-92 | after k full chunks the counter is k, `last_data` is chunk k-1 and the buffer holds CHUNKS values |
| Filter.ShiftStraddles | test/test_filter.py:28-37 | from the second chunk on, the buffer is the window of the stream that straddles the start x of the current chunk: `stream[x - (CHUNKS - CHUNKS//2) : x + CHUNKS//2]` |
| Filter.ShiftSecond | sopare/filter.py:84-86 | the second call drops the placeholder half of the seeded buffer |
| Filter.ShiftLater | sopare/filter.py:87-89 | later calls join the previous chunk's second half and the current chunk's first half |
| Filter.ChunkHalves | test/test_filter.py:29-30 | the two halves of the i-th chunk are the stream's slices `[i*CHUNKS, i*CHUNKS + CHUNKS//2)` and `[i*CHUNKS + CHUNKS//2, (i+1)*CHUNKS)` |
| Filter.Trunc | sopare/filter.py:63 | `int()` on a float truncates toward zero |
| Filter.Advance | sopare/filter.py:61-65 | past START_PROGRESSIVE_FACTOR the factor grows by itself times the factor and the width grows by its truncation, capped at MAX_PROGRESSIVE_STEP; otherwise nothing changes |
| Filter.FixedWidth | sopare/filter.py:56-66 | without START_PROGRESSIVE_FACTOR every slice has width MIN_PROGRESSIVE_STEP |
| Filter.WidthCapped | sopare/filter.py:61-65 | once the progression has run, no slice is wider than MAX_PROGRESSIVE_STEP |
| Filter.ChunkedNorm | sopare/filter.py:53-68 | `ceil(size / MIN_PROGRESSIVE_STEP)` sums for a positive step and none for a negative one; sum i covers the slice from bin `i * step` of the width reached in that iteration; without START_PROGRESSIVE_FACTOR the sums add up to the total of the spectrum |
| Filter.Filtering.constructor | sopare/filter.py:25-34 | `first` is set, the buffer is empty, there is no previous chunk and the counter is 0 |
| Filter.Filtering.NShift | sopare/filter.py:77-92 | the fields become NShiftStep of the old state and the chunk; `first` is unchanged |
| Filter.Filtering.Filter | sopare/filter.py:94-119 | the windowed branch is taken iff `first`, HANNING and a full chunk; the call raises iff the chunk, or a shift buffer of at least CHUNKS values, makes its transform raise (TransformRaises), and a raise leaves `first` as it was; otherwise the shift buffer is transformed iff it holds CHUNKS values, the plain branch sets `first` to CheckForWindowing(meta), and the windowed branch clears `first` only when the buffer was transformed |
| Filter.FullChunksNeverRaise | sopare/filter.py:101-119 | in a stream of full chunks with CHUNKS even or 1, neither the chunk nor the shift buffer makes a transform raise |
| Filter.OddChunksRaise | sopare/filter.py:108-113 | with an odd CHUNKS of at least 3, the windowed branch raises on every full chunk |

## Left out

- The FFT, the Hann window, the `log10`/`tanh` compression and `normalize` in `filter` are floating-point numerics. The model reports which transform `filter` would apply, not its result. The experimental FFT_SHIFT block (`sopare/filter.py:140-163`) and the HIGH_FREQ/LOW_FREQ masking after the branch are not modelled either, nor are the raises they can add after the branch (an empty slice for `amax`, for one).
- The feature builder (`sopare.characteristics`) is not part of this model; characteristics arrive as values.
- `token_sim` and `util.similarity` (cosine similarity over numpy arrays, with an object-identity cache) are a function parameter. The model proves nothing about the similarity values except in `DeepSearch.TotalsBounds`/`InspectEntryBounds`, which assume them in [0, 1].
- Logging, `debug_info`, the plugins, the short-term memory (`stm`), the worker queue, `stop`/`reset` and the dictionary file I/O (`get_dict`, `write_dict`, `add2dict`, `get_compiled_dict`) are left out. `delete_from_dict` is modelled as the filter it applies between reading and writing the dictionary.
- The "> 1.0" warning of `deep_inspection` only logs; `DeepSearch.InspectEntryBounds` states when it cannot fire.
- The "characteristic is < 2" message of `compile_analysis` only prints and is left out.
- DictAnalysis.CompileAnalysis: the first entry of a word stores its own `peaks` list in the statistics, and later entries append to it. That also changes the first entry's token in the dictionary. The model copies values, so this aliasing is not captured.
- DictAnalysis.PeaksAt: the list first stored for a position is the token's own list, unsorted and possibly with repeats. The model states only which values it holds, not its order.
- Analyze.Framing: for a word that has rows, the source raises when the word has no statistics (`KeyError`), its `min_tokens` is 0 (division by zero) or one of its rows is empty (`row[0]`). The model requires these away (`ValidResults`). A word without rows needs no statistics, as in the source.
- Util.AddWeighting: when every peak energy is 0 the first division is by zero. If the energies are Python numbers this raises; if `sopare.characteristics` (not part of this model) yields numpy values, numpy gives inf or nan with a warning and the loop goes on. The model follows the raising case: it returns `ok = false` and writes nothing. The numpy case, which would store inf or nan weightings, is not modelled.
- DeepSearch.Search: for a framing word that has a start the model requires statistics (`StatsForStarts`). `deep_inspection` reads them only for a dictionary entry of that word, and only when the non-strict length test fails or the averaged similarity exceeds 1.0, so the source accepts a few more inputs (a word without templates, for one). `framing` never produces such a word (`DeepSearch.FramingStats`).
- DeepSearch.FramingMatch: requires `StatsForStarts` as DeepSearch.Search does, for the same reason.
- DeepSearch.CollectMatches: requires `StatsForStarts` as DeepSearch.Search does, for the same reason.
- DeepSearch.SortedBest: requires `StatsForStarts` as DeepSearch.Search does, for the same reason.
- DeepSearch.MatchesInBounds: requires `StatsForStarts` as DeepSearch.Search does, for the same reason.
- Matching.GetMatch: with the strict length check the source looks up each run's word in the statistics. The model requires every word on the timeline to have statistics (`Known`) rather than modelling the `KeyError`.
- Filter.ChunkedNorm: a MIN_PROGRESSIVE_STEP of 0 makes `range` raise; the model requires a non-zero step. The result count is stated as the ceiling characterisation `|r| * step >= size > (|r| - 1) * step`.
- Filter.ShiftStraddles: the test states the window as `stream[x - CHUNKS//2 : x + CHUNKS//2]`. The code gives `stream[x - (CHUNKS - CHUNKS//2) : x + CHUNKS//2]`, which is the same window for even CHUNKS and one value longer for odd CHUNKS.
- Python dictionary semantics beyond insertion order (hashing, key identity) are not modelled.
