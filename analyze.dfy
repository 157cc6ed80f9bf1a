/** The first stage of the matcher in sopare/analyze.py: the [compare]
    configuration it reads, the validation of a row of token similarities,
    and `framing`, which picks for every learned word the most promising
    start positions in the recording. */
module Analyze {
  import opened Basics
  import Sorting
  import DictAnalysis

  /** The options of the [compare] section that the matcher reads. An absent
      NUMBER_OF_BEST_MATCHES is `None`. */
  datatype Config = Config(
    marginalValue: real,
    minStartTokens: int,
    maxWordStartResults: int,
    minCrossSimilarity: real,
    minLeftDistance: real,
    minRightDistance: real,
    numberOfBestMatches: Option<int>,
    maxTopResults: int,
    strictLengthCheck: bool,
    strictLengthUndermining: int,
    fillResultPercentage: real)

  /** The rows of similarity values computed for one word: row i holds the
      similarities obtained when the word is laid over the recording from
      token i on. */
  datatype IdRows = IdRows(id: string, rows: seq<seq<real>>)

  /** A candidate start: its score, the start position and the word. */
  datatype Start = Start(score: real, pos: nat, id: string)

  /** The start positions chosen for one word. */
  datatype StartList = StartList(id: string, starts: seq<nat>)

  /** row_validation: a row whose first value is 0, or that is not longer
      than MIN_START_TOKENS, counts as all zeros. */
  function RowValidation(row: seq<real>, minStartTokens: int): (r: seq<real>)
    requires |row| > 0
    ensures |r| == |row|
    ensures row[0] == 0.0 || |row| <= minStartTokens ==> forall i :: 0 <= i < |r| ==> r[i] == 0.0
    ensures row[0] != 0.0 && |row| > minStartTokens ==> r == row
  {
    if row[0] == 0.0 || |row| <= minStartTokens then Zeros(|row|) else row
  }

  /** Validating a row twice changes nothing more. */
  lemma RowValidationIdempotent(row: seq<real>, minStartTokens: int)
    requires |row| > 0
    ensures RowValidation(RowValidation(row, minStartTokens), minStartTokens) == RowValidation(row, minStartTokens)
  {
  }

  /** A rejected row scores 0. */
  lemma RejectedRowScoresZero(row: seq<real>, minStartTokens: int)
    requires |row| > 0
    requires row[0] == 0.0 || |row| <= minStartTokens
    ensures Sum(RowValidation(row, minStartTokens)) == 0.0
  {
    SumZeros(|row|);
  }

  // ---------------------------------------------------------------------------
  // framing

  /** What framing requires of its inputs: `results` is a dictionary (one
      entry per word), every row is non-empty (row_validation reads row[0]),
      and every word that has rows has statistics with a non-zero minimum
      token count (the score of a row divides by it). A word without rows is
      never looked up. */
  predicate ValidResults(results: seq<IdRows>, analysis: map<string, DictAnalysis.Stats>)
  {
    && (forall a, b :: 0 <= a < b < |results| ==> results[a].id != results[b].id)
    && (forall k :: 0 <= k < |results| && |results[k].rows| > 0 ==>
          results[k].id in analysis && analysis[results[k].id].minTokens > 0)
    && (forall k, i :: 0 <= k < |results| && 0 <= i < |results[k].rows| ==> |results[k].rows[i]| > 0)
  }

  /** A word without rows needs no statistics. */
  lemma NoRowsNoStats(id: string)
    ensures ValidResults([IdRows(id, [])], map[])
  {
  }

  /** The score of the start at row `pos`: the sum of the validated row
      divided by the word's minimum token count. */
  function Score(row: seq<real>, minTokens: nat, cfg: Config): real
    requires |row| > 0 && minTokens > 0
  {
    Sum(RowValidation(row, cfg.minStartTokens)) / (minTokens as real)
  }

  /** Position `pos` of word k scores at least MARGINAL_VALUE. */
  predicate Qualifies(results: seq<IdRows>, analysis: map<string, DictAnalysis.Stats>, cfg: Config, k: nat, pos: int)
    requires ValidResults(results, analysis) && k < |results|
  {
    0 <= pos < |results[k].rows| && ScoreAt(results, analysis, cfg, k, pos) >= cfg.marginalValue
  }

  /** The score of row `pos` of word k (0 past the last row). */
  function ScoreAt(results: seq<IdRows>, analysis: map<string, DictAnalysis.Stats>, cfg: Config, k: nat, pos: int): real
    requires ValidResults(results, analysis) && k < |results|
  {
    if 0 <= pos < |results[k].rows| then Score(results[k].rows[pos], analysis[results[k].id].minTokens, cfg) else 0.0
  }

  /** The candidates of one word, in row order. */
  function RowCandidates(id: string, rows: seq<seq<real>>, minTokens: nat, cfg: Config): seq<Start>
    requires minTokens > 0 && forall i :: 0 <= i < |rows| ==> |rows[i]| > 0
  {
    if rows == [] then []
    else
      var n := |rows| - 1;
      var score := Score(rows[n], minTokens, cfg);
      RowCandidates(id, rows[..n], minTokens, cfg) + (if score >= cfg.marginalValue then [Start(score, n, id)] else [])
  }

  /** The list `arr` of the first loop of framing: the candidates of every
      word, word by word. */
  function Candidates(results: seq<IdRows>, analysis: map<string, DictAnalysis.Stats>, cfg: Config): seq<Start>
    requires ValidResults(results, analysis)
  {
    if results == [] then []
    else
      var n := |results| - 1;
      assert ValidResults(results[..n], analysis) by {
        assert forall k :: 0 <= k < n ==> results[..n][k] == results[k];
      }
      Candidates(results[..n], analysis, cfg) + WordCandidates(results[n], analysis, cfg)
  }

  /** A word with rows has statistics with a non-zero minimum token count. */
  predicate HasStats(r: IdRows, analysis: map<string, DictAnalysis.Stats>)
  {
    |r.rows| > 0 ==> r.id in analysis && analysis[r.id].minTokens > 0
  }

  /** The candidates of one entry of `results`; a word without rows has none
      and needs no statistics. */
  function WordCandidates(r: IdRows, analysis: map<string, DictAnalysis.Stats>, cfg: Config): seq<Start>
    requires HasStats(r, analysis) && forall i :: 0 <= i < |r.rows| ==> |r.rows[i]| > 0
  {
    if r.rows == [] then [] else RowCandidates(r.id, r.rows, analysis[r.id].minTokens, cfg)
  }

  /** `c` is a qualifying row of word `r`, carrying that row's score. */
  predicate InWord(r: IdRows, analysis: map<string, DictAnalysis.Stats>, cfg: Config, c: Start)
    requires HasStats(r, analysis) && forall i :: 0 <= i < |r.rows| ==> |r.rows[i]| > 0
  {
    r.rows != [] && InRows(r.id, r.rows, analysis[r.id].minTokens, cfg, c)
  }

  /** Row `c.pos` of word `id` qualifies and `c` carries its score. */
  predicate InRows(id: string, rows: seq<seq<real>>, minTokens: nat, cfg: Config, c: Start)
    requires minTokens > 0 && forall i :: 0 <= i < |rows| ==> |rows[i]| > 0
  {
    c.id == id && c.pos < |rows| && c.score == Score(rows[c.pos], minTokens, cfg) && c.score >= cfg.marginalValue
  }

  lemma {:induction false} RowCandidatesMembers(id: string, rows: seq<seq<real>>, minTokens: nat, cfg: Config, c: Start)
    requires minTokens > 0 && forall i :: 0 <= i < |rows| ==> |rows[i]| > 0
    ensures c in RowCandidates(id, rows, minTokens, cfg) <==> InRows(id, rows, minTokens, cfg, c)
  {
    if rows != [] {
      var n := |rows| - 1;
      RowCandidatesMembers(id, rows[..n], minTokens, cfg, c);
      if c.pos < n {
        assert rows[..n][c.pos] == rows[c.pos];
      }
    }
  }

  /** A start is a candidate exactly when it is a qualifying row of one of
      the words, carrying that row's score. */
  lemma {:induction false} CandidatesMembers(results: seq<IdRows>, analysis: map<string, DictAnalysis.Stats>, cfg: Config, c: Start)
    requires ValidResults(results, analysis)
    ensures c in Candidates(results, analysis, cfg) <==> IsCandidate(results, analysis, cfg, c)
  {
    if results != [] {
      var n := |results| - 1;
      CandidatesLast(results, analysis, cfg);
      CandidatesMembers(results[..n], analysis, cfg, c);
      WordCandidatesMembers(results[n], analysis, cfg, c);
      SplitCandidate(results, analysis, cfg, c);
    }
  }

  /** The candidates of one word are its qualifying rows. */
  lemma WordCandidatesMembers(r: IdRows, analysis: map<string, DictAnalysis.Stats>, cfg: Config, c: Start)
    requires HasStats(r, analysis) && forall i :: 0 <= i < |r.rows| ==> |r.rows[i]| > 0
    ensures c in WordCandidates(r, analysis, cfg) <==> InWord(r, analysis, cfg, c)
  {
    if r.rows != [] {
      RowCandidatesMembers(r.id, r.rows, analysis[r.id].minTokens, cfg, c);
    }
  }

  /** The candidates of all words are those of the words before the last,
      then those of the last. */
  lemma CandidatesLast(results: seq<IdRows>, analysis: map<string, DictAnalysis.Stats>, cfg: Config)
    requires ValidResults(results, analysis) && results != []
    ensures ValidResults(results[..|results| - 1], analysis)
    ensures Candidates(results, analysis, cfg)
      == Candidates(results[..|results| - 1], analysis, cfg) + WordCandidates(results[|results| - 1], analysis, cfg)
  {
    ValidPrefix(results, analysis);
  }

  /** Taking one more word appends its candidates. */
  lemma CandidatesSnoc(results: seq<IdRows>, analysis: map<string, DictAnalysis.Stats>, cfg: Config, k: nat)
    requires ValidResults(results, analysis) && k < |results|
    ensures ValidResults(results[..k], analysis) && ValidResults(results[..k + 1], analysis)
    ensures Candidates(results[..k + 1], analysis, cfg)
      == Candidates(results[..k], analysis, cfg) + WordCandidates(results[k], analysis, cfg)
  {
    var p := results[..k + 1];
    assert forall j :: 0 <= j < k + 1 ==> p[j] == results[j];
    CandidatesLast(p, analysis, cfg);
    assert p[..k] == results[..k];
  }

  /** Dropping the last word keeps the results valid. */
  lemma ValidPrefix(results: seq<IdRows>, analysis: map<string, DictAnalysis.Stats>)
    requires ValidResults(results, analysis) && results != []
    ensures ValidResults(results[..|results| - 1], analysis)
  {
    assert forall k :: 0 <= k < |results| - 1 ==> results[..|results| - 1][k] == results[k];
  }

  /** A start is a candidate of all words exactly when it is one of the
      words before the last, or a qualifying row of the last. */
  lemma SplitCandidate(results: seq<IdRows>, analysis: map<string, DictAnalysis.Stats>, cfg: Config, c: Start)
    requires ValidResults(results, analysis) && results != []
    requires ValidResults(results[..|results| - 1], analysis)
    ensures var n := |results| - 1;
      IsCandidate(results, analysis, cfg, c) <==>
        IsCandidate(results[..n], analysis, cfg, c)
        || InWord(results[n], analysis, cfg, c)
  {
    var n, init, k := |results| - 1, results[..|results| - 1], IndexOf(results, c.id);
    if k < n {
      UniqueIndex(init, analysis, k);
      assert init[k] == results[k];
    } else {
      assert IndexOf(init, c.id) == n;
    }
  }

  /** The first loop of framing. */
  method CollectCandidates(results: seq<IdRows>, analysis: map<string, DictAnalysis.Stats>, cfg: Config)
    returns (arr: seq<Start>)
    requires ValidResults(results, analysis)
    ensures arr == Candidates(results, analysis, cfg)
  {
    arr := [];
    for k := 0 to |results|
      invariant ValidResults(results[..k], analysis)
      invariant arr == Candidates(results[..k], analysis, cfg)
    {
      CandidatesSnoc(results, analysis, cfg, k);
      var rows := results[k].rows;
      if |rows| > 0 {
        var found := CollectRows(results[k].id, rows, analysis[results[k].id].minTokens, cfg);
        arr := arr + found;
      } else {
        assert arr + [] == arr;
      }
    }
    assert results[..|results|] == results;
  }

  /** The inner loop of the first loop of framing: the rows of one word. */
  method CollectRows(id: string, rows: seq<seq<real>>, minTokens: nat, cfg: Config) returns (found: seq<Start>)
    requires minTokens > 0 && forall i :: 0 <= i < |rows| ==> |rows[i]| > 0
    ensures found == RowCandidates(id, rows, minTokens, cfg)
  {
    found := [];
    for i := 0 to |rows|
      invariant found == RowCandidates(id, rows[..i], minTokens, cfg)
    {
      var row := RowValidation(rows[i], cfg.minStartTokens);
      var rowResult := Sum(row) / (minTokens as real);
      assert rows[..i + 1][..i] == rows[..i];
      if rowResult >= cfg.marginalValue {
        found := found + [Start(rowResult, i, id)];
      }
    }
    assert rows[..|rows|] == rows;
  }

  /** The key of `sorted(arr, key=itemgetter(0), reverse=True)`: descending
      score, ties kept in arrival order. */
  function ByScore(s: Start): Sorting.Key
  {
    Sorting.Key(-s.score, 0.0)
  }

  /** The position of word `id` in `results`; |results| when it is absent. */
  function IndexOf(results: seq<IdRows>, id: string): (k: nat)
    ensures k <= |results|
    ensures k < |results| ==> results[k].id == id
    ensures k == |results| ==> forall j :: 0 <= j < |results| ==> results[j].id != id
  {
    if results == [] then 0
    else if results[0].id == id then 0
    else
      var k := IndexOf(results[1..], id);
      assert forall j :: 1 <= j < |results| ==> results[j] == results[1..][j - 1];
      1 + k
  }

  /** `el` is a qualifying start of its word, carrying that row's score. */
  predicate IsCandidate(results: seq<IdRows>, analysis: map<string, DictAnalysis.Stats>, cfg: Config, el: Start)
    requires ValidResults(results, analysis)
  {
    var k := IndexOf(results, el.id);
    k < |results| && Qualifies(results, analysis, cfg, k, el.pos) && el.score == ScoreAt(results, analysis, cfg, k, el.pos)
  }

  /** The list of word k is full: MAX_WORD_START_RESULTS is non-zero and the
      list does not have fewer entries (a negative cap admits nothing). */
  predicate Full(starts: seq<nat>, cap: int)
  {
    cap != 0 && |starts| >= cap
  }

  /** The start lists built so far: positions without repeats, within the
      cap, qualifying, in non-increasing score order. */
  predicate ListsOk(results: seq<IdRows>, analysis: map<string, DictAnalysis.Stats>, cfg: Config, starts: seq<seq<nat>>)
    requires ValidResults(results, analysis)
  {
    && |starts| == |results|
    && (forall k :: 0 <= k < |starts| ==> Distinct(starts[k]))
    && (forall k :: 0 <= k < |starts| && cfg.maxWordStartResults > 0 ==> |starts[k]| <= cfg.maxWordStartResults)
    && (forall k :: 0 <= k < |starts| && cfg.maxWordStartResults < 0 ==> starts[k] == [])
    && (forall k, i :: 0 <= k < |starts| && 0 <= i < |starts[k]| ==> Qualifies(results, analysis, cfg, k, starts[k][i]))
    && (forall k, i, j :: 0 <= k < |starts| && 0 <= i < j < |starts[k]| ==>
          ScoreAt(results, analysis, cfg, k, starts[k][i]) >= ScoreAt(results, analysis, cfg, k, starts[k][j]))
  }

  /** The candidate `el` has been handed out: its position is in its word's
      list, or that list is full of starts that score at least as well. */
  predicate Placed(results: seq<IdRows>, analysis: map<string, DictAnalysis.Stats>, cfg: Config, starts: seq<seq<nat>>, el: Start)
    requires ValidResults(results, analysis) && |starts| == |results|
  {
    var k := IndexOf(results, el.id);
    k < |results| &&
    (el.pos in starts[k] ||
      (Full(starts[k], cfg.maxWordStartResults) &&
       forall i :: 0 <= i < |starts[k]| ==> ScoreAt(results, analysis, cfg, k, starts[k][i]) >= el.score))
  }

  /** framing: every word gets its list of start positions, filled from the
      candidates in descending score order. A position appears at most once,
      only qualifying positions appear, the lists respect
      MAX_WORD_START_RESULTS, and a qualifying position is left out only
      from a full list whose every entry scores at least as well. */
  method Framing(results: seq<IdRows>, analysis: map<string, DictAnalysis.Stats>, cfg: Config)
    returns (framing: seq<StartList>)
    requires ValidResults(results, analysis)
    ensures |framing| == |results|
    ensures forall k :: 0 <= k < |framing| ==> framing[k].id == results[k].id
    ensures forall k :: 0 <= k < |framing| ==> Distinct(framing[k].starts)
    ensures forall k :: 0 <= k < |framing| && cfg.maxWordStartResults > 0 ==> |framing[k].starts| <= cfg.maxWordStartResults
    ensures forall k :: 0 <= k < |framing| && cfg.maxWordStartResults < 0 ==> framing[k].starts == []
    ensures forall k, i :: 0 <= k < |framing| && 0 <= i < |framing[k].starts| ==>
      Qualifies(results, analysis, cfg, k, framing[k].starts[i])
    ensures forall k, i, j :: 0 <= k < |framing| && 0 <= i < j < |framing[k].starts| ==>
      ScoreAt(results, analysis, cfg, k, framing[k].starts[i]) >= ScoreAt(results, analysis, cfg, k, framing[k].starts[j])
    ensures forall k, p :: 0 <= k < |framing| && Qualifies(results, analysis, cfg, k, p) && p !in framing[k].starts ==>
      Full(framing[k].starts, cfg.maxWordStartResults) &&
      forall i :: 0 <= i < |framing[k].starts| ==>
        ScoreAt(results, analysis, cfg, k, framing[k].starts[i]) >= ScoreAt(results, analysis, cfg, k, p)
  {
    var arr := CollectCandidates(results, analysis, cfg);
    var sorted := Sorting.Sort(arr, ByScore);
    SortedCandidates(results, analysis, cfg, arr, sorted);
    var starts := Distribute(results, analysis, cfg, sorted);
    AllLeftOut(results, analysis, cfg, arr, sorted, starts);
    framing := seq(|results|, k requires 0 <= k < |results| => StartList(results[k].id, starts[k]));
    FramingFromStarts(results, analysis, cfg, starts, framing);
  }

  /** A qualifying position is missing from a list only when that list is
      full of starts that score at least as well. */
  ghost predicate LeftOutFull(results: seq<IdRows>, analysis: map<string, DictAnalysis.Stats>, cfg: Config, starts: seq<seq<nat>>)
    requires ValidResults(results, analysis) && |starts| == |results|
  {
    forall k, p :: 0 <= k < |starts| && Qualifies(results, analysis, cfg, k, p) && p !in starts[k] ==>
      Full(starts[k], cfg.maxWordStartResults) &&
      forall i :: 0 <= i < |starts[k]| ==> ScoreAt(results, analysis, cfg, k, starts[k][i]) >= ScoreAt(results, analysis, cfg, k, p)
  }

  /** The dictionary framing returns, read off the distributed lists. */
  lemma FramingFromStarts(results: seq<IdRows>, analysis: map<string, DictAnalysis.Stats>, cfg: Config,
                          starts: seq<seq<nat>>, framing: seq<StartList>)
    requires ValidResults(results, analysis) && ListsOk(results, analysis, cfg, starts)
    requires LeftOutFull(results, analysis, cfg, starts)
    requires |framing| == |results|
    requires forall k :: 0 <= k < |framing| ==> framing[k] == StartList(results[k].id, starts[k])
    ensures forall k :: 0 <= k < |framing| ==> framing[k].id == results[k].id
    ensures forall k :: 0 <= k < |framing| ==> Distinct(framing[k].starts)
    ensures forall k :: 0 <= k < |framing| && cfg.maxWordStartResults > 0 ==> |framing[k].starts| <= cfg.maxWordStartResults
    ensures forall k :: 0 <= k < |framing| && cfg.maxWordStartResults < 0 ==> framing[k].starts == []
    ensures forall k, i :: 0 <= k < |framing| && 0 <= i < |framing[k].starts| ==>
      Qualifies(results, analysis, cfg, k, framing[k].starts[i])
    ensures forall k, i, j :: 0 <= k < |framing| && 0 <= i < j < |framing[k].starts| ==>
      ScoreAt(results, analysis, cfg, k, framing[k].starts[i]) >= ScoreAt(results, analysis, cfg, k, framing[k].starts[j])
    ensures forall k, p :: 0 <= k < |framing| && Qualifies(results, analysis, cfg, k, p) && p !in framing[k].starts ==>
      Full(framing[k].starts, cfg.maxWordStartResults) &&
      forall i :: 0 <= i < |framing[k].starts| ==>
        ScoreAt(results, analysis, cfg, k, framing[k].starts[i]) >= ScoreAt(results, analysis, cfg, k, p)
  {
    assert forall k :: 0 <= k < |framing| ==> framing[k].starts == starts[k];
  }

  /** Sorting keeps only candidates. */
  lemma SortedCandidates(results: seq<IdRows>, analysis: map<string, DictAnalysis.Stats>, cfg: Config,
                         arr: seq<Start>, sorted: seq<Start>)
    requires ValidResults(results, analysis)
    requires arr == Candidates(results, analysis, cfg) && multiset(sorted) == multiset(arr)
    ensures forall j :: 0 <= j < |sorted| ==> IsCandidate(results, analysis, cfg, sorted[j])
  {
    forall j | 0 <= j < |sorted| ensures IsCandidate(results, analysis, cfg, sorted[j]) {
      assert sorted[j] in multiset(arr);
      CandidatesMembers(results, analysis, cfg, sorted[j]);
    }
  }

  /** LeftOut for every word and position. */
  lemma AllLeftOut(results: seq<IdRows>, analysis: map<string, DictAnalysis.Stats>, cfg: Config,
                   arr: seq<Start>, sorted: seq<Start>, starts: seq<seq<nat>>)
    requires ValidResults(results, analysis) && |starts| == |results|
    requires arr == Candidates(results, analysis, cfg) && multiset(sorted) == multiset(arr)
    requires forall j :: 0 <= j < |sorted| ==> Placed(results, analysis, cfg, starts, sorted[j])
    ensures LeftOutFull(results, analysis, cfg, starts)
  {
    forall k, p | 0 <= k < |starts| && Qualifies(results, analysis, cfg, k, p) && p !in starts[k]
      ensures Full(starts[k], cfg.maxWordStartResults)
      ensures forall i :: 0 <= i < |starts[k]| ==>
        ScoreAt(results, analysis, cfg, k, starts[k][i]) >= ScoreAt(results, analysis, cfg, k, p)
    {
      LeftOut(results, analysis, cfg, arr, sorted, starts, k, p);
    }
  }

  /** The second loop of framing: hand out the sorted candidates. */
  method Distribute(results: seq<IdRows>, analysis: map<string, DictAnalysis.Stats>, cfg: Config, sorted: seq<Start>)
    returns (starts: seq<seq<nat>>)
    requires ValidResults(results, analysis) && Sorting.SortedBy(sorted, ByScore)
    requires forall j :: 0 <= j < |sorted| ==> IsCandidate(results, analysis, cfg, sorted[j])
    ensures ListsOk(results, analysis, cfg, starts)
    ensures forall j :: 0 <= j < |sorted| ==> Placed(results, analysis, cfg, starts, sorted[j])
  {
    var cap := cfg.maxWordStartResults;
    starts := seq(|results|, _ => []);
    for t := 0 to |sorted|
      invariant ListsOk(results, analysis, cfg, starts)
      invariant Bounded(results, analysis, cfg, starts, sorted, t)
      invariant forall j :: 0 <= j < t ==> Placed(results, analysis, cfg, starts, sorted[j])
    {
      var el := sorted[t];
      var k := IndexOf(results, el.id);
      if el.pos !in starts[k] && (cap == 0 || |starts[k]| < cap) {
        ghost var prev := starts;
        starts := starts[k := starts[k] + [el.pos]];
        PlaceLists(results, analysis, cfg, prev, sorted, t);
        PlaceBounded(results, analysis, cfg, prev, sorted, t);
        PlacePlaced(results, analysis, cfg, prev, sorted, t);
      } else {
        RejectBounded(results, analysis, cfg, starts, sorted, t);
      }
    }
  }

  /** A qualifying position missing from its word's list was rejected for a
      full list of better or equal starts. */
  lemma LeftOut(results: seq<IdRows>, analysis: map<string, DictAnalysis.Stats>, cfg: Config,
                arr: seq<Start>, sorted: seq<Start>, starts: seq<seq<nat>>, k: nat, p: int)
    requires ValidResults(results, analysis) && |starts| == |results|
    requires arr == Candidates(results, analysis, cfg) && multiset(sorted) == multiset(arr)
    requires forall j :: 0 <= j < |sorted| ==> Placed(results, analysis, cfg, starts, sorted[j])
    requires k < |results| && Qualifies(results, analysis, cfg, k, p) && p !in starts[k]
    ensures Full(starts[k], cfg.maxWordStartResults)
    ensures forall i :: 0 <= i < |starts[k]| ==>
      ScoreAt(results, analysis, cfg, k, starts[k][i]) >= ScoreAt(results, analysis, cfg, k, p)
  {
    var c := Start(ScoreAt(results, analysis, cfg, k, p), p, results[k].id);
    UniqueIndex(results, analysis, k);
    CandidatesMembers(results, analysis, cfg, c);
    assert c in multiset(sorted);
    var j :| 0 <= j < |sorted| && sorted[j] == c;
    assert Placed(results, analysis, cfg, starts, sorted[j]);
  }

  /** Every start still to come scores no higher than any start handed out. */
  predicate Bounded(results: seq<IdRows>, analysis: map<string, DictAnalysis.Stats>, cfg: Config,
                    starts: seq<seq<nat>>, sorted: seq<Start>, t: nat)
    requires ValidResults(results, analysis) && |starts| == |results|
  {
    forall k, i, j :: 0 <= k < |starts| && 0 <= i < |starts[k]| && t <= j < |sorted| ==>
      ScoreAt(results, analysis, cfg, k, starts[k][i]) >= sorted[j].score
  }

  /** Word ids are distinct, so IndexOf finds the word itself. */
  lemma UniqueIndex(results: seq<IdRows>, analysis: map<string, DictAnalysis.Stats>, k: nat)
    requires ValidResults(results, analysis) && k < |results|
    ensures IndexOf(results, results[k].id) == k
  {
  }

  /** The step that appends `sorted[t]` to its word's list. */
  predicate Appends(results: seq<IdRows>, analysis: map<string, DictAnalysis.Stats>, cfg: Config,
                    prev: seq<seq<nat>>, sorted: seq<Start>, t: nat)
    requires ValidResults(results, analysis) && |prev| == |results| && t < |sorted|
  {
    var k := IndexOf(results, sorted[t].id);
    && IsCandidate(results, analysis, cfg, sorted[t])
    && sorted[t].pos !in prev[k]
    && (cfg.maxWordStartResults == 0 || |prev[k]| < cfg.maxWordStartResults)
  }

  lemma PlaceLists(results: seq<IdRows>, analysis: map<string, DictAnalysis.Stats>, cfg: Config,
                   prev: seq<seq<nat>>, sorted: seq<Start>, t: nat)
    requires ValidResults(results, analysis) && ListsOk(results, analysis, cfg, prev)
    requires t < |sorted| && Appends(results, analysis, cfg, prev, sorted, t)
    requires Bounded(results, analysis, cfg, prev, sorted, t)
    ensures ListsOk(results, analysis, cfg,
      prev[IndexOf(results, sorted[t].id) := prev[IndexOf(results, sorted[t].id)] + [sorted[t].pos]])
  {
    var k := IndexOf(results, sorted[t].id);
    var starts := prev[k := prev[k] + [sorted[t].pos]];
    assert forall i :: 0 <= i < |prev[k]| ==> starts[k][i] == prev[k][i];
  }

  lemma PlaceBounded(results: seq<IdRows>, analysis: map<string, DictAnalysis.Stats>, cfg: Config,
                     prev: seq<seq<nat>>, sorted: seq<Start>, t: nat)
    requires ValidResults(results, analysis) && |prev| == |results|
    requires t < |sorted| && Sorting.SortedBy(sorted, ByScore)
    requires Appends(results, analysis, cfg, prev, sorted, t)
    requires Bounded(results, analysis, cfg, prev, sorted, t)
    ensures Bounded(results, analysis, cfg,
      prev[IndexOf(results, sorted[t].id) := prev[IndexOf(results, sorted[t].id)] + [sorted[t].pos]], sorted, t + 1)
  {
    forall j | t < j < |sorted| ensures sorted[t].score >= sorted[j].score {
      assert !Sorting.Less(ByScore(sorted[j]), ByScore(sorted[t]));
    }
  }

  lemma PlacePlaced(results: seq<IdRows>, analysis: map<string, DictAnalysis.Stats>, cfg: Config,
                    prev: seq<seq<nat>>, sorted: seq<Start>, t: nat)
    requires ValidResults(results, analysis) && |prev| == |results|
    requires t < |sorted| && Appends(results, analysis, cfg, prev, sorted, t)
    requires forall j :: 0 <= j < t ==> Placed(results, analysis, cfg, prev, sorted[j])
    ensures forall j :: 0 <= j < t + 1 ==> Placed(results, analysis, cfg,
      prev[IndexOf(results, sorted[t].id) := prev[IndexOf(results, sorted[t].id)] + [sorted[t].pos]], sorted[j])
  {
    var k := IndexOf(results, sorted[t].id);
    var starts := prev[k := prev[k] + [sorted[t].pos]];
    forall j | 0 <= j < t + 1 ensures Placed(results, analysis, cfg, starts, sorted[j]) {
      if j < t {
        var kj := IndexOf(results, sorted[j].id);
        assert Placed(results, analysis, cfg, prev, sorted[j]);
        if kj != k {
          assert starts[kj] == prev[kj];
        }
      }
    }
  }

  lemma RejectBounded(results: seq<IdRows>, analysis: map<string, DictAnalysis.Stats>, cfg: Config,
                      starts: seq<seq<nat>>, sorted: seq<Start>, t: nat)
    requires ValidResults(results, analysis) && |starts| == |results|
    requires t < |sorted| && IsCandidate(results, analysis, cfg, sorted[t])
    requires sorted[t].pos in starts[IndexOf(results, sorted[t].id)] ||
      !(cfg.maxWordStartResults == 0 || |starts[IndexOf(results, sorted[t].id)]| < cfg.maxWordStartResults)
    requires Bounded(results, analysis, cfg, starts, sorted, t)
    requires forall j :: 0 <= j < t ==> Placed(results, analysis, cfg, starts, sorted[j])
    ensures Bounded(results, analysis, cfg, starts, sorted, t + 1)
    ensures forall j :: 0 <= j < t + 1 ==> Placed(results, analysis, cfg, starts, sorted[j])
  {
  }
}
