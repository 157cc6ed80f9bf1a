/** The last stage of the matcher in sopare/analyze.py: `get_match` cuts the
    timeline of claimed slots into runs of one word, and
    `validate_match_result` turns every run into at most one result. */
module Matching {
  import opened Basics
  import DictAnalysis
  import opened Analyze

  /** Every slot of s holds the word of its first slot. */
  predicate Constant(s: seq<string>)
  {
    forall i :: 0 <= i < |s| ==> s[i] == s[0]
  }

  /** s starts a run of f: it is the first slot or its word differs from the
      one before. */
  predicate Boundary(f: seq<string>, s: nat)
    requires s < |f|
  {
    s == 0 || f[s - 1] != f[s]
  }

  /** Where the last run of a non-empty timeline starts. */
  function RunStart(f: seq<string>): (s: nat)
    requires f != []
    ensures s < |f| && Boundary(f, s)
    ensures Constant(f[s..])
  {
    var n := |f| - 1;
    if n == 0 || f[n - 1] != f[n] then n
    else
      var s := RunStart(f[..n]);
      assert f[s..] == f[..n][s..] + [f[n]];
      s
  }

  /** The last run starts at the only boundary after which the timeline holds
      one word. */
  lemma {:induction false} RunStartUnique(f: seq<string>, s: nat)
    requires s < |f| && Boundary(f, s) && Constant(f[s..])
    ensures RunStart(f) == s
  {
    var n := |f| - 1;
    if s < n {
      assert f[n - 1] == f[s..][n - 1 - s] && f[n] == f[s..][n - s];
      assert f[..n][s..] == f[s..][..n - s];
      RunStartUnique(f[..n], s);
    }
  }

  /** The runs of a timeline: maximal blocks of adjacent slots holding the
      same word, in order. */
  function Runs(f: seq<string>): (r: seq<seq<string>>)
    ensures forall i :: 0 <= i < |r| ==> r[i] != [] && Constant(r[i]) && r[i][0] in f
    decreases |f|
  {
    if f == [] then []
    else
      var s := RunStart(f);
      var before := Runs(f[..s]);
      assert forall i :: 0 <= i < |before| ==> before[i][0] in f;
      before + [f[s..]]
  }

  /** The runs joined together. */
  function Flatten(rs: seq<seq<string>>): seq<string>
  {
    if rs == [] then [] else Flatten(rs[..|rs| - 1]) + rs[|rs| - 1]
  }

  /** Joining the runs gives back the timeline. */
  lemma {:induction false} RunsFlatten(f: seq<string>)
    ensures Flatten(Runs(f)) == f
    decreases |f|
  {
    if f != [] {
      var s := RunStart(f);
      RunsFlatten(f[..s]);
      var r := Runs(f);
      assert r[..|r| - 1] == Runs(f[..s]);
      assert f == f[..s] + f[s..];
    }
  }

  /** Adjacent runs hold different words, so no run could be longer. */
  lemma {:induction false} RunsDiffer(f: seq<string>)
    ensures forall i :: 0 <= i < |Runs(f)| - 1 ==> Runs(f)[i][0] != Runs(f)[i + 1][0]
    decreases |f|
  {
    if f != [] {
      var s := RunStart(f);
      RunsDiffer(f[..s]);
      if s > 0 {
        var before := Runs(f[..s]);
        var last := RunStart(f[..s]);
        assert before[|before| - 1] == f[..s][last..];
        assert f[..s][last..][s - 1 - last] == f[s - 1];
      }
    }
  }

  /** The strict length check only looks up words it needs when it is on. */
  predicate Known(cfg: Config, analysis: map<string, DictAnalysis.Stats>, f: seq<string>)
  {
    cfg.strictLengthCheck ==> forall i :: 0 <= i < |f| && f[i] != "" ==> f[i] in analysis
  }

  /** The run's length lies outside [min_tokens - STRICT_LENGTH_UNDERMINING,
      max_tokens] of its word. */
  predicate OutOfLength(cfg: Config, stats: DictAnalysis.Stats, len: nat)
  {
    len < stats.minTokens - cfg.strictLengthUndermining || len > stats.maxTokens
  }

  /** validate_match_result: a run of silence adds nothing; with
      STRICT_LENGTH_CHECK a run whose length does not fit its word adds an
      empty result; any other run adds its word. */
  function ValidateMatchResult(cfg: Config, analysis: map<string, DictAnalysis.Stats>, result: seq<string>,
                               matchResults: seq<string>): (r: seq<string>)
    requires cfg.strictLengthCheck && result != [] && result[0] != "" ==> result[0] in analysis
    ensures |matchResults| <= |r| <= |matchResults| + 1 && r[..|matchResults|] == matchResults
    ensures |r| == |matchResults| <==> result == [] || result[0] == ""
    ensures |r| > |matchResults| ==> r[|matchResults|] == "" || r[|matchResults|] == result[0]
    ensures |r| > |matchResults| && !cfg.strictLengthCheck ==> r[|matchResults|] == result[0]
    ensures |r| > |matchResults| && cfg.strictLengthCheck ==>
      (r[|matchResults|] == "" <==> OutOfLength(cfg, analysis[result[0]], |result|))
  {
    if |result| == 0 || result[0] == "" then matchResults
    else if cfg.strictLengthCheck && OutOfLength(cfg, analysis[result[0]], |result|) then matchResults + [""]
    else matchResults + [result[0]]
  }

  /** The results of the runs of a timeline, run by run. */
  function Matches(cfg: Config, analysis: map<string, DictAnalysis.Stats>, f: seq<string>): seq<string>
    requires Known(cfg, analysis, f)
    decreases |f|
  {
    if f == [] then []
    else
      var s := RunStart(f);
      assert Known(cfg, analysis, f[..s]);
      ValidateMatchResult(cfg, analysis, f[s..], Matches(cfg, analysis, f[..s]))
  }

  /** Closing the last run at a boundary adds its result to those before. */
  lemma MatchesSplit(cfg: Config, analysis: map<string, DictAnalysis.Stats>, f: seq<string>, s: nat)
    requires Known(cfg, analysis, f)
    requires s < |f| && Boundary(f, s) && Constant(f[s..])
    ensures Known(cfg, analysis, f[..s])
    ensures Matches(cfg, analysis, f) == ValidateMatchResult(cfg, analysis, f[s..], Matches(cfg, analysis, f[..s]))
  {
    RunStartUnique(f, s);
  }

  /** There are no more results than runs. */
  lemma {:induction false} MatchesLength(cfg: Config, analysis: map<string, DictAnalysis.Stats>, f: seq<string>)
    requires Known(cfg, analysis, f)
    ensures |Matches(cfg, analysis, f)| <= |Runs(f)|
    decreases |f|
  {
    if f != [] {
      var s := RunStart(f);
      assert Known(cfg, analysis, f[..s]);
      MatchesLength(cfg, analysis, f[..s]);
    }
  }

  /** Without the strict length check the results name exactly the words
      that claimed some slot. */
  lemma {:induction false} MatchesWords(cfg: Config, analysis: map<string, DictAnalysis.Stats>, f: seq<string>, w: string)
    requires !cfg.strictLengthCheck
    ensures w in Matches(cfg, analysis, f) <==> w in f && w != ""
    decreases |f|
  {
    if f != [] {
      var s := RunStart(f);
      MatchesWords(cfg, analysis, f[..s], w);
      assert f == f[..s] + f[s..];
      assert w in f[s..] <==> w == f[s] by {
        if w in f[s..] {
          var i :| 0 <= i < |f[s..]| && f[s..][i] == w;
        }
      }
      var before := Matches(cfg, analysis, f[..s]);
      var r := Matches(cfg, analysis, f);
      assert w in r <==> w in before || (|r| > |before| && w == f[s]) by {
        if |r| > |before| {
          assert r == before + [f[s]];
        } else {
          assert r == before;
        }
      }
    }
  }

  /** Silence at the end of the timeline changes no result. */
  lemma TrailingSilence(cfg: Config, analysis: map<string, DictAnalysis.Stats>, f: seq<string>)
    requires Known(cfg, analysis, f)
    ensures Known(cfg, analysis, f + [""])
    ensures Matches(cfg, analysis, f + [""]) == Matches(cfg, analysis, f)
  {
    var g := f + [""];
    var n := |f|;
    assert g[..n] == f;
    if f == [] {
    } else if f[n - 1] != "" {
      MatchesSplit(cfg, analysis, g, n);
    } else {
      var s := RunStart(f);
      assert g[s..] == f[s..] + [""];
      assert g[..s] == f[..s];
      MatchesSplit(cfg, analysis, g, s);
    }
  }

  /** Silence at the start of the timeline changes no result. */
  lemma {:induction false} LeadingSilence(cfg: Config, analysis: map<string, DictAnalysis.Stats>, f: seq<string>)
    requires Known(cfg, analysis, f)
    ensures Known(cfg, analysis, [""] + f)
    ensures Matches(cfg, analysis, [""] + f) == Matches(cfg, analysis, f)
    decreases |f|
  {
    if f != [] {
      var s := RunStart(f);
      if s > 0 {
        assert Known(cfg, analysis, f[..s]);
        LeadingSilence(cfg, analysis, f[..s]);
        LeadingBefore(cfg, analysis, f, s);
      } else {
        LeadingOneRun(cfg, analysis, f);
      }
    } else {
      MatchesSplit(cfg, analysis, [""], 0);
    }
  }

  /** The step of LeadingSilence when the last run is not the only one. */
  lemma LeadingBefore(cfg: Config, analysis: map<string, DictAnalysis.Stats>, f: seq<string>, s: nat)
    requires Known(cfg, analysis, f) && f != [] && s == RunStart(f) && s > 0
    requires Known(cfg, analysis, f[..s]) && Known(cfg, analysis, [""] + f[..s])
    requires Matches(cfg, analysis, [""] + f[..s]) == Matches(cfg, analysis, f[..s])
    ensures Known(cfg, analysis, [""] + f)
    ensures Matches(cfg, analysis, [""] + f) == Matches(cfg, analysis, f)
  {
    PrefixedRun(cfg, analysis, f, s);
    MatchesSplit(cfg, analysis, f, s);
    MatchesSplit(cfg, analysis, [""] + f, s + 1);
  }

  /** Putting a slot in front moves the last run one slot on. */
  lemma PrefixedRun(cfg: Config, analysis: map<string, DictAnalysis.Stats>, f: seq<string>, s: nat)
    requires Known(cfg, analysis, f) && s < |f| && s > 0 && Boundary(f, s) && Constant(f[s..])
    ensures Known(cfg, analysis, [""] + f)
    ensures s + 1 < |[""] + f| && Boundary([""] + f, s + 1)
    ensures ([""] + f)[s + 1..] == f[s..] && ([""] + f)[..s + 1] == [""] + f[..s]
  {
    var g := [""] + f;
    assert forall i :: 0 < i < |g| ==> g[i] == f[i - 1];
    assert g[s + 1..] == f[s..];
    assert g[..s + 1] == [""] + f[..s];
  }

  /** LeadingSilence for a timeline that is one run. */
  lemma LeadingOneRun(cfg: Config, analysis: map<string, DictAnalysis.Stats>, f: seq<string>)
    requires Known(cfg, analysis, f) && f != [] && RunStart(f) == 0
    ensures Known(cfg, analysis, [""] + f)
    ensures Matches(cfg, analysis, [""] + f) == Matches(cfg, analysis, f)
  {
    var g := [""] + f;
    assert forall i :: 0 < i < |g| ==> g[i] == f[i - 1];
    assert f[0..] == f;
    MatchesSplit(cfg, analysis, f, 0);
    if f[0] == "" {
      assert g[0..] == g;
      MatchesSplit(cfg, analysis, g, 0);
    } else {
      assert g[1..] == f && g[..1] == [""];
      MatchesSplit(cfg, analysis, [""], 0);
      MatchesSplit(cfg, analysis, g, 1);
    }
  }

  /** A configuration for the examples below: the strict length check as
      given, no undermining, and no fill limit to speak of. */
  function ExampleConfig(strict: bool): Config
  {
    Config(0.0, 0, 0, 0.0, 0.0, 0.0, None, 0, strict, 0, 1.0)
  }

  /** Two words "A" and "B" whose templates are all three tokens long. */
  function ExampleAnalysis(): map<string, DictAnalysis.Stats>
  {
    var three := DictAnalysis.Stats(3, 3, [], [], [], [], [], [], []);
    map["A" := three, "B" := three]
  }

  /** A run as long as the word's templates yields the word. */
  lemma ExampleOneRun()
    ensures Matches(ExampleConfig(true), ExampleAnalysis(), ["A", "A", "A"]) == ["A"]
  {
    MatchesSplit(ExampleConfig(true), ExampleAnalysis(), ["A", "A", "A"], 0);
  }

  /** Under the strict check a run shorter than the word's templates yields
      '' rather than nothing. */
  lemma ExampleTooShort()
    ensures Matches(ExampleConfig(true), ExampleAnalysis(), ["A", "A"]) == [""]
  {
    MatchesSplit(ExampleConfig(true), ExampleAnalysis(), ["A", "A"], 0);
  }

  /** Two runs give two results, in order. */
  lemma ExampleTwoWords()
    ensures Matches(ExampleConfig(true), ExampleAnalysis(), ["A", "A", "A", "B", "B", "B"]) == ["A", "B"]
  {
    var ab: seq<string> := ["A", "A", "A", "B", "B", "B"];
    assert ab[..3] == ["A", "A", "A"] && ab[3..] == ["B", "B", "B"];
    ExampleOneRun();
    MatchesSplit(ExampleConfig(true), ExampleAnalysis(), ab, 3);
  }

  /** A run followed by silence yields the run's word. */
  lemma ExampleRunThenSilence()
    ensures Matches(ExampleConfig(false), ExampleAnalysis(), ["A", "A", ""]) == ["A"]
  {
    var front: seq<string> := ["A", "A", ""];
    assert front[..2] == ["A", "A"] && front[2..] == [""];
    MatchesSplit(ExampleConfig(false), ExampleAnalysis(), ["A", "A"], 0);
    MatchesSplit(ExampleConfig(false), ExampleAnalysis(), front, 2);
  }

  /** A gap splits two runs of the same word. */
  lemma ExampleGap()
    ensures Matches(ExampleConfig(false), ExampleAnalysis(), ["A", "A", "", "A"]) == ["A", "A"]
  {
    var gap: seq<string> := ["A", "A", "", "A"];
    assert gap[..3] == ["A", "A", ""] && gap[3..] == ["A"];
    ExampleRunThenSilence();
    MatchesSplit(ExampleConfig(false), ExampleAnalysis(), gap, 3);
  }

  /** A slot holding the word of the slot before extends the current run. */
  lemma ExtendRun(f: seq<string>, s: nat, x: nat)
    requires s <= x < |f| && Constant(f[s..x]) && (x == s || f[x] == f[x - 1])
    ensures Constant(f[s..x + 1])
  {
    var t := f[s..x + 1];
    forall i | 0 <= i < |t| ensures t[i] == t[0] {
      if i < x - s {
        assert t[i] == f[s..x][i] && f[s..x][0] == f[s];
      } else if x > s {
        assert f[x - 1] == f[s..x][x - 1 - s] && f[s..x][0] == f[s];
      }
    }
  }

  /** Too many empty slots: the count of '' exceeds the share
      FILL_RESULT_PERCENTAGE of the timeline. */
  predicate TooEmpty(cfg: Config, framing: seq<string>)
  {
    Count(framing, "") as real > |framing| as real * cfg.fillResultPercentage
  }

  /** get_match: the results of the runs of the timeline, or none at all
      when too many slots are empty (`[] * len(match_results)` is the empty
      list). */
  method GetMatch(cfg: Config, analysis: map<string, DictAnalysis.Stats>, framing: seq<string>)
    returns (matchResults: seq<string>)
    requires Known(cfg, analysis, framing)
    ensures TooEmpty(cfg, framing) ==> matchResults == []
    ensures !TooEmpty(cfg, framing) ==> matchResults == Matches(cfg, analysis, framing)
  {
    matchResults := [];
    var s := 0;
    for x := 0 to |framing|
      invariant Scanned(cfg, analysis, framing, s, x, matchResults)
    {
      s, matchResults := ScanSlot(cfg, analysis, framing, s, x, matchResults);
    }
    if TooEmpty(cfg, framing) {
      matchResults := [];
    }
  }

  /** The state of the get_match loop before slot x: the current run starts
      at s, and the runs before it, or after the last slot all runs, are
      validated. */
  predicate Scanned(cfg: Config, analysis: map<string, DictAnalysis.Stats>, framing: seq<string>, s: nat, x: nat,
                    matchResults: seq<string>)
    requires Known(cfg, analysis, framing)
  {
    s <= x <= |framing| && (x > 0 ==> s < x)
    && (s < |framing| ==> Boundary(framing, s) && Constant(framing[s..x]))
    && Known(cfg, analysis, framing[..s])
    && (x < |framing| ==> matchResults == Matches(cfg, analysis, framing[..s]))
    && (x == |framing| ==> matchResults == Matches(cfg, analysis, framing))
  }

  /** One pass of the get_match loop. */
  method ScanSlot(cfg: Config, analysis: map<string, DictAnalysis.Stats>, framing: seq<string>, s: nat, x: nat,
                  matchResults: seq<string>) returns (s': nat, matchResults': seq<string>)
    requires Known(cfg, analysis, framing)
    requires x < |framing| && Scanned(cfg, analysis, framing, s, x, matchResults)
    ensures Scanned(cfg, analysis, framing, s', x + 1, matchResults')
  {
    s', matchResults' := s, matchResults;
    if x > 0 && framing[x] != framing[x - 1] {
      ScanChange(cfg, analysis, framing, s, x, matchResults);
      matchResults' := ValidateMatchResult(cfg, analysis, framing[s..x], matchResults');
      s' := x;
      if x == |framing| - 1 {
        matchResults' := ValidateMatchResult(cfg, analysis, framing[s'..], matchResults');
      }
    } else if x == |framing| - 1 {
      ScanLast(cfg, analysis, framing, s, x, matchResults);
      matchResults' := ValidateMatchResult(cfg, analysis, framing[s..], matchResults');
    } else {
      ScanSame(cfg, analysis, framing, s, x, matchResults);
    }
  }

  /** Slot x starts a new run: the current one is validated. */
  lemma ScanChange(cfg: Config, analysis: map<string, DictAnalysis.Stats>, framing: seq<string>, s: nat, x: nat,
                   matchResults: seq<string>)
    requires Known(cfg, analysis, framing)
    requires x < |framing| && Scanned(cfg, analysis, framing, s, x, matchResults)
    requires x > 0 && framing[x] != framing[x - 1]
    ensures Known(cfg, analysis, framing[s..x]) && Known(cfg, analysis, framing[x..])
    ensures var closed := ValidateMatchResult(cfg, analysis, framing[s..x], matchResults);
      Scanned(cfg, analysis, framing, x, x + 1,
              if x == |framing| - 1 then ValidateMatchResult(cfg, analysis, framing[x..], closed) else closed)
  {
    CloseRun(cfg, analysis, framing, s, x);
    assert framing[x..x + 1] == [framing[x]];
    if x == |framing| - 1 {
      MatchesSplit(cfg, analysis, framing, x);
    }
  }

  /** The run from s up to x is the last run of the slots before x. */
  lemma CloseRun(cfg: Config, analysis: map<string, DictAnalysis.Stats>, framing: seq<string>, s: nat, x: nat)
    requires Known(cfg, analysis, framing)
    requires s < x <= |framing| && Boundary(framing, s) && Constant(framing[s..x])
    ensures Known(cfg, analysis, framing[..s]) && Known(cfg, analysis, framing[..x])
    ensures Matches(cfg, analysis, framing[..x])
      == ValidateMatchResult(cfg, analysis, framing[s..x], Matches(cfg, analysis, framing[..s]))
  {
    assert framing[..x][s..] == framing[s..x] && framing[..x][..s] == framing[..s];
    MatchesSplit(cfg, analysis, framing[..x], s);
  }

  /** The last slot continues the current run, which is validated. */
  lemma ScanLast(cfg: Config, analysis: map<string, DictAnalysis.Stats>, framing: seq<string>, s: nat, x: nat,
                 matchResults: seq<string>)
    requires Known(cfg, analysis, framing)
    requires x < |framing| && Scanned(cfg, analysis, framing, s, x, matchResults)
    requires !(x > 0 && framing[x] != framing[x - 1]) && x == |framing| - 1
    ensures Known(cfg, analysis, framing[s..])
    ensures Scanned(cfg, analysis, framing, s, x + 1, ValidateMatchResult(cfg, analysis, framing[s..], matchResults))
  {
    ExtendRun(framing, s, x);
    assert framing[s..] == framing[s..x + 1];
    MatchesSplit(cfg, analysis, framing, s);
  }

  /** Slot x continues the current run. */
  lemma ScanSame(cfg: Config, analysis: map<string, DictAnalysis.Stats>, framing: seq<string>, s: nat, x: nat,
                 matchResults: seq<string>)
    requires Known(cfg, analysis, framing)
    requires x < |framing| && Scanned(cfg, analysis, framing, s, x, matchResults)
    requires !(x > 0 && framing[x] != framing[x - 1]) && x < |framing| - 1
    ensures Scanned(cfg, analysis, framing, s, x + 1, matchResults)
  {
    ExtendRun(framing, s, x);
  }
}
