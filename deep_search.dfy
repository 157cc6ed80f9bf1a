/** The second stage of the matcher in sopare/analyze.py: `deep_inspection`
    lays every learned template of a word over the recording from a start
    position, and `deep_search` keeps the best of those comparisons and lets
    them claim the slots of the recording's timeline. */
module DeepSearch {
  import opened Basics
  import opened Features
  import Sorting
  import DictAnalysis
  import opened Analyze

  /** The similarity and the left and right distance of two tokens, as
      token_sim computes them; the computation itself is a parameter of the
      model (`tokenSim`). */
  datatype Sim = Sim(sim: real, left: real, right: real)

  /** One comparison of a template with the recording: the averaged
      similarity and distances, the start position, the number of tokens
      compared and the word. */
  datatype Candidate = Candidate(sim: real, left: real, right: real, start: nat, length: nat, id: string)

  // ---------------------------------------------------------------------------
  // deep_inspection

  /** The comparison of recorded token `d` with template token `t`. When `d`
      has a shifted variant, each distance is the smaller of the two; the
      similarity is always the unshifted one (the shifted similarity is
      computed and then never used). */
  function TokenScore(tokenSim: (Characteristic, Characteristic) -> Sim, d: Characteristic, t: Characteristic): (r: Sim)
    ensures r.sim == tokenSim(d, t).sim
    ensures r.left <= tokenSim(d, t).left && r.right <= tokenSim(d, t).right
    ensures d.shift.None? ==> r == tokenSim(d, t)
    ensures d.shift.Some? ==>
      && r.left <= tokenSim(d.shift.value, t).left && r.right <= tokenSim(d.shift.value, t).right
      && (r.left == tokenSim(d, t).left || r.left == tokenSim(d.shift.value, t).left)
      && (r.right == tokenSim(d, t).right || r.right == tokenSim(d.shift.value, t).right)
  {
    var p := tokenSim(d, t);
    match d.shift
    case None => p
    case Some(shifted) =>
      var q := tokenSim(shifted, t);
      Sim(p.sim, if q.left < p.left then q.left else p.left, if q.right < p.right then q.right else p.right)
  }

  /** The number of template tokens that have a recorded token to be
      compared with. */
  function Compared(templateLength: nat, dataLength: nat, start: nat): (c: nat)
    ensures c <= templateLength
    ensures start < dataLength ==> c == MinInt(templateLength, dataLength - start)
    ensures start >= dataLength ==> c == 0
    ensures c > 0 ==> start + c <= dataLength
  {
    if start < dataLength then MinInt(templateLength, dataLength - start) else 0
  }

  /** The running sums over the first n compared tokens. */
  function Totals(tokenSim: (Characteristic, Characteristic) -> Sim, template: seq<Characteristic>,
                  data: seq<Characteristic>, start: nat, n: nat): Sim
    requires n <= |template| && (n > 0 ==> start + n <= |data|)
  {
    if n == 0 then Sim(0.0, 0.0, 0.0)
    else
      var s := Totals(tokenSim, template, data, start, n - 1);
      var t := TokenScore(tokenSim, data[start + n - 1], template[n - 1]);
      Sim(s.sim + t.sim, s.left + t.left, s.right + t.right)
  }

  /** The comparison of one template, started at `start`. */
  function InspectEntry(tokenSim: (Characteristic, Characteristic) -> Sim, template: seq<Characteristic>,
                        data: seq<Characteristic>, start: nat, id: string): (r: Candidate)
    ensures r.id == id && r.start == start
    ensures r.length == Compared(|template|, |data|, start)
    ensures r.length > 0 ==> r.start + r.length <= |data|
  {
    var c := Compared(|template|, |data|, start);
    if c > 0 then
      var s := Totals(tokenSim, template, data, start, c);
      Candidate(s.sim / c as real, s.left / c as real, s.right / c as real, start, c, id)
    else
      Candidate(0.0, 0.0, 0.0, start, 0, id)
  }

  /** The length rule: without the strict check MIN_START_TOKENS compared
      tokens suffice; otherwise (and also without it) the word's minimum
      token count, less STRICT_LENGTH_UNDERMINING, does. */
  predicate Admits(cfg: Config, compared: nat, minTokens: int)
  {
    (!cfg.strictLengthCheck && compared >= cfg.minStartTokens) || compared >= minTokens - cfg.strictLengthUndermining
  }

  /** The list `word_sim` of deep_inspection: the admitted comparisons of
      the templates of word `id`, in dictionary order. */
  function InspectAll(tokenSim: (Characteristic, Characteristic) -> Sim, cfg: Config, dict: seq<DictEntry>,
                      id: string, start: nat, data: seq<Characteristic>, minTokens: int): seq<Candidate>
  {
    if dict == [] then []
    else
      var n := |dict| - 1;
      var c := InspectEntry(tokenSim, dict[n].characteristic, data, start, id);
      InspectAll(tokenSim, cfg, dict[..n], id, start, data, minTokens)
        + (if dict[n].id == id && Admits(cfg, c.length, minTokens) then [c] else [])
  }

  /** c is the admitted comparison of template e of word id. */
  predicate Admitted(tokenSim: (Characteristic, Characteristic) -> Sim, cfg: Config, e: DictEntry, id: string,
                     start: nat, data: seq<Characteristic>, minTokens: int, c: Candidate)
  {
    e.id == id && c == InspectEntry(tokenSim, e.characteristic, data, start, id) && Admits(cfg, c.length, minTokens)
  }

  /** A comparison is in word_sim exactly when it is that of a template of
      the word whose compared-token count the length rule admits. */
  lemma {:induction false} InspectAllMembers(tokenSim: (Characteristic, Characteristic) -> Sim, cfg: Config,
                                             dict: seq<DictEntry>, id: string, start: nat, data: seq<Characteristic>,
                                             minTokens: int, c: Candidate)
    ensures c in InspectAll(tokenSim, cfg, dict, id, start, data, minTokens) <==>
      exists j :: 0 <= j < |dict| && Admitted(tokenSim, cfg, dict[j], id, start, data, minTokens, c)
  {
    if dict != [] {
      var n := |dict| - 1;
      var before := InspectAll(tokenSim, cfg, dict[..n], id, start, data, minTokens);
      InspectAllMembers(tokenSim, cfg, dict[..n], id, start, data, minTokens, c);
      AdmittedSplit(tokenSim, cfg, dict, id, start, data, minTokens, c);
      var e := InspectEntry(tokenSim, dict[n].characteristic, data, start, id);
      var last := if dict[n].id == id && Admits(cfg, e.length, minTokens) then [e] else [];
      assert c in last <==> Admitted(tokenSim, cfg, dict[n], id, start, data, minTokens, c);
      assert InspectAll(tokenSim, cfg, dict, id, start, data, minTokens) == before + last;
    }
  }

  /** A template admitting c is among the templates before the last or is
      the last. */
  lemma AdmittedSplit(tokenSim: (Characteristic, Characteristic) -> Sim, cfg: Config,
                      dict: seq<DictEntry>, id: string, start: nat, data: seq<Characteristic>,
                      minTokens: int, c: Candidate)
    requires dict != []
    ensures var n := |dict| - 1;
      (exists j :: 0 <= j < |dict| && Admitted(tokenSim, cfg, dict[j], id, start, data, minTokens, c)) <==>
        (exists j :: 0 <= j < n && Admitted(tokenSim, cfg, dict[..n][j], id, start, data, minTokens, c))
        || Admitted(tokenSim, cfg, dict[n], id, start, data, minTokens, c)
  {
    var n := |dict| - 1;
    if exists j :: 0 <= j < n && Admitted(tokenSim, cfg, dict[..n][j], id, start, data, minTokens, c) {
      var j :| 0 <= j < n && Admitted(tokenSim, cfg, dict[..n][j], id, start, data, minTokens, c);
      assert dict[j] == dict[..n][j];
    }
    if exists j :: 0 <= j < |dict| && Admitted(tokenSim, cfg, dict[j], id, start, data, minTokens, c) {
      var j :| 0 <= j < |dict| && Admitted(tokenSim, cfg, dict[j], id, start, data, minTokens, c);
      if j < n {
        assert dict[..n][j] == dict[j];
      }
    }
  }

  /** Every comparison in word_sim stays inside the recording. */
  lemma InspectAllInBounds(tokenSim: (Characteristic, Characteristic) -> Sim, cfg: Config, dict: seq<DictEntry>,
                           id: string, start: nat, data: seq<Characteristic>, minTokens: int)
    ensures forall c :: c in InspectAll(tokenSim, cfg, dict, id, start, data, minTokens) ==>
      c.id == id && c.start == start && (c.length > 0 ==> c.start + c.length <= |data|)
  {
    forall c | c in InspectAll(tokenSim, cfg, dict, id, start, data, minTokens)
      ensures c.id == id && c.start == start && (c.length > 0 ==> c.start + c.length <= |data|)
    {
      InspectAllMembers(tokenSim, cfg, dict, id, start, data, minTokens, c);
    }
  }

  /** When every token similarity lies in [0, 1] and every distance is
      non-negative, the sums over n tokens lie in [0, n] and are
      non-negative. */
  lemma {:induction false} TotalsBounds(tokenSim: (Characteristic, Characteristic) -> Sim, template: seq<Characteristic>,
                                        data: seq<Characteristic>, start: nat, n: nat)
    requires n <= |template| && (n > 0 ==> start + n <= |data|)
    requires forall a, b :: 0.0 <= tokenSim(a, b).sim <= 1.0 && tokenSim(a, b).left >= 0.0 && tokenSim(a, b).right >= 0.0
    ensures 0.0 <= Totals(tokenSim, template, data, start, n).sim <= n as real
    ensures Totals(tokenSim, template, data, start, n).left >= 0.0
    ensures Totals(tokenSim, template, data, start, n).right >= 0.0
  {
    if n > 0 {
      TotalsBounds(tokenSim, template, data, start, n - 1);
      var d := data[start + n - 1];
      var t := template[n - 1];
      if d.shift.Some? {
        assert tokenSim(d.shift.value, t).left >= 0.0 && tokenSim(d.shift.value, t).right >= 0.0;
      }
    }
  }

  /** Averaging keeps the similarity of a comparison in [0, 1] when every
      token similarity is, so the "results > 1.0" warning of
      deep_inspection can only come from a token_sim outside [0, 1]. */
  lemma InspectEntryBounds(tokenSim: (Characteristic, Characteristic) -> Sim, template: seq<Characteristic>,
                           data: seq<Characteristic>, start: nat, id: string)
    requires forall a, b :: 0.0 <= tokenSim(a, b).sim <= 1.0 && tokenSim(a, b).left >= 0.0 && tokenSim(a, b).right >= 0.0
    ensures 0.0 <= InspectEntry(tokenSim, template, data, start, id).sim <= 1.0
    ensures InspectEntry(tokenSim, template, data, start, id).left >= 0.0
    ensures InspectEntry(tokenSim, template, data, start, id).right >= 0.0
  {
    var c := Compared(|template|, |data|, start);
    if c > 0 {
      TotalsBounds(tokenSim, template, data, start, c);
      var s := Totals(tokenSim, template, data, start, c);
      DivAtMostOne(s.sim, c as real);
      DivNonNegative(s.sim, c as real);
      DivNonNegative(s.left, c as real);
      DivNonNegative(s.right, c as real);
    }
  }

  /** The comparison of one template: the loop over its tokens. */
  method InspectTemplate(tokenSim: (Characteristic, Characteristic) -> Sim, template: seq<Characteristic>,
                         data: seq<Characteristic>, start: nat, id: string) returns (tokenScore: Candidate)
    ensures tokenScore == InspectEntry(tokenSim, template, data, start, id)
  {
    var sim, left, right := 0.0, 0.0, 0.0;
    var c: nat := 0;
    for i := 0 to |template|
      invariant c == Compared(i, |data|, start)
      invariant Sim(sim, left, right) == Totals(tokenSim, template, data, start, c)
    {
      if start + i < |data| {
        var d := data[start + i];
        var p := tokenSim(d, template[i]);
        var sl, sr := p.left, p.right;
        if d.shift.Some? {
          var q := tokenSim(d.shift.value, template[i]);
          if q.right < sr {
            sr := q.right;
          }
          if q.left < sl {
            sl := q.left;
          }
        }
        sim, left, right := sim + p.sim, left + sl, right + sr;
        c := c + 1;
      }
    }
    if c > 0 {
      tokenScore := Candidate(sim / c as real, left / c as real, right / c as real, start, c, id);
    } else {
      tokenScore := Candidate(0.0, 0.0, 0.0, start, 0, id);
    }
  }

  /** deep_inspection: the comparisons of every template of word `id` that
      the length rule admits. */
  method DeepInspection(tokenSim: (Characteristic, Characteristic) -> Sim, cfg: Config, dict: seq<DictEntry>,
                        id: string, start: nat, data: seq<Characteristic>, minTokens: int)
    returns (wordSim: seq<Candidate>)
    ensures wordSim == InspectAll(tokenSim, cfg, dict, id, start, data, minTokens)
  {
    wordSim := [];
    for k := 0 to |dict|
      invariant wordSim == InspectAll(tokenSim, cfg, dict[..k], id, start, data, minTokens)
    {
      assert dict[..k + 1][..k] == dict[..k];
      if dict[k].id == id {
        var tokenScore := InspectTemplate(tokenSim, dict[k].characteristic, data, start, id);
        if Admits(cfg, tokenScore.length, minTokens) {
          wordSim := wordSim + [tokenScore];
        }
      }
    }
    assert dict[..|dict|] == dict;
  }

  // ---------------------------------------------------------------------------
  // deep_search

  /** The list `framing_match`: for every word and every chosen start, in
      order, the non-empty word_sim lists. */
  function FramingMatch(tokenSim: (Characteristic, Characteristic) -> Sim, cfg: Config, dict: seq<DictEntry>,
                        analysis: map<string, DictAnalysis.Stats>, framing: seq<StartList>, data: seq<Characteristic>)
    : seq<seq<Candidate>>
    requires StatsForStarts(framing, analysis)
  {
    if framing == [] then []
    else
      var n := |framing| - 1;
      FramingMatch(tokenSim, cfg, dict, analysis, framing[..n], data)
        + StartListMatches(tokenSim, cfg, dict, analysis, framing[n], data)
  }

  /** The statistics deep_search looks up: those of every framing word that
      has a start. */
  predicate StatsForStarts(framing: seq<StartList>, analysis: map<string, DictAnalysis.Stats>)
  {
    forall k :: 0 <= k < |framing| && |framing[k].starts| > 0 ==> framing[k].id in analysis
  }

  /** Every list of starts that framing returns is accepted by deep_search:
      a word gets a start only from one of its rows, and a word with rows
      has statistics. */
  lemma FramingStats(results: seq<IdRows>, analysis: map<string, DictAnalysis.Stats>, cfg: Config,
                     framing: seq<StartList>)
    requires ValidResults(results, analysis)
    requires |framing| == |results|
    requires forall k :: 0 <= k < |framing| ==> framing[k].id == results[k].id
    requires forall k, i :: 0 <= k < |framing| && 0 <= i < |framing[k].starts| ==>
      Qualifies(results, analysis, cfg, k, framing[k].starts[i])
    ensures StatsForStarts(framing, analysis)
  {
    forall k | 0 <= k < |framing| && |framing[k].starts| > 0 ensures framing[k].id in analysis {
      assert Qualifies(results, analysis, cfg, k, framing[k].starts[0]);
    }
  }

  /** A word without starts contributes nothing and needs no statistics. */
  lemma NoStartsNoLookup(tokenSim: (Characteristic, Characteristic) -> Sim, cfg: Config, dict: seq<DictEntry>,
                         id: string, data: seq<Characteristic>)
    ensures StatsForStarts([StartList(id, [])], map[])
    ensures FramingMatch(tokenSim, cfg, dict, map[], [StartList(id, [])], data) == []
  {
  }

  /** The lists of one framing word; a word without starts is never looked
      up. */
  function StartListMatches(tokenSim: (Characteristic, Characteristic) -> Sim, cfg: Config, dict: seq<DictEntry>,
                            analysis: map<string, DictAnalysis.Stats>, s: StartList, data: seq<Characteristic>)
    : seq<seq<Candidate>>
    requires |s.starts| > 0 ==> s.id in analysis
  {
    if s.starts == [] then [] else WordMatches(tokenSim, cfg, dict, s.id, s.starts, data, analysis[s.id].minTokens)
  }

  /** The non-empty word_sim lists of one word, start by start. */
  function WordMatches(tokenSim: (Characteristic, Characteristic) -> Sim, cfg: Config, dict: seq<DictEntry>,
                       id: string, starts: seq<nat>, data: seq<Characteristic>, minTokens: int): seq<seq<Candidate>>
  {
    if starts == [] then []
    else
      var n := |starts| - 1;
      var wordSim := InspectAll(tokenSim, cfg, dict, id, starts[n], data, minTokens);
      WordMatches(tokenSim, cfg, dict, id, starts[..n], data, minTokens) + (if |wordSim| > 0 then [wordSim] else [])
  }

  /** The key of both sorts in deep_search: distance sum ascending, then
      similarity descending. */
  function ByDistance(c: Candidate): Sorting.Key
  {
    Sorting.Key(c.left + c.right, -c.sim)
  }

  /** `num_best_matches`: min(1, NUMBER_OF_BEST_MATCHES) when the option is
      set, 1 otherwise; so at most one comparison per list survives. */
  function NumBestMatches(cfg: Config): (n: int)
    ensures n <= 1
  {
    match cfg.numberOfBestMatches
    case None => 1
    case Some(m) => MinInt(1, m)
  }

  /** The first `num` elements of a list (none for a non-positive num). */
  function Take(s: seq<Candidate>, num: int): (r: seq<Candidate>)
    ensures num <= 0 ==> r == []
    ensures 0 < num <= |s| ==> r == s[..num]
    ensures num > |s| ==> r == s
  {
    if num <= 0 then [] else if num <= |s| then s[..num] else s
  }

  /** The list `best_match`: the best comparisons of every list of
      framing_match. */
  function BestMatches(matches: seq<seq<Candidate>>, num: int): seq<Candidate>
  {
    if matches == [] then []
    else
      var n := |matches| - 1;
      BestMatches(matches[..n], num) + Take(Sorting.Sort(matches[n], ByDistance), num)
  }

  /** With num = 1 a list contributes exactly one comparison: one whose key
      no other comparison of the list beats. */
  lemma BestOfList(m: seq<Candidate>)
    requires |m| > 0
    ensures |Take(Sorting.Sort(m, ByDistance), 1)| == 1
    ensures Take(Sorting.Sort(m, ByDistance), 1)[0] in m
    ensures forall c :: c in m ==> !Sorting.Less(ByDistance(c), ByDistance(Take(Sorting.Sort(m, ByDistance), 1)[0]))
  {
    var s := Sorting.Sort(m, ByDistance);
    Sorting.SortMembers(m, ByDistance);
    forall c | c in m ensures !Sorting.Less(ByDistance(c), ByDistance(s[0])) {
      var j :| 0 <= j < |s| && s[j] == c;
      if j > 0 {
        assert !Sorting.Less(ByDistance(s[j]), ByDistance(s[0]));
      }
    }
  }

  /** No more than one comparison per list, and none when num is not
      positive. */
  lemma {:induction false} BestMatchesLength(matches: seq<seq<Candidate>>, num: int)
    requires num <= 1
    ensures |BestMatches(matches, num)| <= |matches|
    ensures num <= 0 ==> BestMatches(matches, num) == []
  {
    if matches != [] {
      BestMatchesLength(matches[..|matches| - 1], num);
    }
  }

  /** The comparison may write to the timeline: similarity at least
      MIN_CROSS_SIMILARITY and both distances within their limits. */
  predicate Writes(cfg: Config, c: Candidate)
  {
    c.sim >= cfg.minCrossSimilarity && c.left <= cfg.minLeftDistance && c.right <= cfg.minRightDistance
  }

  /** The word in timeline slot x after the comparisons `cs` have claimed
      their slots in order: a slot keeps the first non-empty word written
      to it. */
  function Claim(cfg: Config, cs: seq<Candidate>, x: int): string
  {
    if cs == [] then ""
    else
      var n := |cs| - 1;
      var before := Claim(cfg, cs[..n], x);
      if before != "" then before
      else if Writes(cfg, cs[n]) && cs[n].start <= x < cs[n].start + cs[n].length then cs[n].id
      else ""
  }

  /** The number of sorted best matches the claim loop looks at: it stops
      after index i once 0 < MAX_TOP_RESULTS < i. */
  function Processed(cfg: Config, count: nat): (n: nat)
    ensures n <= count
    ensures cfg.maxTopResults <= 0 ==> n == count
    ensures cfg.maxTopResults > 0 ==> n == MinInt(count, cfg.maxTopResults + 2)
  {
    if cfg.maxTopResults > 0 && cfg.maxTopResults + 2 < count then cfg.maxTopResults + 2 else count
  }

  /** A filled slot holds the word of the first writing comparison that
      covers it; an empty slot is covered by no writing comparison with a
      non-empty word. */
  lemma {:induction false} ClaimFirst(cfg: Config, cs: seq<Candidate>, x: int)
    ensures Claim(cfg, cs, x) != "" ==>
      exists j :: 0 <= j < |cs| && Writes(cfg, cs[j]) && cs[j].start <= x < cs[j].start + cs[j].length
        && cs[j].id == Claim(cfg, cs, x)
        && forall i :: 0 <= i < j && Writes(cfg, cs[i]) && cs[i].start <= x < cs[i].start + cs[i].length ==> cs[i].id == ""
    ensures Claim(cfg, cs, x) == "" ==>
      forall j :: 0 <= j < |cs| && Writes(cfg, cs[j]) && cs[j].start <= x < cs[j].start + cs[j].length ==> cs[j].id == ""
  {
    if cs != [] {
      var n := |cs| - 1;
      ClaimFirst(cfg, cs[..n], x);
      assert forall i :: 0 <= i < n ==> cs[..n][i] == cs[i];
    }
  }

  /** A filled slot is never overwritten by later comparisons. */
  lemma {:induction false} ClaimStable(cfg: Config, cs: seq<Candidate>, more: seq<Candidate>, x: int)
    requires Claim(cfg, cs, x) != ""
    ensures Claim(cfg, cs + more, x) == Claim(cfg, cs, x)
  {
    if more == [] {
      assert cs + more == cs;
    } else {
      var n := |more| - 1;
      ClaimStable(cfg, cs, more[..n], x);
      assert (cs + more)[..|cs + more| - 1] == cs + more[..n];
    }
  }

  /** The framing_match loop. */
  method CollectMatches(tokenSim: (Characteristic, Characteristic) -> Sim, cfg: Config, dict: seq<DictEntry>,
                        analysis: map<string, DictAnalysis.Stats>, framing: seq<StartList>, data: seq<Characteristic>)
    returns (framingMatch: seq<seq<Candidate>>)
    requires StatsForStarts(framing, analysis)
    ensures framingMatch == FramingMatch(tokenSim, cfg, dict, analysis, framing, data)
  {
    framingMatch := [];
    for k := 0 to |framing|
      invariant framingMatch == FramingMatch(tokenSim, cfg, dict, analysis, framing[..k], data)
    {
      assert framing[..k + 1][..k] == framing[..k];
      if |framing[k].starts| > 0 {
        var wordMatches := CollectWordMatches(tokenSim, cfg, dict, framing[k].id, framing[k].starts, data,
                                              analysis[framing[k].id].minTokens);
        framingMatch := framingMatch + wordMatches;
      } else {
        assert framingMatch + [] == framingMatch;
      }
    }
    assert framing[..|framing|] == framing;
  }

  /** The inner loop of the framing_match loop: the starts of one word. */
  method CollectWordMatches(tokenSim: (Characteristic, Characteristic) -> Sim, cfg: Config, dict: seq<DictEntry>,
                            id: string, starts: seq<nat>, data: seq<Characteristic>, minTokens: int)
    returns (wordMatches: seq<seq<Candidate>>)
    ensures wordMatches == WordMatches(tokenSim, cfg, dict, id, starts, data, minTokens)
  {
    wordMatches := [];
    for i := 0 to |starts|
      invariant wordMatches == WordMatches(tokenSim, cfg, dict, id, starts[..i], data, minTokens)
    {
      assert starts[..i + 1][..i] == starts[..i];
      var wordSim := DeepInspection(tokenSim, cfg, dict, id, starts[i], data, minTokens);
      if |wordSim| > 0 {
        wordMatches := wordMatches + [wordSim];
      }
    }
    assert starts[..|starts|] == starts;
  }

  /** The best_match loop. */
  method CollectBest(matches: seq<seq<Candidate>>, num: int) returns (bestMatch: seq<Candidate>)
    ensures bestMatch == BestMatches(matches, num)
  {
    bestMatch := [];
    for k := 0 to |matches|
      invariant bestMatch == BestMatches(matches[..k], num)
    {
      assert matches[..k + 1][..k] == matches[..k];
      var sortedFramingMatch := Sorting.Sort(matches[k], ByDistance);
      var firsts := TakeFirst(sortedFramingMatch, num);
      bestMatch := bestMatch + firsts;
    }
    assert matches[..|matches|] == matches;
  }

  /** `for x in range(0, num): if x < len(s): ... append(s[x])`. */
  method TakeFirst(s: seq<Candidate>, num: int) returns (firsts: seq<Candidate>)
    ensures firsts == Take(s, num)
  {
    firsts := [];
    assert s[..0] == [] && s[..|s|] == s;
    var x := 0;
    while x < num
      invariant 0 <= x && (num > 0 ==> x <= num) && (num <= 0 ==> x == 0)
      invariant firsts == Take(s, x)
    {
      if x < |s| {
        assert s[..x + 1] == s[..x] + [s[x]];
        firsts := firsts + [s[x]];
      }
      x := x + 1;
    }
  }

  /** The sorted list of best matches that deep_search lets claim slots. */
  function SortedBest(tokenSim: (Characteristic, Characteristic) -> Sim, cfg: Config, dict: seq<DictEntry>,
                      analysis: map<string, DictAnalysis.Stats>, framing: seq<StartList>, data: seq<Characteristic>)
    : seq<Candidate>
    requires StatsForStarts(framing, analysis)
  {
    Sorting.Sort(BestMatches(FramingMatch(tokenSim, cfg, dict, analysis, framing, data), NumBestMatches(cfg)), ByDistance)
  }

  /** deep_search: the timeline has one slot per recorded token; slot x holds
      the word of the first comparison, in the order of the sorted best
      matches that the loop looks at, that writes to x. */
  method Search(tokenSim: (Characteristic, Characteristic) -> Sim, cfg: Config, dict: seq<DictEntry>,
                analysis: map<string, DictAnalysis.Stats>, framing: seq<StartList>, data: seq<Characteristic>)
    returns (matchResults: seq<string>)
    requires StatsForStarts(framing, analysis)
    ensures |matchResults| == |data|
    ensures var best := SortedBest(tokenSim, cfg, dict, analysis, framing, data);
      forall x :: 0 <= x < |data| ==> matchResults[x] == Claim(cfg, best[..Processed(cfg, |best|)], x)
  {
    var framingMatch := CollectMatches(tokenSim, cfg, dict, analysis, framing, data);
    var bestMatch := CollectBest(framingMatch, NumBestMatches(cfg));
    var sortedBestMatch := Sorting.Sort(bestMatch, ByDistance);
    MatchesInBounds(tokenSim, cfg, dict, analysis, framing, data);
    BestInBounds(framingMatch, NumBestMatches(cfg), |data|);
    Sorting.SortMembers(bestMatch, ByDistance);
    assert AllFit(sortedBestMatch, |data|);
    matchResults := ClaimSlots(cfg, sortedBestMatch, |data|);
  }

  /** The claim loop of deep_search over the timeline `match_results`. */
  method ClaimSlots(cfg: Config, best: seq<Candidate>, size: nat) returns (matchResults: seq<string>)
    requires AllFit(best, size)
    ensures |matchResults| == size
    ensures forall x :: 0 <= x < size ==> matchResults[x] == Claim(cfg, best[..Processed(cfg, |best|)], x)
  {
    var slots := new string[size](_ => "");
    var i := 0;
    while i < |best|
      invariant 0 <= i <= Processed(cfg, |best|)
      invariant cfg.maxTopResults > 0 ==> i <= cfg.maxTopResults + 1
      invariant forall x :: 0 <= x < size ==> slots[x] == Claim(cfg, best[..i], x)
    {
      assert best[..i + 1] == best[..i] + [best[i]];
      assert best[i] in best;
      ClaimOne(cfg, slots, best[..i], best[i]);
      i := i + 1;
      if 0 < cfg.maxTopResults < i - 1 {
        break;
      }
    }
    assert i == Processed(cfg, |best|);
    matchResults := slots[..];
  }

  /** One pass of the claim loop: a writing comparison fills the empty slots
      it covers with its word. */
  method ClaimOne(cfg: Config, slots: array<string>, done: seq<Candidate>, c: Candidate)
    modifies slots
    requires Fits(c, slots.Length)
    requires forall x :: 0 <= x < slots.Length ==> slots[x] == Claim(cfg, done, x)
    ensures forall x :: 0 <= x < slots.Length ==> slots[x] == Claim(cfg, done + [c], x)
  {
    assert (done + [c])[..|done|] == done;
    if Writes(cfg, c) {
      for x := c.start to c.start + c.length
        invariant forall y :: 0 <= y < slots.Length ==>
          slots[y] == (if c.start <= y < x then Claim(cfg, done + [c], y) else Claim(cfg, done, y))
      {
        if slots[x] == "" {
          slots[x] := c.id;
        }
      }
    }
  }

  /** A comparison covers only slots of a recording of `size` tokens. */
  predicate Fits(c: Candidate, size: nat)
  {
    c.length > 0 ==> c.start + c.length <= size
  }

  /** Every comparison of the list fits. */
  predicate AllFit(cs: seq<Candidate>, size: nat)
  {
    forall c :: c in cs ==> Fits(c, size)
  }

  /** Every list of a collection fits. */
  predicate ListsFit(ms: seq<seq<Candidate>>, size: nat)
  {
    forall k :: 0 <= k < |ms| ==> AllFit(ms[k], size)
  }

  /** Every comparison deep_search collects stays inside the recording. */
  lemma {:induction false} MatchesInBounds(tokenSim: (Characteristic, Characteristic) -> Sim, cfg: Config,
                                           dict: seq<DictEntry>, analysis: map<string, DictAnalysis.Stats>,
                                           framing: seq<StartList>, data: seq<Characteristic>)
    requires StatsForStarts(framing, analysis)
    ensures ListsFit(FramingMatch(tokenSim, cfg, dict, analysis, framing, data), |data|)
  {
    if framing != [] {
      var n := |framing| - 1;
      MatchesInBounds(tokenSim, cfg, dict, analysis, framing[..n], data);
      if |framing[n].starts| > 0 {
        WordMatchesInBounds(tokenSim, cfg, dict, framing[n].id, framing[n].starts, data,
                            analysis[framing[n].id].minTokens);
      }
      ConcatFit(FramingMatch(tokenSim, cfg, dict, analysis, framing[..n], data),
                StartListMatches(tokenSim, cfg, dict, analysis, framing[n], data), |data|);
    }
  }

  /** Joining two collections of fitting lists. */
  lemma ConcatFit(a: seq<seq<Candidate>>, b: seq<seq<Candidate>>, size: nat)
    requires ListsFit(a, size) && ListsFit(b, size)
    ensures ListsFit(a + b, size)
  {
    forall k | 0 <= k < |a + b| ensures AllFit((a + b)[k], size) {
      if k < |a| {
        assert (a + b)[k] == a[k];
      } else {
        assert (a + b)[k] == b[k - |a|];
      }
    }
  }

  lemma {:induction false} WordMatchesInBounds(tokenSim: (Characteristic, Characteristic) -> Sim, cfg: Config,
                                               dict: seq<DictEntry>, id: string, starts: seq<nat>,
                                               data: seq<Characteristic>, minTokens: int)
    ensures ListsFit(WordMatches(tokenSim, cfg, dict, id, starts, data, minTokens), |data|)
  {
    if starts != [] {
      var n := |starts| - 1;
      WordMatchesInBounds(tokenSim, cfg, dict, id, starts[..n], data, minTokens);
      InspectAllInBounds(tokenSim, cfg, dict, id, starts[n], data, minTokens);
      var wordSim := InspectAll(tokenSim, cfg, dict, id, starts[n], data, minTokens);
      assert AllFit(wordSim, |data|);
      var last := if |wordSim| > 0 then [wordSim] else [];
      assert ListsFit(last, |data|) by {
        if |wordSim| > 0 {
          assert last[0] == wordSim;
        }
      }
      ConcatFit(WordMatches(tokenSim, cfg, dict, id, starts[..n], data, minTokens), last, |data|);
    }
  }

  /** The first elements of a list that fits fit too. */
  lemma TakeFits(s: seq<Candidate>, num: int, size: nat)
    requires AllFit(s, size)
    ensures AllFit(Take(s, num), size)
  {
    if 0 < num <= |s| {
      assert forall c :: c in s[..num] ==> c in s;
    }
  }

  /** The best matches stay inside the recording, as the collected lists
      do. */
  lemma {:induction false} BestInBounds(matches: seq<seq<Candidate>>, num: int, size: nat)
    requires ListsFit(matches, size)
    ensures AllFit(BestMatches(matches, num), size)
  {
    if matches != [] {
      var n := |matches| - 1;
      assert ListsFit(matches[..n], size) by {
        forall k | 0 <= k < n ensures AllFit(matches[..n][k], size) {
          assert matches[..n][k] == matches[k];
        }
      }
      BestInBounds(matches[..n], num, size);
      var s := Sorting.Sort(matches[n], ByDistance);
      Sorting.SortMembers(matches[n], ByDistance);
      assert AllFit(s, size);
      TakeFits(s, num, size);
    }
  }
}
