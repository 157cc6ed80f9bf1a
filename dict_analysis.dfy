/** compile_analysis of sopare/util.py: the per-word statistics derived from
    the compiled dictionary (shortest and longest template, and per token
    position the dominant frequencies, peak indices and peak counts seen). */
module DictAnalysis {
  import opened Basics
  import opened Features
  import Sorting

  /** The statistics of one word. `peaks`, `df` and `cp` hold one list per
      token position; `minp`/`maxp` and `mincp`/`maxcp` are filled in once all
      entries have been read. */
  datatype Stats = Stats(
    minTokens: nat,
    maxTokens: nat,
    peaks: seq<seq<int>>,
    df: seq<seq<int>>,
    minp: seq<int>,
    maxp: seq<int>,
    cp: seq<seq<int>>,
    mincp: seq<int>,
    maxcp: seq<int>)

  /** The record created for a word the first time it is seen; 0 stands for
      "unset" in minTokens. */
  const Unset: Stats := Stats(0, 0, [], [], [], [], [], [], [])

  /** Python's sorted() on a list of integers. */
  function SortInts(s: seq<int>): (r: seq<int>)
    ensures multiset(r) == multiset(s)
    ensures forall i, j :: 0 <= i < j < |r| ==> r[i] <= r[j]
  {
    var r := Sorting.Sort(s, IntKey);
    assert forall i, j :: 0 <= i < j < |r| ==> !Sorting.Less(IntKey(r[j]), IntKey(r[i]));
    r
  }

  function IntKey(x: int): Sorting.Key
  {
    Sorting.Key(x as real, 0.0)
  }

  // ---------------------------------------------------------------------------
  // What the statistics are about

  /** The token lists of the entries that carry `id`, in dictionary order. */
  function EntriesOf(d: seq<DictEntry>, id: string): seq<seq<Characteristic>>
  {
    if d == [] then []
    else EntriesOf(d[..|d| - 1], id) + (if d[|d| - 1].id == id then [d[|d| - 1].characteristic] else [])
  }

  function DfOf(c: Characteristic): set<int> { {c.df} }
  function PeaksOf(c: Characteristic): set<int> { Elems(c.peaks) }
  function PeakCountOf(c: Characteristic): set<int> { {|c.peaks|} }

  /** The union of what `f` picks out of the token at position i of every
      entry long enough to have one. */
  function Gather(es: seq<seq<Characteristic>>, i: nat, f: Characteristic -> set<int>): set<int>
  {
    if es == [] then {}
    else Gather(es[..|es| - 1], i, f) + (if i < |es[|es| - 1]| then f(es[|es| - 1][i]) else {})
  }

  lemma GatherSnoc(es: seq<seq<Characteristic>>, e: seq<Characteristic>, i: nat, f: Characteristic -> set<int>)
    ensures Gather(es + [e], i, f) == Gather(es, i, f) + (if i < |e| then f(e[i]) else {})
  {
    assert (es + [e])[..|es|] == es;
  }

  lemma {:induction false} GatherBeyond(es: seq<seq<Characteristic>>, i: nat, f: Characteristic -> set<int>)
    requires forall j :: 0 <= j < |es| ==> |es[j]| <= i
    ensures Gather(es, i, f) == {}
  {
    if es != [] {
      GatherBeyond(es[..|es| - 1], i, f);
    }
  }

  /** What the statistics of a word state about its entries `es`. */
  ghost predicate Summarises(st: Stats, es: seq<seq<Characteristic>>)
  {
    && LengthsOk(st, es)
    && |st.df| == st.maxTokens && |st.cp| == st.maxTokens && |st.peaks| == st.maxTokens
    && (forall i :: 0 <= i < st.maxTokens ==> PositionOk(st.df[i], st.cp[i], st.peaks[i], es, i))
  }

  /** The shortest and longest entry: every entry is at most `maxTokens`
      long and one has that length; `minTokens` is the length of some entry
      (0 for an empty word) and, when no entry is empty, the shortest. */
  ghost predicate LengthsOk(st: Stats, es: seq<seq<Characteristic>>)
  {
    && (forall j :: 0 <= j < |es| ==> |es[j]| <= st.maxTokens)
    && (|es| == 0 ==> st.maxTokens == 0 && st.minTokens == 0)
    && (|es| > 0 ==> exists j :: 0 <= j < |es| && |es[j]| == st.maxTokens)
    && (|es| > 0 ==> exists j :: 0 <= j < |es| && |es[j]| == st.minTokens)
    && ((forall j :: 0 <= j < |es| ==> |es[j]| > 0) ==> forall j :: 0 <= j < |es| ==> st.minTokens <= |es[j]|)
  }

  /** The lists kept for token position i: the dominant frequencies sorted
      without repeats, the peak counts without repeats, and the peak indices,
      each holding exactly the values seen at position i. */
  ghost predicate PositionOk(df: seq<int>, cp: seq<int>, peaks: seq<int>, es: seq<seq<Characteristic>>, i: nat)
  {
    && Increasing(df) && Elems(df) == Gather(es, i, DfOf)
    && Distinct(cp) && |cp| > 0 && Elems(cp) == Gather(es, i, PeakCountOf)
    && Elems(peaks) == Gather(es, i, PeaksOf)
  }

  /** The per-position minima and maxima of peak indices (0 for a position
      without peaks) and of peak counts. */
  ghost predicate Finalised(st: Stats)
  {
    && |st.minp| == |st.peaks| && |st.maxp| == |st.peaks|
    && (forall i :: 0 <= i < |st.peaks| ==> PeakExtremes(st.peaks[i], st.minp[i], st.maxp[i]))
    && |st.mincp| == |st.cp| && |st.maxcp| == |st.cp|
    && (forall i :: 0 <= i < |st.cp| ==> CountExtremes(st.cp[i], st.mincp[i], st.maxcp[i]))
  }

  predicate PeakExtremes(p: seq<int>, lo: int, hi: int)
  {
    if |p| > 0 then lo == SeqMin(p) && hi == SeqMax(p) else lo == 0 && hi == 0
  }

  predicate CountExtremes(cp: seq<int>, lo: int, hi: int)
  {
    |cp| > 0 && lo == SeqMin(cp) && hi == SeqMax(cp)
  }

  // ---------------------------------------------------------------------------
  // Helpers on integer lists

  lemma {:induction false} IncreasingCountsAtMostOne(s: seq<int>)
    requires Increasing(s)
    ensures forall v :: multiset(s)[v] <= 1
  {
    if s != [] {
      var init := s[..|s| - 1];
      IncreasingCountsAtMostOne(init);
      assert s == init + [s[|s| - 1]];
      assert s[|s| - 1] !in init;
    }
  }

  /** A sorted list in which no value occurs twice is strictly increasing. */
  lemma SortedSingletonsIncreasing(t: seq<int>)
    requires forall i, j :: 0 <= i < j < |t| ==> t[i] <= t[j]
    requires forall v :: multiset(t)[v] <= 1
    ensures Increasing(t)
  {
    forall i, j | 0 <= i < j < |t| ensures t[i] < t[j] {
      if t[i] == t[j] {
        TwoOccurrences(t, i, j);
      }
    }
  }

  lemma TwoOccurrences(t: seq<int>, i: nat, j: nat)
    requires i < j < |t| && t[i] == t[j]
    ensures multiset(t)[t[i]] >= 2
  {
    assert t == t[..j] + t[j..];
    assert t[i] in t[..j];
    assert t[j] in t[j..];
  }

  /** sorted(s + [x]) for a strictly increasing s that lacks x. */
  lemma InsertKeepsIncreasing(s: seq<int>, x: int)
    requires Increasing(s) && x !in s
    ensures Increasing(SortInts(s + [x]))
    ensures Elems(SortInts(s + [x])) == Elems(s) + {x}
  {
    var t := SortInts(s + [x]);
    IncreasingCountsAtMostOne(s);
    assert multiset(s + [x]) == multiset(s) + multiset{x};
    assert forall v :: multiset(t)[v] <= 1;
    SortedSingletonsIncreasing(t);
    SameElems(t, s + [x]);
  }

  lemma SameElems(a: seq<int>, b: seq<int>)
    requires multiset(a) == multiset(b)
    ensures Elems(a) == Elems(b)
  {
    forall v ensures v in a <==> v in b {
      assert v in a <==> v in multiset(a);
      assert v in b <==> v in multiset(b);
    }
  }

  /** The loop `for miss in from: if miss not in into: into.append(miss)`. */
  method AddMissing(into: seq<int>, from: seq<int>) returns (r: seq<int>)
    ensures Elems(r) == Elems(into) + Elems(from)
    ensures into <= r
  {
    r := into;
    for k := 0 to |from|
      invariant Elems(r) == Elems(into) + Elems(from[..k])
      invariant into <= r
    {
      assert from[..k + 1] == from[..k] + [from[k]];
      ElemsSnoc(from[..k], from[k]);
      ElemsSnoc(r, from[k]);
      if from[k] !in r {
        r := r + [from[k]];
      }
    }
    assert from[..|from|] == from;
  }

  // ---------------------------------------------------------------------------
  // compile_analysis

  /** What the loop over token positions has established after position i. */
  ghost predicate PositionsDone(r: Stats, st: Stats, es: seq<seq<Characteristic>>, e: seq<Characteristic>, i: nat)
  {
    && |r.df| == |r.cp| == |r.peaks|
    && (forall p :: 0 <= p < |r.df| && p < i ==> PositionOk(r.df[p], r.cp[p], r.peaks[p], es + [e], p))
    && |st.df| == |st.cp| == |st.peaks|
    && (forall p :: i <= p < |st.df| && p < |r.df| ==> r.df[p] == st.df[p] && r.cp[p] == st.cp[p] && r.peaks[p] == st.peaks[p])
  }

  /** One pass of compile_analysis's loop body: fold entry `e` of a word into
      that word's statistics. */
  method AbsorbEntry(st: Stats, ghost es: seq<seq<Characteristic>>, e: seq<Characteristic>) returns (r: Stats)
    requires Summarises(st, es)
    ensures Summarises(r, es + [e])
    ensures r.minp == st.minp && r.maxp == st.maxp && r.mincp == st.mincp && r.maxcp == st.maxcp
  {
    var length := |e|;
    r := st;
    if length > r.maxTokens {
      r := r.(maxTokens := length);
    }
    if length < r.minTokens || r.minTokens == 0 {
      r := r.(minTokens := length);
    }
    LengthsSummarised(st, r, es, e);
    for i := 0 to |e|
      invariant r.maxTokens == (if length > st.maxTokens then length else st.maxTokens)
      invariant |r.df| == (if i > st.maxTokens then i else st.maxTokens)
      invariant PositionsDone(r, st, es, e, i)
      invariant r.minp == st.minp && r.maxp == st.maxp && r.mincp == st.mincp && r.maxcp == st.maxcp
      invariant LengthsOk(r, es + [e])
    {
      var entry := e[i];
      ghost var before := r;
      GatherSnoc(es, e, i, DfOf);
      GatherSnoc(es, e, i, PeakCountOf);
      GatherSnoc(es, e, i, PeaksOf);
      if i < |r.df| {
        SeenAt(r, st, es, e, i);
      } else {
        GatherBeyond(es, i, DfOf);
        GatherBeyond(es, i, PeakCountOf);
        GatherBeyond(es, i, PeaksOf);
      }
      var cpAt := CountsAt(r.cp, i, |entry.peaks|, Gather(es, i, PeakCountOf));
      var peaksAt := PeaksAt(r.peaks, i, entry.peaks, Gather(es, i, PeaksOf));
      var dfAt := FrequenciesAt(r.df, i, entry.df, Gather(es, i, DfOf));
      r := r.(cp := Put(r.cp, i, cpAt), peaks := Put(r.peaks, i, peaksAt), df := Put(r.df, i, dfAt));
      StepDone(before, r, st, es, e, i, cpAt, peaksAt, dfAt);
    }
    FinishAbsorb(r, st, es, e);
  }

  lemma LengthsSummarised(st: Stats, r: Stats, es: seq<seq<Characteristic>>, e: seq<Characteristic>)
    requires Summarises(st, es)
    requires r.maxTokens == (if |e| > st.maxTokens then |e| else st.maxTokens)
    requires r.minTokens == (if |e| < st.minTokens || st.minTokens == 0 then |e| else st.minTokens)
    ensures LengthsOk(r, es + [e])
  {
    var es' := es + [e];
    assert es'[|es|] == e;
    assert forall j :: 0 <= j < |es| ==> es'[j] == es[j];
    if |es| > 0 {
      var jm :| 0 <= jm < |es| && |es[jm]| == st.maxTokens;
      assert |es'[jm]| == st.maxTokens;
      var jn :| 0 <= jn < |es| && |es[jn]| == st.minTokens;
      assert |es'[jn]| == st.minTokens;
      if forall j :: 0 <= j < |es'| ==> |es'[j]| > 0 {
        assert forall j :: 0 <= j < |es| ==> |es[j]| > 0 by {
          forall j | 0 <= j < |es| ensures |es[j]| > 0 { assert es'[j] == es[j]; }
        }
        assert st.minTokens > 0;
      }
    }
  }

  /** `s[i] = x` for an existing position, `s.append(x)` for the next one. */
  function Put(s: seq<seq<int>>, i: nat, x: seq<int>): (r: seq<seq<int>>)
    requires i <= |s|
    ensures |r| == (if i == |s| then i + 1 else |s|)
    ensures r[i] == x
    ensures forall p :: 0 <= p < |s| && p != i ==> r[p] == s[p]
  {
    if i == |s| then s + [x] else s[i := x]
  }

  /** The peak counts at position i once a token with `peakLength` peaks
      has been seen there. */
  method CountsAt(cp: seq<seq<int>>, i: nat, peakLength: int, ghost seen: set<int>) returns (cpAt: seq<int>)
    requires i <= |cp|
    requires i == |cp| ==> seen == {}
    requires i < |cp| ==> Distinct(cp[i]) && Elems(cp[i]) == seen
    ensures Distinct(cpAt) && |cpAt| > 0 && Elems(cpAt) == seen + {peakLength}
  {
    if i == |cp| {
      cpAt := [peakLength];
    } else {
      cpAt := cp[i];
      if peakLength !in cpAt {
        ElemsSnoc(cpAt, peakLength);
        cpAt := cpAt + [peakLength];
      }
    }
  }

  /** The peak indices at position i once a token with peaks `ps` has been
      seen there. */
  method PeaksAt(peaks: seq<seq<int>>, i: nat, ps: seq<int>, ghost seen: set<int>) returns (peaksAt: seq<int>)
    requires i <= |peaks|
    requires i == |peaks| ==> seen == {}
    requires i < |peaks| ==> Elems(peaks[i]) == seen
    ensures Elems(peaksAt) == seen + Elems(ps)
  {
    if i == |peaks| {
      peaksAt := ps;
    } else {
      var merged := AddMissing(peaks[i], ps);
      SameElems(SortInts(merged), merged);
      peaksAt := SortInts(merged);
    }
  }

  /** The dominant frequencies at position i once a token with dominant
      frequency `x` has been seen there. */
  method FrequenciesAt(df: seq<seq<int>>, i: nat, x: int, ghost seen: set<int>) returns (dfAt: seq<int>)
    requires i <= |df|
    requires i == |df| ==> seen == {}
    requires i < |df| ==> Increasing(df[i]) && Elems(df[i]) == seen
    ensures Increasing(dfAt) && Elems(dfAt) == seen + {x}
  {
    if i == |df| {
      dfAt := [];
    } else {
      dfAt := df[i];
    }
    if x !in dfAt {
      InsertKeepsIncreasing(dfAt, x);
      dfAt := SortInts(dfAt + [x]);
    }
  }

  /** Before position i is updated, its lists describe the earlier entries. */
  lemma SeenAt(r: Stats, st: Stats, es: seq<seq<Characteristic>>, e: seq<Characteristic>, i: nat)
    requires Summarises(st, es)
    requires PositionsDone(r, st, es, e, i)
    requires |r.df| == (if i > st.maxTokens then i else st.maxTokens)
    requires i < |r.df|
    ensures PositionOk(r.df[i], r.cp[i], r.peaks[i], es, i)
  {
  }

  lemma StepDone(before: Stats, r: Stats, st: Stats, es: seq<seq<Characteristic>>, e: seq<Characteristic>, i: nat,
                 cpAt: seq<int>, peaksAt: seq<int>, dfAt: seq<int>)
    requires PositionsDone(before, st, es, e, i)
    requires i <= |before.df|
    requires r == before.(cp := Put(before.cp, i, cpAt), peaks := Put(before.peaks, i, peaksAt), df := Put(before.df, i, dfAt))
    requires PositionOk(dfAt, cpAt, peaksAt, es + [e], i)
    ensures PositionsDone(r, st, es, e, i + 1)
  {
  }

  lemma FinishAbsorb(r: Stats, st: Stats, es: seq<seq<Characteristic>>, e: seq<Characteristic>)
    requires Summarises(st, es)
    requires LengthsOk(r, es + [e])
    requires |r.df| == (if |e| > st.maxTokens then |e| else st.maxTokens) == r.maxTokens
    requires PositionsDone(r, st, es, e, |e|)
    ensures Summarises(r, es + [e])
  {
    forall p | |e| <= p < r.maxTokens
      ensures PositionOk(r.df[p], r.cp[p], r.peaks[p], es + [e], p)
    {
      assert PositionOk(st.df[p], st.cp[p], st.peaks[p], es, p);
      GatherSnoc(es, e, p, DfOf);
      GatherSnoc(es, e, p, PeakCountOf);
      GatherSnoc(es, e, p, PeaksOf);
    }
  }

  /** The minima and maxima that compile_analysis appends once every entry
      has been read; `min(cp)` is defined because every peak-count list is
      non-empty. */
  method Finalise(st: Stats) returns (r: Stats)
    requires st.minp == [] && st.maxp == [] && st.mincp == [] && st.maxcp == []
    requires forall i :: 0 <= i < |st.cp| ==> |st.cp[i]| > 0
    ensures Finalised(r)
    ensures r.minTokens == st.minTokens && r.maxTokens == st.maxTokens
    ensures r.peaks == st.peaks && r.df == st.df && r.cp == st.cp
  {
    r := st;
    for i := 0 to |r.peaks|
      invariant r == st.(minp := r.minp, maxp := r.maxp)
      invariant |r.minp| == i && |r.maxp| == i
      invariant forall p :: 0 <= p < i ==> PeakExtremes(r.peaks[p], r.minp[p], r.maxp[p])
    {
      var p := r.peaks[i];
      if |p| > 0 {
        r := r.(minp := r.minp + [SeqMin(p)]);
      } else {
        r := r.(minp := r.minp + [0]);
      }
      if |p| > 0 {
        r := r.(maxp := r.maxp + [SeqMax(p)]);
      } else {
        r := r.(maxp := r.maxp + [0]);
      }
    }
    for i := 0 to |r.cp|
      invariant r == st.(minp := r.minp, maxp := r.maxp, mincp := r.mincp, maxcp := r.maxcp)
      invariant |r.minp| == |r.peaks| && |r.maxp| == |r.peaks|
      invariant forall p :: 0 <= p < |r.peaks| ==> PeakExtremes(r.peaks[p], r.minp[p], r.maxp[p])
      invariant |r.mincp| == i && |r.maxcp| == i
      invariant forall p :: 0 <= p < i ==> CountExtremes(r.cp[p], r.mincp[p], r.maxcp[p])
    {
      var cp := r.cp[i];
      r := r.(mincp := r.mincp + [SeqMin(cp)], maxcp := r.maxcp + [SeqMax(cp)]);
    }
  }

  lemma EntriesOfSnoc(d: seq<DictEntry>, k: nat, id: string)
    requires k < |d|
    ensures EntriesOf(d[..k + 1], id) == EntriesOf(d[..k], id) + (if d[k].id == id then [d[k].characteristic] else [])
  {
    assert d[..k + 1][..k] == d[..k];
  }

  lemma {:induction false} EntriesOfAbsent(d: seq<DictEntry>, id: string)
    requires forall j :: 0 <= j < |d| ==> d[j].id != id
    ensures EntriesOf(d, id) == []
  {
    if d != [] {
      EntriesOfAbsent(d[..|d| - 1], id);
    }
  }

  /** The shortest template of a word is never longer than its longest. */
  lemma MinAtMostMax(st: Stats, es: seq<seq<Characteristic>>)
    requires Summarises(st, es)
    ensures st.minTokens <= st.maxTokens
  {
    if |es| > 0 {
      var j :| 0 <= j < |es| && |es[j]| == st.minTokens;
    }
  }

  lemma SummarisesSame(a: Stats, b: Stats, es: seq<seq<Characteristic>>, es': seq<seq<Characteristic>>)
    requires a == b && es == es'
    requires Summarises(a, es)
    ensures Summarises(b, es')
  {
  }

  /** compile_analysis: one statistics record per word of the dictionary. */
  method CompileAnalysis(d: seq<DictEntry>) returns (analysis: map<string, Stats>)
    ensures forall id :: id in analysis <==> exists j :: 0 <= j < |d| && d[j].id == id
    ensures forall id :: id in analysis ==>
      Summarises(analysis[id], EntriesOf(d, id)) && Finalised(analysis[id]) &&
      analysis[id].minTokens <= analysis[id].maxTokens
  {
    var collected := CollectStats(d);
    assert d[..|d|] == d;
    forall id | id in collected ensures forall i :: 0 <= i < |collected[id].cp| ==> |collected[id].cp[i]| > 0 {
      CountsNonEmpty(collected[id], EntriesOf(d, id));
    }
    analysis := FinaliseAll(collected);
    forall id | id in analysis
      ensures Summarises(analysis[id], EntriesOf(d, id))
      ensures analysis[id].minTokens <= analysis[id].maxTokens
    {
      SummarisesCore(collected[id], analysis[id], EntriesOf(d, id));
      MinAtMostMax(analysis[id], EntriesOf(d, id));
    }
  }

  /** What the statistics hold after the first k dictionary entries have
      been read. */
  ghost predicate Collected(a: map<string, Stats>, d: seq<DictEntry>, k: nat)
    requires k <= |d|
  {
    && (forall id :: id in a <==> exists j :: 0 <= j < k && d[j].id == id)
    && (forall id :: id in a ==> Summarises(a[id], EntriesOf(d[..k], id)))
    && (forall id :: id in a ==> a[id].minp == [] && a[id].maxp == [] && a[id].mincp == [] && a[id].maxcp == [])
  }

  /** The loop of compile_analysis over the dictionary entries. */
  method CollectStats(d: seq<DictEntry>) returns (analysis: map<string, Stats>)
    ensures Collected(analysis, d, |d|)
  {
    analysis := map[];
    for k := 0 to |d|
      invariant Collected(analysis, d, k)
    {
      analysis := CollectEntry(analysis, d, k);
    }
  }

  /** One pass of the loop: create the word's record if it is new, then fold
      entry k into it. */
  method CollectEntry(start: map<string, Stats>, d: seq<DictEntry>, k: nat) returns (analysis: map<string, Stats>)
    requires k < |d| && Collected(start, d, k)
    ensures Collected(analysis, d, k + 1)
  {
    var entry := d[k];
    analysis := start;
    if entry.id !in analysis {
      analysis := analysis[entry.id := Unset];
    }
    CollectedEntry(start, analysis, d, k);
    var st := AbsorbEntry(analysis[entry.id], EntriesOf(d[..k], entry.id), entry.characteristic);
    CollectStep(start, d, k, st);
    analysis := analysis[entry.id := st];
  }

  /** The record that entry k is folded into summarises the earlier entries
      of its word. */
  lemma CollectedEntry(start: map<string, Stats>, a: map<string, Stats>, d: seq<DictEntry>, k: nat)
    requires k < |d| && Collected(start, d, k)
    requires a == if d[k].id in start then start else start[d[k].id := Unset]
    ensures d[k].id in a
    ensures Summarises(a[d[k].id], EntriesOf(d[..k], d[k].id))
    ensures a[d[k].id].minp == [] && a[d[k].id].maxp == [] && a[d[k].id].mincp == [] && a[d[k].id].maxcp == []
  {
    if d[k].id !in start {
      EntriesOfAbsent(d[..k], d[k].id);
    }
  }

  lemma CollectStep(start: map<string, Stats>, d: seq<DictEntry>, k: nat, st: Stats)
    requires k < |d| && Collected(start, d, k)
    requires Summarises(st, EntriesOf(d[..k], d[k].id) + [d[k].characteristic])
    requires st.minp == [] && st.maxp == [] && st.mincp == [] && st.maxcp == []
    ensures Collected(start[d[k].id := st], d, k + 1)
  {
    var a := start[d[k].id := st];
    forall id ensures id in a <==> exists j :: 0 <= j < k + 1 && d[j].id == id {
      if id in start {
        var j :| 0 <= j < k && d[j].id == id;
        assert 0 <= j < k + 1 && d[j].id == id;
      }
    }
    forall id | id in a ensures Summarises(a[id], EntriesOf(d[..k + 1], id)) {
      EntriesOfSnoc(d, k, id);
      if id != d[k].id {
        SummarisesSame(start[id], a[id], EntriesOf(d[..k], id), EntriesOf(d[..k + 1], id));
      } else {
        SummarisesSame(st, a[id], EntriesOf(d[..k], id) + [d[k].characteristic], EntriesOf(d[..k + 1], id));
      }
    }
  }

  /** A record with its minima and maxima cleared. */
  function Core(st: Stats): Stats
  {
    st.(minp := [], maxp := [], mincp := [], maxcp := [])
  }

  /** Summarises looks only at the token counts and the per-position lists. */
  lemma SummarisesCore(a: Stats, b: Stats, es: seq<seq<Characteristic>>)
    requires Core(a) == Core(b) && Summarises(a, es)
    ensures Summarises(b, es)
  {
    assert a.df == Core(a).df && b.df == Core(b).df;
    assert a.cp == Core(a).cp && b.cp == Core(b).cp;
    assert a.peaks == Core(a).peaks && b.peaks == Core(b).peaks;
    assert a.minTokens == Core(a).minTokens && b.minTokens == Core(b).minTokens;
    assert a.maxTokens == Core(a).maxTokens && b.maxTokens == Core(b).maxTokens;
  }

  /** What the statistics hold while the words left in `ids` still await
      their minima and maxima. */
  ghost predicate FinalisedExcept(a: map<string, Stats>, collected: map<string, Stats>, ids: set<string>)
  {
    && ids <= a.Keys && a.Keys == collected.Keys
    && (forall id :: id in a ==> Core(a[id]) == Core(collected[id]))
    && (forall id :: id in ids ==> a[id] == collected[id])
    && (forall id :: id in a && id !in ids ==> Finalised(a[id]))
  }

  /** The loop of compile_analysis over the words, filling in the minima and
      maxima. */
  method FinaliseAll(collected: map<string, Stats>) returns (analysis: map<string, Stats>)
    requires forall id :: id in collected ==>
      collected[id].minp == [] && collected[id].maxp == [] && collected[id].mincp == [] && collected[id].maxcp == []
    requires forall id :: id in collected ==> forall i :: 0 <= i < |collected[id].cp| ==> |collected[id].cp[i]| > 0
    ensures analysis.Keys == collected.Keys
    ensures forall id :: id in analysis ==> Core(analysis[id]) == Core(collected[id]) && Finalised(analysis[id])
  {
    analysis := collected;
    var ids := analysis.Keys;
    while ids != {}
      invariant FinalisedExcept(analysis, collected, ids)
      decreases ids
    {
      var id :| id in ids;
      var st := Finalise(analysis[id]);
      analysis := analysis[id := st];
      ids := ids - {id};
    }
  }

  /** Every peak-count list of a summary is non-empty, so min() and max()
      are defined on it. */
  lemma CountsNonEmpty(st: Stats, es: seq<seq<Characteristic>>)
    requires Summarises(st, es)
    ensures forall i :: 0 <= i < |st.cp| ==> |st.cp[i]| > 0
  {
    forall i | 0 <= i < |st.cp| ensures |st.cp[i]| > 0 {
      assert PositionOk(st.df[i], st.cp[i], st.peaks[i], es, i);
    }
  }
}
