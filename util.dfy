/** The dictionary helpers and scalar/vector primitives of sopare/util.py:
    the split Manhattan distance, the scalar ratio used for dominant
    frequencies, the token list built from a training capture, the peak
    weighting of a compiled template, and the filter behind deleting entries. */
module Util {
  import opened Basics
  import opened Features

  // ---------------------------------------------------------------------------
  // manhattan_distance

  /** sum(abs(e - s) for s, e in zip(a, b)): the pairing stops at the shorter list. */
  function AbsDiffSum(a: seq<real>, b: seq<real>): (r: real)
    ensures r >= 0.0
  {
    if a == [] || b == [] then 0.0 else Abs(b[0] - a[0]) + AbsDiffSum(a[1..], b[1..])
  }

  lemma {:induction false} AbsDiffSumSymmetric(a: seq<real>, b: seq<real>)
    ensures AbsDiffSum(a, b) == AbsDiffSum(b, a)
  {
    if a != [] && b != [] {
      AbsDiffSumSymmetric(a[1..], b[1..]);
    }
  }

  lemma {:induction false} AbsDiffSumSelf(a: seq<real>)
    ensures AbsDiffSum(a, a) == 0.0
  {
    if a != [] {
      AbsDiffSumSelf(a[1..]);
    }
  }

  /** Splitting two equally long lists at the same index splits their distance. */
  lemma {:induction false} AbsDiffSumSplit(a: seq<real>, b: seq<real>, k: nat)
    requires |a| == |b| && k <= |a|
    ensures AbsDiffSum(a, b) == AbsDiffSum(a[..k], b[..k]) + AbsDiffSum(a[k..], b[k..])
  {
    if k > 0 {
      assert a[..k][1..] == a[1..][..k - 1];
      assert b[..k][1..] == b[1..][..k - 1];
      assert a[k..] == a[1..][k - 1..];
      assert b[k..] == b[1..][k - 1..];
      AbsDiffSumSplit(a[1..], b[1..], k - 1);
    }
  }

  /** manhattan_distance(a, b): the distance over the first half and over the
      second half, the split index being floor(max(len(a), len(b)) / 2) and each
      half pairing elements only as far as the shorter list reaches. */
  function ManhattanDistance(a: seq<real>, b: seq<real>): (r: (real, real))
    ensures r.0 >= 0.0 && r.1 >= 0.0
  {
    var ll := (if |a| >= |b| then |a| else |b|) / 2;
    (AbsDiffSum(Slice(a, 0, ll), Slice(b, 0, ll)), AbsDiffSum(Slice(a, ll, |a|), Slice(b, ll, |b|)))
  }

  lemma ManhattanDistanceSymmetric(a: seq<real>, b: seq<real>)
    ensures ManhattanDistance(a, b) == ManhattanDistance(b, a)
  {
    var ll := (if |a| >= |b| then |a| else |b|) / 2;
    AbsDiffSumSymmetric(Slice(a, 0, ll), Slice(b, 0, ll));
    AbsDiffSumSymmetric(Slice(a, ll, |a|), Slice(b, ll, |b|));
  }

  lemma ManhattanDistanceSelf(a: seq<real>)
    ensures ManhattanDistance(a, a) == (0.0, 0.0)
  {
    var ll := |a| / 2;
    AbsDiffSumSelf(Slice(a, 0, ll));
    AbsDiffSumSelf(Slice(a, ll, |a|));
  }

  /** For equally long vectors the two halves add up to the whole Manhattan distance. */
  lemma ManhattanDistanceHalves(a: seq<real>, b: seq<real>)
    requires |a| == |b|
    ensures ManhattanDistance(a, b).0 + ManhattanDistance(a, b).1 == AbsDiffSum(a, b)
  {
    AbsDiffSumSplit(a, b, |a| / 2);
  }

  // ---------------------------------------------------------------------------
  // single_similarity

  /** The ratio of two scalars: 1 when both are 0, 0 when exactly one is 0,
      otherwise the smaller divided by the larger. */
  function SingleSimilarity(a: real, b: real): (r: real)
    ensures a == 0.0 && b == 0.0 ==> r == 1.0
    ensures (a == 0.0) != (b == 0.0) ==> r == 0.0
    ensures a != 0.0 && b != 0.0 ==> r == (if a < b then a / b else b / a)
    ensures a > 0.0 && b > 0.0 ==> 0.0 < r <= 1.0
    ensures a == b ==> r == 1.0
  {
    if a == 0.0 && b == 0.0 then 1.0
    else if a == 0.0 || b == 0.0 then 0.0
    else if a < b then (if a > 0.0 then DivAtMostOne(a, b); a / b else a / b)
    else (if b > 0.0 then DivAtMostOne(b, a); b / a else b / a)
  }

  lemma SingleSimilaritySymmetric(a: real, b: real)
    ensures SingleSimilarity(a, b) == SingleSimilarity(b, a)
  {
  }

  // ---------------------------------------------------------------------------
  // prepare_dict_model

  /** One captured frame: the characteristic the feature builder made of it
      (None when it made none) and the frame's tags. */
  datatype Frame = Frame(characteristic: Option<Characteristic>, meta: seq<string>)

  /** The index of the first 'start analysis' tag, or the number of tags
      when there is none. */
  function FirstStart(meta: seq<string>): (k: nat)
    ensures k <= |meta|
    ensures k < |meta| ==> meta[k] == StartAnalysis
    ensures forall i :: 0 <= i < k ==> meta[i] != StartAnalysis
  {
    if meta == [] || meta[0] == StartAnalysis then 0
    else
      var k := FirstStart(meta[1..]);
      assert forall i :: 1 <= i < k + 1 ==> meta[i] == meta[1..][i - 1];
      k + 1
  }

  /** The tags prepare_dict_model looks at: all of them up to and including
      the first 'start analysis'. */
  function ThroughStart(meta: seq<string>): (r: seq<string>)
    ensures r <= meta
    ensures StartAnalysis in r ==> r[|r| - 1] == StartAnalysis
    ensures StartAnalysis !in r ==> r == meta
    ensures StartAnalysis !in r[..if r == [] then 0 else |r| - 1]
  {
    var k := FirstStart(meta);
    if k < |meta| then meta[..k + 1] else meta
  }

  /** How many times a frame's characteristic is appended: once per tag other
      than 'stop' among the tags scanned. */
  function Copies(meta: seq<string>): (n: nat)
    ensures n <= |meta|
    ensures (forall i :: 0 <= i < |meta| ==> meta[i] == Stop) ==> n == 0
    ensures meta != [] && meta[0] == StartAnalysis ==> n == 1
  {
    var scanned := ThroughStart(meta);
    NonStopBound(scanned, meta);
    |scanned| - Count(scanned, Stop)
  }

  lemma {:induction false} NonStopBound(scanned: seq<string>, meta: seq<string>)
    requires scanned <= meta
    ensures (forall i :: 0 <= i < |meta| ==> meta[i] == Stop) ==> Count(scanned, Stop) == |scanned|
  {
    if scanned != [] {
      NonStopBound(scanned[..|scanned| - 1], meta);
    }
  }

  function Repeat(c: Characteristic, n: nat): (r: seq<Characteristic>)
    ensures |r| == n && forall i :: 0 <= i < n ==> r[i] == c
  {
    seq(n, _ => c)
  }

  /** The tokens one frame contributes. */
  function FrameTokens(f: Frame): seq<Characteristic>
  {
    if f.characteristic.Some? then Repeat(f.characteristic.value, Copies(f.meta)) else []
  }

  /** The token list of a capture: each frame's contribution, in frame order. */
  function ModelTokens(frames: seq<Frame>): seq<Characteristic>
  {
    if frames == [] then [] else ModelTokens(frames[..|frames| - 1]) + FrameTokens(frames[|frames| - 1])
  }

  /** Some frame of the capture carries characteristic t. */
  predicate FromFrame(frames: seq<Frame>, t: Characteristic)
  {
    exists k :: 0 <= k < |frames| && frames[k].characteristic == Some(t)
  }

  /** Every token comes from a frame that has a characteristic. */
  lemma {:induction false} ModelTokensFromFrames(frames: seq<Frame>)
    ensures forall t :: t in ModelTokens(frames) ==> FromFrame(frames, t)
  {
    if frames != [] {
      var n := |frames| - 1;
      var init := frames[..n];
      ModelTokensFromFrames(init);
      forall t | t in ModelTokens(frames) ensures FromFrame(frames, t) {
        if t in ModelTokens(init) {
          var k :| 0 <= k < |init| && init[k].characteristic == Some(t);
          assert frames[k] == init[k];
        } else {
          assert t in FrameTokens(frames[n]);
          assert frames[n].characteristic == Some(t);
        }
      }
    }
  }

  /** Scanning stops at the first 'start analysis', or at the end. */
  lemma ThroughStartAt(meta: seq<string>, j: nat)
    requires j <= |meta| && StartAnalysis !in meta[..j]
    ensures j == |meta| ==> ThroughStart(meta) == meta
    ensures j < |meta| && meta[j] == StartAnalysis ==> ThroughStart(meta) == meta[..j + 1]
  {
    assert forall i :: 0 <= i < j ==> meta[i] == meta[..j][i];
  }

  /** The tokens a frame adds for n scanned tags other than 'stop'. */
  function Contribution(f: Frame, n: nat): seq<Characteristic>
  {
    if f.characteristic.Some? then Repeat(f.characteristic.value, n) else []
  }

  /** One more tag other than 'stop' appends one more copy, if any. */
  lemma ContributionSnoc(f: Frame, n: nat, out: seq<Characteristic>, tokens: seq<Characteristic>)
    requires out == tokens + Contribution(f, n)
    ensures f.characteristic.Some? ==> out + [f.characteristic.value] == tokens + Contribution(f, n + 1)
    ensures f.characteristic.None? ==> out == tokens + Contribution(f, n + 1)
  {
    if f.characteristic.Some? {
      assert Repeat(f.characteristic.value, n) + [f.characteristic.value] == Repeat(f.characteristic.value, n + 1);
    }
  }

  /** Scanning one more tag adds one copy unless the tag is 'stop'. */
  lemma CountStep(meta: seq<string>, j: nat)
    requires j < |meta|
    ensures Count(meta[..j + 1], Stop) == Count(meta[..j], Stop) + (if meta[j] == Stop then 1 else 0)
  {
    assert meta[..j + 1][..j] == meta[..j];
  }

  /** The inner loop of prepare_dict_model over one frame's tags: append the
      frame's characteristic once per tag that is not 'stop', stopping after
      the first 'start analysis'. */
  method AppendFrameTokens(tokens: seq<Characteristic>, f: Frame) returns (out: seq<Characteristic>)
    ensures out == tokens + FrameTokens(f)
  {
    out := tokens;
    ghost var n: nat := 0;
    var j := 0;
    while j < |f.meta|
      invariant 0 <= j <= |f.meta|
      invariant StartAnalysis !in f.meta[..j]
      invariant n == j - Count(f.meta[..j], Stop)
      invariant out == tokens + Contribution(f, n)
    {
      CountStep(f.meta, j);
      var token := f.meta[j];
      if token != Stop {
        ContributionSnoc(f, n, out, tokens);
        if f.characteristic.Some? {
          out := out + [f.characteristic.value];
        }
        n := n + 1;
        if token == StartAnalysis {
          ThroughStartAt(f.meta, j);
          FrameTokensCount(f, n);
          return;
        }
      }
      assert f.meta[..j + 1] == f.meta[..j] + [token];
      j := j + 1;
    }
    assert f.meta[..j] == f.meta;
    ThroughStartAt(f.meta, j);
    FrameTokensCount(f, n);
  }

  lemma FrameTokensCount(f: Frame, n: nat)
    requires n == |ThroughStart(f.meta)| - Count(ThroughStart(f.meta), Stop)
    ensures FrameTokens(f) == Contribution(f, n)
  {
  }

  /** prepare_dict_model: the token list of a capture is every frame's
      contribution, in frame order. */
  method PrepareDictModel(frames: seq<Frame>) returns (tokens: seq<Characteristic>)
    ensures tokens == ModelTokens(frames)
    ensures forall t :: t in tokens ==> FromFrame(frames, t)
  {
    tokens := [];
    for k := 0 to |frames|
      invariant tokens == ModelTokens(frames[..k])
    {
      tokens := AppendFrameTokens(tokens, frames[k]);
      assert frames[..k + 1][..k] == frames[..k];
    }
    assert frames[..|frames|] == frames;
    ModelTokensFromFrames(frames);
  }

  // ---------------------------------------------------------------------------
  // add_weighting

  /** A token's peak energy, sum(token_peaks) / 1000. */
  function PeakScore(t: Characteristic): real
  {
    Sum(t.tokenPeaks) / 1000.0
  }

  /** The running maximum `high` of add_weighting: the largest peak energy of
      the list, or 0 when none is positive. */
  function High(ts: seq<Characteristic>): (h: real)
    ensures h >= 0.0
    ensures forall t :: t in ts ==> PeakScore(t) <= h
    ensures h == 0.0 || exists t :: t in ts && PeakScore(t) == h
  {
    if ts == [] then 0.0
    else
      var h := High(ts[..|ts| - 1]);
      assert forall t :: t in ts ==> t in ts[..|ts| - 1] || t == ts[|ts| - 1];
      if PeakScore(ts[|ts| - 1]) > h then PeakScore(ts[|ts| - 1]) else h
  }

  /** The weighting add_weighting gives token i. */
  function Weighting(ts: seq<Characteristic>, i: nat): real
    requires i < |ts| && High(ts) > 0.0
  {
    PeakScore(ts[i]) / High(ts)
  }

  /** The heaviest token weighs exactly 1 and none weighs more; with
      non-negative peak energies every weighting lies in [0, 1]. */
  lemma WeightingBounds(ts: seq<Characteristic>)
    requires High(ts) > 0.0
    ensures forall i :: 0 <= i < |ts| ==> Weighting(ts, i) <= 1.0
    ensures exists i :: 0 <= i < |ts| && Weighting(ts, i) == 1.0
    ensures (forall t :: t in ts ==> PeakScore(t) >= 0.0) ==> forall i :: 0 <= i < |ts| ==> 0.0 <= Weighting(ts, i)
  {
    var h := High(ts);
    forall i | 0 <= i < |ts| ensures Weighting(ts, i) <= 1.0 {
      assert ts[i] in ts;
      DivAtMostOne(PeakScore(ts[i]), h);
    }
    forall i | 0 <= i < |ts| && PeakScore(ts[i]) >= 0.0 ensures 0.0 <= Weighting(ts, i) {
      DivNonNegative(PeakScore(ts[i]), h);
    }
    var t :| t in ts && PeakScore(t) == h;
    var i :| 0 <= i < |ts| && ts[i] == t;
    DivSelf(h);
    assert Weighting(ts, i) == 1.0;
  }


  /** add_weighting: each token's weighting becomes its peak energy divided by
      the largest peak energy in the list. When no energy is positive the
      division fails on the first token and nothing is written (ok is false). */
  method AddWeighting(tokens: array<Characteristic>) returns (ok: bool)
    modifies tokens
    ensures ok <==> tokens.Length == 0 || High(old(tokens[..])) > 0.0
    ensures !ok ==> tokens[..] == old(tokens[..])
    ensures ok && tokens.Length > 0 ==> forall i :: 0 <= i < tokens.Length ==>
      tokens[i] == old(tokens[i]).(weighting := Some(Weighting(old(tokens[..]), i)))
  {
    var high := MaxPeakScore(tokens);
    if tokens.Length > 0 && high == 0.0 {
      return false;
    }
    if tokens.Length > 0 {
      SetWeightings(tokens, high);
    }
    return true;
  }

  /** The first loop of add_weighting: the running maximum of the peak
      energies, starting from 0. */
  method MaxPeakScore(tokens: array<Characteristic>) returns (high: real)
    ensures high == High(tokens[..])
  {
    high := 0.0;
    for i := 0 to tokens.Length
      invariant high == High(tokens[..i])
    {
      assert tokens[..i + 1][..i] == tokens[..i];
      var cs := PeakScore(tokens[i]);
      if cs > high {
        high := cs;
      }
    }
    assert tokens[..] == tokens[..tokens.Length];
  }

  /** The second loop of add_weighting: every token's weighting becomes its
      peak energy over `high`. */
  method SetWeightings(tokens: array<Characteristic>, high: real)
    modifies tokens
    requires high != 0.0
    ensures forall j :: 0 <= j < tokens.Length ==>
      tokens[j] == old(tokens[j]).(weighting := Some(PeakScore(old(tokens[j])) / high))
  {
    for i := 0 to tokens.Length
      invariant forall j :: 0 <= j < i ==> tokens[j] == old(tokens[j]).(weighting := Some(PeakScore(old(tokens[j])) / high))
      invariant forall j :: i <= j < tokens.Length ==> tokens[j] == old(tokens[j])
    {
      tokens[i] := tokens[i].(weighting := Some(PeakScore(tokens[i]) / high));
    }
  }

  // ---------------------------------------------------------------------------
  // delete_from_dict

  /** The entries whose id differs from `id`, in their original order. */
  function Without(d: seq<DictEntry>, id: string): seq<DictEntry>
  {
    if d == [] then []
    else Without(d[..|d| - 1], id) + (if d[|d| - 1].id != id then [d[|d| - 1]] else [])
  }

  /** An entry survives, as often as it occurs, exactly when its id differs. */
  lemma {:induction false} WithoutKeepsOthers(d: seq<DictEntry>, id: string)
    ensures forall e :: e in Without(d, id) <==> e in d && e.id != id
    ensures forall e: DictEntry :: e.id != id ==> multiset(Without(d, id))[e] == multiset(d)[e]
  {
    if d != [] {
      var init := d[..|d| - 1];
      WithoutKeepsOthers(init, id);
      assert d == init + [d[|d| - 1]];
    }
  }

  /** The filter in delete_from_dict: '*' removes every entry, any other id
      removes the entries carrying it and keeps the rest in order. */
  method DeleteFromDict(d: seq<DictEntry>, id: string) returns (kept: seq<DictEntry>)
    ensures id == "*" ==> kept == []
    ensures id != "*" ==> kept == Without(d, id)
    ensures forall e :: e in kept <==> id != "*" && e in d && e.id != id
  {
    kept := [];
    if id != "*" {
      for k := 0 to |d|
        invariant kept == Without(d[..k], id)
      {
        assert d[..k + 1][..k] == d[..k];
        if d[k].id != id {
          kept := kept + [d[k]];
        }
      }
      assert d[..|d|] == d;
      WithoutKeepsOthers(d, id);
    }
  }
}
