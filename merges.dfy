/** The structural part of `suggest_merges` (pipeline/steps.py:178-232):
    exact-id matches first, then for each candidate the first base id of
    highest similarity, kept when it reaches the threshold and the
    candidate has no suggestion yet. The similarity of candidate `i` to
    base topic `j` (an embedding cosine in the source) is the parameter
    `sim`. */
module Merges {
  import opened Wrappers
  import opened Utils
  import opened Models
  import opened Steps

  /** One `{candidate, target, score}` entry. */
  datatype Suggestion = Suggestion(candidate: string, target: string, score: real)

  /** The best score seen so far and the base index it came from. */
  datatype Best = Best(score: real, index: Option<nat>)

  const DefaultThreshold: real := 0.85
  const ExactScore: real := 1.0
  /** The starting value of `best`, below every cosine. */
  const NoMatch: real := -1.0

  /** The scan over the first `n` base topics for candidate `i`: the
      index is the first one of greatest score, provided that score beats
      the starting value; otherwise there is none and the score stays at
      the starting value. */
  function FirstBest(sim: (nat, nat) -> real, i: nat, n: nat): (r: Best)
    ensures r.index.None? <==> forall j :: 0 <= j < n ==> sim(i, j) <= NoMatch
    ensures r.index.None? ==> r.score == NoMatch
    ensures forall j :: 0 <= j < n ==> sim(i, j) <= r.score
    ensures r.index.Some? ==>
              && r.index.value < n
              && r.score == sim(i, r.index.value)
              && NoMatch < r.score
              && forall j :: 0 <= j < r.index.value ==> sim(i, j) < r.score
  {
    if n == 0 then Best(NoMatch, None)
    else
      var prev := FirstBest(sim, i, n - 1);
      if sim(i, n - 1) > prev.score then Best(sim(i, n - 1), Some(n - 1)) else prev
  }

  /** The inner loop: `best` and `best_tid` after scanning every base id. */
  method BestTarget(baseIds: seq<string>, sim: (nat, nat) -> real, i: nat) returns (best: real, bestTid: Option<string>)
    ensures var b := FirstBest(sim, i, |baseIds|);
            && best == b.score
            && (b.index.None? ==> bestTid.None?)
            && (b.index.Some? ==> b.index.value < |baseIds| && bestTid == Some(baseIds[b.index.value]))
  {
    best := NoMatch;
    bestTid := None;
    var j := 0;
    while j < |baseIds|
      invariant 0 <= j <= |baseIds|
      invariant var b := FirstBest(sim, i, j);
                && best == b.score
                && (b.index.None? ==> bestTid.None?)
                && (b.index.Some? ==> b.index.value < j && bestTid == Some(baseIds[b.index.value]))
    {
      var score := sim(i, j);
      if score > best {
        best := score;
        bestTid := Some(baseIds[j]);
      }
      j := j + 1;
    }
  }

  /** The exact-id heuristic over the first `n` candidate slugs. */
  function ExactMatches(candIds: seq<string>, baseIds: seq<string>, n: nat): (r: seq<Suggestion>)
    requires n <= |candIds|
    ensures |r| <= n
    ensures forall k :: 0 <= k < |r| ==>
              r[k].target == r[k].candidate && r[k].candidate in baseIds && r[k].score == ExactScore
    ensures forall k :: 0 <= k < |r| ==> exists c :: 0 <= c < n && candIds[c] == r[k].candidate
    ensures forall c :: 0 <= c < n && candIds[c] in baseIds ==> Suggestion(candIds[c], candIds[c], ExactScore) in r
  {
    if n == 0 then []
    else
      var prev := ExactMatches(candIds, baseIds, n - 1);
      if candIds[n - 1] in baseIds then prev + [Suggestion(candIds[n - 1], candIds[n - 1], ExactScore)] else prev
  }

  /** The candidates the suggestions name, in order. */
  function CandidatesIn(ms: seq<Suggestion>): (r: seq<string>)
    ensures |r| == |ms| && forall k :: 0 <= k < |ms| ==> r[k] == ms[k].candidate
  {
    seq(|ms|, k requires 0 <= k < |ms| => ms[k].candidate)
  }

  lemma {:induction false} ExactMatchesFiltered(candIds: seq<string>, baseIds: seq<string>, n: nat,
                                                inBase: string -> bool)
    requires n <= |candIds|
    requires forall c :: inBase(c) == (c in baseIds)
    ensures CandidatesIn(ExactMatches(candIds, baseIds, n)) == Filter(candIds[..n], inBase)
  {
    if n > 0 {
      ExactMatchesFiltered(candIds, baseIds, n - 1, inBase);
      assert candIds[..n][..n - 1] == candIds[..n - 1];
    }
  }

  /** The exact phase makes one suggestion per occurrence of a slug that
      is a base id, and none for any other slug, in candidate order. */
  lemma ExactMatchesPerOccurrence(candIds: seq<string>, baseIds: seq<string>, n: nat)
    requires n <= |candIds|
    ensures IsSubsequence(CandidatesIn(ExactMatches(candIds, baseIds, n)), candIds[..n])
    ensures forall c :: multiset(CandidatesIn(ExactMatches(candIds, baseIds, n)))[c] ==
                        if c in baseIds then multiset(candIds[..n])[c] else 0
  {
    var inBase := (c: string) => c in baseIds;
    ExactMatchesFiltered(candIds, baseIds, n, inBase);
    FilterInOrder(candIds[..n], inBase);
    FilterCounts(candIds[..n], inBase);
  }

  /** No entry of `ms` is for candidate `c`. */
  predicate Unsuggested(ms: seq<Suggestion>, c: string) {
    forall k :: 0 <= k < |ms| ==> ms[k].candidate != c
  }

  /** What the similarity phase proposes for candidate `i`: its first best
      base id, when the score reaches the threshold and the id is not
      empty. */
  function SimilarMatch(candIds: seq<string>, baseIds: seq<string>, sim: (nat, nat) -> real, threshold: real, i: nat)
    : (m: Option<Suggestion>)
    requires i < |candIds|
    ensures var b := FirstBest(sim, i, |baseIds|);
            m.Some? <==> threshold <= b.score && b.index.Some? && baseIds[b.index.value] != ""
    ensures var b := FirstBest(sim, i, |baseIds|);
            m.Some? ==> b.index.Some? && m.value == Suggestion(candIds[i], baseIds[b.index.value], b.score)
  {
    var b := FirstBest(sim, i, |baseIds|);
    if b.score >= threshold && b.index.Some? && baseIds[b.index.value] != "" then
      Some(Suggestion(candIds[i], baseIds[b.index.value], b.score))
    else None
  }

  /** The similarity phase over the first `n` candidates, starting from
      the exact matches, which it keeps as a prefix. */
  function SimilarMerges(exact: seq<Suggestion>, candIds: seq<string>, baseIds: seq<string>,
                         sim: (nat, nat) -> real, threshold: real, n: nat): (r: seq<Suggestion>)
    requires n <= |candIds|
    ensures |exact| <= |r| <= |exact| + n && r[..|exact|] == exact
  {
    if n == 0 then exact
    else
      var prev := SimilarMerges(exact, candIds, baseIds, sim, threshold, n - 1);
      var m := SimilarMatch(candIds, baseIds, sim, threshold, n - 1);
      if m.Some? && Unsuggested(prev, candIds[n - 1]) then prev + [m.value] else prev
  }

  /** Every entry after the exact ones is the similar match of one of the
      first `n` candidates. */
  lemma {:induction false} SimilarMergesAreMatches(exact: seq<Suggestion>, candIds: seq<string>, baseIds: seq<string>,
                                                   sim: (nat, nat) -> real, threshold: real, n: nat)
    requires n <= |candIds|
    ensures forall k :: |exact| <= k < |SimilarMerges(exact, candIds, baseIds, sim, threshold, n)| ==>
              exists i :: 0 <= i < n &&
                SimilarMatch(candIds, baseIds, sim, threshold, i) == Some(SimilarMerges(exact, candIds, baseIds, sim, threshold, n)[k])
  {
    if n > 0 {
      SimilarMergesAreMatches(exact, candIds, baseIds, sim, threshold, n - 1);
      var prev := SimilarMerges(exact, candIds, baseIds, sim, threshold, n - 1);
      var r := SimilarMerges(exact, candIds, baseIds, sim, threshold, n);
      forall k | |exact| <= k < |r|
        ensures exists i :: 0 <= i < n && SimilarMatch(candIds, baseIds, sim, threshold, i) == Some(r[k])
      {
        if k < |prev| {
          var i :| 0 <= i < n - 1 && SimilarMatch(candIds, baseIds, sim, threshold, i) == Some(prev[k]);
          assert r[k] == prev[k];
        } else {
          assert SimilarMatch(candIds, baseIds, sim, threshold, n - 1) == Some(r[k]);
        }
      }
    } else {
      assert SimilarMerges(exact, candIds, baseIds, sim, threshold, n) == exact;
    }
  }

  /** An entry is added only for a candidate with no earlier entry, the
      exact ones included. */
  lemma {:induction false} SimilarMergesNoRepeat(exact: seq<Suggestion>, candIds: seq<string>, baseIds: seq<string>,
                                                 sim: (nat, nat) -> real, threshold: real, n: nat)
    requires n <= |candIds|
    ensures forall k :: |exact| <= k < |SimilarMerges(exact, candIds, baseIds, sim, threshold, n)| ==>
              Unsuggested(SimilarMerges(exact, candIds, baseIds, sim, threshold, n)[..k], SimilarMerges(exact, candIds, baseIds, sim, threshold, n)[k].candidate)
  {
    if n > 0 {
      SimilarMergesNoRepeat(exact, candIds, baseIds, sim, threshold, n - 1);
      var prev := SimilarMerges(exact, candIds, baseIds, sim, threshold, n - 1);
      var r := SimilarMerges(exact, candIds, baseIds, sim, threshold, n);
      if r != prev {
        assert r[..|prev|] == prev;
        forall k | |exact| <= k < |r| ensures Unsuggested(r[..k], r[k].candidate) {
          if k < |prev| {
            assert r[..k] == prev[..k];
            assert r[k] == prev[k];
          } else {
            assert Unsuggested(prev, candIds[n - 1]);
          }
        }
      }
    } else {
      assert SimilarMerges(exact, candIds, baseIds, sim, threshold, n) == exact;
    }
  }

  /** Every candidate whose similar match qualifies has an entry, either
      from before or of its own. */
  lemma {:induction false} SimilarMergesComplete(exact: seq<Suggestion>, candIds: seq<string>, baseIds: seq<string>,
                                                 sim: (nat, nat) -> real, threshold: real, n: nat)
    requires n <= |candIds|
    ensures forall i :: 0 <= i < n && SimilarMatch(candIds, baseIds, sim, threshold, i).Some? ==>
              exists k :: 0 <= k < |SimilarMerges(exact, candIds, baseIds, sim, threshold, n)| &&
                SimilarMerges(exact, candIds, baseIds, sim, threshold, n)[k].candidate == candIds[i]
  {
    if n > 0 {
      SimilarMergesComplete(exact, candIds, baseIds, sim, threshold, n - 1);
      var prev := SimilarMerges(exact, candIds, baseIds, sim, threshold, n - 1);
      var r := SimilarMerges(exact, candIds, baseIds, sim, threshold, n);
      assert r[..|prev|] == prev;
      forall i | 0 <= i < n && SimilarMatch(candIds, baseIds, sim, threshold, i).Some?
        ensures exists k :: 0 <= k < |r| && r[k].candidate == candIds[i]
      {
        if i < n - 1 {
          var k :| 0 <= k < |prev| && prev[k].candidate == candIds[i];
          assert r[k] == prev[k];
        } else if r == prev {
          assert !Unsuggested(prev, candIds[i]);
        } else {
          assert r[|prev|].candidate == candIds[i];
        }
      }
    } else {
      assert SimilarMerges(exact, candIds, baseIds, sim, threshold, n) == exact;
    }
  }

  /** The whole of `suggest_merges` on the base ids and candidate slugs. */
  function Suggestions(baseIds: seq<string>, candIds: seq<string>, sim: (nat, nat) -> real, threshold: real)
    : seq<Suggestion>
  {
    if candIds == [] || baseIds == [] then []
    else SimilarMerges(ExactMatches(candIds, baseIds, |candIds|), candIds, baseIds, sim, threshold, |candIds|)
  }

  /** Every suggestion is for one of the candidates and targets one of the
      base ids; the similarity phase only adds entries that reach the
      threshold. */
  lemma SuggestionsDrawFromInputs(baseIds: seq<string>, candIds: seq<string>, sim: (nat, nat) -> real, threshold: real)
    ensures var ms := Suggestions(baseIds, candIds, sim, threshold);
            forall k :: 0 <= k < |ms| ==>
              && (exists c :: 0 <= c < |candIds| && candIds[c] == ms[k].candidate)
              && ms[k].target in baseIds
              && (ms[k].score == ExactScore || threshold <= ms[k].score)
  {
    if candIds != [] && baseIds != [] {
      var exact := ExactMatches(candIds, baseIds, |candIds|);
      var ms := Suggestions(baseIds, candIds, sim, threshold);
      SimilarMergesAreMatches(exact, candIds, baseIds, sim, threshold, |candIds|);
      forall k | 0 <= k < |ms|
        ensures && (exists c :: 0 <= c < |candIds| && candIds[c] == ms[k].candidate)
                && ms[k].target in baseIds
                && (ms[k].score == ExactScore || threshold <= ms[k].score)
      {
        if k < |exact| {
          assert ms[k] == exact[k];
        } else {
          var i :| 0 <= i < |candIds| && SimilarMatch(candIds, baseIds, sim, threshold, i) == Some(ms[k]);
          assert candIds[i] == ms[k].candidate;
        }
      }
    }
  }

  /** The rules of suggest_merges on non-empty inputs: every candidate
      slug that is a base id gets an exact entry with score 1.0, and these
      come first; each later entry is some candidate's first best target
      and is for a candidate with no earlier entry; and every candidate
      whose first best target qualifies has an entry. */
  lemma SuggestionsRules(baseIds: seq<string>, candIds: seq<string>, sim: (nat, nat) -> real, threshold: real)
    requires candIds != [] && baseIds != []
    ensures var ms := Suggestions(baseIds, candIds, sim, threshold);
            var exact := ExactMatches(candIds, baseIds, |candIds|);
            && |exact| <= |ms| && ms[..|exact|] == exact
            && (forall c :: 0 <= c < |candIds| && candIds[c] in baseIds ==>
                  Suggestion(candIds[c], candIds[c], ExactScore) in ms)
            && (forall k :: |exact| <= k < |ms| ==>
                  && Unsuggested(ms[..k], ms[k].candidate)
                  && exists i :: 0 <= i < |candIds| && SimilarMatch(candIds, baseIds, sim, threshold, i) == Some(ms[k]))
            && (forall i :: 0 <= i < |candIds| && SimilarMatch(candIds, baseIds, sim, threshold, i).Some? ==>
                  exists k :: 0 <= k < |ms| && ms[k].candidate == candIds[i])
  {
    var exact := ExactMatches(candIds, baseIds, |candIds|);
    var ms := Suggestions(baseIds, candIds, sim, threshold);
    SimilarMergesAreMatches(exact, candIds, baseIds, sim, threshold, |candIds|);
    SimilarMergesNoRepeat(exact, candIds, baseIds, sim, threshold, |candIds|);
    SimilarMergesComplete(exact, candIds, baseIds, sim, threshold, |candIds|);
    forall c | 0 <= c < |candIds| && candIds[c] in baseIds
      ensures Suggestion(candIds[c], candIds[c], ExactScore) in ms
    {
      var k :| 0 <= k < |exact| && exact[k] == Suggestion(candIds[c], candIds[c], ExactScore);
      assert ms[k] == exact[k];
    }
  }

  /** suggest_merges: no suggestion when either side is empty; otherwise
      the exact matches followed by the similarity matches. A threshold
      not passed (None) is the keyword's default, 0.85. */
  method SuggestMerges(base: seq<TaxonomyItem>, candidates: seq<NewTopicCandidate>,
                       sim: (nat, nat) -> real, threshold: Option<real>) returns (merges: seq<Suggestion>)
    ensures merges == Suggestions(Ids(base), CandidateSlugs(candidates), sim, threshold.GetOr(DefaultThreshold))
    ensures threshold.None? ==> merges == Suggestions(Ids(base), CandidateSlugs(candidates), sim, 0.85)
    ensures candidates == [] || base == [] ==> merges == []
    ensures forall k :: 0 <= k < |merges| ==> IsSlug(merges[k].candidate)
  {
    if candidates == [] || base == [] {
      return [];
    }
    var cutoff := threshold.GetOr(DefaultThreshold);
    var baseIds := Ids(base);
    var candIds := CandidateSlugs(candidates);
    var exact := ExactPhase(baseIds, candIds);
    merges := SimilarPhase(exact, baseIds, candIds, sim, cutoff);
    SuggestionsDrawFromInputs(baseIds, candIds, sim, cutoff);
    assert merges == Suggestions(baseIds, candIds, sim, cutoff);
    forall k | 0 <= k < |merges| ensures IsSlug(merges[k].candidate) {
      var ms := Suggestions(baseIds, candIds, sim, cutoff);
      assert exists c :: 0 <= c < |candIds| && candIds[c] == ms[k].candidate;
      var c :| 0 <= c < |candIds| && candIds[c] == ms[k].candidate;
      CandidateSlugsAt(candidates, c);
    }
  }

  /** The first loop: an exact entry for every candidate slug found in
      `set(base_ids)`. */
  method ExactPhase(baseIds: seq<string>, candIds: seq<string>) returns (merges: seq<Suggestion>)
    ensures merges == ExactMatches(candIds, baseIds, |candIds|)
  {
    var baseSet := set k | 0 <= k < |baseIds| :: baseIds[k];
    merges := [];
    var i := 0;
    while i < |candIds|
      invariant 0 <= i <= |candIds|
      invariant merges == ExactMatches(candIds, baseIds, i)
    {
      var cid := candIds[i];
      if cid in baseSet {
        merges := merges + [Suggestion(cid, cid, ExactScore)];
      } else {
        assert cid !in baseIds;
      }
      i := i + 1;
    }
  }

  /** The second loop: each candidate's best target, appended when it
      qualifies and the candidate has no entry yet. */
  method SimilarPhase(exact: seq<Suggestion>, baseIds: seq<string>, candIds: seq<string>,
                      sim: (nat, nat) -> real, threshold: real) returns (merges: seq<Suggestion>)
    ensures merges == SimilarMerges(exact, candIds, baseIds, sim, threshold, |candIds|)
  {
    merges := exact;
    var i := 0;
    while i < |candIds|
      invariant 0 <= i <= |candIds|
      invariant merges == SimilarMerges(exact, candIds, baseIds, sim, threshold, i)
    {
      var best, bestTid := BestTarget(baseIds, sim, i);
      if best >= threshold && bestTid.Some? && bestTid.value != "" && Unsuggested(merges, candIds[i]) {
        merges := merges + [Suggestion(candIds[i], bestTid.value, best)];
      }
      i := i + 1;
    }
  }
}
