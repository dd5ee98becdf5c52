/** `ScoreInterestingFeatures`: scores each sampled feature by how rare
    its descriptor is among all the samples and culls the common ones.

    A descriptor is compared through its printed (string) form; the model
    takes any type with equality as that key. */
module InterestingFeatures {

  /** `vec2x<int>`. */
  datatype Coord = Coord(x: int, y: int)

  /** `TFeatureMatch`: where a feature was sampled, where it was matched
      from, its descriptor, and its score. */
  datatype FeatureMatch<K> = FeatureMatch(coord: Coord, sourceCoord: Coord, feature: K, score: real)

  function Max(a: nat, b: nat): nat {
    if a < b then b else a
  }

  /** The descriptors in list order. */
  function Keys<K(==)>(features: seq<FeatureMatch<K>>): (keys: seq<K>)
    ensures |keys| == |features|
    ensures forall i :: 0 <= i < |features| ==> keys[i] == features[i].feature
  {
    seq(|features|, i requires 0 <= i < |features| => features[i].feature)
  }

  /** The occurrence count of every descriptor. */
  function Histogram<K(==)>(features: seq<FeatureMatch<K>>): multiset<K> {
    multiset(Keys(features))
  }

  /** `HistogramMaxima`: the running maximum of the count just incremented,
      over the list in order. */
  function MaxCount<K(==)>(features: seq<FeatureMatch<K>>): nat {
    if |features| == 0 then 0
    else
      var last := |features| - 1;
      Max(MaxCount(features[..last]), Histogram(features)[features[last].feature])
  }

  lemma KeysAppend<K>(features: seq<FeatureMatch<K>>, n: nat)
    requires n < |features|
    ensures Keys(features[..n + 1]) == Keys(features[..n]) + [features[n].feature]
    ensures Histogram(features[..n + 1]) == Histogram(features[..n]) + multiset{features[n].feature}
  {
    assert Keys(features[..n + 1]) == Keys(features[..n]) + [features[n].feature];
  }

  /** The running maximum is the largest count of any descriptor: every
      sampled descriptor occurs between once and `MaxCount` times, and some
      descriptor occurs exactly `MaxCount` times. */
  lemma MaxCountIsMaximum<K>(features: seq<FeatureMatch<K>>)
    ensures forall i :: 0 <= i < |features| ==>
      1 <= Histogram(features)[features[i].feature] <= MaxCount(features)
    ensures |features| > 0 ==>
      exists i :: 0 <= i < |features| && Histogram(features)[features[i].feature] == MaxCount(features)
    ensures |features| == 0 <==> MaxCount(features) == 0
  {
    CountAtMostMax(features);
    forall i | 0 <= i < |features|
      ensures 1 <= Histogram(features)[features[i].feature]
    {
      CountPositive(features, i);
    }
    if |features| > 0 {
      MaxAttained(features);
    }
  }

  /** A sampled descriptor occurs at least once. */
  lemma CountPositive<K>(features: seq<FeatureMatch<K>>, i: nat)
    requires i < |features|
    ensures 1 <= Histogram(features)[features[i].feature]
  {
    assert Keys(features)[i] == features[i].feature;
  }

  /** Splitting off the last feature: the histogram of the whole list is the
      prefix's plus one count of the last descriptor. */
  lemma LastSplit<K>(features: seq<FeatureMatch<K>>)
    requires |features| > 0
    ensures var last := |features| - 1;
      Histogram(features) == Histogram(features[..last]) + multiset{features[last].feature}
  {
    var last := |features| - 1;
    KeysAppend(features, last);
    assert features[..last + 1] == features;
  }

  /** No descriptor occurs more often than the running maximum. */
  lemma {:induction false} CountAtMostMax<K>(features: seq<FeatureMatch<K>>)
    ensures forall i :: 0 <= i < |features| ==> Histogram(features)[features[i].feature] <= MaxCount(features)
  {
    if |features| > 0 {
      var last := |features| - 1;
      var prefix := features[..last];
      CountAtMostMax(prefix);
      LastSplit(features);
      forall i | 0 <= i < |features|
        ensures Histogram(features)[features[i].feature] <= MaxCount(features)
      {
        if i < last && features[i].feature != features[last].feature {
          assert prefix[i] == features[i];
        }
      }
    }
  }

  /** Some sampled descriptor reaches the running maximum. */
  lemma {:induction false} MaxAttained<K>(features: seq<FeatureMatch<K>>)
    requires |features| > 0
    ensures exists i :: 0 <= i < |features| && Histogram(features)[features[i].feature] == MaxCount(features)
  {
    var last := |features| - 1;
    var h := Histogram(features);
    if MaxCount(features) != h[features[last].feature] {
      var prefix := features[..last];
      assert MaxCount(features) == Max(MaxCount(prefix), h[features[last].feature]);
      MaxAttained(prefix);
      LastSplit(features);
      var j :| 0 <= j < |prefix| && Histogram(prefix)[prefix[j].feature] == MaxCount(prefix);
      assert prefix[j] == features[j];
      CountAtMostMax(features);
      assert h[features[j].feature] <= MaxCount(features);
    }
  }

  /** `1 - count / maxima` for the feature's descriptor. */
  function ScoreOf<K(==)>(features: seq<FeatureMatch<K>>, key: K): real
    requires MaxCount(features) > 0
  {
    1.0 - (Histogram(features)[key] as real) / (MaxCount(features) as real)
  }

  /** Every feature with its score recomputed from the histogram of the
      whole list as given. */
  function Rescored<K(==)>(features: seq<FeatureMatch<K>>): (r: seq<FeatureMatch<K>>)
    ensures |r| == |features|
    ensures forall i :: 0 <= i < |r| ==> r[i].(score := features[i].score) == features[i]
  {
    if |features| == 0 then []
    else
      MaxCountIsMaximum(features);
      seq(|features|, i requires 0 <= i < |features| =>
        features[i].(score := ScoreOf(features, features[i].feature)))
  }

  /** The features whose score is at least `minScore`, in list order. */
  function Cull<K(==)>(scored: seq<FeatureMatch<K>>, minScore: real): seq<FeatureMatch<K>> {
    if |scored| == 0 then []
    else (if scored[0].score >= minScore then [scored[0]] else []) + Cull(scored[1..], minScore)
  }

  /** What `ScoreInterestingFeatures(Features, MinScore)` leaves in `Features`. */
  function ScoreInteresting<K(==)>(features: seq<FeatureMatch<K>>, minScore: real): seq<FeatureMatch<K>> {
    Cull(Rescored(features), minScore)
  }

  /** The count a histogram map holds for `k`: 0 when `k` was never
      counted. */
  function CountIn<K>(histogram: map<K, nat>, k: K): nat {
    if k in histogram then histogram[k] else 0
  }

  /** The source's first pass: count every descriptor into a map while
      tracking the largest count reached. */
  method CountDescriptors<K(==)>(features: seq<FeatureMatch<K>>)
    returns (histogram: map<K, nat>, maxima: nat)
    ensures forall k :: Histogram(features)[k] == CountIn(histogram, k)
    ensures maxima == MaxCount(features)
  {
    histogram := map[];
    maxima := 0;
    var f := 0;
    while f < |features|
      invariant 0 <= f <= |features|
      invariant forall k :: Histogram(features[..f])[k] == CountIn(histogram, k)
      invariant maxima == MaxCount(features[..f])
    {
      var key := features[f].feature;
      var count := CountIn(histogram, key) + 1;
      CountStep(features, f, histogram, histogram[key := count], maxima);
      histogram := histogram[key := count];
      maxima := Max(maxima, count);
      f := f + 1;
    }
    assert features[..|features|] == features;
  }

  /** Counting one more feature into the map and the running maximum keeps
      both in step with the longer prefix. */
  lemma CountStep<K>(features: seq<FeatureMatch<K>>, f: nat, histogram: map<K, nat>,
                     updated: map<K, nat>, maxima: nat)
    requires f < |features|
    requires forall k :: Histogram(features[..f])[k] == CountIn(histogram, k)
    requires maxima == MaxCount(features[..f])
    requires updated == histogram[features[f].feature := CountIn(histogram, features[f].feature) + 1]
    ensures forall k :: Histogram(features[..f + 1])[k] == CountIn(updated, k)
    ensures Max(maxima, CountIn(updated, features[f].feature)) == MaxCount(features[..f + 1])
  {
    var key := features[f].feature;
    var longer := features[..f + 1];
    KeysAppend(features, f);
    assert longer[..f] == features[..f];
    assert longer[f] == features[f];
    assert Histogram(longer)[key] == CountIn(updated, key);
  }

  /** The source's two passes: count the descriptors, then rescore and
      cull walking backwards. */
  method ScoreInterestingFeatures<K(==)>(features: seq<FeatureMatch<K>>, minScore: real)
    returns (r: seq<FeatureMatch<K>>)
    ensures r == ScoreInteresting(features, minScore)
    ensures |features| == 0 ==> r == features
  {
    var histogram, maxima := CountDescriptors(features);
    MaxCountIsMaximum(features);
    ghost var scored := Rescored(features);
    forall g | 0 <= g < |features|
      ensures scored[g]
        == features[g].(score := 1.0 - (CountIn(histogram, features[g].feature) as real) / (maxima as real))
    {
      ScoreFromCounts(features, g, histogram, maxima);
    }
    r := CullBackwards(features, scored, histogram, maxima, minScore);
  }

  /** The source's second pass: walk the list backwards, give each feature
      the score its descriptor's count earns, and erase it in place when
      that score falls below `minScore`. `scored` is the whole list with
      those scores. */
  method CullBackwards<K(==)>(features: seq<FeatureMatch<K>>, ghost scored: seq<FeatureMatch<K>>,
                              histogram: map<K, nat>, maxima: nat, minScore: real)
    returns (r: seq<FeatureMatch<K>>)
    requires |scored| == |features|
    requires |features| > 0 ==> maxima > 0
    requires forall g :: 0 <= g < |features| ==>
      scored[g] == features[g].(score := 1.0 - (CountIn(histogram, features[g].feature) as real) / (maxima as real))
    ensures r == Cull(scored, minScore)
  {
    r := features;
    var g := |features| - 1;
    assert scored[|features|..] == [];
    while g >= 0
      invariant -1 <= g < |features|
      invariant r == features[..g + 1] + Cull(scored[g + 1..], minScore)
    {
      WalkedPrefix(features, g, r, Cull(scored[g + 1..], minScore));
      var key := r[g].feature;
      var occurrence := CountIn(histogram, key);
      var score := 1.0 - (occurrence as real) / (maxima as real);
      RemoveStep(features, scored, minScore, g, r, score);
      r := r[g := r[g].(score := score)];
      if score < minScore {
        r := r[..g] + r[g + 1..];
      }
      g := g - 1;
    }
    assert scored[0..] == scored;
  }

  /** The score the second pass computes from the map and the running
      maximum is the one `Rescored` assigns. */
  lemma ScoreFromCounts<K>(features: seq<FeatureMatch<K>>, g: nat, histogram: map<K, nat>, maxima: nat)
    requires g < |features|
    requires forall k :: Histogram(features)[k] == CountIn(histogram, k)
    requires maxima == MaxCount(features)
    ensures Rescored(features)[g]
      == features[g].(score := 1.0 - (CountIn(histogram, features[g].feature) as real) / (maxima as real))
  {
    RescoredAt(features, g);
    assert Histogram(features)[features[g].feature] == CountIn(histogram, features[g].feature);
  }

  /** Before step `g` the list still holds the unvisited features at their
      original positions. */
  lemma WalkedPrefix<K>(features: seq<FeatureMatch<K>>, g: nat, r: seq<FeatureMatch<K>>,
                        rest: seq<FeatureMatch<K>>)
    requires g < |features|
    requires r == features[..g + 1] + rest
    ensures g < |r| && r[g] == features[g]
  {
  }

  /** One step of the backward walk keeps the loop's invariant. */
  lemma RemoveStep<K>(features: seq<FeatureMatch<K>>, scored: seq<FeatureMatch<K>>, minScore: real,
                      g: nat, r: seq<FeatureMatch<K>>, score: real)
    requires g < |features| && g < |scored|
    requires scored[g] == features[g].(score := score)
    requires r == features[..g + 1] + Cull(scored[g + 1..], minScore)
    ensures var r' := r[g := r[g].(score := score)];
      (if score < minScore then r'[..g] + r'[g + 1..] else r')
        == features[..g] + Cull(scored[g..], minScore)
  {
    var p, x, y := features[..g], features[g], scored[g];
    var rest := Cull(scored[g + 1..], minScore);
    assert features[..g + 1] == p + [x];
    CullStep(scored, g, minScore);
    if score < minScore {
      DropAt(p, x, y, rest, g);
      assert Cull(scored[g..], minScore) == [] + rest;
    } else {
      ReplaceAt(p, x, y, rest, g);
      assert Cull(scored[g..], minScore) == [y] + rest;
    }
  }

  /** The rescored feature at `g` is the feature at `g` with its score
      replaced. */
  lemma RescoredAt<K>(features: seq<FeatureMatch<K>>, g: nat)
    requires g < |features|
    ensures MaxCount(features) > 0
    ensures Rescored(features)[g] == features[g].(score := ScoreOf(features, features[g].feature))
  {
    RescoredScore(features, g);
  }

  /** Culling a suffix decides its first element and culls the rest. */
  lemma CullStep<K>(scored: seq<FeatureMatch<K>>, g: nat, minScore: real)
    requires g < |scored|
    ensures Cull(scored[g..], minScore)
      == (if scored[g].score >= minScore then [scored[g]] else []) + Cull(scored[g + 1..], minScore)
  {
    assert scored[g..][1..] == scored[g + 1..];
  }

  /** Overwriting the element after `p` leaves `p`, the new element and
      `c`. */
  lemma ReplaceAt<T>(p: seq<T>, x: T, y: T, c: seq<T>, g: nat)
    requires |p| == g
    ensures (p + [x] + c)[g := y] == p + ([y] + c)
  {
    assert (p + [x] + c)[g := y] == p + [y] + c;
  }

  /** Overwriting the element after `p` and then erasing it leaves `p` and
      `c`. */
  lemma DropAt<T>(p: seq<T>, x: T, y: T, c: seq<T>, g: nat)
    requires |p| == g
    ensures var r' := (p + [x] + c)[g := y]; r'[..g] + r'[g + 1..] == p + ([] + c)
  {
    var r' := (p + [x] + c)[g := y];
    assert r'[..g] == p;
    assert r'[g + 1..] == c;
  }

  /** Scores lie in `[0, 1 - 1/maxima]`: the most common descriptor scores
      0 and a descriptor seen once scores `1 - 1/maxima`. */
  lemma ScoreBounds<K>(features: seq<FeatureMatch<K>>)
    ensures forall i :: 0 <= i < |features| ==>
      0.0 <= Rescored(features)[i].score <= 1.0 - 1.0 / (MaxCount(features) as real)
  {
    MaxCountIsMaximum(features);
    forall i | 0 <= i < |features|
      ensures 0.0 <= Rescored(features)[i].score <= 1.0 - 1.0 / (MaxCount(features) as real)
    {
      var c := Histogram(features)[features[i].feature] as real;
      var m := MaxCount(features) as real;
      FractionBounds(c, m);
    }
  }

  lemma FractionBounds(c: real, m: real)
    requires 1.0 <= c <= m
    ensures 1.0 / m <= c / m <= 1.0
  {
  }

  lemma RescoredScore<K>(features: seq<FeatureMatch<K>>, i: nat)
    requires i < |features|
    ensures MaxCount(features) > 0
    ensures Rescored(features)[i].score == ScoreOf(features, features[i].feature)
  {
    MaxCountIsMaximum(features);
  }

  /** A feature whose descriptor reaches the largest count scores 0. */
  lemma MostCommonScoresZero<K>(features: seq<FeatureMatch<K>>, i: nat)
    requires i < |features|
    requires Histogram(features)[features[i].feature] == MaxCount(features)
    ensures Rescored(features)[i].score == 0.0
  {
    RescoredScore(features, i);
    ZeroFraction(Histogram(features)[features[i].feature], MaxCount(features));
  }

  lemma ZeroFraction(h: nat, m: nat)
    requires h == m > 0
    ensures 1.0 - (h as real) / (m as real) == 0.0
  {
    assert (h as real) == (m as real);
    assert (m as real) / (m as real) == 1.0;
  }

  /** Two features with the same descriptor get the same score. */
  lemma EqualKeysEqualScores<K>(features: seq<FeatureMatch<K>>, i: nat, j: nat)
    requires i < |features| && j < |features|
    requires features[i].feature == features[j].feature
    ensures Rescored(features)[i].score == Rescored(features)[j].score
  {
  }

  /** `b` contains the elements of `a` in the same order, possibly with
      others between them. */
  predicate IsSubsequence<T(==)>(a: seq<T>, b: seq<T>)
    decreases |b|
  {
    if |a| == 0 then true
    else if |b| == 0 then false
    else if a[0] == b[0] then IsSubsequence(a[1..], b[1..])
    else IsSubsequence(a, b[1..])
  }

  lemma {:induction false} SubsequenceOfTail<T>(a: seq<T>, b: seq<T>)
    requires |b| > 0 && IsSubsequence(a, b[1..])
    ensures IsSubsequence(a, b)
    decreases |b|, 0
  {
    if |a| > 0 && a[0] == b[0] {
      SubsequenceDropHead(a, b[1..]);
    }
  }

  lemma {:induction false} SubsequenceDropHead<T>(a: seq<T>, b: seq<T>)
    requires |a| > 0 && IsSubsequence(a, b)
    ensures IsSubsequence(a[1..], b)
    decreases |b|, 1
  {
    if a[0] == b[0] {
      SubsequenceOfTail(a[1..], b);
    } else {
      SubsequenceDropHead(a, b[1..]);
      SubsequenceOfTail(a[1..], b);
    }
  }

  /** Culling keeps the features in their original relative order. */
  lemma {:induction false} CullIsSubsequence<K>(scored: seq<FeatureMatch<K>>, minScore: real)
    ensures IsSubsequence(Cull(scored, minScore), scored)
  {
    if |scored| > 0 {
      CullIsSubsequence(scored[1..], minScore);
      var rest := Cull(scored[1..], minScore);
      if scored[0].score >= minScore {
        assert Cull(scored, minScore) == [scored[0]] + rest;
        assert ([scored[0]] + rest)[1..] == rest;
      } else {
        assert Cull(scored, minScore) == rest;
        SubsequenceOfTail(rest, scored);
      }
    }
  }

  /** A feature survives exactly when it was in the list with a score of at
      least `minScore`. */
  lemma {:induction false} CullMembership<K>(scored: seq<FeatureMatch<K>>, minScore: real)
    ensures forall x :: x in Cull(scored, minScore) <==> x in scored && x.score >= minScore
  {
    if |scored| > 0 {
      CullMembership(scored[1..], minScore);
      assert scored == [scored[0]] + scored[1..];
    }
  }

  /** When every score already meets the threshold, nothing is removed. */
  lemma {:induction false} CullKeepsAll<K>(scored: seq<FeatureMatch<K>>, minScore: real)
    requires forall i :: 0 <= i < |scored| ==> scored[i].score >= minScore
    ensures Cull(scored, minScore) == scored
  {
    if |scored| > 0 {
      CullKeepsAll(scored[1..], minScore);
      assert scored == [scored[0]] + scored[1..];
    }
  }

  /** With a threshold of zero or below only the scores change. */
  lemma NonPositiveThresholdKeepsAll<K>(features: seq<FeatureMatch<K>>, minScore: real)
    requires minScore <= 0.0
    ensures ScoreInteresting(features, minScore) == Rescored(features)
  {
    ScoreBounds(features);
    CullKeepsAll(Rescored(features), minScore);
  }

  /** Rescoring reads only the descriptors, so it is idempotent. */
  lemma RescoredIsIdempotent<K>(features: seq<FeatureMatch<K>>)
    ensures Rescored(Rescored(features)) == Rescored(features)
  {
    var r := Rescored(features);
    assert Keys(r) == Keys(features);
    MaxCountReadsKeys(r, features);
    forall i | 0 <= i < |features|
      ensures Rescored(r)[i] == r[i]
    {
      RescoredScore(features, i);
      RescoredScore(r, i);
    }
  }

  lemma {:induction false} MaxCountReadsKeys<K>(a: seq<FeatureMatch<K>>, b: seq<FeatureMatch<K>>)
    requires Keys(a) == Keys(b)
    ensures MaxCount(a) == MaxCount(b)
  {
    if |a| > 0 {
      var last := |a| - 1;
      assert Keys(a[..last]) == Keys(a)[..last];
      assert Keys(b[..last]) == Keys(b)[..last];
      MaxCountReadsKeys(a[..last], b[..last]);
    }
  }

  /** Scoring again with a threshold of zero or below changes nothing. */
  lemma ScoringIsIdempotent<K>(features: seq<FeatureMatch<K>>, minScore: real)
    requires minScore <= 0.0
    ensures ScoreInteresting(ScoreInteresting(features, minScore), minScore)
      == ScoreInteresting(features, minScore)
  {
    NonPositiveThresholdKeepsAll(features, minScore);
    NonPositiveThresholdKeepsAll(Rescored(features), minScore);
    RescoredIsIdempotent(features);
  }

  /** Culling removes all features of a descriptor or none: when every
      feature with descriptor `k` has the score `c`, the culled list holds
      all of them if `c` meets the threshold and none otherwise. */
  lemma {:induction false} CullKeepsWholeGroups<K>(scored: seq<FeatureMatch<K>>, minScore: real, k: K, c: real)
    requires forall i :: 0 <= i < |scored| && scored[i].feature == k ==> scored[i].score == c
    ensures Histogram(Cull(scored, minScore))[k] == if c >= minScore then Histogram(scored)[k] else 0
  {
    if |scored| > 0 {
      CullKeepsWholeGroups(scored[1..], minScore, k, c);
      var head := if scored[0].score >= minScore then [scored[0]] else [];
      var rest := Cull(scored[1..], minScore);
      assert Keys(head + rest) == Keys(head) + Keys(rest);
      assert Keys(scored) == [scored[0].feature] + Keys(scored[1..]);
    }
  }

  /** After scoring, a descriptor keeps all of its occurrences when its
      score meets the threshold and loses all of them otherwise. */
  lemma ScoringKeepsWholeGroups<K>(features: seq<FeatureMatch<K>>, minScore: real, i: nat)
    requires i < |features|
    ensures var k := features[i].feature;
      Histogram(ScoreInteresting(features, minScore))[k]
        == if Rescored(features)[i].score >= minScore then Histogram(features)[k] else 0
  {
    var r := Rescored(features);
    var k := features[i].feature;
    assert Keys(r) == Keys(features);
    CullKeepsWholeGroups(r, minScore, k, r[i].score);
  }

  /** With a positive threshold the most common descriptor disappears
      entirely. */
  lemma MostCommonIsRemoved<K>(features: seq<FeatureMatch<K>>, minScore: real, i: nat)
    requires i < |features| && minScore > 0.0
    requires Histogram(features)[features[i].feature] == MaxCount(features)
    ensures features[i].feature !in Histogram(ScoreInteresting(features, minScore))
  {
    MostCommonScoresZero(features, i);
    ScoringKeepsWholeGroups(features, minScore, i);
  }

  /** Scoring with threshold 0 keeps every feature and leaves each score
      in [0, 1]. */
  lemma NormalisingPass<K>(features: seq<FeatureMatch<K>>)
    ensures ScoreInteresting(features, 0.0) == Rescored(features)
    ensures forall i :: 0 <= i < |features| ==> 0.0 <= Rescored(features)[i].score <= 1.0
  {
    NonPositiveThresholdKeepsAll(features, 0.0);
    ScoreBounds(features);
    if |features| > 0 {
      MaxCountIsMaximum(features);
      UnitFraction(MaxCount(features));
    }
  }

  lemma UnitFraction(m: nat)
    requires m > 0
    ensures 1.0 - 1.0 / (m as real) <= 1.0
  {
  }
}
