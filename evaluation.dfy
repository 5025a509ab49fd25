/**
 * The cross-validation driver: every fold trains a fresh classifier on its
 * training part, classifies its test part and scores the predictions by three
 * tallies (gold labels, predicted labels, labels both agree on) and the
 * F-measure built from them. How the folds are drawn is not modelled: the
 * folds are given.
 */
module Evaluation {
  import opened Results
  import opened IdTable
  import opened Text
  import opened Labels
  import opened SolutionModel

  /** `sum([len(x) for x in xss])`. */
  function TotalLength<T>(xss: seq<seq<T>>): nat
    decreases |xss|
  {
    if xss == [] then 0 else TotalLength(xss[..|xss| - 1]) + |xss[|xss| - 1]|
  }

  /** The total size of a list of label sets. */
  function SumCard<T>(ss: seq<set<T>>): nat
    decreases |ss|
  {
    if ss == [] then 0 else SumCard(ss[..|ss| - 1]) + |ss[|ss| - 1]|
  }

  /** The label sets of label lists, one by one. */
  function Sets<T>(xss: seq<seq<T>>): seq<set<T>>
  {
    seq(|xss|, i requires 0 <= i < |xss| => SetOf(xss[i]))
  }

  /** Σ over the first `n` documents of |predicted ∩ set(gold)|. */
  function Overlap<T>(predicted: seq<set<T>>, gold: seq<seq<T>>, n: nat): nat
    requires n <= |predicted| && n <= |gold|
  {
    if n == 0 then 0 else Overlap(predicted, gold, n - 1) + |predicted[n - 1] * SetOf(gold[n - 1])|
  }

  /**
   * The `correct_answers` loop: one pass over the gold label lists, adding the
   * number of distinct labels the prediction and the gold list share. A
   * prediction list shorter than the gold list is an index error.
   */
  method CorrectAnswers<T(==)>(answer: seq<seq<T>>, gold: seq<seq<T>>) returns (r: Result<nat>)
    ensures |answer| < |gold| ==> r == Err(IndexError)
    ensures |gold| <= |answer| ==> r == Ok(Overlap(Sets(answer), gold, |gold|))
  {
    var correct := 0;
    for i := 0 to |gold|
      invariant i <= |answer|
      invariant correct == Overlap(Sets(answer), gold, i)
    {
      if i >= |answer| {
        return Err(IndexError);
      }
      var my := SetOf(answer[i]);
      var ans := SetOf(gold[i]);
      correct := correct + |my * ans|;
    }
    r := Ok(correct);
  }

  /** A set never has more elements than the list it is built from. */
  lemma {:induction false} SetOfBound<T>(xs: seq<T>)
    ensures |SetOf(xs)| <= |xs|
    decreases |xs|
  {
    if xs != [] {
      var init := xs[..|xs| - 1];
      SetOfBound(init);
      assert SetOf(xs) == SetOf(init) + {xs[|xs| - 1]} by {
        assert xs == init + [xs[|xs| - 1]];
      }
    }
  }

  /** A list without repeats has as many elements as its set. */
  lemma {:induction false} DistinctSetOf<T>(xs: seq<T>)
    requires Distinct(xs)
    ensures |SetOf(xs)| == |xs|
    decreases |xs|
  {
    if xs != [] {
      var init := xs[..|xs| - 1];
      DistinctSetOf(init);
      assert xs[|xs| - 1] !in SetOf(init);
      assert SetOf(xs) == SetOf(init) + {xs[|xs| - 1]} by {
        assert xs == init + [xs[|xs| - 1]];
      }
    }
  }

  lemma TotalLengthStep<T>(xss: seq<seq<T>>, n: nat)
    requires n < |xss|
    ensures TotalLength(xss[..n + 1]) == TotalLength(xss[..n]) + |xss[n]|
  {
    assert xss[..n + 1][..n] == xss[..n];
  }

  lemma SumCardStep<T>(ss: seq<set<T>>, n: nat)
    requires n < |ss|
    ensures SumCard(ss[..n + 1]) == SumCard(ss[..n]) + |ss[n]|
  {
    assert ss[..n + 1][..n] == ss[..n];
  }

  /** The label sets of label lists never hold more than the lists; as many when the lists have no repeats. */
  lemma {:induction false} SumCardOfSets<T>(xss: seq<seq<T>>)
    ensures SumCard(Sets(xss)) <= TotalLength(xss)
    ensures (forall i :: 0 <= i < |xss| ==> Distinct(xss[i])) ==> SumCard(Sets(xss)) == TotalLength(xss)
    decreases |xss|
  {
    if xss != [] {
      var init := xss[..|xss| - 1];
      SumCardOfSets(init);
      assert Sets(xss)[..|xss| - 1] == Sets(init);
      SetOfBound(xss[|xss| - 1]);
      if forall i :: 0 <= i < |xss| ==> Distinct(xss[i]) {
        DistinctSetOf(xss[|xss| - 1]);
      }
    }
  }

  /** A subset is no larger than its superset. */
  lemma {:induction false} SubsetCard<T>(a: set<T>, b: set<T>)
    requires a <= b
    ensures |a| <= |b|
    decreases a
  {
    if a != {} {
      var x :| x in a;
      SubsetCard(a - {x}, b - {x});
    }
  }

  /** The overlap over the first `n` documents is bounded by both tallies over them. */
  lemma {:induction false} OverlapBounds<T>(predicted: seq<set<T>>, gold: seq<seq<T>>, n: nat)
    requires n <= |predicted| && n <= |gold|
    ensures Overlap(predicted, gold, n) <= TotalLength(gold[..n])
    ensures Overlap(predicted, gold, n) <= SumCard(predicted[..n])
    decreases n
  {
    if n > 0 {
      OverlapBounds(predicted, gold, n - 1);
      TotalLengthStep(gold, n - 1);
      SumCardStep(predicted, n - 1);
      SetOfBound(gold[n - 1]);
      SubsetCard(predicted[n - 1] * SetOf(gold[n - 1]), SetOf(gold[n - 1]));
      SubsetCard(predicted[n - 1] * SetOf(gold[n - 1]), predicted[n - 1]);
    }
  }

  /** A shorter list of label sets has at most the total size of the whole. */
  lemma {:induction false} SumCardPrefix<T>(ss: seq<set<T>>, n: nat)
    requires n <= |ss|
    ensures SumCard(ss[..n]) <= SumCard(ss)
    decreases |ss| - n
  {
    if n < |ss| {
      SumCardStep(ss, n);
      SumCardPrefix(ss, n + 1);
    } else {
      assert ss[..n] == ss;
    }
  }

  /**
   * `correct_answers` never exceeds `total_answers_test`, nor
   * `total_answers_system`, when there are at least as many answers as gold lists.
   */
  lemma CorrectBounded<T>(answer: seq<seq<T>>, gold: seq<seq<T>>)
    requires |gold| <= |answer|
    ensures Overlap(Sets(answer), gold, |gold|) <= TotalLength(gold)
    ensures Overlap(Sets(answer), gold, |gold|) <= TotalLength(answer)
  {
    OverlapBounds(Sets(answer), gold, |gold|);
    assert gold[..|gold|] == gold;
    SumCardPrefix(Sets(answer), |gold|);
    SumCardOfSets(answer);
  }

  /**
   * A document's contribution depends only on the sets of its labels: neither
   * the order of the predicted or gold labels nor repeats among them matter.
   */
  lemma {:induction false} OverlapIgnoresOrderAndRepeats<T>(a: seq<seq<T>>, a': seq<seq<T>>,
                                                            g: seq<seq<T>>, g': seq<seq<T>>, n: nat)
    requires n <= |a| && n <= |a'| && n <= |g| && n <= |g'|
    requires forall i :: 0 <= i < n ==> (forall x :: x in a[i] <==> x in a'[i]) && (forall x :: x in g[i] <==> x in g'[i])
    ensures Overlap(Sets(a), g, n) == Overlap(Sets(a'), g', n)
    decreases n
  {
    if n > 0 {
      OverlapIgnoresOrderAndRepeats(a, a', g, g', n - 1);
      assert SetOf(a[n - 1]) == SetOf(a'[n - 1]);
      assert SetOf(g[n - 1]) == SetOf(g'[n - 1]);
    }
  }

  /**
   * The F-measure of a fold from its three tallies. Precision divides by the
   * number of predicted labels and recall by the number of gold labels; the
   * F-measure divides by their sum, which is zero when no label was right.
   * Every such division by zero is an error.
   */
  function FoldScore(correct: nat, totalTest: nat, totalSystem: nat): (r: Result<real>)
    ensures r.Err? <==> (totalSystem == 0 || totalTest == 0 || correct == 0)
    ensures r.Err? ==> r.error == ZeroDivision
  {
    if totalSystem == 0 || totalTest == 0 then Err(ZeroDivision)
    else
      var precision := correct as real / totalSystem as real;
      var recall := correct as real / totalTest as real;
      if precision + recall == 0.0 then Err(ZeroDivision)
      else Ok(2.0 * precision * recall / (precision + recall))
  }

  /** A quotient is the unique factor that multiplies the divisor back to the dividend. */
  lemma DivideBack(x: real, y: real, z: real)
    requires y != 0.0 && z * y == x
    ensures z == x / y
  {
  }

  /** The harmonic mean of c/s and c/t is 2c/(t+s). */
  lemma HarmonicMean(c: real, t: real, s: real)
    requires c > 0.0 && t > 0.0 && s > 0.0
    ensures 2.0 * (c / s) * (c / t) / (c / s + c / t) == 2.0 * c / (t + s)
  {
    var p, q := c / s, c / t;
    assert p * s == c && q * t == c;
    assert p > 0.0 && q > 0.0;
    var f := 2.0 * p * q / (p + q);
    assert f * (p + q) == 2.0 * p * q;
    assert p * q * t == p * c;
    assert p * q * s == q * c;
    assert f * (p + q) * (t + s) == 2.0 * c * (p + q);
    assert f * (t + s) == 2.0 * c by {
      assert (f * (t + s)) * (p + q) == (2.0 * c) * (p + q);
    }
    DivideBack(2.0 * c, t + s, f);
  }

  /** With positive tallies, the F-measure is the harmonic mean of precision and recall. */
  lemma FoldScoreUnfold(correct: nat, totalTest: nat, totalSystem: nat)
    requires correct > 0 && totalTest > 0 && totalSystem > 0
    ensures var c, t, s := correct as real, totalTest as real, totalSystem as real;
      FoldScore(correct, totalTest, totalSystem).value == 2.0 * (c / s) * (c / t) / (c / s + c / t)
  {
    var c, t, s := correct as real, totalTest as real, totalSystem as real;
    PositiveQuotient(c, s);
    PositiveQuotient(c, t);
  }

  lemma PositiveQuotient(x: real, y: real)
    requires x > 0.0 && y > 0.0
    ensures x / y > 0.0
  {
    assert (x / y) * y == x;
  }

  /** 2c/(t+s) lies in (0, 1] when 0 < c <= t and c <= s. */
  lemma RatioInRange(c: real, t: real, s: real)
    requires 0.0 < c <= t && c <= s
    ensures 0.0 < 2.0 * c / (t + s) <= 1.0
  {
    var f := 2.0 * c / (t + s);
    assert f * (t + s) == 2.0 * c;
    PositiveQuotient(2.0 * c, t + s);
  }

  /** The F-measure is 2·correct / (gold + predicted), and lies in (0, 1] when the bounds hold. */
  lemma FoldScoreValue(correct: nat, totalTest: nat, totalSystem: nat)
    requires correct > 0 && totalTest > 0 && totalSystem > 0
    ensures FoldScore(correct, totalTest, totalSystem)
      == Ok(2.0 * correct as real / (totalTest + totalSystem) as real)
    ensures correct <= totalTest && correct <= totalSystem ==>
      0.0 < FoldScore(correct, totalTest, totalSystem).value <= 1.0
  {
    var c, t, s := correct as real, totalTest as real, totalSystem as real;
    FoldScoreUnfold(correct, totalTest, totalSystem);
    HarmonicMean(c, t, s);
    assert (totalTest + totalSystem) as real == t + s;
    var r := FoldScore(correct, totalTest, totalSystem);
    assert r.Ok? && r.value == 2.0 * c / (t + s);
    assert r == Ok(2.0 * c / (t + s));
    if correct <= totalTest && correct <= totalSystem {
      RatioInRange(c, t, s);
    }
  }

  /** A fold with 3 right labels out of 5 gold and 6 predicted scores 6/11. */
  lemma FoldScoreExample()
    ensures FoldScore(3, 5, 6) == Ok(6.0 / 11.0)
  {
    FoldScoreValue(3, 5, 6);
  }

  /** The three tallies of a fold. */
  datatype FoldCounts = FoldCounts(correct: nat, totalTest: nat, totalSystem: nat)

  /** One fold of the cross-validation: texts and label lists to train on and to test on. */
  datatype Fold<L> = Fold(xTrain: seq<string>, yTrain: seq<seq<L>>, xTest: seq<string>, yTest: seq<seq<L>>)

  /** The tallies of a fold from the predicted label sets and the gold label lists. */
  function CountsOf<L>(predicted: seq<set<L>>, gold: seq<seq<L>>): (r: Result<FoldCounts>)
    ensures r.Err? <==> |predicted| < |gold|
  {
    if |predicted| < |gold| then Err(IndexError)
    else Ok(FoldCounts(Overlap(predicted, gold, |gold|), TotalLength(gold), SumCard(predicted)))
  }

  /** The tallies never let `correct_answers` exceed either total. */
  lemma CountsBounded<L>(predicted: seq<set<L>>, gold: seq<seq<L>>)
    requires |gold| <= |predicted|
    ensures CountsOf(predicted, gold).value.correct <= CountsOf(predicted, gold).value.totalTest
    ensures CountsOf(predicted, gold).value.correct <= CountsOf(predicted, gold).value.totalSystem
  {
    OverlapBounds(predicted, gold, |gold|);
    assert gold[..|gold|] == gold;
    SumCardPrefix(predicted, |gold|);
  }

  /**
   * The tallies of a fold, from a classifier trained on an empty vocabulary
   * and an empty label table with the fold's training part only.
   */
  function FoldSpec<L(==), M>(lower: string -> string, wordTokenize: string -> seq<string>,
                              fit: (seq<seq<nat>>, seq<seq<int>>) -> M, classify: (M, seq<nat>) -> seq<int>,
                              f: Fold<L>): (r: Result<FoldCounts>)
    ensures r.Ok? ==> r.value.correct <= r.value.totalTest && r.value.correct <= r.value.totalSystem
  {
    var vocab := RegisterAll(map[], CorpusNGrams(lower, wordTokenize, f.xTrain));
    var table := EncodeTable(map[], f.yTrain).0;
    var clf := Fitted(fit(FeatureRows(vocab, TokenLists(lower, wordTokenize, f.xTrain)), EncodeRows(map[], f.yTrain)));
    match PredictionsWith(lower, wordTokenize, classify, clf, vocab, table, f.xTest)
    case Err(e) => Err(e)
    case Ok(predicted) =>
      if |f.yTest| <= |predicted| then CountsBounded(predicted, f.yTest); CountsOf(predicted, f.yTest)
      else CountsOf(predicted, f.yTest)
  }

  /** The score of a fold, or the error that stops it. */
  function FoldResult<L(==), M>(lower: string -> string, wordTokenize: string -> seq<string>,
                                fit: (seq<seq<nat>>, seq<seq<int>>) -> M, classify: (M, seq<nat>) -> seq<int>,
                                f: Fold<L>): (r: Result<real>)
    ensures r.Ok? ==> 0.0 < r.value <= 1.0
  {
    match FoldSpec(lower, wordTokenize, fit, classify, f)
    case Err(e) => Err(e)
    case Ok(c) =>
      if c.correct > 0 && c.totalTest > 0 && c.totalSystem > 0 then
        FoldScoreValue(c.correct, c.totalTest, c.totalSystem);
        FoldScore(c.correct, c.totalTest, c.totalSystem)
      else FoldScore(c.correct, c.totalTest, c.totalSystem)
  }

  /** Decoded answers that agree with label sets have those sets, and as many labels in all. */
  lemma AnswersAgree<L>(answer: seq<seq<L>>, predicted: seq<set<L>>)
    requires AgreesAll(Ok(answer), Ok(predicted))
    ensures Sets(answer) == predicted
    ensures TotalLength(answer) == SumCard(predicted)
  {
    forall i | 0 <= i < |answer|
      ensures Sets(answer)[i] == predicted[i] && Distinct(answer[i])
    {
      assert Agrees(Ok(answer[i]), Ok(predicted[i]));
    }
    SumCardOfSets(answer);
  }

  /**
   * The body of the fold loop: a fresh classifier is trained on the training
   * part, classifies the test texts, and the three tallies are taken. The
   * tallies depend on this fold alone.
   */
  method RunFold<L(==), M>(lower: string -> string, wordTokenize: string -> seq<string>,
                           fit: (seq<seq<nat>>, seq<seq<int>>) -> M, classify: (M, seq<nat>) -> seq<int>,
                           f: Fold<L>) returns (counts: Result<FoldCounts>)
    ensures counts == FoldSpec(lower, wordTokenize, fit, classify, f)
  {
    var sol := new Solution<L, M>(lower, wordTokenize, fit, classify);
    sol.Train(f.xTrain, f.yTrain);
    var answer := sol.GetClasses(f.xTest);
    if answer.Err? {
      return Err(answer.error);
    }
    ghost var predicted := PredictionsWith(lower, wordTokenize, classify, sol.clf, sol.ngramToNumber,
                                           sol.opinionToNumber, f.xTest).value;
    AnswersAgree(answer.value, predicted);
    var totalTest := TotalLength(f.yTest);
    var totalSystem := TotalLength(answer.value);
    var correct := CorrectAnswers(answer.value, f.yTest);
    if correct.Err? {
      return Err(correct.error);
    }
    counts := Ok(FoldCounts(correct.value, totalTest, totalSystem));
  }

  /** One fold scored: its tallies, then the F-measure, or the error that stops it. */
  method ScoreFold<L(==), M>(lower: string -> string, wordTokenize: string -> seq<string>,
                             fit: (seq<seq<nat>>, seq<seq<int>>) -> M, classify: (M, seq<nat>) -> seq<int>,
                             f: Fold<L>) returns (score: Result<real>)
    ensures score == FoldResult(lower, wordTokenize, fit, classify, f)
    ensures score.Ok? ==> 0.0 < score.value <= 1.0
  {
    var counts := RunFold(lower, wordTokenize, fit, classify, f);
    if counts.Err? {
      return Err(counts.error);
    }
    var c := counts.value;
    score := FoldScore(c.correct, c.totalTest, c.totalSystem);
  }

  /** A fold that fails after folds that all scored is the first failing fold. */
  lemma FirstFailingFold<L, M>(lower: string -> string, wordTokenize: string -> seq<string>,
                                   fit: (seq<seq<nat>>, seq<seq<int>>) -> M, classify: (M, seq<nat>) -> seq<int>,
                                   folds: seq<Fold<L>>, scores: seq<real>, i: nat, e: Error)
    requires i < |folds| && |scores| == i
    requires forall j :: 0 <= j < i ==> FoldResult(lower, wordTokenize, fit, classify, folds[j]) == Ok(scores[j])
    requires FoldResult(lower, wordTokenize, fit, classify, folds[i]) == Err(e)
    ensures exists k :: (0 <= k < |folds|
      && FoldResult(lower, wordTokenize, fit, classify, folds[k]) == Err(e)
      && forall j :: 0 <= j < k ==> FoldResult(lower, wordTokenize, fit, classify, folds[j]).Ok?)
  {
    assert forall j :: 0 <= j < i ==> FoldResult(lower, wordTokenize, fit, classify, folds[j]).Ok?;
  }

  /** One more fold scored: the scores so far are still those of their folds. */
  lemma ScoredFold<L, M>(lower: string -> string, wordTokenize: string -> seq<string>,
                             fit: (seq<seq<nat>>, seq<seq<int>>) -> M, classify: (M, seq<nat>) -> seq<int>,
                             folds: seq<Fold<L>>, scores: seq<real>, i: nat, v: real)
    requires i < |folds| && |scores| == i
    requires forall j :: 0 <= j < i ==> FoldResult(lower, wordTokenize, fit, classify, folds[j]) == Ok(scores[j])
    requires FoldResult(lower, wordTokenize, fit, classify, folds[i]) == Ok(v)
    ensures forall j :: 0 <= j < i + 1 ==> FoldResult(lower, wordTokenize, fit, classify, folds[j]) == Ok((scores + [v])[j])
  {
  }

  /** The fold loop: one score per fold, in fold order; the first failing fold stops the run. */
  method CrossValidate<L(==), M>(lower: string -> string, wordTokenize: string -> seq<string>,
                                 fit: (seq<seq<nat>>, seq<seq<int>>) -> M, classify: (M, seq<nat>) -> seq<int>,
                                 folds: seq<Fold<L>>) returns (r: Result<seq<real>>)
    ensures r.Ok? ==> (|r.value| == |folds|
      && forall i :: 0 <= i < |folds| ==> FoldResult(lower, wordTokenize, fit, classify, folds[i]) == Ok(r.value[i]))
    ensures r.Err? ==> exists i :: (0 <= i < |folds|
      && FoldResult(lower, wordTokenize, fit, classify, folds[i]) == Err(r.error)
      && forall j :: 0 <= j < i ==> FoldResult(lower, wordTokenize, fit, classify, folds[j]).Ok?)
  {
    var scores: seq<real> := [];
    for i := 0 to |folds|
      invariant |scores| == i
      invariant forall j :: 0 <= j < i ==> FoldResult(lower, wordTokenize, fit, classify, folds[j]) == Ok(scores[j])
    {
      var score := ScoreFold(lower, wordTokenize, fit, classify, folds[i]);
      if score.Err? {
        FirstFailingFold(lower, wordTokenize, fit, classify, folds, scores, i, score.error);
        return Err(score.error);
      }
      ScoredFold(lower, wordTokenize, fit, classify, folds, scores, i, score.value);
      scores := scores + [score.value];
    }
    r := Ok(scores);
  }
}
