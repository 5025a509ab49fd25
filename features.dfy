/**
 * The count vector of a token list over an n-gram vocabulary: slot k holds
 * how many of the token list's n-grams have index k. N-grams outside the
 * vocabulary are dropped.
 */
module Features {
  import opened IdTable
  import opened Text

  /** How many of `gs` the vocabulary `m` maps to the index `k`. */
  function CountIndex(m: map<string, nat>, gs: seq<string>, k: nat): (c: nat)
    ensures c <= |gs|
    decreases |gs|
  {
    if gs == [] then 0
    else
      var g := gs[|gs| - 1];
      CountIndex(m, gs[..|gs| - 1], k) + (if g in m && m[g] == k then 1 else 0)
  }

  /** The feature vector of `tokens`: one count per vocabulary index. */
  function CountVector(m: map<string, nat>, tokens: seq<string>): (v: seq<nat>)
    ensures |v| == |m|
  {
    seq(|m|, k requires 0 <= k < |m| => CountIndex(m, AllNGrams(tokens), k))
  }

  lemma CountIndexSnoc(m: map<string, nat>, gs: seq<string>, g: string, k: nat)
    ensures CountIndex(m, gs + [g], k) == CountIndex(m, gs, k) + (if g in m && m[g] == k then 1 else 0)
  {
    assert (gs + [g])[..|gs|] == gs;
  }

  /** One more scanned n-gram raises only the count of its own index. */
  lemma CountStep(m: map<string, nat>, done: seq<string>, ngrams: seq<string>, i: nat)
    requires i < |ngrams|
    ensures forall k ::
      CountIndex(m, done + ngrams[..i + 1], k)
        == CountIndex(m, done + ngrams[..i], k) + (if ngrams[i] in m && m[ngrams[i]] == k then 1 else 0)
  {
    assert done + ngrams[..i + 1] == (done + ngrams[..i]) + [ngrams[i]];
    forall k: nat
      ensures CountIndex(m, done + ngrams[..i + 1], k)
        == CountIndex(m, done + ngrams[..i], k) + (if ngrams[i] in m && m[ngrams[i]] == k then 1 else 0)
    {
      CountIndexSnoc(m, done + ngrams[..i], ngrams[i], k);
    }
  }

  /** Counting distributes over concatenation. */
  lemma {:induction false} CountIndexAppend(m: map<string, nat>, a: seq<string>, b: seq<string>, k: nat)
    ensures CountIndex(m, a + b, k) == CountIndex(m, a, k) + CountIndex(m, b, k)
    decreases |b|
  {
    if b != [] {
      var init, g := b[..|b| - 1], b[|b| - 1];
      CountIndexAppend(m, a, init, k);
      calc {
        CountIndex(m, a + b, k);
        { assert a + b == (a + init) + [g]; }
        CountIndex(m, (a + init) + [g], k);
        { CountIndexSnoc(m, a + init, g, k); }
        CountIndex(m, a + init, k) + (if g in m && m[g] == k then 1 else 0);
        { assert b == init + [g]; CountIndexSnoc(m, init, g, k); }
        CountIndex(m, a, k) + CountIndex(m, b, k);
      }
    } else {
      assert a + b == a;
    }
  }

  /** N-grams outside the vocabulary count for nothing. */
  lemma {:induction false} UnknownCountsNothing(m: map<string, nat>, gs: seq<string>, k: nat)
    requires forall i :: 0 <= i < |gs| ==> gs[i] !in m
    ensures CountIndex(m, gs, k) == 0
    decreases |gs|
  {
    if gs != [] {
      UnknownCountsNothing(m, gs[..|gs| - 1], k);
    }
  }

  /** In an injective vocabulary, the slot of an n-gram counts exactly its occurrences. */
  lemma {:induction false} CountIndexIsOccurrences(m: map<string, nat>, gs: seq<string>, g: string)
    requires Injective(m) && g in m
    ensures CountIndex(m, gs, m[g]) == multiset(gs)[g]
    decreases |gs|
  {
    if gs != [] {
      var init, h := gs[..|gs| - 1], gs[|gs| - 1];
      assert gs == init + [h];
      CountIndexIsOccurrences(m, init, g);
    }
  }

  /**
   * In a dense vocabulary, slot `m[g]` of the feature vector is the number of
   * occurrences of the n-gram `g` across all tokens' n-grams.
   */
  lemma SlotCountsNGram(m: map<string, nat>, tokens: seq<string>, g: string)
    requires Dense(m) && g in m
    ensures m[g] < |CountVector(m, tokens)|
    ensures CountVector(m, tokens)[m[g]] == multiset(AllNGrams(tokens))[g]
  {
    CountIndexIsOccurrences(m, AllNGrams(tokens), g);
  }

  /** An empty token list gives the all-zero vector. */
  lemma NoTokensNoCounts(m: map<string, nat>)
    ensures CountVector(m, []) == seq(|m|, k => 0)
  {
  }

  /** Adding tokens whose n-grams are all unknown leaves the vector as it was. */
  lemma UnknownTokensChangeNothing(m: map<string, nat>, tokens: seq<string>, extra: seq<string>)
    requires forall i :: 0 <= i < |AllNGrams(extra)| ==> AllNGrams(extra)[i] !in m
    ensures CountVector(m, tokens + extra) == CountVector(m, tokens)
  {
    AllNGramsAppend(tokens, extra);
    forall k | 0 <= k < |m|
      ensures CountVector(m, tokens + extra)[k] == CountVector(m, tokens)[k]
    {
      CountIndexAppend(m, AllNGrams(tokens), AllNGrams(extra), k);
      UnknownCountsNothing(m, AllNGrams(extra), k);
    }
  }

  lemma {:induction false} AllNGramsAppend(a: seq<string>, b: seq<string>)
    ensures AllNGrams(a + b) == AllNGrams(a) + AllNGrams(b)
    decreases |b|
  {
    if b != [] {
      var init, t := b[..|b| - 1], b[|b| - 1];
      AllNGramsAppend(a, init);
      calc {
        AllNGrams(a + b);
        { assert a + b == (a + init) + [t]; }
        AllNGrams((a + init) + [t]);
        { AllNGramsSnoc(a + init, t); }
        AllNGrams(a + init) + NGrams(t);
        (AllNGrams(a) + AllNGrams(init)) + NGrams(t);
        { assert b == init + [t]; AllNGramsSnoc(init, t); }
        AllNGrams(a) + AllNGrams(b);
      }
    } else {
      assert a + b == a;
    }
  }
}
