/**
 * The classifier object: it owns the n-gram vocabulary, the label table and
 * the trained classifier, and updates them in place. The tokenizer, the
 * lower-casing and the learning library are external collaborators, given
 * to the constructor as functions:
 *   - fit(features, target) is the trained state of the one-vs-rest learner;
 *   - classify(state, features) is its predicted indicator row.
 */
module SolutionModel {
  import opened Results
  import opened IdTable
  import opened Text
  import opened Features
  import opened Labels

  /** The state of the external classifier. */
  datatype Classifier<M> = Unfitted | Fitted(state: M)

  /** No label is listed twice. */
  predicate Distinct<L(==)>(labels: seq<L>)
  {
    forall i, j :: 0 <= i < j < |labels| ==> labels[i] != labels[j]
  }

  /** A decoded label list agrees with a decoded label set: same outcome, the same labels, each once. */
  predicate Agrees<L(==)>(r: Result<seq<L>>, s: Result<set<L>>)
  {
    match r
    case Err(e) => s == Err(e)
    case Ok(labels) => s.Ok? && SetOf(labels) == s.value && Distinct(labels)
  }

  /** The decoded predictions of a list of texts agree with their label sets, one by one. */
  predicate AgreesAll<L(==)>(r: Result<seq<seq<L>>>, s: Result<seq<set<L>>>)
  {
    match r
    case Err(e) => s == Err(e)
    case Ok(rows) =>
      && s.Ok? && |rows| == |s.value|
      && forall i :: 0 <= i < |rows| ==> Agrees(Ok(rows[i]), Ok(s.value[i]))
  }

  /**
   * What `predict` yields for `text`, as a set of labels, given the classifier,
   * the vocabulary and the label table.
   */
  function PredictWith<L(==), M>(lower: string -> string, wordTokenize: string -> seq<string>,
                                 classify: (M, seq<nat>) -> seq<int>, clf: Classifier<M>,
                                 vocab: map<string, nat>, table: map<L, nat>, text: string): (r: Result<set<L>>)
    ensures r.Err? ==> r.error == if clf.Unfitted? then Untrained else IndexError
    ensures r.Ok? ==> clf.Fitted? && r.value <= table.Keys
  {
    match clf
    case Unfitted => Err(Untrained)
    case Fitted(state) =>
      Decode(table, classify(state, CountVector(vocab, TextTokenize(lower, wordTokenize, text))))
  }

  /** What `getClasses` yields: the predictions in input order, or the first failure. */
  function PredictionsWith<L(==), M>(lower: string -> string, wordTokenize: string -> seq<string>,
                                     classify: (M, seq<nat>) -> seq<int>, clf: Classifier<M>,
                                     vocab: map<string, nat>, table: map<L, nat>, texts: seq<string>)
    : (r: Result<seq<set<L>>>)
    ensures r.Ok? ==> |r.value| == |texts|
    decreases |texts|
  {
    if texts == [] then Ok([])
    else
      match PredictionsWith(lower, wordTokenize, classify, clf, vocab, table, texts[..|texts| - 1])
      case Err(e) => Err(e)
      case Ok(ps) =>
        match PredictWith(lower, wordTokenize, classify, clf, vocab, table, texts[|texts| - 1])
        case Err(e) => Err(e)
        case Ok(p) => Ok(ps + [p])
  }

  /** The predictions succeed exactly when every text's prediction does; the first failure is reported. */
  lemma {:induction false} PredictionsOutcome<L, M>(
    lower: string -> string, wordTokenize: string -> seq<string>, classify: (M, seq<nat>) -> seq<int>,
    clf: Classifier<M>, vocab: map<string, nat>, table: map<L, nat>, texts: seq<string>)
    ensures var r := PredictionsWith(lower, wordTokenize, classify, clf, vocab, table, texts);
      && (r.Ok? ==> |r.value| == |texts| && forall i :: 0 <= i < |texts| ==>
            PredictWith(lower, wordTokenize, classify, clf, vocab, table, texts[i]) == Ok(r.value[i]))
      && (r.Err? ==> exists i :: (0 <= i < |texts|
            && PredictWith(lower, wordTokenize, classify, clf, vocab, table, texts[i]) == Err(r.error)
            && forall j :: 0 <= j < i ==> PredictWith(lower, wordTokenize, classify, clf, vocab, table, texts[j]).Ok?))
    decreases |texts|
  {
    if texts != [] {
      var init := texts[..|texts| - 1];
      PredictionsOutcome(lower, wordTokenize, classify, clf, vocab, table, init);
      var r := PredictionsWith(lower, wordTokenize, classify, clf, vocab, table, texts);
      var pre := PredictionsWith(lower, wordTokenize, classify, clf, vocab, table, init);
      if pre.Err? {
        var i :| 0 <= i < |init|
          && PredictWith(lower, wordTokenize, classify, clf, vocab, table, init[i]) == Err(pre.error)
          && forall j :: 0 <= j < i ==> PredictWith(lower, wordTokenize, classify, clf, vocab, table, init[j]).Ok?;
        assert texts[i] == init[i];
        forall j | 0 <= j < i
          ensures PredictWith(lower, wordTokenize, classify, clf, vocab, table, texts[j]).Ok?
        {
          assert texts[j] == init[j];
        }
      } else if r.Err? {
        forall j | 0 <= j < |init|
          ensures PredictWith(lower, wordTokenize, classify, clf, vocab, table, texts[j]).Ok?
        {
          assert texts[j] == init[j];
        }
      } else {
        forall i | 0 <= i < |texts|
          ensures PredictWith(lower, wordTokenize, classify, clf, vocab, table, texts[i]) == Ok(r.value[i])
        {
          if i < |init| {
            assert texts[i] == init[i];
          }
        }
      }
    }
  }

  /** Once a prefix of the texts fails, all the texts fail with the same error. */
  lemma {:induction false} PredictionsErrStays<L, M>(
    lower: string -> string, wordTokenize: string -> seq<string>, classify: (M, seq<nat>) -> seq<int>,
    clf: Classifier<M>, vocab: map<string, nat>, table: map<L, nat>, texts: seq<string>, n: nat)
    requires n <= |texts|
    requires PredictionsWith(lower, wordTokenize, classify, clf, vocab, table, texts[..n]).Err?
    ensures PredictionsWith(lower, wordTokenize, classify, clf, vocab, table, texts)
      == PredictionsWith(lower, wordTokenize, classify, clf, vocab, table, texts[..n])
    decreases |texts| - n
  {
    if n < |texts| {
      assert texts[..n + 1][..n] == texts[..n];
      PredictionsErrStays(lower, wordTokenize, classify, clf, vocab, table, texts, n + 1);
    } else {
      assert texts[..n] == texts;
    }
  }

  /**
   * The vocabulary `train` builds on an empty table: every n-gram of every
   * token of every text is in it, its indices are exactly 0 .. size-1, one
   * n-gram each, and they follow the order of first occurrence in the corpus
   * (document by document, token by token, left to right within a token).
   */
  lemma FreshVocabulary(lower: string -> string, wordTokenize: string -> seq<string>, texts: seq<string>)
    ensures var corpus := CorpusNGrams(lower, wordTokenize, texts);
            var v := RegisterAll(map[], corpus);
      && v.Keys == SetOf(corpus)
      && Dense(v)
      && (forall j :: j in v.Values <==> 0 <= j < |v|)
      && (forall d, t, i :: 0 <= d < |texts| && 0 <= t < |TextTokenize(lower, wordTokenize, texts[d])|
            && 0 <= i < |NGrams(TextTokenize(lower, wordTokenize, texts[d])[t])|
            ==> NGrams(TextTokenize(lower, wordTokenize, texts[d])[t])[i] in v)
      && (forall x, y :: x in v && y in v ==> (v[x] < v[y] <==> FirstIndex(corpus, x) < FirstIndex(corpus, y)))
  {
    var corpus := CorpusNGrams(lower, wordTokenize, texts);
    FreshTableFirstSeen(corpus);
    forall d, t, i | 0 <= d < |texts| && 0 <= t < |TextTokenize(lower, wordTokenize, texts[d])|
        && 0 <= i < |NGrams(TextTokenize(lower, wordTokenize, texts[d])[t])|
      ensures NGrams(TextTokenize(lower, wordTokenize, texts[d])[t])[i] in corpus
    {
      CorpusNGramsContains(lower, wordTokenize, texts, d, t, i);
    }
  }

  /** The token lists of a corpus, one per text. */
  function TokenLists(lower: string -> string, wordTokenize: string -> seq<string>, texts: seq<string>)
    : seq<seq<string>>
  {
    seq(|texts|, i requires 0 <= i < |texts| => TextTokenize(lower, wordTokenize, texts[i]))
  }

  /** The feature vectors of a list of token lists. */
  function FeatureRows(m: map<string, nat>, tokenLists: seq<seq<string>>): seq<seq<nat>>
  {
    seq(|tokenLists|, i requires 0 <= i < |tokenLists| => CountVector(m, tokenLists[i]))
  }

  lemma FlattenPrefixStep<L>(opList: seq<seq<L>>, i: nat)
    requires i < |opList|
    ensures Flatten(opList[..i + 1]) == Flatten(opList[..i]) + opList[i]
  {
    assert opList[..i + 1] == opList[..i] + [opList[i]];
    FlattenSnoc(opList[..i], opList[i]);
  }

  /** A whole token scanned: the scanned n-grams extend by that token's n-grams. */
  lemma TokenScanned(tokens: seq<string>, t: nat)
    requires t < |tokens|
    ensures AllNGrams(tokens[..t]) + NGrams(tokens[t]) == AllNGrams(tokens[..t + 1])
  {
    assert tokens[..t + 1] == tokens[..t] + [tokens[t]];
    AllNGramsSnoc(tokens[..t], tokens[t]);
  }

  /** A whole document scanned: its n-grams and its token list follow those of the earlier documents. */
  lemma DocumentScanned(lower: string -> string, wordTokenize: string -> seq<string>, texts: seq<string>, d: nat)
    requires d < |texts|
    ensures var tokens := TextTokenize(lower, wordTokenize, texts[d]);
      && CorpusNGrams(lower, wordTokenize, texts[..d]) + AllNGrams(tokens)
           == CorpusNGrams(lower, wordTokenize, texts[..d + 1])
      && TokenLists(lower, wordTokenize, texts[..d]) + [tokens]
           == TokenLists(lower, wordTokenize, texts[..d + 1])
  {
    assert texts[..d + 1] == texts[..d] + [texts[d]];
    CorpusNGramsSnoc(lower, wordTokenize, texts[..d], texts[d]);
  }

  /** One more feature row, against a fixed vocabulary. */
  lemma FeatureRowsStep(m: map<string, nat>, tokenLists: seq<seq<string>>, k: nat)
    requires k < |tokenLists|
    ensures FeatureRows(m, tokenLists[..k + 1]) == FeatureRows(m, tokenLists[..k]) + [CountVector(m, tokenLists[k])]
  {
    assert tokenLists[..k + 1] == tokenLists[..k] + [tokenLists[k]];
  }

  class Solution<L(==), M> {
    const lower: string -> string
    const wordTokenize: string -> seq<string>
    const fit: (seq<seq<nat>>, seq<seq<int>>) -> M
    const classify: (M, seq<nat>) -> seq<int>

    var opinionToNumber: map<L, nat>
    var ngramToNumber: map<string, nat>
    var clf: Classifier<M>

    /** The vocabulary stays dense: it only ever grows through NgrAdd. */
    ghost predicate Valid()
      reads this
    {
      Dense(ngramToNumber)
    }

    /** `Solution()`: empty vocabulary and label table, an untrained classifier. */
    constructor (lower: string -> string, wordTokenize: string -> seq<string>,
                 fit: (seq<seq<nat>>, seq<seq<int>>) -> M, classify: (M, seq<nat>) -> seq<int>)
      ensures Valid()
      ensures opinionToNumber == map[] && ngramToNumber == map[] && clf == Unfitted
      ensures this.lower == lower && this.wordTokenize == wordTokenize
      ensures this.fit == fit && this.classify == classify
    {
      this.lower, this.wordTokenize := lower, wordTokenize;
      this.fit, this.classify := fit, classify;
      opinionToNumber, ngramToNumber := map[], map[];
      clf := Unfitted;
    }

    /** `_ngr_add`: a new n-gram gets the vocabulary size as index; a known one changes nothing. */
    method NgrAdd(ngram: string)
      requires Valid()
      modifies this`ngramToNumber
      ensures Valid()
      ensures ngramToNumber == Register(old(ngramToNumber), ngram)
    {
      RegisterKeepsDense(ngramToNumber, ngram);
      if ngram !in ngramToNumber {
        ngramToNumber := ngramToNumber[ngram := |ngramToNumber|];
      }
    }

    /**
     * `_encode_opinions`: registers the labels with a counter that starts at 0,
     * then binarizes each label set over that many classes.
     */
    method EncodeOpinions(opList: seq<seq<L>>) returns (target: seq<seq<int>>)
      modifies this`opinionToNumber
      ensures opinionToNumber == EncodeTable(old(opinionToNumber), opList).0
      ensures target == EncodeRows(old(opinionToNumber), opList)
    {
      ghost var m0 := opinionToNumber;
      var nOps := 0;
      var converted: seq<seq<nat>> := [];
      for i := 0 to |opList|
        invariant opinionToNumber == RegisterAllCounted(m0, 0, Flatten(opList[..i])).0
        invariant nOps == RegisterAllCounted(m0, 0, Flatten(opList[..i])).1
        invariant Covers(opinionToNumber, opList[..i])
        invariant converted == IndexRows(opinionToNumber, opList[..i])
      {
        var ops := opList[i];
        ghost var mi := opinionToNumber;
        ghost var seen := Flatten(opList[..i]);
        assert seen + ops[..0] == seen;
        for j := 0 to |ops|
          invariant opinionToNumber == RegisterAllCounted(m0, 0, seen + ops[..j]).0
          invariant nOps == RegisterAllCounted(m0, 0, seen + ops[..j]).1
          invariant forall k :: 0 <= k < j ==> ops[k] in opinionToNumber
          invariant forall y :: y in mi ==> y in opinionToNumber && opinionToNumber[y] == mi[y]
        {
          var op := ops[j];
          RegisterAllCountedSnoc(m0, 0, seen + ops[..j], op);
          PrefixStep(seen, ops, j);
          if op !in opinionToNumber {
            opinionToNumber := opinionToNumber[op := nOps];
            nOps := nOps + 1;
          }
        }
        assert seen + ops[..|ops|] == seen + ops;
        IndexRowsStep(mi, opinionToNumber, opList, i);
        var table := opinionToNumber;
        converted := converted + [seq(|ops|, k requires 0 <= k < |ops| => table[ops[k]])];
        FlattenPrefixStep(opList, i);
      }
      assert opList[..|opList|] == opList;
      target := Binarize(converted, nOps);
    }

    /**
     * `_decode_opinions`: walks the label table in no particular order and
     * collects the labels whose bit is 1; an index outside the vector fails.
     */
    method DecodeOpinions(bvect: seq<int>) returns (r: Result<seq<L>>)
      ensures Agrees(r, Decode(opinionToNumber, bvect))
    {
      var ret: seq<L> := [];
      var rest := opinionToNumber.Keys;
      while rest != {}
        invariant rest <= opinionToNumber.Keys
        invariant forall x :: x in opinionToNumber && x !in rest ==> opinionToNumber[x] < |bvect|
        invariant forall x :: x in ret <==>
          x in opinionToNumber && x !in rest && opinionToNumber[x] < |bvect| && bvect[opinionToNumber[x]] == 1
        invariant Distinct(ret)
        decreases rest
      {
        var op :| op in rest;
        var number := opinionToNumber[op];
        if number >= |bvect| {
          return Err(IndexError);
        }
        if bvect[number] == 1 {
          ret := ret + [op];
        }
        rest := rest - {op};
      }
      assert SetOf(ret) == (set x | x in opinionToNumber && bvect[opinionToNumber[x]] == 1);
      r := Ok(ret);
    }

    /**
     * `_get_features_from_tokens`: a zero vector as long as the vocabulary,
     * incremented in place at the index of every known n-gram.
     */
    method FeaturesFromTokens(tokens: seq<string>) returns (features: seq<nat>)
      requires Valid()
      ensures features == CountVector(ngramToNumber, tokens)
    {
      var vocab := ngramToNumber;
      var ret := new nat[|vocab|](k => 0);
      for t := 0 to |tokens|
        invariant forall k :: 0 <= k < ret.Length ==> ret[k] == CountIndex(vocab, AllNGrams(tokens[..t]), k)
      {
        var token := tokens[t];
        ghost var done := AllNGrams(tokens[..t]);
        var ngrams := NGrams(token);
        assert done + ngrams[..0] == done;
        for i := 0 to |ngrams|
          invariant forall k :: 0 <= k < ret.Length ==> ret[k] == CountIndex(vocab, done + ngrams[..i], k)
        {
          var ngram := ngrams[i];
          CountStep(vocab, done, ngrams, i);
          var idx := if ngram in vocab then vocab[ngram] else -1;
          if idx != -1 {
            ret[idx] := ret[idx] + 1;
          }
        }
        assert ngrams[..|ngrams|] == ngrams;
        TokenScanned(tokens, t);
      }
      assert tokens[..|tokens|] == tokens;
      features := ret[..];
    }

    /**
     * The n-gram scan of one text in `train`: every n-gram of every token, left
     * to right, is added to the vocabulary.
     */
    method ScanTokens(tokens: seq<string>)
      requires Valid()
      modifies this`ngramToNumber
      ensures Valid()
      ensures ngramToNumber == RegisterAll(old(ngramToNumber), AllNGrams(tokens))
    {
      ghost var m0 := ngramToNumber;
      for t := 0 to |tokens|
        invariant Valid()
        invariant ngramToNumber == RegisterAll(m0, AllNGrams(tokens[..t]))
      {
        ghost var upTo := AllNGrams(tokens[..t]);
        var ngrams := NGrams(tokens[t]);
        assert upTo + ngrams[..0] == upTo;
        for i := 0 to |ngrams|
          invariant Valid()
          invariant ngramToNumber == RegisterAll(m0, upTo + ngrams[..i])
        {
          NgrAdd(ngrams[i]);
          RegisterAllSnoc(m0, upTo + ngrams[..i], ngrams[i]);
          PrefixStep(upTo, ngrams, i);
        }
        assert ngrams[..|ngrams|] == ngrams;
        TokenScanned(tokens, t);
      }
      assert tokens[..|tokens|] == tokens;
    }

    /**
     * The vocabulary scan of `train`: text by text, the token list is kept and
     * its n-grams are added to the vocabulary.
     */
    method ScanTexts(texts: seq<string>) returns (tokenList: seq<seq<string>>)
      requires Valid()
      modifies this`ngramToNumber
      ensures Valid()
      ensures ngramToNumber == RegisterAll(old(ngramToNumber), CorpusNGrams(lower, wordTokenize, texts))
      ensures tokenList == TokenLists(lower, wordTokenize, texts)
    {
      ghost var m0 := ngramToNumber;
      tokenList := [];
      for d := 0 to |texts|
        invariant Valid()
        invariant ngramToNumber == RegisterAll(m0, CorpusNGrams(lower, wordTokenize, texts[..d]))
        invariant tokenList == TokenLists(lower, wordTokenize, texts[..d])
      {
        var tokens := TextTokenize(lower, wordTokenize, texts[d]);
        RegisterAllAppend(m0, CorpusNGrams(lower, wordTokenize, texts[..d]), AllNGrams(tokens));
        ScanTokens(tokens);
        tokenList := tokenList + [tokens];
        DocumentScanned(lower, wordTokenize, texts, d);
      }
      assert texts[..|texts|] == texts;
    }

    /** The feature matrix of `train`: one feature vector per token list, against the current vocabulary. */
    method FeatureMatrix(tokenLists: seq<seq<string>>) returns (rows: seq<seq<nat>>)
      requires Valid()
      ensures rows == FeatureRows(ngramToNumber, tokenLists)
    {
      rows := [];
      for k := 0 to |tokenLists|
        invariant rows == FeatureRows(ngramToNumber, tokenLists[..k])
      {
        var features := FeaturesFromTokens(tokenLists[k]);
        FeatureRowsStep(ngramToNumber, tokenLists, k);
        rows := rows + [features];
      }
      assert tokenLists[..|tokenLists|] == tokenLists;
    }

    /**
     * `train`: encodes the label sets, scans the texts into the vocabulary
     * while keeping their token lists, then computes every text's feature vector
     * against the final vocabulary and fits the classifier.
     */
    method Train(texts: seq<string>, labelSets: seq<seq<L>>)
      requires Valid()
      modifies this
      ensures Valid()
      ensures opinionToNumber == EncodeTable(old(opinionToNumber), labelSets).0
      ensures ngramToNumber == RegisterAll(old(ngramToNumber), CorpusNGrams(lower, wordTokenize, texts))
      ensures clf == Fitted(fit(FeatureRows(ngramToNumber, TokenLists(lower, wordTokenize, texts)),
                                EncodeRows(old(opinionToNumber), labelSets)))
    {
      var target := EncodeOpinions(labelSets);
      var tokenList := ScanTexts(texts);
      var featuresList := FeatureMatrix(tokenList);
      clf := Fitted(fit(featuresList, target));
    }

    /** `fit`: trains and returns the object itself. */
    method Fit(x: seq<string>, y: seq<seq<L>>) returns (self: Solution<L, M>)
      requires Valid()
      modifies this
      ensures self == this && Valid()
      ensures opinionToNumber == EncodeTable(old(opinionToNumber), y).0
      ensures ngramToNumber == RegisterAll(old(ngramToNumber), CorpusNGrams(lower, wordTokenize, x))
      ensures clf == Fitted(fit(FeatureRows(ngramToNumber, TokenLists(lower, wordTokenize, x)),
                                EncodeRows(old(opinionToNumber), y)))
    {
      Train(x, y);
      self := this;
    }

    /** What `predict` yields, as a set of labels. */
    ghost function PredictSpec(text: string): Result<set<L>>
      reads this
    {
      PredictWith(lower, wordTokenize, classify, clf, ngramToNumber, opinionToNumber, text)
    }

    /**
     * `predict`: vectorizes the text against the current vocabulary, asks the
     * classifier for an indicator row and decodes it. It reads the vocabulary
     * and the label table and changes nothing.
     */
    method Predict(text: string) returns (r: Result<seq<L>>)
      requires Valid()
      ensures Agrees(r, PredictSpec(text))
    {
      var tokens := TextTokenize(lower, wordTokenize, text);
      var features := FeaturesFromTokens(tokens);
      match clf
      case Unfitted =>
        r := Err(Untrained);
      case Fitted(state) =>
        var answer := classify(state, features);
        r := DecodeOpinions(answer);
    }

    /** `getClasses`: one prediction per text, in input order; the first failure aborts. */
    method GetClasses(texts: seq<string>) returns (r: Result<seq<seq<L>>>)
      requires Valid()
      ensures AgreesAll(r, PredictionsWith(lower, wordTokenize, classify, clf, ngramToNumber, opinionToNumber, texts))
    {
      var classes: seq<seq<L>> := [];
      for i := 0 to |texts|
        invariant AgreesAll(Ok(classes),
          PredictionsWith(lower, wordTokenize, classify, clf, ngramToNumber, opinionToNumber, texts[..i]))
      {
        var p := Predict(texts[i]);
        assert texts[..i + 1][..i] == texts[..i];
        if p.Err? {
          PredictionsErrStays(lower, wordTokenize, classify, clf, ngramToNumber, opinionToNumber, texts, i + 1);
          return Err(p.error);
        }
        classes := classes + [p.value];
      }
      assert texts[..|texts|] == texts;
      r := Ok(classes);
    }
  }
}
