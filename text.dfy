/**
 * Tokens and character n-grams. The word tokenizer and the lower-casing of
 * text are external; they are passed in as functions.
 */
module Text {

  /** Width of the sliding window, `Solution._ngram`. */
  const NGramSize: nat := 3

  /** `_normalize_text`: the external lower-casing. */
  function Normalize(lower: string -> string, text: string): string
  {
    lower(text)
  }

  /** Surrounds a word with the boundary markers. */
  function Wrap(word: string): (t: string)
    ensures |t| == |word| + 2
    ensures t[0] == '^' && t[|t| - 1] == '$' && t[1..|t| - 1] == word
  {
    "^" + word + "$"
  }

  /** `_text_tokenize`: lower-case, split into words, wrap every word. */
  function TextTokenize(lower: string -> string, wordTokenize: string -> seq<string>, text: string)
    : (tokens: seq<string>)
    ensures |tokens| == |wordTokenize(Normalize(lower, text))|
    ensures forall i :: 0 <= i < |tokens| ==>
      |tokens[i]| >= 2 && tokens[i][0] == '^' && tokens[i][|tokens[i]| - 1] == '$'
    ensures forall i :: 0 <= i < |tokens| ==> tokens[i] == Wrap(wordTokenize(Normalize(lower, text))[i])
  {
    var words := wordTokenize(Normalize(lower, text));
    seq(|words|, i requires 0 <= i < |words| => Wrap(words[i]))
  }

  /** `_get_ngrams`: the windows of width NGramSize of a token, left to right. */
  function NGrams(token: string): (r: seq<string>)
    ensures |r| == if |token| >= NGramSize then |token| - NGramSize + 1 else 0
    decreases |token|
  {
    if |token| < NGramSize then []
    else [token[..NGramSize]] + NGrams(token[1..])
  }

  /** The i-th n-gram is the window of width NGramSize starting at position i. */
  lemma {:induction false} NGramsWindows(token: string)
    ensures forall i :: 0 <= i < |NGrams(token)| ==>
      NGrams(token)[i] == token[i..i + NGramSize] && |NGrams(token)[i]| == NGramSize
    decreases |token|
  {
    if |token| >= NGramSize {
      var rest := token[1..];
      NGramsWindows(rest);
      forall i | 0 < i < |NGrams(token)|
        ensures NGrams(token)[i] == token[i..i + NGramSize]
      {
        assert NGrams(token)[i] == NGrams(rest)[i - 1];
        assert rest[i - 1..i - 1 + NGramSize] == token[i..i + NGramSize];
      }
    }
  }

  /** The n-grams of a token list: token by token, left to right within a token. */
  function AllNGrams(tokens: seq<string>): seq<string>
    decreases |tokens|
  {
    if tokens == [] then []
    else AllNGrams(tokens[..|tokens| - 1]) + NGrams(tokens[|tokens| - 1])
  }

  /** The n-grams of a corpus in scanning order: document by document. */
  function CorpusNGrams(lower: string -> string, wordTokenize: string -> seq<string>, texts: seq<string>)
    : seq<string>
    decreases |texts|
  {
    if texts == [] then []
    else
      CorpusNGrams(lower, wordTokenize, texts[..|texts| - 1])
        + AllNGrams(TextTokenize(lower, wordTokenize, texts[|texts| - 1]))
  }

  /** A wrapped non-empty word has at least one n-gram. */
  lemma WrappedWordHasNGram(word: string)
    requires |word| > 0
    ensures |NGrams(Wrap(word))| == |word| && NGrams(Wrap(word))[0][0] == '^'
  {
    NGramsWindows(Wrap(word));
  }

  /** Every non-empty word of a text yields at least one n-gram, its token's first starting with `^`. */
  lemma TokenHasNGram(lower: string -> string, wordTokenize: string -> seq<string>, text: string, i: nat)
    requires i < |wordTokenize(Normalize(lower, text))|
    requires |wordTokenize(Normalize(lower, text))[i]| > 0
    ensures var tokens := TextTokenize(lower, wordTokenize, text);
      i < |tokens| && |NGrams(tokens[i])| == |wordTokenize(Normalize(lower, text))[i]| >= 1
      && NGrams(tokens[i])[0][0] == '^'
  {
    WrappedWordHasNGram(wordTokenize(Normalize(lower, text))[i]);
  }

  lemma AllNGramsSnoc(tokens: seq<string>, t: string)
    ensures AllNGrams(tokens + [t]) == AllNGrams(tokens) + NGrams(t)
  {
    assert (tokens + [t])[..|tokens|] == tokens;
  }

  lemma CorpusNGramsSnoc(lower: string -> string, wordTokenize: string -> seq<string>, texts: seq<string>, text: string)
    ensures CorpusNGrams(lower, wordTokenize, texts + [text])
      == CorpusNGrams(lower, wordTokenize, texts) + AllNGrams(TextTokenize(lower, wordTokenize, text))
  {
    assert (texts + [text])[..|texts|] == texts;
  }

  /** Every n-gram of every token is among the n-grams of the token list. */
  lemma {:induction false} AllNGramsContains(tokens: seq<string>, t: nat, i: nat)
    requires t < |tokens| && i < |NGrams(tokens[t])|
    ensures NGrams(tokens[t])[i] in AllNGrams(tokens)
    decreases |tokens|
  {
    var init := tokens[..|tokens| - 1];
    if t < |tokens| - 1 {
      assert tokens[t] == init[t];
      AllNGramsContains(init, t, i);
    }
  }

  /** Every n-gram of every token of every document is among the corpus n-grams. */
  lemma {:induction false} CorpusNGramsContains(
    lower: string -> string, wordTokenize: string -> seq<string>, texts: seq<string>, d: nat, t: nat, i: nat)
    requires d < |texts|
    requires t < |TextTokenize(lower, wordTokenize, texts[d])|
    requires i < |NGrams(TextTokenize(lower, wordTokenize, texts[d])[t])|
    ensures NGrams(TextTokenize(lower, wordTokenize, texts[d])[t])[i] in CorpusNGrams(lower, wordTokenize, texts)
    decreases |texts|
  {
    var init := texts[..|texts| - 1];
    if d < |texts| - 1 {
      assert texts[d] == init[d];
      CorpusNGramsContains(lower, wordTokenize, init, d, t, i);
    } else {
      AllNGramsContains(TextTokenize(lower, wordTokenize, texts[d]), t, i);
    }
  }
}
