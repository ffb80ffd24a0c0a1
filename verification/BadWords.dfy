/** The logits processor that forbids bad words, and the language its mask defines. */
module BadWords {
  import opened Options
  import opened ExtendedReals

  /** A logit: a number, or minus infinity for a token that cannot be sampled. */
  type Logit = Extended

  function Add(a: Logit, b: Logit): Logit {
    if a.NegInf? || b.NegInf? then NegInf else Fin(a.value + b.value)
  }

  /** A token outside the vocabulary is reported when the bias is first built; an empty word has no
      last token and fails every call. */
  datatype Outcome = Logits(logits: seq<Logit>) | OutOfVocabulary | EmptyWord

  // ---------- Meaning of the mask ----------

  ghost predicate InVocabulary(words: seq<seq<int>>, n: nat) {
    forall w, k :: w in words && 0 <= k < |w| ==> 0 <= w[k] < n
  }

  ghost predicate NonEmptyWords(words: seq<seq<int>>) {
    forall w :: w in words ==> w != []
  }

  ghost predicate EndsWith(s: seq<int>, w: seq<int>) {
    |w| <= |s| && s[|s| - |w|..] == w
  }

  /** Appending the token would complete a bad word. */
  ghost predicate Completes(words: seq<seq<int>>, past: seq<int>, t: int) {
    exists w :: w in words && w != [] && EndsWith(past + [t], w)
  }

  /** What a call returns: the logits, with minus infinity for every token that completes a word. */
  ghost function Masked(words: seq<seq<int>>, past: seq<int>, logits: seq<Logit>): Outcome {
    if !InVocabulary(words, |logits|) then OutOfVocabulary
    else if !NonEmptyWords(words) then EmptyWord
    else Logits(seq(|logits|, t requires 0 <= t < |logits| =>
                  if Completes(words, past, t) then NegInf else logits[t]))
  }

  // ---------- The processor ----------

  ghost function WordBias(words: seq<seq<int>>, n: nat): seq<Logit> {
    seq(n, t => if [t] in words then NegInf else Fin(0.0))
  }

  /** Bias of token `t` after the words before `k`: minus infinity if one of them has several tokens
      and is completed by `t`. */
  ghost predicate CompletesLong(words: seq<seq<int>>, k: nat, past: seq<int>, t: int)
    requires k <= |words|
  {
    exists i :: 0 <= i < k && |words[i]| != 1 && words[i] != [] && EndsWith(past + [t], words[i])
  }

  /** The prefix comparison of the loop is the suffix test. */
  lemma MatchIsEndsWith(past: seq<int>, t: int, w: seq<int>)
    requires w != []
    ensures EndsWith(past + [t], w) <==>
              |w| <= |past| + 1 && w[|w| - 1] == t && past[|past| - (|w| - 1)..] == w[..|w| - 1]
  {
    if |w| <= |past| + 1 {
      var suffix := (past + [t])[|past| + 1 - |w|..];
      assert suffix == past[|past| - (|w| - 1)..] + [t];
      assert w == w[..|w| - 1] + [w[|w| - 1]];
      if suffix == w {
        assert suffix[..|w| - 1] == past[|past| - (|w| - 1)..];
        assert suffix[|w| - 1] == t;
      }
    }
  }

  lemma CompletesLongNext(words: seq<seq<int>>, k: nat, past: seq<int>, t: int)
    requires k < |words|
    ensures CompletesLong(words, k + 1, past, t) <==>
              CompletesLong(words, k, past, t) ||
              (|words[k]| != 1 && words[k] != [] && EndsWith(past + [t], words[k]))
  {
  }

  /** The bias after the words before `k`. */
  ghost predicate BiasOf(words: seq<seq<int>>, k: nat, past: seq<int>, bias: seq<Logit>)
    requires k <= |words|
  {
    forall t :: 0 <= t < |bias| ==> bias[t] == if CompletesLong(words, k, past, t) then NegInf else Fin(0.0)
  }

  /** A word that cannot be completed as a word of several tokens changes nothing. */
  lemma SkippedWord(words: seq<seq<int>>, k: nat, past: seq<int>, bias: seq<Logit>)
    requires k < |words| && BiasOf(words, k, past, bias)
    requires |words[k]| == 1 || |words[k]| > |past| + 1
    ensures BiasOf(words, k + 1, past, bias)
  {
    forall t | 0 <= t < |bias| ensures CompletesLong(words, k + 1, past, t) <==> CompletesLong(words, k, past, t) {
      CompletesLongNext(words, k, past, t);
    }
  }

  /** The words of several tokens completed by `t` once word `k` is among them. */
  lemma MatchedAt(words: seq<seq<int>>, k: nat, past: seq<int>, t: int)
    requires k < |words| && 2 <= |words[k]| <= |past| + 1
    ensures var w := words[k];
            CompletesLong(words, k + 1, past, t) <==>
              CompletesLong(words, k, past, t) || (t == w[|w| - 1] && past[|past| - (|w| - 1)..] == w[..|w| - 1])
  {
    CompletesLongNext(words, k, past, t);
    MatchIsEndsWith(past, t, words[k]);
  }

  /** Any other word marks its last token if the tokens before it match. */
  lemma MatchedWord(words: seq<seq<int>>, k: nat, past: seq<int>, bias: seq<Logit>, last: nat, isMatch: bool)
    requires k < |words| && BiasOf(words, k, past, bias)
    requires 2 <= |words[k]| <= |past| + 1 && last == words[k][|words[k]| - 1] < |bias|
    requires isMatch <==> past[|past| - (|words[k]| - 1)..] == words[k][..|words[k]| - 1]
    ensures BiasOf(words, k + 1, past, bias[last := Add(bias[last], if isMatch then NegInf else Fin(0.0))])
  {
    var bias' := bias[last := Add(bias[last], if isMatch then NegInf else Fin(0.0))];
    forall t | 0 <= t < |bias|
      ensures bias'[t] == if CompletesLong(words, k + 1, past, t) then NegInf else Fin(0.0)
    {
      MatchedAt(words, k, past, t);
    }
  }

  lemma MaskIsSum(words: seq<seq<int>>, past: seq<int>, t: nat)
    ensures Completes(words, past, t) <==> [t] in words || CompletesLong(words, |words|, past, t)
  {
    if [t] in words {
      MatchIsEndsWith(past, t, [t]);
      assert EndsWith(past + [t], [t]);
    }
    if Completes(words, past, t) {
      var w :| w in words && w != [] && EndsWith(past + [t], w);
      MatchIsEndsWith(past, t, w);
      if |w| == 1 { assert w == [t]; }
    }
  }

  /** Adding both biases masks the logits. */
  lemma MaskedIsSum(words: seq<seq<int>>, past: seq<int>, logits: seq<Logit>, bias: seq<Logit>)
    requires InVocabulary(words, |logits|) && NonEmptyWords(words)
    requires |bias| == |logits| && BiasOf(words, |words|, past, bias)
    ensures Masked(words, past, logits)
         == Logits(seq(|logits|, t requires 0 <= t < |logits| =>
                         Add(Add(logits[t], WordBias(words, |logits|)[t]), bias[t])))
  {
    forall t | 0 <= t < |logits|
      ensures Add(Add(logits[t], WordBias(words, |logits|)[t]), bias[t])
           == if Completes(words, past, t) then NegInf else logits[t]
    {
      MaskIsSum(words, past, t);
    }
  }

  class NoBadWordsLogitsProcessor {
    const badWords: seq<seq<int>>
    var wordBias: Option<seq<Logit>>

    constructor (badWords: seq<seq<int>>)
      ensures this.badWords == badWords && Valid() && wordBias == None
    {
      this.badWords := badWords;
      wordBias := None;
    }

    /** The cached bias, once built, is that of the vocabulary it was built for. */
    ghost predicate Valid()
      reads this
    {
      wordBias.Some? ==>
        InVocabulary(badWords, |wordBias.value|) && wordBias.value == WordBias(badWords, |wordBias.value|)
    }

    method CheckTokenIdsBounds(vocabSize: nat) returns (ok: bool)
      ensures ok <==> InVocabulary(badWords, vocabSize)
    {
      ok := true;
      for i := 0 to |badWords|
        invariant ok <==> InVocabulary(badWords[..i], vocabSize)
      {
        var w := badWords[i];
        ghost var before := badWords[..i];
        assert badWords[..i + 1] == before + [w];
        for k := 0 to |w|
          invariant ok <==> InVocabulary(before, vocabSize) && forall j :: 0 <= j < k ==> 0 <= w[j] < vocabSize
        {
          if w[k] < 0 || w[k] >= vocabSize {
            ok := false;
          }
        }
        InVocabularyAppend(before, w, vocabSize);
      }
      assert badWords[..|badWords|] == badWords;
    }

    /** Builds the bias of the one-token words, unless some token is outside the vocabulary. */
    method InitWordBias(vocabSize: nat) returns (ok: bool)
      requires wordBias == None
      modifies this
      ensures Valid()
      ensures ok <==> InVocabulary(badWords, vocabSize)
      ensures if ok then wordBias == Some(WordBias(badWords, vocabSize)) else wordBias == None
    {
      ok := CheckTokenIdsBounds(vocabSize);
      if ok {
        var bias := seq(vocabSize, _ => Fin(0.0));
        for i := 0 to |badWords|
          invariant bias == WordBias(badWords[..i], vocabSize)
        {
          assert badWords[..i + 1] == badWords[..i] + [badWords[i]];
          if |badWords[i]| == 1 {
            assert badWords[i] == [badWords[i][0]];
            bias := bias[badWords[i][0] := NegInf];
          }
        }
        assert badWords[..|badWords|] == badWords;
        wordBias := Some(bias);
      }
    }

    /** The bias of the words of several tokens, given the tokens generated so far. */
    method LastTokenBias(past: seq<int>, vocabSize: nat) returns (ok: bool, bias: array<Logit>)
      requires InVocabulary(badWords, vocabSize)
      ensures fresh(bias) && bias.Length == vocabSize
      ensures ok <==> NonEmptyWords(badWords)
      ensures ok ==> BiasOf(badWords, |badWords|, past, bias[..])
    {
      bias := new Logit[vocabSize](_ => Fin(0.0));
      for k := 0 to |badWords|
        invariant NonEmptyWords(badWords[..k])
        invariant BiasOf(badWords, k, past, bias[..])
      {
        var w := badWords[k];
        assert badWords[..k + 1] == badWords[..k] + [w];
        if |w| == 1 {
          SkippedWord(badWords, k, past, bias[..]);
          continue;
        }
        if |w| > |past| + 1 {
          SkippedWord(badWords, k, past, bias[..]);
          continue;
        }
        if w == [] {
          assert badWords[k] in badWords;
          return false, bias;
        }
        var prefixLength := |w| - 1;
        var isMatch := past[|past| - prefixLength..] == w[..prefixLength];
        MatchedWord(badWords, k, past, bias[..], w[prefixLength], isMatch);
        bias[w[prefixLength]] := Add(bias[w[prefixLength]], if isMatch then NegInf else Fin(0.0));
      }
      assert badWords[..|badWords|] == badWords;
      ok := true;
    }

    /** One call.  The result depends on the words, the past and the logits only: it is the same
        whether the bias was cached by an earlier call for this vocabulary size or is built now. */
    method Call(past: seq<int>, logits: seq<Logit>) returns (r: Outcome)
      requires Valid() && (wordBias.Some? ==> |wordBias.value| == |logits|)
      modifies this
      ensures Valid() && (wordBias.Some? ==> |wordBias.value| == |logits|)
      ensures r == Masked(badWords, past, logits)
    {
      if wordBias == None {
        var ok := InitWordBias(|logits|);
        if !ok {
          return OutOfVocabulary;
        }
      }
      var ok, lastTokenBias := LastTokenBias(past, |logits|);
      if !ok {
        return EmptyWord;
      }
      var bias := wordBias.value;
      MaskedIsSum(badWords, past, logits, lastTokenBias[..]);
      r := Logits(seq(|logits|, t requires 0 <= t < |logits| && |bias| == lastTokenBias.Length == |logits|
                                  reads lastTokenBias => Add(Add(logits[t], bias[t]), lastTokenBias[t])));
    }
  }

  lemma InVocabularyAppend(words: seq<seq<int>>, w: seq<int>, n: nat)
    ensures InVocabulary(words + [w], n) <==> InVocabulary(words, n) && forall j :: 0 <= j < |w| ==> 0 <= w[j] < n
  {
    if InVocabulary(words + [w], n) {
      forall v, k | v in words && 0 <= k < |v| ensures 0 <= v[k] < n {
        assert v in words + [w];
      }
      assert w in words + [w];
    }
  }

  // ---------- Generation ----------

  ghost predicate OccursAt(s: seq<int>, w: seq<int>, i: nat) {
    i + |w| <= |s| && s[i..i + |w|] == w
  }

  /** The word is a contiguous block of the sequence. */
  ghost predicate Occurs(s: seq<int>, w: seq<int>) {
    exists i: nat :: OccursAt(s, w, i)
  }

  ghost predicate FreeOf(s: seq<int>, words: seq<seq<int>>) {
    forall w :: w in words ==> !Occurs(s, w)
  }

  ghost predicate Tokens(s: seq<int>, n: nat) {
    forall k :: 0 <= k < |s| ==> 0 <= s[k] < n
  }

  /** A model gives finite logits over a vocabulary of `n` tokens for every past. */
  ghost predicate FiniteModel(model: seq<int> -> seq<Logit>, n: nat) {
    forall past :: |model(past)| == n && forall t :: 0 <= t < n ==> model(past)[t].Fin?
  }

  /** The token can be sampled from the masked logits. */
  ghost predicate Samplable(words: seq<seq<int>>, model: seq<int> -> seq<Logit>, past: seq<int>, t: int) {
    var r := Masked(words, past, model(past));
    r.Logits? && 0 <= t < |r.logits| && r.logits[t] != NegInf
  }

  /** The sequence can be generated token by token under the mask. */
  ghost predicate Generated(words: seq<seq<int>>, model: seq<int> -> seq<Logit>, s: seq<int>) {
    s == [] ||
    (Generated(words, model, s[..|s| - 1]) && Samplable(words, model, s[..|s| - 1], s[|s| - 1]))
  }

  /** A word occurs in a longer sequence inside the shorter one or at the end. */
  lemma OccursAppend(s: seq<int>, t: int, w: seq<int>)
    requires w != []
    ensures Occurs(s + [t], w) <==> Occurs(s, w) || EndsWith(s + [t], w)
  {
    var longer := s + [t];
    if Occurs(longer, w) {
      var i: nat :| OccursAt(longer, w, i);
      if i + |w| <= |s| {
        assert s[i..i + |w|] == longer[i..i + |w|];
        assert OccursAt(s, w, i);
      } else {
        assert longer[i..] == longer[i..i + |w|];
      }
    }
    if Occurs(s, w) {
      var i: nat :| OccursAt(s, w, i);
      assert longer[i..i + |w|] == s[i..i + |w|];
      assert OccursAt(longer, w, i);
    }
    if EndsWith(longer, w) {
      var i := |longer| - |w|;
      assert longer[i..i + |w|] == longer[i..];
      assert OccursAt(longer, w, i);
    }
  }

  /** Some word is the end of the sequence with the token `t`. */
  ghost predicate EndsInWord(words: seq<seq<int>>, past: seq<int>, t: int) {
    exists w :: w in words && |w| <= |past| + 1 && (past + [t])[|past| + 1 - |w|..] == w
  }

  lemma EndsWithExactly(past: seq<int>, t: int, w: seq<int>)
    ensures EndsWith(past + [t], w) <==> |w| <= |past| + 1 && (past + [t])[|past| + 1 - |w|..] == w
  {
    var longer := past + [t];
    assert |longer| == |past| + 1;
  }

  lemma CompletesExactly(words: seq<seq<int>>, past: seq<int>, t: int)
    requires NonEmptyWords(words)
    ensures Completes(words, past, t) <==> EndsInWord(words, past, t)
  {
    if Completes(words, past, t) {
      var w :| w in words && w != [] && EndsWith(past + [t], w);
      EndsWithExactly(past, t, w);
    }
    if EndsInWord(words, past, t) {
      var w :| w in words && |w| <= |past| + 1 && (past + [t])[|past| + 1 - |w|..] == w;
      EndsWithExactly(past, t, w);
    }
  }

  /** Which of its three outcomes a call has: a token outside the vocabulary is reported first, then an
      empty word. */
  lemma OutcomeExactly(words: seq<seq<int>>, past: seq<int>, logits: seq<Logit>)
    ensures Masked(words, past, logits) == OutOfVocabulary <==>
              exists w, k :: w in words && 0 <= k < |w| && !(0 <= w[k] < |logits|)
    ensures Masked(words, past, logits) == EmptyWord <==>
              [] in words && Masked(words, past, logits) != OutOfVocabulary
  {
  }

  /** Otherwise a logit is minus infinity exactly if it was or some word ends the sequence with its token,
      and all others are unchanged. */
  lemma MaskedExactly(words: seq<seq<int>>, past: seq<int>, logits: seq<Logit>)
    requires Masked(words, past, logits).Logits?
    ensures var masked := Masked(words, past, logits).logits;
            && |masked| == |logits|
            && forall t :: 0 <= t < |logits| ==> masked[t] == if EndsInWord(words, past, t) then NegInf else logits[t]
  {
    forall t | 0 <= t < |logits| ensures Completes(words, past, t) <==> EndsInWord(words, past, t) {
      CompletesExactly(words, past, t);
    }
  }

  /** The mask is exact: for any model with finite logits, the sequences that can be generated are
      precisely the token sequences in which no bad word occurs. */
  lemma {:induction false} GeneratedIsFree(words: seq<seq<int>>, model: seq<int> -> seq<Logit>, n: nat, s: seq<int>)
    requires InVocabulary(words, n) && NonEmptyWords(words) && FiniteModel(model, n)
    ensures Generated(words, model, s) <==> Tokens(s, n) && FreeOf(s, words)
  {
    if s == [] {
      forall w | w in words ensures !Occurs(s, w) { assert |w| > 0; }
    } else {
      var past, t := s[..|s| - 1], s[|s| - 1];
      assert s == past + [t];
      GeneratedIsFree(words, model, n, past);
      forall w | w in words ensures Occurs(s, w) <==> Occurs(past, w) || EndsWith(s, w) {
        OccursAppend(past, t, w);
      }
      assert |model(past)| == n;
      assert 0 <= t < n ==> model(past)[t].Fin?;
      assert Samplable(words, model, past, t) <==> 0 <= t < n && !Completes(words, past, t);
    }
  }

  /** If a word is empty or has a token outside the vocabulary, nothing can be generated at all. */
  lemma {:induction false} BadConfigurationBlocks(words: seq<seq<int>>, model: seq<int> -> seq<Logit>, n: nat, s: seq<int>)
    requires FiniteModel(model, n) && s != []
    requires !InVocabulary(words, n) || !NonEmptyWords(words)
    ensures !Generated(words, model, s)
  {
    assert |model(s[..|s| - 1])| == n;
  }
}
