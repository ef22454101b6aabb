/** Clause boundaries: the latest defensible place to cut a run of tokens. */
module Clause {

  /** What the classification looks up. The results hold whatever these contain. */
  datatype Lexicon = Lexicon(normalise: string -> string, hasDigit: string -> bool,
                             strongChars: set<char>, mediumChars: set<char>,
                             abbreviations: set<string>, conjunctions: set<string>)

  datatype Strength = NoBoundary | Weak | Medium | Strong

  /** Whether a trailing full stop really ends a sentence. */
  predicate EndsSentence(lex: Lexicon, token: string) {
    token != "" && token[|token| - 1] in lex.strongChars &&
    (token[|token| - 1] != '.' ||
     var stem := token[..|token| - 1];
     stem != "" && !lex.hasDigit(stem) && |stem| != 1 && lex.normalise(stem) !in lex.abbreviations)
  }

  /** Strength of the boundary immediately after a token. */
  function StrengthAfter(lex: Lexicon, token: string): Strength {
    if token == "" then NoBoundary
    else if EndsSentence(lex, token) then Strong
    else if token[|token| - 1] in lex.mediumChars then Medium
    else NoBoundary
  }

  /** What a token's last character makes of it. Only a full stop is ever doubted: after nothing, after a single
      character, after anything with a digit and after an abbreviation it ends no sentence. */
  lemma {:induction false} OnlyFullStopsAreDoubted(lex: Lexicon, stem: string, last: char)
    ensures var strength := StrengthAfter(lex, stem + [last]);
            if last in lex.strongChars && last != '.' then strength.Strong?
            else if last in lex.strongChars && |stem| >= 2 && !lex.hasDigit(stem)
                    && lex.normalise(stem) !in lex.abbreviations then strength.Strong?
            else strength == if last in lex.mediumChars then Medium else NoBoundary
  {
    var token := stem + [last];
    assert token[|token| - 1] == last && token[..|token| - 1] == stem;
  }

  predicate IsConjunction(lex: Lexicon, token: string) { lex.normalise(token) in lex.conjunctions }

  /** Scan down from `hi`: one past the last token in [lo, hi) with a boundary after it, or 0. */
  function LastPunctuated(lex: Lexicon, tokens: seq<string>, lo: nat, hi: nat): (p: nat)
    requires hi <= |tokens|
    ensures p <= hi
    decreases hi
  {
    if hi <= lo then 0
    else if StrengthAfter(lex, tokens[hi - 1]) != NoBoundary then hi
    else LastPunctuated(lex, tokens, lo, hi - 1)
  }

  /** Scan down from `hi`: the last conjunction in [lo, hi), or 0. */
  function LastConjunction(lex: Lexicon, tokens: seq<string>, lo: nat, hi: nat): nat
    requires hi <= |tokens|
    decreases hi
  {
    if hi <= lo then 0
    else if IsConjunction(lex, tokens[hi - 1]) then hi - 1
    else LastConjunction(lex, tokens, lo, hi - 1)
  }

  datatype Cut = Cut(end: nat, strength: Strength)

  /** `find_boundary`: the exclusive end of the cut, 0 for none. */
  function FindBoundary(lex: Lexicon, tokens: seq<string>, minWords: nat, allowWeak: bool): Cut
    requires minWords >= 1
  {
    if |tokens| < minWords then Cut(0, NoBoundary)
    else
      var p := LastPunctuated(lex, tokens, minWords - 1, |tokens|);
      if p > 0 then Cut(p, StrengthAfter(lex, tokens[p - 1]))
      else if !allowWeak then Cut(0, NoBoundary)
      else
        var c := LastConjunction(lex, tokens, minWords, |tokens|);
        if c > 0 then Cut(c, Weak) else Cut(0, NoBoundary)
  }

  /** A cut after `end` tokens that leaves at least `minWords` and falls on punctuation. */
  predicate Punctuated(lex: Lexicon, tokens: seq<string>, minWords: nat, end: nat) {
    1 <= end && minWords <= end <= |tokens| && StrengthAfter(lex, tokens[end - 1]) in {Medium, Strong}
  }

  /** A cut that leaves at least `minWords` and makes a conjunction open the next phrase. */
  predicate BeforeConjunction(lex: Lexicon, tokens: seq<string>, minWords: nat, end: nat) {
    minWords <= end < |tokens| && IsConjunction(lex, tokens[end])
  }

  lemma {:induction false} LastPunctuatedIsLatest(lex: Lexicon, tokens: seq<string>, lo: nat, hi: nat)
    requires hi <= |tokens|
    ensures var p := LastPunctuated(lex, tokens, lo, hi);
            && (p > 0 ==> lo < p <= hi && StrengthAfter(lex, tokens[p - 1]) != NoBoundary)
            && forall i | lo <= i < hi && StrengthAfter(lex, tokens[i]) != NoBoundary :: i < p
    decreases hi
  {
    if lo < hi && StrengthAfter(lex, tokens[hi - 1]) == NoBoundary {
      LastPunctuatedIsLatest(lex, tokens, lo, hi - 1);
    }
  }

  lemma {:induction false} LastConjunctionIsLatest(lex: Lexicon, tokens: seq<string>, lo: nat, hi: nat)
    requires hi <= |tokens|
    ensures var c := LastConjunction(lex, tokens, lo, hi);
            && (c > 0 ==> lo <= c < hi && IsConjunction(lex, tokens[c]))
            && forall k | lo <= k < hi && IsConjunction(lex, tokens[k]) :: k <= c
    decreases hi
  {
    if lo < hi && !IsConjunction(lex, tokens[hi - 1]) {
      LastConjunctionIsLatest(lex, tokens, lo, hi - 1);
    }
  }

  /** The cut found is the latest usable one: punctuation beats any conjunction, a conjunction counts
      only when asked for, and nothing is returned exactly when there is nothing to return. */
  lemma {:induction false} FindBoundaryIsLatest(lex: Lexicon, tokens: seq<string>, minWords: nat, allowWeak: bool)
    requires minWords >= 1
    ensures var cut := FindBoundary(lex, tokens, minWords, allowWeak);
            && (cut.end > 0 ==> minWords <= cut.end <= |tokens|)
            && (cut.strength.Medium? || cut.strength.Strong? ==>
                  && Punctuated(lex, tokens, minWords, cut.end)
                  && cut.strength == StrengthAfter(lex, tokens[cut.end - 1])
                  && forall k: nat | Punctuated(lex, tokens, minWords, k) :: k <= cut.end)
            && (cut.strength.Weak? ==>
                  && allowWeak && BeforeConjunction(lex, tokens, minWords, cut.end)
                  && (forall k: nat :: !Punctuated(lex, tokens, minWords, k))
                  && forall k: nat | BeforeConjunction(lex, tokens, minWords, k) :: k <= cut.end)
            && (cut.end == 0 <==> cut.strength.NoBoundary?)
            && (cut.end == 0 <==>
                  && (forall k: nat :: !Punctuated(lex, tokens, minWords, k))
                  && (allowWeak ==> forall k: nat :: !BeforeConjunction(lex, tokens, minWords, k)))
  {
    LastPunctuatedIsLatest(lex, tokens, minWords - 1, |tokens|);
    LastConjunctionIsLatest(lex, tokens, minWords, |tokens|);
    var cut := FindBoundary(lex, tokens, minWords, allowWeak);
    if cut.end > 0 {
      if cut.strength.Weak? {
        assert BeforeConjunction(lex, tokens, minWords, cut.end);
      } else {
        assert Punctuated(lex, tokens, minWords, cut.end);
      }
    }
  }
}
