/** Whitespace tokens of a transcript, as Python's `str.split()` and `" ".join()` treat them. */
module Words {
  import opened Sequences

  /** The characters `str.split()` splits on. */
  predicate IsSpace(c: char) {
    || '\U{0009}' <= c <= '\U{000D}' || '\U{001C}' <= c <= '\U{0020}'
    || c == '\U{0085}' || c == '\U{00A0}' || c == '\U{1680}' || '\U{2000}' <= c <= '\U{200A}'
    || c == '\U{2028}' || c == '\U{2029}' || c == '\U{202F}' || c == '\U{205F}' || c == '\U{3000}'
  }

  predicate IsWord(t: string) {
    t != "" && forall c | c in t :: !IsSpace(c)
  }

  predicate AllWords(ts: seq<string>) { forall t | t in ts :: IsWord(t) }

  /** Length of the leading run of non-space characters. */
  function WordLength(s: string): (n: nat)
    ensures n <= |s|
  {
    if s == "" || IsSpace(s[0]) then 0 else 1 + WordLength(s[1..])
  }

  function Tokenise(s: string): seq<string>
    decreases |s|
  {
    if s == "" then []
    else if IsSpace(s[0]) then Tokenise(s[1..])
    else
      var n := WordLength(s);
      [s[..n]] + Tokenise(s[n..])
  }

  function Join(ts: seq<string>): string {
    if ts == [] then ""
    else if |ts| == 1 then ts[0]
    else ts[0] + " " + Join(ts[1..])
  }

  lemma {:induction false} WordLengthIsWord(s: string)
    ensures forall i | 0 <= i < WordLength(s) :: !IsSpace(s[i])
  {
    if s != "" && !IsSpace(s[0]) {
      WordLengthIsWord(s[1..]);
      forall i | 0 <= i < WordLength(s)
        ensures !IsSpace(s[i])
      {
        if i > 0 { assert s[i] == s[1..][i - 1]; }
      }
    }
  }

  lemma {:induction false} TokensAreWords(s: string)
    ensures AllWords(Tokenise(s))
    decreases |s|
  {
    if s != "" {
      if IsSpace(s[0]) {
        TokensAreWords(s[1..]);
      } else {
        WordLengthIsWord(s);
        TokensAreWords(s[WordLength(s)..]);
      }
    }
  }

  /** The characters that are not spaces, in order. */
  function NonSpaces(s: string): string {
    if s == "" then "" else (if IsSpace(s[0]) then "" else [s[0]]) + NonSpaces(s[1..])
  }

  lemma {:induction false} LeadingWord(s: string, n: nat)
    requires n <= |s| && forall i | 0 <= i < n :: !IsSpace(s[i])
    ensures NonSpaces(s) == s[..n] + NonSpaces(s[n..])
  {
    if n > 0 {
      LeadingWord(s[1..], n - 1);
      assert s[..n] == [s[0]] + s[1..][..n - 1] && s[1..][n - 1..] == s[n..];
    } else {
      assert s[0..] == s;
    }
  }

  /** Splitting loses nothing but the spaces. */
  lemma {:induction false} TokensKeepEverything(s: string)
    ensures Flatten(Tokenise(s)) == NonSpaces(s)
    decreases |s|
  {
    if s != "" {
      if IsSpace(s[0]) {
        TokensKeepEverything(s[1..]);
      } else {
        var n := WordLength(s);
        WordLengthIsWord(s);
        TokensKeepEverything(s[n..]);
        LeadingWord(s, n);
        assert Tokenise(s)[1..] == Tokenise(s[n..]);
      }
    }
  }

  /** No words exactly when there is nothing but spaces. */
  lemma {:induction false} NoWordsIff(s: string)
    ensures Tokenise(s) == [] <==> forall c | c in s :: IsSpace(c)
    decreases |s|
  {
    if s != "" {
      assert s == [s[0]] + s[1..];
      if IsSpace(s[0]) {
        NoWordsIff(s[1..]);
      }
    }
  }

  lemma {:induction false} WordLengthOfWord(t: string, rest: string)
    requires forall c | c in t :: !IsSpace(c)
    requires rest == "" || IsSpace(rest[0])
    ensures WordLength(t + rest) == |t|
  {
    if t == "" {
      assert t + rest == rest;
    } else {
      assert (t + rest)[1..] == t[1..] + rest;
      assert t[0] in t;
      WordLengthOfWord(t[1..], rest);
    }
  }

  /** Splitting what was joined gives the words back. */
  lemma {:induction false} TokeniseJoin(ts: seq<string>)
    requires AllWords(ts)
    ensures Tokenise(Join(ts)) == ts
  {
    if ts != [] {
      var t := ts[0];
      assert IsWord(t) && t[0] in t;
      if |ts| == 1 {
        WordLengthOfWord(t, "");
        assert t + "" == t && t[|t|..] == "";
        assert Tokenise(t) == [t[..|t|]] + Tokenise(t[|t|..]);
      } else {
        var rest := " " + Join(ts[1..]);
        WordLengthOfWord(t, rest);
        TokeniseJoin(ts[1..]);
        assert Join(ts) == t + rest;
        assert (t + rest)[..|t|] == t && (t + rest)[|t|..] == rest;
        assert rest[1..] == Join(ts[1..]);
        assert Tokenise(t + rest) == [t] + Tokenise(rest);
      }
    }
  }

  lemma {:induction false} JoinAppend(a: seq<string>, b: seq<string>)
    requires a != [] && b != []
    ensures Join(a + b) == Join(a) + " " + Join(b)
  {
    if |a| > 1 {
      JoinAppend(a[1..], b);
      assert (a + b)[1..] == a[1..] + b;
    } else {
      assert (a + b)[1..] == b;
    }
  }

  /** Joining the joined pieces is joining everything: phrase texts reassemble with single spaces. */
  lemma {:induction false} JoinOfJoins(pieces: seq<seq<string>>)
    requires forall i | 0 <= i < |pieces| :: pieces[i] != []
    ensures Join(seq(|pieces|, i requires 0 <= i < |pieces| => Join(pieces[i]))) == Join(Flatten(pieces))
  {
    var texts := seq(|pieces|, i requires 0 <= i < |pieces| => Join(pieces[i]));
    if |pieces| == 1 {
      assert Flatten(pieces) == pieces[0] + [] == pieces[0];
    } else if |pieces| > 1 {
      var rest := pieces[1..];
      assert texts[1..] == seq(|rest|, i requires 0 <= i < |rest| => Join(rest[i]));
      JoinOfJoins(rest);
      assert rest[0] == pieces[1] != [];
      assert Flatten(rest) == rest[0] + Flatten(rest[1..]) != [];
      JoinAppend(pieces[0], Flatten(rest));
    }
  }
}
