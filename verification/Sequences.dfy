/** Sequences: repetition, flattening, and the tail of a concatenation. */
module Sequences {

  function Repeat<T>(x: T, n: nat): seq<T> { seq(n, _ => x) }

  function Flatten<T>(ss: seq<seq<T>>): seq<T> {
    if ss == [] then [] else ss[0] + Flatten(ss[1..])
  }

  lemma {:induction false} FlattenAppend<T>(a: seq<seq<T>>, b: seq<seq<T>>)
    ensures Flatten(a + b) == Flatten(a) + Flatten(b)
  {
    if a == [] {
      assert [] + b == b;
    } else {
      assert (a + b)[1..] == a[1..] + b;
      FlattenAppend(a[1..], b);
    }
  }

  lemma {:induction false} PrefixAt<T>(s: seq<T>, prefix: seq<T>, k: nat)
    requires k < |prefix| <= |s| && s[..|prefix|] == prefix
    ensures s[k] == prefix[k]
  {
  }

  lemma {:induction false} TailAppend<T>(a: seq<T>, b: seq<T>)
    requires a != []
    ensures (a + b)[0] == a[0] && (a + b)[1..] == a[1..] + b
  {
  }

  lemma {:induction false} ShiftFirst<T>(a: seq<T>, b: seq<T>)
    ensures b == [] ==> a + b == a
    ensures b != [] ==> a + [b[0]] + b[1..] == a + b
  {
  }

  lemma {:induction false} Associates<T>(a: seq<T>, b: seq<T>, c: seq<T>)
    ensures a + b + c == a + (b + c)
    ensures c == [] ==> b + c == b
  {
  }
}
