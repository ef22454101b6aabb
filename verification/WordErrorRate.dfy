/** Word error rate: the edit-distance table of `tools/score_stt.py` and its back-pointer walk.

    The table is shown to hold the minimum cost over ALL edit scripts, although it takes the
    diagonal without comparing whenever two words match; the walk is shown to read off one
    particular optimal script. */
module WordErrorRate {
  import opened Options

  /** One edit of an alignment, applied to the reference to obtain the hypothesis. */
  datatype Edit<W> = Keep | Substitute(word: W) | Delete | Insert(word: W)
  {
    /** Preference of the walk among edits that are equally cheap. */
    function Rank(): nat {
      match this
      case Keep => 0
      case Substitute(_) => 1
      case Delete => 2
      case Insert(_) => 3
    }
  }

  /** What a script turns a reference into; None when it does not fit the reference.
      The last edit accounts for the last word. */
  function Apply<W>(script: seq<Edit<W>>, reference: seq<W>): Option<seq<W>> {
    if script == [] then
      if reference == [] then Some([]) else None
    else
      var rest := script[..|script| - 1];
      match script[|script| - 1]
      case Insert(w) => Append(Apply(rest, reference), w)
      case Keep =>
        if reference == [] then None
        else Append(Apply(rest, reference[..|reference| - 1]), reference[|reference| - 1])
      case Substitute(w) =>
        if reference == [] then None
        else Append(Apply(rest, reference[..|reference| - 1]), w)
      case Delete =>
        if reference == [] then None
        else Apply(rest, reference[..|reference| - 1])
  }

  function Append<W>(words: Option<seq<W>>, w: W): Option<seq<W>> {
    match words
    case None => None
    case Some(ws) => Some(ws + [w])
  }

  /** How many edits of the given rank a script has. */
  function Count<W>(script: seq<Edit<W>>, rank: nat): nat {
    if script == [] then 0
    else (if script[0].Rank() == rank then 1 else 0) + Count(script[1..], rank)
  }

  function Substitutions<W>(script: seq<Edit<W>>): nat { Count(script, 1) }
  function Deletions<W>(script: seq<Edit<W>>): nat { Count(script, 2) }
  function Insertions<W>(script: seq<Edit<W>>): nat { Count(script, 3) }

  /** Everything but a Keep costs one. */
  function Cost<W>(script: seq<Edit<W>>): nat {
    Substitutions(script) + Deletions(script) + Insertions(script)
  }

  function Min3(a: nat, b: nat, c: nat): nat {
    if a <= b && a <= c then a else if b <= c then b else c
  }

  /** The table's recurrence, for the first i reference words and the first j hypothesis words. */
  function Cell<W(==)>(r: seq<W>, h: seq<W>, i: nat, j: nat): nat
    requires i <= |r| && j <= |h|
    decreases i + j
  {
    if i == 0 then j
    else if j == 0 then i
    else if r[i - 1] == h[j - 1] then Cell(r, h, i - 1, j - 1)
    else Min3(Cell(r, h, i - 1, j - 1) + 1, Cell(r, h, i - 1, j) + 1, Cell(r, h, i, j - 1) + 1)
  }

  /** The edit the table's back-pointer stands for. */
  function Pointer<W(==)>(r: seq<W>, h: seq<W>, i: nat, j: nat): Edit<W>
    requires i <= |r| && j <= |h| && i + j > 0
  {
    if i == 0 then Insert(h[j - 1])
    else if j == 0 then Delete
    else if r[i - 1] == h[j - 1] then Keep
    else if Cell(r, h, i, j) == Cell(r, h, i - 1, j - 1) + 1 then Substitute(h[j - 1])
    else if Cell(r, h, i, j) == Cell(r, h, i - 1, j) + 1 then Delete
    else Insert(h[j - 1])
  }

  /** The script the walk reads off, in reading order. */
  function Walk<W(==)>(r: seq<W>, h: seq<W>, i: nat, j: nat): seq<Edit<W>>
    requires i <= |r| && j <= |h|
    decreases i + j
  {
    if i == 0 && j == 0 then []
    else
      var e := Pointer(r, h, i, j);
      Walk(r, h, if e.Insert? then i else i - 1, if e.Delete? then j else j - 1) + [e]
  }

  // ---------------------------------------------------------------- optimality

  lemma {:induction false} CountAppend<W>(script: seq<Edit<W>>, e: Edit<W>, rank: nat)
    ensures Count(script + [e], rank) == Count(script, rank) + (if e.Rank() == rank then 1 else 0)
  {
    if script == [] {
      assert [] + [e] == [e];
    } else {
      assert (script + [e])[1..] == script[1..] + [e];
      CountAppend(script[1..], e, rank);
    }
  }

  lemma {:induction false} CostAppend<W>(script: seq<Edit<W>>, e: Edit<W>)
    ensures Cost(script + [e]) == Cost(script) + (if e.Keep? then 0 else 1)
  {
    CountAppend(script, e, 1);
    CountAppend(script, e, 2);
    CountAppend(script, e, 3);
  }

  /** Neighbouring cells differ by at most one. This is why the unconditional diagonal is safe. */
  lemma {:induction false} NeighboursDifferByAtMostOne<W>(r: seq<W>, h: seq<W>, i: nat, j: nat)
    requires i <= |r| && j <= |h|
    ensures i > 0 ==> Cell(r, h, i - 1, j) - 1 <= Cell(r, h, i, j) <= Cell(r, h, i - 1, j) + 1
    ensures j > 0 ==> Cell(r, h, i, j - 1) - 1 <= Cell(r, h, i, j) <= Cell(r, h, i, j - 1) + 1
    decreases i + j
  {
    if i > 0 && j > 0 {
      var diagonal, up, left := Cell(r, h, i - 1, j - 1), Cell(r, h, i - 1, j), Cell(r, h, i, j - 1);
      assert diagonal <= up + 1 <= diagonal + 2 by {
        NeighboursDifferByAtMostOne(r, h, i - 1, j);
      }
      assert diagonal <= left + 1 <= diagonal + 2 by {
        NeighboursDifferByAtMostOne(r, h, i, j - 1);
      }
    }
  }

  /** No script that turns the reference prefix into the hypothesis prefix is cheaper than the cell. */
  lemma {:induction false} CellIsLowerBound<W>(r: seq<W>, h: seq<W>, i: nat, j: nat, script: seq<Edit<W>>)
    requires i <= |r| && j <= |h|
    requires Apply(script, r[..i]) == Some(h[..j])
    ensures Cell(r, h, i, j) <= Cost(script)
    decreases |script|
  {
    if script != [] {
      var rest, e := script[..|script| - 1], script[|script| - 1];
      assert script == rest + [e];
      CostAppend(rest, e);
      NeighboursDifferByAtMostOne(r, h, i, j);
      var i', j' := LastEdit(r, h, i, j, script);
      CellIsLowerBound(r, h, i', j', rest);
    }
  }

  lemma {:induction false} SnocInjective<T>(a: seq<T>, x: T, b: seq<T>, j: nat)
    requires j <= |b| && a + [x] == b[..j]
    ensures j > 0 && a == b[..j - 1] && x == b[j - 1]
  {
    assert |a + [x]| == j;
    assert a == (a + [x])[..j - 1] == b[..j][..j - 1];
    assert x == (a + [x])[j - 1] == b[..j][j - 1];
  }

  lemma {:induction false} DropLast<T>(s: seq<T>, i: nat)
    requires 0 < i <= |s|
    ensures s[..i][..i - 1] == s[..i - 1] && s[..i][i - 1] == s[i - 1] && s[..i] == s[..i - 1] + [s[i - 1]]
  {
  }

  /** Where a script stands once its last edit is taken off. */
  lemma {:induction false} LastEdit<W>(r: seq<W>, h: seq<W>, i: nat, j: nat, script: seq<Edit<W>>)
    returns (i': nat, j': nat)
    requires i <= |r| && j <= |h| && script != []
    requires Apply(script, r[..i]) == Some(h[..j])
    ensures i' <= i && j' <= j
    ensures Apply(script[..|script| - 1], r[..i']) == Some(h[..j'])
    ensures match script[|script| - 1]
            case Keep => i' == i - 1 && j' == j - 1 && r[i'] == h[j']
            case Substitute(w) => i' == i - 1 && j' == j - 1 && w == h[j']
            case Delete => i' == i - 1 && j' == j
            case Insert(w) => i' == i && j' == j - 1 && w == h[j']
  {
    var rest, e := script[..|script| - 1], script[|script| - 1];
    i' := if e.Insert? then i else i - 1;
    j' := if e.Delete? then j else j - 1;
    if i > 0 {
      DropLast(r, i);
    }
    if !e.Delete? {
      var before := Apply(rest, r[..i']).value;
      var w := if e.Keep? then r[i - 1] else e.word;
      SnocInjective(before, w, h, j);
    }
  }

  lemma {:induction false} ApplySnoc<W>(rest: seq<Edit<W>>, e: Edit<W>, r: seq<W>, h: seq<W>, i: nat, j: nat)
    requires i <= |r| && j <= |h|
    requires e.Insert? || i > 0
    requires e.Delete? || j > 0
    requires e.Keep? ==> r[i - 1] == h[j - 1]
    requires (e.Insert? || e.Substitute?) ==> e.word == h[j - 1]
    requires Apply(rest, r[..if e.Insert? then i else i - 1]) == Some(h[..if e.Delete? then j else j - 1])
    ensures Apply(rest + [e], r[..i]) == Some(h[..j])
  {
    assert (rest + [e])[..|rest + [e]| - 1] == rest;
    if i > 0 {
      DropLast(r, i);
    }
    if j > 0 {
      DropLast(h, j);
    }
  }

  /** The walk decodes a script that turns the reference into the hypothesis at exactly the cell's cost. */
  lemma {:induction false} WalkDecodesOptimalScript<W>(r: seq<W>, h: seq<W>, i: nat, j: nat)
    requires i <= |r| && j <= |h|
    ensures Apply(Walk(r, h, i, j), r[..i]) == Some(h[..j])
    ensures Cost(Walk(r, h, i, j)) == Cell(r, h, i, j)
    decreases i + j
  {
    if i > 0 || j > 0 {
      var e := Pointer(r, h, i, j);
      var i', j' := if e.Insert? then i else i - 1, if e.Delete? then j else j - 1;
      var before := Walk(r, h, i', j');
      assert Walk(r, h, i, j) == before + [e];
      WalkDecodesOptimalScript(r, h, i', j');
      CostAppend(before, e);
      PointerCosts(r, h, i, j);
      ApplySnoc(before, e, r, h, i, j);
    }
  }

  /** Following the pointer leaves the cell's cost less that of the edit. */
  lemma {:induction false} PointerCosts<W>(r: seq<W>, h: seq<W>, i: nat, j: nat)
    requires i <= |r| && j <= |h| && i + j > 0
    ensures var e := Pointer(r, h, i, j);
            Cell(r, h, i, j) == Cell(r, h, if e.Insert? then i else i - 1, if e.Delete? then j else j - 1)
                                + if e.Keep? then 0 else 1
  {
  }

  /** Reading both scripts backwards, the first one takes the preferred edit at the first difference. */
  predicate PreferredFromTheEnd<W>(a: seq<Edit<W>>, b: seq<Edit<W>>) {
    a == [] || (b != [] &&
    var x, y := a[|a| - 1].Rank(), b[|b| - 1].Rank();
    x < y || (x == y && PreferredFromTheEnd(a[..|a| - 1], b[..|b| - 1])))
  }

  /** Which optimal script the walk decodes: the one preferred, from the end, over every other. */
  lemma {:induction false} WalkIsThePreferredOptimum<W>(r: seq<W>, h: seq<W>, i: nat, j: nat, script: seq<Edit<W>>)
    requires i <= |r| && j <= |h|
    requires Apply(script, r[..i]) == Some(h[..j])
    requires Cost(script) == Cell(r, h, i, j)
    ensures PreferredFromTheEnd(Walk(r, h, i, j), script)
    decreases |script|
  {
    if i + j > 0 && script != [] {
      var i', j', rest, e := OptimalEndsNoBetter(r, h, i, j, script);
      var p := Pointer(r, h, i, j);
      var before := Walk(r, h, if p.Insert? then i else i - 1, if p.Delete? then j else j - 1);
      if p.Rank() == e.Rank() {
        WalkIsThePreferredOptimum(r, h, i', j', rest);
      }
      PreferSnoc(before, p, rest, e);
    }
  }

  /** An optimal script ends in an edit no more preferred than the pointer's, and when it is as preferred, what
      comes before it is optimal too. */
  lemma {:induction false} OptimalEndsNoBetter<W>(r: seq<W>, h: seq<W>, i: nat, j: nat, script: seq<Edit<W>>)
    returns (i': nat, j': nat, rest: seq<Edit<W>>, e: Edit<W>)
    requires i <= |r| && j <= |h| && i + j > 0 && script != []
    requires Apply(script, r[..i]) == Some(h[..j]) && Cost(script) == Cell(r, h, i, j)
    ensures script == rest + [e] && i' <= i && j' <= j && Apply(rest, r[..i']) == Some(h[..j'])
    ensures var p := Pointer(r, h, i, j);
            && p.Rank() <= e.Rank()
            && (p.Rank() == e.Rank() ==>
                  && i' == (if p.Insert? then i else i - 1) && j' == (if p.Delete? then j else j - 1)
                  && Cost(rest) == Cell(r, h, i', j'))
  {
    rest, e := script[..|script| - 1], script[|script| - 1];
    assert script == rest + [e];
    CostAppend(rest, e);
    i', j' := LastEdit(r, h, i, j, script);
    CellIsLowerBound(r, h, i', j', rest);
    PointerIsPreferred(r, h, i, j, i', j', e);
    PointerCosts(r, h, i, j);
  }

  lemma {:induction false} PreferSnoc<W>(a: seq<Edit<W>>, x: Edit<W>, b: seq<Edit<W>>, y: Edit<W>)
    ensures PreferredFromTheEnd(a + [x], b + [y])
            <==> x.Rank() < y.Rank() || (x.Rank() == y.Rank() && PreferredFromTheEnd(a, b))
  {
    assert (a + [x])[..|a + [x]| - 1] == a && (b + [y])[..|b + [y]| - 1] == b;
  }

  /** No edit that can end an optimal script comes before the pointer's in the order of preference. */
  lemma {:induction false} PointerIsPreferred<W>(r: seq<W>, h: seq<W>, i: nat, j: nat, i': nat, j': nat, e: Edit<W>)
    requires i <= |r| && j <= |h| && i + j > 0
    requires i == i' + (if e.Insert? then 0 else 1) && j == j' + (if e.Delete? then 0 else 1)
    requires e.Keep? ==> r[i - 1] == h[j - 1]
    requires Cell(r, h, i', j') + (if e.Keep? then 0 else 1) <= Cell(r, h, i, j)
    ensures Pointer(r, h, i, j).Rank() <= e.Rank()
  {
    NeighboursDifferByAtMostOne(r, h, i, j);
  }

  /** Words that survive on either side are the same words. */
  lemma {:induction false} KeptAndReplacedBalance<W>(script: seq<Edit<W>>, reference: seq<W>)
    requires Apply(script, reference).Some?
    ensures |reference| + Insertions(script) == |Apply(script, reference).value| + Deletions(script)
  {
    if script != [] {
      var rest, e := script[..|script| - 1], script[|script| - 1];
      assert script == rest + [e];
      CountAppend(rest, e, 2);
      CountAppend(rest, e, 3);
      KeptAndReplacedBalance(rest, if e.Insert? then reference else reference[..|reference| - 1]);
    }
  }

  // ---------------------------------------------------------------- the program

  /** `wer`: fills the table, walks it back, and counts the edits by kind. */
  method Wer<W(==,!new)>(reference: seq<W>, hypothesis: seq<W>)
    returns (subs: nat, dels: nat, inss: nat, distance: nat)
    ensures forall s: seq<Edit<W>> :: Apply(s, reference) == Some(hypothesis) ==> distance <= Cost(s)
    ensures var s := Walk(reference, hypothesis, |reference|, |hypothesis|);
            && Apply(s, reference) == Some(hypothesis)
            && subs == Substitutions(s) && dels == Deletions(s) && inss == Insertions(s)
    ensures subs + dels + inss == distance
    ensures |reference| - dels == |hypothesis| - inss
  {
    var n, m := |reference|, |hypothesis|;
    var dist := new nat[n + 1, m + 1]((_, _) => 0);
    var back := new char[n + 1, m + 1]((_, _) => ' ');
    FillTable(reference, hypothesis, dist, back);

    subs, dels, inss := 0, 0, 0;
    var i, j := n, m;
    ghost var tail: seq<Edit<W>> := [];
    ghost var whole := Walk(reference, hypothesis, n, m);
    while i > 0 || j > 0
      invariant 0 <= i <= n && 0 <= j <= m
      invariant whole == Walk(reference, hypothesis, i, j) + tail
      invariant subs == Substitutions(tail) && dels == Deletions(tail) && inss == Insertions(tail)
      decreases i + j
      modifies {}
    {
      ghost var e := Pointer(reference, hypothesis, i, j);
      assert RowFilled(reference, hypothesis, dist, back, i, m);
      var op := back[i, j];
      ghost var i', j' := if e.Insert? then i else i - 1, if e.Delete? then j else j - 1;
      WalkStep(reference, hypothesis, i, j, tail);
      if op == '=' {
        i, j := i - 1, j - 1;
      } else if op == 's' {
        subs := subs + 1;
        i, j := i - 1, j - 1;
      } else if op == 'd' {
        dels := dels + 1;
        i := i - 1;
      } else {
        inss := inss + 1;
        j := j - 1;
      }
      tail := [e] + tail;
    }
    assert RowFilled(reference, hypothesis, dist, back, n, m);
    distance := dist[n, m];
    Wrap(reference, hypothesis);
    assert whole == tail;
    forall s: seq<Edit<W>> | Apply(s, reference) == Some(hypothesis)
      ensures distance <= Cost(s)
    {
      CellIsLowerBound(reference, hypothesis, n, m, s);
    }
    KeptAndReplacedBalance(whole, reference);
  }

  lemma {:induction false} WalkStep<W>(r: seq<W>, h: seq<W>, i: nat, j: nat, tail: seq<Edit<W>>)
    requires i <= |r| && j <= |h| && i + j > 0
    ensures var e := Pointer(r, h, i, j);
            && Walk(r, h, i, j) + tail
               == Walk(r, h, if e.Insert? then i else i - 1, if e.Delete? then j else j - 1) + ([e] + tail)
            && forall k: nat :: Count([e] + tail, k) == (if e.Rank() == k then 1 else 0) + Count(tail, k)
  {
    var e := Pointer(r, h, i, j);
    assert ([e] + tail)[1..] == tail;
  }

  lemma {:induction false} Wrap<W>(r: seq<W>, h: seq<W>)
    ensures r[..|r|] == r && h[..|h|] == h
    ensures Apply(Walk(r, h, |r|, |h|), r) == Some(h)
    ensures Cost(Walk(r, h, |r|, |h|)) == Cell(r, h, |r|, |h|)
  {
    assert r[..|r|] == r && h[..|h|] == h;
    WalkDecodesOptimalScript(r, h, |r|, |h|);
  }

  /** The character the table stores for an edit. */
  function Mark<W>(e: Edit<W>): char {
    match e
    case Keep => '='
    case Substitute(_) => 's'
    case Delete => 'd'
    case Insert(_) => 'i'
  }

  /** The first cell of row and column, then row by row, as the loops do it. */
  method FillTable<W(==)>(r: seq<W>, h: seq<W>, dist: array2<nat>, back: array2<char>)
    requires dist.Length0 == back.Length0 == |r| + 1 && dist.Length1 == back.Length1 == |h| + 1
    requires dist[0, 0] == 0
    modifies dist, back
    ensures forall i | 0 <= i <= |r| :: RowFilled(r, h, dist, back, i, |h|)
  {
    for i := 1 to |r| + 1
      invariant dist[0, 0] == 0
      invariant forall k | 1 <= k < i :: dist[k, 0] == k && back[k, 0] == 'd'
    {
      dist[i, 0], back[i, 0] := i, 'd';
    }
    for j := 1 to |h| + 1
      invariant dist[0, 0] == 0
      invariant forall k | 1 <= k <= |r| :: dist[k, 0] == k && back[k, 0] == 'd'
      invariant forall k | 1 <= k < j :: dist[0, k] == k && back[0, k] == 'i'
    {
      dist[0, j], back[0, j] := j, 'i';
    }
    for i := 1 to |r| + 1
      invariant forall k | 1 <= k <= |r| :: dist[k, 0] == k && back[k, 0] == 'd'
      invariant forall k | 0 <= k < i :: RowFilled(r, h, dist, back, k, |h|)
    {
      label BeforeRow:
      FillRow(r, h, dist, back, i);
      forall k | 0 <= k < i
        ensures RowFilled(r, h, dist, back, k, |h|)
      {
        assert old@BeforeRow(RowFilled(r, h, dist, back, k, |h|));
      }
    }
  }

  /** The inner loop: one row, left to right, from the row above and the cell to the left. */
  method FillRow<W(==)>(r: seq<W>, h: seq<W>, dist: array2<nat>, back: array2<char>, i: nat)
    requires dist.Length0 == back.Length0 == |r| + 1 && dist.Length1 == back.Length1 == |h| + 1
    requires 1 <= i <= |r|
    requires dist[i, 0] == i && back[i, 0] == 'd'
    requires RowFilled(r, h, dist, back, i - 1, |h|)
    modifies dist, back
    ensures RowFilled(r, h, dist, back, i, |h|)
    ensures forall k, l | 0 <= k <= |r| && 0 <= l <= |h| && k != i ::
              dist[k, l] == old(dist[k, l]) && back[k, l] == old(back[k, l])
  {
    for j := 1 to |h| + 1
      invariant RowFilled(r, h, dist, back, i - 1, |h|)
      invariant RowFilled(r, h, dist, back, i, j - 1)
      invariant forall k, l | 0 <= k <= |r| && 0 <= l <= |h| && k != i ::
          dist[k, l] == old(dist[k, l]) && back[k, l] == old(back[k, l])
    {
      FillCell(r, h, dist, back, i, j);
    }
  }

  /** The body of the inner loop: a match takes the diagonal unconditionally. */
  method FillCell<W(==)>(r: seq<W>, h: seq<W>, dist: array2<nat>, back: array2<char>, i: nat, j: nat)
    requires dist.Length0 == back.Length0 == |r| + 1 && dist.Length1 == back.Length1 == |h| + 1
    requires 1 <= i <= |r| && 1 <= j <= |h|
    requires dist[i - 1, j - 1] == Cell(r, h, i - 1, j - 1)
    requires dist[i - 1, j] == Cell(r, h, i - 1, j) && dist[i, j - 1] == Cell(r, h, i, j - 1)
    modifies dist, back
    ensures CellFilled(r, h, i, j, dist[i, j], back[i, j])
    ensures forall k, l | 0 <= k <= |r| && 0 <= l <= |h| && !(k == i && l == j) ::
              dist[k, l] == old(dist[k, l]) && back[k, l] == old(back[k, l])
  {
    ChoiceFillsCell(r, h, i, j, dist[i - 1, j - 1], dist[i - 1, j], dist[i, j - 1]);
    if r[i - 1] == h[j - 1] {
      dist[i, j], back[i, j] := dist[i - 1, j - 1], '=';
    } else {
      var sub, dele, ins := dist[i - 1, j - 1] + 1, dist[i - 1, j] + 1, dist[i, j - 1] + 1;
      var best := Min3(sub, dele, ins);
      dist[i, j] := best;
      back[i, j] := if best == sub then 's' else if best == dele then 'd' else 'i';
    }
  }

  ghost predicate RowFilled<W>(r: seq<W>, h: seq<W>, dist: array2<nat>, back: array2<char>, i: nat, last: nat)
    requires dist.Length0 == back.Length0 == |r| + 1 && dist.Length1 == back.Length1 == |h| + 1
    requires i <= |r| && last <= |h|
    reads dist, back
  {
    forall j | 0 <= j <= last ::
      CellFilled(r, h, i, j, dist[i, j], back[i, j])
  }

  ghost predicate CellFilled<W>(r: seq<W>, h: seq<W>, i: nat, j: nat, d: nat, mark: char)
    requires i <= |r| && j <= |h|
  {
    d == Cell(r, h, i, j) && (i + j > 0 ==> mark == Mark(Pointer(r, h, i, j)))
  }

  /** The three-way choice of the inner loop fills its cell correctly, given its three neighbours. */
  lemma {:induction false} ChoiceFillsCell<W>(r: seq<W>, h: seq<W>, i: nat, j: nat, diagonal: nat, above: nat,
                                              left: nat)
    requires 1 <= i <= |r| && 1 <= j <= |h|
    requires diagonal == Cell(r, h, i - 1, j - 1)
    requires above == Cell(r, h, i - 1, j)
    requires left == Cell(r, h, i, j - 1)
    ensures r[i - 1] == h[j - 1] ==> CellFilled(r, h, i, j, diagonal, '=')
    ensures r[i - 1] != h[j - 1] ==>
              var best := Min3(diagonal + 1, above + 1, left + 1);
              CellFilled(r, h, i, j, best,
                         if best == diagonal + 1 then 's' else if best == above + 1 then 'd' else 'i')
  {
  }
}
