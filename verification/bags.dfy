/** Sums over the workers of a run: the bookkeeping used by every counting argument. */
module Bags {

  function SumBag<W, T>(f: W -> multiset<T>, ws: seq<W>): multiset<T> {
    if ws == [] then multiset{} else SumBag(f, ws[..|ws| - 1]) + f(ws[|ws| - 1])
  }

  function SumNat<W>(f: W -> nat, ws: seq<W>): nat {
    if ws == [] then 0 else SumNat(f, ws[..|ws| - 1]) + f(ws[|ws| - 1])
  }

  lemma {:induction false} SumBagUpdate<W, T>(f: W -> multiset<T>, ws: seq<W>, i: nat, w: W)
    requires i < |ws|
    ensures SumBag(f, ws[i := w]) + f(ws[i]) == SumBag(f, ws) + f(w)
  {
    var n := |ws| - 1;
    if i < n {
      assert ws[i := w][..n] == ws[..n][i := w];
      SumBagUpdate(f, ws[..n], i, w);
      var z, before, after := f(ws[n]), SumBag(f, ws[..n]), SumBag(f, ws[..n][i := w]);
      calc {
        (after + z) + f(ws[i]);
        (after + f(ws[i])) + z;
        (before + f(w)) + z;
        (before + z) + f(w);
      }
    } else {
      assert ws[i := w][..n] == ws[..n];
    }
  }

  lemma {:induction false} SumNatUpdate<W>(f: W -> nat, ws: seq<W>, i: nat, w: W)
    requires i < |ws|
    ensures SumNat(f, ws[i := w]) + f(ws[i]) == SumNat(f, ws) + f(w)
  {
    var n := |ws| - 1;
    if i < n {
      assert ws[i := w][..n] == ws[..n][i := w];
      SumNatUpdate(f, ws[..n], i, w);
    } else {
      assert ws[i := w][..n] == ws[..n];
    }
  }

  /** Two rows of workers that look alike to `f` have the same sum. */
  lemma {:induction false} SumBagAlike<W, T>(f: W -> multiset<T>, ws: seq<W>, vs: seq<W>)
    requires |ws| == |vs| && forall i :: 0 <= i < |ws| ==> f(ws[i]) == f(vs[i])
    ensures SumBag(f, ws) == SumBag(f, vs)
  {
    if ws != [] {
      SumBagAlike(f, ws[..|ws| - 1], vs[..|vs| - 1]);
    }
  }

  lemma {:induction false} SumNatAlike<W>(f: W -> nat, ws: seq<W>, vs: seq<W>)
    requires |ws| == |vs| && forall i :: 0 <= i < |ws| ==> f(ws[i]) == f(vs[i])
    ensures SumNat(f, ws) == SumNat(f, vs)
  {
    if ws != [] {
      SumNatAlike(f, ws[..|ws| - 1], vs[..|vs| - 1]);
    }
  }

  /** Each part is contained in the whole. */
  lemma {:induction false} SumBagPart<W, T>(f: W -> multiset<T>, ws: seq<W>, i: nat)
    requires i < |ws|
    ensures f(ws[i]) <= SumBag(f, ws)
  {
    if i < |ws| - 1 {
      SumBagPart(f, ws[..|ws| - 1], i);
    }
  }

  lemma {:induction false} SumNatPart<W>(f: W -> nat, ws: seq<W>, i: nat)
    requires i < |ws|
    ensures f(ws[i]) <= SumNat(f, ws)
  {
    if i < |ws| - 1 {
      SumNatPart(f, ws[..|ws| - 1], i);
    }
  }

  /** A positive sum has a positive part. */
  lemma {:induction false} SumNatWitness<W>(f: W -> nat, ws: seq<W>) returns (i: nat)
    requires SumNat(f, ws) > 0
    ensures i < |ws| && f(ws[i]) > 0
  {
    var n := |ws| - 1;
    if f(ws[n]) > 0 {
      i := n;
    } else {
      i := SumNatWitness(f, ws[..n]);
    }
  }

  lemma {:induction false} SumNatZero<W>(f: W -> nat, ws: seq<W>)
    requires forall i :: 0 <= i < |ws| ==> f(ws[i]) == 0
    ensures SumNat(f, ws) == 0
  {
    if ws != [] {
      SumNatZero(f, ws[..|ws| - 1]);
    }
  }

  lemma {:induction false} SumBagEmpty<W, T>(f: W -> multiset<T>, ws: seq<W>)
    requires forall i :: 0 <= i < |ws| ==> f(ws[i]) == multiset{}
    ensures SumBag(f, ws) == multiset{}
  {
    if ws != [] {
      SumBagEmpty(f, ws[..|ws| - 1]);
    }
  }

  lemma {:induction false} SumNatBound<W>(f: W -> nat, ws: seq<W>, b: nat)
    requires forall i :: 0 <= i < |ws| ==> f(ws[i]) <= b
    ensures SumNat(f, ws) <= |ws| * b
  {
    if ws != [] {
      SumNatBound(f, ws[..|ws| - 1], b);
    }
  }

  lemma {:induction false} SumBagWitness<W, T>(f: W -> multiset<T>, ws: seq<W>, x: T) returns (i: nat)
    requires x in SumBag(f, ws)
    ensures i < |ws| && x in f(ws[i])
  {
    var n := |ws| - 1;
    if x in f(ws[n]) {
      i := n;
    } else {
      i := SumBagWitness(f, ws[..n], x);
    }
  }
}
