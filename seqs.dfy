/** Facts about sequences that the price pipeline relies on: sequences
    without repetitions, de-duplication that keeps first occurrences (what
    `list(dict.fromkeys(xs))` computes) and the index of a first occurrence. */
module Seqs {

  /** No element occurs twice in `s`. */
  predicate NoDup<T(==)>(s: seq<T>) {
    forall i, j :: 0 <= i < j < |s| ==> s[i] != s[j]
  }

  /** The position of the first occurrence of `x` in `s`. */
  function IndexOf<T(==)>(s: seq<T>, x: T): (k: nat)
    requires x in s
    ensures k < |s| && s[k] == x && x !in s[..k]
  {
    if s[0] == x then 0
    else
      var k := IndexOf(s[1..], x);
      assert s[..k + 1] == [s[0]] + s[1..][..k];
      k + 1
  }

  /** Every element of `r` occurs in `s`, and the elements of `r` come in the
      order in which they first occur in `s`. */
  predicate FirstSeenOrder<T(==)>(r: seq<T>, s: seq<T>) {
    && (forall i :: 0 <= i < |r| ==> r[i] in s)
    && (forall i, j :: 0 <= i < j < |r| ==> IndexOf(s, r[i]) < IndexOf(s, r[j]))
  }

  /** `s` with every repeated element dropped after its first occurrence.
      Built from the left, as a dict's keys are: an element is appended
      only when it has not been seen before. */
  function Dedup<T(==)>(s: seq<T>): (r: seq<T>)
    ensures NoDup(r)
    ensures forall i :: 0 <= i < |r| ==> r[i] in s
    ensures forall i :: 0 <= i < |s| ==> s[i] in r
    ensures |r| <= |s|
    decreases |s|
  {
    if s == [] then []
    else
      var p, x := s[..|s| - 1], s[|s| - 1];
      assert s == p + [x];
      var d := Dedup(p);
      if x in d then d else d + [x]
  }

  /** `Dedup` keeps exactly the elements of its argument. */
  lemma DedupElems<T>(s: seq<T>)
    ensures forall x :: x in Dedup(s) <==> x in s
  {
  }

  /** `Dedup` extended by one element, as one step of the loop that builds it. */
  lemma DedupSnoc<T>(s: seq<T>, x: T)
    ensures Dedup(s + [x]) == if x in Dedup(s) then Dedup(s) else Dedup(s) + [x]
  {
    assert (s + [x])[..|s|] == s;
  }

  /** A position `k` holding `x` with no earlier `x` is the first index of `x`. */
  lemma IndexOfUnique<T>(s: seq<T>, x: T, k: nat)
    requires k < |s| && s[k] == x && x !in s[..k]
    ensures IndexOf(s, x) == k
  {
  }

  /** Appending an element does not move the first occurrence of an element
      already present. */
  lemma IndexOfSnoc<T>(p: seq<T>, x: T, y: T)
    requires y in p
    ensures IndexOf(p + [x], y) == IndexOf(p, y)
  {
    var k := IndexOf(p, y);
    assert (p + [x])[..k] == p[..k];
    IndexOfUnique(p + [x], y, k);
  }

  /** An element appended for the first time is first seen at the end. */
  lemma IndexOfNew<T>(p: seq<T>, x: T)
    requires x !in p
    ensures IndexOf(p + [x], x) == |p|
  {
    assert (p + [x])[..|p|] == p;
    IndexOfUnique(p + [x], x, |p|);
  }

  /** `Dedup` keeps the order of first occurrences. */
  lemma {:induction false} DedupOrder<T>(s: seq<T>)
    ensures FirstSeenOrder(Dedup(s), s)
  {
    if s != [] {
      var p, x := s[..|s| - 1], s[|s| - 1];
      assert s == p + [x];
      DedupOrder(p);
      var d, r := Dedup(p), Dedup(s);
      DedupSnoc(p, x);
      forall i, j | 0 <= i < j < |r|
        ensures IndexOf(s, r[i]) < IndexOf(s, r[j])
      {
        IndexOfSnoc(p, x, r[i]);
        if j < |d| {
          IndexOfSnoc(p, x, r[j]);
        } else {
          IndexOfNew(p, x);
        }
      }
    }
  }

  /** Appending elements that were all seen already changes nothing. */
  lemma {:induction false} DedupAbsorb<T>(a: seq<T>, b: seq<T>)
    requires forall x :: x in b ==> x in a
    ensures Dedup(a + b) == Dedup(a)
  {
    if b != [] {
      var b', x := b[..|b| - 1], b[|b| - 1];
      assert b == b' + [x];
      assert a + b == (a + b') + [x];
      DedupAbsorb(a, b');
      DedupSnoc(a + b', x);
      DedupElems(a);
      assert x in Dedup(a + b');
    } else {
      assert a + b == a;
    }
  }

  /** `Dedup` of a concatenation depends on the front part only through its
      `Dedup`. */
  lemma {:induction false} DedupCongruence<T>(u: seq<T>, v: seq<T>, w: seq<T>)
    requires Dedup(u) == Dedup(v)
    ensures Dedup(u + w) == Dedup(v + w)
  {
    if w == [] {
      assert u + w == u && v + w == v;
    } else {
      var w', x := w[..|w| - 1], w[|w| - 1];
      assert w == w' + [x];
      var uw, vw := u + w', v + w';
      assert u + w == uw + [x];
      assert v + w == vw + [x];
      DedupCongruence(u, v, w');
      calc {
        Dedup(u + w);
        Dedup(uw + [x]);
        { DedupSnoc(uw, x); }
        if x in Dedup(uw) then Dedup(uw) else Dedup(uw) + [x];
        if x in Dedup(vw) then Dedup(vw) else Dedup(vw) + [x];
        { DedupSnoc(vw, x); }
        Dedup(vw + [x]);
        Dedup(v + w);
      }
    }
  }

  /** Order of first occurrence in `p + [x]` restricted to elements of `p`. */
  lemma OrderOnPrefix<T>(p: seq<T>, x: T, r: seq<T>)
    requires forall i :: 0 <= i < |r| ==> r[i] in p
    requires FirstSeenOrder(r, p + [x])
    ensures FirstSeenOrder(r, p)
  {
    forall i | 0 <= i < |r| ensures IndexOf(p + [x], r[i]) == IndexOf(p, r[i]) {
      IndexOfSnoc(p, x, r[i]);
    }
  }

  /** An element first seen at the very end of `p + [x]` comes last in any
      sequence ordered by first occurrence. */
  lemma NewComesLast<T>(p: seq<T>, x: T, r: seq<T>)
    requires x !in p && x in r && NoDup(r)
    requires FirstSeenOrder(r, p + [x])
    ensures r[|r| - 1] == x
  {
    var n := |r| - 1;
    var k :| 0 <= k < |r| && r[k] == x;
    IndexOfNew(p, x);
    if k < n {
      assert false;
    }
  }

  /** Dropping the last element keeps a sequence ordered and duplicate-free. */
  lemma DropLast<T>(r: seq<T>, s: seq<T>)
    requires r != [] && NoDup(r) && FirstSeenOrder(r, s)
    ensures NoDup(r[..|r| - 1]) && FirstSeenOrder(r[..|r| - 1], s)
    ensures forall y :: y in r[..|r| - 1] <==> y in r && y != r[|r| - 1]
  {
  }

  /** When the last element of `s` was seen before, a sequence that fits
      `s` fits the prefix without it. */
  lemma UniqueSeenStep<T>(p: seq<T>, x: T, r: seq<T>)
    requires x in p
    requires forall y :: y in r <==> y in p + [x]
    requires FirstSeenOrder(r, p + [x])
    ensures forall y :: y in r <==> y in p
    ensures FirstSeenOrder(r, p)
  {
    assert forall y :: y in p + [x] <==> y in p;
    OrderOnPrefix(p, x, r);
  }

  /** When the last element of `s` is new, a sequence that fits `s` ends with
      it, and the rest fits the prefix without it. */
  lemma UniqueNewStep<T>(p: seq<T>, x: T, r: seq<T>)
    requires x !in p && NoDup(r)
    requires forall y :: y in r <==> y in p + [x]
    requires FirstSeenOrder(r, p + [x])
    ensures r != [] && r == r[..|r| - 1] + [x]
    ensures NoDup(r[..|r| - 1])
    ensures forall y :: y in r[..|r| - 1] <==> y in p
    ensures FirstSeenOrder(r[..|r| - 1], p)
  {
    assert x in r;
    NewComesLast(p, x, r);
    var r' := r[..|r| - 1];
    assert r == r' + [x];
    DropLast(r, p + [x]);
    assert forall y :: y in p + [x] <==> y in p || y == x;
    OrderOnPrefix(p, x, r');
  }

  /** `Dedup(s)` is the only sequence without repetitions that has the
      elements of `s` in the order of their first occurrence: the three
      properties above determine it. */
  lemma {:induction false} DedupUnique<T>(s: seq<T>, r: seq<T>)
    requires NoDup(r)
    requires forall x :: x in r <==> x in s
    requires FirstSeenOrder(r, s)
    ensures r == Dedup(s)
  {
    if s != [] {
      var p, x := s[..|s| - 1], s[|s| - 1];
      assert s == p + [x];
      DedupSnoc(p, x);
      DedupElems(p);
      if x in p {
        UniqueSeenStep(p, x, r);
        DedupUnique(p, r);
      } else {
        UniqueNewStep(p, x, r);
        DedupUnique(p, r[..|r| - 1]);
      }
    } else {
      // s is empty, so r has no element
      assert multiset(r) == multiset{};
    }
  }
}
