/** List operations the core relies on: Kotlin's `mapNotNull`, the running maximum with a floor
    of zero that the calculator keeps in its `var`s, and the sum and mean of a list of readings.
    Each is defined by recursion on the prefix, so that it matches a loop that appends one
    element at a time. */
module Seqs {
  import opened Nullable

  /** An optional as a list of zero or one element. */
  function Image<B>(o: Option<B>): seq<B> {
    if o.Some? then [o.value] else []
  }

  /** Kotlin's `mapNotNull`: the non-null images of `xs` under `f`, in order. */
  function MapNotNull<A, B>(xs: seq<A>, f: A -> Option<B>): (r: seq<B>)
    ensures |r| <= |xs|
  {
    if |xs| == 0 then [] else MapNotNull(xs[..|xs| - 1], f) + Image(f(xs[|xs| - 1]))
  }

  /** The positions of `xs` whose image under `f` is non-null, in increasing order. */
  function Kept<A, B>(xs: seq<A>, f: A -> Option<B>): seq<nat> {
    if |xs| == 0 then []
    else Kept(xs[..|xs| - 1], f) + (if f(xs[|xs| - 1]).Some? then [|xs| - 1] else [])
  }

  /** One more element of the prefix adds its image, if any, at the end. */
  lemma MapNotNullStep<A, B>(xs: seq<A>, i: nat, f: A -> Option<B>)
    requires i < |xs|
    ensures MapNotNull(xs[..i + 1], f) == MapNotNull(xs[..i], f) + Image(f(xs[i]))
  {
    assert xs[..i + 1][..i] == xs[..i];
  }

  /** `mapNotNull` distributes over concatenation. */
  lemma {:induction false} MapNotNullConcat<A, B>(a: seq<A>, b: seq<A>, f: A -> Option<B>)
    ensures MapNotNull(a + b, f) == MapNotNull(a, f) + MapNotNull(b, f)
    decreases |b|
  {
    if |b| == 0 {
      assert a + b == a;
    } else {
      var b' := b[..|b| - 1];
      assert (a + b)[..|a + b| - 1] == a + b';
      assert (a + b)[|a + b| - 1] == b[|b| - 1];
      MapNotNullConcat(a, b', f);
    }
  }

  /** `mapNotNull` of a single element. */
  lemma MapNotNullSingle<A, B>(x: A, f: A -> Option<B>)
    ensures MapNotNull([x], f) == Image(f(x))
  {
    assert [x][..0] == [];
  }

  /** `mapNotNull` only looks at the images: two lists with the same images, position by
      position, give the same result. */
  lemma {:induction false} MapNotNullCongruent<A, C, B>(xs: seq<A>, ys: seq<C>, f: A -> Option<B>, g: C -> Option<B>)
    requires |xs| == |ys|
    requires forall i :: 0 <= i < |xs| ==> f(xs[i]) == g(ys[i])
    ensures MapNotNull(xs, f) == MapNotNull(ys, g)
    decreases |xs|
  {
    if |xs| > 0 {
      var n := |xs| - 1;
      assert forall i :: 0 <= i < n ==> xs[..n][i] == xs[i] && ys[..n][i] == ys[i];
      MapNotNullCongruent(xs[..n], ys[..n], f, g);
    }
  }

  /** When `b` is a permutation of `a`, the last element of `a` sits at some position `j` of
      `b`, and removing it from both leaves permutations of each other. */
  lemma MatchLast<A>(a: seq<A>, b: seq<A>) returns (j: nat)
    requires multiset(a) == multiset(b) && |a| > 0
    ensures j < |b| && b[j] == a[|a| - 1]
    ensures multiset(a[..|a| - 1]) == multiset(b[..j] + b[j + 1..])
  {
    var n := |a| - 1;
    RemoveAt(a, n);
    assert a[..n] + a[n + 1..] == a[..n];
    assert a[n] in multiset(b);
    j :| 0 <= j < |b| && b[j] == a[n];
    RemoveAt(b, j);
  }

  /** Removing position `j` removes one occurrence of its element. */
  lemma RemoveAt<A>(b: seq<A>, j: nat)
    requires j < |b|
    ensures multiset(b[..j] + b[j + 1..]) == multiset(b) - multiset{b[j]}
  {
    assert b == b[..j] + [b[j]] + b[j + 1..];
    assert multiset(b) == multiset(b[..j]) + multiset{b[j]} + multiset(b[j + 1..]);
  }

  /** Reordering the input reorders the output: `mapNotNull` preserves permutations. */
  lemma {:induction false} MapNotNullPerm<A, B>(a: seq<A>, b: seq<A>, f: A -> Option<B>)
    requires multiset(a) == multiset(b)
    ensures multiset(MapNotNull(a, f)) == multiset(MapNotNull(b, f))
    decreases |a|
  {
    if |a| == 0 {
      assert |multiset(b)| == 0;
      assert b == [];
    } else {
      var n := |a| - 1;
      var x := a[n];
      var j := MatchLast(a, b);
      var l, r := b[..j], b[j + 1..];
      assert a == a[..n] + [x];
      assert b == l + [x] + r;
      MapNotNullPerm(a[..n], l + r, f);
      MapNotNullConcat(a[..n], [x], f);
      MapNotNullConcat(l + [x], r, f);
      MapNotNullConcat(l, [x], f);
      MapNotNullConcat(l, r, f);
      MapNotNullSingle(x, f);
    }
  }

  /** The full meaning of `mapNotNull`: the result lists, in order, the images of exactly the
      positions whose image is non-null. */
  lemma {:induction false} MapNotNullSelects<A, B>(xs: seq<A>, f: A -> Option<B>)
    ensures |Kept(xs, f)| == |MapNotNull(xs, f)|
    ensures forall k :: 0 <= k < |Kept(xs, f)| ==>
      Kept(xs, f)[k] < |xs| && f(xs[Kept(xs, f)[k]]) == Some(MapNotNull(xs, f)[k])
    ensures forall k, l :: 0 <= k < l < |Kept(xs, f)| ==> Kept(xs, f)[k] < Kept(xs, f)[l]
    ensures forall i :: 0 <= i < |xs| && f(xs[i]).Some? ==> i in Kept(xs, f)
    decreases |xs|
  {
    if |xs| > 0 {
      var n := |xs| - 1;
      MapNotNullSelects(xs[..n], f);
      assert forall i :: 0 <= i < n ==> xs[..n][i] == xs[i];
    }
  }

  /** An element is in the result exactly when some position maps to it. */
  lemma MapNotNullMembers<A, B>(xs: seq<A>, f: A -> Option<B>, y: B)
    ensures y in MapNotNull(xs, f) <==> exists i :: 0 <= i < |xs| && f(xs[i]) == Some(y)
  {
    MapNotNullSelects(xs, f);
    var r, kept := MapNotNull(xs, f), Kept(xs, f);
    if y in r {
      var k :| 0 <= k < |r| && r[k] == y;
      assert f(xs[kept[k]]) == Some(y);
    }
    if i :| 0 <= i < |xs| && f(xs[i]) == Some(y) {
      assert i in kept;
      var k :| 0 <= k < |kept| && kept[k] == i;
      assert r[k] == y;
    }
  }

  /** The first element of the result is the image of the first position with a non-null image. */
  lemma MapNotNullFirst<A, B>(xs: seq<A>, f: A -> Option<B>, i: nat)
    requires i < |xs| && f(xs[i]).Some?
    requires forall j :: 0 <= j < i ==> f(xs[j]).None?
    ensures |MapNotNull(xs, f)| > 0 && MapNotNull(xs, f)[0] == f(xs[i]).value
  {
    MapNotNullSelects(xs, f);
    var kept := Kept(xs, f);
    assert i in kept;
    var k :| 0 <= k < |kept| && kept[k] == i;
    assert kept[0] <= kept[k];
    assert f(xs[kept[0]]).Some?;
  }

  /** The last element of the result is the image of the last position with a non-null image. */
  lemma MapNotNullLast<A, B>(xs: seq<A>, f: A -> Option<B>, i: nat)
    requires i < |xs| && f(xs[i]).Some?
    requires forall j :: i < j < |xs| ==> f(xs[j]).None?
    ensures |MapNotNull(xs, f)| > 0 && MapNotNull(xs, f)[|MapNotNull(xs, f)| - 1] == f(xs[i]).value
  {
    MapNotNullSelects(xs, f);
    var kept := Kept(xs, f);
    assert i in kept;
    var k :| 0 <= k < |kept| && kept[k] == i;
    var last := |kept| - 1;
    assert kept[k] <= kept[last];
    assert f(xs[kept[last]]).Some?;
  }

  /** When no position has a non-null image, the result is empty. */
  lemma MapNotNullNone<A, B>(xs: seq<A>, f: A -> Option<B>)
    requires forall j :: 0 <= j < |xs| ==> f(xs[j]).None?
    ensures MapNotNull(xs, f) == []
  {
    MapNotNullSelects(xs, f);
  }

  /** When every position has a non-null image, the result is the list of those images. */
  lemma {:induction false} MapNotNullTotal<A, B>(xs: seq<A>, f: A -> Option<B>, ys: seq<B>)
    requires |xs| == |ys|
    requires forall i :: 0 <= i < |xs| ==> f(xs[i]) == Some(ys[i])
    ensures MapNotNull(xs, f) == ys
    decreases |xs|
  {
    if |xs| > 0 {
      var n := |xs| - 1;
      MapNotNullTotal(xs[..n], f, ys[..n]);
      assert ys == ys[..n] + [ys[n]];
    }
  }

  /** The first element, or None for an empty list. */
  function First<T>(xs: seq<T>): Option<T> {
    if |xs| == 0 then None else Some(xs[0])
  }

  /** The last element, or None for an empty list. */
  function Last<T>(xs: seq<T>): Option<T> {
    if |xs| == 0 then None else Some(xs[|xs| - 1])
  }

  /** The filter `{ it > t }` written as a `mapNotNull` argument. */
  function Above(t: real): real -> Option<real> {
    x => if x > t then Some(x) else None
  }

  /** The sum of a list of readings. */
  function Sum(xs: seq<real>): real {
    if |xs| == 0 then 0.0 else Sum(xs[..|xs| - 1]) + xs[|xs| - 1]
  }

  lemma {:induction false} SumConcat(a: seq<real>, b: seq<real>)
    ensures Sum(a + b) == Sum(a) + Sum(b)
    decreases |b|
  {
    if |b| == 0 {
      assert a + b == a;
    } else {
      var b' := b[..|b| - 1];
      assert (a + b)[..|a + b| - 1] == a + b';
      SumConcat(a, b');
    }
  }

  /** The sum does not depend on the order of the readings. */
  lemma {:induction false} SumPerm(a: seq<real>, b: seq<real>)
    requires multiset(a) == multiset(b)
    ensures Sum(a) == Sum(b)
    decreases |a|
  {
    if |a| == 0 {
      assert |multiset(b)| == 0;
      assert b == [];
    } else {
      var n := |a| - 1;
      var x := a[n];
      var j := MatchLast(a, b);
      var l, r := b[..j], b[j + 1..];
      assert a == a[..n] + [x];
      assert b == l + [x] + r;
      SumPerm(a[..n], l + r);
      SumConcat(l + [x], r);
      SumConcat(l, [x]);
      SumConcat(l, r);
      assert Sum([x]) == x by { assert [x][..0] == []; }
    }
  }

  /** Each reading lies in [lo, hi], so the sum lies between |xs|*lo and |xs|*hi. */
  lemma {:induction false} SumBounds(xs: seq<real>, lo: real, hi: real)
    requires forall x :: x in xs ==> lo <= x <= hi
    ensures (|xs| as real) * lo <= Sum(xs) <= (|xs| as real) * hi
    decreases |xs|
  {
    if |xs| > 0 {
      var n := |xs| - 1;
      assert forall x :: x in xs[..n] ==> x in xs;
      SumBounds(xs[..n], lo, hi);
      assert xs[n] in xs;
      assert (|xs| as real) * lo == (n as real) * lo + lo;
      assert (|xs| as real) * hi == (n as real) * hi + hi;
    }
  }

  /** Kotlin's `if (xs.isNotEmpty()) xs.average() else 0.0`. */
  function Mean(xs: seq<real>): real {
    if |xs| == 0 then 0.0 else Sum(xs) / (|xs| as real)
  }

  /** The mean of readings that all lie in [lo, hi] lies in [lo, hi]. */
  lemma MeanWithin(xs: seq<real>, lo: real, hi: real)
    requires |xs| > 0
    requires forall x :: x in xs ==> lo <= x <= hi
    ensures lo <= Mean(xs) <= hi
  {
    SumBounds(xs, lo, hi);
    var n := |xs| as real;
    var m := Sum(xs) / n;
    assert m * n == Sum(xs);
    if m > hi {
      assert m * n > hi * n;
    }
    if m < lo {
      assert m * n < lo * n;
    }
  }

  /** Readings that are all at most `hi` sum to at most |xs|*hi. */
  lemma {:induction false} SumAtMost(xs: seq<real>, hi: real)
    requires forall x :: x in xs ==> x <= hi
    ensures Sum(xs) <= (|xs| as real) * hi
    decreases |xs|
  {
    if |xs| > 0 {
      var n := |xs| - 1;
      assert forall x :: x in xs[..n] ==> x in xs;
      SumAtMost(xs[..n], hi);
      assert xs[n] in xs;
      assert (|xs| as real) * hi == (n as real) * hi + hi;
    }
  }

  /** The mean of readings that are all at most `hi` is at most `hi`. */
  lemma MeanAtMost(xs: seq<real>, hi: real)
    requires |xs| > 0
    requires forall x :: x in xs ==> x <= hi
    ensures Mean(xs) <= hi
  {
    SumAtMost(xs, hi);
    var n := |xs| as real;
    var m := Sum(xs) / n;
    assert m * n == Sum(xs);
    if m > hi {
      assert m * n > hi * n;
    }
  }

  /** The mean does not depend on the order of the readings. */
  lemma MeanPerm(a: seq<real>, b: seq<real>)
    requires multiset(a) == multiset(b)
    ensures Mean(a) == Mean(b)
  {
    SumPerm(a, b);
    assert |a| == |multiset(a)| == |multiset(b)| == |b|;
  }

  /** The running maximum `var m = 0.0; for (x in xs) if (x > m) m = x`. */
  function Max0(xs: seq<real>): (m: real)
    ensures m >= 0.0
  {
    if |xs| == 0 then 0.0
    else
      var m := Max0(xs[..|xs| - 1]);
      if xs[|xs| - 1] > m then xs[|xs| - 1] else m
  }

  /** One more reading raises the running maximum only when it exceeds it. */
  lemma Max0Step(xs: seq<real>, x: real)
    ensures Max0(xs + [x]) == if x > Max0(xs) then x else Max0(xs)
  {
    assert (xs + [x])[..|xs|] == xs;
  }

  /** One step of `if (x != null && x > m) m = x` over the readings of a prefix. */
  lemma RunningMaxStep<A>(xs: seq<A>, i: nat, f: A -> Option<real>, m: real, m': real)
    requires i < |xs| && m == Max0(MapNotNull(xs[..i], f))
    requires m' == if f(xs[i]).Some? && f(xs[i]).value > m then f(xs[i]).value else m
    ensures m' == Max0(MapNotNull(xs[..i + 1], f))
  {
    MapNotNullStep(xs, i, f);
    if f(xs[i]).Some? {
      Max0Step(MapNotNull(xs[..i], f), f(xs[i]).value);
    } else {
      assert MapNotNull(xs[..i + 1], f) == MapNotNull(xs[..i], f);
    }
  }

  /** One step of `if (x != null) list.add(x)` over the readings of a prefix. */
  lemma CollectStep<A, B>(xs: seq<A>, i: nat, f: A -> Option<B>, l: seq<B>, l': seq<B>)
    requires i < |xs| && l == MapNotNull(xs[..i], f)
    requires l' == if f(xs[i]).Some? then l + [f(xs[i]).value] else l
    ensures l' == MapNotNull(xs[..i + 1], f)
  {
    MapNotNullStep(xs, i, f);
    if f(xs[i]).None? {
      assert MapNotNull(xs[..i + 1], f) == l;
    }
  }

  /** The running maximum is the largest reading, or 0.0 when every reading is below zero or
      there is none. */
  lemma {:induction false} Max0IsMaximum(xs: seq<real>)
    ensures forall x :: x in xs ==> x <= Max0(xs)
    ensures Max0(xs) == 0.0 || Max0(xs) in xs
    decreases |xs|
  {
    if |xs| > 0 {
      var n := |xs| - 1;
      Max0IsMaximum(xs[..n]);
      assert xs == xs[..n] + [xs[n]];
      assert forall x :: x in xs ==> x in xs[..n] || x == xs[n];
    }
  }

  /** The running maximum does not depend on the order of the readings. */
  lemma Max0Perm(a: seq<real>, b: seq<real>)
    requires multiset(a) == multiset(b)
    ensures Max0(a) == Max0(b)
  {
    Max0IsMaximum(a);
    Max0IsMaximum(b);
    assert forall x :: x in a <==> x in multiset(a);
    assert forall x :: x in b <==> x in multiset(b);
    if Max0(a) in a {
      assert Max0(a) in b;
    }
    if Max0(b) in b {
      assert Max0(b) in a;
    }
  }

  /** Reordering the input leaves the readings a permutation of each other, and so leaves
      their running maximum unchanged. */
  lemma ReadingsPerm<A>(a: seq<A>, b: seq<A>, f: A -> Option<real>)
    requires multiset(a) == multiset(b)
    ensures multiset(MapNotNull(a, f)) == multiset(MapNotNull(b, f))
    ensures Max0(MapNotNull(a, f)) == Max0(MapNotNull(b, f))
  {
    MapNotNullPerm(a, b, f);
    Max0Perm(MapNotNull(a, f), MapNotNull(b, f));
  }

  /** The mean of the readings above a non-negative threshold lies between zero and the running
      maximum of all readings: an "active" average never exceeds the maximum. */
  lemma ActiveMeanWithinMax(xs: seq<real>, t: real)
    requires t >= 0.0
    ensures 0.0 <= Mean(MapNotNull(xs, Above(t))) <= Max0(xs)
  {
    var active := MapNotNull(xs, Above(t));
    Max0IsMaximum(xs);
    if |active| > 0 {
      forall y | y in active
        ensures 0.0 <= y <= Max0(xs)
      {
        MapNotNullMembers(xs, Above(t), y);
        var i :| 0 <= i < |xs| && Above(t)(xs[i]) == Some(y);
        assert xs[i] in xs;
      }
      MeanWithin(active, 0.0, Max0(xs));
    }
  }
}
