/** The order SQLite gives a query's rows for `ORDER BY <text column> ASC`: NULL first, then
    the BINARY collation of the text (character by character, a proper prefix first; for the
    Unicode scalar values Dafny's `char` holds this is the same order as memcmp on UTF-8). */
module Collation {
  import opened Nullable

  /** BINARY collation: `a` sorts before or with `b`. */
  predicate TextLe(a: string, b: string)
    decreases |a|
  {
    |a| == 0 || (|b| > 0 && (a[0] < b[0] || (a[0] == b[0] && TextLe(a[1..], b[1..]))))
  }

  /** `ORDER BY ... ASC` on a nullable text column: NULL sorts first. */
  predicate KeyLe(a: Option<string>, b: Option<string>) {
    a.None? || (b.Some? && TextLe(a.value, b.value))
  }

  lemma {:induction false} TextLeTotal(a: string, b: string)
    ensures TextLe(a, b) || TextLe(b, a)
    decreases |a|
  {
    if |a| > 0 && |b| > 0 && a[0] == b[0] {
      TextLeTotal(a[1..], b[1..]);
    }
  }

  lemma {:induction false} TextLeTrans(a: string, b: string, c: string)
    requires TextLe(a, b) && TextLe(b, c)
    ensures TextLe(a, c)
    decreases |a|
  {
    if |a| > 0 && a[0] == b[0] && b[0] == c[0] {
      TextLeTrans(a[1..], b[1..], c[1..]);
    }
  }

  lemma {:induction false} TextLeAntisymmetric(a: string, b: string)
    requires TextLe(a, b) && TextLe(b, a)
    ensures a == b
    decreases |a|
  {
    if |a| > 0 {
      TextLeAntisymmetric(a[1..], b[1..]);
      assert a == [a[0]] + a[1..] && b == [b[0]] + b[1..];
    }
  }

  lemma KeyLeTotal(a: Option<string>, b: Option<string>)
    ensures KeyLe(a, b) || KeyLe(b, a)
  {
    if a.Some? && b.Some? {
      TextLeTotal(a.value, b.value);
    }
  }

  lemma KeyLeTrans(a: Option<string>, b: Option<string>, c: Option<string>)
    requires KeyLe(a, b) && KeyLe(b, c)
    ensures KeyLe(a, c)
  {
    if a.Some? {
      TextLeTrans(a.value, b.value, c.value);
    }
  }

  lemma KeyLeAntisymmetric(a: Option<string>, b: Option<string>)
    requires KeyLe(a, b) && KeyLe(b, a)
    ensures a == b
  {
    if a.Some? {
      TextLeAntisymmetric(a.value, b.value);
    }
  }

  /** The rows of `xs` are in ascending order of `key`. */
  predicate SortedBy<T>(xs: seq<T>, key: T -> Option<string>) {
    forall i, j :: 0 <= i < j < |xs| ==> KeyLe(key(xs[i]), key(xs[j]))
  }

  /** Inserts `x` before the first row whose key is not smaller. */
  function Insert<T>(x: T, xs: seq<T>, key: T -> Option<string>): (r: seq<T>)
    requires SortedBy(xs, key)
    ensures SortedBy(r, key)
    ensures multiset(r) == multiset(xs) + multiset{x}
  {
    if |xs| == 0 then [x]
    else if KeyLe(key(x), key(xs[0])) then
      BelowAll(x, xs, key);
      [x] + xs
    else
      var rest := Insert(x, xs[1..], key);
      assert xs == [xs[0]] + xs[1..];
      HeadBelowInserted(x, xs, rest, key);
      [xs[0]] + rest
  }

  /** A key not above a sorted sequence's first key is not above any of its keys. */
  lemma BelowAll<T>(x: T, xs: seq<T>, key: T -> Option<string>)
    requires SortedBy(xs, key) && |xs| > 0 && KeyLe(key(x), key(xs[0]))
    ensures forall j :: 0 <= j < |xs| ==> KeyLe(key(x), key(xs[j]))
  {
    forall j | 0 <= j < |xs| ensures KeyLe(key(x), key(xs[j])) {
      if j > 0 { KeyLeTrans(key(x), key(xs[0]), key(xs[j])); }
    }
  }

  /** When `x` sorts after the head, the head sorts before `x` and before the rest, hence
      before every row of their recursive insertion. */
  lemma HeadBelowInserted<T>(x: T, xs: seq<T>, rest: seq<T>, key: T -> Option<string>)
    requires SortedBy(xs, key) && |xs| > 0 && !KeyLe(key(x), key(xs[0]))
    requires multiset(rest) == multiset(xs[1..]) + multiset{x}
    ensures forall j :: 0 <= j < |rest| ==> KeyLe(key(xs[0]), key(rest[j]))
  {
    forall j | 0 <= j < |rest| ensures KeyLe(key(xs[0]), key(rest[j])) {
      assert rest[j] in multiset(rest);
      if rest[j] == x {
        KeyLeTotal(key(x), key(xs[0]));
      } else {
        assert rest[j] in multiset(xs[1..]);
        var k :| 0 <= k < |xs[1..]| && xs[1..][k] == rest[j];
        assert xs[k + 1] == rest[j];
      }
    }
  }

  /** The rows of `xs` in ascending order of `key`; rows with equal keys keep their order. */
  function OrderBy<T>(xs: seq<T>, key: T -> Option<string>): (r: seq<T>)
    ensures SortedBy(r, key)
    ensures multiset(r) == multiset(xs)
  {
    if |xs| == 0 then []
    else
      assert xs == [xs[0]] + xs[1..];
      Insert(xs[0], OrderBy(xs[1..], key), key)
  }
}
