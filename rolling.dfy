/**
 * Sequence helpers shared by the timer and session models: the bounded
 * "push, then shift once if too long" sample window, JavaScript's stable
 * `Array.prototype.sort` by a numeric key, and `reduce((a, b) => a + b, 0)`.
 */
module Rolling {

  // ---------------------------------------------------------------------------
  // Bounded windows
  // ---------------------------------------------------------------------------

  /** The newest `cap` elements of `s` (all of them when there are fewer). */
  function Newest<T>(s: seq<T>, cap: nat): (r: seq<T>)
    ensures |r| == if |s| <= cap then |s| else cap
    ensures r == s[|s| - |r|..]
  {
    if |s| <= cap then s else s[|s| - cap..]
  }

  /** `w.push(x); if (w.length > cap) w.shift();` */
  function Push<T>(w: seq<T>, x: T, cap: nat): (r: seq<T>)
    requires 1 <= cap
    ensures |w| <= cap ==> r == Newest(w + [x], cap)
    ensures |w| <= cap ==> |r| <= cap
    ensures |r| >= 1 && r[|r| - 1] == x
  {
    var v := w + [x];
    if |v| > cap then v[1..] else v
  }

  /** Pushing every element of `xs` in order. */
  function PushAll<T>(w: seq<T>, xs: seq<T>, cap: nat): seq<T>
    requires 1 <= cap
  {
    if xs == [] then w else Push(PushAll(w, xs[..|xs| - 1], cap), xs[|xs| - 1], cap)
  }

  /** A window that starts within its bound holds exactly the newest `cap` of everything pushed. */
  lemma {:induction false} PushAllNewest<T>(w: seq<T>, xs: seq<T>, cap: nat)
    requires 1 <= cap && |w| <= cap
    ensures PushAll(w, xs, cap) == Newest(w + xs, cap)
    ensures |PushAll(w, xs, cap)| <= cap
    decreases |xs|
  {
    if xs != [] {
      var init, x := xs[..|xs| - 1], xs[|xs| - 1];
      assert w + xs == (w + init) + [x] by { assert xs == init + [x]; }
      PushAllNewest(w, init, cap);
      NewestSnoc(w + init, x, cap);
    }
  }

  /** Taking the newest elements and then appending one agrees with appending first. */
  lemma NewestSnoc<T>(s: seq<T>, x: T, cap: nat)
    requires 1 <= cap
    ensures Newest(Newest(s, cap) + [x], cap) == Newest(s + [x], cap)
  {
    if |s| > cap {
      assert (s[|s| - cap..] + [x])[1..] == (s + [x])[|s| + 1 - cap..];
    }
  }

  // ---------------------------------------------------------------------------
  // Stable sort by a real-valued key
  // ---------------------------------------------------------------------------

  predicate SortedBy<T>(s: seq<T>, key: T -> real) {
    forall i, j :: 0 <= i < j < |s| ==> key(s[i]) <= key(s[j])
  }

  /** Insert `x` in front of the first element whose key is not smaller, keeping it before equal keys. */
  function Insert<T(==)>(x: T, t: seq<T>, key: T -> real): (r: seq<T>)
    requires SortedBy(t, key)
    ensures SortedBy(r, key)
    ensures multiset(r) == multiset(t) + multiset{x}
  {
    if t == [] || key(x) <= key(t[0]) then
      InsertFront(x, t, key);
      [x] + t
    else
      var rest := Insert(x, t[1..], key);
      InsertBehind(x, t, key, rest);
      [t[0]] + rest
  }

  lemma InsertFront<T>(x: T, t: seq<T>, key: T -> real)
    requires SortedBy(t, key) && (t == [] || key(x) <= key(t[0]))
    ensures SortedBy([x] + t, key)
  {
    var r := [x] + t;
    forall i, j | 0 <= i < j < |r| ensures key(r[i]) <= key(r[j]) {
      if i == 0 {
        assert r[j] == t[j - 1];
        assert key(t[0]) <= key(t[j - 1]) || j == 1;
      } else {
        assert r[i] == t[i - 1] && r[j] == t[j - 1];
      }
    }
  }

  lemma InsertBehind<T>(x: T, t: seq<T>, key: T -> real, rest: seq<T>)
    requires SortedBy(t, key) && t != [] && key(t[0]) < key(x)
    requires SortedBy(rest, key) && multiset(rest) == multiset(t[1..]) + multiset{x}
    ensures SortedBy([t[0]] + rest, key)
    ensures multiset([t[0]] + rest) == multiset(t) + multiset{x}
  {
    assert multiset(t) == multiset{t[0]} + multiset(t[1..]) by { assert t == [t[0]] + t[1..]; }
    var r := [t[0]] + rest;
    forall i, j | 0 <= i < j < |r| ensures key(r[i]) <= key(r[j]) {
      assert r[j] == rest[j - 1];
      if i == 0 {
        var y := rest[j - 1];
        assert y in multiset(rest);
        if y != x {
          assert y in multiset(t[1..]);
          var k :| 0 <= k < |t[1..]| && t[1..][k] == y;
          assert key(t[0]) <= key(t[k + 1]);
        }
      } else {
        assert r[i] == rest[i - 1];
      }
    }
  }

  /** `s.sort((a, b) => key(a) - key(b))`: ascending by key, earlier elements first among equal keys. */
  function SortBy<T(==)>(s: seq<T>, key: T -> real): (r: seq<T>)
    ensures SortedBy(r, key)
    ensures multiset(r) == multiset(s)
  {
    if s == [] then []
    else
      assert s == [s[0]] + s[1..];
      Insert(s[0], SortBy(s[1..], key), key)
  }

  /** The elements of `s` whose key is `v`, in their order in `s`. */
  function KeyRun<T>(s: seq<T>, key: T -> real, v: real): seq<T> {
    if s == [] then [] else (if key(s[0]) == v then [s[0]] else []) + KeyRun(s[1..], key, v)
  }

  lemma {:induction false} KeyRunConcat<T>(a: seq<T>, b: seq<T>, key: T -> real, v: real)
    ensures KeyRun(a + b, key, v) == KeyRun(a, key, v) + KeyRun(b, key, v)
    decreases |a|
  {
    if a == [] {
      assert a + b == b;
    } else {
      var h := if key(a[0]) == v then [a[0]] else [];
      assert (a + b)[0] == a[0] && (a + b)[1..] == a[1..] + b;
      assert KeyRun(a + b, key, v) == h + KeyRun(a[1..] + b, key, v);
      KeyRunConcat(a[1..], b, key, v);
      assert KeyRun(a, key, v) == h + KeyRun(a[1..], key, v);
      assert h + (KeyRun(a[1..], key, v) + KeyRun(b, key, v)) == (h + KeyRun(a[1..], key, v)) + KeyRun(b, key, v);
    }
  }

  lemma KeyRunCons<T>(a: T, s: seq<T>, key: T -> real, v: real)
    ensures KeyRun([a] + s, key, v) == (if key(a) == v then [a] else []) + KeyRun(s, key, v)
  {
    assert ([a] + s)[0] == a && ([a] + s)[1..] == s;
  }

  /** `Insert` places `x` before every element of equal key and after every smaller one. */
  lemma {:induction false} InsertKeyRun<T>(x: T, t: seq<T>, key: T -> real, v: real)
    requires SortedBy(t, key)
    ensures KeyRun(Insert(x, t, key), key, v) == (if key(x) == v then [x] else []) + KeyRun(t, key, v)
    decreases |t|
  {
    if t == [] || key(x) <= key(t[0]) {
      assert Insert(x, t, key) == [x] + t;
      KeyRunCons(x, t, key, v);
    } else {
      var rest := Insert(x, t[1..], key);
      assert SortedBy(t[1..], key);
      InsertKeyRun(x, t[1..], key, v);
      assert Insert(x, t, key) == [t[0]] + rest;
      KeyRunCons(t[0], rest, key, v);
      assert t == [t[0]] + t[1..];
      KeyRunCons(t[0], t[1..], key, v);
      if key(t[0]) == v {
        assert KeyRun(rest, key, v) == KeyRun(t[1..], key, v);
      } else {
        assert KeyRun(t, key, v) == KeyRun(t[1..], key, v);
      }
    }
  }

  /** The sort is stable: elements of equal key keep their relative order. */
  lemma {:induction false} SortByStable<T>(s: seq<T>, key: T -> real, v: real)
    ensures KeyRun(SortBy(s, key), key, v) == KeyRun(s, key, v)
    decreases |s|
  {
    if s != [] {
      SortByStable(s[1..], key, v);
      InsertKeyRun(s[0], SortBy(s[1..], key), key, v);
    }
  }

  /** Within any prefix of the sort, the elements of one key are a prefix of those in the input, in order. */
  lemma SortedPrefixStable<T>(s: seq<T>, key: T -> real, e: nat, v: real)
    requires e <= |SortBy(s, key)|
    ensures KeyRun(SortBy(s, key)[..e], key, v) <= KeyRun(s, key, v)
  {
    var sorted := SortBy(s, key);
    assert sorted == sorted[..e] + sorted[e..];
    SortByStable(s, key, v);
    KeyRunConcat(sorted[..e], sorted[e..], key, v);
  }

  /**
   * The first `e` elements of a sorted permutation of `s` are taken from
   * `s`, and every element of `s` left over has a key no smaller than any
   * of them.
   */
  lemma TopSlice<T>(s: seq<T>, t: seq<T>, key: T -> real, e: nat)
    requires SortedBy(t, key) && multiset(t) == multiset(s) && e <= |t|
    ensures multiset(t[..e]) <= multiset(s)
    ensures forall b, i :: b in multiset(s) - multiset(t[..e]) && 0 <= i < e ==> key(t[i]) <= key(b)
  {
    assert t == t[..e] + t[e..];
    assert multiset(s) - multiset(t[..e]) == multiset(t[e..]);
    forall b, i | b in multiset(s) - multiset(t[..e]) && 0 <= i < e ensures key(t[i]) <= key(b) {
      assert b in t[e..];
      var k :| 0 <= k < |t[e..]| && t[e..][k] == b;
      assert t[e + k] == b;
    }
  }

  /** The first and last elements of a sorted permutation are the least and greatest keys. */
  lemma SortedExtremes<T>(s: seq<T>, key: T -> real)
    requires |s| >= 1
    ensures |SortBy(s, key)| == |s|
    ensures SortBy(s, key)[0] in s && SortBy(s, key)[|s| - 1] in s
    ensures forall i :: 0 <= i < |s| ==>
      key(SortBy(s, key)[0]) <= key(s[i]) <= key(SortBy(s, key)[|s| - 1])
  {
    PermutedExtremes(s, SortBy(s, key), key);
  }

  /** The same for any sorted permutation `t` of `s`. */
  lemma PermutedExtremes<T>(s: seq<T>, t: seq<T>, key: T -> real)
    requires |s| >= 1 && SortedBy(t, key) && multiset(t) == multiset(s)
    ensures |t| == |s|
    ensures t[0] in s && t[|s| - 1] in s
    ensures forall i :: 0 <= i < |s| ==> key(t[0]) <= key(s[i]) <= key(t[|s| - 1])
  {
    assert |t| == |s| by { assert |multiset(t)| == |multiset(s)|; }
    assert t[0] in multiset(s) by { assert t[0] in multiset(t); }
    assert t[|t| - 1] in multiset(s) by { assert t[|t| - 1] in multiset(t); }
    forall i | 0 <= i < |s| ensures key(t[0]) <= key(s[i]) <= key(t[|t| - 1]) {
      PermutedBetween(s, t, key, i);
    }
  }

  /** Every element of `s` lies, by key, between the ends of a sorted permutation of `s`. */
  lemma PermutedBetween<T>(s: seq<T>, t: seq<T>, key: T -> real, i: nat)
    requires SortedBy(t, key) && multiset(t) == multiset(s) && i < |s|
    ensures |t| >= 1 && key(t[0]) <= key(s[i]) <= key(t[|t| - 1])
  {
    assert s[i] in multiset(s);
    assert s[i] in multiset(t);
    SortedMember(t, s[i], key);
  }

  lemma SortedMember<T>(t: seq<T>, x: T, key: T -> real)
    requires SortedBy(t, key) && x in t
    ensures key(t[0]) <= key(x) <= key(t[|t| - 1])
  {
    var j :| 0 <= j < |t| && t[j] == x;
    if j > 0 { assert key(t[0]) <= key(t[j]); }
    if j < |t| - 1 { assert key(t[j]) <= key(t[|t| - 1]); }
  }

  function Identity(x: real): real { x }

  /** `[...s].sort((a, b) => a - b)` on numbers. */
  function SortAscending(s: seq<real>): (r: seq<real>)
    ensures |r| == |s|
    ensures forall i, j :: 0 <= i < j < |r| ==> r[i] <= r[j]
    ensures multiset(r) == multiset(s)
  {
    var r := SortBy(s, Identity);
    assert |r| == |multiset(r)| == |multiset(s)| == |s|;
    assert forall i, j :: 0 <= i < j < |r| ==> Identity(r[i]) <= Identity(r[j]);
    r
  }

  // ---------------------------------------------------------------------------
  // Sums
  // ---------------------------------------------------------------------------

  /** `s.reduce((a, b) => a + b, 0)`, a left fold. */
  function Sum(s: seq<real>): real {
    if s == [] then 0.0 else Sum(s[..|s| - 1]) + s[|s| - 1]
  }

  /** A sum of `n` values lies between `n` times a lower and `n` times an upper bound. */
  lemma {:induction false} SumBounds(s: seq<real>, lo: real, hi: real)
    requires forall i :: 0 <= i < |s| ==> lo <= s[i] <= hi
    ensures |s| as real * lo <= Sum(s) <= |s| as real * hi
    decreases |s|
  {
    if s != [] {
      var init := s[..|s| - 1];
      SumBounds(init, lo, hi);
      assert (|init| as real + 1.0) * lo == |init| as real * lo + lo;
      assert (|init| as real + 1.0) * hi == |init| as real * hi + hi;
    }
  }

  /** The mean of a non-empty sequence lies between its bounds. */
  lemma MeanBounds(s: seq<real>, lo: real, hi: real)
    requires |s| >= 1
    requires forall i :: 0 <= i < |s| ==> lo <= s[i] <= hi
    ensures lo <= Sum(s) / |s| as real <= hi
  {
    SumBounds(s, lo, hi);
    var n := |s| as real;
    DivideBounds(Sum(s), n, lo, hi);
  }

  lemma DivideBounds(total: real, n: real, lo: real, hi: real)
    requires n > 0.0 && n * lo <= total <= n * hi
    ensures lo <= total / n <= hi
  {
    assert total / n * n == total;
  }
}
