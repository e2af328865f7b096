/** Sequences used as the key order of a PHP array.

    PHP arrays are ordered hash maps: `$a[$k] = $v` keeps the position of an
    existing key and appends a new one at the end, and `unset($a[$k])`
    removes the key and leaves the other keys in their order. The model keeps
    that order as a sequence of keys without duplicates. */
module Seqs {

  /** No element occurs twice. */
  predicate NoDup<T(==)>(s: seq<T>) {
    forall i, j :: 0 <= i < j < |s| ==> s[i] != s[j]
  }

  /** The key order after `$a[$x] = ...`. */
  function AppendIfAbsent<T(==)>(s: seq<T>, x: T): seq<T> {
    if x in s then s else s + [x]
  }

  /** The key order after `unset($a[$x])`. */
  function Without<T(==)>(s: seq<T>, x: T): seq<T> {
    if s == [] then []
    else if s[0] == x then Without(s[1..], x)
    else [s[0]] + Without(s[1..], x)
  }

  /** The key order after assigning the keys of `xs` one by one, in order. */
  function AppendAll<T(==)>(s: seq<T>, xs: seq<T>): seq<T> {
    if xs == [] then s
    else AppendIfAbsent(AppendAll(s, xs[..|xs| - 1]), xs[|xs| - 1])
  }

  /** Assigning a key: it is then present, the order stays duplicate-free, an
      existing key does not move and a new key goes last. */
  lemma AppendIfAbsentSpec<T>(s: seq<T>, x: T)
    requires NoDup(s)
    ensures NoDup(AppendIfAbsent(s, x))
    ensures forall y :: y in AppendIfAbsent(s, x) <==> y in s || y == x
    ensures x in s ==> AppendIfAbsent(s, x) == s
    ensures x !in s ==> AppendIfAbsent(s, x) == s + [x]
  {
  }

  /** Unsetting a key removes exactly that key. */
  lemma {:induction false} WithoutMembers<T>(s: seq<T>, x: T)
    ensures forall y :: y in Without(s, x) <==> y in s && y != x
  {
    if s != [] {
      WithoutMembers(s[1..], x);
      assert forall y :: y in s <==> y == s[0] || y in s[1..];
    }
  }

  /** Unsetting keeps the order duplicate-free. */
  lemma {:induction false} WithoutNoDup<T>(s: seq<T>, x: T)
    requires NoDup(s)
    ensures NoDup(Without(s, x))
  {
    if s != [] {
      assert NoDup(s[1..]);
      WithoutNoDup(s[1..], x);
      WithoutMembers(s[1..], x);
      if s[0] != x {
        assert s[0] !in s[1..];
        var r := [s[0]] + Without(s[1..], x);
        forall i, j | 0 <= i < j < |r| ensures r[i] != r[j] {
          if i == 0 {
            assert r[j] in Without(s[1..], x);
          } else {
            assert r[i] == Without(s[1..], x)[i - 1];
            assert r[j] == Without(s[1..], x)[j - 1];
          }
        }
      }
    }
  }

  /** Unsetting an absent key changes nothing. */
  lemma {:induction false} WithoutAbsent<T>(s: seq<T>, x: T)
    requires x !in s
    ensures Without(s, x) == s
  {
    if s != [] {
      assert x !in s[1..];
      WithoutAbsent(s[1..], x);
      assert [s[0]] + s[1..] == s;
    }
  }

  /** Unsetting a present key cuts it out and leaves the other keys in their
      relative order. */
  lemma {:induction false} WithoutSplice<T>(s: seq<T>, x: T, i: nat)
    requires NoDup(s) && i < |s| && s[i] == x
    ensures Without(s, x) == s[..i] + s[i + 1..]
  {
    if i == 0 {
      assert x !in s[1..] by {
        forall j | 0 <= j < |s[1..]| ensures s[1..][j] != x {
          assert s[1..][j] == s[j + 1];
        }
      }
      WithoutAbsent(s[1..], x);
    } else {
      assert NoDup(s[1..]);
      assert s[0] != x;
      WithoutSplice(s[1..], x, i - 1);
      assert s[1..][..i - 1] == s[1..i];
      assert s[1..][i..] == s[i + 1..];
      assert [s[0]] + s[1..i] == s[..i];
    }
  }

  /** What assigning the keys of `xs` in order yields: the old keys keep their
      places at the front, every key of `xs` is present, and no key occurs twice. */
  lemma {:induction false} AppendAllSpec<T>(s: seq<T>, xs: seq<T>)
    requires NoDup(s)
    ensures NoDup(AppendAll(s, xs))
    ensures forall y :: y in AppendAll(s, xs) <==> y in s || y in xs
    ensures |s| <= |AppendAll(s, xs)| && AppendAll(s, xs)[..|s|] == s
  {
    if xs != [] {
      var init := xs[..|xs| - 1];
      AppendAllSpec(s, init);
      AppendIfAbsentSpec(AppendAll(s, init), xs[|xs| - 1]);
      assert forall y :: y in xs <==> y in init || y == xs[|xs| - 1] by {
        assert xs == init + [xs[|xs| - 1]];
      }
    }
  }

  /** Assigning fresh, distinct keys appends them all in their order. */
  lemma {:induction false} AppendAllDistinct<T>(s: seq<T>, xs: seq<T>)
    requires NoDup(xs)
    requires forall y :: y in xs ==> y !in s
    ensures AppendAll(s, xs) == s + xs
  {
    if xs != [] {
      var init := xs[..|xs| - 1];
      var last := xs[|xs| - 1];
      assert NoDup(init);
      AppendAllDistinct(s, init);
      assert last !in init by {
        forall j | 0 <= j < |init| ensures init[j] != last {
          assert init[j] == xs[j];
        }
      }
      assert last !in s;
      assert xs == init + [last];
    }
  }
  /** Assigning a longer run of keys only extends the order of a shorter run:
      earlier keys keep their places. */
  lemma {:induction false} AppendAllPrefix<T>(s: seq<T>, xs: seq<T>, k: nat)
    requires k <= |xs|
    ensures |AppendAll(s, xs[..k])| <= |AppendAll(s, xs)|
    ensures AppendAll(s, xs)[..|AppendAll(s, xs[..k])|] == AppendAll(s, xs[..k])
  {
    if k < |xs| {
      var init := xs[..|xs| - 1];
      assert init[..k] == xs[..k];
      AppendAllPrefix(s, init, k);
      var a := AppendAll(s, init);
      var b := AppendAll(s, xs[..k]);
      assert AppendAll(s, xs) == AppendIfAbsent(a, xs[|xs| - 1]);
      assert AppendIfAbsent(a, xs[|xs| - 1])[..|a|] == a;
      assert a[..|b|] == b;
    } else {
      assert xs[..k] == xs;
    }
  }

  /** Assigning the keys of `xs` to an empty array keeps the first occurrence
      of each key and drops the later ones: the result has each key of `xs`
      once, the keys of every prefix of `xs` come first and in the same order,
      and a key is appended exactly when no earlier position held it. */
  lemma DedupSpec<T>(xs: seq<T>)
    ensures NoDup(AppendAll([], xs))
    ensures forall y :: y in AppendAll([], xs) <==> y in xs
    ensures NoDup(xs) ==> AppendAll([], xs) == xs
    ensures forall k :: 0 <= k <= |xs| ==>
              |AppendAll([], xs[..k])| <= |AppendAll([], xs)| &&
              AppendAll([], xs)[..|AppendAll([], xs[..k])|] == AppendAll([], xs[..k])
    ensures forall k :: 0 <= k < |xs| ==>
              (xs[k] in xs[..k] <==> AppendAll([], xs[..k + 1]) == AppendAll([], xs[..k])) &&
              (xs[k] !in xs[..k] ==> AppendAll([], xs[..k + 1]) == AppendAll([], xs[..k]) + [xs[k]])
  {
    AppendAllSpec([], xs);
    if NoDup(xs) {
      AppendAllDistinct([], xs);
    }
    forall k | 0 <= k <= |xs|
      ensures |AppendAll([], xs[..k])| <= |AppendAll([], xs)|
      ensures AppendAll([], xs)[..|AppendAll([], xs[..k])|] == AppendAll([], xs[..k])
    {
      AppendAllPrefix([], xs, k);
    }
    forall k | 0 <= k < |xs|
      ensures xs[k] in xs[..k] <==> AppendAll([], xs[..k + 1]) == AppendAll([], xs[..k])
      ensures xs[k] !in xs[..k] ==> AppendAll([], xs[..k + 1]) == AppendAll([], xs[..k]) + [xs[k]]
    {
      DedupStep(xs, k);
    }
  }

  /** One more key either is already present or goes last. */
  lemma DedupStep<T>(xs: seq<T>, k: nat)
    requires k < |xs|
    ensures xs[k] in xs[..k] <==> AppendAll([], xs[..k + 1]) == AppendAll([], xs[..k])
    ensures xs[k] !in xs[..k] ==> AppendAll([], xs[..k + 1]) == AppendAll([], xs[..k]) + [xs[k]]
  {
    var p := xs[..k];
    assert xs[..k + 1][..k] == p;
    AppendAllSpec([], p);
    var a := AppendAll([], p);
    assert AppendAll([], xs[..k + 1]) == AppendIfAbsent(a, xs[k]);
    if xs[k] !in p {
      assert |a + [xs[k]]| == |a| + 1;
    }
  }
}
