/** Python's `sorted(xs, key=...)` as a function, and why the order it returns is the only one. */
module Sorting {

  /** `le` is a total order: any two values compare, and only equal values compare both ways. */
  ghost predicate TotalOrder<K(!new)>(le: (K, K) -> bool) {
    && (forall x, y :: le(x, y) || le(y, x))
    && (forall x, y :: le(x, y) && le(y, x) ==> x == y)
    && (forall x, y, z :: le(x, y) && le(y, z) ==> le(x, z))
  }

  function InsertBy<T, K>(x: T, xs: seq<T>, key: T -> K, le: (K, K) -> bool): (r: seq<T>)
    ensures multiset(r) == multiset([x]) + multiset(xs)
  {
    if xs == [] || le(key(x), key(xs[0])) then
      [x] + xs
    else
      assert xs == [xs[0]] + xs[1..];
      [xs[0]] + InsertBy(x, xs[1..], key, le)
  }

  /** Stable: an element precedes every later element with an equal key. */
  function SortBy<T, K>(xs: seq<T>, key: T -> K, le: (K, K) -> bool): (r: seq<T>)
    ensures multiset(r) == multiset(xs)
  {
    if xs == [] then
      []
    else
      assert xs == [xs[0]] + xs[1..];
      InsertBy(xs[0], SortBy(xs[1..], key, le), key, le)
  }

  function Keys<T, K>(xs: seq<T>, key: T -> K): (ks: seq<K>)
    ensures |ks| == |xs|
    ensures forall i :: 0 <= i < |xs| ==> ks[i] == key(xs[i])
  {
    seq(|xs|, i requires 0 <= i < |xs| => key(xs[i]))
  }

  function Itself<K>(k: K): K { k }

  ghost predicate Ascending<K>(ks: seq<K>, le: (K, K) -> bool) {
    forall i, j :: 0 <= i < j < |ks| ==> le(ks[i], ks[j])
  }

  ghost predicate NoRepeats<K>(ks: seq<K>) {
    forall i, j :: 0 <= i < j < |ks| ==> ks[i] != ks[j]
  }

  lemma {:induction false} SameElements<T>(xs: seq<T>, ys: seq<T>)
    requires multiset(xs) == multiset(ys)
    ensures |xs| == |ys|
    ensures forall x :: x in xs <==> x in ys
  {
    assert |multiset(xs)| == |multiset(ys)|;
    forall x ensures x in xs <==> x in ys {
      assert x in xs <==> x in multiset(xs);
      assert x in ys <==> x in multiset(ys);
    }
  }

  lemma {:induction false} SortByKeepsElements<T, K>(xs: seq<T>, key: T -> K, le: (K, K) -> bool)
    ensures |SortBy(xs, key, le)| == |xs|
    ensures forall x :: x in SortBy(xs, key, le) <==> x in xs
  {
    SameElements(SortBy(xs, key, le), xs);
  }

  lemma {:induction false} InsertedFrom<T, K>(x: T, xs: seq<T>, key: T -> K, le: (K, K) -> bool, j: nat)
    requires j < |InsertBy(x, xs, key, le)|
    ensures var y := InsertBy(x, xs, key, le)[j]; y == x || y in xs
  {
    if xs != [] && !le(key(x), key(xs[0])) && j > 0 {
      InsertedFrom(x, xs[1..], key, le, j - 1);
    }
  }

  lemma {:induction false} InsertByAscends<T, K(!new)>(x: T, xs: seq<T>, key: T -> K, le: (K, K) -> bool)
    requires TotalOrder(le) && Ascending(Keys(xs, key), le)
    ensures Ascending(Keys(InsertBy(x, xs, key, le), key), le)
  {
    var ks := Keys(xs, key);
    if xs == [] {
    } else if le(key(x), key(xs[0])) {
      forall j | 0 <= j < |xs| ensures le(key(x), ks[j]) {
        assert le(ks[0], ks[j]);
      }
    } else {
      assert Ascending(Keys(xs[1..], key), le) by {
        assert forall i :: 0 <= i < |xs| - 1 ==> Keys(xs[1..], key)[i] == ks[i + 1];
      }
      InsertByAscends(x, xs[1..], key, le);
      var rest := InsertBy(x, xs[1..], key, le);
      forall j | 0 <= j < |rest| ensures le(ks[0], Keys(rest, key)[j]) {
        InsertedFrom(x, xs[1..], key, le, j);
        if rest[j] != x {
          var i :| 0 <= i < |xs| - 1 && xs[1..][i] == rest[j];
          assert le(ks[0], ks[i + 1]);
        }
      }
      var all := [xs[0]] + rest;
      forall i, j | 0 <= i < j < |all| ensures le(Keys(all, key)[i], Keys(all, key)[j]) {
        if i > 0 {
          assert le(Keys(rest, key)[i - 1], Keys(rest, key)[j - 1]);
        }
      }
    }
  }

  lemma {:induction false} SortByAscends<T, K(!new)>(xs: seq<T>, key: T -> K, le: (K, K) -> bool)
    requires TotalOrder(le)
    ensures Ascending(Keys(SortBy(xs, key, le), key), le)
  {
    if xs != [] {
      SortByAscends(xs[1..], key, le);
      InsertByAscends(xs[0], SortBy(xs[1..], key, le), key, le);
    }
  }

  /** Two ascending listings of the same multiset are the same listing. */
  lemma {:induction false} AscendingIsUnique<K(!new)>(xs: seq<K>, ys: seq<K>, le: (K, K) -> bool)
    requires TotalOrder(le)
    requires Ascending(xs, le) && Ascending(ys, le)
    requires multiset(xs) == multiset(ys)
    ensures xs == ys
  {
    SameElements(xs, ys);
    if xs != [] {
      assert xs[0] in ys && ys[0] in xs;
      var i :| 0 <= i < |ys| && ys[i] == xs[0];
      var j :| 0 <= j < |xs| && xs[j] == ys[0];
      assert le(ys[0], ys[i]) && le(xs[0], xs[j]);
      TailOf(xs, le);
      TailOf(ys, le);
      AscendingIsUnique(xs[1..], ys[1..], le);
    }
  }

  lemma {:induction false} TailOf<K>(xs: seq<K>, le: (K, K) -> bool)
    requires xs != [] && Ascending(xs, le)
    ensures xs == [xs[0]] + xs[1..]
    ensures multiset(xs[1..]) == multiset(xs) - multiset{xs[0]}
    ensures Ascending(xs[1..], le)
  {
    assert xs == [xs[0]] + xs[1..];
    assert multiset(xs) == multiset{xs[0]} + multiset(xs[1..]);
  }

  lemma {:induction false} InsertByKeys<T, K>(x: T, xs: seq<T>, key: T -> K, le: (K, K) -> bool)
    ensures Keys(InsertBy(x, xs, key, le), key) == InsertBy(key(x), Keys(xs, key), Itself, le)
  {
    if xs == [] || le(key(x), key(xs[0])) {
      KeysSplit(x, xs, key);
    } else {
      InsertByKeys(x, xs[1..], key, le);
      KeysTail(xs, key);
      KeysSplit(xs[0], InsertBy(x, xs[1..], key, le), key);
    }
  }

  lemma {:induction false} KeysSplit<T, K>(x: T, xs: seq<T>, key: T -> K)
    ensures Keys([x] + xs, key) == [key(x)] + Keys(xs, key)
  {}

  lemma {:induction false} KeysTail<T, K>(xs: seq<T>, key: T -> K)
    requires xs != []
    ensures Keys(xs, key)[1..] == Keys(xs[1..], key)
  {}

  /** Sorting by a key and then reading the keys is sorting the keys. */
  lemma {:induction false} SortByKeys<T, K>(xs: seq<T>, key: T -> K, le: (K, K) -> bool)
    ensures Keys(SortBy(xs, key, le), key) == SortBy(Keys(xs, key), Itself, le)
  {
    if xs != [] {
      SortByKeys(xs[1..], key, le);
      InsertByKeys(xs[0], SortBy(xs[1..], key, le), key, le);
      KeysTail(xs, key);
    }
  }

  lemma {:induction false} KeysOfItself<K>(ks: seq<K>)
    ensures Keys(ks, Itself) == ks
  {}

  /** Sorting forgets the order of its input: equal multisets of keys sort to equal keys. */
  lemma {:induction false} SortForgetsOrder<K(!new)>(xs: seq<K>, ys: seq<K>, le: (K, K) -> bool)
    requires TotalOrder(le)
    ensures SortBy(xs, Itself, le) == SortBy(ys, Itself, le) <==> multiset(xs) == multiset(ys)
  {
    var sx, sy := SortBy(xs, Itself, le), SortBy(ys, Itself, le);
    SortByAscends(xs, Itself, le);
    SortByAscends(ys, Itself, le);
    KeysOfItself(sx);
    KeysOfItself(sy);
    if multiset(xs) == multiset(ys) {
      AscendingIsUnique(sx, sy, le);
    }
  }

  lemma {:induction false} NoRepeatsMultiset<T>(xs: seq<T>, ys: seq<T>)
    requires NoRepeats(xs) && NoRepeats(ys)
    requires forall x :: x in xs <==> x in ys
    ensures multiset(xs) == multiset(ys)
  {
    forall x ensures multiset(xs)[x] == multiset(ys)[x] {
      CountOnce(xs, x);
      CountOnce(ys, x);
    }
  }

  lemma {:induction false} CountOnce<T>(xs: seq<T>, x: T)
    requires NoRepeats(xs)
    ensures multiset(xs)[x] == if x in xs then 1 else 0
  {
    if xs != [] {
      assert xs == [xs[0]] + xs[1..];
      assert multiset(xs) == multiset([xs[0]]) + multiset(xs[1..]);
      CountOnce(xs[1..], x);
      if x == xs[0] {
        assert x !in xs[1..];
      }
    }
  }

  /** Elements with distinct keys, listed in any order, sort by key to the same listing. */
  lemma {:induction false} SortByIgnoresOrder<T(!new), K(!new)>(xs: seq<T>, ys: seq<T>, key: T -> K, le: (K, K) -> bool)
    requires TotalOrder(le)
    requires NoRepeats(Keys(xs, key)) && NoRepeats(Keys(ys, key))
    requires forall x :: x in xs <==> x in ys
    ensures SortBy(xs, key, le) == SortBy(ys, key, le)
  {
    SortByKeepsElements(xs, key, le);
    SortByKeepsElements(ys, key, le);
    forall k ensures k in Keys(xs, key) <==> k in Keys(ys, key) {
      KeyStays(xs, ys, key, k);
      KeyStays(ys, xs, key, k);
    }
    NoRepeatsMultiset(Keys(xs, key), Keys(ys, key));
    SortByKeys(xs, key, le);
    SortByKeys(ys, key, le);
    SortForgetsOrder(Keys(xs, key), Keys(ys, key), le);
    SameKeysSameListing(SortBy(xs, key, le), SortBy(ys, key, le), xs, key);
  }

  lemma {:induction false} KeyStays<T, K>(xs: seq<T>, ys: seq<T>, key: T -> K, k: K)
    requires forall x :: x in xs ==> x in ys
    ensures k in Keys(xs, key) ==> k in Keys(ys, key)
  {
    if k in Keys(xs, key) {
      var i :| 0 <= i < |xs| && Keys(xs, key)[i] == k;
      assert xs[i] in ys;
      var j :| 0 <= j < |ys| && ys[j] == xs[i];
      assert Keys(ys, key)[j] == k;
    }
  }

  /** Where no key repeats, a listing of the elements is told by its keys. */
  lemma {:induction false} SameKeysSameListing<T, K>(a: seq<T>, b: seq<T>, xs: seq<T>, key: T -> K)
    requires Keys(a, key) == Keys(b, key) && NoRepeats(Keys(xs, key))
    requires (forall x :: x in a ==> x in xs) && (forall x :: x in b ==> x in xs)
    ensures a == b
  {
    assert |a| == |Keys(a, key)| == |Keys(b, key)| == |b|;
    forall i | 0 <= i < |a| ensures a[i] == b[i] {
      assert Keys(a, key)[i] == Keys(b, key)[i];
      assert a[i] in xs && b[i] in xs;
      var m :| 0 <= m < |xs| && xs[m] == a[i];
      var n :| 0 <= n < |xs| && xs[n] == b[i];
      assert Keys(xs, key)[m] == Keys(xs, key)[n];
    }
  }

  lemma {:induction false} TwiceCounts<T>(xs: seq<T>, i: nat, j: nat)
    requires i < j < |xs| && xs[i] == xs[j]
    ensures multiset(xs)[xs[i]] >= 2
  {
    var before, after := xs[..j], xs[j..];
    assert xs == before + after;
    assert multiset(xs) == multiset(before) + multiset(after);
    assert before[i] in multiset(before) && after[0] in multiset(after);
  }

  lemma {:induction false} SortByNoRepeats<T, K>(xs: seq<T>, key: T -> K, le: (K, K) -> bool)
    requires NoRepeats(Keys(xs, key))
    ensures NoRepeats(Keys(SortBy(xs, key, le), key))
  {
    var s := SortBy(xs, key, le);
    SortByKeys(xs, key, le);
    var ks, ss := Keys(xs, key), Keys(s, key);
    forall i, j | 0 <= i < j < |ss| ensures ss[i] != ss[j] {
      if ss[i] == ss[j] {
        TwiceCounts(ss, i, j);
        CountOnce(ks, ss[i]);
        assert false;
      }
    }
  }

  lemma {:induction false} Removed<T>(xs: seq<T>, i: nat)
    requires i < |xs|
    ensures multiset(xs) == multiset(xs[..i] + xs[i + 1..]) + multiset{xs[i]}
  {
    assert xs == xs[..i] + [xs[i]] + xs[i + 1..];
  }

  lemma {:induction false} CancelOne<T>(a: multiset<T>, b: multiset<T>, x: T)
    requires a + multiset{x} == b + multiset{x}
    ensures a == b
  {
    assert a == (a + multiset{x}) - multiset{x};
    assert b == (b + multiset{x}) - multiset{x};
  }

  lemma {:induction false} KeysRemoved<T, K>(xs: seq<T>, i: nat, key: T -> K)
    requires i < |xs|
    ensures multiset(Keys(xs, key)) == multiset(Keys(xs[..i] + xs[i + 1..], key)) + multiset{key(xs[i])}
  {
    var ks := Keys(xs, key);
    Removed(ks, i);
    assert ks[..i] + ks[i + 1..] == Keys(xs[..i] + xs[i + 1..], key);
  }

  /** The first of `xs` taken from both. */
  lemma {:induction false} OneLess<T>(xs: seq<T>, ys: seq<T>, i: nat)
    requires multiset(xs) == multiset(ys) && xs != [] && i < |ys| && ys[i] == xs[0]
    ensures multiset(xs[..0] + xs[1..]) == multiset(ys[..i] + ys[i + 1..])
  {
    Removed(xs, 0);
    Removed(ys, i);
    CancelOne(multiset(xs[..0] + xs[1..]), multiset(ys[..i] + ys[i + 1..]), xs[0]);
  }

  /** Equal multisets have equal multisets of keys. */
  lemma {:induction false} KeysOfMultiset<T, K>(xs: seq<T>, ys: seq<T>, key: T -> K)
    requires multiset(xs) == multiset(ys)
    ensures multiset(Keys(xs, key)) == multiset(Keys(ys, key))
    decreases |xs|
  {
    SameElements(xs, ys);
    if xs != [] {
      assert xs[0] in ys;
      var i :| 0 <= i < |ys| && ys[i] == xs[0];
      OneLess(xs, ys, i);
      KeysOfMultiset(xs[..0] + xs[1..], ys[..i] + ys[i + 1..], key);
      KeysRemoved(xs, 0, key);
      KeysRemoved(ys, i, key);
    }
  }

  /** Where the key tells elements apart, equal multisets of keys come from equal multisets. */
  lemma {:induction false} KeysReflectMultiset<T, K>(xs: seq<T>, ys: seq<T>, key: T -> K)
    requires forall x, y :: x in xs && y in ys && key(x) == key(y) ==> x == y
    requires multiset(Keys(xs, key)) == multiset(Keys(ys, key))
    ensures multiset(xs) == multiset(ys)
    decreases |xs|
  {
    var kx, ky := Keys(xs, key), Keys(ys, key);
    assert |multiset(kx)| == |multiset(ky)|;
    if xs != [] {
      var k := kx[0];
      assert k in multiset(kx);
      assert k in ky;
      var i :| 0 <= i < |ky| && ky[i] == k;
      assert xs[0] in xs && ys[i] in ys;
      var xt, yt := xs[..0] + xs[1..], ys[..i] + ys[i + 1..];
      Removed(xs, 0);
      Removed(ys, i);
      KeysRemoved(xs, 0, key);
      KeysRemoved(ys, i, key);
      CancelOne(multiset(Keys(xt, key)), multiset(Keys(yt, key)), k);
      assert forall x :: x in xt ==> x in xs;
      assert forall y :: y in yt ==> y in ys;
      KeysReflectMultiset(xt, yt, key);
    }
  }
}
