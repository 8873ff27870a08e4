/** Filtering a listing and indexing it by a key, as Python's comprehensions do. */
module Indexing {
  import opened Sorting

  function Filter<T(!new)>(xs: seq<T>, keep: T -> bool): (r: seq<T>)
    ensures forall x :: x in r <==> x in xs && keep(x)
  {
    if xs == [] then []
    else
      var front, x := xs[..|xs| - 1], xs[|xs| - 1];
      assert xs == front + [x];
      Filter(front, keep) + (if keep(x) then [x] else [])
  }

  /** A later element replaces an earlier one that has its key. */
  function Index<T(!new), K(!new)>(xs: seq<T>, key: T -> K): (m: map<K, T>)
    ensures |m| <= |xs|
  {
    if xs == [] then map[]
    else
      var front, x := xs[..|xs| - 1], xs[|xs| - 1];
      Index(front, key)[key(x) := x]
  }

  lemma {:induction false} IndexAppend<T(!new), K(!new)>(xs: seq<T>, x: T, key: T -> K)
    ensures Index(xs + [x], key) == Index(xs, key)[key(x) := x]
  {
    assert (xs + [x])[..|xs|] == xs;
  }

  lemma {:induction false} IndexHolds<T(!new), K(!new)>(xs: seq<T>, key: T -> K)
    ensures forall x :: x in xs ==> key(x) in Index(xs, key)
    ensures forall k :: k in Index(xs, key) ==> Index(xs, key)[k] in xs && key(Index(xs, key)[k]) == k
  {
    if xs != [] {
      var front, x := xs[..|xs| - 1], xs[|xs| - 1];
      IndexHolds(front, key);
      assert xs == front + [x];
    }
  }

  /** The assertion `len(index) == len(listing)` is the assertion that no key repeats. */
  lemma {:induction false} CardinalityDetectsRepeats<T(!new), K(!new)>(xs: seq<T>, key: T -> K)
    ensures |Index(xs, key)| == |xs| <==> NoRepeats(Keys(xs, key))
  {
    if xs != [] {
      var front, x := xs[..|xs| - 1], xs[|xs| - 1];
      CardinalityDetectsRepeats(front, key);
      assert Keys(xs, key) == Keys(front, key) + [key(x)];
      NoRepeatsAppend(Keys(front, key), key(x));
      IndexKeys(front, key, key(x));
      MapGrows(Index(front, key), key(x), x);
      assert Index(xs, key) == Index(front, key)[key(x) := x];
    }
  }

  lemma {:induction false} MapGrows<K, T>(m: map<K, T>, k: K, x: T)
    ensures |m[k := x]| == if k in m then |m| else |m| + 1
  {
    assert m[k := x].Keys == m.Keys + {k};
    assert |m[k := x]| == |m[k := x].Keys| && |m| == |m.Keys|;
  }

  lemma {:induction false} NoRepeatsAppend<K>(ks: seq<K>, k: K)
    ensures NoRepeats(ks + [k]) <==> NoRepeats(ks) && k !in ks
  {
    var all := ks + [k];
    if NoRepeats(all) {
      forall i, j | 0 <= i < j < |ks| ensures ks[i] != ks[j] { assert all[i] != all[j]; }
      forall i | 0 <= i < |ks| ensures ks[i] != k { assert all[i] != all[|ks|]; }
    }
  }

  lemma {:induction false} IndexKeys<T(!new), K(!new)>(xs: seq<T>, key: T -> K, k: K)
    ensures k in Index(xs, key) <==> k in Keys(xs, key)
  {
    IndexHolds(xs, key);
    if k in Index(xs, key) {
      var x := Index(xs, key)[k];
      var i :| 0 <= i < |xs| && xs[i] == x;
      assert Keys(xs, key)[i] == k;
    }
    if k in Keys(xs, key) {
      var i :| 0 <= i < |xs| && Keys(xs, key)[i] == k;
      assert xs[i] in xs;
    }
  }

  lemma {:induction false} IndexFinds<T(!new), K(!new)>(xs: seq<T>, key: T -> K, x: T)
    requires NoRepeats(Keys(xs, key)) && x in xs
    ensures key(x) in Index(xs, key) && Index(xs, key)[key(x)] == x
  {
    IndexHolds(xs, key);
    var m := Index(xs, key);
    var i :| 0 <= i < |xs| && xs[i] == x;
    var j :| 0 <= j < |xs| && xs[j] == m[key(x)];
    assert Keys(xs, key)[i] == Keys(xs, key)[j];
  }

  /** Distinct keys make the index forget the order of the listing. */
  lemma {:induction false} IndexForgetsOrder<T(!new), K(!new)>(xs: seq<T>, ys: seq<T>, key: T -> K)
    requires NoRepeats(Keys(xs, key)) && NoRepeats(Keys(ys, key))
    requires forall x :: x in xs <==> x in ys
    ensures Index(xs, key) == Index(ys, key)
  {
    IndexHolds(xs, key);
    IndexHolds(ys, key);
    var a, b := Index(xs, key), Index(ys, key);
    forall k | k in a ensures k in b && b[k] == a[k] { IndexFinds(ys, key, a[k]); }
    forall k | k in b ensures k in a && a[k] == b[k] { IndexFinds(xs, key, b[k]); }
    assert a.Keys == b.Keys;
  }

  lemma {:induction false} FilterKeepsNoRepeats<T(!new), K>(xs: seq<T>, keep: T -> bool, key: T -> K)
    requires NoRepeats(Keys(xs, key))
    ensures NoRepeats(Keys(Filter(xs, keep), key))
  {
    if xs != [] {
      var front, x := xs[..|xs| - 1], xs[|xs| - 1];
      var ks := Keys(xs, key);
      assert NoRepeats(Keys(front, key)) by {
        assert forall i :: 0 <= i < |front| ==> Keys(front, key)[i] == ks[i];
      }
      FilterKeepsNoRepeats(front, keep, key);
      var f := Filter(front, keep);
      if keep(x) {
        forall i | 0 <= i < |f| ensures Keys(f, key)[i] != key(x) {
          assert f[i] in f;
          var j :| 0 <= j < |front| && front[j] == f[i];
          assert ks[j] != ks[|front|];
        }
        assert Keys(f + [x], key) == Keys(f, key) + [key(x)];
      }
    }
  }

  lemma {:induction false} FilterMultiset<T(!new)>(xs: seq<T>, ys: seq<T>, keep: T -> bool)
    requires NoRepeats(xs) && NoRepeats(ys) && forall x :: x in xs <==> x in ys
    ensures multiset(Filter(xs, keep)) == multiset(Filter(ys, keep))
  {
    KeysOfItself(xs);
    KeysOfItself(ys);
    FilterKeepsNoRepeats(xs, keep, Itself);
    FilterKeepsNoRepeats(ys, keep, Itself);
    KeysOfItself(Filter(xs, keep));
    KeysOfItself(Filter(ys, keep));
    NoRepeatsMultiset(Filter(xs, keep), Filter(ys, keep));
  }

  lemma {:induction false} ElementsFromKeys<T, K>(xs: seq<T>, key: T -> K)
    requires NoRepeats(Keys(xs, key))
    ensures NoRepeats(xs)
  {
    forall i, j | 0 <= i < j < |xs| ensures xs[i] != xs[j] {
      assert Keys(xs, key)[i] != Keys(xs, key)[j];
    }
  }

  lemma {:induction false} FilterAppend<T(!new)>(xs: seq<T>, x: T, keep: T -> bool)
    ensures keep(x) ==> Filter(xs + [x], keep) == Filter(xs, keep) + [x]
    ensures !keep(x) ==> Filter(xs + [x], keep) == Filter(xs, keep)
  {
    assert (xs + [x])[..|xs|] == xs;
    assert Filter(xs, keep) + [] == Filter(xs, keep);
  }

  lemma {:induction false} FilterConcat<T(!new)>(xs: seq<T>, ys: seq<T>, keep: T -> bool)
    ensures Filter(xs + ys, keep) == Filter(xs, keep) + Filter(ys, keep)
  {
    if ys == [] {
      assert xs + ys == xs;
    } else {
      var front, y := ys[..|ys| - 1], ys[|ys| - 1];
      assert xs + ys == (xs + front) + [y];
      FilterAppend(xs + front, y, keep);
      FilterConcat(xs, front, keep);
    }
  }

  lemma {:induction false} FilterAll<T(!new)>(xs: seq<T>, keep: T -> bool)
    requires forall x :: x in xs ==> keep(x)
    ensures Filter(xs, keep) == xs
  {
    if xs != [] {
      assert xs == xs[..|xs| - 1] + [xs[|xs| - 1]];
      FilterAll(xs[..|xs| - 1], keep);
    }
  }

  lemma {:induction false} FilterNone<T(!new)>(xs: seq<T>, keep: T -> bool)
    requires forall x :: x in xs ==> !keep(x)
    ensures Filter(xs, keep) == []
  {
    if Filter(xs, keep) != [] {
      assert Filter(xs, keep)[0] in Filter(xs, keep);
    }
  }

  lemma {:induction false} FilterStep<T(!new)>(xs: seq<T>, i: nat, keep: T -> bool)
    requires i < |xs|
    ensures keep(xs[i]) ==> Filter(xs[..i + 1], keep) == Filter(xs[..i], keep) + [xs[i]]
    ensures !keep(xs[i]) ==> Filter(xs[..i + 1], keep) == Filter(xs[..i], keep)
  {
    assert xs[..i + 1] == xs[..i] + [xs[i]];
    FilterAppend(xs[..i], xs[i], keep);
  }

  lemma {:induction false} KeysAppend<T, K>(xs: seq<T>, x: T, key: T -> K)
    ensures Keys(xs + [x], key) == Keys(xs, key) + [key(x)]
  {}

  lemma {:induction false} KeyedBy<T, K>(xs: seq<T>, key: T -> K, k: K)
    ensures k in Keys(xs, key) <==> exists x :: x in xs && key(x) == k
  {
    if k in Keys(xs, key) {
      var i :| 0 <= i < |xs| && Keys(xs, key)[i] == k;
      assert xs[i] in xs;
    }
    if x :| x in xs && key(x) == k {
      var i :| 0 <= i < |xs| && xs[i] == x;
      assert Keys(xs, key)[i] == k;
    }
  }

  /** An element a listing keeps under a key is the only one kept under it. */
  lemma {:induction false} KeptOnce<T(!new), K>(xs: seq<T>, keep: T -> bool, key: T -> K, x: T, y: T)
    requires NoRepeats(Keys(Filter(xs, keep), key))
    requires x in xs && y in xs && keep(x) && keep(y) && key(x) == key(y)
    ensures x == y
  {
    var kept := Filter(xs, keep);
    var i :| 0 <= i < |kept| && kept[i] == x;
    var j :| 0 <= j < |kept| && kept[j] == y;
    assert Keys(kept, key)[i] == Keys(kept, key)[j];
  }

  lemma {:induction false} AppendKeepsNoRepeats<T(!new), K>(xs: seq<T>, x: T, keep: T -> bool, key: T -> K)
    ensures NoRepeats(Keys(Filter(xs + [x], keep), key)) <==>
            NoRepeats(Keys(Filter(xs, keep), key)) &&
            (keep(x) ==> forall y :: y in xs && keep(y) ==> key(y) != key(x))
  {
    FilterAppend(xs, x, keep);
    if keep(x) {
      var kept := Filter(xs, keep);
      KeysAppend(kept, x, key);
      NoRepeatsAppend(Keys(kept, key), key(x));
      KeyedBy(kept, key, key(x));
    }
  }

  /** The elements of `Filter(Keys(Filter(xs, pick), view), keep)` and where they come from. */
  lemma {:induction false} ViewedFrom<T(!new), U(!new)>(
      xs: seq<T>, pick: T -> bool, view: T -> U, keep: U -> bool, u: U)
    ensures u in Filter(Keys(Filter(xs, pick), view), keep) <==> keep(u) && exists x :: x in xs && pick(x) && view(x) == u
  {
    KeyedBy(Filter(xs, pick), view, u);
  }

  /** A view of a listing repeats no key that the listing itself keeps unrepeated. */
  lemma {:induction false} ViewKeepsNoRepeats<T(!new), U(!new), K, L(!new)>(
      xs: seq<T>, pick: T -> bool, view: T -> U, keep: U -> bool, face: U -> L, kept: T -> bool, key: T -> K)
    requires NoRepeats(Keys(Filter(xs, kept), key))
    requires forall x :: x in xs && pick(x) && keep(view(x)) ==> kept(x)
    requires forall x, y :: (x in xs && y in xs && pick(x) && pick(y) && keep(view(x)) && keep(view(y)) &&
                             face(view(x)) == face(view(y))) ==> key(x) == key(y)
    ensures NoRepeats(Keys(Filter(Keys(Filter(xs, pick), view), keep), face))
  {
    if xs != [] {
      var front, x := xs[..|xs| - 1], xs[|xs| - 1];
      assert xs == front + [x];
      AppendKeepsNoRepeats(front, x, kept, key);
      ViewKeepsNoRepeats(front, pick, view, keep, face, kept, key);
      FilterAppend(front, x, pick);
      var seen := Keys(Filter(front, pick), view);
      if pick(x) {
        KeysAppend(Filter(front, pick), x, view);
        AppendKeepsNoRepeats(seen, view(x), keep, face);
        forall u | u in seen && keep(u) && keep(view(x)) ensures face(u) != face(view(x)) {
          ViewedFrom(front, pick, view, keep, u);
        }
      }
    }
  }

  // ---------------------------------------------------------------- sorting and filtering commute

  lemma {:induction false} FilterCommutes<T(!new)>(xs: seq<T>, p: T -> bool, q: T -> bool)
    ensures Filter(Filter(xs, p), q) == Filter(Filter(xs, q), p)
  {
    if xs != [] {
      var front, x := xs[..|xs| - 1], xs[|xs| - 1];
      assert xs == front + [x];
      FilterCommutes(front, p, q);
      FilterAppend(front, x, p);
      FilterAppend(front, x, q);
      FilterAppend(Filter(front, p), x, q);
      FilterAppend(Filter(front, q), x, p);
    }
  }

  lemma {:induction false} AscendingIsFixed<T, K(!new)>(xs: seq<T>, key: T -> K, le: (K, K) -> bool)
    requires TotalOrder(le) && Ascending(Keys(xs, key), le)
    ensures SortBy(xs, key, le) == xs
  {
    if xs != [] {
      var ks := Keys(xs, key);
      assert Ascending(Keys(xs[1..], key), le) by {
        forall i, j | 0 <= i < j < |xs| - 1 ensures le(Keys(xs[1..], key)[i], Keys(xs[1..], key)[j]) {
          assert le(ks[i + 1], ks[j + 1]);
        }
      }
      AscendingIsFixed(xs[1..], key, le);
      assert |xs| > 1 ==> le(ks[0], ks[1]);
    }
  }

  lemma {:induction false} FilterAscends<T(!new), K>(xs: seq<T>, keep: T -> bool, key: T -> K, le: (K, K) -> bool)
    requires Ascending(Keys(xs, key), le)
    ensures Ascending(Keys(Filter(xs, keep), key), le)
  {
    if xs != [] {
      var front, x := xs[..|xs| - 1], xs[|xs| - 1];
      var ks := Keys(xs, key);
      assert xs == front + [x];
      assert forall i :: 0 <= i < |front| ==> Keys(front, key)[i] == ks[i];
      FilterAscends(front, keep, key, le);
      FilterAppend(front, x, keep);
      var kept := Filter(front, keep);
      forall i | 0 <= i < |kept| ensures le(key(kept[i]), key(x)) {
        assert kept[i] in kept;
        var j :| 0 <= j < |front| && front[j] == kept[i];
        assert le(ks[j], ks[|front|]);
      }
    }
  }

  lemma {:induction false} SortOfFilter<T(!new), K(!new)>(xs: seq<T>, keep: T -> bool, key: T -> K, le: (K, K) -> bool)
    requires TotalOrder(le) && NoRepeats(Keys(xs, key))
    ensures SortBy(Filter(xs, keep), key, le) == Filter(SortBy(xs, key, le), keep)
  {
    var a, b := Filter(xs, keep), Filter(SortBy(xs, key, le), keep);
    SortByAscends(xs, key, le);
    FilterAscends(SortBy(xs, key, le), keep, key, le);
    AscendingIsFixed(b, key, le);
    SortByNoRepeats(xs, key, le);
    SortByKeepsElements(xs, key, le);
    FilterKeepsNoRepeats(xs, keep, key);
    FilterKeepsNoRepeats(SortBy(xs, key, le), keep, key);
    SortByIgnoresOrder(a, b, key, le);
  }
}
