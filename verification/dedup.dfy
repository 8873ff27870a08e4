/** Deduplication through a dictionary: alike items share a slot, and the last of them fills it. */
module Dedup {

  /** One insertion: an item alike to a kept one takes its place, any other is appended. */
  function Put<T>(kept: seq<T>, x: T, alike: (T, T) -> bool): seq<T> {
    if kept == [] then [x]
    else if alike(kept[0], x) then [x] + kept[1..]
    else [kept[0]] + Put(kept[1..], x, alike)
  }

  function Deduped<T>(xs: seq<T>, alike: (T, T) -> bool): seq<T> {
    if xs == [] then [] else Put(Deduped(xs[..|xs| - 1], alike), xs[|xs| - 1], alike)
  }

  ghost predicate PartialEquivalence<T(!new)>(alike: (T, T) -> bool) {
    && (forall x, y :: alike(x, y) ==> alike(y, x))
    && (forall x, y, z :: alike(x, y) && alike(y, z) ==> alike(x, z))
  }

  ghost predicate SelfAlike<T>(xs: seq<T>, alike: (T, T) -> bool) {
    forall i :: 0 <= i < |xs| ==> alike(xs[i], xs[i])
  }

  /** No two kept items are alike. */
  ghost predicate Separated<T>(vs: seq<T>, alike: (T, T) -> bool) {
    forall i, j :: 0 <= i < j < |vs| ==> !alike(vs[i], vs[j])
  }

  /** Some kept item is alike to `x`. */
  ghost predicate Represented<T>(x: T, vs: seq<T>, alike: (T, T) -> bool) {
    exists i :: 0 <= i < |vs| && alike(vs[i], x)
  }

  lemma {:induction false} RepresentedSplits<T>(y: T, vs: seq<T>, alike: (T, T) -> bool)
    requires vs != []
    ensures Represented(y, vs, alike) <==> alike(vs[0], y) || Represented(y, vs[1..], alike)
  {
    if Represented(y, vs, alike) {
      var i :| 0 <= i < |vs| && alike(vs[i], y);
      if i > 0 { assert alike(vs[1..][i - 1], y); }
    }
    if Represented(y, vs[1..], alike) {
      var i :| 0 <= i < |vs| - 1 && alike(vs[1..][i], y);
      assert alike(vs[i + 1], y);
    }
  }

  lemma {:induction false} PutKeeps<T(!new)>(kept: seq<T>, x: T, y: T, alike: (T, T) -> bool)
    requires PartialEquivalence(alike)
    ensures forall v :: v in Put(kept, x, alike) ==> v == x || v in kept
    ensures Represented(y, Put(kept, x, alike), alike) <==> Represented(y, kept, alike) || alike(x, y)
  {
    var r := Put(kept, x, alike);
    RepresentedSplits(y, r, alike);
    if kept != [] {
      RepresentedSplits(y, kept, alike);
      assert r[1..] == if alike(kept[0], x) then kept[1..] else Put(kept[1..], x, alike);
      if alike(kept[0], x) {
        assert alike(kept[0], y) <==> alike(x, y);
      } else {
        PutKeeps(kept[1..], x, y, alike);
      }
    }
  }

  lemma {:induction false} PutSeparates<T(!new)>(kept: seq<T>, x: T, alike: (T, T) -> bool)
    requires PartialEquivalence(alike) && Separated(kept, alike)
    ensures Separated(Put(kept, x, alike), alike)
  {
    if kept != [] && !alike(kept[0], x) {
      PutSeparates(kept[1..], x, alike);
      var t := Put(kept[1..], x, alike);
      PutKeeps(kept[1..], x, x, alike);
      forall j | 0 <= j < |t| ensures !alike(kept[0], t[j]) {
        assert t[j] in t;
        if t[j] != x {
          var n :| 0 <= n < |kept| - 1 && kept[1..][n] == t[j];
          assert !alike(kept[0], kept[n + 1]);
        }
      }
    }
  }

  /** One member of every class of alike items is kept, and each is taken from the list. */
  lemma {:induction false} KeepsOnePerClass<T(!new)>(xs: seq<T>, alike: (T, T) -> bool)
    requires PartialEquivalence(alike) && SelfAlike(xs, alike)
    ensures Separated(Deduped(xs, alike), alike)
    ensures forall v :: v in Deduped(xs, alike) ==> v in xs
    ensures forall i :: 0 <= i < |xs| ==> Represented(xs[i], Deduped(xs, alike), alike)
  {
    if xs != [] {
      var front, x := xs[..|xs| - 1], xs[|xs| - 1];
      KeepsOnePerClass(front, alike);
      var kept := Deduped(front, alike);
      PutSeparates(kept, x, alike);
      PutKeeps(kept, x, x, alike);
      assert forall v :: v in kept ==> v in xs;
      forall i | 0 <= i < |xs| ensures Represented(xs[i], Deduped(xs, alike), alike) {
        PutKeeps(kept, x, xs[i], alike);
        if i < |xs| - 1 { assert front[i] == xs[i]; }
      }
    }
  }

  /** A list of items no two of which are alike is its own deduplication. */
  lemma {:induction false} DedupedAgain<T>(vs: seq<T>, alike: (T, T) -> bool)
    requires Separated(vs, alike)
    ensures Deduped(vs, alike) == vs
  {
    if vs != [] {
      var front, x := vs[..|vs| - 1], vs[|vs| - 1];
      DedupedAgain(front, alike);
      PutAppends(front, x, alike);
      assert vs == front + [x];
    }
  }

  lemma {:induction false} PutAppends<T>(kept: seq<T>, x: T, alike: (T, T) -> bool)
    requires forall i :: 0 <= i < |kept| ==> !alike(kept[i], x)
    ensures Put(kept, x, alike) == kept + [x]
  {
    if kept != [] {
      PutAppends(kept[1..], x, alike);
      assert kept == [kept[0]] + kept[1..];
    }
  }

  lemma {:induction false} DedupedPair<T>(x: T, y: T, alike: (T, T) -> bool)
    requires alike(x, y)
    ensures Deduped([x, y], alike) == [y]
  {
    assert [x, y][..1] == [x] && [x][..0] == [];
    assert Deduped([x], alike) == Put(Deduped([], alike), x, alike) == [x];
  }
}
