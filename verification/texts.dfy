/** Text as Python holds it: a sequence of code points, lone surrogates included. */
module Texts {
  import opened Sorting

  type Code = c: int | 0 <= c <= 0x10FFFF
  type Text = seq<Code>

  /** A string literal as text. */
  function AsText(s: string): (t: Text)
    ensures |t| == |s| && forall i :: 0 <= i < |s| ==> t[i] == s[i] as int
  {
    seq(|s|, i requires 0 <= i < |s| => s[i] as int)
  }

  predicate IsSurrogate(c: Code) { 0xD800 <= c <= 0xDFFF }

  /** What a database text column keeps: no NUL, and nothing UTF-8 cannot encode. */
  predicate StorableText(s: Text) {
    forall i :: 0 <= i < |s| ==> s[i] != 0 && !IsSurrogate(s[i])
  }

  /** Lexicographic order on sequences whose elements are ranked by an integer. */
  predicate LexLe<T>(a: seq<T>, b: seq<T>, rank: T -> int) {
    a == [] ||
    (b != [] &&
     (rank(a[0]) < rank(b[0]) ||
      (rank(a[0]) == rank(b[0]) && LexLe(a[1..], b[1..], rank))))
  }

  function CodeRank(c: Code): int { c }
  function CharRank(c: char): int { c as int }

  predicate TextLe(a: Text, b: Text) { LexLe(a, b, CodeRank) }
  predicate StringLe(a: string, b: string) { LexLe(a, b, CharRank) }

  ghost predicate Injective<T(!new)>(rank: T -> int) {
    forall x, y :: rank(x) == rank(y) ==> x == y
  }

  lemma {:induction false} LexTotal<T>(a: seq<T>, b: seq<T>, rank: T -> int)
    ensures LexLe(a, b, rank) || LexLe(b, a, rank)
  {
    if a != [] && b != [] {
      LexTotal(a[1..], b[1..], rank);
    }
  }

  lemma {:induction false} LexAntisymmetric<T(!new)>(a: seq<T>, b: seq<T>, rank: T -> int)
    requires Injective(rank) && LexLe(a, b, rank) && LexLe(b, a, rank)
    ensures a == b
  {
    if a != [] && b != [] {
      LexAntisymmetric(a[1..], b[1..], rank);
      assert a == [a[0]] + a[1..] && b == [b[0]] + b[1..];
    }
  }

  lemma {:induction false} LexTransitive<T>(a: seq<T>, b: seq<T>, c: seq<T>, rank: T -> int)
    requires LexLe(a, b, rank) && LexLe(b, c, rank)
    ensures LexLe(a, c, rank)
  {
    if a != [] && rank(a[0]) == rank(b[0]) == rank(c[0]) {
      LexTransitive(a[1..], b[1..], c[1..], rank);
    }
  }

  lemma {:induction false} TextOrder()
    ensures TotalOrder(TextLe)
  {
    forall a, b ensures TextLe(a, b) || TextLe(b, a) { LexTotal(a, b, CodeRank); }
    forall a, b | TextLe(a, b) && TextLe(b, a) ensures a == b { LexAntisymmetric(a, b, CodeRank); }
    forall a, b, c | TextLe(a, b) && TextLe(b, c) ensures TextLe(a, c) {
      LexTransitive(a, b, c, CodeRank);
    }
  }

  lemma {:induction false} StringOrder()
    ensures TotalOrder(StringLe)
  {
    forall a, b ensures StringLe(a, b) || StringLe(b, a) { LexTotal(a, b, CharRank); }
    forall a, b | StringLe(a, b) && StringLe(b, a) ensures a == b { LexAntisymmetric(a, b, CharRank); }
    forall a, b, c | StringLe(a, b) && StringLe(b, c) ensures StringLe(a, c) {
      LexTransitive(a, b, c, CharRank);
    }
  }

  /** One text comes before another exactly when it begins it, or has the smaller code where the two first differ. */
  lemma {:induction false} TextOrderIs(a: Text, b: Text)
    ensures TextLe(a, b) <==> a <= b || exists i :: 0 <= i < |a| && i < |b| && a[..i] == b[..i] && a[i] < b[i]
  {
    if a != [] && b != [] {
      TextOrderIs(a[1..], b[1..]);
      if a[0] == b[0] {
        if i :| 0 <= i < |a| - 1 && i < |b| - 1 && a[1..][..i] == b[1..][..i] && a[1..][i] < b[1..][i] {
          assert a[..i + 1] == [a[0]] + a[1..][..i] && b[..i + 1] == [b[0]] + b[1..][..i];
          assert a[i + 1] < b[i + 1];
        }
        if i :| 0 <= i < |a| && i < |b| && a[..i] == b[..i] && a[i] < b[i] {
          assert a[1..][..i - 1] == a[..i][1..] == b[..i][1..] == b[1..][..i - 1];
          assert a[1..][i - 1] < b[1..][i - 1];
        }
        assert a[1..] <= b[1..] ==> a == [a[0]] + a[1..] && b == [b[0]] + b[1..];
        assert a <= b ==> b[..|a|][1..] == b[1..][..|a| - 1];
        assert a <= b <==> a[1..] <= b[1..];
      } else {
        assert a[..0] == b[..0];
        if i :| 0 <= i < |a| && i < |b| && a[..i] == b[..i] && a[i] < b[i] {
          assert i > 0 ==> a[..i][0] == b[..i][0];
        }
      }
    }
  }
}
