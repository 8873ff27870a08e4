/**
 * Canonical text identifies a value. Each printer can be read back off the front of a longer
 * text, so two storable values print alike only when they are the same value.
 */
module Identity {
  import opened Sorting
  import opened Texts
  import opened Values
  import opened CanonicalForm

  lemma {:induction false} DropFront(front: string, x: string, y: string)
    requires front + x == front + y
    ensures x == y
  {
    assert x == (front + x)[|front|..];
    assert y == (front + y)[|front|..];
  }

  /** What follows a one-character opening. */
  lemma {:induction false} Peel(opening: string, inner: string, closing: string, x: string)
    requires |opening| == 1
    ensures (opening + inner + closing + x)[1..] == inner + closing + x
  {}

  // ---------------------------------------------------------------- strings

  lemma {:induction false} HexDigitInjective(n: int, m: int)
    requires 0 <= n < 16 && 0 <= m < 16 && HexDigit(n) == HexDigit(m)
    ensures n == m
  {}

  lemma {:induction false} Hex4Injective(n: int, m: int)
    requires 0 <= n < 0x10000 && 0 <= m < 0x10000 && Hex4(n) == Hex4(m)
    ensures n == m
  {
    var s, t := Hex4(n), Hex4(m);
    assert s[0] == t[0] && s[1] == t[1] && s[2] == t[2] && s[3] == t[3];
    HexDigitInjective(n / 16 / 16 / 16, m / 16 / 16 / 16);
    HexDigitInjective(n / 16 / 16 % 16, m / 16 / 16 % 16);
    HexDigitInjective(n / 16 % 16, m / 16 % 16);
    HexDigitInjective(n % 16, m % 16);
    assert n / 16 / 16 == m / 16 / 16;
    assert n / 16 == m / 16;
  }

  predicate Plain(c: Code) { 0x20 <= c <= 0x7E && c != 0x22 && c != 0x5C }

  predicate ShortEscape(c: Code) {
    c == 0x22 || c == 0x5C || c == 0x08 || c == 0x09 || c == 0x0A || c == 0x0C || c == 0x0D
  }

  /** The first code unit of a `\u` escape. */
  function HeadUnit(c: Code): int {
    if c < 0x10000 then c else 0xD800 + (c - 0x10000) / 0x400
  }

  lemma {:induction false} EscapeShape(c: Code)
    ensures Plain(c) ==> EscapedCode(c) == [c as char] && c as char != '\\' && c as char != '"'
    ensures !Plain(c) ==> |EscapedCode(c)| >= 2 && EscapedCode(c)[0] == '\\'
    ensures !Plain(c) ==> (EscapedCode(c)[1] == 'u' <==> !ShortEscape(c))
    ensures ShortEscape(c) ==> |EscapedCode(c)| == 2
    ensures !Plain(c) && !ShortEscape(c) && c < 0x10000 ==> EscapedCode(c) == "\\u" + Hex4(HeadUnit(c))
    ensures !Plain(c) && !ShortEscape(c) && c >= 0x10000 ==>
              0xDC00 <= 0xDC00 + (c - 0x10000) % 0x400 < 0x10000 &&
              EscapedCode(c) == "\\u" + Hex4(HeadUnit(c)) + "\\u" + Hex4(0xDC00 + (c - 0x10000) % 0x400)
  {}

  lemma {:induction false} CancelCode(c: Code, d: Code, x: string, y: string)
    requires !IsSurrogate(c) && !IsSurrogate(d)
    requires EscapedCode(c) + x == EscapedCode(d) + y
    ensures c == d && x == y
  {
    EscapeShape(c);
    EscapeShape(d);
    var s := EscapedCode(c) + x;
    assert s[0] == EscapedCode(c)[0] == EscapedCode(d)[0];
    if !Plain(c) {
      assert s[1] == EscapedCode(c)[1] == EscapedCode(d)[1];
      if !ShortEscape(c) {
        CancelLong(c, d, x, y);
      }
    }
    DropFront(EscapedCode(c), x, y);
  }

  lemma {:induction false} LongAt(c: Code, x: string)
    requires !Plain(c) && !ShortEscape(c)
    ensures |EscapedCode(c)| >= 6
    ensures (EscapedCode(c) + x)[2..6] == Hex4(HeadUnit(c))
    ensures c >= 0x10000 ==>
              |EscapedCode(c)| == 12 &&
              (EscapedCode(c) + x)[8..12] == Hex4(0xDC00 + (c - 0x10000) % 0x400)
  {
    EscapeShape(c);
    var u := "\\u";
    assert |u| == 2;
    var head := Hex4(HeadUnit(c));
    if c < 0x10000 {
      assert EscapedCode(c) + x == u + head + x;
    } else {
      assert EscapedCode(c) + x == u + head + u + Hex4(0xDC00 + (c - 0x10000) % 0x400) + x;
    }
  }

  function LowUnit(c: Code): int { 0xDC00 + (c - 0x10000) % 0x400 }

  lemma {:induction false} UnitsDetermine(c: Code, d: Code)
    requires !IsSurrogate(c) && !IsSurrogate(d)
    requires HeadUnit(c) == HeadUnit(d)
    requires c >= 0x10000 && d >= 0x10000 ==> LowUnit(c) == LowUnit(d)
    ensures c == d
  {
    assert c >= 0x10000 ==> 0xD800 <= HeadUnit(c) <= 0xDBFF;
    assert d >= 0x10000 ==> 0xD800 <= HeadUnit(d) <= 0xDBFF;
  }

  lemma {:induction false} CancelHead(c: Code, d: Code, x: string, y: string)
    requires !Plain(c) && !ShortEscape(c) && !Plain(d) && !ShortEscape(d)
    requires EscapedCode(c) + x == EscapedCode(d) + y
    ensures HeadUnit(c) == HeadUnit(d)
  {
    LongAt(c, x);
    LongAt(d, y);
    Hex4Injective(HeadUnit(c), HeadUnit(d));
  }

  lemma {:induction false} CancelLow(c: Code, d: Code, x: string, y: string)
    requires c >= 0x10000 && d >= 0x10000
    requires EscapedCode(c) + x == EscapedCode(d) + y
    ensures LowUnit(c) == LowUnit(d)
  {
    LongAt(c, x);
    LongAt(d, y);
    Hex4Injective(LowUnit(c), LowUnit(d));
  }

  lemma {:induction false} CancelLong(c: Code, d: Code, x: string, y: string)
    requires !IsSurrogate(c) && !IsSurrogate(d)
    requires !Plain(c) && !ShortEscape(c) && !Plain(d) && !ShortEscape(d)
    requires EscapedCode(c) + x == EscapedCode(d) + y
    ensures c == d
  {
    CancelHead(c, d, x, y);
    if c >= 0x10000 && d >= 0x10000 {
      CancelLow(c, d, x, y);
    }
    UnitsDetermine(c, d);
  }

  lemma {:induction false} EscapedFront(s: Text, x: string)
    requires s != []
    ensures Escaped(s) + "\"" + x == EscapedCode(s[0]) + (Escaped(s[1..]) + "\"" + x)
  {
    var front, rest := EscapedCode(s[0]), Escaped(s[1..]);
    assert (front + rest) + "\"" + x == front + (rest + "\"" + x);
  }

  lemma {:induction false} CancelEscaped(s: Text, t: Text, x: string, y: string)
    requires StorableText(s) && StorableText(t)
    requires Escaped(s) + "\"" + x == Escaped(t) + "\"" + y
    ensures s == t && x == y
  {
    if s != [] { EscapeShape(s[0]); }
    if t != [] { EscapeShape(t[0]); }
    var whole := Escaped(s) + "\"" + x;
    if s == [] || t == [] {
      assert s == [] <==> whole[0] == '"';
      assert t == [] <==> whole[0] == '"';
      assert x == whole[1..] == y;
    } else {
      EscapedFront(s, x);
      EscapedFront(t, y);
      CancelCode(s[0], t[0], Escaped(s[1..]) + "\"" + x, Escaped(t[1..]) + "\"" + y);
      CancelEscaped(s[1..], t[1..], x, y);
      assert s == [s[0]] + s[1..] && t == [t[0]] + t[1..];
    }
  }

  lemma {:induction false} CancelQuoted(s: Text, t: Text, x: string, y: string)
    requires StorableText(s) && StorableText(t)
    requires Quoted(s) + x == Quoted(t) + y
    ensures s == t && x == y
  {
    Peel("\"", Escaped(s), "\"", x);
    Peel("\"", Escaped(t), "\"", y);
    CancelEscaped(s, t, x, y);
  }

  /** Without storable text identity is lost: two lone surrogates print as one astral character. */
  lemma {:induction false} LoneSurrogatesCollide()
    ensures var pair, astral := Str([0xD83D, 0xDE00]), Str([0x1F600]);
            && Canonical(pair) == Canonical(astral)
            && !Same(pair, astral)
            && !Storable(pair) && Storable(astral)
  {
    var pair: Text, astral: Text := [0xD83D, 0xDE00], [0x1F600];
    assert IsSurrogate(pair[0]);
    EscapedOne(0xDE00);
    EscapedOne(0x1F600);
    assert pair[1..] == [0xDE00];
    assert Escaped(pair) == EscapedCode(0xD83D) + EscapedCode(0xDE00);
    PairSpelling();
  }

  lemma {:induction false} EscapedOne(c: Code)
    ensures Escaped([c]) == EscapedCode(c)
  {
    assert [c][1..] == [];
  }

  lemma {:induction false} Regrouped(mark: string, high: string, low: string)
    ensures (mark + high) + (mark + low) == mark + high + mark + low
  {}

  lemma {:induction false} PairSpelling()
    ensures EscapedCode(0xD83D) + EscapedCode(0xDE00) == EscapedCode(0x1F600)
  {
    Regrouped("\\u", Hex4(0xD83D), Hex4(0xDE00));
    assert 0xD800 + (0x1F600 - 0x10000) / 0x400 == 0xD83D && 0xDC00 + (0x1F600 - 0x10000) % 0x400 == 0xDE00;
  }

  // ---------------------------------------------------------------- numbers

  /** Where a number may stop: the end of the text, or the punctuation that follows an element. */
  predicate Delimited(x: string) {
    x == "" || x[0] == ',' || x[0] == ']' || x[0] == '}'
  }

  predicate NumberText(t: string) {
    t != "" && (IsDigit(t[0]) || t[0] == '-') && forall i :: 0 <= i < |t| ==> IsNumberChar(t[i])
  }

  function LeadingNumber(s: string): nat {
    if s == "" || !IsNumberChar(s[0]) then 0 else 1 + LeadingNumber(s[1..])
  }

  lemma {:induction false} NumberPrefixLength(t: string, x: string)
    requires (forall i :: 0 <= i < |t| ==> IsNumberChar(t[i])) && Delimited(x)
    ensures LeadingNumber(t + x) == |t|
  {
    if t == "" {
      assert t + x == x;
    } else {
      assert (t + x)[1..] == t[1..] + x;
      NumberPrefixLength(t[1..], x);
    }
  }

  lemma {:induction false} CancelNumber(t: string, u: string, x: string, y: string)
    requires NumberText(t) && NumberText(u) && Delimited(x) && Delimited(y)
    requires t + x == u + y
    ensures t == u && x == y
  {
    NumberPrefixLength(t, x);
    NumberPrefixLength(u, y);
    var whole := t + x;
    assert t == whole[..|t|] == u;
    DropFront(t, x, y);
  }

  lemma {:induction false} DigitsAreDigits(n: nat)
    ensures Digits(n) != "" && forall i :: 0 <= i < |Digits(n)| ==> IsDigit(Digits(n)[i])
  {
    if n >= 10 { DigitsAreDigits(n / 10); }
  }

  lemma {:induction false} DigitsInjective(n: nat, m: nat)
    requires Digits(n) == Digits(m)
    ensures n == m
  {
    var t := Digits(n);
    if n >= 10 { DigitsAreDigits(n / 10); }
    if m >= 10 { DigitsAreDigits(m / 10); }
    if n >= 10 && m >= 10 {
      assert t[..|t| - 1] == Digits(n / 10) == Digits(m / 10);
      assert t[|t| - 1] == HexDigit(n % 10) == HexDigit(m % 10);
      DigitsInjective(n / 10, m / 10);
    }
  }

  lemma {:induction false} DecimalInjective(n: int, m: int)
    requires Decimal(n) == Decimal(m)
    ensures n == m
  {
    DigitsAreDigits(if n < 0 then -n else n);
    DigitsAreDigits(if m < 0 then -m else m);
    assert n < 0 <==> Decimal(n)[0] == '-';
    assert m < 0 <==> Decimal(m)[0] == '-';
    if n < 0 {
      assert Digits(-n) == Decimal(n)[1..] == Digits(-m);
      DigitsInjective(-n, -m);
    } else {
      DigitsInjective(n, m);
    }
  }

  /** A float is never spelled the way an int is, so 1 and 1.0 stay apart. */
  lemma {:induction false} DecimalIsNotFloat(n: int, f: FloatText)
    ensures NumberText(Decimal(n)) && NumberText(f) && Decimal(n) != f
  {
    DecimalIsDigits(n);
    var i :| 0 <= i < |f| && !IsDecimalChar(f[i]);
  }

  predicate IsDecimalChar(c: char) { IsDigit(c) || c == '-' }

  lemma {:induction false} DecimalIsDigits(n: int)
    ensures NumberText(Decimal(n)) && forall i :: 0 <= i < |Decimal(n)| ==> IsDecimalChar(Decimal(n)[i])
  {
    DigitsAreDigits(if n < 0 then -n else n);
  }

  // ---------------------------------------------------------------- values

  /** The first character of a canonical text says which kind of value it spells. */
  lemma {:induction false} LeadCharacter(v: Value)
    requires Storable(v)
    ensures var t := Canonical(v);
            && t != ""
            && (v.Null? <==> t[0] == 'n')
            && (v == Bool(true) <==> t[0] == 't')
            && (v == Bool(false) <==> t[0] == 'f')
            && (v.Str? <==> t[0] == '"')
            && (v.Listlike() <==> t[0] == '[')
            && (v.Dict? <==> t[0] == '{')
            && ((v.Int? || v.Float?) <==> IsDigit(t[0]) || t[0] == '-')
    ensures v.Int? || v.Float? ==> NumberText(Canonical(v))
  {
    match v
    case Int(n) => DigitsAreDigits(if n < 0 then -n else n);
    case _ =>
  }

  /** A canonical text followed by a delimiter can be split off in one way only. */
  lemma {:induction false} SplitValue(a: Value, b: Value, x: string, y: string)
    requires Storable(a) && Storable(b) && Delimited(x) && Delimited(y)
    requires Canonical(a) + x == Canonical(b) + y
    ensures Canonical(a) == Canonical(b) && x == y
    decreases a, 1
  {
    LeadCharacter(a);
    LeadCharacter(b);
    var whole := Canonical(a) + x;
    assert whole[0] == Canonical(a)[0] == Canonical(b)[0];
    if a.Int? || a.Float? {
      CancelNumber(Canonical(a), Canonical(b), x, y);
    } else if a.Str? {
      CancelQuoted(a.s, b.s, x, y);
    } else if a.Listlike() {
      ListFront(a, x);
      ListFront(b, y);
      SplitItems(a.items, b.items, x, y);
    } else if a.Dict? {
      SplitDict(a, b, x, y);
    } else {
      DropFront(Canonical(a), x, y);
    }
  }

  lemma {:induction false} ListFront(v: Value, x: string)
    requires Encodable(v) && v.Listlike()
    ensures (Canonical(v) + x)[1..] == Joined(Rendered(v.items)) + "]" + x
  {
    Peel("[", Joined(Rendered(v.items)), "]", x);
  }

  lemma {:induction false} DictFront(v: Value, x: string)
    requires Encodable(v) && v.Dict?
    ensures (Canonical(v) + x)[1..] == Joined(Spelled(SortBy(Members(v.entries), KeyOf, TextLe))) + "}" + x
  {
    Peel("{", Joined(Spelled(SortBy(Members(v.entries), KeyOf, TextLe))), "}", x);
  }

  lemma {:induction false} SplitDict(a: Value, b: Value, x: string, y: string)
    requires Storable(a) && Storable(b) && a.Dict? && b.Dict?
    requires Delimited(x) && Delimited(y) && Canonical(a) + x == Canonical(b) + y
    ensures SortBy(Members(a.entries), KeyOf, TextLe) == SortBy(Members(b.entries), KeyOf, TextLe)
    ensures Canonical(a) == Canonical(b) && x == y
    decreases a, 0
  {
    var ms := SortBy(Members(a.entries), KeyOf, TextLe);
    var ns := SortBy(Members(b.entries), KeyOf, TextLe);
    AllAreSpelled(a.entries);
    AllAreSpelled(b.entries);
    DictFront(a, x);
    DictFront(b, y);
    SplitMembers(a, b, ms, ns, x, y);
  }

  lemma {:induction false} ItemsFront(xs: seq<Value>, x: string)
    requires AllStorable(xs)
    ensures var whole := Joined(Rendered(xs)) + "]" + x;
            && (xs == [] ==> whole == "]" + x)
            && (xs != [] ==>
                  && whole == Canonical(xs[0]) + (JoinedRest(Rendered(xs[1..])) + "]" + x)
                  && whole[0] != ']')
    ensures Delimited(JoinedRest(Rendered(xs)) + "]" + x)
  {
    if xs != [] {
      LeadCharacter(xs[0]);
      var c, r := Canonical(xs[0]), JoinedRest(Rendered(xs[1..]));
      assert c + r + "]" + x == c + (r + "]" + x);
    }
  }

  lemma {:induction false} SplitItems(xs: seq<Value>, ys: seq<Value>, x: string, y: string)
    requires AllStorable(xs) && AllStorable(ys)
    requires Joined(Rendered(xs)) + "]" + x == Joined(Rendered(ys)) + "]" + y
    ensures Rendered(xs) == Rendered(ys) && x == y
    decreases xs, 0
  {
    ItemsFront(xs, x);
    ItemsFront(ys, y);
    var whole := Joined(Rendered(xs)) + "]" + x;
    assert xs == [] <==> whole[0] == ']';
    assert ys == [] <==> whole[0] == ']';
    if xs == [] {
      assert x == whole[1..] == y;
    } else {
      var p, q := JoinedRest(Rendered(xs[1..])) + "]" + x, JoinedRest(Rendered(ys[1..])) + "]" + y;
      ItemsFront(xs[1..], x);
      ItemsFront(ys[1..], y);
      SplitValue(xs[0], ys[0], p, q);
      SplitRest(xs[1..], ys[1..], x, y);
    }
  }

  lemma {:induction false} RestItemsFront(xs: seq<Value>, x: string)
    requires AllStorable(xs)
    ensures var p := JoinedRest(Rendered(xs)) + "]" + x;
            && (xs == [] ==> p == "]" + x)
            && (xs != [] ==> p == ", " + (Joined(Rendered(xs)) + "]" + x) && p[0] == ',')
  {}

  lemma {:induction false} SplitRest(xs: seq<Value>, ys: seq<Value>, x: string, y: string)
    requires AllStorable(xs) && AllStorable(ys)
    requires JoinedRest(Rendered(xs)) + "]" + x == JoinedRest(Rendered(ys)) + "]" + y
    ensures Rendered(xs) == Rendered(ys) && x == y
    decreases xs, 1
  {
    RestItemsFront(xs, x);
    RestItemsFront(ys, y);
    var p, q := JoinedRest(Rendered(xs)) + "]" + x, JoinedRest(Rendered(ys)) + "]" + y;
    assert xs == [] <==> p[0] == ']';
    assert ys == [] <==> q[0] == ']';
    if xs == [] {
      assert x == p[1..] == q[1..] == y;
    } else {
      DropFront(", ", Joined(Rendered(xs)) + "]" + x, Joined(Rendered(ys)) + "]" + y);
      SplitItems(xs, ys, x, y);
    }
  }

  /** `m` is how some entry of `es` prints. */
  ghost predicate Spells(m: Member, es: seq<Entry>)
    requires EntriesEncodable(es)
  {
    exists i :: 0 <= i < |es| && m == Member(es[i].key.name, Canonical(es[i].value))
  }

  ghost predicate AllSpell(ms: seq<Member>, es: seq<Entry>)
    requires EntriesEncodable(es)
  {
    forall i :: 0 <= i < |ms| ==> Spells(ms[i], es)
  }

  lemma {:induction false} SortedMembersSpell(es: seq<Entry>)
    requires EntriesEncodable(es)
    ensures forall m :: m in SortBy(Members(es), KeyOf, TextLe) <==> Spells(m, es)
  {
    var ms := Members(es);
    SortByKeepsElements(ms, KeyOf, TextLe);
    forall m ensures m in ms <==> Spells(m, es) {
      if m in ms {
        var i :| 0 <= i < |ms| && ms[i] == m;
        MembersAt(es, i);
      }
      if Spells(m, es) {
        var i :| 0 <= i < |es| && m == Member(es[i].key.name, Canonical(es[i].value));
        MembersAt(es, i);
        assert ms[i] == m;
      }
    }
  }

  lemma {:induction false} AllAreSpelled(es: seq<Entry>)
    requires EntriesEncodable(es)
    ensures AllSpell(SortBy(Members(es), KeyOf, TextLe), es)
  {
    SortedMembersSpell(es);
  }

  lemma {:induction false} MembersFront(ms: seq<Member>, x: string)
    ensures var whole := Joined(Spelled(ms)) + "}" + x;
            && (ms == [] ==> whole == "}" + x)
            && (ms != [] ==>
                  && whole == Quoted(ms[0].key) + (": " + ms[0].text + (JoinedRest(Spelled(ms[1..])) + "}" + x))
                  && whole[0] == '"')
  {
    if ms != [] {
      var k, t, r := Quoted(ms[0].key), ms[0].text, JoinedRest(Spelled(ms[1..]));
      assert (k + ": " + t) + r + "}" + x == k + (": " + t + (r + "}" + x));
    }
  }

  lemma {:induction false} RestFront(ms: seq<Member>, x: string)
    ensures var p := JoinedRest(Spelled(ms)) + "}" + x;
            && (ms == [] ==> p == "}" + x)
            && (ms != [] ==> p == ", " + (Joined(Spelled(ms)) + "}" + x) && p[0] == ',')
            && Delimited(p)
  {
    if ms != [] {
      var first, rest := Spelled(ms)[0], JoinedRest(Spelled(ms)[1..]);
      assert Joined(Spelled(ms)) == first + rest;
      CommaFirst(first, rest, x);
    }
  }

  lemma {:induction false} CommaFirst(first: string, rest: string, x: string)
    ensures ", " + first + rest + "}" + x == ", " + (first + rest + "}" + x)
  {}

  lemma {:induction false} SameHeadAndTail<T>(xs: seq<T>, ys: seq<T>)
    requires xs != [] && ys != [] && xs[0] == ys[0] && xs[1..] == ys[1..]
    ensures xs == ys
  {
    assert xs == [xs[0]] + xs[1..] && ys == [ys[0]] + ys[1..];
  }

  lemma {:induction false} SplitMembers(
      a: Value, b: Value, ms: seq<Member>, ns: seq<Member>, x: string, y: string)
    requires Storable(a) && Storable(b) && a.Dict? && b.Dict?
    requires AllSpell(ms, a.entries) && AllSpell(ns, b.entries)
    requires Joined(Spelled(ms)) + "}" + x == Joined(Spelled(ns)) + "}" + y
    ensures ms == ns && x == y
    decreases a, 0, |ms|, 0
  {
    MembersFront(ms, x);
    MembersFront(ns, y);
    var whole := Joined(Spelled(ms)) + "}" + x;
    assert ms == [] <==> whole[0] == '}';
    assert ns == [] <==> whole[0] == '}';
    if ms == [] {
      assert x == whole[1..] == y;
    } else {
      var p, q := JoinedRest(Spelled(ms[1..])) + "}" + x, JoinedRest(Spelled(ns[1..])) + "}" + y;
      RestFront(ms[1..], x);
      RestFront(ns[1..], y);
      SplitMember(a, b, ms[0], ns[0], p, q);
      SplitMembersRest(a, b, ms[1..], ns[1..], x, y);
      SameHeadAndTail(ms, ns);
    }
  }

  lemma {:induction false} SplitMember(a: Value, b: Value, m: Member, n: Member, p: string, q: string)
    requires Storable(a) && Storable(b) && a.Dict? && b.Dict?
    requires Spells(m, a.entries) && Spells(n, b.entries) && Delimited(p) && Delimited(q)
    requires Quoted(m.key) + (": " + m.text + p) == Quoted(n.key) + (": " + n.text + q)
    ensures m == n && p == q
    decreases a, 0, 0
  {
    var i :| 0 <= i < |a.entries| && m == Member(a.entries[i].key.name, Canonical(a.entries[i].value));
    var j :| 0 <= j < |b.entries| && n == Member(b.entries[j].key.name, Canonical(b.entries[j].value));
    CancelKey(m, n, p, q);
    SplitValue(FieldOf(a, i), FieldOf(b, j), p, q);
  }

  lemma {:induction false} CancelKey(m: Member, n: Member, p: string, q: string)
    requires StorableText(m.key) && StorableText(n.key)
    requires Quoted(m.key) + (": " + m.text + p) == Quoted(n.key) + (": " + n.text + q)
    ensures m.key == n.key && m.text + p == n.text + q
  {
    CancelQuoted(m.key, n.key, ": " + m.text + p, ": " + n.text + q);
    assert ": " + m.text + p == ": " + (m.text + p);
    assert ": " + n.text + q == ": " + (n.text + q);
    DropFront(": ", m.text + p, n.text + q);
  }

  lemma {:induction false} SplitMembersRest(
      a: Value, b: Value, ms: seq<Member>, ns: seq<Member>, x: string, y: string)
    requires Storable(a) && Storable(b) && a.Dict? && b.Dict?
    requires AllSpell(ms, a.entries) && AllSpell(ns, b.entries)
    requires JoinedRest(Spelled(ms)) + "}" + x == JoinedRest(Spelled(ns)) + "}" + y
    ensures ms == ns && x == y
    decreases a, 0, |ms|, 1
  {
    RestFront(ms, x);
    RestFront(ns, y);
    var p, q := JoinedRest(Spelled(ms)) + "}" + x, JoinedRest(Spelled(ns)) + "}" + y;
    assert ms == [] <==> p[0] == '}';
    assert ns == [] <==> q[0] == '}';
    if ms == [] {
      assert x == p[1..] == q[1..] == y;
    } else {
      DropFront(", ", Joined(Spelled(ms)) + "}" + x, Joined(Spelled(ns)) + "}" + y);
      SplitMembers(a, b, ms, ns, x, y);
    }
  }

  lemma {:induction false} SameFromText(a: Value, b: Value)
    requires Storable(a) && Storable(b) && Canonical(a) == Canonical(b)
    ensures Same(a, b)
    decreases a, 1
  {
    LeadCharacter(a);
    LeadCharacter(b);
    if a.Int? && b.Int? {
      DecimalInjective(a.n, b.n);
    } else if a.Int? && b.Float? {
      DecimalIsNotFloat(a.n, b.text);
    } else if a.Float? && b.Int? {
      DecimalIsNotFloat(b.n, a.text);
    } else if a.Str? {
      CancelQuoted(a.s, b.s, "", "");
    } else if a.Listlike() {
      SameItemsFromText(a, b);
    } else if a.Dict? {
      SameEntriesFromText(a, b);
    }
  }

  lemma {:induction false} SameItemsFromText(a: Value, b: Value)
    requires Storable(a) && Storable(b) && a.Listlike() && b.Listlike() && Canonical(a) == Canonical(b)
    ensures SameItems(a.items, b.items)
    decreases a, 0
  {
    ListFront(a, "");
    ListFront(b, "");
    SplitItems(a.items, b.items, "", "");
    forall i | 0 <= i < |a.items| ensures Same(a.items[i], b.items[i]) {
      RenderedAt(a.items, i);
      RenderedAt(b.items, i);
      SameFromText(a.items[i], b.items[i]);
    }
  }

  lemma {:induction false} SameEntriesFromText(a: Value, b: Value)
    requires Storable(a) && Storable(b) && a.Dict? && b.Dict? && Canonical(a) == Canonical(b)
    ensures SameEntries(a.entries, b.entries)
    decreases a, 0
  {
    var es, fs := a.entries, b.entries;
    var ms, ns := SortBy(Members(es), KeyOf, TextLe), SortBy(Members(fs), KeyOf, TextLe);
    SortedMembersSpell(es);
    SortedMembersSpell(fs);
    SplitDict(a, b, "", "");
    assert ms == ns;
    forall i | 0 <= i < |es| ensures AgreesWithin(es[i], fs) {
      var m := Member(es[i].key.name, Canonical(es[i].value));
      assert Spells(m, es);
      assert m in ns;
      var j :| 0 <= j < |fs| && m == Member(fs[j].key.name, Canonical(fs[j].value));
      assert es[i].value < es[i];
      SameFromText(es[i].value, fs[j].value);
    }
    forall j | 0 <= j < |fs| ensures AgreedBy(es, fs[j]) {
      var m := Member(fs[j].key.name, Canonical(fs[j].value));
      assert Spells(m, fs);
      assert m in ms;
      var i :| 0 <= i < |es| && m == Member(es[i].key.name, Canonical(es[i].value));
      assert es[i].value < es[i];
      SameFromText(es[i].value, fs[j].value);
    }
  }

  /** Canonical text is identity: equal text exactly when the two values are the same. */
  lemma {:induction false} CanonicalIsIdentity(a: Value, b: Value)
    requires Storable(a) && Storable(b)
    ensures Canonical(a) == Canonical(b) <==> Same(a, b)
  {
    if Canonical(a) == Canonical(b) { SameFromText(a, b); }
    if Same(a, b) { SameText(a, b); }
  }
}
