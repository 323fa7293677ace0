/** The string operations the tab-layout code is written in: wxString's BeforeFirst
    and AfterFirst, decimal printing of a size_t, and wxAtoi. */
module Text {

  /** The part of s before the first c; all of s when c is absent. */
  function BeforeFirst(s: string, c: char): (r: string)
    ensures r <= s && c !in r
    ensures |r| < |s| ==> s[|r|] == c
  {
    if s == "" || s[0] == c then "" else [s[0]] + BeforeFirst(s[1..], c)
  }

  /** The part of s after the first c; empty when c is absent. */
  function AfterFirst(s: string, c: char): (r: string)
    ensures c in s ==> s == BeforeFirst(s, c) + [c] + r
    ensures c !in s ==> r == ""
    ensures s != "" ==> |r| < |s|
  {
    var head := BeforeFirst(s, c);
    if |head| == |s| then "" else s[|head| + 1..]
  }

  lemma SplitAtFirst(head: string, c: char, tail: string)
    requires c !in head
    ensures BeforeFirst(head + [c] + tail, c) == head
    ensures AfterFirst(head + [c] + tail, c) == tail
  {
    var s := head + [c] + tail;
    var b := BeforeFirst(s, c);
    assert s[|head|] == c;
    assert forall i :: 0 <= i < |b| ==> b[i] == s[i] && b[i] in b;
    assert forall i :: 0 <= i < |head| ==> s[i] == head[i] && head[i] in head;
    assert b == s[..|head|] == head;
  }

  lemma SplitWithout(s: string, c: char)
    requires c !in s
    ensures BeforeFirst(s, c) == s && AfterFirst(s, c) == ""
  {}

  /** The pieces a scanning loop sees: it cuts at each separator and stops at the
      first empty piece. */
  function Pieces(s: string, c: char): (ps: seq<string>)
    ensures forall p :: p in ps ==> p != "" && c !in p
    ensures s == "" ==> ps == []
    decreases |s|
  {
    var head := BeforeFirst(s, c);
    if head == "" then [] else [head] + Pieces(AfterFirst(s, c), c)
  }

  function Join(ps: seq<string>, c: char): string {
    if |ps| == 0 then "" else if |ps| == 1 then ps[0] else ps[0] + [c] + Join(ps[1..], c)
  }

  lemma {:induction false} JoinSnoc(ps: seq<string>, p: string, c: char)
    requires ps != []
    ensures Join(ps + [p], c) == Join(ps, c) + [c] + p
  {
    if |ps| > 1 {
      JoinSnoc(ps[1..], p, c);
      assert (ps + [p])[1..] == ps[1..] + [p];
    } else {
      assert (ps + [p])[1..] == [p];
    }
  }

  /** One more piece: a separator before it, except for the first. */
  lemma JoinNext(ps: seq<string>, p: string, c: char)
    ensures Join(ps + [p], c) == (if ps == [] then "" else Join(ps, c) + [c]) + p
  {
    if ps != [] { JoinSnoc(ps, p, c); }
  }

  lemma {:induction false} PiecesOfJoin(ps: seq<string>, c: char)
    requires forall p :: p in ps ==> p != "" && c !in p
    ensures Pieces(Join(ps, c), c) == ps
  {
    if |ps| == 1 {
      assert ps[0] in ps;
      SplitWithout(ps[0], c);
      PiecesHead(ps[0], c, ps[0], "");
    } else if |ps| > 1 {
      assert ps[0] in ps;
      assert forall p :: p in ps[1..] ==> p in ps;
      PiecesOfJoin(ps[1..], c);
      SplitAtFirst(ps[0], c, Join(ps[1..], c));
      PiecesHead(Join(ps, c), c, ps[0], Join(ps[1..], c));
    }
  }

  lemma PiecesHead(s: string, c: char, head: string, tail: string)
    requires head != "" && BeforeFirst(s, c) == head && AfterFirst(s, c) == tail
    ensures Pieces(s, c) == [head] + Pieces(tail, c)
  {}

  lemma {:induction false} JoinAvoids(ps: seq<string>, c: char, d: char)
    requires c != d && forall p :: p in ps ==> d !in p
    ensures d !in Join(ps, c)
  {
    if |ps| > 0 { assert ps[0] in ps; }
    if |ps| > 1 {
      assert forall p :: p in ps[1..] ==> p in ps;
      JoinAvoids(ps[1..], c, d);
    }
  }

  // ----- Decimal numbers

  predicate IsDigit(c: char) { '0' <= c <= '9' }

  predicate IsSpace(c: char) { c == ' ' || '\t' as int <= c as int <= '\r' as int }

  function DigitValue(c: char): (d: nat)
    requires IsDigit(c)
    ensures d < 10
  {
    c as int - '0' as int
  }

  function Decimal(n: nat): (s: string)
    ensures s != "" && forall c :: c in s ==> IsDigit(c)
  {
    var last := ['0' + (n % 10) as char];
    if n < 10 then last else Decimal(n / 10) + last
  }

  /** No leading zero but in "0" itself, and no digit more than needed. */
  lemma {:induction false} DecimalIsShort(n: nat)
    ensures Decimal(n)[0] == '0' ==> n == 0 && |Decimal(n)| == 1
    ensures n < 10 ==> |Decimal(n)| == 1
  {
    if n >= 10 { DecimalIsShort(n / 10); }
  }

  /** The value of the longest digit prefix of s, continuing from acc. */
  function Digits(s: string, acc: nat): nat {
    if s == "" || !IsDigit(s[0]) then acc else Digits(s[1..], 10 * acc + DigitValue(s[0]))
  }

  function SkipSpace(s: string): string {
    if s != "" && IsSpace(s[0]) then SkipSpace(s[1..]) else s
  }

  /** strtol in base 10, before its result is clamped to a long. */
  function Number(s: string): int {
    var t := SkipSpace(s);
    if t == "" then 0
    else if t[0] == '-' then 0 - Digits(t[1..], 0)
    else if t[0] == '+' then Digits(t[1..], 0)
    else Digits(t, 0)
  }

  const LONG_MAX := 0x7FFF_FFFF_FFFF_FFFF
  const INT_LIMIT := 0x8000_0000

  function ClampLong(v: int): int {
    if v > LONG_MAX then LONG_MAX else if v < -LONG_MAX - 1 then -LONG_MAX - 1 else v
  }

  /** Conversion to a 32-bit int. */
  function ToInt(v: int): (r: int)
    ensures -INT_LIMIT <= r < INT_LIMIT
    ensures -INT_LIMIT <= v < INT_LIMIT ==> r == v
  {
    (v + INT_LIMIT) % (2 * INT_LIMIT) - INT_LIMIT
  }

  function Atoi(s: string): int { ToInt(ClampLong(Number(s))) }

  /** Conversion of an int to a 64-bit size_t. */
  function ToSize(v: int): nat
    requires -INT_LIMIT <= v < INT_LIMIT
  {
    if v < 0 then v + 0x1_0000_0000_0000_0000 else v
  }

  lemma {:induction false} DigitsOfConcat(a: string, b: string, acc: nat)
    requires forall c :: c in a ==> IsDigit(c)
    ensures Digits(a + b, acc) == Digits(b, Digits(a, acc))
  {
    if a == "" {
      assert a + b == b;
    } else {
      assert a[0] in a;
      assert forall c :: c in a[1..] ==> c in a;
      assert (a + b)[1..] == a[1..] + b;
      DigitsOfConcat(a[1..], b, 10 * acc + DigitValue(a[0]));
    }
  }

  lemma {:induction false} DigitsOfDecimal(n: nat)
    ensures Digits(Decimal(n), 0) == n
  {
    var last := ['0' + (n % 10) as char];
    assert DigitValue(last[0]) == n % 10;
    assert forall acc: nat :: Digits(last, acc) == 10 * acc + n % 10 by {
      assert last[1..] == "";
    }
    if n >= 10 {
      DigitsOfDecimal(n / 10);
      DigitsOfConcat(Decimal(n / 10), last, 0);
    }
  }

  /** Printing a page index and reading it back gives the index. */
  lemma AtoiOfDecimal(n: nat)
    requires n < INT_LIMIT
    ensures Atoi(Decimal(n)) == n && ToSize(Atoi(Decimal(n))) == n
  {
    var s := Decimal(n);
    assert s[0] in s;
    assert SkipSpace(s) == s;
    DigitsOfDecimal(n);
  }

  // ----- What wxAtoi makes of other texts

  lemma SignedDigits(n: nat, sign: char)
    requires sign == '-' || sign == '+'
    ensures Number([sign] + Decimal(n)) == (if sign == '-' then 0 - n else n) && Number(Decimal(n)) == n
  {
    var s := [sign] + Decimal(n);
    assert s[1..] == Decimal(n);
    assert Decimal(n)[0] in Decimal(n);
    DigitsOfDecimal(n);
  }

  /** A sign counts, down to the least int. */
  lemma AtoiSigned(n: nat)
    ensures n <= 0x8000_0000 ==> Atoi("-" + Decimal(n)) == 0 - n
    ensures n < 0x8000_0000 ==> Atoi("+" + Decimal(n)) == n
  {
    SignedDigits(n, '-');
    SignedDigits(n, '+');
  }

  lemma BoundsAsInt(v: int)
    ensures v >= 9223372036854775807 ==> ToInt(ClampLong(v)) == -1
    ensures v <= -9223372036854775808 ==> ToInt(ClampLong(v)) == 0
  {}

  /** A number beyond a long is read as its bound, of which an int keeps all ones or none. */
  lemma AtoiBeyondLong(n: nat)
    ensures n >= 9223372036854775807 ==> Atoi(Decimal(n)) == -1
    ensures n >= 9223372036854775808 ==> Atoi("-" + Decimal(n)) == 0
  {
    SignedDigits(n, '-');
    BoundsAsInt(Number(Decimal(n)));
    BoundsAsInt(Number("-" + Decimal(n)));
  }

  /** Blanks in front are skipped: space, tab, line feed, vertical tab, form feed, return. */
  lemma AtoiSkipsSpace(c: char, s: string)
    requires c as int in {9, 10, 11, 12, 13, 32}
    ensures Atoi([c] + s) == Atoi(s)
  {
    assert ([c] + s)[1..] == s;
  }

  /** A negative int is a size_t that much below 2 to the power 64. */
  lemma NegativeSize(v: int)
    requires -0x8000_0000 <= v < 0
    ensures ToSize(v) == 18446744073709551616 + v
  {}
}
