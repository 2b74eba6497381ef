/**
  Decimal text as the operator writes and reads it: `strconv.Itoa` and `fmt.Sprint` on one side,
  `strconv.ParseInt(s, 10, 32)` on the other, and the names built from such text.
*/
module Decimal {
  import opened Wrappers

  const MAX_INT32: int := 0x7fff_ffff
  const MIN_INT32: int := -0x8000_0000

  predicate IsInt32(n: int) {
    MIN_INT32 <= n <= MAX_INT32
  }

  /** A replica count: a non-negative int32. */
  type Count = n: nat | n <= MAX_INT32

  predicate IsDigit(c: char) {
    '0' <= c <= '9'
  }

  predicate AllDigits(s: string) {
    forall i :: 0 <= i < |s| ==> IsDigit(s[i])
  }

  function PrintNat(n: nat): (s: string)
    ensures s != [] && AllDigits(s)
  {
    if n < 10 then ['0' + n as char] else PrintNat(n / 10) + ['0' + (n % 10) as char]
  }

  /** `strconv.Itoa` and `fmt.Sprint` on an integer. */
  function Itoa(n: int): string {
    if n < 0 then "-" + PrintNat(-n) else PrintNat(n)
  }

  function ValueOf(s: string): nat
    requires AllDigits(s)
  {
    if s == [] then 0 else ValueOf(s[..|s| - 1]) * 10 + (s[|s| - 1] - '0') as nat
  }

  /** `strconv.ParseInt(s, 10, 32)`: an optional sign, at least one digit, nothing else, and in range. */
  function ParseInt32(s: string): Option<int> {
    var signed := s != [] && (s[0] == '+' || s[0] == '-');
    var digits := if signed then s[1..] else s;
    if digits == [] || !AllDigits(digits) then
      None
    else
      var v: int := if signed && s[0] == '-' then 0 - ValueOf(digits) else ValueOf(digits);
      if IsInt32(v) then Some(v) else None
  }

  lemma {:induction false} ValueOfPrintNat(n: nat)
    ensures ValueOf(PrintNat(n)) == n
  {
    var s := PrintNat(n);
    if n >= 10 {
      assert s[..|s| - 1] == PrintNat(n / 10);
      ValueOfPrintNat(n / 10);
    } else {
      assert ValueOf(s[..0]) == 0;
    }
  }

  lemma ParseUnsigned(s: string)
    requires s != [] && AllDigits(s)
    ensures ParseInt32(s) == if IsInt32(ValueOf(s)) then Some(ValueOf(s)) else None
  {
  }

  lemma ParseNegative(s: string)
    requires s != [] && AllDigits(s)
    ensures ParseInt32("-" + s) == if IsInt32(0 - ValueOf(s)) then Some(0 - ValueOf(s)) else None
  {
  }

  /** Reading back the text of an int32 gives the int32; any other integer's text is rejected. */
  lemma ParsePrint(n: int)
    ensures ParseInt32(Itoa(n)) == if IsInt32(n) then Some(n) else None
  {
    if n < 0 {
      ValueOfPrintNat(-n);
      ParseNegative(PrintNat(-n));
    } else {
      ValueOfPrintNat(n);
      ParseUnsigned(PrintNat(n));
    }
  }

  /** `PVCName` of a cluster: the claim of pod `i`. */
  function PvcName(cluster: string, i: nat): string {
    "persistence-" + cluster + "-server-" + Itoa(i)
  }

  lemma NoDashAfter(a: string, d: string, s: string)
    requires '-' !in d && s == a + "-" + d
    ensures forall i :: |a| < i < |s| ==> s[i] != '-'
  {
  }

  lemma LastDashSplitsOnce(a: string, d: string, b: string, e: string)
    requires '-' !in d && '-' !in e
    requires a + "-" + d == b + "-" + e
    ensures a == b && d == e
  {
    var s := a + "-" + d;
    assert s[|a|] == '-' && (b + "-" + e)[|b|] == '-';
    NoDashAfter(a, d, s);
    NoDashAfter(b, e, s);
    assert |a| == |b|;
    assert a == s[..|a|] && b == s[..|b|];
    assert d == s[|a| + 1..] && e == s[|b| + 1..];
  }

  /** No two pods, of one cluster or of two, share a claim name. */
  lemma PvcNameInjective(c1: string, i: nat, c2: string, j: nat)
    ensures PvcName(c1, i) == PvcName(c2, j) <==> c1 == c2 && i == j
  {
    if PvcName(c1, i) == PvcName(c2, j) {
      var p1, p2 := "persistence-" + c1 + "-server", "persistence-" + c2 + "-server";
      assert PvcName(c1, i) == p1 + "-" + Itoa(i);
      assert PvcName(c2, j) == p2 + "-" + Itoa(j);
      LastDashSplitsOnce(p1, Itoa(i), p2, Itoa(j));
      ValueOfPrintNat(i);
      ValueOfPrintNat(j);
      assert |c1| == |c2|;
      assert c1 == p1[12..12 + |c1|] == p2[12..12 + |c2|] == c2;
    }
  }
}
