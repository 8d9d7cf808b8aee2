/**
 * Identifiers as the scenario builds them: MATSim ids are compared by their
 * string, and the test renders its integer loop index with `%d`.
 */
module Ids {

  /** An `Id<Link>` or `Id<Node>` stands for the string it was created from. */
  type Id = string

  predicate IsDigit(c: char) {
    '0' <= c <= '9'
  }

  function DigitValue(c: char): (d: nat)
    requires IsDigit(c)
    ensures d < 10
  {
    c as int - '0' as int
  }

  function DigitChar(d: nat): (c: char)
    requires d < 10
    ensures IsDigit(c) && DigitValue(c) == d
  {
    ('0' as int + d) as char
  }

  /** `String.format("%d", n)` for a non-negative n: decimal digits, no leading zero. */
  function Decimal(n: nat): (s: string)
    ensures |s| >= 1
    ensures forall k :: 0 <= k < |s| ==> IsDigit(s[k])
    ensures |s| > 1 ==> s[0] != '0'
    decreases n
  {
    if n < 10 then [DigitChar(n)] else Decimal(n / 10) + [DigitChar(n % 10)]
  }

  /** Reads a string of decimal digits back as a number (the inverse of Decimal). */
  function ParseDecimal(s: string): nat
    requires forall k :: 0 <= k < |s| ==> IsDigit(s[k])
  {
    if s == [] then 0
    else ParseDecimal(s[..|s| - 1]) * 10 + DigitValue(s[|s| - 1])
  }

  lemma {:induction false} DecimalRoundTrip(n: nat)
    ensures ParseDecimal(Decimal(n)) == n
    decreases n
  {
    if n >= 10 {
      var s := Decimal(n);
      assert s[..|s| - 1] == Decimal(n / 10);
      DecimalRoundTrip(n / 10);
    }
  }

  /** Distinct loop indices render to distinct strings. */
  lemma DecimalInjective(m: nat, n: nat)
    ensures Decimal(m) == Decimal(n) ==> m == n
  {
    DecimalRoundTrip(m);
    DecimalRoundTrip(n);
  }

  /** Java's `String.startsWith`. */
  predicate StartsWith(s: string, prefix: string): (b: bool)
    ensures b <==> |prefix| <= |s| && forall k :: 0 <= k < |prefix| ==> s[k] == prefix[k]
  {
    |prefix| <= |s| && s[..|prefix|] == prefix
  }

  /**
   * The ids the test builds with `String.format(prefix + "%d:%d", i, i)`:
   * the grid node "i:i" (empty prefix) and the links "pt_fwd_i:i", "pt_bck_i:i".
   */
  function PairId(prefix: string, i: nat): (id: Id)
    ensures StartsWith(id, prefix)
  {
    prefix + Decimal(i) + ":" + Decimal(i)
  }

  /**
   * After the prefix come two equal runs of digits around a single colon;
   * an index below 10 gives exactly prefix + "i:i".
   */
  lemma PairIdShape(prefix: string, i: nat)
    ensures |PairId(prefix, i)| == |prefix| + 2 * |Decimal(i)| + 1
    ensures PairId(prefix, i)[|prefix| + |Decimal(i)|] == ':'
    ensures forall k :: |prefix| <= k < |PairId(prefix, i)| && k != |prefix| + |Decimal(i)| ==>
      IsDigit(PairId(prefix, i)[k])
    ensures i < 10 ==> PairId(prefix, i) == prefix + [DigitChar(i), ':', DigitChar(i)]
  {
    var d := Decimal(i);
    var id := PairId(prefix, i);
    forall k | |prefix| <= k < |id| && k != |prefix| + |d|
      ensures IsDigit(id[k])
    {
      if k < |prefix| + |d| {
        assert id[k] == d[k - |prefix|];
      } else {
        assert id[k] == d[k - |prefix| - |d| - 1];
      }
    }
  }

  /** A colon-free head is recovered from what precedes the first colon. */
  lemma ColonFreeHeadsAgree(a: string, b: string, x: string, y: string)
    requires forall k :: 0 <= k < |a| ==> a[k] != ':'
    requires forall k :: 0 <= k < |b| ==> b[k] != ':'
    requires a + ":" + x == b + ":" + y
    ensures a == b
  {
    var s := a + ":" + x;
    assert s[|a|] == ':';
    assert s[|b|] == ':';
    assert |a| == |b|;
    assert s[..|a|] == a;
    assert (b + ":" + y)[..|b|] == b;
  }

  /** Under one prefix, each index gives its own id. */
  lemma PairIdInjective(prefix: string, i: nat, j: nat)
    ensures PairId(prefix, i) == PairId(prefix, j) ==> i == j
  {
    if PairId(prefix, i) == PairId(prefix, j) {
      var a, b := Decimal(i), Decimal(j);
      var s := PairId(prefix, i);
      assert s[|prefix|..] == a + ":" + a;
      assert PairId(prefix, j)[|prefix|..] == b + ":" + b;
      ColonFreeHeadsAgree(a, b, a, b);
      DecimalInjective(i, j);
    }
  }

  /** Ids under two prefixes that differ at some position are never equal. */
  lemma PairIdsApart(p: string, q: string, i: nat, j: nat, k: nat)
    requires k < |p| && k < |q| && p[k] != q[k]
    ensures PairId(p, i) != PairId(q, j)
  {
    assert PairId(p, i)[k] == p[k];
    assert PairId(q, j)[k] == q[k];
  }
}
