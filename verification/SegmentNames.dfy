/**
 * Department ids as state.go renders them (`segmentID`): the lane's name for its
 * first segment, the name, a tilde and the number for a later one.
 */
module SegmentNames {
  const SEPARATOR := '~'

  function Digit(d: nat): (c: char)
    requires d < 10
    ensures c != SEPARATOR
  {
    "0123456789"[d]
  }

  function Decimal(n: nat): (s: string)
    ensures s != [] && SEPARATOR !in s
  {
    if n < 10 then [Digit(n)] else Decimal(n / 10) + [Digit(n % 10)]
  }

  function SegmentId(lane: string, n: nat): string {
    if n == 1 then lane else lane + [SEPARATOR] + Decimal(n)
  }

  lemma DigitInjective(d: nat, e: nat)
    requires d < 10 && e < 10 && Digit(d) == Digit(e)
    ensures d == e
  {
    assert "0123456789"[d] == "0123456789"[e];
    var digits := "0123456789";
    assert forall i, j :: 0 <= i < j < 10 ==> digits[i] != digits[j];
  }

  lemma {:induction false} DecimalInjective(n: nat, m: nat)
    requires Decimal(n) == Decimal(m)
    ensures n == m
  {
    var s := Decimal(n);
    DecimalLength(n);
    DecimalLength(m);
    if n < 10 && m < 10 {
      DigitInjective(n, m);
    } else if n >= 10 && m >= 10 {
      assert Decimal(n / 10) == s[..|s|-1] == Decimal(m / 10);
      assert Digit(n % 10) == s[|s|-1] == Digit(m % 10);
      DecimalInjective(n / 10, m / 10);
      DigitInjective(n % 10, m % 10);
    }
  }

  lemma DecimalLength(n: nat)
    ensures n >= 10 <==> |Decimal(n)| >= 2
  {
    if n >= 10 {
      assert |Decimal(n / 10)| >= 1;
    }
  }

  // The last separator splits an id: what follows it has none.
  lemma {:induction false} LastSeparator(a: string, x: string, b: string, y: string)
    requires SEPARATOR !in x && SEPARATOR !in y
    requires a + [SEPARATOR] + x == b + [SEPARATOR] + y
    ensures a == b && x == y
  {
    var s := a + [SEPARATOR] + x;
    forall i | |a| < i < |s|
      ensures s[i] != SEPARATOR
    {
      assert s[i] == x[i - |a| - 1];
    }
    forall i | |b| < i < |s|
      ensures s[i] != SEPARATOR
    {
      assert s[i] == y[i - |b| - 1];
    }
    assert s[|a|] == SEPARATOR == s[|b|];
    assert |a| == |b|;
    assert a == s[..|a|] == b;
    assert x == s[|a| + 1..] == y;
  }

  /** Where lane names hold no tilde, two segments share an id only if they are the same one. */
  lemma SegmentIdInjective(lane: string, n: nat, lane': string, n': nat)
    requires SEPARATOR !in lane && SEPARATOR !in lane'
    requires SegmentId(lane, n) == SegmentId(lane', n')
    ensures lane == lane' && n == n'
  {
    LaterHasSeparator(lane, n);
    LaterHasSeparator(lane', n');
    if n != 1 && n' != 1 {
      LastSeparator(lane, Decimal(n), lane', Decimal(n'));
      DecimalInjective(n, n');
    }
  }

  lemma LaterHasSeparator(lane: string, n: nat)
    ensures n != 1 ==> SEPARATOR in SegmentId(lane, n)
  {
    if n != 1 {
      assert SegmentId(lane, n)[|lane|] == SEPARATOR;
    }
  }

  /**
   * Two lanes can be given the same id exactly when one is named like a later
   * segment of the other: the names ValidateLaneNames refuses.
   */
  lemma LanesCollideIff(lane: string, lane': string)
    requires lane != lane'
    ensures (exists n: nat, n': nat :: n >= 1 && n' >= 1 && SegmentId(lane, n) == SegmentId(lane', n'))
       <==> (exists k: nat :: k >= 2 && (lane == SegmentId(lane', k) || lane' == SegmentId(lane, k)))
  {
    if n: nat, n': nat :| n >= 1 && n' >= 1 && SegmentId(lane, n) == SegmentId(lane', n') {
      if n == 1 {
        assert n' >= 2 && lane == SegmentId(lane', n');
      } else if n' == 1 {
        assert n >= 2 && lane' == SegmentId(lane, n);
      } else {
        LastSeparator(lane, Decimal(n), lane', Decimal(n'));
      }
    }
    if k: nat :| k >= 2 && (lane == SegmentId(lane', k) || lane' == SegmentId(lane, k)) {
      if lane == SegmentId(lane', k) {
        assert SegmentId(lane, 1) == SegmentId(lane', k);
      } else {
        assert SegmentId(lane, k) == SegmentId(lane', 1);
      }
    }
  }
}
