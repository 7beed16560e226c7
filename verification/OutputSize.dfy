/** A report that states its own encoded size. */
module OutputSize {
  import opened Outcomes
  import Text

  const TRIES: nat := 10

  datatype SizeError = DidNotStabilize

  function Width(n: nat): (w: nat)
  {
    |Text.Digits(n)|
  }

  /** The encoded length of a report whose text around the number takes `base` bytes. */
  function Size(base: nat, n: nat): (s: nat)
  {
    base + Width(n)
  }

  /** The number stored after `k` rewrites, starting from zero. */
  function Rewritten(base: nat, k: nat): (n: nat)
  {
    if k == 0 then 0 else Size(base, Rewritten(base, k - 1))
  }

  lemma {:induction false} WidthIsMonotone(a: nat, b: nat)
    requires a <= b
    ensures 1 <= Width(a) <= Width(b)
  {
    if b >= 10 && a >= 10 {
      WidthIsMonotone(a / 10, b / 10);
    }
  }

  lemma {:induction false} WidthIsSmall(n: nat)
    requires n >= 1
    ensures Width(n) <= n
  {
    if n >= 10 {
      WidthIsSmall(n / 10);
    }
  }

  /** Growing a number less than tenfold adds one digit at most. */
  lemma WidthGrowsByOne(n: nat, m: nat)
    requires 1 <= n <= m <= 10 * n
    ensures Width(m) <= Width(n) + 1
  {
    WidthIsMonotone(m, 10 * n);
    assert 10 * n / 10 == n;
  }

  /** Every report reaches a fixed point by the third rewrite, so the fourth look finds it. */
  lemma ThirdRewriteIsFixed(base: nat)
    ensures Size(base, Rewritten(base, 3)) == Rewritten(base, 3)
  {
    var first := Rewritten(base, 1);
    var second := Rewritten(base, 2);
    var third := Rewritten(base, 3);
    assert Rewritten(base, 0) == 0 && Width(0) == 1;
    assert first == base + 1 && second == first + Width(first) - 1 && third == base + Width(second);
    WidthIsSmall(first);
    WidthIsMonotone(first, second);
    WidthGrowsByOne(first, second);
    WidthIsMonotone(second, third);
    WidthGrowsByOne(first, third);
  }

  lemma {:induction false} FixedFromThere(base: nat, k: nat, m: nat)
    requires k <= m && Size(base, Rewritten(base, k)) == Rewritten(base, k)
    ensures Rewritten(base, m) == Rewritten(base, k)
  {
    if k < m {
      FixedFromThere(base, k, m - 1);
    }
  }

  /** Rewriting climbs towards the least size that describes itself. */
  lemma {:induction false} RewritesStayBelowFixedPoints(base: nat, k: nat, n: nat)
    requires Size(base, n) == n
    ensures Rewritten(base, k) <= n
  {
    if k > 0 {
      RewritesStayBelowFixedPoints(base, k - 1, n);
      WidthIsMonotone(Rewritten(base, k - 1), n);
    }
  }

  // ----- how many sizes describe themselves

  function Pow10(k: nat): (p: nat)
    ensures p >= 1
  {
    if k == 0 then 1 else 10 * Pow10(k - 1)
  }

  lemma {:induction false} PowersAreApart(k: nat, d: nat)
    ensures Pow10(k + d) >= Pow10(k) + 9 * d
  {
    if d > 0 {
      PowersAreApart(k, d - 1);
    }
  }

  lemma {:induction false} WidthBounds(n: nat)
    ensures n < Pow10(Width(n)) && (n >= 1 ==> Pow10(Width(n) - 1) <= n)
  {
    if n >= 10 {
      WidthBounds(n / 10);
    }
  }

  lemma WidthFromBounds(n: nat, k: nat)
    requires k >= 1 && n >= 1 && Pow10(k - 1) <= n < Pow10(k)
    ensures Width(n) == k
  {
    WidthBounds(n);
    if Width(n) < k {
      PowersAreApart(Width(n), k - 1 - Width(n));
    } else if k < Width(n) {
      PowersAreApart(k, Width(n) - 1 - k);
    }
  }

  ghost predicate DescribesItself(base: nat, n: nat)
  {
    Size(base, n) == n
  }

  lemma TwoSizesAreAllNinesAndNext(base: nat, m: nat, n: nat)
    requires DescribesItself(base, m) && DescribesItself(base, n) && m < n
    ensures m == Pow10(Width(m)) - 1 && n == m + 1
  {
    WidthBounds(m);
    WidthBounds(n);
    WidthIsMonotone(m, n);
    PowersAreApart(Width(m), Width(n) - 1 - Width(m));
  }

  /** When the text around the number takes k + 1 bytes less than 10^k, exactly two sizes describe themselves. */
  lemma TheTwoSizes(base: nat, k: nat, n: nat)
    requires k >= 1 && base == Pow10(k) - 1 - k
    ensures DescribesItself(base, n) <==> n == Pow10(k) - 1 || n == Pow10(k)
  {
    PowersAreApart(k - 1, 1);
    WidthFromBounds(Pow10(k) - 1, k);
    WidthFromBounds(Pow10(k), k + 1);
    if DescribesItself(base, n) {
      if n < Pow10(k) - 1 {
        TwoSizesAreAllNinesAndNext(base, n, Pow10(k) - 1);
      } else if n > Pow10(k) {
        TwoSizesAreAllNinesAndNext(base, Pow10(k), n);
      }
    }
  }

  ghost predicate HasTwoSizes(base: nat)
  {
    exists m, n :: m < n && DescribesItself(base, m) && DescribesItself(base, n)
  }

  /** A report has more than one self-describing size exactly when its base is some 10^k - 1 - k. */
  lemma TwoSizesIff(base: nat)
    ensures HasTwoSizes(base) <==> exists k: nat :: k >= 1 && base == Pow10(k) - 1 - k
  {
    if HasTwoSizes(base) {
      var m, n :| m < n && DescribesItself(base, m) && DescribesItself(base, n);
      TwoSizesAreAllNinesAndNext(base, m, n);
      WidthIsMonotone(0, m);
      assert base == Pow10(Width(m)) - 1 - Width(m);
    }
    if k: nat :| k >= 1 && base == Pow10(k) - 1 - k {
      TheTwoSizes(base, k, Pow10(k) - 1);
      TheTwoSizes(base, k, Pow10(k));
    }
  }

  /** The smallest such report; the loop stores the smaller of the two. */
  lemma SelfDescriptionIsNotUnique()
    ensures Size(8, 9) == 9 && Size(8, 10) == 10
  {
    assert Pow10(1) == 10;
    TheTwoSizes(8, 1, 9);
    TheTwoSizes(8, 1, 10);
  }

  /** The report: its canonical text around the number, and the number itself. */
  class Report {
    const before: string
    const after: string
    var outputJsonBytes: nat

    constructor (before: string, after: string)
      ensures this.before == before && this.after == after && outputJsonBytes == 0
    {
      this.before, this.after, outputJsonBytes := before, after, 0;
    }

    function Base(): (n: nat)
    {
      |before| + |after|
    }

    function Encoded(): (text: string)
      reads this
    {
      before + Text.Digits(outputJsonBytes) + after
    }

    /** From zero the loop always returns, with the least number that is the length of its own encoding. */
    method StabilizeOutputSize() returns (r: Result<(), SizeError>)
      modifies this
      ensures r.Ok? ==> outputJsonBytes == |Encoded()|
      ensures old(outputJsonBytes) == 0 ==>
        r.Ok? && outputJsonBytes == Rewritten(Base(), 3) && forall n :: Size(Base(), n) == n ==> outputJsonBytes <= n
    {
      ghost var fromZero := outputJsonBytes == 0;
      ThirdRewriteIsFixed(Base());
      for i := 0 to TRIES
        invariant fromZero ==> i <= 3 && outputJsonBytes == Rewritten(Base(), i)
      {
        var size := |Encoded()|;
        if outputJsonBytes == size {
          if fromZero {
            FixedFromThere(Base(), i, 3);
            forall n | Size(Base(), n) == n ensures outputJsonBytes <= n {
              RewritesStayBelowFixedPoints(Base(), i, n);
            }
          }
          return Ok(());
        }
        outputJsonBytes := size;
      }
      r := Err(DidNotStabilize);
    }
  }
}
