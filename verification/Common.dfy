/** What several modules share: optional values and a few facts about products and quotients. */
module Common {

  datatype Option<+T> = None | Some(value: T)

  lemma MulMonotone(a: nat, b: nat, c: nat)
    ensures a <= b ==> a * c <= b * c
  {
  }

  lemma LessByFactor(a: nat, b: nat, c: nat)
    requires a * c < b * c
    ensures a < b
  {
    MulMonotone(b, a, c);
  }

  /** A number is a multiple and a smaller rest in one way only. */
  lemma OneWay(p: nat, m: nat, q: nat, r: nat, d: nat)
    requires m < d && r < d && p * d + m == q * d + r
    ensures p == q && m == r
  {
    MulMonotone(p + 1, q, d);
    MulMonotone(q + 1, p, d);
    assert (p + 1) * d == p * d + d && (q + 1) * d == q * d + d;
  }

  /** Quotient and remainder are the only ones that fit. */
  lemma QuotRem(x: nat, q: nat, r: nat, d: nat)
    requires r < d && x == q * d + r
    ensures x / d == q && x % d == r
  {
    var p, m := x / d, x % d;
    assert x == p * d + m;
    OneWay(p, m, q, r, d);
  }

  /** A quotient names the multiples a number lies between. */
  lemma QuotIff(x: nat, q: nat, d: nat)
    requires 0 < d
    ensures x / d == q <==> q * d <= x < q * d + d
  {
    if q * d <= x < q * d + d { QuotRem(x, q, x - q * d, d); }
  }

  /** Chunk `c` of `n` lies inside. */
  lemma ChunkInside(c: nat, n: nat, d: nat)
    requires c < n
    ensures c * d + d <= n * d
  {
    MulMonotone(c + 1, n, d);
    assert (c + 1) * d == c * d + d;
  }

  lemma ModOnce(x: int, n: nat)
    requires 0 < n && 0 <= x < 2 * n
    ensures x % n == if x < n then x else x - n
  {
    if x < n { QuotRem(x, 0, x, n); } else { QuotRem(x, 1, x - n, n); }
  }

  // ---- Products and quotients by name, so that a proof can hide their arithmetic -------------------------

  function Times(a: nat, b: nat): nat { a * b }

  function Quot(a: nat, c: nat): nat
    requires 0 < c
  {
    a / c
  }

  function Rem(a: nat, c: nat): nat
    requires 0 < c
  {
    a % c
  }

  lemma TimesStep(a: nat, c: nat)
    ensures Times(a + 1, c) == Times(a, c) + c && Times(0, c) == 0 && Times(1, c) == c
  {
  }

  lemma TimesMonotone(a: nat, b: nat, c: nat)
    ensures a <= b ==> Times(a, c) <= Times(b, c)
  {
    MulMonotone(a, b, c);
  }

  lemma QuotientUnique(x: nat, q: nat, c: nat)
    requires 0 < c && q * c <= x < q * c + c
    ensures Quot(x, c) == q && Rem(x, c) == x - q * c
  {
    QuotRem(x, q, x - q * c, c);
  }

  lemma QuotientBounds(x: nat, c: nat)
    requires 0 < c
    ensures Quot(x, c) * c <= x < Quot(x, c) * c + c && x == Quot(x, c) * c + Rem(x, c) && Rem(x, c) < c
  {
  }

  /** Between two multiples the quotient is the lower one's factor. */
  lemma QuotBetween(x: nat, q: nat, c: nat)
    requires 0 < c && Times(q, c) <= x < Times(q, c) + c
    ensures Quot(x, c) == q
  {
    QuotientUnique(x, q, c);
  }

  lemma QuotBelow(x: nat, c: nat)
    requires 0 < c
    ensures Times(Quot(x, c), c) <= x < Times(Quot(x, c), c) + c
  {
    QuotientBounds(x, c);
  }

  /** A quotient by at most the number itself is positive, and its multiple stays below. */
  lemma QuotPositive(x: nat, c: nat)
    requires 0 < c
    ensures 0 < Quot(x, c) <==> c <= x
    ensures Times(c, Quot(x, c)) <= x
  {
    QuotientBounds(x, c);
    assert c * Quot(x, c) == Quot(x, c) * c;
    if x < c { QuotRem(x, 0, x, c); }
  }
}
