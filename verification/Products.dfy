/** Products and quotients of plain integers. */
module Products {
  lemma Monotone(a: nat, b: nat, k: nat)
    requires a <= b
    ensures a * k <= b * k && k * a <= k * b
  {
  }

  lemma Sum(a: int, b: int, k: int)
    ensures (a + b) * k == a * k + b * k
  {
  }

  lemma Regroup(a: int, b: int, k: int)
    ensures a * (b * k) == (a * b) * k
  {
  }

  lemma Divide(a: int, b: int)
    requires b > 0
    ensures a == a / b * b + a % b && 0 <= a % b < b
  {
  }

  lemma QuotientIs(a: int, b: nat, q: int)
    requires b > 0 && q * b <= a < q * b + b
    ensures a / b == q && a % b == a - q * b
  {
    var d := a / b;
    Divide(a, b);
    Sum(d, -q, b);
    NoMultiple(d - q, b);
    NoMultiple(q - d, b);
    Sum(q, -d, b);
  }

  /** A positive multiple of `b` is not below `b`. */
  lemma NoMultiple(t: int, b: nat)
    ensures t >= 1 ==> t * b >= b
  {
    if t >= 1 { Monotone(1, t, b); }
  }

  lemma QuotientAtLeast(a: int, b: nat, q: int)
    requires b > 0 && q * b <= a
    ensures a / b >= q
  {
    Divide(a, b);
    Sum(q, -(a / b), b);
    NoMultiple(q - a / b, b);
  }

  lemma MultipleRemainder(q: int, b: nat)
    requires b > 0
    ensures q * b / b == q && q * b % b == 0
  {
    QuotientIs(q * b, b, q);
  }

  /** `a` and `e` behind the start of page `p` lie in one page exactly when both lie in page `p`. */
  lemma OnePage(p: nat, size: nat, a: nat, e: nat)
    requires a < size
    ensures (p * size + a) / size == (p * size + e) / size <==> e < size
  {
    QuotientIs(p * size + a, size, p);
    if e < size {
      QuotientIs(p * size + e, size, p);
    } else {
      Sum(p, 1, size);
      QuotientAtLeast(p * size + e, size, p + 1);
    }
  }

  /** Block `k + 1` of size `s` ends in the page block `k` starts in exactly when it is one of the `c` blocks that fit. */
  lemma NextInPage(p: nat, size: nat, o: nat, s: nat, k: nat, c: nat)
    requires s > 0 && k < c && o + k * s + s <= size
    requires if k + 1 < c then o + (k + 1) * s + s <= size else o + (k + 1) * s + s > size
    ensures (p * size + o + k * s) / size == (p * size + o + (k + 1) * s + s - 1) / size <==> k + 1 < c
  {
    Monotone(0, k, s);
    Monotone(0, k + 1, s);
    OnePage(p, size, o + k * s, o + (k + 1) * s + s - 1);
  }

  /** Where block `k` of `u` units ends behind a header of `h` units, at `a` bytes a unit. */
  lemma RowEnd(h: nat, u: nat, k: nat, a: nat)
    ensures h * a + k * (u * a) + u * a == (h + (k + 1) * u) * a
  {
    Regroup(k, u, a);
    Sum(k, 1, u);
    Sum(k * u, u, a);
    Sum(h, k * u + u, a);
  }

  /** Of blocks of `u` units that fit `c` times, but not once more, into `p` units behind a
      header of `h` units, the first `c` end in the page and the next one behind it. */
  lemma RowFits(h: nat, u: nat, c: nat, p: nat, k: nat, a: nat)
    requires a > 0
    ensures k < c && h + c * u <= p ==> h * a + k * (u * a) + u * a <= p * a
    ensures h + (c + 1) * u > p ==> h * a + c * (u * a) + u * a > p * a
  {
    RowEnd(h, u, k, a);
    RowEnd(h, u, c, a);
    if k < c && h + c * u <= p {
      Monotone(k + 1, c, u);
      Monotone(h + (k + 1) * u, p, a);
    }
    if h + (c + 1) * u > p {
      Monotone(p + 1, h + (c + 1) * u, a);
      Sum(p, 1, a);
    }
  }
}
