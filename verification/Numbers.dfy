/** Quotients and remainders. */
module Numbers {
  lemma DivMod(n: int, d: int, q: int, r: int)
    requires d > 0 && 0 <= r < d && n == q * d + r
    ensures n / d == q && n % d == r
  {
    var e := n / d - q;
    assert n == n / d * d + n % d;
    assert e * d == r - n % d;
    Multiples(e, d);
  }

  lemma Multiples(e: int, d: int)
    requires d > 0
    ensures e >= 1 ==> e * d >= d
    ensures e <= -1 ==> e * d <= -d
  {
    if e >= 1 { assert (e - 1) * d >= 0; } else if e <= -1 { assert (-e - 1) * d >= 0; }
  }

  /** What is left of `late` after as many whole intervals as fit in. */
  lemma WholeSteps(late: int, i: int)
    requires i > 0 && late >= 0
    ensures 0 <= late - late / i * i < i && late / i * i % i == 0 && 0 <= late / i * i
  {
    assert late == late / i * i + late % i;
    DivMod(late / i * i, i, late / i, 0);
    Multiples(late / i, i);
    if late / i <= -1 { Multiples(late / i, i); }
  }

  lemma SameRemainder(p: int, b: int, n: int)
    requires n > 0 && p <= b < p + n && p % n == b % n
    ensures p == b
  {
    var e := b / n - p / n;
    assert p == p / n * n + p % n && b == b / n * n + b % n;
    assert e * n == b - p;
    Multiples(e, n);
  }

  lemma NextRemainder(a: int, b: int, n: int)
    requires n > 0 && a % n == b % n
    ensures (a + 1) % n == (b + 1) % n
  {
    var r := if a % n + 1 == n then 0 else a % n + 1;
    DivMod(a + 1, n, a / n + if r == 0 then 1 else 0, r);
    DivMod(b + 1, n, b / n + if r == 0 then 1 else 0, r);
  }

  /** Blocks of n blocks of width w. */
  lemma Nested(q: int, w: int, n: int)
    requires w > 0 && n > 0
    ensures w * n > 0 && q * w % (w * n) == q % n * w
  {
    var m, r := q / n, q % n;
    assert q == m * n + r;
    Multiples(n, w);
    assert 0 <= r * w <= (n - 1) * w;
    assert q * w == m * (w * n) + r * w;
    DivMod(q * w, w * n, m, r * w);
  }
}
