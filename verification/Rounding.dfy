/** ROUNDUP and alignment, as include/align.h computes them on powers of two. */
module Rounding {
  const WORD: nat := 0x1_0000_0000_0000_0000
  const U32: nat := 0x1_0000_0000

  function Pow2(n: nat): (r: nat)
    ensures r > 0
  {
    if n == 0 then 1 else 2 * Pow2(n - 1)
  }

  // x & ~(n - 1)
  function RoundDown(x: nat, n: nat): (r: nat)
    requires n > 0
    ensures r <= x < r + n
  {
    x - x % n
  }

  function RoundUp(x: nat, n: nat): (r: nat)
    requires n > 0
    ensures x <= r < x + n
  {
    RoundDown(x + (n - 1), n)
  }

  lemma MulGap(n: int, a: int, b: int)
    requires n > 0 && a > b
    ensures n * a >= n * b + n
  {
    assert n * (a - b - 1) >= 0;
  }

  lemma Quotient(n: int, q: int, r: int, q': int, r': int)
    requires n > 0 && n * q + r == n * q' + r' && 0 <= r < n && 0 <= r' < n
    ensures q == q'
  {
    if q > q' {
      MulGap(n, q, q');
    } else if q < q' {
      MulGap(n, q', q);
    }
  }

  lemma DivIs(x: int, n: int, q: int, r: int)
    requires n > 0 && x == n * q + r && 0 <= r < n
    ensures x / n == q && x % n == r
  {
    Quotient(n, q, r, x / n, x % n);
  }

  lemma DivBounds(x: int, n: int)
    requires n > 0 && x >= 0
    ensures 0 <= x / n && x / n * n <= x < x / n * n + n
  {
    assert x == n * (x / n) + x % n;
    if x / n < 0 { MulGap(n, 0, x / n); }
  }

  // Counting on, modulo n.
  lemma ModNext(x: nat, n: nat)
    requires n > 0
    ensures 0 <= x % n < n && (x % n + 1) % n == (x + 1) % n
  {
    var q, r := x / n, x % n;
    assert x == n * q + r;
    if r + 1 < n {
      DivIs(r + 1, n, 0, r + 1);
      DivIs(x + 1, n, q, r + 1);
    } else {
      DivIs(r + 1, n, 1, 0);
      assert x + 1 == n * (q + 1);
      DivIs(x + 1, n, q + 1, 0);
    }
  }

  // x & (n - 1) for a power of two n.
  function Masked(x: nat, n: nat): (r: nat)
    requires n > 0
    ensures r < n
  {
    ModNext(x, n);
    x % n
  }

  // Counting on from a reaches b's residue after (b - a) mod n steps and not before.
  lemma ModMeets(a: nat, b: nat, j: nat, n: nat)
    requires n > 0 && a <= b && j < n
    ensures (a + j) % n == b % n <==> j == (b - a) % n
  {
    var d, q, u, v := (b - a) / n, (b - a) % n, (a + j) / n, (a + j) % n;
    assert b - a == n * d + q && a + j == n * u + v;
    if j == q {
      assert b == n * (u + d) + v;
      DivIs(b, n, u + d, v);
    }
    if v == b % n {
      assert b == n * (b / n) + v;
      assert n * (b / n - u) + j == n * d + q;
      Quotient(n, b / n - u, j, d, q);
    }
  }

  // Whole multiples of n in x.
  function Quot(x: nat, n: nat): (q: nat)
    requires n > 0
    ensures q * n <= x < q * n + n
  {
    DivBounds(x, n);
    x / n
  }

  lemma MulMod(n: int, q: int)
    requires n > 0
    ensures (n * q) % n == 0 && n * q / n == q
  {
    DivIs(n * q, n, q, 0);
  }

  lemma RoundDownIs(x: nat, n: nat)
    requires n > 0
    ensures RoundDown(x, n) % n == 0
  {
    assert RoundDown(x, n) == n * (x / n);
    MulMod(n, x / n);
  }

  lemma MultiplesApart(n: int, a: int, b: int)
    requires n > 0 && a % n == 0 && b % n == 0 && a > b
    ensures a >= b + n
  {
    assert a == n * (a / n) && b == n * (b / n);
    if a / n > b / n {
      MulGap(n, a / n, b / n);
    } else if a / n < b / n {
      MulGap(n, b / n, a / n);
    }
  }

  // ROUNDUP gives the least multiple of n that is at least x.
  lemma RoundUpLeast(x: nat, n: nat, y: nat)
    requires n > 0 && y % n == 0 && y >= x
    ensures RoundUp(x, n) % n == 0 && y >= RoundUp(x, n)
  {
    RoundDownIs(x + (n - 1), n);
    if y < RoundUp(x, n) { MultiplesApart(n, RoundUp(x, n), y); }
  }

  lemma ModScale(x: nat, n: nat, c: nat)
    requires n > 0 && c > 0
    ensures c * n > 0 && ((c * x) % (c * n) == 0 <==> x % n == 0)
  {
    var q, r := x / n, x % n;
    assert x == n * q + r;
    assert c * x == (c * n) * q + c * r;
    assert 0 <= c * r < c * n;
    DivIs(c * x, c * n, q, c * r);
  }

  lemma {:induction false} Pow2Split(m: nat, n: nat)
    ensures Pow2(m + n) == Pow2(m) * Pow2(n)
  {
    if m != 0 {
      Pow2Split(m - 1, n);
      assert Pow2(m + n) == 2 * Pow2((m - 1) + n);
    }
  }

  lemma Pow2Four()
    ensures Pow2(4) == 16
  {
    assert Pow2(2) == 4;
  }

  lemma WordIs()
    ensures Pow2(64) == WORD && Pow2(12) == 4096 && Pow2(32) == 0x1_0000_0000
  {
    hide Pow2;
    Pow2Four();
    Pow2Split(4, 4);
    Pow2Split(8, 8);
    Pow2Split(16, 16);
    Pow2Split(32, 32);
    Pow2Split(8, 4);
  }

  lemma WordMultiple(shift: nat)
    requires shift <= 64
    ensures WORD % Pow2(shift) == 0
  {
    WordIs();
    Pow2Split(shift, 64 - shift);
    MulMod(Pow2(shift), Pow2(64 - shift));
  }

  // ROUNDUP on 64-bit words, where the sum may wrap.
  function RoundUp64(x: nat, n: nat): (r: nat)
    requires n > 0
  {
    RoundDown((x + (n - 1)) % WORD, n)
  }

  lemma RoundUp64Cases(x: nat, n: nat)
    requires 0 < n < WORD && x < WORD
    ensures x + (n - 1) < WORD ==> RoundUp64(x, n) == RoundDown(x + (n - 1), n)
    ensures RoundUp64(x, n) < x <==> x + (n - 1) >= WORD
  {
    hide RoundDown;
    assert x + (n - 1) < WORD ==> (x + (n - 1)) % WORD == x + (n - 1);
    assert x + (n - 1) >= WORD ==> (x + (n - 1)) % WORD == x + (n - 1) - WORD;
  }

  lemma RoundUp64Is(x: nat, shift: nat)
    requires x < WORD && shift < 64
    ensures var r := RoundUp64(x, Pow2(shift)); r < x || (r % Pow2(shift) == 0 && r < x + Pow2(shift))
    ensures RoundUp64(x, Pow2(shift)) < x <==> x + (Pow2(shift) - 1) >= WORD
  {
    hide RoundDown, RoundUp64, Pow2;
    BelowWord(shift);
    RoundUp64Cases(x, Pow2(shift));
    RoundDownIs(x + (Pow2(shift) - 1), Pow2(shift));
  }

  lemma BelowWord(shift: nat)
    requires shift < 64
    ensures Pow2(shift) < WORD
  {
    WordIs();
    Pow2Split(shift, 64 - shift);
    assert Pow2(64 - shift) == 2 * Pow2(63 - shift);
    MulGap(Pow2(shift), Pow2(64 - shift), 1);
  }

  lemma NothingAbove(x: nat, shift: nat, y: nat)
    requires x < WORD && shift < 64 && RoundUp64(x, Pow2(shift)) < x && x <= y && y % Pow2(shift) == 0
    ensures y >= WORD
  {
    hide RoundUp64, Pow2;
    var n := Pow2(shift);
    RoundUp64Is(x, shift);
    WordMultiple(shift);
    if y < WORD { MultiplesApart(n, WORD, y); }
  }

  lemma LeastAbove(x: nat, shift: nat, y: nat)
    requires x < WORD && shift < 64 && RoundUp64(x, Pow2(shift)) >= x && x <= y && y % Pow2(shift) == 0
    ensures y >= RoundUp64(x, Pow2(shift))
  {
    hide RoundUp64, Pow2;
    var n := Pow2(shift);
    RoundUp64Is(x, shift);
    if y < RoundUp64(x, n) { MultiplesApart(n, RoundUp64(x, n), y); }
  }
}
