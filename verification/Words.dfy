/** Machine words: wrapping counters, masking, and capacities that are powers of two. */
module Words {

  function Pow2(k: nat): (r: nat)
    ensures r > 0
  {
    if k == 0 then 1 else 2 * Pow2(k - 1)
  }

  const BITS: nat := 64

  /** Number of values of a `usize`. */
  const WORD: nat := 0x1_0000_0000_0000_0000

  function WrappingAdd(a: nat, b: nat): nat { (a + b) % WORD }

  function WrappingSub(a: nat, b: nat): nat
    requires a < WORD && b < WORD
  {
    (a + WORD - b) % WORD
  }

  /** Bitwise `a & b`, lowest bit first. */
  function And(a: nat, b: nat): nat {
    if a == 0 || b == 0 then 0
    else (if a % 2 == 1 && b % 2 == 1 then 1 else 0) + 2 * And(a / 2, b / 2)
  }

  /** Smallest power of two at or above `n`. */
  function NextPowerOfTwo(n: nat): nat {
    Pow2(LogAtLeast(n, 0))
  }

  function LogAtLeast(n: nat, k: nat): (r: nat)
    ensures r >= k && Pow2(r) >= n
    ensures forall j :: k <= j < r ==> Pow2(j) < n
    decreases n - Pow2(k)
  {
    if Pow2(k) >= n then k else LogAtLeast(n, k + 1)
  }

  lemma {:induction false} Pow2Add(a: nat, b: nat)
    ensures Pow2(a + b) == Pow2(a) * Pow2(b)
  {
    if a > 0 {
      Pow2Add(a - 1, b);
      assert 2 * (Pow2(a - 1) * Pow2(b)) == (2 * Pow2(a - 1)) * Pow2(b);
    }
  }

  lemma WordIsPow2()
    ensures WORD == Pow2(BITS)
  {
    assert Pow2(8) == 256;
    Pow2Add(8, 8);
    Pow2Add(16, 16);
    Pow2Add(32, 32);
  }

  lemma AndOddMask(x: nat, half: nat)
    requires half > 0
    ensures And(x, 2 * half - 1) == x % 2 + 2 * And(x / 2, half - 1)
  {
    assert (2 * half - 1) / 2 == half - 1 && (2 * half - 1) % 2 == 1;
  }

  /** `x & (2^k - 1)` is `x mod 2^k`. */
  lemma {:induction false} MaskIsMod(x: nat, k: nat)
    ensures And(x, Pow2(k) - 1) == x % Pow2(k)
  {
    if k > 0 {
      var half := Pow2(k - 1);
      MaskIsMod(x / 2, k - 1);
      AndOddMask(x, half);
      HalveMod(x, half);
    }
  }

  lemma HalveMod(x: nat, half: nat)
    requires half > 0
    ensures x % (2 * half) == x % 2 + 2 * ((x / 2) % half)
  {
    var q, r := (x / 2) / half, (x / 2) % half;
    assert x / 2 == half * q + r;
    assert x == (2 * half) * q + (2 * r + x % 2);
    ModUnique(x, 2 * half, q, 2 * r + x % 2);
  }

  lemma MulAtLeast(m: nat, d: nat)
    requires d >= 1
    ensures m * d >= m
  {
    assert m * d == m + m * (d - 1);
    assert m * (d - 1) >= 0;
  }

  lemma SmallMultiple(m: int, d: int)
    requires m > 0 && -m < m * d < m
    ensures d == 0
  {
    assert m * (-d) == -(m * d);
    if d >= 1 { MulAtLeast(m, d); }
    if d <= -1 { MulAtLeast(m, -d); }
  }

  lemma ModUnique(x: nat, m: nat, q: nat, r: nat)
    requires m > 0 && x == m * q + r && r < m
    ensures x % m == r
  {
    var q', r' := x / m, x % m;
    assert m * (q - q') == m * q - m * q' == r' - r;
    SmallMultiple(m, q - q');
  }

  lemma ModOfMultiple(n: nat, c: nat, d: nat)
    requires c > 0 && d > 0
    ensures c * d > 0 && (n % (c * d)) % c == n % c
  {
    MulAtLeast(c, d);
    var m := c * d;
    var q, r := n / m, n % m;
    var q', r' := r / c, r % c;
    assert n == m * q + (c * q' + r');
    assert m * q == c * (d * q) by { MulAssoc(c, d, q); }
    assert c * (d * q) + c * q' == c * (d * q + q');
    ModUnique(n, c, d * q + q', r');
  }

  lemma MulAssoc(a: nat, b: nat, c: nat)
    ensures (a * b) * c == a * (b * c)
  {
  }

  /** Reducing modulo the word first does not change a residue modulo a smaller power of two. */
  lemma ModOfWord(n: nat, k: nat)
    requires k <= BITS
    ensures (n % WORD) % Pow2(k) == n % Pow2(k)
  {
    WordIsPow2();
    Pow2Add(k, BITS - k);
    ModOfMultiple(n, Pow2(k), Pow2(BITS - k));
  }

  /** Two counters less than a capacity apart have different residues. */
  lemma DistinctSlots(a: nat, b: nat, cap: nat)
    requires a < b < a + cap
    ensures a % cap != b % cap
  {
    if a % cap == b % cap {
      var q, q' := a / cap, b / cap;
      assert cap * (q' - q) == cap * q' - cap * q == b - a;
      SmallMultiple(cap, q' - q);
    }
  }

  // Wrapped counters stand for unbounded ones.

  /** Wrapping subtraction of two wrapped counters is their true distance. */
  lemma WrappedDistance(tail: nat, head: nat)
    requires head <= tail < head + WORD
    ensures WrappingSub(tail % WORD, head % WORD) == tail - head
  {
    var t, h := tail % WORD, head % WORD;
    var qt, qh := tail / WORD, head / WORD;
    assert tail == WORD * qt + t && head == WORD * qh + h;
    assert tail - head == WORD * (qt - qh) + (t - h);
    if t >= h {
      assert qt == qh;
      ModUnique(t + WORD - h, WORD, 1, t - h);
    } else {
      assert qt == qh + 1;
      ModUnique(t + WORD - h, WORD, 0, t + WORD - h);
    }
  }

  lemma WrappedEqual(tail: nat, head: nat)
    requires head <= tail < head + WORD
    ensures head % WORD == tail % WORD <==> head == tail
  {
    if head < tail { DistinctSlots(head, tail, WORD); }
  }

  lemma WrappedIncrement(n: nat)
    ensures WrappingAdd(n % WORD, 1) == (n + 1) % WORD
  {
    var q, r := n / WORD, n % WORD;
    if r + 1 < WORD {
      ModUnique(n + 1, WORD, q, r + 1);
    } else {
      ModUnique(n + 1, WORD, q + 1, 0);
      ModUnique(WORD, WORD, 1, 0);
    }
  }

  /** The slot index computed from a wrapped counter is the true counter modulo capacity. */
  lemma SlotIndex(n: nat, k: nat)
    requires k <= BITS
    ensures And(n % WORD, Pow2(k) - 1) == n % Pow2(k)
  {
    MaskIsMod(n % WORD, k);
    ModOfWord(n, k);
  }
}
