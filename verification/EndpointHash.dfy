/** The 32-bit FNV-1a-style hash of a destination endpoint and its reduction to 2^18 slots.
    Different ports of one host never share a slot. */
module EndpointHash {
  import opened Machine

  const OFFSET_BASIS: nat := 2166136261
  const PRIME: nat := 16777619
  const SLOTS: nat := 0x4_0000  // 2^18: masking with 0x3FFFF is reduction modulo this

  function Pow2(k: nat): (r: nat)
    ensures r > 0
  {
    if k == 0 then 1 else 2 * Pow2(k - 1)
  }

  /** Bitwise exclusive or of non-negative integers. */
  function Xor(a: nat, b: nat): nat {
    if a == 0 then b
    else if b == 0 then a
    else 2 * Xor(a / 2, b / 2) + (a % 2 + b % 2) % 2
  }

  /** `h ^= x; h *= PRIME` on a 32-bit word. */
  function Mix(h: nat, x: nat): u32 {
    Wrap32(Xor(h, x) * PRIME)
  }

  /** The hash state after the first `n` bytes of the address text. */
  function HostState(ip: string, n: nat): u32
    requires n <= |ip|
  {
    if n == 0 then OFFSET_BASIS else Mix(HostState(ip, n - 1), ip[n - 1] as int)
  }

  function SlotOf(ip: string, port: u16): (s: nat)
    ensures s < SLOTS
  {
    Mix(HostState(ip, |ip|), port) % SLOTS
  }

  method HashEndpoint(ip: string, port: u16) returns (h: u32)
    ensures h == Mix(HostState(ip, |ip|), port)
    ensures h % 0x4_0000 == SlotOf(ip, port)
    ensures |ip| == 0 ==> h == Xor(2166136261, port) * 16777619 % 0x1_0000_0000
  {
    h := OFFSET_BASIS;
    for i := 0 to |ip|
      invariant h == HostState(ip, i)
    {
      h := Wrap32(Xor(h, ip[i] as int) * PRIME);
    }
    h := Wrap32(Xor(h, port) * PRIME);
  }

  // ----- Injectivity per host -----

  /** Doubling step of exclusive or, also when an operand is zero. */
  lemma XorStep(a: nat, b: nat)
    ensures Xor(a, b) == 2 * Xor(a / 2, b / 2) + (a % 2 + b % 2) % 2
  {
  }

  /** The low `k` bits of `h ^ p` determine the low `k` bits of `p`. */
  lemma {:induction false} XorLowBits(h: nat, p: nat, q: nat, k: nat)
    requires p < Pow2(k) && q < Pow2(k)
    requires Xor(h, p) % Pow2(k) == Xor(h, q) % Pow2(k)
    ensures p == q
  {
    if k > 0 {
      XorStep(h, p);
      XorStep(h, q);
      var m := Pow2(k - 1);
      var x, y := Xor(h / 2, p / 2), Xor(h / 2, q / 2);
      var b, c := (h % 2 + p % 2) % 2, (h % 2 + q % 2) % 2;
      assert Pow2(k) == 2 * m;
      SplitLowBit(x, b, y, c, m);
      XorLowBits(h / 2, p / 2, q / 2, k - 1);
      ParityCancels(h, p, q);
    }
  }

  lemma ParityCancels(h: nat, p: nat, q: nat)
    requires (h % 2 + p % 2) % 2 == (h % 2 + q % 2) % 2 && p / 2 == q / 2
    ensures p == q
  {
  }

  lemma SplitLowBit(x: nat, b: nat, y: nat, c: nat, m: nat)
    requires b < 2 && c < 2 && 0 < m
    requires (2 * x + b) % (2 * m) == (2 * y + c) % (2 * m)
    ensures x % m == y % m && b == c
  {
    HalveModulus(x, b, m);
    HalveModulus(y, c, m);
  }

  lemma HalveModulus(x: nat, bit: nat, m: nat)
    requires bit < 2 && 0 < m
    ensures (2 * x + bit) % (2 * m) == 2 * (x % m) + bit
  {
    var q, r := x / m, x % m;
    assert x == m * q + r;
    assert 2 * x + bit == (2 * m) * q + (2 * r + bit);
    DivisionUnique(2 * x + bit, 2 * m, q, 2 * r + bit);
  }

  /** The multiplier is odd, so it is invertible modulo 2^18: 403 * 17563 == 27 * 2^18 + 1. */
  lemma PrimeInvertible(x: nat, y: nat)
    requires (x * PRIME) % TWO32 % SLOTS == (y * PRIME) % TWO32 % SLOTS
    ensures x % SLOTS == y % SLOTS
  {
    var a, b := (x * PRIME) / TWO32, (y * PRIME) / TWO32;
    var c, d := (x * PRIME) % TWO32 / SLOTS, (y * PRIME) % TWO32 / SLOTS;
    var t := (a - b) * 16384 + (c - d);
    assert (x - y) * PRIME == SLOTS * t;
    var k := t * 17563 - (x - y) * (64 * 17563 + 27);
    assert x - y == SLOTS * k;
    assert x == SLOTS * (y / SLOTS + k) + y % SLOTS;
    DivisionUnique(x, SLOTS, y / SLOTS + k, y % SLOTS);
  }

  /** No two 16-bit ports of one host collide in the slot table. */
  lemma PortsDoNotCollide(ip: string, p: u16, q: u16)
    requires SlotOf(ip, p) == SlotOf(ip, q)
    ensures p == q
  {
    var h := HostState(ip, |ip|);
    PrimeInvertible(Xor(h, p), Xor(h, q));
    SlotsIsPow2();
    XorLowBits(h, p, q, 18);
  }

  lemma SlotsIsPow2()
    ensures Pow2(18) == SLOTS
  {
    assert Pow2(6) == 64;
    assert Pow2(12) == 4096;
  }
}
