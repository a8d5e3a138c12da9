/** Vocabulary shared by every component: options, machine-word wrap-around and a
    little sequence theory (suffixes, C strings). */
module Machine {

  const TWO16: nat := 0x1_0000
  const TWO32: nat := 0x1_0000_0000
  const TWO64: nat := 0x1_0000_0000_0000_0000

  type u8 = x: int | 0 <= x < 256
  type u16 = x: int | 0 <= x < TWO16
  type u32 = x: int | 0 <= x < TWO32
  type u64 = x: int | 0 <= x < TWO64

  /** Conversion to `uint32_t` / `uint64_t`: reduction modulo the word size. Dafny's `%` is
      never negative, so this is also what C does with a negative operand. */
  function Wrap32(x: int): (r: u32)
    ensures 0 <= x < TWO32 ==> r == x
  {
    x % TWO32
  }

  function Wrap64(x: int): (r: u64)
    ensures 0 <= x < TWO64 ==> r == x
  {
    x % TWO64
  }

  /** Quotient and remainder are determined by any decomposition with a small remainder. */
  lemma DivisionUnique(a: int, n: nat, q: int, r: int)
    requires 0 <= r < n && a == n * q + r
    ensures a / n == q && a % n == r
  {
    assert a == n * (a / n) + a % n;
    assert n * (q - a / n) == a % n - r;
    MultipleTooBig(n, q - a / n);
  }

  lemma MultipleTooBig(n: nat, d: int)
    ensures d >= 1 ==> n * d >= n
    ensures d <= -1 ==> n * d <= -(n as int)
  {
  }

  /** Wrapping along the way does not change the final word, in either direction of adjustment. */
  lemma WrapAdd(x: int, y: int)
    ensures Wrap64(Wrap64(x) + y) == Wrap64(x + y)
    ensures Wrap64(x + Wrap64(y)) == Wrap64(x + y)
  {
    WrapShift(x + y, -(x / TWO64), Wrap64(x) + y);
    WrapShift(x + y, -(y / TWO64), x + Wrap64(y));
  }

  /** Words that differ by a multiple of the word size wrap alike. */
  lemma WrapShift(x: int, q: int, y: int)
    requires y == x + TWO64 * q
    ensures Wrap64(y) == Wrap64(x)
  {
    assert y == TWO64 * (x / TWO64 + q) + x % TWO64;
    DivisionUnique(y, TWO64, x / TWO64 + q, x % TWO64);
  }

  datatype Option<+T> = None | Some(value: T) {
    predicate IsFailure() {
      None?
    }

    function PropagateFailure<U>(): Option<U>
      requires None?
    {
      None
    }

    function Extract(): T
      requires Some?
    {
      value
    }
  }

  function Min(a: int, b: int): int { if a < b then a else b }
  function Max(a: int, b: int): int { if a < b then b else a }

  /** The last `n` elements of `s`, or all of `s` when it is shorter. */
  function LastN<T>(s: seq<T>, n: nat): (r: seq<T>)
    ensures |r| == Min(n, |s|)
  {
    if |s| <= n then s else s[|s| - n..]
  }

  lemma DropOneMore<T>(s: seq<T>, k: nat)
    requires k < |s|
    ensures s[k..][1..] == s[k + 1..] && s[k..][0] == s[k]
  {
  }

  lemma SliceOfSlice<T>(s: seq<T>, from: nat, to: nat, lo: nat, hi: nat)
    requires from <= to <= |s| && lo <= hi <= to - from
    ensures s[from..to][lo..hi] == s[from + lo..from + hi]
  {
    var t := s[from..to];
    assert forall k :: lo <= k < hi ==> t[k] == s[from + k];
    assert forall k :: 0 <= k < hi - lo ==> t[lo..hi][k] == t[lo + k] == s[from + lo..from + hi][k];
  }

  lemma LastNOfSlice<T>(h: seq<T>, lo: nat, hi: nat, n: nat)
    requires lo <= hi <= |h|
    ensures LastN(h[lo..hi], n) == h[Max(lo, hi - n)..hi]
  {
    if hi - n > lo {
      assert h[lo..hi][hi - lo - n..] == h[hi - n..hi];
    }
  }

  /** `s` is a contiguous suffix of `h`. */
  predicate Suffix<T(==)>(s: seq<T>, h: seq<T>) {
    |s| <= |h| && s == h[|h| - |s|..]
  }

  lemma SuffixTail<T>(s: seq<T>, h: seq<T>)
    requires Suffix(s, h) && |s| > 0
    ensures Suffix(s[1..], h)
  {
    DropOneMore(h, |h| - |s|);
  }

  lemma SuffixSnoc<T>(s: seq<T>, h: seq<T>, x: T)
    requires Suffix(s, h)
    ensures Suffix(s + [x], h + [x])
  {
    assert (h + [x])[|h| - |s|..] == h[|h| - |s|..] + [x];
  }

  function Reversed<T>(s: seq<T>): (r: seq<T>)
    ensures |r| == |s|
    ensures forall i :: 0 <= i < |r| ==> r[i] == s[|s| - 1 - i]
  {
    seq(|s|, i requires 0 <= i < |s| => s[|s| - 1 - i])
  }

  /** A C string's content: no terminator inside. */
  predicate IsCString(s: string) {
    '\0' !in s
  }

  /** What a C function reads from a character buffer: everything before the first NUL. */
  function CString(s: string): (r: string)
    ensures IsCString(r)
    ensures r <= s
    ensures |r| < |s| ==> s[|r|] == '\0'
  {
    if s == [] || s[0] == '\0' then [] else [s[0]] + CString(s[1..])
  }

  /** A terminated buffer reads back as its content whatever stale bytes follow the NUL. */
  lemma {:induction false} CStringOfTerminated(content: string, stale: string)
    requires IsCString(content)
    ensures CString(content + ['\0'] + stale) == content
  {
    var s := content + ['\0'] + stale;
    if content == [] {
      assert s[0] == '\0';
    } else {
      CStringOfTerminated(content[1..], stale);
      assert s[1..] == content[1..] + ['\0'] + stale;
    }
  }

  // ----- Running a step function over a sequence of inputs -----

  function Fold<S, X>(step: (S, X) -> S, start: S, xs: seq<X>, n: nat): S
    requires n <= |xs|
  {
    if n == 0 then start else step(Fold(step, start, xs, n - 1), xs[n - 1])
  }

  lemma {:induction false} FoldPrefix<S, X>(step: (S, X) -> S, start: S, xs: seq<X>, x: X, n: nat)
    requires n <= |xs|
    ensures Fold(step, start, xs + [x], n) == Fold(step, start, xs, n)
  {
    if n > 0 {
      FoldPrefix(step, start, xs, x, n - 1);
    }
  }

  /** Appending an input is one more step. */
  lemma FoldSnoc<S, X>(step: (S, X) -> S, start: S, xs: seq<X>, x: X)
    ensures Fold(step, start, xs + [x], |xs| + 1) == step(Fold(step, start, xs, |xs|), x)
  {
    FoldPrefix(step, start, xs, x, |xs|);
  }

  /** Induction over a run: what holds at the start and survives every step holds throughout. */
  lemma {:induction false} FoldInvariant<S(!new), X>(step: (S, X) -> S, start: S, xs: seq<X>, n: nat,
                                                     inv: (S, nat) -> bool)
    requires n <= |xs| && inv(start, 0)
    requires forall s, k :: 0 <= k < n && inv(s, k) ==> inv(step(s, xs[k]), k + 1)
    ensures inv(Fold(step, start, xs, n), n)
  {
    if n > 0 {
      FoldInvariant(step, start, xs, n - 1, inv);
    }
  }

  /** The same when every step taken satisfies `ok`. */
  lemma {:induction false} FoldChain<S(!new), X(!new)>(step: (S, X) -> S, start: S, xs: seq<X>, n: nat,
                                                      ok: (S, X) -> bool, inv: (S, nat) -> bool)
    requires n <= |xs| && inv(start, 0)
    requires forall k :: 0 <= k < n ==> ok(Fold(step, start, xs, k), xs[k])
    requires forall s, x, k: nat :: inv(s, k) && ok(s, x) ==> inv(step(s, x), k + 1)
    ensures inv(Fold(step, start, xs, n), n)
    decreases n
  {
    if n > 0 {
      FoldChain(step, start, xs, n - 1, ok, inv);
    }
  }

  /** What a run emits along the way. */
  function Emitted<S, X, H>(step: (S, X) -> S, emit: (S, X) -> seq<H>, start: S, xs: seq<X>, n: nat): seq<H>
    requires n <= |xs|
  {
    if n == 0 then []
    else Emitted(step, emit, start, xs, n - 1) + emit(Fold(step, start, xs, n - 1), xs[n - 1])
  }

  lemma {:induction false} FoldEmits<S(!new), X(!new), H(!new)>(
      step: (S, X) -> S, emit: (S, X) -> seq<H>, start: S, xs: seq<X>, n: nat, inv: (S, seq<H>) -> bool)
    requires n <= |xs| && inv(start, [])
    requires forall s, x, h :: inv(s, h) ==> inv(step(s, x), h + emit(s, x))
    ensures inv(Fold(step, start, xs, n), Emitted(step, emit, start, xs, n))
    decreases n
  {
    if n > 0 {
      FoldEmits(step, emit, start, xs, n - 1, inv);
    }
  }

  /** The accepted inputs among the first `n`. */
  function Chosen<A, X>(accept: A -> Option<X>, h: seq<A>, n: nat): (xs: seq<X>)
    requires n <= |h|
    ensures |xs| <= n
  {
    if n == 0 then []
    else
      var xs := Chosen(accept, h, n - 1);
      match accept(h[n - 1])
      case None => xs
      case Some(x) => xs + [x]
  }

  lemma {:induction false} ChosenAll<A, X>(accept: A -> Option<X>, h: seq<A>, xs: seq<X>, n: nat)
    requires n <= |h| == |xs| && forall i :: 0 <= i < |h| ==> accept(h[i]) == Some(xs[i])
    ensures Chosen(accept, h, n) == xs[..n]
  {
    if n > 0 {
      ChosenAll(accept, h, xs, n - 1);
      assert xs[..n] == xs[..n - 1] + [xs[n - 1]];
    }
  }

  /** The numbers below `n` that satisfy `ok`, and what `make` gives for them. */
  function Indices(ok: nat -> bool, n: nat): seq<nat> {
    if n == 0 then [] else if ok(n - 1) then Indices(ok, n - 1) + [n - 1] else Indices(ok, n - 1)
  }

  function Collected<X>(ok: nat -> bool, make: nat -> X, n: nat): seq<X> {
    if n == 0 then [] else if ok(n - 1) then Collected(ok, make, n - 1) + [make(n - 1)] else Collected(ok, make, n - 1)
  }

  /** Numbers below `n` that satisfy `ok`, in order. */
  predicate Rising(ok: nat -> bool, ks: seq<nat>, n: nat) {
    (forall k :: 0 <= k < |ks| ==> ks[k] < n && ok(ks[k])) && forall i, j :: 0 <= i < j < |ks| ==> ks[i] < ks[j]
  }

  lemma {:induction false} IndicesInOrder(ok: nat -> bool, n: nat)
    ensures Rising(ok, Indices(ok, n), n)
  {
    if n > 0 {
      IndicesInOrder(ok, n - 1);
    }
  }

  lemma {:induction false} CollectedAt<X>(ok: nat -> bool, make: nat -> X, n: nat)
    ensures var ks, xs := Indices(ok, n), Collected(ok, make, n);
      |xs| == |ks| && forall k :: 0 <= k < |ks| ==> xs[k] == make(ks[k])
  {
    if n > 0 {
      CollectedAt(ok, make, n - 1);
    }
  }

  /** `ks` are the indices below `n` of the accepted inputs, in order, and `xs` what they amount to. */
  ghost predicate Picked<A, X>(accept: A -> Option<X>, h: seq<A>, n: nat, ks: seq<nat>, xs: seq<X>) {
    n <= |h| && |xs| == |ks| &&
    (forall i, j :: 0 <= i < j < |ks| ==> ks[i] < ks[j]) &&
    (forall j :: 0 <= j < |ks| ==> ks[j] < n && accept(h[ks[j]]) == Some(xs[j])) &&
    (forall k: nat :: k < n && accept(h[k]).Some? ==> k in ks)
  }

  lemma {:induction false} ChosenPicked<A, X>(accept: A -> Option<X>, h: seq<A>, n: nat) returns (ks: seq<nat>)
    requires n <= |h|
    ensures Picked(accept, h, n, ks, Chosen(accept, h, n))
  {
    ks := [];
    if n > 0 {
      var before := ChosenPicked(accept, h, n - 1);
      ks := before;
      if accept(h[n - 1]).Some? {
        ks := before + [n - 1];
        assert ks[|before|] == n - 1;
        forall k: nat | k < n && accept(h[k]).Some? ensures k in ks {
          assert k < n - 1 ==> k in before;
        }
      }
    }
  }

  /** Inputs that leave the state alone can be filtered out beforehand. */
  lemma {:induction false} FoldChosen<S(!new), A(!new), X>(
      accept: A -> Option<X>, step: (S, X) -> S, outer: (S, A) -> S, start: S, h: seq<A>, n: nat)
    requires n <= |h|
    requires forall s, a :: outer(s, a) == (match accept(a) case None => s case Some(x) => step(s, x))
    ensures var xs := Chosen(accept, h, n); Fold(outer, start, h, n) == Fold(step, start, xs, |xs|)
  {
    if n > 0 {
      FoldChosen(accept, step, outer, start, h, n - 1);
      var xs := Chosen(accept, h, n - 1);
      match accept(h[n - 1])
      case None =>
      case Some(x) => FoldSnoc(step, start, xs, x);
    }
  }
}
