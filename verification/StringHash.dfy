/** The string hash: h becomes 5 h plus the character, in 64 bits, for each character.
    Plain characters are signed, so a character may lower the hash. */
module StringHash {
  const M: int := 0x1_0000_0000_0000_0000

  newtype Char = x: int | -128 <= x < 128
  newtype ULong = x: int | 0 <= x < M

  function Five(n: nat): nat {
    if n == 0 then 1 else 5 * Five(n - 1)
  }

  /** The base-5 polynomial of the characters, first character most significant. */
  function Polynomial(t: seq<Char>): int {
    if t == [] then 0 else t[0] as int * Five(|t| - 1) + Polynomial(t[1..])
  }

  /** The hash of a string without its terminator. */
  function Hash(t: seq<Char>): ULong {
    (Polynomial(t) % M) as ULong
  }

  lemma {:induction false} PolynomialConcat(s: seq<Char>, t: seq<Char>)
    ensures Polynomial(s + t) == Polynomial(s) * Five(|t|) + Polynomial(t)
  {
    if s == [] {
      assert s + t == t;
    } else {
      var r := s[1..];
      assert (s + t)[1..] == r + t;
      PolynomialConcat(r, t);
      FiveSum(|r|, |t|);
      Regroup(s[0] as int, Five(|r|), Five(|t|), Polynomial(r));
      assert (s + t)[0] == s[0];
    }
  }

  lemma Regroup(c: int, p: int, q: int, r: int)
    ensures c * (p * q) + r * q == (c * p + r) * q
  {
  }

  lemma {:induction false} FiveSum(m: nat, n: nat)
    ensures Five(m + n) == Five(m) * Five(n)
  {
    if m > 0 {
      FiveSum(m - 1, n);
      assert 5 * (Five(m - 1) * Five(n)) == (5 * Five(m - 1)) * Five(n);
    }
  }

  /** Reducing a modulo M first does not change a * p + b modulo M. */
  lemma ReduceFirst(a: int, p: int, b: int)
    ensures ((a % M) * p + b) % M == (a * p + b) % M
  {
    var q, r := a / M, a % M;
    assert a * p + b == M * (q * p) + (r * p + b);
    ModShift(r * p + b, q * p);
  }

  lemma ModShift(x: int, k: int)
    ensures (M * k + x) % M == x % M
  {
    var y := M * k + x;
    assert M * (y / M - k - x / M) == x % M - y % M;
  }

  /** The hash of a concatenation from the hashes of its parts. */
  lemma HashConcat(s: seq<Char>, t: seq<Char>)
    ensures Hash(s + t) as int == (Hash(s) as int * Five(|t|) + Hash(t) as int) % M
  {
    hide *;
    PolynomialConcat(s, t);
    HashIs(s);
    HashIs(t);
    HashIs(s + t);
    Combine(Polynomial(s), Five(|t|), Polynomial(t));
  }

  lemma HashIs(t: seq<Char>)
    ensures Hash(t) as int == Polynomial(t) % M
  {
    hide Polynomial;
  }

  lemma Combine(a: int, f: int, b: int)
    ensures ((a % M) * f + b % M) % M == (a * f + b) % M
  {
    ReduceFirst(a, f, b);
    ReduceSecond((a % M) * f, b);
  }

  lemma ReduceSecond(a: int, b: int)
    ensures (a + b % M) % M == (a + b) % M
  {
    ReduceFirst(b, 1, a);
  }

  /** The hash of no characters is zero, and one more character takes it to five times itself
      plus the character, in 64 bits. */
  lemma HashSnoc(t: seq<Char>, c: Char)
    ensures Hash([]) == 0
    ensures Hash(t + [c]) as int == (5 * Hash(t) as int + c as int) % 0x1_0000_0000_0000_0000
  {
    HashConcat(t, [c]);
    OneChar(c);
    var h := Hash(t) as int;
    assert Hash([c]) as int == c as int % M && Five(1) == 5 && h * 5 == 5 * h;
    hide Hash, Five;
    ReduceSecond(5 * h, c as int);
  }

  /** The loop stops at the first NUL of the memory at s; what follows does not matter. */
  method HashString(s: seq<Char>, ghost length: nat) returns (h: ULong)
    requires length < |s| && s[length] == 0
    requires forall i :: 0 <= i < length ==> s[i] != 0
    ensures h == Hash(s[..length])
  {
    h := 0;
    var p := 0;
    while s[p] != 0
      invariant 0 <= p <= length
      invariant h == Hash(s[..p])
      decreases length - p
    {
      HashConcat(s[..p], [s[p]]);
      assert s[..p] + [s[p]] == s[..p + 1];
      OneChar(s[p]);
      ReduceFirst(s[p] as int, 1, h as int * 5);
      h := ((5 * h as int + s[p] as int) % M) as ULong;
      p := p + 1;
    }
  }

  lemma OneChar(c: Char)
    ensures Hash([c]) as int == c as int % M && Five(1) == 5
  {
    assert Five(0) == 1 && [c][1..] == [];
    assert Polynomial([c]) == c as int * Five(0) + Polynomial([]);
  }
}
