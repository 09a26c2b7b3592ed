/** Signed big integers: a sign-and-size field over a limb array. */
module Mpz {
  import opened Limbs

  const UINT_MAX: Limb := 0xFFFF_FFFF
  const ULONG_MAX: Limb := 0xFFFF_FFFF_FFFF_FFFF
  const USHRT_MAX: Limb := 0xFFFF

  function Abs(x: int): nat {
    if x >= 0 then x else -x
  }

  /** What Number denotes for a size field and the limbs under it. */
  function Signed(size: int, limbs: seq<Limb>): int {
    if size < 0 then 0 - Value(limbs) else Value(limbs)
  }

  /** The size says exactly how many limbs are needed: the top one is not zero. */
  predicate Normalised(limbs: seq<Limb>) {
    |limbs| > 0 ==> limbs[|limbs| - 1] != 0
  }

  // ----- numbers and their limbs

  /** A normalised number of n limbs lies between B^(n-1) and B^n. */
  lemma NormalisedBounds(s: seq<Limb>)
    requires Normalised(s)
    ensures Value(s) < Pow(|s|)
    ensures |s| > 0 ==> Value(s) >= Pow(|s| - 1)
  {
    ValueBound(s);
    if |s| > 0 {
      Scale(1, s[|s| - 1] as int, Pow(|s| - 1));
    }
  }

  lemma {:induction false} PowMonotonic(m: nat, n: nat)
    requires m <= n
    ensures Pow(m) <= Pow(n)
  {
    if m < n {
      PowMonotonic(m, n - 1);
      Scale(1, B, Pow(n - 1));
    }
  }

  /** The limb at position i is digit i of the number in base B. */
  lemma {:induction false} DigitAt(s: seq<Limb>, i: nat)
    requires i < |s|
    ensures (Value(s) / Pow(i)) % B == s[i] as int
  {
    Split(s, i);
    var high := s[i + 1..];
    var p, q, v := Pow(i), Value(s[..i]), Value(high);
    ValueBound(s[..i]);
    assert q + (s[i] as int + B * v) * p == Value(s);
    DivOf(q, s[i] as int + B * v, p);
    assert (s[i] as int + B * v) % B == s[i] as int by { ModOf(s[i] as int, v); }
  }

  lemma DivOf(r: nat, q: nat, p: nat)
    requires r < p
    ensures (r + q * p) / p == q
  {
    var d := (r + q * p) / p;
    DivUnique((r + q * p) % p, d, r, q, p);
  }

  lemma ModOf(d: nat, q: nat)
    requires d < B
    ensures (d + B * q) % B == d
  {
    assert (d + B * q) / B == q by { DivOf(d, q, B); }
  }

  /** Value, cut at limb i. */
  lemma {:induction false} Split(s: seq<Limb>, i: nat)
    requires i < |s|
    ensures Value(s) == Value(s[..i]) + (s[i] as int + B * Value(s[i + 1..])) * Pow(i)
  {
    var n := |s| - 1;
    if i == n {
      assert s[i + 1..] == [];
    } else {
      Split(s[..n], i);
      var t, d := s[..n], s[n] as int;
      assert t[..i] == s[..i] && t[i + 1..] == s[i + 1..n];
      assert s[i + 1..] == s[i + 1..n] + [s[n]];
      ValueSnoc(s[i + 1..n], s[n]);
      PowSum(i, n - 1 - i);
      var v, p := Value(s[i + 1..n]), Pow(i);
      var w := Pow(n - 1 - i);
      assert Value(s[i + 1..]) == v + d * w;
      assert Pow(n) == B * (p * w);
      SplitStep(s[i] as int, v, d, w, p);
    }
  }

  lemma SplitStep(a: int, v: int, d: int, w: int, p: int)
    ensures (a + B * (v + d * w)) * p == (a + B * v) * p + d * (B * (p * w))
  {
    calc {
      (a + B * (v + d * w)) * p;
      ((a + B * v) + B * (d * w)) * p;
      (a + B * v) * p + B * (d * w) * p;
      { assert (d * w) * p == d * (p * w); }
      (a + B * v) * p + d * (B * (p * w));
    }
  }

  lemma {:induction false} PowSum(m: nat, n: nat)
    ensures Pow(m) * Pow(n) == Pow(m + n)
  {
    if n > 0 {
      PowSum(m, n - 1);
      assert Pow(m) * (B * Pow(n - 1)) == B * (Pow(m) * Pow(n - 1));
    }
  }

  // ----- the objects

  class Number {
    var size: int
    var limbs: array<Limb>

    /** At least one limb is allocated, the size fits, and the top limb is not zero. */
    ghost predicate Valid()
      reads this, limbs
    {
      limbs.Length >= 1 && Abs(size) <= limbs.Length && Normalised(Used())
    }

    ghost function Used(): seq<Limb>
      requires Abs(size) <= limbs.Length
      reads this, limbs
    {
      limbs[..Abs(size)]
    }

    ghost function Integer(): int
      requires Valid()
      reads this, limbs
    {
      Signed(size, Used())
    }

    constructor ()
      ensures Valid() && Integer() == 0 && fresh(limbs)
    {
      size := 0;
      limbs := new Limb[1];
    }

    /** Copies a value, allocating only when the room is too small. */
    method Set(u: Number)
      requires Valid() && u.Valid()
      requires this != u && limbs != u.limbs
      modifies this, limbs
      ensures Valid() && Integer() == u.Integer()
      ensures size == u.size
      ensures limbs == old(limbs) || fresh(limbs)
    {
      var n := Abs(u.size);
      if limbs.Length < n {
        limbs := new Limb[n];
      }
      var to, from := limbs, u.limbs;
      for i := 0 to n
        invariant forall k :: 0 <= k < i ==> to[k] == from[k]
        modifies to
      {
        to[i] := from[i];
      }
      size := u.size;
      assert Used() == u.Used();
    }

    /** this := |u|; u may be this. */
    method SetAbs(u: Number)
      requires Valid() && u.Valid()
      requires this != u ==> limbs != u.limbs
      modifies this, limbs
      ensures Valid() && Integer() == Abs(old(u.Integer()))
      ensures this != u ==> u.Valid() && u.Integer() == old(u.Integer())
    {
      if this != u {
        Set(u);
      }
      size := Abs(size);
    }

    /** this := -u; u may be this. */
    method SetNeg(u: Number)
      requires Valid() && u.Valid()
      requires this != u ==> limbs != u.limbs
      modifies this, limbs
      ensures Valid() && Integer() == -old(u.Integer())
      ensures this != u ==> u.Valid() && u.Integer() == old(u.Integer())
    {
      if this != u {
        Set(u);
      }
      size := -size;
      if size == 0 {
        assert Used() == [];
      }
    }

    /** The test behind the fits functions: no limb, or one that is not too large. */
    predicate FitsUtype(maxval: Limb)
      requires Valid()
      reads this, limbs
      ensures FitsUtype(maxval) <==> 0 <= Integer() <= maxval as int
    {
      FitsExact(size, Used(), maxval);
      size == 0 || (size == 1 && limbs[0] <= maxval)
    }

    predicate FitsUint()
      requires Valid()
      reads this, limbs
      ensures FitsUint() <==> 0 <= Integer() < 0x1_0000_0000
    {
      FitsUtype(UINT_MAX)
    }

    predicate FitsUlong()
      requires Valid()
      reads this, limbs
      ensures FitsUlong() <==> 0 <= Integer() < B
    {
      FitsUtype(ULONG_MAX)
    }

    predicate FitsUshort()
      requires Valid()
      reads this, limbs
      ensures FitsUshort() <==> 0 <= Integer() < 0x1_0000
    {
      FitsUtype(USHRT_MAX)
    }

    /** The low limb, or zero; limb 0 is read in either case. */
    function GetUi(): (r: Limb)
      requires Valid()
      reads this, limbs
      ensures r as int == Abs(Integer()) % B
    {
      LowLimb(Used());
      var l := limbs[0];
      if size != 0 then l else 0
    }

    /** Digit n of |this| in base B, zero outside the number. */
    function GetLimbN(n: int): (r: Limb)
      requires Valid()
      reads this, limbs
      ensures n >= 0 ==> r as int == (Abs(Integer()) / Pow(n)) % B
      ensures n < 0 ==> r == 0
    {
      DigitOrZero(Used(), n);
      if 0 <= n < Abs(size) then limbs[n] else 0
    }

    /** The least number of limbs that holds |this|. */
    function Size(): (n: nat)
      requires Valid()
      reads this, limbs
      ensures Abs(Integer()) < Pow(n)
      ensures n > 0 ==> Abs(Integer()) >= Pow(n - 1)
    {
      NormalisedBounds(Used());
      Abs(size)
    }

    function Sgn(): (s: int)
      requires Valid()
      reads this, limbs
      ensures s == if Integer() < 0 then -1 else if Integer() > 0 then 1 else 0
    {
      NormalisedBounds(Used());
      if size < 0 then -1 else if size > 0 then 1 else 0
    }

    /** The size test and the low bit of limb 0, combined bitwise. */
    function Odd(): (r: int)
      requires Valid()
      reads this, limbs
      ensures r == Abs(Integer()) % 2
    {
      LowLimb(Used());
      if size != 0 then (limbs[0] % 2) as int else 0
    }
  }

  // ----- why they are right

  lemma FitsExact(size: int, s: seq<Limb>, maxval: Limb)
    requires |s| == Abs(size) && Normalised(s)
    ensures size == 0 || (size == 1 && s[0] <= maxval) <==> 0 <= Signed(size, s) <= maxval as int
  {
    NormalisedBounds(s);
    if |s| >= 2 {
      PowMonotonic(1, |s| - 1);
      assert Pow(1) == B * Pow(0);
    } else if |s| == 1 {
      assert s[..0] == [] && Pow(0) == 1;
    }
  }

  lemma LowLimb(s: seq<Limb>)
    ensures |s| > 0 ==> Value(s) % B == s[0] as int && Value(s) % 2 == s[0] as int % 2
    ensures |s| == 0 ==> Value(s) == 0
  {
    if |s| > 0 {
      hide Value;
      ValueLow(s);
      var q: nat :| Value(s) == s[0] as int + B * q;
      ModOf(s[0] as int, q);
      ParityOf(s[0] as int, (B / 2) * q);
      assert B * q == 2 * ((B / 2) * q);
    }
  }

  lemma ParityOf(d: nat, q: nat)
    ensures (d + 2 * q) % 2 == d % 2
  {
  }

  lemma DigitOrZero(s: seq<Limb>, n: int)
    requires Normalised(s)
    ensures 0 <= n < |s| ==> (Value(s) / Pow(n)) % B == s[n] as int
    ensures n >= |s| ==> (Value(s) / Pow(n)) % B == 0
  {
    if 0 <= n < |s| {
      DigitAt(s, n);
    } else if n >= |s| {
      ValueBound(s);
      PowMonotonic(|s|, n);
      assert Value(s) + 0 * Pow(n) == Value(s);
      DivOf(Value(s), 0, Pow(n));
    }
  }

  /** Reading every limb below Size with GetLimbN gives digits that denote |z|. */
  lemma LimbsDenoteMagnitude(z: Number, digits: seq<Limb>)
    requires z.Valid() && |digits| == z.Size()
    requires forall i :: 0 <= i < |digits| ==> digits[i] == z.GetLimbN(i)
    ensures Value(digits) == Abs(z.Integer())
  {
    assert digits == z.Used();
  }
}
