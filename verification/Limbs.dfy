/** Natural numbers as sequences of 64-bit limbs, least significant limb first.
    The limbs carry no nail bits, so the base is 2^64. */
module Limbs {
  const B: int := 0x1_0000_0000_0000_0000

  newtype Limb = x: int | 0 <= x < B

  /** B to the power n, the weight of limb n. */
  function Pow(n: nat): (p: nat)
    ensures p >= 1
  {
    if n == 0 then 1 else B * Pow(n - 1)
  }

  /** The number that a limb sequence denotes. */
  function Value(s: seq<Limb>): nat {
    if |s| == 0 then 0 else Value(s[..|s| - 1]) + s[|s| - 1] as int * Pow(|s| - 1)
  }

  lemma ValueSnoc(s: seq<Limb>, d: Limb)
    ensures Value(s + [d]) == Value(s) + d as int * Pow(|s|)
  {
    assert (s + [d])[..|s|] == s;
  }

  lemma ValuePrefix(s: seq<Limb>, i: nat)
    requires i < |s|
    ensures Value(s[..i + 1]) == Value(s[..i]) + s[i] as int * Pow(i)
  {
    assert s[..i + 1] == s[..i] + [s[i]];
    ValueSnoc(s[..i], s[i]);
  }

  /** Two limbs, in numbers. */
  lemma ValueTwo(low: Limb, high: Limb)
    ensures Value([low, high]) == low as int + 0x1_0000_0000_0000_0000 * high as int
  {
    ValueSnoc([], low);
    ValueSnoc([low], high);
    assert [] + [low] == [low] && [low] + [high] == [low, high];
    assert Pow(0) == 1 && Pow(1) == B * Pow(0);
  }

  /** The low limb is the remainder of the number modulo B. */
  lemma {:induction false} ValueLow(s: seq<Limb>)
    requires |s| > 0
    ensures exists q: nat :: Value(s) == s[0] as int + B * q
  {
    if |s| == 1 {
      assert s[..0] == [] && Value(s) == s[0] as int + B * 0;
    } else {
      var t := s[..|s| - 1];
      ValueLow(t);
      var q: nat :| Value(t) == t[0] as int + B * q;
      var d, p := s[|s| - 1] as int, Pow(|s| - 2);
      assert d * Pow(|s| - 1) == B * (d * p);
      assert Value(s) == s[0] as int + B * (q + d * p);
    }
  }

  /** n limbs denote numbers below B^n. */
  lemma {:induction false} ValueBound(s: seq<Limb>)
    ensures Value(s) < Pow(|s|)
  {
    if |s| > 0 {
      var n := |s| - 1;
      ValueBound(s[..n]);
      Scale(s[n] as int, B - 1, Pow(n));
      assert Pow(n) + (B - 1) * Pow(n) == B * Pow(n);
    }
  }

  /** A number has one representation of each length. */
  lemma {:induction false} RepresentationUnique(s: seq<Limb>, t: seq<Limb>)
    requires |s| == |t| && Value(s) == Value(t)
    ensures s == t
  {
    if |s| > 0 {
      var n := |s| - 1;
      ValueBound(s[..n]);
      ValueBound(t[..n]);
      DivUnique(Value(s[..n]), s[n] as int, Value(t[..n]), t[n] as int, Pow(n));
      RepresentationUnique(s[..n], t[..n]);
      assert s == s[..n] + [s[n]] && t == t[..n] + [t[n]];
    }
  }

  /** Sequences with equal high parts differ by what their low parts differ by. */
  lemma {:induction false} ValueSameTail(s: seq<Limb>, t: seq<Limb>, i: nat)
    requires i <= |s| == |t|
    requires forall k :: i <= k < |s| ==> s[k] == t[k]
    ensures Value(s) - Value(s[..i]) == Value(t) - Value(t[..i])
  {
    if i == |s| {
      assert s[..i] == s && t[..i] == t;
      return;
    }
    var n := |s| - 1;
    assert Value(s) == Value(s[..n]) + s[n] as int * Pow(n) && Value(t) == Value(t[..n]) + t[n] as int * Pow(n);
    hide Value, Pow;
    ValueSameTail(s[..n], t[..n], i);
    assert s[..n][..i] == s[..i] && t[..n][..i] == t[..i];
  }

  lemma {:induction false} ValueZeros(s: seq<Limb>)
    requires forall k :: 0 <= k < |s| ==> s[k] == 0
    ensures Value(s) == 0
  {
    if |s| > 0 {
      ValueZeros(s[..|s| - 1]);
    }
  }

  // ----- the non-linear steps

  lemma Scale(a: int, b: int, p: nat)
    requires a <= b
    ensures a * p <= b * p
  {
  }

  /** Quotient and remainder by p are unique. */
  lemma DivUnique(r: nat, q: int, r': nat, q': int, p: nat)
    requires r < p && r' < p && r + q * p == r' + q' * p
    ensures q == q' && r == r'
  {
    if q < q' {
      Scale(q + 1, q', p);
    } else if q' < q {
      Scale(q' + 1, q, p);
    }
  }

  /** One column of an addition (sign 1) or subtraction (sign -1), scaled to its weight. */
  lemma Column(x: int, y: int, cin: int, w: int, cout: int, p: nat)
    requires w + cout * B == x + y + cin
    ensures w * p + cout * (B * p) == x * p + y * p + cin * p
  {
    calc {
      w * p + cout * (B * p);
      (w + cout * B) * p;
      (x + y + cin) * p;
      x * p + y * p + cin * p;
    }
  }
}
