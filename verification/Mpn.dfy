/** The low-level limb-array functions. Destination and source may be one array or
    separate arrays; nothing is required about which. */
module Mpn {
  import opened Limbs

  /** w with carry c is x plus y, to |x| limbs. */
  ghost predicate IsSum(x: seq<Limb>, y: seq<Limb>, w: seq<Limb>, c: int) {
    |w| == |x| && 0 <= c <= 1 && Value(w) + c * Pow(|x|) == Value(x) + Value(y)
  }

  /** w with borrow b is x minus y, to |x| limbs. */
  ghost predicate IsDifference(x: seq<Limb>, y: seq<Limb>, w: seq<Limb>, b: int) {
    |w| == |x| && 0 <= b <= 1 && Value(w) == Value(x) - Value(y) + b * Pow(|x|)
  }

  /** w with c is the two's complement of u, to |u| limbs. */
  ghost predicate IsNegation(u: seq<Limb>, w: seq<Limb>, c: int) {
    |w| == |u| && c == (if Value(u) != 0 then 1 else 0) && Value(w) == c * Pow(|u|) - Value(u)
  }

  function Sign(x: int): int {
    if x < 0 then -1 else if x > 0 then 1 else 0
  }

  /** Limb arithmetic wraps modulo B. */
  function Low(x: int): Limb {
    (x % B) as Limb
  }

  // ----- one step of each loop, on sequences

  lemma SumColumn(x: seq<Limb>, y: seq<Limb>, w: seq<Limb>, c: int, a: Limb, b: Limb)
    requires |x| == |y| && IsSum(x, y, w, c)
    ensures IsSum(x + [a], y + [b], w + [Low(a as int + b as int + c)], (a as int + b as int + c) / B)
  {
    var t := a as int + b as int + c;
    ValueSnoc(x, a);
    ValueSnoc(y, b);
    ValueSnoc(w, Low(t));
    Column(a as int, b as int, c, t % B, t / B, Pow(|x|));
  }

  lemma PowStep(n: nat)
    ensures Pow(n + 1) == B * Pow(n)
  {
  }

  lemma LowOf(t: int)
    requires -B <= t < B
    ensures Low(t) as int == t + if t < 0 then B else 0
  {
  }

  lemma DifferenceColumn(x: seq<Limb>, y: seq<Limb>, w: seq<Limb>, c: int, a: Limb, b: Limb)
    requires |x| == |y| && IsDifference(x, y, w, c)
    ensures var t := a as int - b as int - c;
            IsDifference(x + [a], y + [b], w + [Low(t)], if t < 0 then 1 else 0)
  {
    hide Value, Pow, Low;
    var t := a as int - b as int - c;
    ValueSnoc(x, a);
    ValueSnoc(y, b);
    ValueSnoc(w, Low(t));
    PowStep(|x|);
    LowOf(t);
    DifferenceStep(a as int, b as int, c, if t < 0 then 1 else 0, Low(t) as int, Pow(|x|));
  }

  lemma DifferenceStep(a: int, b: int, c: int, c': int, d: int, p: int)
    requires d == a - b - c + c' * B
    ensures d * p == a * p - b * p - c * p + c' * (B * p)
  {
    calc {
      d * p;
      (a - b - c + c' * B) * p;
      (a - b - c) * p + (c' * B) * p;
      a * p - b * p - c * p + c' * (B * p);
    }
  }

  lemma SumRipple(x: seq<Limb>, y: seq<Limb>, w: seq<Limb>, a: Limb)
    requires IsSum(x, y, w, 1)
    ensures IsSum(x + [a], y, w + [Low(a as int + 1)], if Low(a as int + 1) == 0 then 1 else 0)
  {
    ValueSnoc(x, a);
    ValueSnoc(w, Low(a as int + 1));
    Column(a as int, 0, 1, (a as int + 1) % B, if a as int == B - 1 then 1 else 0, Pow(|x|));
  }

  lemma DifferenceRipple(x: seq<Limb>, y: seq<Limb>, w: seq<Limb>, a: Limb)
    requires IsDifference(x, y, w, 1)
    ensures IsDifference(x + [a], y, w + [Low(a as int - 1)], if a == 0 then 1 else 0)
  {
    hide Value, Pow, Low;
    ValueSnoc(x, a);
    ValueSnoc(w, Low(a as int - 1));
    PowStep(|x|);
    LowOf(a as int - 1);
    DifferenceStep(a as int, 0, 1, if a == 0 then 1 else 0, Low(a as int - 1) as int, Pow(|x|));
  }

  /** Once no carry is left, the high limbs of x complete the sum. */
  lemma SumTail(x: seq<Limb>, y: seq<Limb>, w: seq<Limb>, rest: seq<Limb>)
    requires IsSum(x, y, w, 0)
    ensures IsSum(x + rest, y, w + rest, 0)
  {
    ValueSameTail(x + rest, w + rest, |x|);
    assert (x + rest)[..|x|] == x && (w + rest)[..|x|] == w;
  }

  lemma DifferenceTail(x: seq<Limb>, y: seq<Limb>, w: seq<Limb>, rest: seq<Limb>)
    requires IsDifference(x, y, w, 0)
    ensures IsDifference(x + rest, y, w + rest, 0)
  {
    ValueSameTail(x + rest, w + rest, |x|);
    assert (x + rest)[..|x|] == x && (w + rest)[..|x|] == w;
  }

  lemma ValueOne(d: Limb)
    ensures Value([d]) == d as int
  {
    assert [d][..0] == [];
    assert Pow(0) == 1;
  }

  lemma SumOne(x: Limb, v: Limb)
    ensures IsSum([x], [v], [Low(x as int + v as int)], if Low(x as int + v as int) < v then 1 else 0)
  {
    ValueOne(x);
    ValueOne(v);
    ValueOne(Low(x as int + v as int));
    assert Pow(1) == B * Pow(0) == B;
  }

  lemma DifferenceOne(x: Limb, v: Limb)
    ensures IsDifference([x], [v], [Low(x as int - v as int)], if x < v then 1 else 0)
  {
    ValueOne(x);
    ValueOne(v);
    ValueOne(Low(x as int - v as int));
    assert Pow(1) == B * Pow(0) == B;
  }

  lemma NegationColumn(u: seq<Limb>, w: seq<Limb>, c: int, a: Limb)
    requires IsNegation(u, w, c)
    ensures IsNegation(u + [a], w + [Low(-(a as int) - c)], if a != 0 then 1 else c)
  {
    hide Value, Pow, Low;
    var t := -(a as int) - c;
    ValueSnoc(u, a);
    ValueSnoc(w, Low(t));
    PowStep(|u|);
    LowOf(t);
    NegationStep(Value(u), Value(w), c, a as int, Low(t) as int, Pow(|u|));
  }

  /** The arithmetic of one limb of a negation at weight p. */
  lemma NegationStep(vu: nat, vw: int, c: int, a: int, d: int, p: int)
    requires p >= 1 && 0 <= a < B && d == -a - c + if -a - c < 0 then B else 0
    requires c == (if vu != 0 then 1 else 0) && vw == c * p - vu
    ensures var c' := if a != 0 then 1 else c;
            && c' == (if vu + a * p != 0 then 1 else 0)
            && vw + d * p == c' * (B * p) - (vu + a * p)
  {
    var c' := if a != 0 then 1 else c;
    assert d == c' * B - a - c;
    Distribute(c', a, c, p);
    if a != 0 {
      Scale(1, a, p);
    }
  }

  lemma Distribute(c': int, a: int, c: int, p: int)
    ensures (c' * B - a - c) * p == c' * (B * p) - a * p - c * p
  {
  }

  /** The first differing limb from the top decides the comparison. */
  lemma CompareAt(x: seq<Limb>, y: seq<Limb>, i: nat)
    requires i < |x| == |y| && x[i] < y[i]
    requires forall k :: i < k < |x| ==> x[k] == y[k]
    ensures Value(x) < Value(y)
  {
    hide Value, Pow;
    ValueSameTail(x, y, i + 1);
    ValuePrefix(x, i);
    ValuePrefix(y, i);
    ValueBound(x[..i]);
    var p := Pow(i);
    Scale(x[i] as int + 1, y[i] as int, p);
    assert (x[i] as int + 1) * p == x[i] as int * p + p;
  }

  lemma Empty()
    ensures IsSum([], [], [], 0) && IsDifference([], [], [], 0) && IsNegation([], [], 0)
  {
  }

  // ----- the functions

  /** Copies limbs start..size and nothing else. */
  method CopyRest(dst: array<Limb>, src: array<Limb>, size: nat, start: nat)
    requires start <= size <= dst.Length && size <= src.Length
    modifies dst
    ensures dst[..] == old(dst[..start]) + old(src[start..size]) + old(dst[size..])
  {
    hide *;
    ghost var d, s := dst[..], src[..];
    for j := start to size
      invariant forall k :: j <= k < size ==> src[k] == s[k]
      invariant forall k :: start <= k < j ==> dst[k] == s[k]
      invariant forall k :: 0 <= k < start || j <= k < dst.Length ==> dst[k] == d[k]
    {
      dst[j] := src[j];
    }
    assert dst[..start] == d[..start] && dst[start..size] == s[start..size] && dst[size..] == d[size..];
    assert dst[..] == dst[..start] + dst[start..size] + dst[size..];
  }

  /** The copy that the callers skip when destination and source are one array: skipping
      it leaves the same limbs as doing it. */
  method CopyUnlessSame(dst: array<Limb>, src: array<Limb>, size: nat, start: nat)
    requires start <= size <= dst.Length && size <= src.Length
    modifies dst
    ensures dst[..] == old(dst[..start]) + old(src[start..size]) + old(dst[size..])
  {
    if dst != src {
      CopyRest(dst, src, size, start);
    }
  }

  /** The end of an addition once no carry is left: the remaining limbs of x are copied. */
  method CompleteSum(dst: array<Limb>, src: array<Limb>, size: nat, start: nat,
      ghost x: seq<Limb>, ghost y: seq<Limb>)
    requires start <= size <= dst.Length && size <= src.Length && |x| == size
    requires src[start..size] == x[start..] && IsSum(x[..start], y, dst[..start], 0)
    modifies dst
    ensures IsSum(x, y, dst[..size], 0) && dst[size..] == old(dst[size..])
  {
    hide *;
    SumTail(x[..start], y, dst[..start], x[start..]);
    assert x == x[..start] + x[start..];
    ghost var low, high := dst[..start], dst[size..];
    CopyUnlessSame(dst, src, size, start);
    assert dst[..size] == low + x[start..] && dst[size..] == high;
  }

  /** The end of a subtraction once no carry is left: the remaining limbs of x are copied. */
  method CompleteDifference(dst: array<Limb>, src: array<Limb>, size: nat, start: nat,
      ghost x: seq<Limb>, ghost y: seq<Limb>)
    requires start <= size <= dst.Length && size <= src.Length && |x| == size
    requires src[start..size] == x[start..] && IsDifference(x[..start], y, dst[..start], 0)
    modifies dst
    ensures IsDifference(x, y, dst[..size], 0) && dst[size..] == old(dst[size..])
  {
    hide *;
    DifferenceTail(x[..start], y, dst[..start], x[start..]);
    assert x == x[..start] + x[start..];
    ghost var low, high := dst[..start], dst[size..];
    CopyUnlessSame(dst, src, size, start);
    assert dst[..size] == low + x[start..] && dst[size..] == high;
  }

  /** One round of a carry ripple: writes limb i and returns the limb it was made from. */
  method RippleSum(dst: array<Limb>, src: array<Limb>, i: nat, size: nat, ghost x: seq<Limb>, ghost y: seq<Limb>)
    returns (limb: Limb)
    requires i < size <= dst.Length && size <= src.Length && |x| == size
    requires src[i..size] == x[i..] && IsSum(x[..i], y, dst[..i], 1)
    modifies dst
    ensures limb == x[i] && dst[i] == Low(limb as int + 1)
    ensures IsSum(x[..i + 1], y, dst[..i + 1], if dst[i] == 0 then 1 else 0)
    ensures dst[i + 1..] == old(dst[i + 1..]) && src[i + 1..size] == x[i + 1..]
  {
    hide *;
    SumRipple(x[..i], y, dst[..i], x[i]);
    ghost var low, rest := dst[..i], src[i + 1..size];
    limb := src[i];
    assert limb == src[i..size][0] && rest == src[i..size][1..];
    dst[i] := Low(limb as int + 1);
    assert x[..i + 1] == x[..i] + [limb] && dst[..i + 1] == low + [dst[i]] && src[i + 1..size] == rest;
  }

  /** One round of a borrow ripple: writes limb i and returns the limb it was made from. */
  method RippleDifference(dst: array<Limb>, src: array<Limb>, i: nat, size: nat, ghost x: seq<Limb>, ghost y: seq<Limb>)
    returns (limb: Limb)
    requires i < size <= dst.Length && size <= src.Length && |x| == size
    requires src[i..size] == x[i..] && IsDifference(x[..i], y, dst[..i], 1)
    modifies dst
    ensures limb == x[i] && dst[i] == Low(limb as int - 1)
    ensures IsDifference(x[..i + 1], y, dst[..i + 1], if limb == 0 then 1 else 0)
    ensures dst[i + 1..] == old(dst[i + 1..]) && src[i + 1..size] == x[i + 1..]
  {
    hide *;
    DifferenceRipple(x[..i], y, dst[..i], x[i]);
    ghost var low, rest := dst[..i], src[i + 1..size];
    limb := src[i];
    assert limb == src[i..size][0] && rest == src[i..size][1..];
    dst[i] := Low(limb as int - 1);
    assert x[..i + 1] == x[..i] + [limb] && dst[..i + 1] == low + [dst[i]] && src[i + 1..size] == rest;
  }

  method AddN(wp: array<Limb>, xp: array<Limb>, yp: array<Limb>, n: nat) returns (c: int)
    requires n <= wp.Length && n <= xp.Length && n <= yp.Length
    modifies wp
    ensures 0 <= c <= 1 && IsSum(old(xp[..n]), old(yp[..n]), wp[..n], c)
    ensures wp[n..] == old(wp[n..])
  {
    hide *;
    ghost var x, y := xp[..n], yp[..n];
    Empty();
    assert x[..0] == y[..0] == wp[..0] == [];
    c := 0;
    for i := 0 to n
      invariant forall k :: i <= k < n ==> xp[k] == x[k] && yp[k] == y[k]
      invariant wp[n..] == old(wp[n..])
      invariant 0 <= c <= 1 && IsSum(x[..i], y[..i], wp[..i], c)
    {
      SumColumn(x[..i], y[..i], wp[..i], c, x[i], y[i]);
      ghost var low := wp[..i];
      var t := xp[i] as int + yp[i] as int + c;
      wp[i] := Low(t);
      c := t / B;
      assert wp[..i + 1] == low + [Low(t)] && x[..i + 1] == x[..i] + [x[i]] && y[..i + 1] == y[..i] + [y[i]];
    }
    assert x[..n] == x && y[..n] == y;
  }

  method SubN(wp: array<Limb>, xp: array<Limb>, yp: array<Limb>, n: nat) returns (c: int)
    requires n <= wp.Length && n <= xp.Length && n <= yp.Length
    modifies wp
    ensures 0 <= c <= 1 && IsDifference(old(xp[..n]), old(yp[..n]), wp[..n], c)
    ensures wp[n..] == old(wp[n..])
  {
    hide *;
    ghost var x, y := xp[..n], yp[..n];
    Empty();
    assert x[..0] == y[..0] == wp[..0] == [];
    c := 0;
    for i := 0 to n
      invariant forall k :: i <= k < n ==> xp[k] == x[k] && yp[k] == y[k]
      invariant wp[n..] == old(wp[n..])
      invariant 0 <= c <= 1 && IsDifference(x[..i], y[..i], wp[..i], c)
    {
      DifferenceColumn(x[..i], y[..i], wp[..i], c, x[i], y[i]);
      ghost var low := wp[..i];
      var t := xp[i] as int - yp[i] as int - c;
      wp[i] := Low(t);
      c := if t < 0 then 1 else 0;
      assert wp[..i + 1] == low + [Low(t)] && x[..i + 1] == x[..i] + [x[i]] && y[..i + 1] == y[..i] + [y[i]];
    }
    assert x[..n] == x && y[..n] == y;
  }

  /** Adds y into the low limbs, ripples the carry while limbs wrap to zero, and completes
      with the untouched high limbs of x. */
  method Add(wp: array<Limb>, xp: array<Limb>, xsize: nat, yp: array<Limb>, ysize: nat) returns (cout: int)
    requires ysize <= xsize <= xp.Length && xsize <= wp.Length && ysize <= yp.Length
    modifies wp
    ensures IsSum(old(xp[..xsize]), old(yp[..ysize]), wp[..xsize], cout)
    ensures wp[xsize..] == old(wp[xsize..])
  {
    hide *;
    ghost var x, y, d := xp[..xsize], yp[..ysize], wp[..];
    Empty();
    assert x[..0] == wp[..0] == [];
    var i := ysize;
    if i != 0 {
      var carry := AddN(wp, xp, yp, i);
      assert x[..i] == old(xp[..i]);
      if carry != 0 {
        while true
          invariant ysize <= i <= xsize
          invariant wp[i..] == d[i..]
          invariant xp[i..xsize] == x[i..]
          invariant IsSum(x[..i], y, wp[..i], 1)
          decreases xsize - i
        {
          if i >= xsize {
            assert x[..i] == x;
            return 1;
          }
          assert wp[i + 1..] == d[i + 1..] by { assert wp[i..][1..] == d[i..][1..]; }
          var limb := RippleSum(wp, xp, i, xsize, x, y);
          i := i + 1;
          if wp[i - 1] != 0 {
            break;
          }
        }
      }
    }
    assert xp[i..xsize] == x[i..] && wp[xsize..] == d[xsize..] by {
      assert wp[i..][xsize - i..] == d[i..][xsize - i..];
    }
    CompleteSum(wp, xp, xsize, i, x, y);
    return 0;
  }

  /** As Add with borrows; the ripple continues while the OLD limb was zero. */
  method Sub(wp: array<Limb>, xp: array<Limb>, xsize: nat, yp: array<Limb>, ysize: nat) returns (cout: int)
    requires ysize <= xsize <= xp.Length && xsize <= wp.Length && ysize <= yp.Length
    modifies wp
    ensures IsDifference(old(xp[..xsize]), old(yp[..ysize]), wp[..xsize], cout)
    ensures wp[xsize..] == old(wp[xsize..])
  {
    hide *;
    ghost var x, y, d := xp[..xsize], yp[..ysize], wp[..];
    Empty();
    assert x[..0] == wp[..0] == [];
    var i := ysize;
    if i != 0 {
      var carry := SubN(wp, xp, yp, i);
      assert x[..i] == old(xp[..i]);
      if carry != 0 {
        while true
          invariant ysize <= i <= xsize
          invariant wp[i..] == d[i..]
          invariant xp[i..xsize] == x[i..]
          invariant IsDifference(x[..i], y, wp[..i], 1)
          decreases xsize - i
        {
          if i >= xsize {
            assert x[..i] == x;
            return 1;
          }
          assert wp[i + 1..] == d[i + 1..] by { assert wp[i..][1..] == d[i..][1..]; }
          var limb := RippleDifference(wp, xp, i, xsize, x, y);
          i := i + 1;
          if limb != 0 {
            break;
          }
        }
      }
    }
    assert xp[i..xsize] == x[i..] && wp[xsize..] == d[xsize..] by {
      assert wp[i..][xsize - i..] == d[i..][xsize - i..];
    }
    CompleteDifference(wp, xp, xsize, i, x, y);
    return 0;
  }

  /** Adds one limb; a wrapped result is recognised by being below the addend. */
  method Add1(dst: array<Limb>, src: array<Limb>, n: nat, v: Limb) returns (cout: int)
    requires 1 <= n <= dst.Length && n <= src.Length
    modifies dst
    ensures IsSum(old(src[..n]), [v], dst[..n], cout)
    ensures dst[n..] == old(dst[n..])
  {
    hide *;
    ghost var s, d := src[..n], dst[..];
    var x := src[0];
    var r := Low(x as int + v as int);
    dst[0] := r;
    SumOne(x, v);
    assert s[..1] == [x] && dst[..1] == [r] && dst[1..] == d[1..];
    if r < v {
      cout := 1;
      var i := 1;
      while i < n
        invariant 1 <= i <= n && cout == 1
        invariant dst[i..] == d[i..]
        invariant src[i..n] == s[i..]
        invariant IsSum(s[..i], [v], dst[..i], 1)
      {
        assert dst[i + 1..] == d[i + 1..] by { assert dst[i..][1..] == d[i..][1..]; }
        x := RippleSum(dst, src, i, n, s, [v]);
        r := dst[i];
        i := i + 1;
        if !(r < 1) {
          assert dst[n..] == d[n..] by { assert dst[i..][n - i..] == d[i..][n - i..]; }
          CompleteSum(dst, src, n, i, s, [v]);
          cout := 0;
          return;
        }
      }
      assert s[..n] == s;
    } else {
      assert dst[n..] == d[n..] by { assert dst[1..][n - 1..] == d[1..][n - 1..]; }
      CompleteSum(dst, src, n, 1, s, [v]);
      cout := 0;
    }
  }

  /** Subtracts one limb; a borrow is recognised by the old limb being below the subtrahend. */
  method Sub1(dst: array<Limb>, src: array<Limb>, n: nat, v: Limb) returns (cout: int)
    requires 1 <= n <= dst.Length && n <= src.Length
    modifies dst
    ensures IsDifference(old(src[..n]), [v], dst[..n], cout)
    ensures dst[n..] == old(dst[n..])
  {
    hide *;
    ghost var s, d := src[..n], dst[..];
    var x := src[0];
    var r := Low(x as int - v as int);
    dst[0] := r;
    DifferenceOne(x, v);
    assert s[..1] == [x] && dst[..1] == [r] && dst[1..] == d[1..];
    if x < v {
      cout := 1;
      var i := 1;
      while i < n
        invariant 1 <= i <= n && cout == 1
        invariant dst[i..] == d[i..]
        invariant src[i..n] == s[i..]
        invariant IsDifference(s[..i], [v], dst[..i], 1)
      {
        assert dst[i + 1..] == d[i + 1..] by { assert dst[i..][1..] == d[i..][1..]; }
        x := RippleDifference(dst, src, i, n, s, [v]);
        r := dst[i];
        i := i + 1;
        if !(x < 1) {
          assert dst[n..] == d[n..] by { assert dst[i..][n - i..] == d[i..][n - i..]; }
          CompleteDifference(dst, src, n, i, s, [v]);
          cout := 0;
          return;
        }
      }
      assert s[..n] == s;
    } else {
      assert dst[n..] == d[n..] by { assert dst[1..][n - 1..] == d[1..][n - 1..]; }
      CompleteDifference(dst, src, n, 1, s, [v]);
      cout := 0;
    }
  }

  /** Scans from the high end to the first differing limb. */
  method Cmp(xp: array<Limb>, yp: array<Limb>, size: nat) returns (result: int)
    requires size <= xp.Length && size <= yp.Length
    ensures result == Sign(Value(xp[..size]) - Value(yp[..size]))
  {
    result := 0;
    ghost var x, y := xp[..size], yp[..size];
    var i := size - 1;
    while i >= 0
      invariant -1 <= i < size
      invariant result == 0
      invariant forall k :: i < k < size ==> x[k] == y[k]
    {
      if xp[i] != yp[i] {
        result := if xp[i] > yp[i] then 1 else -1;
        if x[i] > y[i] {
          CompareAt(y, x, i);
        } else {
          CompareAt(x, y, i);
        }
        return;
      }
      i := i - 1;
    }
    assert x == y;
  }

  /** Two's complement, limb by limb, remembering whether a nonzero limb was passed. */
  method NegN(rp: array<Limb>, up: array<Limb>, n: nat) returns (cy: int)
    requires 1 <= n <= rp.Length && n <= up.Length
    modifies rp
    ensures IsNegation(old(up[..n]), rp[..n], cy)
    ensures rp[n..] == old(rp[n..])
  {
    hide *;
    ghost var u := up[..n];
    Empty();
    assert u[..0] == rp[..0] == [];
    cy := 0;
    var i := 0;
    while true
      invariant 0 <= i < n
      invariant 0 <= cy <= 1
      invariant rp[i..] == old(rp[i..])
      invariant IsNegation(u[..i], rp[..i], cy)
      decreases n - i
    {
      assert up[i] == u[i] by { assert rp[i] == rp[i..][0] == old(rp[i]); }
      NegationColumn(u[..i], rp[..i], cy, u[i]);
      ghost var low, high := rp[..i], rp[i..];
      var ul := up[i];
      rp[i] := Low(-(ul as int) - cy);
      assert rp[..i + 1] == low + [Low(-(ul as int) - cy)] && u[..i + 1] == u[..i] + [ul];
      assert rp[i + 1..] == high[1..] == old(rp[i + 1..]);
      cy := if ul != 0 then 1 else cy;
      i := i + 1;
      if i == n {
        break;
      }
    }
    assert u[..n] == u;
  }
}
