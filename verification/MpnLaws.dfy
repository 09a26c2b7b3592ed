/** Laws that span several limb functions. They are stated on the relations that the
    functions' contracts establish, so they hold of every run, aliased or not. */
module MpnLaws {
  import opened Limbs
  import opened Mpn

  /** Sum and carry are determined by the operands alone: a run in place and a run into a
      separate array, or a run of Add with a one-limb y and a run of Add1, cannot differ. */
  lemma SumUnique(x: seq<Limb>, y: seq<Limb>, w: seq<Limb>, c: int, w': seq<Limb>, c': int)
    requires IsSum(x, y, w, c) && IsSum(x, y, w', c')
    ensures w == w' && c == c'
  {
    ValueBound(w);
    ValueBound(w');
    DivUnique(Value(w), c, Value(w'), c', Pow(|x|));
    RepresentationUnique(w, w');
  }

  lemma DifferenceUnique(x: seq<Limb>, y: seq<Limb>, w: seq<Limb>, b: int, w': seq<Limb>, b': int)
    requires IsDifference(x, y, w, b) && IsDifference(x, y, w', b')
    ensures w == w' && b == b'
  {
    ValueBound(w);
    ValueBound(w');
    DivUnique(Value(w), b', Value(w'), b, Pow(|x|));
    RepresentationUnique(w, w');
  }

  lemma NegationUnique(u: seq<Limb>, w: seq<Limb>, c: int, w': seq<Limb>, c': int)
    requires IsNegation(u, w, c) && IsNegation(u, w', c')
    ensures w == w' && c == c'
  {
    RepresentationUnique(w, w');
  }

  /** Subtracting what was added restores x exactly, and borrows exactly what was carried. */
  lemma SubUndoesAdd(x: seq<Limb>, y: seq<Limb>, w: seq<Limb>, c: int, z: seq<Limb>, b: int)
    requires IsSum(x, y, w, c) && IsDifference(w, y, z, b)
    ensures z == x && b == c
  {
    ValueBound(x);
    ValueBound(z);
    DivUnique(Value(x), b, Value(z), c, Pow(|x|));
    RepresentationUnique(x, z);
  }

  lemma AddUndoesSub(x: seq<Limb>, y: seq<Limb>, w: seq<Limb>, b: int, z: seq<Limb>, c: int)
    requires IsDifference(x, y, w, b) && IsSum(w, y, z, c)
    ensures z == x && c == b
  {
    ValueBound(x);
    ValueBound(z);
    DivUnique(Value(x), b, Value(z), c, Pow(|x|));
    RepresentationUnique(x, z);
  }

  /** A borrow leaves the subtraction exactly when the minuend is the smaller number, that is
      (for equal sizes) exactly when Cmp would answer -1. */
  lemma BorrowIffLess(x: seq<Limb>, y: seq<Limb>, w: seq<Limb>, b: int)
    requires |y| <= |x| && IsDifference(x, y, w, b)
    ensures b == 1 <==> Sign(Value(x) - Value(y)) == -1
  {
    ValueBound(w);
  }

  /** A carry leaves the addition exactly when the sum needs another limb. */
  lemma CarryIffOverflow(x: seq<Limb>, y: seq<Limb>, w: seq<Limb>, c: int)
    requires IsSum(x, y, w, c)
    ensures c == 1 <==> Value(x) + Value(y) >= Pow(|x|)
  {
    hide Value, Pow;
    ValueBound(w);
  }

  /** A number plus its negation is zero in every limb, with the carry NegN returned. */
  lemma {:induction false} NegationCancels(u: seq<Limb>, r: seq<Limb>, cy: int, w: seq<Limb>, c: int)
    requires IsNegation(u, r, cy) && IsSum(u, r, w, c)
    ensures c == cy && forall k :: 0 <= k < |w| ==> w[k] == 0
  {
    var zero := seq(|w|, i => 0 as Limb);
    ValueZeros(zero);
    assert Value(w) + c * Pow(|u|) == cy * Pow(|u|);
    ValueBound(w);
    DivUnique(Value(w), c, 0, cy, Pow(|u|));
    RepresentationUnique(w, zero);
  }

  /** Subtraction is addition of the two's complement; its borrow is the complement's flag
      minus the addition's carry. */
  lemma SubIsAddOfNegation(x: seq<Limb>, y: seq<Limb>, w: seq<Limb>, b: int,
                           r: seq<Limb>, cy: int, w': seq<Limb>, c: int)
    requires |x| == |y|
    requires IsDifference(x, y, w, b) && IsNegation(y, r, cy) && IsSum(x, r, w', c)
    ensures w == w' && b == cy - c
  {
    var p := Pow(|x|);
    ValueBound(w);
    ValueBound(w');
    assert Value(w') == Value(x) - Value(y) + cy * p - c * p;
    assert Value(w) + (cy - c) * p == Value(w') + b * p by {
      assert (cy - c) * p == cy * p - c * p;
    }
    DivUnique(Value(w), cy - c, Value(w'), b, p);
    RepresentationUnique(w, w');
  }
}
