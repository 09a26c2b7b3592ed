/** IMSI decoding: eight octets of two digits each, low nibble first (section 7.7.2 of
    3GPP TS 29.060). High nibbles of 10 and above are fillers; low nibbles are not checked. */
module Imsi {
  const IMSI_LENGTH := 8
  const TWO_64: int := 0x1_0000_0000_0000_0000

  newtype Octet = x: int | 0 <= x < 256
  newtype Nibble = x: int | 0 <= x < 16
  newtype ULongLong = x: int | 0 <= x < TWO_64

  /** The octet masked with 0x0f, and shifted right by four. */
  function LowNibble(o: Octet): Nibble { (o % 16) as Nibble }
  function HighNibble(o: Octet): Nibble { (o / 16) as Nibble }

  /** An octet is its low nibble plus sixteen times its high one, which says what they are. */
  lemma NibblesOfOctet(o: Octet, low: int, high: int)
    requires 0 <= low < 16 && 0 <= high < 16
    ensures o as int == low + 16 * high <==> LowNibble(o) as int == low && HighNibble(o) as int == high
  {
  }

  function DigitChar(d: Nibble): char
    requires d < 10
  {
    ('0' as int + d as int) as char
  }

  /** Decimal text of a nibble: two characters from 10 on. */
  function Text(n: Nibble): string {
    if n < 10 then [DigitChar(n)] else ['1', DigitChar(n - 10)]
  }

  /** The nibbles an octet contributes, in order. */
  function Nibbles(o: Octet): seq<Nibble> {
    [LowNibble(o)] + if HighNibble(o) < 10 then [HighNibble(o)] else []
  }

  function Positions(octets: seq<Octet>): seq<Nibble> {
    if octets == [] then [] else Positions(octets[..|octets| - 1]) + Nibbles(octets[|octets| - 1])
  }

  function Written(nibbles: seq<Nibble>): string {
    if nibbles == [] then "" else Written(nibbles[..|nibbles| - 1]) + Text(nibbles[|nibbles| - 1])
  }

  /** Base-10 reading of positions, which may hold more than 9. */
  function Number(nibbles: seq<Nibble>): nat {
    if nibbles == [] then 0 else 10 * Number(nibbles[..|nibbles| - 1]) + nibbles[|nibbles| - 1] as int
  }

  /** The number that a digit string writes. */
  function Decimal(s: string): int {
    if s == "" then 0 else 10 * Decimal(s[..|s| - 1]) + (s[|s| - 1] as int - '0' as int)
  }

  function Ten(n: nat): nat {
    if n == 0 then 1 else 10 * Ten(n - 1)
  }

  lemma NumberSnoc(ns: seq<Nibble>, n: Nibble)
    ensures Number(ns + [n]) == 10 * Number(ns) + n as int
  {
    assert (ns + [n])[..|ns|] == ns;
  }

  lemma WrittenSnoc(ns: seq<Nibble>, n: Nibble)
    ensures Written(ns + [n]) == Written(ns) + Text(n)
  {
    assert (ns + [n])[..|ns|] == ns;
  }

  lemma {:induction false} NumberBound(ns: seq<Nibble>)
    ensures 9 * Number(ns) <= 15 * (Ten(|ns|) - 1)
  {
    if ns != [] {
      NumberBound(ns[..|ns| - 1]);
    }
  }

  lemma {:induction false} PositionsLength(octets: seq<Octet>)
    ensures |octets| <= |Positions(octets)| <= 2 * |octets|
  {
    if octets != [] {
      PositionsLength(octets[..|octets| - 1]);
    }
  }

  lemma {:induction false} TenMonotonic(m: nat, n: nat)
    requires m <= n
    ensures 1 <= Ten(m) <= Ten(n)
  {
    if m < n {
      TenMonotonic(m, n - 1);
    } else if m > 0 {
      TenMonotonic(m - 1, m - 1);
    }
  }

  // ----- the decoders

  method Imsi2Str(imsi: array<Octet>) returns (s: string)
    requires imsi.Length == IMSI_LENGTH
    ensures s == Written(Positions(imsi[..]))
  {
    s := "";
    assert imsi[..0] == [] && Positions([]) == [] && Written([]) == "";
    hide *;
    for i := 0 to IMSI_LENGTH
      invariant s == Written(Positions(imsi[..i]))
    {
      assert imsi[..i + 1][..i] == imsi[..i];
      LastOctet(imsi[..i + 1]);
      OctetText(Positions(imsi[..i]), imsi[i]);
      s := s + Text(LowNibble(imsi[i]));
      if HighNibble(imsi[i]) < 10 {
        s := s + Text(HighNibble(imsi[i]));
      }
    }
    assert imsi[..IMSI_LENGTH] == imsi[..];
  }

  lemma LastOctet(octets: seq<Octet>)
    requires octets != []
    ensures Positions(octets) == Positions(octets[..|octets| - 1]) + Nibbles(octets[|octets| - 1])
  {
  }

  lemma OctetText(ns: seq<Nibble>, o: Octet)
    ensures var l, h := LowNibble(o), HighNibble(o);
            var w := Written(ns) + Text(l);
            Written(ns + Nibbles(o)) == if h < 10 then w + Text(h) else w
  {
    var l, h := LowNibble(o), HighNibble(o);
    assert ns + Nibbles(o) == if h < 10 then ns + [l] + [h] else ns + [l];
    hide *;
    WrittenSnoc(ns, l);
    WrittenSnoc(ns + [l], h);
  }

  /** 64-bit steps of the number decoder. */
  function Times10(x: ULongLong): ULongLong { ((x as int * 10) % TWO_64) as ULongLong }
  function PlusNibble(x: ULongLong, n: Nibble): ULongLong { ((x as int + n as int) % TWO_64) as ULongLong }

  /** The wrapping steps never wrap, for any octets at all. */
  method Imsi2LongLong(imsi: array<Octet>) returns (imsilong: ULongLong)
    requires imsi.Length == IMSI_LENGTH
    ensures imsilong as int == Number(Positions(imsi[..]))
    ensures imsilong as int < 2 * Ten(16)
  {
    assert imsi[..0] == [];
    imsilong := 0;
    assert Number(Positions([])) == 0;
    hide *;
    for i := 0 to IMSI_LENGTH
      invariant imsilong as int == Number(Positions(imsi[..i]))
    {
      var l, h := LowNibble(imsi[i]), HighNibble(imsi[i]);
      assert imsi[..i + 1][..i] == imsi[..i];
      DecodeOctet(imsilong, imsi[..i + 1]);
      imsilong := PlusNibble(Times10(imsilong), l);
      if h < 10 {
        imsilong := PlusNibble(Times10(imsilong), h);
      }
    }
    assert imsi[..IMSI_LENGTH] == imsi[..];
    NoWrap(imsi[..]);
  }

  lemma ShiftIn(x: ULongLong, n: Nibble)
    requires x as int * 10 + n as int < TWO_64
    ensures PlusNibble(Times10(x), n) as int == x as int * 10 + n as int
  {
  }

  /** What the loop does to the number for the last of some octets. */
  lemma DecodeOctet(x: ULongLong, octets: seq<Octet>)
    requires 0 < |octets| <= IMSI_LENGTH
    requires x as int == Number(Positions(octets[..|octets| - 1]))
    ensures var l, h := LowNibble(octets[|octets| - 1]), HighNibble(octets[|octets| - 1]);
            var y := PlusNibble(Times10(x), l);
            (if h < 10 then PlusNibble(Times10(y), h) else y) as int == Number(Positions(octets))
  {
    var ns, o := Positions(octets[..|octets| - 1]), octets[|octets| - 1];
    assert Positions(octets) == ns + Nibbles(o);
    NoWrap(octets);
    hide *;
    OctetNumber(ns, o);
    var l, h := LowNibble(o), HighNibble(o);
    ShiftIn(x, l);
    if h < 10 {
      ShiftIn(PlusNibble(Times10(x), l), h);
    }
  }

  lemma OctetNumber(ns: seq<Nibble>, o: Octet)
    ensures var l, h := LowNibble(o), HighNibble(o);
            var v := 10 * Number(ns) + l as int;
            Number(ns + Nibbles(o)) == if h < 10 then 10 * v + h as int else v
  {
    var l, h := LowNibble(o), HighNibble(o);
    assert ns + Nibbles(o) == if h < 10 then ns + [l] + [h] else ns + [l];
    hide *;
    NumberSnoc(ns, l);
    NumberSnoc(ns + [l], h);
  }

  lemma NoWrap(octets: seq<Octet>)
    requires |octets| <= IMSI_LENGTH
    ensures Number(Positions(octets)) < 2 * Ten(16) && 2 * Ten(16) < TWO_64
  {
    Ten16();
    hide Number, Positions, Ten;
    PositionsLength(octets);
    NumberBound(Positions(octets));
    TenMonotonic(|Positions(octets)|, 16);
  }

  lemma Ten16()
    ensures Ten(16) == 1_0000_0000_0000_0000
  {
    assert Ten(4) == 1_0000;
    assert Ten(8) == 1_0000_0000;
    assert Ten(12) == 1_0000_0000_0000;
  }

  // ----- when the two decoders agree

  /** Decodes to zeros only, with or without a filler. */
  predicate AllZero(o: Octet) {
    LowNibble(o) == 0 && (HighNibble(o) == 0 || HighNibble(o) >= 10)
  }

  /** A low nibble of 10 or more occurs only where nothing but zeros has come before it. */
  predicate Readable(octets: seq<Octet>) {
    forall i, j :: 0 <= j < i < |octets| && LowNibble(octets[i]) >= 10 ==> AllZero(octets[j])
  }

  lemma DecimalSnoc(s: string, n: Nibble)
    ensures Decimal(s + Text(n)) == if n < 10 then 10 * Decimal(s) + n as int else 100 * Decimal(s) + n as int
  {
    if n < 10 {
      assert (s + [DigitChar(n)])[..|s|] == s;
    } else {
      var t := s + ['1'];
      assert t[..|s|] == s;
      assert s + Text(n) == t + [DigitChar(n - 10)];
      assert (t + [DigitChar(n - 10)])[..|t|] == t;
      assert (n - 10) as int == n as int - 10;
    }
  }

  /** The text and the number after one more position. */
  lemma NibbleStep(ns: seq<Nibble>, n: Nibble)
    ensures Number(ns + [n]) == 10 * Number(ns) + n as int
    ensures Decimal(Written(ns + [n])) == (if n < 10 then 10 else 100) * Decimal(Written(ns)) + n as int
  {
    NumberSnoc(ns, n);
    WrittenSnoc(ns, n);
    DecimalSnoc(Written(ns), n);
    hide *;
  }

  /** The text and the number of octets o after ones that read s and v. */
  lemma OctetStep(ns: seq<Nibble>, o: Octet)
    ensures var s, v := Decimal(Written(ns)), Number(ns);
            var s', v' := Decimal(Written(ns + Nibbles(o))), Number(ns + Nibbles(o));
            var l, h := LowNibble(o) as int, HighNibble(o) as int;
            var sl, vl := (if l < 10 then 10 else 100) * s + l, 10 * v + l;
            && s' == (if h < 10 then 10 * sl + h else sl)
            && v' == (if h < 10 then 10 * vl + h else vl)
  {
    var l, h := LowNibble(o), HighNibble(o);
    assert ns + Nibbles(o) == if h < 10 then ns + [l] + [h] else ns + [l];
    hide *;
    NibbleStep(ns, l);
    if h < 10 {
      NibbleStep(ns + [l], h);
    }
  }

  /** s and v, the readings so far, after an octet with nibbles l and h. The flags say that
      the octets so far are readable, and that they are all zero. */
  lemma ReadingsStep(s: int, v: nat, readable: bool, zero: bool, l: nat, h: nat, s': int, v': nat)
    requires s >= v && (s == v <==> readable) && (v == 0 <==> zero) && (zero ==> readable)
    requires var sl, vl := (if l < 10 then 10 else 100) * s + l, 10 * v + l;
             s' == (if h < 10 then 10 * sl + h else sl) && v' == (if h < 10 then 10 * vl + h else vl)
    ensures s' >= v' && (s' == v' <==> readable && (l >= 10 ==> zero))
    ensures v' == 0 <==> zero && l == 0 && (h == 0 || h >= 10)
  {
  }

  predicate AllZeros(octets: seq<Octet>) {
    forall i :: 0 <= i < |octets| ==> AllZero(octets[i])
  }

  lemma ReadableStep(octets: seq<Octet>)
    requires octets != []
    ensures var n := |octets| - 1; var front, o := octets[..n], octets[n];
            && (AllZeros(front) ==> Readable(front))
            && (Readable(octets) <==> Readable(front) && (LowNibble(o) >= 10 ==> AllZeros(front)))
            && (AllZeros(octets) <==> AllZeros(front) && AllZero(o))
  {
    var n := |octets| - 1;
    if LowNibble(octets[n]) >= 10 && Readable(octets) {
      forall j | 0 <= j < n ensures AllZero(octets[..n][j]) {
      }
    }
  }

  /** The string never reads less than the number, and the number is zero only for zeros. */
  lemma {:induction false} TextAgainstNumber(octets: seq<Octet>)
    ensures var s, v := Decimal(Written(Positions(octets))), Number(Positions(octets));
            s >= v && (s == v <==> Readable(octets)) && (v == 0 <==> AllZeros(octets))
  {
    if octets == [] {
      return;
    }
    var n := |octets| - 1;
    var front, o := octets[..n], octets[n];
    ReadableStep(octets);
    assert Positions(octets) == Positions(front) + Nibbles(o);
    hide Number, Written, Decimal, Nibbles, Readable, AllZeros, Positions;
    TextAgainstNumber(front);
    OctetStep(Positions(front), o);
    hide LowNibble, HighNibble;
    var ns, ns' := Positions(front), Positions(octets);
    ReadingsStep(Decimal(Written(ns)), Number(ns), Readable(front), AllZeros(front),
                 LowNibble(o) as int, HighNibble(o) as int, Decimal(Written(ns')), Number(ns'));
  }

  /** The number decoder returns what the string decoder writes, exactly when every low
      nibble of 10 or more has only zeros before it; in particular for all valid digits. */
  lemma DecodersAgree(octets: seq<Octet>)
    requires |octets| == IMSI_LENGTH
    ensures Decimal(Written(Positions(octets))) == Number(Positions(octets)) <==> Readable(octets)
    ensures (forall i :: 0 <= i < |octets| ==> LowNibble(octets[i]) < 10) ==> Readable(octets)
  {
    TextAgainstNumber(octets);
  }

  /** Octets on which they differ: a one, then a nibble of ten. */
  lemma DecodersMayDiffer()
    ensures var octets := [0x01, 0x0A, 0, 0, 0, 0, 0, 0];
            Decimal(Written(Positions(octets))) != Number(Positions(octets))
  {
    var octets: seq<Octet> := [0x01, 0x0A, 0, 0, 0, 0, 0, 0];
    assert LowNibble(octets[1]) >= 10 && !AllZero(octets[0]);
    DecodersAgree(octets);
  }

  // ----- encoding

  function Pack(lo: Nibble, hi: Nibble): Octet { (hi as int * 16 + lo as int) as Octet }

  /** Fifteen digits packed two to an octet, low nibble first, with a filler at the end. */
  function Encode(digits: seq<Nibble>): (octets: seq<Octet>)
    requires |digits| == 15
    ensures |octets| == IMSI_LENGTH
  {
    seq(7, i requires 0 <= i < 7 => Pack(digits[2 * i], digits[2 * i + 1])) + [Pack(digits[14], 0x0f)]
  }

  lemma PackedNibbles(lo: Nibble, hi: Nibble)
    ensures LowNibble(Pack(lo, hi)) == lo && HighNibble(Pack(lo, hi)) == hi
  {
  }

  lemma PackedPair(lo: Nibble, hi: Nibble)
    ensures Nibbles(Pack(lo, hi)) == [lo] + if hi < 10 then [hi] else []
  {
    PackedNibbles(lo, hi);
    hide Pack, LowNibble, HighNibble;
  }

  lemma EncodedAt(digits: seq<Nibble>, i: nat)
    requires |digits| == 15 && i < IMSI_LENGTH
    ensures Encode(digits)[i] == if i < 7 then Pack(digits[2 * i], digits[2 * i + 1]) else Pack(digits[14], 0x0f)
  {
    hide Pack;
  }

  lemma {:induction false} EncodedPositions(digits: seq<Nibble>, k: nat)
    requires |digits| == 15 && k <= 7 && forall i :: 0 <= i < 15 ==> digits[i] < 10
    ensures Positions(Encode(digits)[..k]) == digits[..2 * k]
  {
    if k == 0 {
      return;
    }
    var octets, lo, hi := Encode(digits), digits[2 * k - 2], digits[2 * k - 1];
    assert Positions(octets[..k]) == Positions(octets[..k - 1]) + Nibbles(octets[k - 1]) by {
      assert octets[..k][..k - 1] == octets[..k - 1];
    }
    hide *;
    EncodedPositions(digits, k - 1);
    EncodedAt(digits, k - 1);
    PackedPair(lo, hi);
    assert digits[..2 * k] == digits[..2 * k - 2] + [lo] + [hi];
  }

  /** Decoding an encoded IMSI gives its fifteen digits, as text and as a number. */
  lemma EncodeDecode(digits: seq<Nibble>)
    requires |digits| == 15 && forall i :: 0 <= i < 15 ==> digits[i] < 10
    ensures var octets := Encode(digits);
            && Positions(octets) == digits
            && |Written(Positions(octets))| == 15
            && (forall i :: 0 <= i < 15 ==> Written(Positions(octets))[i] == DigitChar(digits[i]))
            && Decimal(Written(Positions(octets))) == Number(digits)
  {
    var octets := Encode(digits);
    assert Positions(octets) == Positions(octets[..7]) + Nibbles(octets[7]);
    EncodedPositions(digits, 7);
    EncodedAt(digits, 7);
    PackedPair(digits[14], 15);
    assert digits[..14] + [digits[14]] == digits;
    hide *;
    WrittenDigits(digits);
    forall i | 0 <= i < |octets| ensures LowNibble(octets[i]) < 10 {
      EncodedLow(digits, i);
    }
    DecodersAgree(octets);
  }

  lemma EncodedLow(digits: seq<Nibble>, i: nat)
    requires |digits| == 15 && i < IMSI_LENGTH
    ensures LowNibble(Encode(digits)[i]) == digits[2 * i]
  {
    EncodedAt(digits, i);
    if i < 7 {
      PackedNibbles(digits[2 * i], digits[2 * i + 1]);
    } else {
      PackedNibbles(digits[14], 15);
    }
    hide *;
  }

  /** Two octets: the digits 1 and 2, the digit 5 and a filler. */
  lemma DecodesExample()
    ensures Positions([0x21, 0xF5]) == [1, 2, 5]
    ensures Written([1, 2, 5]) == "125" && Number([1, 2, 5]) == 125
  {
    ExamplePositions();
    WrittenSnoc([], 1);
    WrittenSnoc([1], 2);
    WrittenSnoc([1, 2], 5);
    NumberSnoc([], 1);
    NumberSnoc([1], 2);
    NumberSnoc([1, 2], 5);
    assert [] + [1] == [1] && [1] + [2] == [1, 2] && [1, 2] + [5] == [1, 2, 5];
    assert Written([]) == "" && Number([]) == 0;
    hide Positions, Number, Written;
  }

  lemma ExamplePositions()
    ensures Positions([0x21, 0xF5]) == [1, 2, 5]
  {
    NibblesOfOctet(0x21, 1, 2);
    NibblesOfOctet(0xF5, 5, 15);
    LastOctet([0x21]);
    LastOctet([0x21, 0xF5]);
    assert [0x21, 0xF5][..1] == [0x21] && [0x21][..0] == [];
    assert Positions([]) == [];
    hide Positions, LowNibble, HighNibble;
  }

  lemma {:induction false} WrittenDigits(ds: seq<Nibble>)
    requires forall i :: 0 <= i < |ds| ==> ds[i] < 10
    ensures |Written(ds)| == |ds| && forall i :: 0 <= i < |ds| ==> Written(ds)[i] == DigitChar(ds[i])
  {
    if ds != [] {
      WrittenDigits(ds[..|ds| - 1]);
    }
  }
}
