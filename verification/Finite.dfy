/** Sets of a finite type as bit masks: theories/prelude/finite.v. */
module Finite {
  import opened Text

  // ---- Natural numbers as bit sequences ----------------------------------------------------------

  function TestBit(n: nat, i: nat): bool {
    if i == 0 then n % 2 == 1 else TestBit(n / 2, i - 1)
  }

  function SetBit(n: nat, i: nat): nat {
    if i == 0 then (if n % 2 == 1 then n else n + 1) else 2 * SetBit(n / 2, i - 1) + n % 2
  }

  function Lor(a: nat, b: nat): nat {
    if a == 0 && b == 0 then 0
    else 2 * Lor(a / 2, b / 2) + (if a % 2 == 1 || b % 2 == 1 then 1 else 0)
  }

  function Land(a: nat, b: nat): nat {
    if a == 0 || b == 0 then 0
    else 2 * Land(a / 2, b / 2) + (if a % 2 == 1 && b % 2 == 1 then 1 else 0)
  }

  function Pow2(i: nat): nat {
    if i == 0 then 1 else 2 * Pow2(i - 1)
  }

  lemma {:induction false} ZeroBits(i: nat)
    ensures !TestBit(0, i)
  {
    if i == 0 {
    } else {
      ZeroBits(i - 1);
    }
  }

  lemma {:induction false} SetBitBits(n: nat, i: nat, j: nat)
    ensures TestBit(SetBit(n, i), j) <==> i == j || TestBit(n, j)
    decreases i
  {
    var r := SetBit(n, i);
    if i == 0 {
      assert r / 2 == n / 2;
    } else {
      assert r / 2 == SetBit(n / 2, i - 1) && r % 2 == n % 2;
      if j > 0 {
        SetBitBits(n / 2, i - 1, j - 1);
      }
    }
  }

  lemma {:induction false} LorBits(a: nat, b: nat, i: nat)
    ensures TestBit(Lor(a, b), i) <==> TestBit(a, i) || TestBit(b, i)
    decreases i
  {
    if a == 0 && b == 0 {
      ZeroBits(i);
    } else {
      var r := Lor(a, b);
      assert r / 2 == Lor(a / 2, b / 2);
      if i > 0 {
        LorBits(a / 2, b / 2, i - 1);
      }
    }
  }

  lemma {:induction false} LandBits(a: nat, b: nat, i: nat)
    ensures TestBit(Land(a, b), i) <==> TestBit(a, i) && TestBit(b, i)
    decreases i
  {
    if a == 0 || b == 0 {
      ZeroBits(i);
    } else {
      var r := Land(a, b);
      assert r / 2 == Land(a / 2, b / 2);
      if i > 0 {
        LandBits(a / 2, b / 2, i - 1);
      }
    }
  }

  /** Numbers with the same bits are equal. */
  lemma {:induction false} SameBits(a: nat, b: nat)
    requires forall i: nat :: TestBit(a, i) <==> TestBit(b, i)
    ensures a == b
    decreases a + b
  {
    if a > 0 || b > 0 {
      assert TestBit(a, 0) <==> TestBit(b, 0);
      forall i: nat
        ensures TestBit(a / 2, i) <==> TestBit(b / 2, i)
      {
        assert TestBit(a, i + 1) <==> TestBit(b, i + 1);
      }
      SameBits(a / 2, b / 2);
    }
  }

  // ---- A finite type with bit numbers ------------------------------------------------------------

  /** The values of the type, and the bit that stands for each. */
  datatype Bitmask<!T(==)> = Bitmask(enum: seq<T>, toBit: T -> nat)

  /** Different values have different bits. */
  ghost predicate Injective<T(!new)>(b: Bitmask<T>) {
    forall x, y :: x in b.enum && y in b.enum && b.toBit(x) == b.toBit(y) ==> x == y
  }

  /** A set of values of the type. */
  ghost predicate Member<T>(b: Bitmask<T>, s: set<T>) {
    forall x <- s :: x in b.enum
  }

  function ToList<T(==)>(b: Bitmask<T>, mask: nat): seq<T> {
    Select(b.enum, x => TestBit(mask, b.toBit(x)))
  }

  function Select<T>(xs: seq<T>, p: T -> bool): seq<T> {
    if xs == [] then [] else (if p(xs[0]) then [xs[0]] else []) + Select(xs[1..], p)
  }

  function OfBits<T(==)>(b: Bitmask<T>, mask: nat): set<T> {
    set x | x in ToList(b, mask)
  }

  function FoldBits<T(==)>(b: Bitmask<T>, xs: seq<T>): nat {
    if xs == [] then 0 else SetBit(FoldBits(b, xs[1..]), b.toBit(xs[0]))
  }

  /** The elements of a set, in the order of the type. */
  function Elements<T(==)>(b: Bitmask<T>, s: set<T>): seq<T> {
    Select(b.enum, x => x in s)
  }

  function ToBits<T(==)>(b: Bitmask<T>, s: set<T>): nat {
    FoldBits(b, Elements(b, s))
  }

  function Top<T(==)>(b: Bitmask<T>): set<T> {
    set x | x in b.enum
  }

  function MaskTop<T(==)>(b: Bitmask<T>): nat {
    ToBits(b, Top(b))
  }

  function Masked<T(==)>(b: Bitmask<T>, mask: nat, s: set<T>): set<T> {
    s * OfBits(b, mask)
  }

  lemma {:induction false} SelectIff<T(!new)>(xs: seq<T>, p: T -> bool, x: T)
    ensures x in Select(xs, p) <==> x in xs && p(x)
    decreases |xs|
  {
    if xs == [] {
    } else {
      SelectIff(xs[1..], p, x);
      assert xs == [xs[0]] + xs[1..];
    }
  }

  /** A mask denotes the values whose bit it has. */
  lemma OfBitsIff<T(!new)>(b: Bitmask<T>, mask: nat, x: T)
    ensures x in OfBits(b, mask) <==> x in b.enum && TestBit(mask, b.toBit(x))
  {
    SelectIff(b.enum, x => TestBit(mask, b.toBit(x)), x);
  }

  lemma {:induction false} FoldBitsIff<T(!new)>(b: Bitmask<T>, xs: seq<T>, i: nat)
    ensures TestBit(FoldBits(b, xs), i) <==> exists x :: x in xs && b.toBit(x) == i
    decreases |xs|
  {
    if xs == [] {
      ZeroBits(i);
    } else {
      FoldBitsIff(b, xs[1..], i);
      SetBitBits(FoldBits(b, xs[1..]), b.toBit(xs[0]), i);
      assert xs == [xs[0]] + xs[1..];
      if TestBit(FoldBits(b, xs), i) && i != b.toBit(xs[0]) {
        var x :| x in xs[1..] && b.toBit(x) == i;
        assert x in xs;
      } else if i == b.toBit(xs[0]) {
        assert xs[0] in xs;
      }
    }
  }

  /** A set is encoded by the bits of its elements. */
  lemma ToBitsIff<T(!new)>(b: Bitmask<T>, s: set<T>, i: nat)
    requires Member(b, s)
    ensures TestBit(ToBits(b, s), i) <==> exists x :: x in s && b.toBit(x) == i
  {
    FoldBitsIff(b, Elements(b, s), i);
    forall x
      ensures x in Elements(b, s) <==> x in s
    {
      SelectIff(b.enum, x => x in s, x);
    }
  }

  /** The fold does not depend on the order, or the repetitions, in which elements come. */
  lemma FoldOrderIndependent<T(!new)>(b: Bitmask<T>, s: set<T>, xs: seq<T>)
    requires Member(b, s) && forall x :: x in xs <==> x in s
    ensures FoldBits(b, xs) == ToBits(b, s)
  {
    forall i: nat
      ensures TestBit(FoldBits(b, xs), i) <==> TestBit(ToBits(b, s), i)
    {
      FoldBitsIff(b, xs, i);
      ToBitsIff(b, s, i);
    }
    SameBits(FoldBits(b, xs), ToBits(b, s));
  }

  /** Decoding undoes encoding for every set exactly when different values have different bits. */
  lemma OfToBitsIff<T(!new)>(b: Bitmask<T>)
    ensures Injective(b) <==> forall s :: Member(b, s) ==> OfBits(b, ToBits(b, s)) == s
  {
    if Injective(b) {
      forall s | Member(b, s)
        ensures OfBits(b, ToBits(b, s)) == s
      {
        OfToBits(b, s);
      }
    } else {
      var x, y :| x in b.enum && y in b.enum && b.toBit(x) == b.toBit(y) && x != y;
      assert x in {x};
      ToBitsIff(b, {x}, b.toBit(y));
      OfBitsIff(b, ToBits(b, {x}), y);
      assert Member(b, {x}) && y in OfBits(b, ToBits(b, {x})) && y !in {x};
    }
  }

  lemma OfToBits<T(!new)>(b: Bitmask<T>, s: set<T>)
    requires Injective(b) && Member(b, s)
    ensures OfBits(b, ToBits(b, s)) == s
  {
    forall x
      ensures x in OfBits(b, ToBits(b, s)) <==> x in s
    {
      OfBitsIff(b, ToBits(b, s), x);
      if x in b.enum {
        ToBitsIff(b, s, b.toBit(x));
      }
    }
  }

  /** Encoding what a mask denotes keeps the bits of the mask that stand for some value. */
  lemma ToOfBits<T(!new)>(b: Bitmask<T>, mask: nat)
    ensures ToBits(b, OfBits(b, mask)) == Land(MaskTop(b), mask)
  {
    var s := OfBits(b, mask);
    forall x
      ensures x in s <==> x in b.enum && TestBit(mask, b.toBit(x))
    {
      OfBitsIff(b, mask, x);
    }
    forall i: nat
      ensures TestBit(ToBits(b, s), i) <==> TestBit(Land(MaskTop(b), mask), i)
    {
      ToBitsIff(b, s, i);
      ToBitsIff(b, Top(b), i);
      LandBits(MaskTop(b), mask, i);
    }
    SameBits(ToBits(b, s), Land(MaskTop(b), mask));
  }

  lemma ToBitsUnion<T(!new)>(b: Bitmask<T>, s: set<T>, t: set<T>)
    requires Member(b, s) && Member(b, t)
    ensures ToBits(b, s + t) == Lor(ToBits(b, s), ToBits(b, t))
  {
    forall i: nat
      ensures TestBit(ToBits(b, s + t), i) <==> TestBit(Lor(ToBits(b, s), ToBits(b, t)), i)
    {
      ToBitsIff(b, s, i);
      ToBitsIff(b, t, i);
      ToBitsIff(b, s + t, i);
      LorBits(ToBits(b, s), ToBits(b, t), i);
    }
    SameBits(ToBits(b, s + t), Lor(ToBits(b, s), ToBits(b, t)));
  }

  lemma ToBitsIntersection<T(!new)>(b: Bitmask<T>, s: set<T>, t: set<T>)
    requires Injective(b) && Member(b, s) && Member(b, t)
    ensures ToBits(b, s * t) == Land(ToBits(b, s), ToBits(b, t))
  {
    forall i: nat
      ensures TestBit(ToBits(b, s * t), i) <==> TestBit(Land(ToBits(b, s), ToBits(b, t)), i)
    {
      ToBitsIff(b, s, i);
      ToBitsIff(b, t, i);
      ToBitsIff(b, s * t, i);
      LandBits(ToBits(b, s), ToBits(b, t), i);
      if x, y :| x in s && b.toBit(x) == i && y in t && b.toBit(y) == i {
        assert x == y && x in s * t;
      }
    }
    SameBits(ToBits(b, s * t), Land(ToBits(b, s), ToBits(b, t)));
  }

  /** Intersections are encoded by `land` for all sets exactly when different values have
      different bits. */
  lemma IntersectionIff<T(!new)>(b: Bitmask<T>)
    ensures Injective(b) <==>
            forall s, t :: Member(b, s) && Member(b, t) ==> ToBits(b, s * t) == Land(ToBits(b, s), ToBits(b, t))
  {
    if Injective(b) {
      forall s, t | Member(b, s) && Member(b, t)
        ensures ToBits(b, s * t) == Land(ToBits(b, s), ToBits(b, t))
      {
        ToBitsIntersection(b, s, t);
      }
    } else {
      var x, y :| x in b.enum && y in b.enum && b.toBit(x) == b.toBit(y) && x != y;
      var i := b.toBit(x);
      assert x in {x} && y in {y} && {x} * {y} == {};
      ToBitsIff(b, {x}, i);
      ToBitsIff(b, {y}, i);
      ToBitsIff(b, {x} * {y}, i);
      LandBits(ToBits(b, {x}), ToBits(b, {y}), i);
      assert Member(b, {x}) && Member(b, {y});
    }
  }

  /** Masks act on the sets they denote. */
  lemma OfBitsLorLand<T(!new)>(b: Bitmask<T>, m: nat, n: nat)
    ensures OfBits(b, Lor(m, n)) == OfBits(b, m) + OfBits(b, n)
    ensures OfBits(b, Land(m, n)) == OfBits(b, m) * OfBits(b, n)
  {
    forall x
      ensures x in OfBits(b, Lor(m, n)) <==> x in OfBits(b, m) + OfBits(b, n)
      ensures x in OfBits(b, Land(m, n)) <==> x in OfBits(b, m) * OfBits(b, n)
    {
      OfBitsIff(b, m, x);
      OfBitsIff(b, n, x);
      OfBitsIff(b, Lor(m, n), x);
      OfBitsIff(b, Land(m, n), x);
      if x in b.enum {
        LorBits(m, n, b.toBit(x));
        LandBits(m, n, b.toBit(x));
      }
    }
  }

  /** Masking with every bit of the type changes nothing. */
  lemma MaskedTop<T(!new)>(b: Bitmask<T>, s: set<T>)
    requires Member(b, s)
    ensures Masked(b, MaskTop(b), s) == s
  {
    forall x | x in s
      ensures x in OfBits(b, MaskTop(b))
    {
      OfBitsIff(b, MaskTop(b), x);
      ToBitsIff(b, Top(b), b.toBit(x));
    }
  }
}
