/** The code units of string literals: each is the little-endian number that its bytes spell. */
module CodeUnits {
  import opened ClangAst
  import opened ExprDocs

  function Pow256(n: nat): nat {
    if n == 0 then 1 else 256 * Pow256(n - 1)
  }

  /** Byte `k` of a number. */
  function ByteOf(n: nat, k: nat): nat {
    PowPositive(k);
    n / Pow256(k) % 256
  }

  lemma {:induction false} PowPositive(n: nat)
    ensures Pow256(n) > 0
  {
    if n == 0 {
    } else {
      PowPositive(n - 1);
    }
  }

  /** A number of `width` bytes, the least significant first. */
  predicate Spells(n: nat, bytes: seq<int>, i: nat, width: nat)
    requires i + width <= |bytes|
  {
    n < Pow256(width) && forall k: nat :: k < width ==> ByteOf(n, k) == bytes[i + k] % 256
  }

  /** A multiple of `d` within `d` of zero is zero. */
  lemma SmallMultiple(k: int, d: int)
    requires d > 0 && -d < k * d < d
    ensures k == 0
  {
    if k > 0 {
      Times(k - 1, d);
    }
  }

  lemma Times(a: nat, b: nat)
    ensures a * b >= 0 && (a + 1) * b == a * b + b
  {
  }

  lemma QuotientIs(n: int, q: int, d: int, r: int)
    requires d > 0 && n == q * d + r && 0 <= r < d
    ensures n / d == q
  {
    var (p, s) := (n / d, n % d);
    assert n == p * d + s && 0 <= s < d;
    assert (p - q) * d == p * d - q * d == r - s;
    SmallMultiple(p - q, d);
  }

  /** Dropping the lowest byte moves the others down. */
  lemma HigherByte(x: nat, b: nat, k: nat)
    requires b < 256
    ensures ByteOf(x * 256 + b, k + 1) == ByteOf(x, k)
  {
    PowPositive(k);
    var p := Pow256(k);
    var (q, r) := (x / p, x % p);
    assert x == q * p + r;
    assert Pow256(k + 1) == 256 * p;
    assert x * 256 + b == q * (256 * p) + (256 * r + b);
    QuotientIs(x * 256 + b, q, 256 * p, 256 * r + b);
  }

  lemma LowestByte(x: nat, b: nat)
    requires b < 256
    ensures ByteOf(x * 256 + b, 0) == b
  {
    assert Pow256(0) == 1;
    assert (x * 256 + b) / 1 == x * 256 + b;
  }

  lemma {:induction false} UnitSpells(bytes: seq<int>, width: nat)
    requires width <= |bytes|
    ensures Spells(Unit(bytes, width), bytes, 0, width)
    decreases width
  {
    hide ByteOf;
    if width == 0 {
    } else {
      var (x, b) := (Unit(bytes[1..], width - 1), bytes[0] % 256);
      UnitSpells(bytes[1..], width - 1);
      forall k: nat | k < width
        ensures ByteOf(Unit(bytes, width), k) == bytes[k] % 256
      {
        if k == 0 {
          LowestByte(x, b);
        } else {
          HigherByte(x, b, k - 1);
          assert ByteOf(x, k - 1) == bytes[1..][0 + (k - 1)] % 256;
        }
      }
    }
  }

  /** The bytes determine the number. */
  lemma {:induction false} SpellsOne(m: nat, n: nat, width: nat)
    requires m < Pow256(width) && n < Pow256(width)
    requires forall k: nat :: k < width ==> ByteOf(m, k) == ByteOf(n, k)
    ensures m == n
    decreases width
  {
    if width == 0 {
    } else {
      var (x, y) := (m / 256, n / 256);
      var (b, c) := (m % 256, n % 256);
      LowestByte(x, b);
      LowestByte(y, c);
      assert ByteOf(m, 0) == ByteOf(n, 0);
      forall k: nat | k < width - 1
        ensures ByteOf(x, k) == ByteOf(y, k)
      {
        HigherByte(x, b, k);
        HigherByte(y, c, k);
        assert ByteOf(m, k + 1) == ByteOf(n, k + 1);
      }
      SpellsOne(x, y, width - 1);
    }
  }

  /** One unit for each `width` bytes. */
  predicate Encodes(units: seq<nat>, str: StringBytes) {
    |units| == str.length && forall j: nat :: j < str.length ==> UnitAt(units[j], str, j)
  }

  predicate UnitAt(n: nat, str: StringBytes, j: nat)
    requires j < str.length
  {
    UnitFits(j, str.length, str.width);
    Spells(n, str.bytes, j * str.width, str.width)
  }

  lemma UnitFits(j: nat, length: nat, width: nat)
    requires j < length
    ensures j * width + width <= length * width
  {
    var more := length - j - 1;
    assert length * width == (j + 1 + more) * width == (j + 1) * width + more * width;
    Times(j, width);
    Times(more, width);
  }

  lemma UnitMoves(n: nat, bytes: seq<int>, width: nat, j: nat)
    requires width <= |bytes| && width + (j * width + width) <= |bytes|
    ensures Spells(n, bytes[width..], j * width, width) <==> Spells(n, bytes, (j + 1) * width, width)
  {
    assert (j + 1) * width == width + j * width;
  }

  lemma {:induction false} UnitsEncode(str: StringBytes)
    ensures Encodes(Units(str.bytes, str.width), str)
    decreases str.length
  {
    hide Spells, Unit;
    var (bytes, width) := (str.bytes, str.width);
    if str.length == 0 {
      assert bytes == [];
    } else {
      UnitFits(0, str.length, width);
      assert (str.length - 1) * width == str.length * width - width;
      var rest: StringBytes := StringData(bytes[width..], width, str.length - 1);
      UnitsEncode(rest);
      UnitSpells(bytes, width);
      forall j: nat | j < str.length
        ensures UnitAt(Units(bytes, width)[j], str, j)
      {
        if j > 0 {
          UnitFits(j - 1, rest.length, width);
          UnitMoves(Units(bytes, width)[j], bytes, width, j - 1);
          assert UnitAt(Units(rest.bytes, width)[j - 1], rest, j - 1);
        }
      }
    }
  }

  /** The units that are written are the only ones that spell the bytes. */
  lemma EncodesOnly(units: seq<nat>, str: StringBytes)
    ensures Encodes(units, str) <==> units == Units(str.bytes, str.width)
  {
    hide Units, ByteOf;
    UnitsEncode(str);
    var all := Units(str.bytes, str.width);
    if Encodes(units, str) {
      forall j: nat | j < str.length
        ensures units[j] == all[j]
      {
        UnitFits(j, str.length, str.width);
        assert UnitAt(units[j], str, j) && UnitAt(all[j], str, j);
        SpellsOne(units[j], all[j], str.width);
      }
    }
  }
}
