/** Searching and comparing the byte strings of theories/prelude/bytestring_core.v. */
module Bytestring {
  import opened Text

  type Bs = seq<Byte>

  function Prefix(s1: Bs, s2: Bs): bool {
    if s1 == [] then true
    else if s2 == [] then false
    else if s1[0] == s2[0] then Prefix(s1[1..], s2[1..])
    else false
  }

  function Substring(n: nat, m: nat, s: Bs): Bs
    decreases n, m
  {
    if n == 0 then
      if m == 0 then [] else if s == [] then s else [s[0]] + Substring(0, m - 1, s[1..])
    else if s == [] then s
    else Substring(n - 1, m, s[1..])
  }

  function Index(n: nat, s1: Bs, s2: Bs): Option<nat>
    decreases |s2|
  {
    if s2 == [] then
      if n == 0 && s1 == [] then Some(0) else None
    else if n == 0 then
      if Prefix(s1, s2) then Some(0)
      else match Index(0, s1, s2[1..])
        case Some(i) => Some(i + 1)
        case None => None
    else match Index(n - 1, s1, s2[1..])
      case Some(i) => Some(i + 1)
      case None => None
  }

  function Contains(start: nat, keys: seq<Bs>, name: Bs): bool
    decreases |keys|
  {
    if keys == [] then true
    else match Index(start, keys[0], name)
      case Some(n) => Contains(n + |keys[0]|, keys[1..], name)
      case None => false
  }

  // ---- Searching -----------------------------------------------------------------------------

  lemma {:induction false} PrefixIff(s1: Bs, s2: Bs)
    ensures Prefix(s1, s2) <==> s1 <= s2
    decreases |s1|
  {
    if s1 != [] && s2 != [] {
      PrefixIff(s1[1..], s2[1..]);
      if s1[0] == s2[0] {
        assert s1 == [s1[0]] + s1[1..] && s2 == [s2[0]] + s2[1..];
        assert s1[1..] <= s2[1..] ==> s1 <= s2;
        if s1 <= s2 {
          assert s2[1..][..|s1| - 1] == s2[..|s1|][1..] == s1[1..];
        }
      }
    }
  }

  lemma {:induction false} TakeIs(m: nat, s: Bs)
    ensures Substring(0, m, s) == if m > |s| then s else s[..m]
    decreases m
  {
    if m == 0 || s == [] {
    } else {
      TakeIs(m - 1, s[1..]);
      if m <= |s| {
        assert [s[0]] + s[1..][..m - 1] == s[..m];
      } else {
        assert [s[0]] + s[1..] == s;
      }
    }
  }

  /** A substring is a slice, clipped to the string. */
  lemma {:induction false} SubstringIs(n: nat, m: nat, s: Bs)
    ensures Substring(n, m, s) ==
            if n > |s| then [] else if n + m > |s| then s[n..] else s[n..n + m]
    decreases n
  {
    if n == 0 {
      TakeIs(m, s);
      assert s[0..] == s && (m <= |s| ==> s[0..m] == s[..m]);
    } else if s == [] {
    } else {
      SubstringIs(n - 1, m, s[1..]);
      if n + m <= |s| {
        assert s[1..][n - 1..n - 1 + m] == s[n..n + m];
      } else if n <= |s| {
        assert s[1..][n - 1..] == s[n..];
      }
    }
  }

  /** `key` stands in `s` at position `i`. */
  predicate Occurs(key: Bs, s: Bs, i: nat) {
    i + |key| <= |s| && Substring(i, |key|, s) == key
  }

  lemma OccursIff(key: Bs, s: Bs, i: nat)
    ensures Occurs(key, s, i) <==> i + |key| <= |s| && s[i..i + |key|] == key
  {
    SubstringIs(i, |key|, s);
  }

  lemma OccursTail(key: Bs, s: Bs, i: nat)
    requires s != []
    ensures Occurs(key, s, i + 1) <==> Occurs(key, s[1..], i)
  {
    OccursIff(key, s, i + 1);
    OccursIff(key, s[1..], i);
    if i + |key| <= |s| - 1 {
      var (a, b) := (s[i + 1..i + 1 + |key|], s[1..][i..i + |key|]);
      assert |a| == |b| && forall j :: 0 <= j < |a| ==> a[j] == s[i + 1 + j] == b[j];
      assert a == b;
    }
  }

  lemma OccursHead(key: Bs, s: Bs)
    ensures Occurs(key, s, 0) <==> Prefix(key, s)
  {
    OccursIff(key, s, 0);
    PrefixIff(key, s);
    if |key| <= |s| {
      assert s[0..|key|] == s[..|key|];
    }
  }

  /** `Index` finds the least position from `n` on, and fails exactly when there is none. */
  lemma {:induction false} IndexIsLeast(n: nat, s1: Bs, s2: Bs)
    ensures match Index(n, s1, s2)
            case Some(i) => n <= i && Occurs(s1, s2, i) && forall j :: n <= j < i ==> !Occurs(s1, s2, j)
            case None => forall j :: n <= j ==> !Occurs(s1, s2, j)
    decreases |s2|
  {
    hide Occurs, Prefix;
    if s2 == [] {
      forall j: nat
        ensures Occurs(s1, [], j) <==> j == 0 && s1 == []
      {
        OccursIff(s1, [], j);
      }
    } else {
      OccursHead(s1, s2);
      IndexIsLeast(if n == 0 then 0 else n - 1, s1, s2[1..]);
      forall j: nat
        ensures j > 0 ==> (Occurs(s1, s2, j) <==> Occurs(s1, s2[1..], j - 1))
      {
        if j > 0 {
          OccursTail(s1, s2, j - 1);
        }
      }
    }
  }

  /** The keys stand in the name one after the other, at these positions. */
  predicate Placed(start: nat, keys: seq<Bs>, name: Bs, at: seq<nat>)
    decreases |keys|
  {
    |at| == |keys| &&
    (keys == [] ||
     (start <= at[0] && Occurs(keys[0], name, at[0]) && Placed(at[0] + |keys[0]|, keys[1..], name, at[1..])))
  }

  lemma {:induction false} GreedySuffices(start: nat, keys: seq<Bs>, name: Bs, at: seq<nat>)
    requires Placed(start, keys, name, at)
    ensures Contains(start, keys, name)
    decreases |keys|
  {
    hide Occurs;
    if keys == [] {
    } else {
      IndexIsLeast(start, keys[0], name);
      var n := Index(start, keys[0], name).value;
      GreedySuffices(n + |keys[0]|, keys[1..], name, at[1..]);
    }
  }

  lemma {:induction false} GreedyPlaces(start: nat, keys: seq<Bs>, name: Bs) returns (at: seq<nat>)
    requires Contains(start, keys, name)
    ensures Placed(start, keys, name, at)
    decreases |keys|
  {
    hide Occurs;
    at := [];
    if keys == [] {
    } else {
      IndexIsLeast(start, keys[0], name);
      var n := Index(start, keys[0], name).value;
      var rest := GreedyPlaces(n + |keys[0]|, keys[1..], name);
      at := [n] + rest;
      assert at[1..] == rest;
    }
  }

  /** The greedy search finds the keys exactly when they can be placed in order without overlap. */
  lemma ContainsIff(start: nat, keys: seq<Bs>, name: Bs)
    ensures Contains(start, keys, name) <==> exists at :: Placed(start, keys, name, at)
  {
    if Contains(start, keys, name) {
      var at := GreedyPlaces(start, keys, name);
    } else {
      forall at | Placed(start, keys, name, at)
        ensures false
      {
        GreedySuffices(start, keys, name, at);
      }
    }
  }

  // ---- Comparing -----------------------------------------------------------------------------

  datatype Comparison = Eq | Lt | Gt

  function ByteCmp(a: Byte, b: Byte): Comparison {
    if a == b then Eq else if a < b then Lt else Gt
  }

  function BsCmp(xs: Bs, ys: Bs): Comparison {
    if xs == [] && ys == [] then Eq
    else if xs == [] then Lt
    else if ys == [] then Gt
    else match ByteCmp(xs[0], ys[0])
      case Eq => BsCmp(xs[1..], ys[1..])
      case c => c
  }

  /** The strings agree on their first `i` bytes, and then the first ends or has the smaller byte. */
  predicate LessAt(xs: Bs, ys: Bs, i: nat) {
    i <= |xs| && i < |ys| && xs[..i] == ys[..i] && (i == |xs| || xs[i] < ys[i])
  }

  lemma LessTail(xs: Bs, ys: Bs, i: nat)
    requires xs != [] && ys != [] && xs[0] == ys[0]
    ensures LessAt(xs, ys, i + 1) <==> LessAt(xs[1..], ys[1..], i)
  {
    if i + 1 <= |xs| && i + 1 <= |ys| {
      assert xs[..i + 1] == [xs[0]] + xs[1..][..i];
      assert ys[..i + 1] == [ys[0]] + ys[1..][..i];
    }
  }

  /** The comparison is the lexicographic one. */
  lemma {:induction false} CmpIsLexicographic(xs: Bs, ys: Bs)
    ensures BsCmp(xs, ys) == Eq <==> xs == ys
    ensures BsCmp(xs, ys) == Lt <==> exists i :: LessAt(xs, ys, i)
    ensures BsCmp(xs, ys) == Gt <==> BsCmp(ys, xs) == Lt
    decreases |xs|
  {
    if xs == [] && ys != [] {
      assert LessAt(xs, ys, 0);
    } else if xs != [] && ys != [] && xs[0] != ys[0] {
      if xs[0] < ys[0] {
        assert LessAt(xs, ys, 0);
      }
      forall i: nat
        ensures LessAt(xs, ys, i) ==> i == 0
      {
        if 0 < i <= |xs| && i <= |ys| {
          assert xs[..i][0] == xs[0] && ys[..i][0] == ys[0];
        }
      }
    } else if xs != [] && ys != [] {
      CmpIsLexicographic(xs[1..], ys[1..]);
      assert xs == [xs[0]] + xs[1..] && ys == [ys[0]] + ys[1..];
      forall i: nat
        ensures LessAt(xs, ys, i + 1) <==> LessAt(xs[1..], ys[1..], i)
      {
        LessTail(xs, ys, i);
      }
      assert !LessAt(xs, ys, 0);
      forall i: nat | LessAt(xs, ys, i)
        ensures LessAt(xs[1..], ys[1..], i - 1)
      {
        LessTail(xs, ys, i - 1);
      }
      forall i: nat | LessAt(xs[1..], ys[1..], i)
        ensures LessAt(xs, ys, i + 1)
      {
      }
    }
  }

  predicate Less(xs: Bs, ys: Bs) {
    BsCmp(xs, ys) == Lt
  }

  lemma {:induction false} LessTransitive(xs: Bs, ys: Bs, zs: Bs)
    requires Less(xs, ys) && Less(ys, zs)
    ensures Less(xs, zs)
    decreases |xs|
  {
    if xs != [] && xs[0] == ys[0] && ys[0] == zs[0] {
      LessTransitive(xs[1..], ys[1..], zs[1..]);
    }
  }

  /** A strict total order. */
  lemma LessIsStrictTotal(xs: Bs, ys: Bs, zs: Bs)
    ensures !Less(xs, xs)
    ensures Less(xs, ys) || xs == ys || Less(ys, xs)
    ensures !(Less(xs, ys) && Less(ys, xs))
    ensures Less(xs, ys) && Less(ys, zs) ==> Less(xs, zs)
  {
    CmpIsLexicographic(xs, xs);
    CmpIsLexicographic(xs, ys);
    CmpIsLexicographic(ys, xs);
    if Less(xs, ys) && Less(ys, zs) {
      LessTransitive(xs, ys, zs);
    }
  }
}
