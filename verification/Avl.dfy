/** Checking that a raw tree is a search tree: theories/prelude/avl.v. */
module Avl {
  import opened Text
  import opened Bytestring

  datatype Tree<T> = Leaf | Node(l: Tree<T>, k: Bs, v: T, r: Tree<T>, height: int)

  /** One pass that checks each key against the nearest bounds above it. */
  function CheckCanon<T>(min: Option<Bs>, max: Option<Bs>, b: Tree<T>): bool
    decreases b
  {
    match b
    case Leaf => true
    case Node(l, k, _, r, _) =>
      && CheckCanon(min, Some(k), l)
      && CheckCanon(Some(k), max, r)
      && (match min case None => true case Some(m) => BsCmp(m, k) == Lt)
      && (match max case None => true case Some(m) => BsCmp(k, m) == Lt)
  }

  function Keys<T>(b: Tree<T>): set<Bs> {
    match b
    case Leaf => {}
    case Node(l, k, _, r, _) => Keys(l) + {k} + Keys(r)
  }

  predicate Above(min: Option<Bs>, k: Bs) {
    min.Some? ==> Less(min.value, k)
  }

  predicate Below(k: Bs, max: Option<Bs>) {
    max.Some? ==> Less(k, max.value)
  }

  /** A binary search tree: at every node all keys on the left are smaller, and all on the right
      greater. */
  predicate Bst<T>(b: Tree<T>) {
    match b
    case Leaf => true
    case Node(l, k, _, r, _) =>
      && Bst(l) && Bst(r)
      && (forall x <- Keys(l) :: Less(x, k))
      && (forall x <- Keys(r) :: Less(k, x))
  }

  lemma {:induction false} CheckIff<T>(min: Option<Bs>, max: Option<Bs>, b: Tree<T>)
    ensures CheckCanon(min, max, b) <==>
            Bst(b) && forall x <- Keys(b) :: Above(min, x) && Below(x, max)
    decreases b
  {
    hide BsCmp;
    match b
    case Leaf =>
    case Node(l, k, _, r, _) =>
      CheckIff(min, Some(k), l);
      CheckIff(Some(k), max, r);
      assert k in Keys(b) && Keys(l) <= Keys(b) && Keys(r) <= Keys(b);
      if CheckCanon(min, max, b) {
        forall x | x in Keys(b)
          ensures Above(min, x) && Below(x, max)
        {
          if x in Keys(l) {
            assert Less(x, k);
            if max.Some? {
              LessTransitive(x, k, max.value);
            }
          } else if x in Keys(r) {
            assert Less(k, x);
            if min.Some? {
              LessTransitive(min.value, k, x);
            }
          }
        }
      }
      if Bst(b) && forall x <- Keys(b) :: Above(min, x) && Below(x, max) {
        assert Above(min, k) && Below(k, max);
        assert forall x <- Keys(l) :: Above(min, x) && Below(x, Some(k));
        assert forall x <- Keys(r) :: Above(Some(k), x) && Below(x, max);
      }
  }

  /** The check accepts exactly the binary search trees. */
  lemma CheckCanonIff<T>(b: Tree<T>)
    ensures CheckCanon(None, None, b) <==> Bst(b)
  {
    CheckIff(None, None, b);
  }

  /** The elements of a tree from left to right. */
  function Elements<T>(b: Tree<T>): seq<(Bs, T)> {
    match b
    case Leaf => []
    case Node(l, k, v, r, _) => Elements(l) + [(k, v)] + Elements(r)
  }

  function KeyList<T>(b: Tree<T>): seq<Bs> {
    match b
    case Leaf => []
    case Node(l, k, _, r, _) => KeyList(l) + [k] + KeyList(r)
  }

  lemma {:induction false} KeysListed<T>(b: Tree<T>)
    ensures forall x :: x in Keys(b) <==> x in KeyList(b)
    ensures |KeyList(b)| == |Elements(b)|
    ensures forall i :: 0 <= i < |Elements(b)| ==> KeyList(b)[i] == Elements(b)[i].0
    decreases b
  {
    match b
    case Leaf =>
    case Node(l, _, _, r, _) =>
      KeysListed(l);
      KeysListed(r);
  }

  predicate Ascending(ks: seq<Bs>) {
    forall i, j :: 0 <= i < j < |ks| ==> Less(ks[i], ks[j])
  }

  /** A key that divides an ascending list. */
  predicate Divides(a: seq<Bs>, k: Bs, c: seq<Bs>) {
    Ascending(a) && Ascending(c) && (forall x <- a :: Less(x, k)) && (forall x <- c :: Less(k, x))
  }

  lemma AscendingSplit(a: seq<Bs>, k: Bs, c: seq<Bs>)
    requires Ascending(a + [k] + c)
    ensures Divides(a, k, c)
  {
    hide Less;
    var (ks, n) := (a + [k] + c, |a|);
    assert ks[n] == k;
    forall i, j | 0 <= i < j < |a|
      ensures Less(a[i], a[j])
    {
      assert ks[i] == a[i] && ks[j] == a[j];
    }
    forall i, j | 0 <= i < j < |c|
      ensures Less(c[i], c[j])
    {
      assert ks[n + 1 + i] == c[i] && ks[n + 1 + j] == c[j];
    }
    forall x | x in a
      ensures Less(x, k)
    {
      var i :| 0 <= i < |a| && a[i] == x;
      assert ks[i] == x;
    }
    forall x | x in c
      ensures Less(k, x)
    {
      var i :| 0 <= i < |c| && c[i] == x;
      assert ks[n + 1 + i] == x;
    }
  }

  lemma AscendingJoin(a: seq<Bs>, k: Bs, c: seq<Bs>)
    requires Divides(a, k, c)
    ensures Ascending(a + [k] + c)
  {
    hide Less;
    var (ks, n) := (a + [k] + c, |a|);
    forall i, j | 0 <= i < j < |ks|
      ensures Less(ks[i], ks[j])
    {
      if i < n && n < j {
        LessTransitive(a[i], k, c[j - n - 1]);
      } else if j < n {
        assert Less(a[i], a[j]);
      } else if n < i {
        assert Less(c[i - n - 1], c[j - n - 1]);
      }
    }
  }

  lemma {:induction false} BstAscending<T>(b: Tree<T>)
    ensures Bst(b) <==> Ascending(KeyList(b))
    decreases b
  {
    hide Less, Ascending;
    match b
    case Leaf => AscendingNone();
    case Node(l, k, _, r, _) =>
      BstAscending(l);
      BstAscending(r);
      KeysListed(l);
      KeysListed(r);
      if Ascending(KeyList(b)) {
        AscendingSplit(KeyList(l), k, KeyList(r));
      }
      if Bst(b) {
        AscendingJoin(KeyList(l), k, KeyList(r));
      }
  }

  lemma AscendingNone()
    ensures Ascending([])
  {
  }

  /** So the check accepts exactly the trees whose keys are listed in ascending order. */
  lemma CheckCanonAscending<T>(b: Tree<T>)
    ensures CheckCanon(None, None, b) <==> Ascending(KeyList(b))
  {
    CheckCanonIff(b);
    BstAscending(b);
  }

  function FoldAny<T>(b: (Bs, T) -> bool, es: seq<(Bs, T)>, acc: bool): bool
    decreases |es|
  {
    if es == [] then acc else FoldAny(b, es[1..], if acc then true else b(es[0].0, es[0].1))
  }

  /** Whether some entry satisfies a test, by folding over the elements. */
  function FindAny<T>(b: (Bs, T) -> bool, t: Tree<T>): bool {
    FoldAny(b, Elements(t), false)
  }

  lemma {:induction false} FoldAnyIff<T>(b: (Bs, T) -> bool, es: seq<(Bs, T)>, acc: bool)
    ensures FoldAny(b, es, acc) <==> acc || exists i :: 0 <= i < |es| && b(es[i].0, es[i].1)
    decreases |es|
  {
    if es == [] {
    } else {
      FoldAnyIff(b, es[1..], if acc then true else b(es[0].0, es[0].1));
      assert forall i :: 1 <= i < |es| ==> es[i] == es[1..][i - 1];
      assert forall i :: 0 <= i < |es[1..]| ==> es[1..][i] == es[i + 1];
    }
  }

  /** An entry of a tree. */
  predicate MapsTo<T(==)>(t: Tree<T>, k: Bs, v: T) {
    match t
    case Leaf => false
    case Node(l, k', v', r, _) => MapsTo(l, k, v) || (k == k' && v == v') || MapsTo(r, k, v)
  }

  lemma {:induction false} MapsToIff<T>(t: Tree<T>, k: Bs, v: T)
    ensures MapsTo(t, k, v) <==> (k, v) in Elements(t)
    decreases t
  {
    match t
    case Leaf =>
    case Node(l, _, _, r, _) =>
      MapsToIff(l, k, v);
      MapsToIff(r, k, v);
  }

  /** The test succeeds exactly when some entry of the tree satisfies it. */
  lemma FindAnyIff<T(!new)>(b: (Bs, T) -> bool, t: Tree<T>)
    ensures FindAny(b, t) <==> exists k, v :: MapsTo(t, k, v) && b(k, v)
  {
    var es := Elements(t);
    FoldAnyIff(b, es, false);
    if FindAny(b, t) {
      var i :| 0 <= i < |es| && b(es[i].0, es[i].1);
      MapsToIff(t, es[i].0, es[i].1);
    }
    if k, v :| MapsTo(t, k, v) && b(k, v) {
      MapsToIff(t, k, v);
      var i :| 0 <= i < |es| && es[i] == (k, v);
    }
  }
}
