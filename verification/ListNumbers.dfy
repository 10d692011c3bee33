/** Rotation of lists: theories/prelude/list_numbers.v. */
module ListNumbers {

  /** A list rotated by `n`; rotating the empty list does nothing. */
  function Rotate<T>(n: nat, xs: seq<T>): seq<T> {
    if xs == [] then [] else xs[n % |xs|..] + xs[..n % |xs|]
  }

  /** The head moved to the end. */
  function Turn<T>(xs: seq<T>): seq<T> {
    if xs == [] then [] else xs[1..] + [xs[0]]
  }

  function Turns<T>(k: nat, xs: seq<T>): seq<T> {
    if k == 0 then xs else Turn(Turns(k - 1, xs))
  }

  lemma NextRemainder(k: nat, n: nat)
    requires n > 0
    ensures (k + 1) % n == if k % n + 1 == n then 0 else k % n + 1
  {
    var (q, r) := (k / n, k % n);
    assert k + 1 == q * n + (r + 1);
    if r + 1 == n {
      assert k + 1 == (q + 1) * n;
      RemainderOf(k + 1, q + 1, 0, n);
    } else {
      RemainderOf(k + 1, q, r + 1, n);
    }
  }

  lemma {:induction false} TimesGrows(k: nat, n: nat)
    requires k > 0
    ensures k * n >= n
  {
    if k > 1 {
      TimesGrows(k - 1, n);
      assert k * n == (k - 1) * n + n;
    }
  }

  lemma TimesApart(a: nat, b: nat, n: nat)
    requires a > b
    ensures a * n >= b * n + n
  {
    TimesGrows(a - b, n);
    assert (a - b) * n == a * n - b * n;
  }

  /** Division with remainder has only one outcome. */
  lemma RemainderOf(x: nat, q: nat, r: nat, n: nat)
    requires r < n && x == q * n + r
    ensures x % n == r
  {
    var (q', r') := (x / n, x % n);
    assert x == q' * n + r';
    if q' < q {
      TimesApart(q, q', n);
    } else if q < q' {
      TimesApart(q', q, n);
    }
  }

  lemma TurnRotated<T>(k: nat, xs: seq<T>)
    ensures Turn(Rotate(k, xs)) == Rotate(k + 1, xs)
  {
    if xs != [] {
      NextRemainder(k, |xs|);
      var m := k % |xs|;
      var r := xs[m..] + xs[..m];
      assert r[1..] == xs[m + 1..] + xs[..m] && r[0] == xs[m];
      assert xs[..m] + [xs[m]] == xs[..m + 1];
      if m + 1 == |xs| {
        assert xs[m + 1..] == [] && xs[..m + 1] == xs;
        assert xs[0..] + xs[..0] == xs;
      }
    }
  }

  lemma RotateZero<T>(xs: seq<T>)
    ensures Rotate(0, xs) == xs
  {
    if xs != [] {
      RemainderOf(0, 0, 0, |xs|);
      assert xs[0..] + xs[..0] == xs;
    }
  }

  /** Rotating by `k` is moving the head to the end `k` times. */
  lemma {:induction false} RotateIsTurns<T>(k: nat, xs: seq<T>)
    ensures Rotate(k, xs) == Turns(k, xs)
  {
    hide Rotate;
    if k == 0 {
      RotateZero(xs);
    } else {
      RotateIsTurns(k - 1, xs);
      TurnRotated(k - 1, xs);
    }
  }

  lemma {:induction false} TurnsAdd<T>(a: nat, b: nat, xs: seq<T>)
    ensures Turns(a + b, xs) == Turns(a, Turns(b, xs))
    decreases a
  {
    if a == 0 {
    } else {
      TurnsAdd(a - 1, b, xs);
    }
  }

  lemma RotateAdd<T>(a: nat, b: nat, xs: seq<T>)
    ensures Rotate(a + b, xs) == Rotate(a, Rotate(b, xs))
  {
    RotateIsTurns(a + b, xs);
    RotateIsTurns(b, xs);
    RotateIsTurns(a, Rotate(b, xs));
    TurnsAdd(a, b, xs);
  }

  /** The element at `i` of a rotated list is the one at `k + i` of the list, going round. */
  lemma RotateAt<T>(k: nat, xs: seq<T>, i: nat)
    requires i < |xs|
    ensures |Rotate(k, xs)| == |xs| && Rotate(k, xs)[i] == xs[(k + i) % |xs|]
  {
    var n := |xs|;
    var (q, m) := (k / n, k % n);
    assert k + i == q * n + (m + i);
    if m + i < n {
      RemainderOf(k + i, q, m + i, n);
    } else {
      assert k + i == (q + 1) * n + (m + i - n);
      RemainderOf(k + i, q + 1, m + i - n, n);
    }
  }
}
