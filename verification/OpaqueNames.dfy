/** The binder environment of include/OpaqueNames.hpp: opaque values are numbered in the order
    in which they are bound, anonymous declarations by their position on a stack. */
module Names {

  /** A snapshot of the environment. */
  datatype Env = Env(indexes: seq<nat>, anonymous: seq<nat>, count: int)

  const NO_NAMES := Env([], [], -1)

  /** The first position of `x` in `s`, or -1. */
  function IndexOf(s: seq<nat>, x: nat): (i: int)
    ensures -1 <= i < |s|
    ensures i >= 0 ==> s[i] == x && x !in s[..i]
    ensures i == -1 <==> x !in s
  {
    if s == [] then -1
    else if s[0] == x then 0
    else
      var i := IndexOf(s[1..], x);
      assert i >= 0 ==> s[..i + 1] == [s[0]] + s[1..][..i];
      if i == -1 then -1 else i + 1
  }

  /** A linear search finds the first position. */
  lemma IndexOfUnique(s: seq<nat>, x: nat, i: nat)
    requires i < |s| && s[i] == x && x !in s[..i]
    ensures IndexOf(s, x) == i
  {
    var j := IndexOf(s, x);
    assert forall k :: 0 <= k < i ==> s[k] == s[..i][k];
    assert forall k :: 0 <= k < j ==> s[k] == s[..j][k];
  }

  lemma IndexOfAppend(s: seq<nat>, t: seq<nat>, x: nat)
    requires x in s
    ensures IndexOf(s + t, x) == IndexOf(s, x)
  {
    var i := IndexOf(s, x);
    assert (s + t)[..i] == s[..i];
    IndexOfUnique(s + t, x, i);
  }

  class OpaqueNames {
    var indexes: seq<nat>
    var anonymous: seq<nat>
    var indexCount: int

    function View(): Env
      reads this
    {
      Env(indexes, anonymous, indexCount)
    }

    constructor ()
      ensures View() == NO_NAMES
    {
      indexes, anonymous, indexCount := [], [], -1;
    }

    method Fresh(e: nat) returns (index: nat)
      modifies this
      ensures index == |old(indexes)|
      ensures View() == old(View()).(indexes := old(indexes) + [e])
    {
      index := |indexes|;
      indexes := indexes + [e];
    }

    method Find(e: nat) returns (result: int)
      ensures result == IndexOf(indexes, e)
    {
      result := 0;
      while result < |indexes|
        invariant 0 <= result <= |indexes|
        invariant e !in indexes[..result]
      {
        if indexes[result] == e {
          IndexOfUnique(indexes, e, result);
          return;
        }
        result := result + 1;
      }
      assert indexes[..result] == indexes;
      return -1;
    }

    method PushAnon(e: nat) returns (index: nat)
      modifies this
      ensures index == |old(anonymous)|
      ensures View() == old(View()).(anonymous := old(anonymous) + [e])
    {
      index := |anonymous|;
      anonymous := anonymous + [e];
    }

    method FindAnon(e: nat) returns (result: int)
      ensures result == IndexOf(anonymous, e)
    {
      result := 0;
      while result < |anonymous|
        invariant 0 <= result <= |anonymous|
        invariant e !in anonymous[..result]
      {
        if anonymous[result] == e {
          IndexOfUnique(anonymous, e, result);
          return;
        }
        result := result + 1;
      }
      assert anonymous[..result] == anonymous;
      return -1;
    }

    /** Popping undoes the matching push. */
    method PopAnon(e: nat)
      requires anonymous != [] && anonymous[|anonymous| - 1] == e
      modifies this
      ensures View() == old(View()).(anonymous := old(anonymous)[..|old(anonymous)| - 1])
    {
      anonymous := anonymous[..|anonymous| - 1];
    }

    method IncIndexCount()
      modifies this
      ensures View() == old(View()).(count := old(indexCount) + 1)
    {
      indexCount := indexCount + 1;
    }

    method DecIndexCount()
      modifies this
      ensures View() == old(View()).(count := old(indexCount) - 1)
    {
      indexCount := indexCount - 1;
    }
  }
}
