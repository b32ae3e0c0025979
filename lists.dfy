/** List helpers the services share: removing every occurrence of a value
    (`list.filter(y => y !== x)`) and the add-or-remove toggle used for
    favourites, completed dates and the custom day picker. */
module Lists {

  predicate NoDups<T(==,!new)>(s: seq<T>)
  {
    forall i, j :: 0 <= i < j < |s| ==> s[i] != s[j]
  }

  /** `s.filter(y => y !== x)`: `s` without any occurrence of `x`, the other
      elements in their order. */
  function RemoveAll<T(==,!new)>(s: seq<T>, x: T): (r: seq<T>)
    ensures x !in r
    ensures forall y :: y in r <==> y in s && y != x
    ensures |r| <= |s|
  {
    if s == [] then [] else (if s[0] == x then [] else [s[0]]) + RemoveAll(s[1..], x)
  }

  /** Removing counts exactly the occurrences of `x` out and keeps every other
      element as often as it was there. */
  lemma {:induction false} RemoveAllCount<T(!new)>(s: seq<T>, x: T)
    ensures multiset(RemoveAll(s, x)) == multiset(s)[x := 0]
  {
    if s != [] {
      RemoveAllCount(s[1..], x);
      assert s == [s[0]] + s[1..];
    }
  }

  /** Nothing changes when `x` is absent. */
  lemma {:induction false} RemoveAllAbsent<T(!new)>(s: seq<T>, x: T)
    requires x !in s
    ensures RemoveAll(s, x) == s
  {
    if s != [] {
      RemoveAllAbsent(s[1..], x);
      assert s == [s[0]] + s[1..];
    }
  }

  lemma {:induction false} RemoveAllAppend<T(!new)>(a: seq<T>, b: seq<T>, x: T)
    ensures RemoveAll(a + b, x) == RemoveAll(a, x) + RemoveAll(b, x)
  {
    if a == [] {
      assert a + b == b;
    } else {
      assert (a + b)[1..] == a[1..] + b;
      RemoveAllAppend(a[1..], b, x);
    }
  }

  lemma {:induction false} RemoveAllNoDups<T(!new)>(s: seq<T>, x: T)
    requires NoDups(s)
    ensures NoDups(RemoveAll(s, x))
  {
    if s != [] {
      assert NoDups(s[1..]);
      RemoveAllNoDups(s[1..], x);
      assert s[0] !in s[1..];
    }
  }

  /** Add `x` at the end when absent, otherwise remove every occurrence. */
  function Toggle<T(==,!new)>(s: seq<T>, x: T): (r: seq<T>)
    ensures x in r <==> x !in s
    ensures forall y :: y != x ==> (y in r <==> y in s)
  {
    if x in s then RemoveAll(s, x) else s + [x]
  }

  /** Toggling an absent value twice gives back the list. */
  lemma ToggleTwiceAbsent<T(!new)>(s: seq<T>, x: T)
    requires x !in s
    ensures Toggle(Toggle(s, x), x) == s
  {
    RemoveAllAppend(s, [x], x);
    RemoveAllAbsent(s, x);
    assert RemoveAll([x], x) == [];
  }

  /** Toggling a present value twice moves its single remaining copy to the end. */
  lemma ToggleTwicePresent<T(!new)>(s: seq<T>, x: T)
    requires x in s
    ensures Toggle(Toggle(s, x), x) == RemoveAll(s, x) + [x]
  {
  }

  /** A list without duplicates keeps none after a toggle. */
  lemma ToggleNoDups<T(!new)>(s: seq<T>, x: T)
    requires NoDups(s)
    ensures NoDups(Toggle(s, x))
  {
    if x in s {
      RemoveAllNoDups(s, x);
    }
  }
}
