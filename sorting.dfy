/** Stable sorting as `Array.prototype.sort` performs it (stable since
    ECMAScript 2019). Every comparator sorted with here orders its elements
    by a key, a sequence of integers compared lexicographically, which
    makes the comparator consistent; the stable sorted order is then
    unique, so insertion sort describes every conforming engine. */
module Sorting {
  import opened Text

  /** Strict lexicographic order on integer sequences (a proper prefix comes first). */
  predicate Below(a: seq<int>, b: seq<int>)
  {
    if |a| == 0 then |b| > 0
    else if |b| == 0 then false
    else a[0] < b[0] || (a[0] == b[0] && Below(a[1..], b[1..]))
  }

  lemma {:induction false} BelowIrreflexive(a: seq<int>)
    ensures !Below(a, a)
  {
    if |a| > 0 {
      BelowIrreflexive(a[1..]);
    }
  }

  lemma {:induction false} BelowTrans(a: seq<int>, b: seq<int>, c: seq<int>)
    requires Below(a, b) && Below(b, c)
    ensures Below(a, c)
  {
    if |a| > 0 && |b| > 0 && |c| > 0 && a[0] == b[0] && b[0] == c[0] {
      BelowTrans(a[1..], b[1..], c[1..]);
    }
  }

  lemma {:induction false} BelowTotal(a: seq<int>, b: seq<int>)
    ensures Below(a, b) || a == b || Below(b, a)
  {
    if |a| > 0 && |b| > 0 && a[0] == b[0] {
      BelowTotal(a[1..], b[1..]);
      if a[1..] == b[1..] {
        assert a == [a[0]] + a[1..] && b == [b[0]] + b[1..];
      }
    }
  }

  /** `Below` is a strict total order: asymmetric, and its complement is transitive. */
  lemma BelowOrder(a: seq<int>, b: seq<int>, c: seq<int>)
    ensures Below(a, b) ==> !Below(b, a)
    ensures !Below(a, b) && !Below(b, c) ==> !Below(a, c)
    ensures !Below(a, b) && !Below(b, a) ==> a == b
  {
    BelowTotal(a, b);
    BelowIrreflexive(a);
    if Below(a, b) && Below(b, a) {
      BelowTrans(a, b, a);
    }
    if !Below(a, b) && !Below(b, c) && Below(a, c) {
      BelowTotal(b, c);
      if Below(c, b) {
        BelowTrans(a, c, b);
        if b != a { BelowTrans(b, a, b); BelowIrreflexive(b); }
      }
    }
  }

  /** No element's key is below an earlier element's key. */
  predicate Sorted<T>(s: seq<T>, key: T -> seq<int>)
  {
    forall i, j :: 0 <= i < j < |s| ==> !Below(key(s[j]), key(s[i]))
  }

  /** Where insertion sort puts `x` into `s`: after every element whose key
      is not above the key of `x`, scanning from the end. */
  function Pos<T>(s: seq<T>, x: T, key: T -> seq<int>): (p: nat)
    ensures p <= |s|
  {
    if s == [] || !Below(key(x), key(s[|s| - 1])) then |s| else Pos(s[..|s| - 1], x, key)
  }

  /** Everything after the insertion point has a key above that of `x`; the
      element just before it does not. */
  lemma {:induction false} PosSpec<T>(s: seq<T>, x: T, key: T -> seq<int>)
    ensures forall k :: Pos(s, x, key) <= k < |s| ==> Below(key(x), key(s[k]))
    ensures Pos(s, x, key) == 0 || !Below(key(x), key(s[Pos(s, x, key) - 1]))
  {
    if s != [] && Below(key(x), key(s[|s| - 1])) {
      PosSpec(s[..|s| - 1], x, key);
    }
  }

  function Insert<T>(s: seq<T>, x: T, key: T -> seq<int>): (r: seq<T>)
    ensures |r| == |s| + 1
  {
    var p := Pos(s, x, key);
    s[..p] + [x] + s[p..]
  }

  /** Insertion sort: insert the last element into the sorted rest. */
  function Sort<T>(s: seq<T>, key: T -> seq<int>): (r: seq<T>)
    ensures |r| == |s|
  {
    if s == [] then [] else Insert(Sort(s[..|s| - 1], key), s[|s| - 1], key)
  }

  lemma InsertPermutes<T>(s: seq<T>, x: T, key: T -> seq<int>)
    ensures multiset(Insert(s, x, key)) == multiset(s) + multiset{x}
  {
    var p := Pos(s, x, key);
    assert s == s[..p] + s[p..];
  }

  /** `Sort` only reorders: every element is kept as often as it occurs. */
  lemma {:induction false} SortPermutes<T>(s: seq<T>, key: T -> seq<int>)
    ensures multiset(Sort(s, key)) == multiset(s)
  {
    if s != [] {
      var init, last := s[..|s| - 1], s[|s| - 1];
      SortPermutes(init, key);
      InsertPermutes(Sort(init, key), last, key);
      assert s == init + [last];
    }
  }

  lemma InsertSorted<T>(s: seq<T>, x: T, key: T -> seq<int>)
    requires Sorted(s, key)
    ensures Sorted(Insert(s, x, key), key)
  {
    var p := Pos(s, x, key);
    PosSpec(s, x, key);
    var r := Insert(s, x, key);
    forall k | p <= k < |s| ensures !Below(key(s[k]), key(x)) {
      BelowOrder(key(x), key(s[k]), key(x));
    }
    forall k | 0 <= k < p ensures !Below(key(x), key(s[k])) {
      if k < p - 1 {
        BelowOrder(key(x), key(s[p - 1]), key(s[k]));
      }
    }
    forall i, j | 0 <= i < j < |r| ensures !Below(key(r[j]), key(r[i])) {
      if j < p || i > p {
        assert r[i] == s[if i < p then i else i - 1];
        assert r[j] == s[if j < p then j else j - 1];
      }
    }
  }

  /** The result of `Sort` is sorted. */
  lemma {:induction false} SortSorted<T>(s: seq<T>, key: T -> seq<int>)
    ensures Sorted(Sort(s, key), key)
  {
    if s != [] {
      SortSorted(s[..|s| - 1], key);
      InsertSorted(Sort(s[..|s| - 1], key), s[|s| - 1], key);
    }
  }

  /** The elements of `s` whose key is `k`, in their order in `s`. */
  function Peers<T>(s: seq<T>, k: seq<int>, key: T -> seq<int>): seq<T>
  {
    if s == [] then [] else Keep(s[0], k, key) + Peers(s[1..], k, key)
  }

  function Keep<T>(x: T, k: seq<int>, key: T -> seq<int>): seq<T>
  {
    if key(x) == k then [x] else []
  }

  lemma {:induction false} PeersAppend<T>(a: seq<T>, b: seq<T>, k: seq<int>, key: T -> seq<int>)
    ensures Peers(a + b, k, key) == Peers(a, k, key) + Peers(b, k, key)
  {
    if a == [] {
      assert a + b == b;
    } else {
      var h, t := Keep(a[0], k, key), a[1..];
      calc {
        Peers(a + b, k, key);
        { assert (a + b)[0] == a[0] && (a + b)[1..] == t + b; }
        h + Peers(t + b, k, key);
        { PeersAppend(t, b, k, key); }
        h + (Peers(t, k, key) + Peers(b, k, key));
        { AppendAssoc(h, Peers(t, k, key), Peers(b, k, key)); }
        (h + Peers(t, k, key)) + Peers(b, k, key);
      }
    }
  }

  lemma {:induction false} PeersNone<T>(s: seq<T>, k: seq<int>, key: T -> seq<int>)
    requires forall i :: 0 <= i < |s| ==> key(s[i]) != k
    ensures Peers(s, k, key) == []
  {
    if s != [] {
      PeersNone(s[1..], k, key);
    }
  }

  lemma PeersSingle<T>(x: T, k: seq<int>, key: T -> seq<int>)
    ensures Peers([x], k, key) == Keep(x, k, key)
  {
    assert [x][1..] == [];
  }

  /** No element after the insertion point shares the key of `x`. */
  lemma TailUntied<T>(s: seq<T>, x: T, k: seq<int>, key: T -> seq<int>)
    ensures Keep(x, k, key) == [] || Peers(s[Pos(s, x, key)..], k, key) == []
  {
    var back := s[Pos(s, x, key)..];
    if key(x) == k {
      PosSpec(s, x, key);
      forall i | 0 <= i < |back| ensures key(back[i]) != k {
        assert Below(key(x), key(back[i]));
        BelowIrreflexive(key(x));
      }
      PeersNone(back, k, key);
    }
  }

  lemma InsertPeers<T>(s: seq<T>, x: T, k: seq<int>, key: T -> seq<int>)
    ensures Peers(Insert(s, x, key), k, key) == Peers(s, k, key) + Keep(x, k, key)
  {
    var p := Pos(s, x, key);
    var front, back := s[..p], s[p..];
    var pf, pb, h := Peers(front, k, key), Peers(back, k, key), Keep(x, k, key);
    TailUntied(s, x, k, key);
    calc {
      Peers(Insert(s, x, key), k, key);
      Peers(front + [x] + back, k, key);
      { PeersAppend(front + [x], back, k, key); PeersAppend(front, [x], k, key); PeersSingle(x, k, key); }
      pf + h + pb;
      pf + pb + h;
      { PeersAppend(front, back, k, key); assert front + back == s; }
      Peers(s, k, key) + h;
    }
  }

  /** Stability: for every key, the elements with that key keep their input order. */
  lemma {:induction false} SortStable<T>(s: seq<T>, k: seq<int>, key: T -> seq<int>)
    ensures Peers(Sort(s, key), k, key) == Peers(s, k, key)
  {
    if s != [] {
      var init, last := s[..|s| - 1], s[|s| - 1];
      SortStable(init, k, key);
      InsertPeers(Sort(init, key), last, k, key);
      PeersAppend(init, [last], k, key);
      PeersSingle(last, k, key);
      assert s == init + [last];
    }
  }

  /** In a sorted list an element whose key is below another's sits at a smaller index. */
  lemma SortedBefore<T>(s: seq<T>, key: T -> seq<int>, i: nat, j: nat)
    requires Sorted(s, key) && i < |s| && j < |s| && Below(key(s[i]), key(s[j]))
    ensures i < j
  {
    BelowIrreflexive(key(s[i]));
  }

  /** Inserting the next input element into the sorted prefix sorts one more element. */
  lemma SortStep<T>(s: seq<T>, i: nat, sorted: seq<T>, x: T, t: seq<T>, key: T -> seq<int>)
    requires i < |s| && sorted == Sort(s[..i], key) && x == s[i] && t == Insert(sorted, x, key)
    ensures t == Sort(s[..i + 1], key)
  {
    assert s[..i + 1][..i] == s[..i];
  }

  lemma PosPrefix<T>(s: seq<T>, j: nat, x: T, key: T -> seq<int>)
    requires 0 < j <= |s| && Below(key(x), key(s[j - 1]))
    ensures Pos(s[..j], x, key) == Pos(s[..j - 1], x, key)
  {
    assert s[..j][..j - 1] == s[..j - 1];
  }

  lemma PosStops<T>(s: seq<T>, j: nat, x: T, key: T -> seq<int>)
    requires j <= |s| && (j == 0 || !Below(key(x), key(s[j - 1])))
    ensures Pos(s[..j], x, key) == j
  {
  }

  /** A sequence laid out as `s[..j] + [x] + s[j..]`, with `j` the insertion
      point of `x`, is `Insert(s, x)`. */
  lemma Assemble<T>(t: seq<T>, s: seq<T>, j: nat, x: T, key: T -> seq<int>)
    requires |t| == |s| + 1 && j <= |s| && Pos(s, x, key) == j
    requires forall k :: 0 <= k < j ==> t[k] == s[k]
    requires t[j] == x
    requires forall k :: j < k < |t| ==> t[k] == s[k - 1]
    ensures t == Insert(s, x, key)
  {
  }

  /** `Array.prototype.sort` on an array: insertion sort in place. */
  method SortInPlace<T>(a: array<T>, key: T -> seq<int>)
    modifies a
    ensures a[..] == Sort(old(a[..]), key)
  {
    ghost var input := a[..];
    var i := 0;
    while i < a.Length
      invariant 0 <= i <= a.Length
      invariant a[..i] == Sort(input[..i], key)
      invariant forall k :: i <= k < a.Length ==> a[k] == input[k]
    {
      ghost var sorted, x := a[..i], a[i];
      InsertInPlace(a, i, key);
      SortStep(input, i, sorted, x, a[..i + 1], key);
      i := i + 1;
    }
    assert input[..a.Length] == input;
  }

  /** One insertion step: the element at `i` is shifted left past the ones
      whose key is above its own, into the sorted prefix `a[..i]`. */
  method InsertInPlace<T>(a: array<T>, i: nat, key: T -> seq<int>)
    requires i < a.Length
    modifies a
    ensures a[..i + 1] == Insert(old(a[..i]), old(a[i]), key)
    ensures forall k :: i < k < a.Length ==> a[k] == old(a[k])
  {
    ghost var s := a[..i];
    var x := a[i];
    var j := i;
    assert s[..j] == s;
    while j > 0 && Below(key(x), key(a[j - 1]))
      invariant 0 <= j <= i
      invariant forall k :: 0 <= k < j ==> a[k] == s[k]
      invariant forall k :: j < k <= i ==> a[k] == s[k - 1]
      invariant forall k :: i < k < a.Length ==> a[k] == old(a[k])
      invariant Pos(s, x, key) == Pos(s[..j], x, key)
    {
      PosPrefix(s, j, x, key);
      a[j] := a[j - 1];
      j := j - 1;
    }
    a[j] := x;
    PosStops(s, j, x, key);
    Assemble(a[..i + 1], s, j, x, key);
  }

  /** A string's characters as their code points. */
  function Codes(s: string): (r: seq<int>)
    ensures |r| == |s| && forall i :: 0 <= i < |s| ==> r[i] == s[i] as int >= 0
  {
    seq(|s|, i requires 0 <= i < |s| => s[i] as int)
  }

  /** Code-point order on strings, standing for `localeCompare`. */
  predicate StrBelow(a: string, b: string)
  {
    Below(Codes(a), Codes(b))
  }

  lemma CodesInjective(a: string, b: string)
    requires Codes(a) == Codes(b)
    ensures a == b
  {
    assert |a| == |b|;
    forall i | 0 <= i < |a| ensures a[i] == b[i] {
      assert Codes(a)[i] == Codes(b)[i];
    }
  }

  /** Two keys that each put a separator below every code between a first
      and a second part compare by the first parts, and by the second parts
      when the first parts are equal. */
  lemma {:induction false} BelowSeparated(a: seq<int>, b: seq<int>, x: seq<int>, y: seq<int>)
    requires forall i :: 0 <= i < |a| ==> a[i] >= 0
    requires forall i :: 0 <= i < |b| ==> b[i] >= 0
    ensures Below(a + [-1] + x, b + [-1] + y) <==> if a == b then Below(x, y) else Below(a, b)
  {
    var u, v := a + [-1] + x, b + [-1] + y;
    if |a| == 0 && |b| == 0 {
      assert u[1..] == x && v[1..] == y;
    } else if |a| == 0 {
      assert u[0] == -1 && v[0] == b[0];
    } else if |b| == 0 {
      assert u[0] == a[0] && v[0] == -1;
    } else {
      assert u[0] == a[0] && v[0] == b[0];
      assert u[1..] == a[1..] + [-1] + x && v[1..] == b[1..] + [-1] + y;
      BelowSeparated(a[1..], b[1..], x, y);
      if a[0] == b[0] && a[1..] == b[1..] {
        assert a == [a[0]] + a[1..] && b == [b[0]] + b[1..];
      }
    }
  }

  /** Two keys that agree on the elements place an element at the same point. */
  lemma {:induction false} PosAgree<T>(s: seq<T>, x: T, key1: T -> seq<int>, key2: T -> seq<int>)
    requires key1(x) == key2(x) && forall y :: y in s ==> key1(y) == key2(y)
    ensures Pos(s, x, key1) == Pos(s, x, key2)
  {
    if s != [] {
      assert s[|s| - 1] in s;
      PosAgree(s[..|s| - 1], x, key1, key2);
    }
  }

  /** Sorting depends only on the keys of the elements sorted. */
  lemma {:induction false} SortAgree<T>(s: seq<T>, key1: T -> seq<int>, key2: T -> seq<int>)
    requires forall y :: y in s ==> key1(y) == key2(y)
    ensures Sort(s, key1) == Sort(s, key2)
  {
    if s != [] {
      var front := s[..|s| - 1];
      assert forall y :: y in front ==> y in s;
      SortAgree(front, key1, key2);
      var t := Sort(front, key1);
      SortPermutes(front, key1);
      forall y | y in t ensures key1(y) == key2(y) {
        assert y in multiset(t);
      }
      assert s[|s| - 1] in s;
      PosAgree(t, s[|s| - 1], key1, key2);
    }
  }
}
