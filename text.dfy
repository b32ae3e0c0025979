/** String helpers shared by the whole model: JavaScript's notion of white
    space, `trim`, substring search, `split`/`join` on a fixed separator, and
    the flattening of a list of strings. Strings are sequences of characters. */
module Text {

  datatype Option<T> = None | Some(value: T)

  /** White space as JavaScript's `\s` class and `String.prototype.trim` see it. */
  predicate IsSpace(c: char)
  {
    || c == '\t' || c == '\n' || c == '\U{B}' || c == '\U{C}' || c == '\r' || c == ' '
    || c == '\U{A0}' || c == '\U{1680}' || ('\U{2000}' <= c <= '\U{200A}')
    || c == '\U{2028}' || c == '\U{2029}' || c == '\U{202F}' || c == '\U{205F}'
    || c == '\U{3000}' || c == '\U{FEFF}'
  }

  predicate AllSpace(s: string)
  {
    forall i :: 0 <= i < |s| ==> IsSpace(s[i])
  }

  /** Number of white-space characters at the start of `s`. */
  function LeadingSpace(s: string): (n: nat)
    ensures n <= |s|
  {
    if |s| > 0 && IsSpace(s[0]) then 1 + LeadingSpace(s[1..]) else 0
  }

  /** Number of white-space characters at the end of `s`. */
  function TrailingSpace(s: string): (n: nat)
    ensures n <= |s|
  {
    if |s| > 0 && IsSpace(s[|s| - 1]) then 1 + TrailingSpace(s[..|s| - 1]) else 0
  }

  lemma {:induction false} LeadingSpaceBounds(s: string)
    ensures LeadingSpace(s) <= |s| && AllSpace(s[..LeadingSpace(s)])
    ensures LeadingSpace(s) < |s| ==> !IsSpace(s[LeadingSpace(s)])
  {
    if |s| > 0 && IsSpace(s[0]) {
      LeadingSpaceBounds(s[1..]);
      var n := LeadingSpace(s);
      assert s[..n] == [s[0]] + s[1..][..n - 1];
    }
  }

  lemma {:induction false} TrailingSpaceBounds(s: string)
    ensures TrailingSpace(s) <= |s| && AllSpace(s[|s| - TrailingSpace(s)..])
    ensures TrailingSpace(s) < |s| ==> !IsSpace(s[|s| - TrailingSpace(s) - 1])
  {
    if |s| > 0 && IsSpace(s[|s| - 1]) {
      TrailingSpaceBounds(s[..|s| - 1]);
      var n := TrailingSpace(s);
      assert s[|s| - n..] == s[..|s| - 1][|s| - n..] + [s[|s| - 1]];
    }
  }

  /** `String.prototype.trim`: `s` without its leading and trailing white space. */
  function Trim(s: string): string
  {
    var t := s[LeadingSpace(s)..];
    t[..|t| - TrailingSpace(t)]
  }

  /** A trimmed string is no longer than the input, neither starts nor ends
      with white space, and is empty exactly when the input is all white space. */
  lemma TrimProperties(s: string)
    ensures |Trim(s)| <= |s|
    ensures Trim(s) == [] || (!IsSpace(Trim(s)[0]) && !IsSpace(Trim(s)[|Trim(s)| - 1]))
    ensures Trim(s) == [] <==> AllSpace(s)
  {
    var a := LeadingSpace(s);
    LeadingSpaceBounds(s);
    var t := s[a..];
    TrailingSpaceBounds(t);
    var n := |t| - TrailingSpace(t);
    var r := t[..n];
    if r == [] {
      // the leading white space is then all of `s`
      assert a == |s|;
      assert s == s[..a];
    } else {
      assert r[0] == s[a];
      assert r[|r| - 1] == t[|t| - TrailingSpace(t) - 1];
    }
  }

  /** A string whose last character is not white space keeps that character
      at the end once trimmed. */
  lemma TrimKeepsLast(s: string)
    requires |s| > 0 && !IsSpace(s[|s| - 1])
    ensures |Trim(s)| > 0 && Trim(s)[|Trim(s)| - 1] == s[|s| - 1]
  {
    TrimProperties(s);
    assert !AllSpace(s);
    var a := LeadingSpace(s);
    LeadingSpaceBounds(s);
    assert a < |s|;
    assert TrailingSpace(s[a..]) == 0;
  }

  predicate StartsWith(s: string, p: string)
  {
    |p| <= |s| && s[..|p|] == p
  }

  /** `p` occurs in `s` at index `i`. */
  predicate OccursAt(s: string, p: string, i: nat)
  {
    i + |p| <= |s| && s[i..i + |p|] == p
  }

  /** `String.prototype.indexOf(p, from)`: the first occurrence at or after `from`. */
  function IndexOf(s: string, p: string, from: nat): (r: Option<nat>)
    requires from <= |s|
    ensures r.Some? ==> from <= r.value && OccursAt(s, p, r.value)
    ensures r.Some? ==> forall j :: from <= j < r.value ==> !OccursAt(s, p, j)
    ensures r.None? ==> forall j :: from <= j ==> !OccursAt(s, p, j)
    decreases |s| - from
  {
    if from + |p| > |s| then None
    else if s[from..from + |p|] == p then Some(from)
    else IndexOf(s, p, from + 1)
  }

  /** `String.prototype.includes`. */
  predicate Contains(s: string, p: string)
  {
    IndexOf(s, p, 0).Some?
  }

  lemma NotContains(s: string, p: string)
    requires forall j: nat :: !OccursAt(s, p, j)
    ensures !Contains(s, p)
  {
  }

  /** The last occurrence of `p` at an index no greater than `k`, or -1. */
  function LastIndexBelow(s: string, p: string, k: int): (r: int)
    ensures -1 <= r && (r >= 0 ==> r <= k && OccursAt(s, p, r))
    ensures forall j: nat :: r < j <= k ==> !OccursAt(s, p, j)
    decreases k
  {
    if k < 0 then -1
    else if OccursAt(s, p, k) then k
    else LastIndexBelow(s, p, k - 1)
  }

  /** `String.prototype.lastIndexOf(p)`: -1 when `p` does not occur. */
  function LastIndexOf(s: string, p: string): (r: int)
    ensures -1 <= r
    ensures r >= 0 ==> OccursAt(s, p, r)
    ensures forall j: nat :: r < j ==> !OccursAt(s, p, j)
  {
    LastIndexBelow(s, p, |s| - |p|)
  }

  /** `String.prototype.split(sep)` for a non-empty separator string. */
  function Split(s: string, sep: string): (parts: seq<string>)
    requires |sep| > 0
    ensures |parts| >= 1
    decreases |s|
  {
    match IndexOf(s, sep, 0)
    case None => [s]
    case Some(i) => [s[..i]] + Split(s[i + |sep|..], sep)
  }

  /** `Array.prototype.join(sep)`. */
  function Join(parts: seq<string>, sep: string): string
  {
    if |parts| == 0 then ""
    else if |parts| == 1 then parts[0]
    else parts[0] + sep + Join(parts[1..], sep)
  }

  /** Splitting and joining with the same separator gives back the input. */
  lemma {:induction false} SplitJoin(s: string, sep: string)
    requires |sep| > 0
    ensures Join(Split(s, sep), sep) == s
    decreases |s|
  {
    match IndexOf(s, sep, 0)
    case None =>
    case Some(i) =>
      var rest := s[i + |sep|..];
      var tail := Split(rest, sep);
      SplitJoin(rest, sep);
      assert Split(s, sep) == [s[..i]] + tail;
      JoinCons(s[..i], tail, sep);
      assert s[i..i + |sep|] == sep;
      assert s == s[..i] + sep + rest;
  }

  lemma JoinCons(a: string, parts: seq<string>, sep: string)
    requires |parts| >= 1
    ensures Join([a] + parts, sep) == a + sep + Join(parts, sep)
  {
    assert ([a] + parts)[1..] == parts;
  }

  /** No part of a split contains the separator. */
  lemma {:induction false} SplitPartsFree(s: string, sep: string, k: nat)
    requires |sep| > 0 && k < |Split(s, sep)|
    ensures forall j: nat :: !OccursAt(Split(s, sep)[k], sep, j)
    decreases |s|
  {
    match IndexOf(s, sep, 0)
    case None =>
    case Some(i) =>
      if k == 0 {
        forall j: nat ensures !OccursAt(s[..i], sep, j) {
          if OccursAt(s[..i], sep, j) {
            assert s[..i][j..j + |sep|] == s[j..j + |sep|];
            assert OccursAt(s, sep, j);
          }
        }
      } else {
        SplitPartsFree(s[i + |sep|..], sep, k - 1);
      }
  }

  /** `IndexOf` from the start finds an occurrence with none before it. */
  lemma IndexOfFirst(s: string, p: string, i: nat)
    requires OccursAt(s, p, i)
    requires forall j: nat :: j < i ==> !OccursAt(s, p, j)
    ensures IndexOf(s, p, 0) == Some(i)
  {
  }

  /** The first occurrence in `s` stays the first once text is appended. */
  lemma FirstOccurrenceKept(s: string, t: string, p: string, i: nat)
    requires IndexOf(s, p, 0) == Some(i)
    ensures IndexOf(s + t, p, 0) == Some(i)
  {
    assert (s + t)[i..i + |p|] == s[i..i + |p|];
    forall j: nat | j < i ensures !OccursAt(s + t, p, j) {
      if OccursAt(s + t, p, j) {
        assert (s + t)[j..j + |p|] == s[j..j + |p|];
        assert OccursAt(s, p, j);
      }
    }
    IndexOfFirst(s + t, p, i);
  }

  /** `Split` at the first occurrence of the separator. */
  lemma SplitAt(s: string, sep: string, i: nat)
    requires |sep| > 0 && IndexOf(s, sep, 0) == Some(i)
    ensures Split(s, sep) == [s[..i]] + Split(s[i + |sep|..], sep)
  {
    match IndexOf(s, sep, 0)
    case Some(k) => assert k == i;
  }

  /** Putting an element in front of a sequence keeps its last element and
      puts the element in front of the rest. */
  lemma ConsInit<T>(head: T, pr: seq<T>, x: seq<T>, rest: seq<T>, ps: seq<T>)
    requires |pr| >= 1 && ps == [head] + pr && rest == pr[..|pr| - 1] + x
    ensures [head] + rest == ps[..|ps| - 1] + x && ps[|ps| - 1] == pr[|pr| - 1]
  {
    assert ps[..|ps| - 1] == [head] + pr[..|pr| - 1];
  }

  /** The front and the last element of a concatenation ending in a non-empty sequence. */
  lemma AppendInit<T>(a: seq<T>, q: seq<T>, all: seq<T>)
    requires |q| >= 1 && all == a + q
    ensures all[..|all| - 1] == a + q[..|q| - 1] && all[|all| - 1] == q[|q| - 1]
  {
  }

  /** Appending text to a string changes only its last part: the parts
      before it are already closed by a separator. */
  lemma {:induction false} SplitExtend(s: string, t: string, sep: string)
    requires |sep| > 0
    ensures var ps := Split(s, sep);
      Split(s + t, sep) == ps[..|ps| - 1] + Split(ps[|ps| - 1] + t, sep)
    decreases |s|
  {
    if IndexOf(s, sep, 0).Some? {
      var i := IndexOf(s, sep, 0).value;
      var head, r := s[..i], s[i + |sep|..];
      FirstOccurrenceKept(s, t, sep, i);
      assert (s + t)[..i] == head && (s + t)[i + |sep|..] == r + t;
      SplitAt(s + t, sep, i);
      SplitAt(s, sep, i);
      var pr := Split(r, sep);
      SplitExtend(r, t, sep);
      ConsInit(head, pr, Split(pr[|pr| - 1] + t, sep), Split(r + t, sep), Split(s, sep));
    }
  }

  /** The strings of `ss` one after the other. */
  function Concat(ss: seq<string>): string
  {
    if ss == [] then "" else ss[0] + Concat(ss[1..])
  }

  lemma ConcatCons(x: string, rest: seq<string>)
    ensures Concat([x] + rest) == x + Concat(rest)
  {
    assert ([x] + rest)[1..] == rest;
  }

  lemma ConcatSingle(x: string)
    ensures Concat([x]) == x
  {
    ConcatCons(x, []);
  }

  lemma {:induction false} ConcatAppend(a: seq<string>, b: seq<string>)
    ensures Concat(a + b) == Concat(a) + Concat(b)
  {
    if a == [] {
      assert a + b == b;
    } else {
      assert (a + b)[1..] == a[1..] + b;
      ConcatAppend(a[1..], b);
    }
  }

  /** `toLowerCase` on the ASCII letters. */
  function AsciiLower(s: string): (r: string)
    ensures |r| == |s|
  {
    seq(|s|, i requires 0 <= i < |s| => if 'A' <= s[i] <= 'Z' then (s[i] as int + 32) as char else s[i])
  }

  lemma SliceSplit<T>(s: seq<T>, k: nat)
    requires k <= |s|
    ensures s[..k] + s[k..] == s
  {
  }

  lemma SliceJoin<T>(s: seq<T>, i: nat, j: nat, k: nat)
    requires i <= j <= k <= |s|
    ensures s[i..j] + s[j..k] == s[i..k]
  {
  }

  lemma AppendAssoc<T>(a: seq<T>, b: seq<T>, c: seq<T>)
    ensures a + (b + c) == (a + b) + c
  {
  }

  lemma SliceSnoc<T>(s: seq<T>, k: nat)
    requires k < |s|
    ensures s[..k] + [s[k]] == s[..k + 1]
  {
  }

  /** Trimming ignores one more white-space character at the end. */
  lemma TrimDropsSpace(x: string, c: char)
    requires IsSpace(c)
    ensures Trim(x + [c]) == Trim(x)
  {
    TrimProperties(x);
    TrimProperties(x + [c]);
    if AllSpace(x) {
      assert AllSpace(x + [c]);
    } else {
      LeadingSpaceAppend(x, c);
      var a := LeadingSpace(x);
      var t := x[a..];
      var n := |t| - TrailingSpace(t);
      calc {
        Trim(x + [c]);
        (x + [c])[a..][..|(x + [c])[a..]| - TrailingSpace((x + [c])[a..])];
        { SuffixOfSnoc(x, c, a); }
        (t + [c])[..|t + [c]| - TrailingSpace(t + [c])];
        { TrailingSpaceSnoc(t, c); }
        (t + [c])[..n];
        { PrefixOfSnoc(t, c, n); }
        t[..n];
      }
    }
  }

  lemma {:induction false} LeadingSpaceAppend(x: string, c: char)
    requires !AllSpace(x)
    ensures LeadingSpace(x + [c]) == LeadingSpace(x)
  {
    if IsSpace(x[0]) {
      assert (x + [c])[1..] == x[1..] + [c];
      assert !AllSpace(x[1..]) by {
        var i :| 0 <= i < |x| && !IsSpace(x[i]);
        assert x[1..][i - 1] == x[i];
      }
      LeadingSpaceAppend(x[1..], c);
    }
  }

  lemma TrailingSpaceSnoc(t: string, c: char)
    requires IsSpace(c)
    ensures TrailingSpace(t + [c]) == TrailingSpace(t) + 1
  {
    assert (t + [c])[..|t|] == t;
  }

  lemma SuffixOfSnoc<T>(s: seq<T>, c: T, a: nat)
    requires a <= |s|
    ensures (s + [c])[a..] == s[a..] + [c]
  {
  }

  lemma PrefixOfSnoc<T>(s: seq<T>, c: T, n: nat)
    requires n <= |s|
    ensures (s + [c])[..n] == s[..n]
  {
  }

  /** An occurrence of `p` is found by `includes`. */
  lemma OccursContains(s: string, p: string, j: nat)
    requires OccursAt(s, p, j)
    ensures Contains(s, p)
  {
  }

  /** A string contains whatever is written in its middle. */
  lemma ContainsMiddle(a: string, p: string, b: string)
    ensures Contains(a + p + b, p)
  {
    assert (a + p + b)[|a|..|a| + |p|] == p;
    OccursContains(a + p + b, p, |a|);
  }

  /** What either part contains, the concatenation contains. */
  lemma ContainsAppend(a: string, b: string, p: string)
    requires Contains(a, p) || Contains(b, p)
    ensures Contains(a + b, p)
  {
    if Contains(a, p) {
      var j := IndexOf(a, p, 0).value;
      OccursSuffix(a, b, p, j);
      OccursContains(a + b, p, j);
    } else {
      var j := IndexOf(b, p, 0).value;
      OccursPrefix(a, b, p, j);
      OccursContains(a + b, p, |a| + j);
    }
  }

  /** An occurrence survives putting text in front, shifted by its length... */
  lemma OccursPrefix(a: string, s: string, p: string, j: nat)
    requires OccursAt(s, p, j)
    ensures OccursAt(a + s, p, |a| + j)
  {
    assert (a + s)[|a| + j..|a| + j + |p|] == s[j..j + |p|];
  }

  /** ...and putting text behind, unshifted. */
  lemma OccursSuffix(s: string, b: string, p: string, j: nat)
    requires OccursAt(s, p, j)
    ensures OccursAt(s + b, p, j)
  {
    assert (s + b)[j..j + |p|] == s[j..j + |p|];
  }

  /** A string without the first character of `p` does not contain `p`. */
  lemma MissingFirstChar(s: string, p: string)
    requires |p| > 0 && p[0] !in s
    ensures !Contains(s, p)
  {
  }

  predicate IsDigit(c: char)
  {
    '0' <= c <= '9'
  }

  predicate AllDigits(s: string)
  {
    forall i :: 0 <= i < |s| ==> IsDigit(s[i])
  }

  /** The value of a string of decimal digits. */
  function DecimalValue(s: string): (n: nat)
    requires AllDigits(s)
  {
    if s == [] then 0 else DecimalValue(s[..|s| - 1]) * 10 + (s[|s| - 1] as int - '0' as int)
  }

  /** `n.toString()` for a non-negative integer. */
  function DecimalString(n: nat): (s: string)
    ensures |s| > 0 && AllDigits(s)
  {
    var d := [('0' as int + n % 10) as char];
    if n < 10 then d else DecimalString(n / 10) + d
  }

  /** Reading back the decimal digits of a number gives the number. */
  lemma {:induction false} DecimalRoundTrip(n: nat)
    ensures DecimalValue(DecimalString(n)) == n
  {
    var s := DecimalString(n);
    if n >= 10 {
      DecimalRoundTrip(n / 10);
      assert s[..|s| - 1] == DecimalString(n / 10);
    }
  }

  /** The length of the run of digits at the start of `s`. */
  function LeadingDigits(s: string): (k: nat)
    ensures k <= |s| && AllDigits(s[..k])
    ensures k < |s| ==> !IsDigit(s[k])
  {
    if s != [] && IsDigit(s[0]) then
      var k := 1 + LeadingDigits(s[1..]);
      assert s[..k] == [s[0]] + s[1..][..k - 1];
      k
    else 0
  }
}
