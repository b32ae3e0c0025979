/** The insights list (screens/ChatHistoryScreen.tsx): the saved sessions
    sorted newest first, grouped under their month in order of first
    appearance, and each card's title, teaser and pills. The month a record
    belongs to (`toLocaleDateString` of its id) is the parameter `monthOf`. */
module ChatHistory {
  import opened Text
  import opened Lists
  import opened Types
  import opened Sorting
  import SessionStore
  import UserData

  // ---- Order ---------------------------------------------------------------

  /** `parseInt` of an id: the value of its leading digits (0 when it has none). */
  function ParseIntValue(s: string): nat
  {
    var k := LeadingDigits(s);
    DecimalValue(s[..k])
  }

  /** The sort key of `sortedHistory`: larger numbers first. */
  function ByTimeDescending(r: HistoryRecord): seq<int>
  {
    var n: int := ParseIntValue(r.id);
    [-n]
  }

  /** `sortedHistory`: a sorted copy of the history. */
  function SortedHistory(history: seq<HistoryRecord>): seq<HistoryRecord>
  {
    Sort(history, ByTimeDescending)
  }

  /** The sorted history holds every record once, puts larger numeric ids
      first and keeps records with the same id in their stored order. */
  lemma SortedHistorySpec(history: seq<HistoryRecord>)
    ensures var h := SortedHistory(history);
      && multiset(h) == multiset(history)
      && (forall i, j :: 0 <= i < j < |h| ==> ParseIntValue(h[i].id) >= ParseIntValue(h[j].id))
      && (forall k: seq<int> :: Peers(h, k, ByTimeDescending) == Peers(history, k, ByTimeDescending))
  {
    SortPermutes(history, ByTimeDescending);
    SortSorted(history, ByTimeDescending);
    forall k: seq<int> ensures Peers(SortedHistory(history), k, ByTimeDescending) == Peers(history, k, ByTimeDescending) {
      SortStable(history, k, ByTimeDescending);
    }
  }

  /** On an id made only of digits `parseInt` and `Number` agree. */
  lemma ParseIntDigits(s: string)
    requires AllDigits(s)
    ensures ParseIntValue(s) == SessionStore.NumberKey(s)
  {
    assert s[..|s|] == s;
  }

  /** For ids the store writes (all digits), the screen's order is the order
      the store's `getHistory` already returns. */
  lemma SortedHistoryMatchesStore(history: seq<HistoryRecord>)
    requires forall r :: r in history ==> AllDigits(r.id)
    ensures SortedHistory(history) == Sort(history, SessionStore.NewestFirst)
  {
    forall r | r in history ensures ByTimeDescending(r) == SessionStore.NewestFirst(r) {
      ParseIntDigits(r.id);
    }
    SortAgree(history, ByTimeDescending, SessionStore.NewestFirst);
  }

  // ---- Month groups --------------------------------------------------------

  /** The month of each record, in order. */
  function MonthList(rs: seq<HistoryRecord>, monthOf: string -> string): (r: seq<string>)
    ensures |r| == |rs| && forall i :: 0 <= i < |rs| ==> r[i] == monthOf(rs[i].id)
  {
    if rs == [] then [] else MonthList(rs[..|rs| - 1], monthOf) + [monthOf(rs[|rs| - 1].id)]
  }

  /** The records of month `m`, in their order. */
  function InMonth(rs: seq<HistoryRecord>, monthOf: string -> string, m: string): (r: seq<HistoryRecord>)
    ensures forall x :: x in r <==> x in rs && monthOf(x.id) == m
  {
    if rs == [] then []
    else InMonth(rs[..|rs| - 1], monthOf, m) + (if monthOf(rs[|rs| - 1].id) == m then [rs[|rs| - 1]] else [])
  }

  /** `groupedHistory`: the `reduce` that appends each record to its month's list. */
  function Groups(rs: seq<HistoryRecord>, monthOf: string -> string): map<string, seq<HistoryRecord>>
  {
    if rs == [] then map[]
    else
      var acc := Groups(rs[..|rs| - 1], monthOf);
      var x := rs[|rs| - 1];
      var m := monthOf(x.id);
      acc[m := (if m in acc then acc[m] else []) + [x]]
  }

  /** There is a group for exactly the months that occur; each group holds
      the records of its month in sorted order. So every record lands in the
      group of its own month and in no other. */
  lemma {:induction false} GroupsSpec(rs: seq<HistoryRecord>, monthOf: string -> string)
    ensures forall m :: m in Groups(rs, monthOf) <==> m in MonthList(rs, monthOf)
    ensures forall m :: m in Groups(rs, monthOf) ==> Groups(rs, monthOf)[m] == InMonth(rs, monthOf, m)
    ensures forall m :: m !in Groups(rs, monthOf) ==> InMonth(rs, monthOf, m) == []
  {
    if rs != [] {
      var front := rs[..|rs| - 1];
      GroupsSpec(front, monthOf);
      assert MonthList(rs, monthOf) == MonthList(front, monthOf) + [monthOf(rs[|rs| - 1].id)];
    }
  }

  /** `Array.from(new Set(list))`: first occurrences, in order. */
  function Distinct(s: seq<string>): (r: seq<string>)
    ensures forall x :: x in r <==> x in s
  {
    if s == [] then [] else UserData.AddOnce(Distinct(s[..|s| - 1]), s[|s| - 1])
  }

  /** The position of the first occurrence of `x`. */
  function FirstIndex(s: seq<string>, x: string): (i: nat)
    requires x in s
    ensures i < |s| && s[i] == x && x !in s[..i]
  {
    if s[0] == x then 0 else 1 + FirstIndex(s[1..], x)
  }

  lemma {:induction false} FirstIndexSnoc(s: seq<string>, y: string, x: string)
    requires x in s
    ensures FirstIndex(s + [y], x) == FirstIndex(s, x)
  {
    if s[0] != x {
      assert (s + [y])[1..] == s[1..] + [y];
      FirstIndexSnoc(s[1..], y, x);
    }
  }

  lemma FirstIndexLast(front: seq<string>, x: string)
    requires x !in front
    ensures FirstIndex(front + [x], x) == |front|
  {
    assert forall k :: 0 <= k < |front| ==> (front + [x])[k] == front[k];
  }

  /** The elements of `r` occur in `s` and are ordered by their first occurrence there. */
  predicate InFirstOrder(s: seq<string>, r: seq<string>)
  {
    forall i, j :: 0 <= i < j < |r| ==> r[i] in s && r[j] in s && FirstIndex(s, r[i]) < FirstIndex(s, r[j])
  }

  /** The months are listed once each, in the order of their first record. */
  lemma {:induction false} DistinctSpec(s: seq<string>)
    ensures NoDups(Distinct(s))
    ensures InFirstOrder(s, Distinct(s))
  {
    if s != [] {
      var front, x := s[..|s| - 1], s[|s| - 1];
      assert s == front + [x];
      DistinctSpec(front);
      var d := Distinct(front);
      UserData.AddOnceNoDups(d, x);
      var r := Distinct(s);
      assert r == if x in d then d else d + [x];
      forall i, j | 0 <= i < j < |r| ensures FirstIndex(s, r[i]) < FirstIndex(s, r[j]) {
        assert r[i] == d[i] && r[i] in front;
        FirstIndexSnoc(front, x, r[i]);
        if j < |d| {
          assert r[j] == d[j] && r[j] in front;
          FirstIndexSnoc(front, x, r[j]);
          assert 0 <= i < j < |d|;
          assert FirstIndex(front, d[i]) < FirstIndex(front, d[j]);
        } else {
          assert r[j] == x && x !in front;
          FirstIndexLast(front, x);
          assert FirstIndex(s, r[i]) < |front|;
        }
      }
    }
  }

  /** `uniqueMonths`. */
  function UniqueMonths(sorted: seq<HistoryRecord>, monthOf: string -> string): seq<string>
  {
    Distinct(MonthList(sorted, monthOf))
  }

  /** Every heading has a non-empty group and every group has a heading, so
      the list shows each record under its month exactly once. */
  lemma UniqueMonthsSpec(sorted: seq<HistoryRecord>, monthOf: string -> string)
    ensures var months := UniqueMonths(sorted, monthOf);
      && NoDups(months)
      && (forall m :: m in months <==> m in Groups(sorted, monthOf))
      && (forall m :: m in months ==> Groups(sorted, monthOf)[m] != [])
  {
    DistinctSpec(MonthList(sorted, monthOf));
    GroupsSpec(sorted, monthOf);
    forall m | m in UniqueMonths(sorted, monthOf) ensures Groups(sorted, monthOf)[m] != [] {
      var i :| 0 <= i < |sorted| && MonthList(sorted, monthOf)[i] == m;
      assert sorted[i] in InMonth(sorted, monthOf, m);
    }
  }

  // ---- Cards ---------------------------------------------------------------

  const JournalEntry := "Journal Entry"
  const NoPreview := "No preview available..."
  const Reflection := "Reflection"
  const CheckIn := "Check-in"

  /** The card title: the record's title, or "Journal Entry" for an empty one. */
  function CardTitle(title: string): (r: string)
    ensures r != ""
    ensures title != "" ==> r == title
  {
    if title != "" then title else JournalEntry
  }

  /** Titles over 50 characters are cut to 50 and marked with "...". */
  function Shorten(title: string): (r: string)
    ensures |r| <= 53
    ensures |title| <= 50 ==> r == title
    ensures |title| > 50 ==> |r| == 53 && r[..50] == title[..50] && r[50..] == "..."
  {
    if |title| > 50 then title[..50] + "..." else title
  }

  /** A shortened title stays as it is when shortened again. */
  lemma ShortenIdempotent(title: string)
    ensures Shorten(Shorten(title)) == Shorten(title)
  {
    if |title| > 50 {
      var r := Shorten(title);
      assert r[..50] + "..." == r;
    }
  }

  /** `i` is the first message the user sent. */
  predicate FirstUser(msgs: seq<ChatMessage>, i: int)
  {
    0 <= i < |msgs| && msgs[i].sender == User && forall j :: 0 <= j < i ==> msgs[j].sender != User
  }

  /** `transcript.find(t => t.sender === 'user')`. */
  function FindUser(msgs: seq<ChatMessage>): (r: Option<nat>)
    ensures r.Some? ==> FirstUser(msgs, r.value)
    ensures r.None? ==> forall j :: 0 <= j < |msgs| ==> msgs[j].sender != User
  {
    if msgs == [] then None
    else if msgs[0].sender == User then Some(0)
    else
      var rest := FindUser(msgs[1..]);
      if rest.Some? then Some(rest.value + 1) else None
  }

  /** The card teaser: the summary, else the first user message, else a
      placeholder. */
  function Teaser(record: HistoryRecord): (r: string)
    ensures r != ""
    ensures record.summary != "" ==> r == record.summary
  {
    if record.summary != "" then record.summary
    else
      var u := FindUser(record.transcript);
      if u.Some? && record.transcript[u.value].text != "" then record.transcript[u.value].text else NoPreview
  }

  /** Without a summary the teaser is the text of the first user message
      when that text is non-empty, and the placeholder otherwise. */
  lemma TeaserFallback(record: HistoryRecord)
    requires record.summary == ""
    ensures forall i :: FirstUser(record.transcript, i) && record.transcript[i].text != "" ==>
      Teaser(record) == record.transcript[i].text
    ensures (forall i :: FirstUser(record.transcript, i) ==> record.transcript[i].text == "") ==>
      Teaser(record) == NoPreview
  {
    var u := FindUser(record.transcript);
    forall i | FirstUser(record.transcript, i) ensures u == Some(i) {
    }
  }

  /** A pill: the first entry of the list when it is non-empty text, else
      the default. */
  function Pill(list: seq<string>, default: string): (r: string)
    ensures r == default || (|list| > 0 && r == list[0] && r != "")
    ensures |list| > 0 && list[0] != "" ==> r == list[0]
  {
    if |list| > 0 && list[0] != "" then list[0] else default
  }

  /** The pills a card shows: the first theme or "Reflection", the first
      emotion or "Check-in"; neither is ever blank. */
  function Pills(record: HistoryRecord): (r: (string, string))
    ensures r.0 != "" && r.1 != ""
    ensures r.0 == Reflection || (|record.themes| > 0 && r.0 == record.themes[0])
    ensures r.1 == CheckIn || (|record.emotions| > 0 && r.1 == record.emotions[0])
  {
    (Pill(record.themes, Reflection), Pill(record.emotions, CheckIn))
  }
}
