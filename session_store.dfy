/** The journal of chat sessions (services/db.ts): the offline analysis
    that finds themes and emotions by keyword, the fallback record built
    from it, the rule for saving a session, and the newest-first order in
    which the history is read back. The database itself is a sequence of
    records. */
module SessionStore {
  import opened Text
  import opened Lists
  import opened Types
  import opened Sorting
  import MiaService

  // ---- Keyword analysis ----------------------------------------------------

  /** One check of the analysis: the label is added when the text contains
      any of the keywords. */
  datatype Rule = Rule(name: string, keywords: seq<string>)

  const ThemeRules: seq<Rule> := [
    Rule("Pain Management", ["pain", "hurt", "flare"]),
    Rule("Stress & Anxiety", ["stress", "worr", "anxiety", "panic"]),
    Rule("Sleep", ["sleep", "tired", "insomnia", "rest"]),
    Rule("Work Balance", ["work", "job", "career", "busy"]),
    Rule("Relationships", ["family", "partner", "friend", "lonely"]),
    Rule("Mindfulness", ["breath", "meditat", "relax"])
  ]

  /** The theme used when no theme check fires. */
  const GeneralWellBeing := "General Well-being"

  const EmotionRules: seq<Rule> := [
    Rule("Sadness", ["sad", "cry", "depress", "down"]),
    Rule("Hope", ["happy", "good", "great", "better"]),
    Rule("Frustration", ["angry", "mad", "frustrat", "annoy"]),
    Rule("Calmness", ["calm", "peace", "relax"]),
    Rule("Fear", ["scared", "fear", "afraid"]),
    Rule("Guilt", ["guilt", "sorry"]),
    Rule("Gratitude", ["gratitude", "thank"])
  ]

  function Labels(rules: seq<Rule>): (r: seq<string>)
    ensures |r| == |rules| && forall i :: 0 <= i < |rules| ==> r[i] == rules[i].name
  {
    seq(|rules|, i requires 0 <= i < |rules| => rules[i].name)
  }

  function Texts(transcript: seq<ChatMessage>): (r: seq<string>)
    ensures |r| == |transcript| && forall i :: 0 <= i < |transcript| ==> r[i] == transcript[i].text
  {
    seq(|transcript|, i requires 0 <= i < |transcript| => transcript[i].text)
  }

  /** The text analysed: every message joined with a space, lower-cased. */
  function SessionText(transcript: seq<ChatMessage>): string
  {
    AsciiLower(Join(Texts(transcript), " "))
  }

  /** The text contains one of the keywords. */
  predicate AnyContains(text: string, keywords: seq<string>)
  {
    |keywords| > 0 && (Contains(text, keywords[0]) || AnyContains(text, keywords[1..]))
  }

  predicate Hits(text: string, rule: Rule)
  {
    AnyContains(text, rule.keywords)
  }

  /** The positions, from `from` on, of the rules that fire: exactly those,
      in increasing order. */
  function HitIndices(text: string, rules: seq<Rule>, from: nat): (r: seq<nat>)
    requires from <= |rules|
    ensures forall k :: 0 <= k < |r| ==> from <= r[k] < |rules| && Hits(text, rules[r[k]])
    ensures forall k, l :: 0 <= k < l < |r| ==> r[k] < r[l]
    ensures forall i :: from <= i < |rules| && Hits(text, rules[i]) ==> i in r
    decreases |rules| - from
  {
    if from == |rules| then []
    else (if Hits(text, rules[from]) then [from] else []) + HitIndices(text, rules, from + 1)
  }

  /** The labels a run of checks adds to its `Set`, in insertion order. */
  function Matched(text: string, rules: seq<Rule>): (r: seq<string>)
  {
    var idx := HitIndices(text, rules, 0);
    seq(|idx|, k requires 0 <= k < |idx| => rules[idx[k]].name)
  }

  /** Nothing is matched exactly when no check fires. */
  lemma MatchedEmpty(text: string, rules: seq<Rule>)
    ensures Matched(text, rules) == [] <==> forall i :: 0 <= i < |rules| ==> !Hits(text, rules[i])
  {
    var idx := HitIndices(text, rules, 0);
    if idx != [] {
      assert Hits(text, rules[idx[0]]);
    }
  }

  /** Distinct labels give a matched list without duplicates. */
  lemma MatchedNoDups(text: string, rules: seq<Rule>)
    requires NoDups(Labels(rules))
    ensures NoDups(Matched(text, rules))
  {
    var m := Matched(text, rules);
    var idx := HitIndices(text, rules, 0);
    forall a, b | 0 <= a < b < |m| ensures m[a] != m[b] {
      assert idx[a] < idx[b];
      assert Labels(rules)[idx[a]] != Labels(rules)[idx[b]];
    }
  }

  /** Every matched label belongs to a check that fires. */
  lemma MatchedLabel(text: string, rules: seq<Rule>, k: nat)
    requires k < |Matched(text, rules)|
    ensures exists i :: 0 <= i < |rules| && Hits(text, rules[i]) && rules[i].name == Matched(text, rules)[k]
  {
    var idx := HitIndices(text, rules, 0);
    assert Hits(text, rules[idx[k]]);
  }

  /** The matched labels, or the single default label when none matched. */
  function WithDefault(matched: seq<string>, default: string): (r: seq<string>)
    ensures |r| > 0
  {
    if matched == [] then [default] else matched
  }

  /** The default label is in the result exactly when no check fires, and
      then alone; nothing is repeated. */
  lemma WithDefaultSpec(text: string, rules: seq<Rule>, default: string)
    requires NoDups(Labels(rules)) && default !in Labels(rules)
    ensures var r := WithDefault(Matched(text, rules), default);
      && (default in r <==> forall i :: 0 <= i < |rules| ==> !Hits(text, rules[i]))
      && (default in r ==> r == [default])
      && NoDups(r)
  {
    MatchedEmpty(text, rules);
    MatchedNoDups(text, rules);
  }

  /** The themes of `analyzeSessionLocally`. */
  function AnalyzeThemes(text: string): (r: seq<string>)
    ensures |r| > 0
  {
    WithDefault(Matched(text, ThemeRules), GeneralWellBeing)
  }

  /** The emotions of `analyzeSessionLocally`. */
  function AnalyzeEmotions(text: string): seq<string>
  {
    Matched(text, EmotionRules)
  }

  /** The theme labels differ from each other and from the default (their
      lengths already tell them apart). */
  lemma ThemeLabels()
    ensures NoDups(Labels(ThemeRules)) && GeneralWellBeing !in Labels(ThemeRules)
  {
  }

  lemma EmotionLabels()
    ensures NoDups(Labels(EmotionRules))
    ensures forall i :: 0 <= i < |EmotionRules| ==> 'R' !in EmotionRules[i].name
  {
  }

  /** The themes are never empty; "General Well-being" is among them exactly
      when no theme check fires, and then it is the only one. Neither list
      repeats a label. */
  lemma AnalysisSpec(text: string)
    ensures var themes := AnalyzeThemes(text);
      && (GeneralWellBeing in themes <==> forall i :: 0 <= i < |ThemeRules| ==> !Hits(text, ThemeRules[i]))
      && (GeneralWellBeing in themes ==> themes == [GeneralWellBeing])
      && NoDups(themes) && NoDups(AnalyzeEmotions(text))
  {
    ThemeLabels();
    EmotionLabels();
    WithDefaultSpec(text, ThemeRules, GeneralWellBeing);
    MatchedNoDups(text, EmotionRules);
  }

  // ---- Title ---------------------------------------------------------------

  /** Titles the fallback replaces. */
  predicate Retitles(title: string)
  {
    title == "Check-in" || Contains(title, "Reflection")
  }

  function DaypartTitle(hour: int): string
  {
    if hour < 12 then "Morning Check-in" else if hour < 18 then "Afternoon Check-in" else "Evening Check-in"
  }

  lemma DaypartTitleShape(hour: int)
    ensures 'R' !in DaypartTitle(hour) && DaypartTitle(hour) != "Check-in"
  {
  }

  /** The title of the fallback record; `hour` is the local hour of the clock. */
  function RecordTitle(title: string, themes: seq<string>, emotions: seq<string>, hour: int): (r: string)
    ensures !Retitles(title) ==> r == title
  {
    if Retitles(title) then
      if |themes| > 0 && GeneralWellBeing !in themes then themes[0] + " Reflection"
      else if |emotions| > 0 then "Navigating " + emotions[0]
      else DaypartTitle(hour)
    else title
  }

  /** With the themes and emotions of the analysis, a replaced title names
      the first theme found, else the first emotion found, else the part of
      the day. */
  lemma FallbackTitle(text: string, title: string, hour: int)
    requires Retitles(title)
    ensures var r := RecordTitle(title, AnalyzeThemes(text), AnalyzeEmotions(text), hour);
      var themes, emotions := Matched(text, ThemeRules), Matched(text, EmotionRules);
      && (|themes| > 0 ==> r == themes[0] + " Reflection")
      && (|themes| == 0 && |emotions| > 0 ==> r == "Navigating " + emotions[0])
      && (|themes| == 0 && |emotions| == 0 ==> r == DaypartTitle(hour))
  {
    AnalysisSpec(text);
  }

  /** Building the title again from the title it produced changes nothing,
      as long as the first emotion has no capital R (so it cannot spell
      "Reflection"). */
  lemma RecordTitleStable(title: string, themes: seq<string>, emotions: seq<string>, hour: int)
    requires |emotions| > 0 ==> 'R' !in emotions[0]
    ensures var r := RecordTitle(title, themes, emotions, hour);
      RecordTitle(r, themes, emotions, hour) == r
  {
    var r := RecordTitle(title, themes, emotions, hour);
    if Retitles(title) {
      if |themes| > 0 && GeneralWellBeing !in themes {
        assert OccursAt(r, "Reflection", |themes[0]| + 1) by {
          assert r[|themes[0]| + 1..] == "Reflection";
        }
        OccursContains(r, "Reflection", |themes[0]| + 1);
      } else if |emotions| > 0 {
        var e := emotions[0];
        assert r == "Navigating " + e;
        assert forall i :: 0 <= i < |r| ==> r[i] != 'R' by {
          forall i | 0 <= i < |r| ensures r[i] != 'R' {
            if i >= 11 {
              assert r[i] == e[i - 11];
            }
          }
        }
        MissingFirstChar(r, "Reflection");
      } else {
        DaypartTitleShape(hour);
        MissingFirstChar(r, "Reflection");
      }
    }
  }

  /** For the lists of the analysis, building the title is idempotent. */
  lemma RecordTitleIdempotent(text: string, title: string, hour: int)
    ensures var themes, emotions := AnalyzeThemes(text), AnalyzeEmotions(text);
      var r := RecordTitle(title, themes, emotions, hour);
      RecordTitle(r, themes, emotions, hour) == r
  {
    var emotions := AnalyzeEmotions(text);
    if |emotions| > 0 {
      EmotionLabels();
      MatchedLabel(text, EmotionRules, 0);
    }
    RecordTitleStable(title, AnalyzeThemes(text), emotions, hour);
  }

  // ---- Summary -------------------------------------------------------------

  function Lowered(items: seq<string>): (r: seq<string>)
    ensures |r| == |items| && forall i :: 0 <= i < |items| ==> r[i] == AsciiLower(items[i])
  {
    seq(|items|, i requires 0 <= i < |items| => AsciiLower(items[i]))
  }

  /** The list in prose: all but the last joined with ", ", then " and " and
      the last; a single item alone. */
  function JoinAnd(items: seq<string>): string
    requires |items| > 0
  {
    if |items| > 1 then Join(items[..|items| - 1], ", ") + " and " + items[|items| - 1] else items[0]
  }

  /** The same list read from the front: "a", "a and b", "a, " followed by the rest. */
  function Listing(items: seq<string>): string
    requires |items| > 0
  {
    if |items| == 1 then items[0]
    else if |items| == 2 then items[0] + " and " + items[1]
    else items[0] + ", " + Listing(items[1..])
  }

  /** Both readings agree. */
  lemma {:induction false} JoinAndListing(items: seq<string>)
    requires |items| > 0
    ensures JoinAnd(items) == Listing(items)
  {
    if |items| > 2 {
      var n := |items|;
      var rest := items[1..];
      JoinAndListing(rest);
      assert items[..n - 1] == [items[0]] + rest[..n - 2];
      JoinCons(items[0], rest[..n - 2], ", ");
      calc {
        JoinAnd(items);
        Join(items[..n - 1], ", ") + " and " + items[n - 1];
        items[0] + ", " + Join(rest[..n - 2], ", ") + " and " + rest[n - 2];
        { AppendAssoc(items[0] + ", ", Join(rest[..n - 2], ", ") + " and ", [] + rest[n - 2]);
          AppendAssoc(items[0] + ", ", Join(rest[..n - 2], ", "), " and "); }
        items[0] + ", " + (Join(rest[..n - 2], ", ") + " and " + rest[n - 2]);
        items[0] + ", " + JoinAnd(rest);
      }
    }
  }

  /** Every item appears in the prose list. */
  lemma {:induction false} ListingMentions(items: seq<string>, k: nat) returns (j: nat)
    requires k < |items|
    ensures OccursAt(Listing(items), items[k], j)
  {
    if |items| == 1 {
      j := 0;
      assert items[k][0..|items[k]|] == items[k];
    } else if |items| == 2 {
      assert items[k][0..|items[k]|] == items[k];
      if k == 0 {
        j := 0;
        OccursSuffix(items[0], " and " + items[1], items[0], 0);
        AppendAssoc(items[0], " and ", items[1]);
      } else {
        j := |items[0] + " and "|;
        OccursPrefix(items[0] + " and ", items[1], items[1], 0);
      }
    } else if k == 0 {
      j := 0;
      assert items[0][0..|items[0]|] == items[0];
      OccursSuffix(items[0], ", " + Listing(items[1..]), items[0], 0);
      AppendAssoc(items[0], ", ", Listing(items[1..]));
    } else {
      var j' := ListingMentions(items[1..], k - 1);
      j := |items[0] + ", "| + j';
      OccursPrefix(items[0] + ", ", Listing(items[1..]), items[k], j');
    }
  }

  const CheckedIn := "During this session, we checked in on your overall well-being."
  const ThemesOpening := "During this session, we explored the connection between your physical sensations and current emotional state. We identified key themes around "
  const FeelingsOpening := " You acknowledged feelings of "
  const MindfulClose := " We focused on mindfulness and listening to your body's signals."

  /** The sentence that lists the themes or the emotions. */
  function ListSentence(opening: string, items: seq<string>): string
    requires |items| > 0
  {
    opening + JoinAnd(Lowered(items)) + "."
  }

  /** The summary of the fallback record. */
  function FallbackSummary(themes: seq<string>, emotions: seq<string>): string
  {
    (if |themes| > 0 then ListSentence(ThemesOpening, themes) else CheckedIn)
    + (if |emotions| > 0 then ListSentence(FeelingsOpening, emotions) else MindfulClose)
  }

  /** A list sentence names each of its items, lower-cased. */
  lemma SentenceMentions(opening: string, items: seq<string>, k: nat) returns (j: nat)
    requires k < |items|
    ensures OccursAt(ListSentence(opening, items), AsciiLower(items[k]), j)
  {
    var lowered := Lowered(items);
    JoinAndListing(lowered);
    var j' := ListingMentions(lowered, k);
    OccursPrefix(opening, JoinAnd(lowered), lowered[k], j');
    OccursSuffix(opening + JoinAnd(lowered), ".", lowered[k], |opening| + j');
    j := |opening| + j';
  }

  /** The summary names every theme and every emotion, lower-cased. */
  lemma SummaryMentions(themes: seq<string>, emotions: seq<string>)
    ensures forall k :: 0 <= k < |themes| ==> Contains(FallbackSummary(themes, emotions), AsciiLower(themes[k]))
    ensures forall k :: 0 <= k < |emotions| ==> Contains(FallbackSummary(themes, emotions), AsciiLower(emotions[k]))
  {
    forall k | 0 <= k < |themes| ensures Contains(FallbackSummary(themes, emotions), AsciiLower(themes[k])) {
      ThemeMentioned(themes, emotions, k);
    }
    forall k | 0 <= k < |emotions| ensures Contains(FallbackSummary(themes, emotions), AsciiLower(emotions[k])) {
      EmotionMentioned(themes, emotions, k);
    }
  }

  lemma ThemeMentioned(themes: seq<string>, emotions: seq<string>, k: nat)
    requires k < |themes|
    ensures Contains(FallbackSummary(themes, emotions), AsciiLower(themes[k]))
  {
    var first := ListSentence(ThemesOpening, themes);
    var second := if |emotions| > 0 then ListSentence(FeelingsOpening, emotions) else MindfulClose;
    var j := SentenceMentions(ThemesOpening, themes, k);
    OccursContains(first, AsciiLower(themes[k]), j);
    ContainsAppend(first, second, AsciiLower(themes[k]));
  }

  lemma EmotionMentioned(themes: seq<string>, emotions: seq<string>, k: nat)
    requires k < |emotions|
    ensures Contains(FallbackSummary(themes, emotions), AsciiLower(emotions[k]))
  {
    var first := if |themes| > 0 then ListSentence(ThemesOpening, themes) else CheckedIn;
    var second := ListSentence(FeelingsOpening, emotions);
    var j := SentenceMentions(FeelingsOpening, emotions, k);
    OccursContains(second, AsciiLower(emotions[k]), j);
    ContainsAppend(first, second, AsciiLower(emotions[k]));
  }

  const FallbackActions: seq<string> := ["Practice self-compassion", "Review the suggested techniques"]

  /** `generateFallbackRecord`, with the hour of `now` as a parameter. */
  function FallbackRecord(transcript: seq<ChatMessage>, title: string, hour: int): (r: MiaService.SummaryResult)
    ensures r.themes == AnalyzeThemes(SessionText(transcript)) && r.emotions == AnalyzeEmotions(SessionText(transcript))
    ensures r.actions == FallbackActions
    ensures r.title == RecordTitle(title, r.themes, r.emotions, hour)
    ensures r.summary == FallbackSummary(r.themes, r.emotions)
  {
    var text := SessionText(transcript);
    var themes, emotions := AnalyzeThemes(text), AnalyzeEmotions(text);
    MiaService.SummaryResult(RecordTitle(title, themes, emotions, hour), FallbackSummary(themes, emotions),
                             themes, emotions, FallbackActions)
  }

  /** The fallback summary always opens with the themes sentence (the
      analysis never yields an empty theme list, so the plain check-in
      sentence is never used) and names everything the analysis found. */
  lemma FallbackSummarySpec(transcript: seq<ChatMessage>, title: string, hour: int)
    ensures var r := FallbackRecord(transcript, title, hour);
      && StartsWith(r.summary, ThemesOpening)
      && (forall k :: 0 <= k < |r.themes| ==> Contains(r.summary, AsciiLower(r.themes[k])))
      && (forall k :: 0 <= k < |r.emotions| ==> Contains(r.summary, AsciiLower(r.emotions[k])))
  {
    var r := FallbackRecord(transcript, title, hour);
    SummaryMentions(r.themes, r.emotions);
    SummaryOpening(r.themes, r.emotions);
  }

  lemma SummaryOpening(themes: seq<string>, emotions: seq<string>)
    requires |themes| > 0
    ensures StartsWith(FallbackSummary(themes, emotions), ThemesOpening)
  {
    var first := ListSentence(ThemesOpening, themes);
    var second := if |emotions| > 0 then ListSentence(FeelingsOpening, emotions) else MindfulClose;
    var n := |ThemesOpening|;
    assert FallbackSummary(themes, emotions)[..n] == first[..n];
    assert first[..n] == ThemesOpening;
  }

  // ---- Saving and reading the journal --------------------------------------

  predicate HasUserMessage(transcript: seq<ChatMessage>)
  {
    exists i :: 0 <= i < |transcript| && transcript[i].sender == User
  }

  /** The record `saveChatSession` stores, or None when it returns early.
      `mia` is the result of the summary call (None when it returned null or
      threw), `hour` and `now` are the clock's hour and `Date.now()`, and
      `date` is the formatted date. */
  function SessionRecord(transcript: seq<ChatMessage>, title: string, mia: Option<MiaService.SummaryResult>,
                         hour: int, now: nat, date: string): (r: Option<HistoryRecord>)
    ensures r.None? <==> !HasUserMessage(transcript)
    ensures r.Some? ==> r.value.id == DecimalString(now) && r.value.date == date && r.value.transcript == transcript
    ensures r.Some? && mia.Some? ==>
      && r.value.title == (if mia.value.title == "" then title else mia.value.title)
      && r.value.summary == mia.value.summary && r.value.themes == mia.value.themes
      && r.value.emotions == mia.value.emotions && r.value.actions == mia.value.actions
    ensures r.Some? && mia.None? ==>
      && r.value.actions == FallbackActions
      && r.value.themes == AnalyzeThemes(SessionText(transcript))
      && r.value.emotions == AnalyzeEmotions(SessionText(transcript))
      && r.value.summary == FallbackSummary(r.value.themes, r.value.emotions)
      && r.value.title == RecordTitle(title, r.value.themes, r.value.emotions, hour)
  {
    if !HasUserMessage(transcript) then None
    else
      var data := match mia
        case Some(m) => if m.title == "" then m.(title := title) else m
        case None => FallbackRecord(transcript, title, hour);
      Some(HistoryRecord(DecimalString(now), date, data.title, data.summary, data.themes, data.emotions,
                         data.actions, transcript))
  }

  /** `Number(id)` for the ids this store writes (decimal digits; the empty
      string reads as 0). */
  function NumberKey(id: string): nat
  {
    if AllDigits(id) then DecimalValue(id) else 0
  }

  /** The sort key of `getHistory`: larger ids first. */
  function NewestFirst(r: HistoryRecord): seq<int>
  {
    var n: int := NumberKey(r.id);
    [-n]
  }

  /** The key order is the comparator `Number(b.id) - Number(a.id)`: `a`
      goes first exactly when the comparator is negative. */
  lemma NewestFirstComparator(a: HistoryRecord, b: HistoryRecord)
    ensures Below(NewestFirst(a), NewestFirst(b)) <==> NumberKey(b.id) - NumberKey(a.id) < 0
  {
  }

  /** The object store of the journal: its records in stored order. */
  class HistoryStore {
    var records: seq<HistoryRecord>

    constructor()
      ensures records == []
    {
      records := [];
    }

    /** `saveChatSession`: nothing is written without a user message; `add`
        fails, writing nothing, when a record with the same id exists. */
    method SaveChatSession(transcript: seq<ChatMessage>, title: string, mia: Option<MiaService.SummaryResult>,
                           hour: int, now: nat, date: string) returns (saved: bool)
      modifies this
      ensures saved <==> HasUserMessage(transcript) && forall i :: 0 <= i < |old(records)| ==> old(records)[i].id != DecimalString(now)
      ensures saved ==> records == old(records) + [SessionRecord(transcript, title, mia, hour, now, date).value]
      ensures !saved ==> records == old(records)
    {
      var userMessages := exists i :: 0 <= i < |transcript| && transcript[i].sender == User;
      if !userMessages {
        return false;
      }
      var record := SessionRecord(transcript, title, mia, hour, now, date).value;
      if exists i :: 0 <= i < |records| && records[i].id == record.id {
        return false;
      }
      records := records + [record];
      saved := true;
    }

    /** `getHistory`: all records, sorted in place by id, newest first. */
    method GetHistory() returns (result: array<HistoryRecord>)
      ensures fresh(result)
      ensures result[..] == Sort(records, NewestFirst)
    {
      result := new HistoryRecord[|records|](i requires 0 <= i < |records| reads this => records[i]);
      assert result[..] == records;
      SortInPlace(result, NewestFirst);
    }
  }

  /** The history holds every record once and lists larger ids first;
      records with equal ids keep their stored order. */
  lemma HistoryOrder(records: seq<HistoryRecord>)
    ensures var h := Sort(records, NewestFirst);
      && multiset(h) == multiset(records)
      && (forall i, j :: 0 <= i < j < |h| ==> NumberKey(h[i].id) >= NumberKey(h[j].id))
      && (forall k: seq<int> :: Peers(h, k, NewestFirst) == Peers(records, k, NewestFirst))
  {
    SortPermutes(records, NewestFirst);
    SortSorted(records, NewestFirst);
    forall k: seq<int> ensures Peers(Sort(records, NewestFirst), k, NewestFirst) == Peers(records, k, NewestFirst) {
      SortStable(records, k, NewestFirst);
    }
  }

  /** Ids written by this store are read back as the time they were made,
      so the history runs from the latest session to the earliest. */
  lemma HistoryByTime(records: seq<HistoryRecord>, times: seq<nat>)
    requires |times| == |records| && forall i :: 0 <= i < |records| ==> records[i].id == DecimalString(times[i])
    ensures forall i :: 0 <= i < |records| ==> NumberKey(records[i].id) == times[i]
  {
    forall i | 0 <= i < |records| ensures NumberKey(records[i].id) == times[i] {
      DecimalRoundTrip(times[i]);
    }
  }
}
