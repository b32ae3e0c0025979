/** The list and arithmetic helpers of the home and practice screens
    (screens/HomeScreen.tsx): the order of habits, a module's completion
    percentage, the habit built by the habit wizard, the frequency and day
    pickers, the technique list and its filter, and the "continue my
    journey" selection. */
module HomeScreen {
  import opened Text
  import opened Lists
  import opened Types
  import opened Sorting
  import opened UserData

  const DaysOfWeek: seq<string> := ["Mon", "Tue", "Wed", "Thu", "Fri", "Sat", "Sun"]

  // ---- Habit order ---------------------------------------------------------

  /** The time a habit sorts by: its time of day, or "99:99" when it has none. */
  function SortTime(h: Habit): string
  {
    if Truthy(h.timeOfDay) then h.timeOfDay.value else "99:99"
  }

  /** Time, then title, with a separator below every character code. */
  function HabitKey(h: Habit): seq<int>
  {
    Codes(SortTime(h)) + [-1] + Codes(h.title)
  }

  /** The key order is the comparator of `sortHabits`: equal times compare
      by title, different times by time. */
  lemma HabitKeyComparator(a: Habit, b: Habit)
    ensures Below(HabitKey(a), HabitKey(b)) <==>
      if SortTime(a) == SortTime(b) then StrBelow(a.title, b.title) else StrBelow(SortTime(a), SortTime(b))
  {
    BelowSeparated(Codes(SortTime(a)), Codes(SortTime(b)), Codes(a.title), Codes(b.title));
    if Codes(SortTime(a)) == Codes(SortTime(b)) {
      CodesInjective(SortTime(a), SortTime(b));
    }
  }

  /** `sortHabits`: a sorted copy. */
  function SortHabits(list: seq<Habit>): seq<Habit>
  {
    Sort(list, HabitKey)
  }

  /** A time of day as the time input writes it ("HH:MM", hours below 24)
      starts with a digit below 9. */
  predicate Timed(h: Habit)
  {
    Truthy(h.timeOfDay) && h.timeOfDay.value[0] < '9'
  }

  lemma TimedBelowUntimed(a: Habit, b: Habit)
    requires Timed(a) && !Truthy(b.timeOfDay)
    ensures Below(HabitKey(a), HabitKey(b))
  {
    HabitKeyComparator(a, b);
    assert Codes(SortTime(a))[0] < Codes(SortTime(b))[0];
  }

  /** The sorted habits are the input reordered, in key order, and every
      habit with a time of day comes before every habit without one. */
  lemma SortHabitsSpec(list: seq<Habit>)
    ensures var r := SortHabits(list);
      && multiset(r) == multiset(list)
      && Sorted(r, HabitKey)
      && (forall i, j :: 0 <= i < |r| && 0 <= j < |r| && Timed(r[i]) && !Truthy(r[j].timeOfDay) ==> i < j)
  {
    SortPermutes(list, HabitKey);
    SortSorted(list, HabitKey);
    var r := SortHabits(list);
    forall i, j | 0 <= i < |r| && 0 <= j < |r| && Timed(r[i]) && !Truthy(r[j].timeOfDay) ensures i < j {
      TimedBelowUntimed(r[i], r[j]);
      SortedBefore(r, HabitKey, i, j);
    }
  }

  /** The habits whose days include `day`. */
  function HabitsOn(habits: seq<Habit>, day: string): (r: seq<Habit>)
    ensures forall h :: h in r <==> h in habits && h.days.Some? && day in h.days.value
  {
    if habits == [] then []
    else (if habits[0].days.Some? && day in habits[0].days.value then [habits[0]] else []) + HabitsOn(habits[1..], day)
  }

  /** `todaysHabits`: today's habits, sorted. */
  function TodaysHabits(habits: seq<Habit>, today: string): seq<Habit>
  {
    SortHabits(HabitsOn(habits, today))
  }

  lemma TodaysHabitsSpec(habits: seq<Habit>, today: string)
    ensures var r := TodaysHabits(habits, today);
      && (forall h :: h in r <==> h in habits && h.days.Some? && today in h.days.value)
      && Sorted(r, HabitKey)
  {
    SortPermutes(HabitsOn(habits, today), HabitKey);
    SortSorted(HabitsOn(habits, today), HabitKey);
    var r := TodaysHabits(habits, today);
    forall h ensures h in r <==> h in HabitsOn(habits, today) {
      assert h in r <==> h in multiset(r);
    }
  }

  // ---- Module percentage ---------------------------------------------------

  /** `Math.round(completed / total * 100)` in exact arithmetic: halves round up. */
  function Percent(completed: nat, total: nat): (p: nat)
    requires total > 0
    ensures 2 * total * p <= 200 * completed + total < 2 * total * (p + 1)
  {
    var p := (200 * completed + total) / (2 * total);
    assert (200 * completed + total) == 2 * total * p + (200 * completed + total) % (2 * total);
    p
  }

  lemma MulLe(t: nat, a: int, b: int)
    requires a <= b
    ensures t * a <= t * b
  {
    assert t * b - t * a == t * (b - a);
  }

  /** The rounding bracket determines the percentage. */
  lemma PercentUnique(completed: nat, total: nat, x: nat)
    requires total > 0 && 2 * total * x <= 200 * completed + total < 2 * total * (x + 1)
    ensures Percent(completed, total) == x
  {
    var p := Percent(completed, total);
    if p < x {
      MulLe(2 * total, p + 1, x);
    } else if x < p {
      MulLe(2 * total, x + 1, p);
    }
  }

  /** The percentage is 100 for a finished list and 0 for an untouched one;
      it shows 0 exactly while less than half a percent is done and 100 from
      99.5 percent on, so a list shorter than 200 with some but not all done
      shows strictly between. */
  lemma PercentBounds(completed: nat, total: nat)
    requires total > 0
    ensures completed == total ==> Percent(completed, total) == 100
    ensures completed == 0 ==> Percent(completed, total) == 0
    ensures Percent(completed, total) == 0 <==> 200 * completed < total
    ensures Percent(completed, total) >= 100 <==> 200 * completed >= 199 * total
    ensures completed <= total ==> Percent(completed, total) <= 100
    ensures 0 < completed < total < 200 ==> 0 < Percent(completed, total) < 100
  {
    var p := Percent(completed, total);
    if completed == total {
      PercentUnique(completed, total, 100);
    }
    if 200 * completed < total {
      PercentUnique(completed, total, 0);
    }
    if p >= 100 {
      MulLe(2 * total, 100, p);
    } else {
      MulLe(2 * total, p + 1, 100);
    }
    if p > 100 {
      MulLe(2 * total, 101, p);
    }
  }

  /** Completing more never lowers the percentage. */
  lemma PercentMonotone(c1: nat, c2: nat, total: nat)
    requires total > 0 && c1 <= c2
    ensures Percent(c1, total) <= Percent(c2, total)
  {
    var p1, p2 := Percent(c1, total), Percent(c2, total);
    if p1 > p2 {
      MulLe(2 * total, p2 + 1, p1);
    }
  }

  /** `getModulePercentage`: by sub-modules when the module has some, else
      by steps, else 0. */
  function ModulePercentage(m: Module, progress: Progress): (p: nat)
    ensures m.subModules.Some? && |m.subModules.value| > 0 && m.id in progress ==>
      p == Percent(|OrEmpty(progress[m.id].subModules)|, |m.subModules.value|)
    ensures (m.subModules.None? || |m.subModules.value| == 0) && |m.steps| > 0 && m.id in progress ==>
      p == Percent(|OrEmpty(progress[m.id].steps)|, |m.steps|)
    ensures m.id !in progress || ((m.subModules.None? || |m.subModules.value| == 0) && |m.steps| == 0) ==> p == 0
  {
    var entry := if m.id in progress then Some(progress[m.id]) else None;
    if m.subModules.Some? && |m.subModules.value| > 0 then
      Percent(if entry.Some? then |OrEmpty(entry.value.subModules)| else 0, |m.subModules.value|)
    else if |m.steps| > 0 then
      Percent(if entry.Some? then |OrEmpty(entry.value.steps)| else 0, |m.steps|)
    else 0
  }

  /** Completing a sub-module never lowers its module's percentage. */
  lemma RecordingRaisesPercentage(m: Module, progress: Progress, step: int, subModuleId: Option<string>)
    ensures ModulePercentage(m, progress) <= ModulePercentage(m, RecordProgress(progress, m.id, step, subModuleId))
  {
    var after := RecordProgress(progress, m.id, step, subModuleId);
    RecordProgressSpec(progress, m.id, step, subModuleId);
    var e := Entry(progress, m.id);
    assert |OrEmpty(e.subModules)| <= |OrEmpty(after[m.id].subModules)|;
    assert |OrEmpty(e.steps)| <= |OrEmpty(after[m.id].steps)|;
    if m.subModules.Some? && |m.subModules.value| > 0 {
      PercentMonotone(|OrEmpty(e.subModules)|, |OrEmpty(after[m.id].subModules)|, |m.subModules.value|);
      if m.id !in progress { PercentBounds(0, |m.subModules.value|); }
    } else if |m.steps| > 0 {
      PercentMonotone(|OrEmpty(e.steps)|, |OrEmpty(after[m.id].steps)|, |m.steps|);
      if m.id !in progress { PercentBounds(0, |m.steps|); }
    }
  }

  // ---- Habit wizard --------------------------------------------------------

  /** The library sub-module picked in the wizard. */
  datatype Pick = Pick(modId: string, subId: string)

  /** The wizard's fields. */
  datatype Draft = Draft(title: string, description: string, duration: string, subModule: Option<Pick>,
                         frequency: Frequency, selectedDays: seq<string>, timeOfDay: string,
                         notificationEnabled: bool)

  /** `handleSaveHabit`: None for a blank title, else the habit to save.
      `editing` is the id of the habit being edited and `now` is `Date.now()`. */
  function BuildHabit(draft: Draft, editing: Option<string>, habits: seq<Habit>, now: nat): (r: Option<Habit>)
    ensures r.None? <==> Trim(draft.title) == ""
  {
    if Trim(draft.title) == "" then None
    else
      var current := if Truthy(editing) then FindHabit(habits, editing.value) else None;
      var dates := if current.Some? && habits[current.value].completedDates.Some?
                   then habits[current.value].completedDates.value else [];
      Some(Habit(
        if Truthy(editing) then editing.value else DecimalString(now),
        draft.title,
        Some(draft.description),
        draft.subModule.None?,
        if draft.subModule.Some? then Some(draft.subModule.value.subId) else None,
        if draft.subModule.Some? then Some(draft.subModule.value.modId) else None,
        draft.frequency,
        Some(if draft.frequency == Daily then DaysOfWeek else draft.selectedDays),
        Some(draft.timeOfDay),
        Some(draft.notificationEnabled),
        Some(dates),
        Some(draft.duration)))
  }

  /** `i` is the first position holding a habit with the id. */
  predicate FirstWithId(habits: seq<Habit>, id: string, i: int)
  {
    0 <= i < |habits| && habits[i].id == id && forall j :: 0 <= j < i ==> habits[j].id != id
  }

  /** A saved habit is custom exactly when no library sub-module is set; a
      daily one is scheduled on all seven days; an edit keeps the id and the
      completion history of the habit edited, and a new habit starts with
      none. */
  lemma BuildHabitSpec(draft: Draft, editing: Option<string>, habits: seq<Habit>, now: nat)
    requires Trim(draft.title) != ""
    ensures var h := BuildHabit(draft, editing, habits, now).value;
      && h.title == draft.title
      && (h.isCustom <==> draft.subModule.None?)
      && (draft.frequency == Daily ==> h.days == Some(DaysOfWeek))
      && (draft.frequency != Daily ==> h.days == Some(draft.selectedDays))
      && (Truthy(editing) ==> h.id == editing.value)
      && (forall i :: Truthy(editing) && FirstWithId(habits, editing.value, i) ==>
            h.completedDates == Some(Dates(habits[i])))
      && (!Truthy(editing) ==> h.id == DecimalString(now) && h.completedDates == Some([]))
  {
    var h := BuildHabit(draft, editing, habits, now).value;
    forall i | Truthy(editing) && FirstWithId(habits, editing.value, i)
      ensures h.completedDates == Some(Dates(habits[i]))
    {
      assert FindHabit(habits, editing.value) == Some(i);
    }
  }

  /** Saving an edit of a stored habit replaces it: the list keeps its length. */
  lemma EditKeepsCount(draft: Draft, editing: string, habits: seq<Habit>, now: nat, i: nat)
    requires Trim(draft.title) != "" && editing != "" && i < |habits| && habits[i].id == editing
    ensures |UpsertHabit(habits, BuildHabit(draft, Some(editing), habits, now).value)| == |habits|
  {
    var h := BuildHabit(draft, Some(editing), habits, now).value;
    UpsertSpec(habits, h);
  }

  /** The days picked when a frequency button is pressed. */
  function DaysForFrequency(f: Frequency): (r: seq<string>)
    ensures NoDups(r) && forall d :: d in r ==> d in DaysOfWeek
  {
    match f
    case Daily => DaysOfWeek
    case Weekly => [DaysOfWeek[0]]
    case Custom => []
  }

  /** A day button: weekly mode picks exactly that day, otherwise the day is toggled. */
  function TapDay(f: Frequency, selected: seq<string>, day: string): (r: seq<string>)
    ensures f == Weekly ==> r == [day]
    ensures f != Weekly ==> (day in r <==> day !in selected) && forall d :: d != day ==> (d in r <==> d in selected)
  {
    if f == Weekly then [day] else Toggle(selected, day)
  }

  /** The selection stays a set of week days, and tapping an unselected day
      twice in custom mode restores the selection. */
  lemma TapDaySpec(f: Frequency, selected: seq<string>, day: string)
    requires NoDups(selected) && (forall d :: d in selected ==> d in DaysOfWeek) && day in DaysOfWeek
    ensures var r := TapDay(f, selected, day); NoDups(r) && forall d :: d in r ==> d in DaysOfWeek
    ensures f == Custom && day !in selected ==> TapDay(f, TapDay(f, selected, day), day) == selected
  {
    if f != Weekly {
      ToggleNoDups(selected, day);
      if day !in selected {
        ToggleTwiceAbsent(selected, day);
      }
    }
  }

  // ---- Techniques ----------------------------------------------------------

  /** The technique sub-modules of the modules, module by module. */
  function TechniquesOf(modules: seq<Module>): (r: seq<SubModule>)
    ensures forall t :: t in r ==> t.kind == Technique
    ensures forall t :: t in r <==> exists i :: 0 <= i < |modules| && modules[i].subModules.Some?
                                              && t in modules[i].subModules.value && t.kind == Technique
  {
    if modules == [] then []
    else Techniques(if modules[0].subModules.Some? then modules[0].subModules.value else [])
         + TechniquesOf(modules[1..])
  }

  function Techniques(subs: seq<SubModule>): (r: seq<SubModule>)
    ensures forall t :: t in r <==> t in subs && t.kind == Technique
  {
    if subs == [] then [] else (if subs[0].kind == Technique then [subs[0]] else []) + Techniques(subs[1..])
  }

  function TitleKey(t: SubModule): seq<int>
  {
    Codes(t.title)
  }

  /** The practice list: every technique, by title. */
  function AllTechniques(modules: seq<Module>): seq<SubModule>
  {
    Sort(TechniquesOf(modules), TitleKey)
  }

  lemma AllTechniquesSpec(modules: seq<Module>)
    ensures var r := AllTechniques(modules);
      && multiset(r) == multiset(TechniquesOf(modules))
      && (forall i, j :: 0 <= i < j < |r| ==> !StrBelow(r[j].title, r[i].title))
  {
    SortPermutes(TechniquesOf(modules), TitleKey);
    SortSorted(TechniquesOf(modules), TitleKey);
  }

  /** One technique passes the favourites switch and the search box. */
  predicate Shown(t: SubModule, favoritesOnly: bool, favorites: seq<string>, query: string)
  {
    (favoritesOnly ==> t.id in favorites) && (query == "" || Contains(AsciiLower(t.title), AsciiLower(query)))
  }

  /** `displayedTechniques`. */
  function Displayed(list: seq<SubModule>, favoritesOnly: bool, favorites: seq<string>, query: string): (r: seq<SubModule>)
    ensures |r| <= |list|
  {
    if list == [] then []
    else (if Shown(list[0], favoritesOnly, favorites, query) then [list[0]] else [])
         + Displayed(list[1..], favoritesOnly, favorites, query)
  }

  /** A technique is displayed exactly when it is listed and passes both
      filters; with neither filter on, the whole list shows. */
  lemma {:induction false} DisplayedSpec(list: seq<SubModule>, favoritesOnly: bool, favorites: seq<string>, query: string)
    ensures forall t :: t in Displayed(list, favoritesOnly, favorites, query) <==>
      t in list && Shown(t, favoritesOnly, favorites, query)
    ensures !favoritesOnly && query == "" ==> Displayed(list, favoritesOnly, favorites, query) == list
  {
    if list != [] {
      DisplayedSpec(list[1..], favoritesOnly, favorites, query);
      assert list == [list[0]] + list[1..];
    }
  }

  // ---- Continue my journey -------------------------------------------------

  function InCategory(modules: seq<Module>, c: Category): (r: seq<Module>)
    ensures forall k :: 0 <= k < |r| ==> r[k].category == c
  {
    if modules == [] then []
    else (if modules[0].category == c then [modules[0]] else []) + InCategory(modules[1..], c)
  }

  /** The place of a category in the learning journey. */
  function Rank(c: Category): nat
  {
    match c
    case Understanding => 0
    case Triggers => 1
    case Coping => 2
  }

  lemma {:induction false} InCategoryAppend(a: seq<Module>, b: seq<Module>, c: Category)
    ensures InCategory(a + b, c) == InCategory(a, c) + InCategory(b, c)
    decreases |a|
  {
    if a != [] {
      var head := if a[0].category == c then [a[0]] else [];
      assert (a + b)[0] == a[0] && (a + b)[1..] == a[1..] + b;
      assert InCategory(a + b, c) == head + InCategory(a[1..] + b, c);
      assert InCategory(a, c) == head + InCategory(a[1..], c);
      InCategoryAppend(a[1..], b, c);
      AppendAssoc(head, InCategory(a[1..], c), InCategory(b, c));
    } else {
      assert a + b == b;
    }
  }

  /** Filtering by a category twice is filtering once; by another category
      afterwards leaves nothing. */
  lemma InCategoryAgain(modules: seq<Module>, c: Category, d: Category)
    ensures InCategory(InCategory(modules, c), d) == if c == d then InCategory(modules, c) else []
  {
    var r := InCategory(modules, c);
    if c == d {
      InCategoryAll(r, c);
    } else {
      InCategoryNone(r, d);
    }
  }

  /** A filter that keeps every element changes nothing. */
  lemma {:induction false} InCategoryAll(ms: seq<Module>, c: Category)
    requires forall k :: 0 <= k < |ms| ==> ms[k].category == c
    ensures InCategory(ms, c) == ms
    decreases |ms|
  {
    if ms != [] {
      InCategoryAll(ms[1..], c);
      assert [ms[0]] + ms[1..] == ms;
    }
  }

  /** A filter that keeps no element leaves nothing. */
  lemma {:induction false} InCategoryNone(ms: seq<Module>, d: Category)
    requires forall k :: 0 <= k < |ms| ==> ms[k].category != d
    ensures InCategory(ms, d) == []
    decreases |ms|
  {
    if ms != [] {
      InCategoryNone(ms[1..], d);
    }
  }

  /** The three categories share out the modules. */
  lemma {:induction false} InCategoryShare(modules: seq<Module>)
    ensures multiset(InCategory(modules, Understanding)) + multiset(InCategory(modules, Triggers))
            + multiset(InCategory(modules, Coping)) == multiset(modules)
    decreases |modules|
  {
    if modules != [] {
      var m, rest := modules[0], modules[1..];
      InCategoryShare(rest);
      InCategoryStep(modules, Understanding);
      InCategoryStep(modules, Triggers);
      InCategoryStep(modules, Coping);
      OneOfThree(m, m.category);
      HeadMultiset(modules);
      ShareCombine(m, multiset(InCategory(rest, Understanding)), multiset(InCategory(rest, Triggers)),
                   multiset(InCategory(rest, Coping)),
                   if m.category == Understanding then multiset{m} else multiset{},
                   if m.category == Triggers then multiset{m} else multiset{},
                   if m.category == Coping then multiset{m} else multiset{},
                   multiset(InCategory(modules, Understanding)), multiset(InCategory(modules, Triggers)),
                   multiset(InCategory(modules, Coping)), multiset(rest), multiset(modules));
    }
  }

  /** One step of a category filter, counted. */
  lemma InCategoryStep(modules: seq<Module>, c: Category)
    requires modules != []
    ensures multiset(InCategory(modules, c)) ==
      (if modules[0].category == c then multiset{modules[0]} else multiset{}) + multiset(InCategory(modules[1..], c))
  {
    if modules[0].category == c {
      ConsMultiset(modules[0], InCategory(modules[1..], c));
    } else {
      assert InCategory(modules, c) == InCategory(modules[1..], c);
    }
  }

  /** A module falls into exactly one category. */
  lemma OneOfThree(m: Module, c: Category)
    ensures (if c == Understanding then multiset{m} else multiset{}) + (if c == Triggers then multiset{m} else multiset{})
            + (if c == Coping then multiset{m} else multiset{}) == multiset{m}
  {
  }

  /** Adding one element to one of three parts adds it to their union. */
  lemma ShareCombine<T>(x: T, a: multiset<T>, b: multiset<T>, c: multiset<T>,
                        ea: multiset<T>, eb: multiset<T>, ec: multiset<T>,
                        a2: multiset<T>, b2: multiset<T>, c2: multiset<T>, rest: multiset<T>, all: multiset<T>)
    requires ea + eb + ec == multiset{x}
    requires a2 == ea + a && b2 == eb + b && c2 == ec + c
    requires a + b + c == rest && all == multiset{x} + rest
    ensures a2 + b2 + c2 == all
  {
  }

  lemma HeadMultiset<T>(s: seq<T>)
    requires s != []
    ensures multiset(s) == multiset{s[0]} + multiset(s[1..])
  {
    assert s == [s[0]] + s[1..];
  }

  lemma ConsMultiset<T>(x: T, s: seq<T>)
    ensures multiset([x] + s) == multiset{x} + multiset(s)
  {
  }

  /** In the concatenation of the three category filters, each category
      appears exactly as in the original order. */
  lemma JourneyCategories(modules: seq<Module>)
    ensures var r := InCategory(modules, Understanding) + InCategory(modules, Triggers) + InCategory(modules, Coping);
      forall c :: InCategory(r, c) == InCategory(modules, c)
  {
    var u, t, k := InCategory(modules, Understanding), InCategory(modules, Triggers), InCategory(modules, Coping);
    forall c
      ensures InCategory(u + t + k, c) == InCategory(modules, c)
    {
      InCategoryAppend(u + t, k, c);
      InCategoryAppend(u, t, c);
      InCategoryAgain(modules, Understanding, c);
      InCategoryAgain(modules, Triggers, c);
      InCategoryAgain(modules, Coping, c);
    }
  }

  /** The understanding modules, then the triggers modules, then the coping
      modules are in journey order. */
  lemma JourneyRanks(u: seq<Module>, t: seq<Module>, k: seq<Module>)
    requires forall i :: 0 <= i < |u| ==> u[i].category == Understanding
    requires forall i :: 0 <= i < |t| ==> t[i].category == Triggers
    requires forall i :: 0 <= i < |k| ==> k[i].category == Coping
    ensures var r := u + t + k;
      forall i, j :: 0 <= i < j < |r| ==> Rank(r[i].category) <= Rank(r[j].category)
  {
    var r := u + t + k;
    forall i, j | 0 <= i < j < |r|
      ensures Rank(r[i].category) <= Rank(r[j].category)
    {
      if i < |u| {
        assert r[i] == u[i];
        if j < |u| {
          assert r[j] == u[j];
        } else if j < |u| + |t| {
          assert r[j] == t[j - |u|];
        } else {
          assert r[j] == k[j - |u| - |t|];
        }
      } else if i < |u| + |t| {
        assert r[i] == t[i - |u|];
        if j < |u| + |t| {
          assert r[j] == t[j - |u|];
        } else {
          assert r[j] == k[j - |u| - |t|];
        }
      } else {
        assert r[i] == k[i - |u| - |t|] && r[j] == k[j - |u| - |t|];
      }
    }
  }

  /** The three category filters, concatenated, hold the modules once each,
      in category rank, with each category in its original order. */
  lemma JourneyFacts(modules: seq<Module>)
    ensures var r := InCategory(modules, Understanding) + InCategory(modules, Triggers) + InCategory(modules, Coping);
      && (forall m :: m in r <==> m in modules)
      && multiset(r) == multiset(modules)
      && (forall i, j :: 0 <= i < j < |r| ==> Rank(r[i].category) <= Rank(r[j].category))
      && (forall c :: InCategory(r, c) == InCategory(modules, c))
  {
    var u, t, k := InCategory(modules, Understanding), InCategory(modules, Triggers), InCategory(modules, Coping);
    InCategoryShare(modules);
    assert multiset(u + t + k) == multiset(modules);
    forall m
      ensures m in u + t + k <==> m in modules
    {
      assert m in u + t + k <==> m in multiset(u + t + k);
      assert m in modules <==> m in multiset(modules);
    }
    JourneyCategories(modules);
    JourneyRanks(u, t, k);
  }

  /** `learningJourneyOrder`: understanding, then triggers, then coping. It
      reorders the modules, and within one category keeps their order. */
  function JourneyOrder(modules: seq<Module>): (r: seq<Module>)
    ensures forall m :: m in r <==> m in modules
    ensures multiset(r) == multiset(modules)
    ensures forall i, j :: 0 <= i < j < |r| ==> Rank(r[i].category) <= Rank(r[j].category)
    ensures forall c :: InCategory(r, c) == InCategory(modules, c)
  {
    JourneyFacts(modules);
    InCategory(modules, Understanding) + InCategory(modules, Triggers) + InCategory(modules, Coping)
  }

  predicate InProgress(m: Module, progress: Progress)
  {
    0 < ModulePercentage(m, progress) < 100
  }

  predicate NotStarted(m: Module, progress: Progress)
  {
    ModulePercentage(m, progress) == 0
  }

  function InProgressOf(modules: seq<Module>, progress: Progress): (r: seq<Module>)
    ensures forall m :: m in r <==> m in modules && InProgress(m, progress)
  {
    if modules == [] then []
    else (if InProgress(modules[0], progress) then [modules[0]] else []) + InProgressOf(modules[1..], progress)
  }

  function NotStartedOf(modules: seq<Module>, progress: Progress): (r: seq<Module>)
    ensures forall m :: m in r <==> m in modules && NotStarted(m, progress)
  {
    if modules == [] then []
    else (if NotStarted(modules[0], progress) then [modules[0]] else []) + NotStartedOf(modules[1..], progress)
  }

  /** `continueJourneyModules`: the first three of the in-progress modules
      followed by the untouched ones. */
  function ContinueJourney(modules: seq<Module>, progress: Progress): seq<Module>
  {
    var order := JourneyOrder(modules);
    var candidates := InProgressOf(order, progress) + NotStartedOf(order, progress);
    if |candidates| <= 3 then candidates else candidates[..3]
  }

  /** At most three modules, none finished, every one a module of the app,
      and no untouched module ahead of one in progress. */
  lemma ContinueJourneySpec(modules: seq<Module>, progress: Progress)
    ensures var r := ContinueJourney(modules, progress);
      && |r| <= 3
      && (forall m :: m in r ==> m in modules && (InProgress(m, progress) || NotStarted(m, progress)))
      && (forall i, j :: 0 <= i < j < |r| && InProgress(r[j], progress) ==> InProgress(r[i], progress))
    ensures var r := ContinueJourney(modules, progress);
      var order := JourneyOrder(modules);
      var n := |InProgressOf(order, progress)| + |NotStartedOf(order, progress)|;
      && |r| == (if n <= 3 then n else 3)
      && r == (InProgressOf(order, progress) + NotStartedOf(order, progress))[..|r|]
  {
    var order := JourneyOrder(modules);
    FirstThree(modules, progress, InProgressOf(order, progress), NotStartedOf(order, progress));
  }

  /** Taking at most three of the in-progress modules followed by the
      untouched ones. */
  lemma FirstThree(modules: seq<Module>, progress: Progress, a: seq<Module>, b: seq<Module>)
    requires forall m :: m in a ==> m in modules && InProgress(m, progress)
    requires forall m :: m in b ==> m in modules && NotStarted(m, progress)
    ensures var c := a + b;
      var r := if |c| <= 3 then c else c[..3];
      && |r| <= 3
      && (forall m :: m in r ==> m in modules && (InProgress(m, progress) || NotStarted(m, progress)))
      && (forall i, j :: 0 <= i < j < |r| && InProgress(r[j], progress) ==> InProgress(r[i], progress))
      && |r| == (if |a| + |b| <= 3 then |a| + |b| else 3)
      && r == c[..|r|]
  {
    var c := a + b;
    var r := if |c| <= 3 then c else c[..3];
    assert forall k :: 0 <= k < |r| ==> r[k] == c[k];
    forall m | m in r ensures m in modules && (InProgress(m, progress) || NotStarted(m, progress)) {
      var k :| 0 <= k < |r| && r[k] == m;
      assert c[k] in a || c[k] in b;
    }
    forall k | |a| <= k < |r| ensures NotStarted(r[k], progress) {
      assert c[k] == b[k - |a|] && c[k] in b;
    }
    forall i, j | 0 <= i < j < |r| && InProgress(r[j], progress) ensures InProgress(r[i], progress) {
      assert c[i] == a[i] && c[i] in a;
    }
  }
}
