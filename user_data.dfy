/** Local user data (services/userData.ts): favourites, habits, module
    progress, the persistent user id and the text-to-speech flag, kept in
    `localStorage` under fixed keys. The store is a map from key to what
    was written there: JSON text is represented by the value it encodes,
    so `JSON.stringify` is a constructor and `JSON.parse` a match. */
module UserData {
  import opened Text
  import opened Lists
  import opened Types

  const FavoritesKey := "sollevia_favorites"
  const HabitsKey := "sollevia_habits"
  const UserIdKey := "sollevia_user_id"
  const ProgressKey := "sollevia_progress"
  const TtsEnabledKey := "sollevia_tts_enabled"

  /** What one module's progress records: completed step indices and
      completed sub-module ids. Either list may be missing in stored data. */
  datatype ModuleProgress = ModuleProgress(steps: Option<seq<int>>, subModules: Option<seq<string>>)

  type Progress = map<string, ModuleProgress>

  /** A stored value: plain text, or the JSON text of a list of strings, a
      list of habits or a progress record. */
  datatype Stored = Raw(text: string) | Strings(list: seq<string>) | Habits(habits: seq<Habit>) | ProgressDoc(progress: Progress)

  type Items = map<string, Stored>

  function OrEmpty<T>(o: Option<seq<T>>): seq<T>
  {
    if o.Some? then o.value else []
  }

  // ---- Readers -------------------------------------------------------------

  /** `getFavorites`: the stored list, or `[]` when the key is missing or its
      text does not parse as a list. */
  function FavoritesIn(items: Items): (r: seq<string>)
    ensures FavoritesKey in items && items[FavoritesKey].Strings? ==> r == items[FavoritesKey].list
    ensures !(FavoritesKey in items && items[FavoritesKey].Strings?) ==> r == []
  {
    if FavoritesKey in items && items[FavoritesKey].Strings? then items[FavoritesKey].list else []
  }

  /** `getHabits`, with the same default. */
  function HabitsIn(items: Items): (r: seq<Habit>)
    ensures HabitsKey in items && items[HabitsKey].Habits? ==> r == items[HabitsKey].habits
    ensures !(HabitsKey in items && items[HabitsKey].Habits?) ==> r == []
  {
    if HabitsKey in items && items[HabitsKey].Habits? then items[HabitsKey].habits else []
  }

  /** `getProgress`: the stored record, or `{}`. */
  function ProgressIn(items: Items): (r: Progress)
    ensures ProgressKey in items && items[ProgressKey].ProgressDoc? ==> r == items[ProgressKey].progress
    ensures !(ProgressKey in items && items[ProgressKey].ProgressDoc?) ==> r == map[]
  {
    if ProgressKey in items && items[ProgressKey].ProgressDoc? then items[ProgressKey].progress else map[]
  }

  /** `getTtsEnabled`: the stored text is exactly `"true"`. */
  function TtsEnabledIn(items: Items): (r: bool)
    ensures r <==> TtsEnabledKey in items && items[TtsEnabledKey] == Raw("true")
  {
    TtsEnabledKey in items && items[TtsEnabledKey] == Raw("true")
  }

  /** `enabled.toString()`. */
  function BoolText(b: bool): string
  {
    if b then "true" else "false"
  }

  /** The flag reads back as whatever was last written. */
  lemma TtsRoundTrip(items: Items, enabled: bool)
    ensures TtsEnabledIn(items[TtsEnabledKey := Raw(BoolText(enabled))]) == enabled
  {
  }

  // ---- User id -------------------------------------------------------------

  /** The stored user id, when it is non-empty text. */
  function StoredUserId(items: Items): Option<string>
  {
    if UserIdKey in items && items[UserIdKey].Raw? && items[UserIdKey].text != "" then Some(items[UserIdKey].text) else None
  }

  /** `getUserId`: the stored id, or a new `"user_" + suffix` that is stored.
      `suffix` stands for the random base-36 digits. */
  function UserIdStep(items: Items, suffix: string): (r: (string, Items))
    ensures StoredUserId(items).Some? ==> r == (StoredUserId(items).value, items)
    ensures StoredUserId(items).None? ==> r.0 == "user_" + suffix && r.1 == items[UserIdKey := Raw(r.0)]
  {
    match StoredUserId(items)
    case Some(id) => (id, items)
    case None => var id := "user_" + suffix; (id, items[UserIdKey := Raw(id)])
  }

  /** A second call returns the same id and writes nothing, whatever its random digits. */
  lemma UserIdStable(items: Items, s1: string, s2: string)
    ensures var (id, after) := UserIdStep(items, s1);
      UserIdStep(after, s2) == (id, after)
  {
    var (id, after) := UserIdStep(items, s1);
    assert id != "" by {
      if StoredUserId(items).None? { assert |"user_" + s1| >= 5; }
    }
  }

  // ---- Habits --------------------------------------------------------------

  /** `findIndex(h => h.id === id)`. */
  function FindHabit(habits: seq<Habit>, id: string): (r: Option<nat>)
    ensures r.Some? ==> r.value < |habits| && habits[r.value].id == id
    ensures r.Some? ==> forall j :: 0 <= j < r.value ==> habits[j].id != id
    ensures r.None? ==> forall j :: 0 <= j < |habits| ==> habits[j].id != id
  {
    if habits == [] then None
    else if habits[0].id == id then Some(0)
    else match FindHabit(habits[1..], id)
      case None => None
      case Some(i) => Some(i + 1)
  }

  /** `saveHabit`: replace the first habit with the same id in place, or append. */
  function UpsertHabit(habits: seq<Habit>, habit: Habit): (r: seq<Habit>)
  {
    match FindHabit(habits, habit.id)
    case Some(i) => habits[i := habit]
    case None => habits + [habit]
  }

  /** The upsert keeps the length when the id is present and grows it by one
      otherwise; the saved habit is in the result and every other position
      is untouched. */
  lemma UpsertSpec(habits: seq<Habit>, habit: Habit)
    ensures var r := UpsertHabit(habits, habit);
      && habit in r
      && ((exists j :: 0 <= j < |habits| && habits[j].id == habit.id) ==> |r| == |habits|)
      && ((forall j :: 0 <= j < |habits| ==> habits[j].id != habit.id) ==> r == habits + [habit])
      && (forall j :: 0 <= j < |habits| && habits[j].id != habit.id ==> r[j] == habits[j])
  {
    var r := UpsertHabit(habits, habit);
    match FindHabit(habits, habit.id)
    case Some(i) => assert r[i] == habit;
    case None => assert r[|habits|] == habit;
  }

  /** Saving the same habit twice is the same as saving it once. */
  lemma UpsertIdempotent(habits: seq<Habit>, habit: Habit)
    ensures UpsertHabit(UpsertHabit(habits, habit), habit) == UpsertHabit(habits, habit)
  {
    var r := UpsertHabit(habits, habit);
    match FindHabit(habits, habit.id)
    case Some(i) =>
      assert FindHabit(r, habit.id) == Some(i) by {
        FindAfterReplace(habits, i, habit);
      }
    case None =>
      FindAppended(habits, habit);
  }

  lemma {:induction false} FindAfterReplace(habits: seq<Habit>, i: nat, habit: Habit)
    requires FindHabit(habits, habit.id) == Some(i)
    ensures FindHabit(habits[i := habit], habit.id) == Some(i)
  {
    if i > 0 {
      assert habits[i := habit][1..] == habits[1..][i - 1 := habit];
      FindAfterReplace(habits[1..], i - 1, habit);
    }
  }

  lemma {:induction false} FindAppended(habits: seq<Habit>, habit: Habit)
    requires FindHabit(habits, habit.id).None?
    ensures FindHabit(habits + [habit], habit.id) == Some(|habits|)
  {
    if habits != [] {
      assert (habits + [habit])[1..] == habits[1..] + [habit];
      FindAppended(habits[1..], habit);
    }
  }

  /** `deleteHabit`: `habits.filter(h => h.id !== id)`. */
  function DeleteHabit(habits: seq<Habit>, id: string): (r: seq<Habit>)
    ensures forall h :: h in r <==> h in habits && h.id != id
    ensures |r| <= |habits|
  {
    if habits == [] then [] else (if habits[0].id == id then [] else [habits[0]]) + DeleteHabit(habits[1..], id)
  }

  /** Deleting distributes over concatenation: the kept habits stay in order. */
  lemma {:induction false} DeleteAppend(a: seq<Habit>, b: seq<Habit>, id: string)
    ensures DeleteHabit(a + b, id) == DeleteHabit(a, id) + DeleteHabit(b, id)
  {
    if a == [] {
      assert a + b == b;
    } else {
      assert (a + b)[1..] == a[1..] + b;
      DeleteAppend(a[1..], b, id);
    }
  }

  /** Deleting an id that no habit has changes nothing. */
  lemma {:induction false} DeleteAbsent(habits: seq<Habit>, id: string)
    requires forall j :: 0 <= j < |habits| ==> habits[j].id != id
    ensures DeleteHabit(habits, id) == habits
  {
    if habits != [] {
      DeleteAbsent(habits[1..], id);
    }
  }

  /** Deleting after saving forgets the save: the result is as if the habit
      had been deleted from the original list. */
  lemma {:induction false} DeleteAfterUpsert(habits: seq<Habit>, habit: Habit)
    ensures DeleteHabit(UpsertHabit(habits, habit), habit.id) == DeleteHabit(habits, habit.id)
  {
    if habits == [] {
      assert DeleteHabit([habit], habit.id) == [] + DeleteHabit([], habit.id);
    } else if habits[0].id != habit.id {
      var t := habits[1..];
      DeleteAfterUpsert(t, habit);
      UpsertCons(habits, habit);
      assert UpsertHabit(habits, habit)[1..] == UpsertHabit(t, habit);
    } else {
      assert UpsertHabit(habits, habit)[1..] == habits[1..];
    }
  }

  lemma UpsertCons(habits: seq<Habit>, habit: Habit)
    requires habits != [] && habits[0].id != habit.id
    ensures UpsertHabit(habits, habit) == [habits[0]] + UpsertHabit(habits[1..], habit)
  {
    var t := habits[1..];
    match FindHabit(t, habit.id)
    case Some(i) =>
      assert habits[i + 1 := habit] == [habits[0]] + t[i := habit];
    case None =>
      assert habits + [habit] == [habits[0]] + (t + [habit]);
  }

  /** The completed dates of a habit, `[]` when missing. */
  function Dates(h: Habit): seq<string>
  {
    OrEmpty(h.completedDates)
  }

  /** `toggleHabitCompletion`: flip `date` in the completed dates of every
      habit with the id; all other habits are returned unchanged. */
  function ToggleCompletion(habits: seq<Habit>, id: string, date: string): (r: seq<Habit>)
    ensures |r| == |habits|
    ensures forall i :: 0 <= i < |habits| && habits[i].id != id ==> r[i] == habits[i]
    ensures forall i :: 0 <= i < |habits| && habits[i].id == id ==>
      r[i] == habits[i].(completedDates := Some(Toggle(Dates(habits[i]), date)))
  {
    seq(|habits|, i requires 0 <= i < |habits| =>
      if habits[i].id == id then habits[i].(completedDates := Some(Toggle(Dates(habits[i]), date))) else habits[i])
  }

  /** For the habits with the id, `date` is completed afterwards exactly when it
      was not before; nothing but `completedDates` changes. */
  lemma ToggleCompletionFlips(habits: seq<Habit>, id: string, date: string, i: nat)
    requires i < |habits| && habits[i].id == id
    ensures var h := ToggleCompletion(habits, id, date)[i];
      (date in Dates(h) <==> date !in Dates(habits[i]))
      && h.(completedDates := habits[i].completedDates) == habits[i]
  {
  }

  /** Toggling the same date twice restores habits whose date list was
      stored and did not hold the date. */
  lemma ToggleCompletionTwice(habits: seq<Habit>, id: string, date: string)
    requires forall i :: 0 <= i < |habits| && habits[i].id == id ==>
      habits[i].completedDates.Some? && date !in habits[i].completedDates.value
    ensures ToggleCompletion(ToggleCompletion(habits, id, date), id, date) == habits
  {
    var once := ToggleCompletion(habits, id, date);
    var twice := ToggleCompletion(once, id, date);
    forall i | 0 <= i < |habits| ensures twice[i] == habits[i] {
      if habits[i].id == id {
        ToggleTwiceAbsent(habits[i].completedDates.value, date);
      }
    }
  }

  // ---- Progress ------------------------------------------------------------

  /** The entry `saveProgress` works on: the stored one, or a fresh empty one. */
  function Entry(p: Progress, moduleId: string): ModuleProgress
  {
    if moduleId in p then p[moduleId] else ModuleProgress(Some([]), Some([]))
  }

  /** Append `x` unless it is already there (`includes` then `push`). */
  function AddOnce<T(==,!new)>(s: seq<T>, x: T): (r: seq<T>)
    ensures x in r && (forall y :: y in r <==> y in s || y == x)
  {
    if x in s then s else s + [x]
  }

  /** What `saveProgress` records: the sub-module id when one is given (and
      non-empty), the step index otherwise, each at most once. */
  function RecordProgress(p: Progress, moduleId: string, stepIndex: int, subModuleId: Option<string>): (r: Progress)
    ensures r.Keys == p.Keys + {moduleId}
  {
    var e := Entry(p, moduleId);
    if Truthy(subModuleId) then p[moduleId := e.(subModules := Some(AddOnce(OrEmpty(e.subModules), subModuleId.value)))]
    else p[moduleId := e.(steps := Some(AddOnce(OrEmpty(e.steps), stepIndex)))]
  }

  /** Only the module's entry changes, and only the list the call is about;
      the recorded value is in that list afterwards. */
  lemma RecordProgressSpec(p: Progress, moduleId: string, stepIndex: int, subModuleId: Option<string>)
    ensures var r := RecordProgress(p, moduleId, stepIndex, subModuleId);
      var e := Entry(p, moduleId);
      && (forall m :: m in p && m != moduleId ==> r[m] == p[m])
      && (Truthy(subModuleId) ==> r[moduleId].steps == e.steps && r[moduleId].subModules.Some?
                                  && subModuleId.value in r[moduleId].subModules.value)
      && (!Truthy(subModuleId) ==> r[moduleId].subModules == e.subModules && r[moduleId].steps.Some?
                                   && stepIndex in r[moduleId].steps.value)
  {
  }

  /** Recording the same completion twice changes nothing the second time. */
  lemma RecordProgressIdempotent(p: Progress, moduleId: string, stepIndex: int, subModuleId: Option<string>)
    ensures var r := RecordProgress(p, moduleId, stepIndex, subModuleId);
      RecordProgress(r, moduleId, stepIndex, subModuleId) == r
  {
    var r := RecordProgress(p, moduleId, stepIndex, subModuleId);
    assert moduleId in r;
    var e := r[moduleId];
    if Truthy(subModuleId) {
      assert e.subModules.Some? && subModuleId.value in e.subModules.value;
      assert r[moduleId := e] == r;
    } else {
      assert e.steps.Some? && stepIndex in e.steps.value;
      assert r[moduleId := e] == r;
    }
  }

  predicate NoDupsIn(p: Progress)
  {
    forall m :: m in p ==> NoDups(OrEmpty(p[m].steps)) && NoDups(OrEmpty(p[m].subModules))
  }

  lemma AddOnceNoDups<T(!new)>(s: seq<T>, x: T)
    requires NoDups(s)
    ensures NoDups(AddOnce(s, x))
  {
  }

  /** Recording never creates a duplicate. */
  lemma RecordProgressNoDups(p: Progress, moduleId: string, stepIndex: int, subModuleId: Option<string>)
    requires NoDupsIn(p)
    ensures NoDupsIn(RecordProgress(p, moduleId, stepIndex, subModuleId))
  {
    var e := Entry(p, moduleId);
    if Truthy(subModuleId) {
      AddOnceNoDups(OrEmpty(e.subModules), subModuleId.value);
    } else {
      AddOnceNoDups(OrEmpty(e.steps), stepIndex);
    }
  }

  // ---- The store -----------------------------------------------------------

  /** `localStorage` as seen by the service. */
  class Storage {
    var items: Items

    constructor(items0: Items)
      ensures items == items0
    {
      items := items0;
    }

    /** `getUserId`. */
    method GetUserId(suffix: string) returns (id: string)
      modifies this
      ensures (id, items) == UserIdStep(old(items), suffix)
    {
      if UserIdKey in items && items[UserIdKey].Raw? && items[UserIdKey].text != "" {
        id := items[UserIdKey].text;
      } else {
        id := "user_" + suffix;
        items := items[UserIdKey := Raw(id)];
      }
    }

    /** `toggleFavorite`: toggle the id and write the list back. */
    method ToggleFavorite(id: string) returns (r: seq<string>)
      modifies this
      ensures r == Toggle(FavoritesIn(old(items)), id)
      ensures items == old(items)[FavoritesKey := Strings(r)]
    {
      var favorites := FavoritesIn(items);
      if id !in favorites {
        r := favorites + [id];
      } else {
        r := RemoveAll(favorites, id);
      }
      items := items[FavoritesKey := Strings(r)];
    }

    /** `saveHabit`. */
    method SaveHabit(habit: Habit) returns (r: seq<Habit>)
      modifies this
      ensures r == UpsertHabit(HabitsIn(old(items)), habit)
      ensures items == old(items)[HabitsKey := Habits(r)]
    {
      var habits := HabitsIn(items);
      var index := FindHabit(habits, habit.id);
      if index.Some? {
        r := habits[index.value := habit];
      } else {
        r := habits + [habit];
      }
      items := items[HabitsKey := Habits(r)];
    }

    /** `deleteHabit`. */
    method DeleteHabitById(id: string) returns (r: seq<Habit>)
      modifies this
      ensures r == DeleteHabit(HabitsIn(old(items)), id)
      ensures items == old(items)[HabitsKey := Habits(r)]
    {
      r := DeleteHabit(HabitsIn(items), id);
      items := items[HabitsKey := Habits(r)];
    }

    /** `toggleHabitCompletion`. */
    method ToggleHabitCompletion(id: string, date: string) returns (r: seq<Habit>)
      modifies this
      ensures r == ToggleCompletion(HabitsIn(old(items)), id, date)
      ensures items == old(items)[HabitsKey := Habits(r)]
    {
      r := ToggleCompletion(HabitsIn(items), id, date);
      items := items[HabitsKey := Habits(r)];
    }

    /** `setTtsEnabled`. */
    method SetTtsEnabled(enabled: bool)
      modifies this
      ensures items == old(items)[TtsEnabledKey := Raw(BoolText(enabled))]
      ensures TtsEnabledIn(items) == enabled
    {
      items := items[TtsEnabledKey := Raw(BoolText(enabled))];
    }

    /** `saveProgress`: the parsed record is updated in place and written back. */
    method SaveProgress(moduleId: string, stepIndex: int, subModuleId: Option<string>) returns (r: Progress)
      modifies this
      ensures r == RecordProgress(ProgressIn(old(items)), moduleId, stepIndex, subModuleId)
      ensures items == old(items)[ProgressKey := ProgressDoc(r)]
    {
      var progress := ProgressIn(items);
      if moduleId !in progress {
        progress := progress[moduleId := ModuleProgress(Some([]), Some([]))];
      }
      var entry := progress[moduleId];
      if subModuleId.Some? && subModuleId.value != "" {
        var subModules := if entry.subModules.Some? then entry.subModules.value else [];
        if subModuleId.value !in subModules {
          subModules := subModules + [subModuleId.value];
        }
        progress := progress[moduleId := entry.(subModules := Some(subModules))];
      } else {
        var steps := if entry.steps.Some? then entry.steps.value else [];
        if stepIndex !in steps {
          steps := steps + [stepIndex];
        }
        progress := progress[moduleId := entry.(steps := Some(steps))];
      }
      items := items[ProgressKey := ProgressDoc(progress)];
      r := progress;
    }
  }
}
