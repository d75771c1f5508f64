/** The dashboard's state logic: generating a schedule from the task text,
    drawing a new quote, ticking tasks off and changing settings. Each
    handler updates the component state and writes the same value through
    to storage. */
module Dashboard {
  import opened Types
  import opened Text
  import AiService
  import Storage

  // ---------------------------------------------------------------------------
  // Completed-task ids

  /** `ids.filter(x => x !== id)`. */
  function Without(ids: seq<string>, id: string): (r: seq<string>)
    ensures |r| <= |ids|
  {
    if ids == [] then []
    else (if ids[0] == id then [] else [ids[0]]) + Without(ids[1..], id)
  }

  /** The new completed list of `toggleTaskCompletion`: an id already in the
      list is removed, any other id is appended. */
  function Toggled(ids: seq<string>, id: string): seq<string> {
    if id in ids then Without(ids, id) else ids + [id]
  }

  /** Filtering removes every occurrence of `id` and keeps every other id. */
  lemma {:induction false} WithoutMembers(ids: seq<string>, id: string, x: string)
    ensures x in Without(ids, id) <==> x in ids && x != id
  {
    if ids != [] {
      WithoutMembers(ids[1..], id, x);
      assert ids == [ids[0]] + ids[1..];
    }
  }

  /** Filtering keeps the relative order of the remaining ids: it distributes
      over concatenation. */
  lemma {:induction false} WithoutConcat(a: seq<string>, b: seq<string>, id: string)
    ensures Without(a + b, id) == Without(a, id) + Without(b, id)
  {
    if a == [] {
      assert a + b == b;
    } else {
      assert (a + b)[1..] == a[1..] + b;
      WithoutConcat(a[1..], b, id);
    }
  }

  /** Filtering out an id that is not there changes nothing. */
  lemma {:induction false} WithoutAbsent(ids: seq<string>, id: string)
    requires id !in ids
    ensures Without(ids, id) == ids
  {
    if ids != [] {
      assert id !in ids[1..];
      WithoutAbsent(ids[1..], id);
    }
  }

  /** After a toggle the id is listed exactly when it was not listed before,
      and every other id is listed exactly as before. */
  lemma ToggledMembers(ids: seq<string>, id: string, x: string)
    ensures id in Toggled(ids, id) <==> id !in ids
    ensures x != id ==> (x in Toggled(ids, id) <==> x in ids)
  {
    WithoutMembers(ids, id, id);
    WithoutMembers(ids, id, x);
  }

  /** Ticking a task off and then on again restores the list. */
  lemma ToggleTwiceAbsent(ids: seq<string>, id: string)
    requires id !in ids
    ensures Toggled(Toggled(ids, id), id) == ids
  {
    WithoutConcat(ids, [id], id);
    WithoutAbsent(ids, id);
    assert Without([id], id) == [];
  }

  /** Unticking a task and ticking it again moves it to the end of the list,
      keeping every other id in order. */
  lemma ToggleTwicePresent(ids: seq<string>, id: string)
    requires id in ids
    ensures Toggled(Toggled(ids, id), id) == Without(ids, id) + [id]
  {
    WithoutMembers(ids, id, id);
  }

  // ---------------------------------------------------------------------------
  // Settings updates

  /** A `Partial<Settings>`: `None` for a field the caller leaves out. */
  datatype SettingsPatch = SettingsPatch(
    emailReminders: Option<bool>, preferredStartTime: Option<string>, focusMode: Option<FocusMode>)

  const NoChange: SettingsPatch := SettingsPatch(None, None, None)

  function Override<T>(current: T, supplied: Option<T>): T {
    if supplied.Some? then supplied.value else current
  }

  /** `{ ...settings, ...patch }`: a supplied field wins, an omitted one is kept. */
  function Merge(s: Settings, p: SettingsPatch): Settings {
    Settings(Override(s.emailReminders, p.emailReminders),
             Override(s.preferredStartTime, p.preferredStartTime),
             Override(s.focusMode, p.focusMode))
  }

  /** `{ ...p, ...q }` on two patches. */
  function Then(p: SettingsPatch, q: SettingsPatch): SettingsPatch {
    SettingsPatch(if q.emailReminders.Some? then q.emailReminders else p.emailReminders,
                  if q.preferredStartTime.Some? then q.preferredStartTime else p.preferredStartTime,
                  if q.focusMode.Some? then q.focusMode else p.focusMode)
  }

  /** Every supplied field overrides, every omitted field keeps its value. */
  lemma MergeFields(s: Settings, p: SettingsPatch)
    ensures p.emailReminders.Some? ==> Merge(s, p).emailReminders == p.emailReminders.value
    ensures p.emailReminders.None? ==> Merge(s, p).emailReminders == s.emailReminders
    ensures p.preferredStartTime.Some? ==> Merge(s, p).preferredStartTime == p.preferredStartTime.value
    ensures p.preferredStartTime.None? ==> Merge(s, p).preferredStartTime == s.preferredStartTime
    ensures p.focusMode.Some? ==> Merge(s, p).focusMode == p.focusMode.value
    ensures p.focusMode.None? ==> Merge(s, p).focusMode == s.focusMode
  {
  }

  /** An empty update changes nothing, and applying an update twice is the
      same as applying it once. */
  lemma MergeIdentityIdempotent(s: Settings, p: SettingsPatch)
    ensures Merge(s, NoChange) == s
    ensures Merge(Merge(s, p), p) == Merge(s, p)
  {
  }

  /** Two updates in a row act as their combined spread. */
  lemma MergeThen(s: Settings, p: SettingsPatch, q: SettingsPatch)
    ensures Merge(Merge(s, p), q) == Merge(s, Then(p, q))
  {
  }

  /** `{ ...schedule, quote }`: only the quote changes. */
  function WithQuote(s: Schedule, quote: string): (r: Schedule)
    ensures r.date == s.date && r.tasks == s.tasks && r.quote == quote
  {
    s.(quote := quote)
  }

  // ---------------------------------------------------------------------------
  // The component

  /** The state of the `Dashboard` component, over the store it writes to. */
  class DashboardState {
    const store: Storage.Store
    var tasks: string
    var settings: Settings
    var schedule: Option<Schedule>
    var completedTasks: seq<string>
    var currentQuote: string

    /** The settings, schedule and completed list shown are the stored ones. */
    ghost predicate Valid()
      reads this, store
    {
      && store.Valid()
      && settings == store.GetSettings()
      && schedule == store.GetSchedule()
      && completedTasks == store.GetCompletedTasks()
    }

    /** Mounting: the state is read from storage, and the stored schedule's
        quote is shown when that schedule is from `today`. */
    constructor (store: Storage.Store, today: string)
      requires store.Valid()
      ensures Valid() && this.store == store && tasks == []
      ensures settings == store.GetSettings() && schedule == store.GetSchedule()
      ensures completedTasks == store.GetCompletedTasks()
      ensures currentQuote == if schedule.Some? && schedule.value.date == today then schedule.value.quote else []
    {
      this.store := store;
      tasks := [];
      settings := store.GetSettings();
      schedule := store.GetSchedule();
      completedTasks := store.GetCompletedTasks();
      currentQuote := [];
      var storedSchedule := store.GetSchedule();
      if storedSchedule.Some? && storedSchedule.value.date == today {
        schedule := storedSchedule;
        currentQuote := storedSchedule.value.quote;
      }
    }

    /** Typing in the task box. */
    method SetTasks(text: string)
      modifies this`tasks
      ensures tasks == text
    {
      tasks := text;
    }

    /** `generateSchedule`: blank text does nothing; otherwise the generated
        tasks and quote become today's schedule, in the state and in storage,
        and the quote is shown. Text that is not blank gives at least one task.
        The start time comes from the time input and is "HH:MM". */
    method GenerateSchedule(today: string, now: nat -> nat, quoteIndex: nat)
      requires Valid() && quoteIndex < 10
      requires AiService.IsTimeString(settings.preferredStartTime)
      modifies this, store
      ensures Valid()
      ensures tasks == old(tasks) && settings == old(settings) && completedTasks == old(completedTasks)
      ensures store.GetUser() == old(store.GetUser())
      ensures Trim(tasks) == [] ==> unchanged(this) && unchanged(store)
      ensures Trim(tasks) != [] ==>
        var s := Schedule(today,
                          AiService.Plan(AiService.NonBlankLines(tasks),
                                         AiService.ParseTime(settings.preferredStartTime),
                                         settings.focusMode, now),
                          AiService.Quotes[quoteIndex]);
        && schedule == Some(s) && store.GetSchedule() == Some(s) && currentQuote == s.quote
        && s.tasks != []
        && store.items == old(store.items)[Storage.ScheduleKey := Storage.ScheduleEntry(s)]
      ensures Storage.KeepsOtherKeys(old(store.items), store.items)
    {
      if Trim(tasks) == [] {
        return;
      }
      var generated, quote := AiService.GenerateSchedule(tasks, settings.preferredStartTime,
                                                         settings.focusMode, now, quoteIndex);
      var newSchedule := Schedule(today, generated, quote);
      schedule := Some(newSchedule);
      currentQuote := quote;
      store.SetSchedule(newSchedule);
      AiService.NonBlankTextHasLines(tasks);
    }

    /** `generateNewQuote`: the new quote is shown, and an existing schedule
        gets it in place of its old quote, in the state and in storage;
        with no schedule nothing is written. */
    method GenerateNewQuote(quoteIndex: nat)
      requires Valid() && quoteIndex < 10
      modifies this, store
      ensures Valid() && currentQuote == AiService.Quotes[quoteIndex]
      ensures old(schedule).None? ==> schedule.None? && unchanged(store)
      ensures old(schedule).Some? ==>
        && schedule == Some(WithQuote(old(schedule).value, currentQuote))
        && store.GetSchedule() == schedule
        && store.items == old(store.items)[Storage.ScheduleKey := Storage.ScheduleEntry(schedule.value)]
      ensures tasks == old(tasks) && settings == old(settings) && completedTasks == old(completedTasks)
      ensures store.GetUser() == old(store.GetUser())
      ensures Storage.KeepsOtherKeys(old(store.items), store.items)
    {
      var newQuote := AiService.GenerateMotivationalQuote(quoteIndex);
      currentQuote := newQuote;
      if schedule.Some? {
        var updatedSchedule := WithQuote(schedule.value, newQuote);
        schedule := Some(updatedSchedule);
        store.SetSchedule(updatedSchedule);
      }
    }

    /** `toggleTaskCompletion`: the completed list is toggled at `taskId`, in
        the state and in storage. */
    method ToggleTaskCompletion(taskId: string)
      requires Valid()
      modifies this, store
      ensures Valid()
      ensures completedTasks == Toggled(old(completedTasks), taskId)
      ensures store.GetCompletedTasks() == completedTasks
      ensures store.items == old(store.items)[Storage.CompletedTasksKey := Storage.CompletedEntry(completedTasks)]
      ensures tasks == old(tasks) && settings == old(settings) && schedule == old(schedule)
      ensures currentQuote == old(currentQuote) && store.GetUser() == old(store.GetUser())
      ensures Storage.KeepsOtherKeys(old(store.items), store.items)
    {
      var newCompletedTasks := Toggled(completedTasks, taskId);
      completedTasks := newCompletedTasks;
      store.SetCompletedTasks(newCompletedTasks);
    }

    /** `updateSettings`: the patch is spread over the settings, in the state
        and in storage. */
    method UpdateSettings(patch: SettingsPatch)
      requires Valid()
      modifies this, store
      ensures Valid()
      ensures settings == Merge(old(settings), patch) && store.GetSettings() == settings
      ensures store.items == old(store.items)[Storage.SettingsKey := Storage.SettingsEntry(settings)]
      ensures tasks == old(tasks) && schedule == old(schedule) && completedTasks == old(completedTasks)
      ensures currentQuote == old(currentQuote) && store.GetUser() == old(store.GetUser())
      ensures Storage.KeepsOtherKeys(old(store.items), store.items)
    {
      var updatedSettings := Merge(settings, patch);
      settings := updatedSettings;
      store.SetSettings(updatedSettings);
    }
  }
}
