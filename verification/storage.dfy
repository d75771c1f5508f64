/** The browser-storage layer: four records kept under fixed keys, each read
    back with a default when it is missing. The browser's `localStorage` is
    a map from key to entry, and JSON encoding is the identity. */
module Storage {
  import opened Types
  import opened Text
  import AiService

  /** What a key holds once `JSON.parse` has read it back. */
  datatype Entry =
    | UserEntry(user: User)
    | ScheduleEntry(schedule: Schedule)
    | SettingsEntry(settings: Settings)
    | CompletedEntry(ids: seq<string>)

  const UserKey: string := "task_scheduler_user"
  const ScheduleKey: string := "task_scheduler_schedule"
  const SettingsKey: string := "task_scheduler_settings"
  const CompletedTasksKey: string := "task_scheduler_completed_tasks"

  /** `Object.values(STORAGE_KEYS)`, in declaration order. */
  const StorageKeys: seq<string> := [UserKey, ScheduleKey, SettingsKey, CompletedTasksKey]

  /** The four keys are pairwise distinct, so writing one record cannot
      disturb another. */
  lemma KeysDistinct()
    ensures forall i, j :: 0 <= i < j < |StorageKeys| ==> StorageKeys[i] != StorageKeys[j]
  {
    assert StorageKeys[0][15] == 'u' && StorageKeys[3][15] == 'c';
    assert StorageKeys[1][15] == 's' && StorageKeys[2][15] == 's';
    assert StorageKeys[1][16] == 'c' && StorageKeys[2][16] == 'e';
  }

  /** What `getSettings` returns when nothing is stored. */
  const DefaultSettings: Settings := Settings(false, "08:00", Normal)

  /** The default start time is one `parseTime` can read: 8 o'clock. */
  lemma DefaultStartTime()
    ensures AiService.IsTimeString(DefaultSettings.preferredStartTime)
    ensures AiService.ParseTime(DefaultSettings.preferredStartTime) == 480
  {
    assert DefaultSettings.preferredStartTime == "08" + ":" + "00";
    AiService.ParseTimeOf("08", "00");
    assert DigitsValue("08") == 8 by {
      assert "08"[..1] == "0" && "0"[..0] == [];
    }
    assert DigitsValue("00") == 0 by {
      assert "00"[..1] == "0" && "0"[..0] == [];
    }
  }

  /** Each of the four keys, when present, holds the kind of record written
      under it. */
  ghost predicate WellTyped(items: map<string, Entry>) {
    && (UserKey in items ==> items[UserKey].UserEntry?)
    && (ScheduleKey in items ==> items[ScheduleKey].ScheduleEntry?)
    && (SettingsKey in items ==> items[SettingsKey].SettingsEntry?)
    && (CompletedTasksKey in items ==> items[CompletedTasksKey].CompletedEntry?)
  }

  /** Going from `before` to `after` leaves every key outside the four
      storage keys as it was: other applications' data survives. */
  ghost predicate KeepsOtherKeys(before: map<string, Entry>, after: map<string, Entry>) {
    forall k :: k !in StorageKeys ==> (k in after <==> k in before) && (k in after ==> after[k] == before[k])
  }

  /** The `storage` object over the browser's key-value store. */
  class Store {
    /** `localStorage`: it may also hold keys of other applications. */
    var items: map<string, Entry>

    ghost predicate Valid()
      reads this
    {
      WellTyped(items)
    }

    /** A store holding whatever an earlier session left behind. */
    constructor (initial: map<string, Entry>)
      requires WellTyped(initial)
      ensures Valid() && items == initial
    {
      items := initial;
    }

    /** `getUser`: the stored user, or null when there is none. */
    function GetUser(): (r: Option<User>)
      reads this
      requires Valid()
      ensures r.None? <==> UserKey !in items
      ensures r.Some? ==> items[UserKey] == UserEntry(r.value)
    {
      if UserKey in items then Some(items[UserKey].user) else None
    }

    /** `getSchedule`: the stored schedule, or null when there is none. */
    function GetSchedule(): (r: Option<Schedule>)
      reads this
      requires Valid()
      ensures r.None? <==> ScheduleKey !in items
      ensures r.Some? ==> items[ScheduleKey] == ScheduleEntry(r.value)
    {
      if ScheduleKey in items then Some(items[ScheduleKey].schedule) else None
    }

    /** `getSettings`: the stored settings, or the defaults (no email
        reminders, start at "08:00", normal focus) when there are none. */
    function GetSettings(): (r: Settings)
      reads this
      requires Valid()
      ensures SettingsKey !in items ==> r == DefaultSettings
      ensures SettingsKey in items ==> items[SettingsKey] == SettingsEntry(r)
    {
      if SettingsKey in items then items[SettingsKey].settings else DefaultSettings
    }

    /** `getCompletedTasks`: the stored ids, or the empty list when there are none. */
    function GetCompletedTasks(): (r: seq<string>)
      reads this
      requires Valid()
      ensures CompletedTasksKey !in items ==> r == []
      ensures CompletedTasksKey in items ==> items[CompletedTasksKey] == CompletedEntry(r)
    {
      if CompletedTasksKey in items then items[CompletedTasksKey].ids else []
    }

    /** `setUser`: `getUser` now returns `user`; the other records stay as they were. */
    method SetUser(user: User)
      requires Valid()
      modifies this
      ensures Valid() && items == old(items)[UserKey := UserEntry(user)]
      ensures GetUser() == Some(user)
      ensures GetSchedule() == old(GetSchedule()) && GetSettings() == old(GetSettings())
      ensures GetCompletedTasks() == old(GetCompletedTasks())
    {
      items := items[UserKey := UserEntry(user)];
    }

    /** `setSchedule`: `getSchedule` now returns `schedule`; the other records stay as they were. */
    method SetSchedule(schedule: Schedule)
      requires Valid()
      modifies this
      ensures Valid() && items == old(items)[ScheduleKey := ScheduleEntry(schedule)]
      ensures GetSchedule() == Some(schedule)
      ensures GetUser() == old(GetUser()) && GetSettings() == old(GetSettings())
      ensures GetCompletedTasks() == old(GetCompletedTasks())
    {
      items := items[ScheduleKey := ScheduleEntry(schedule)];
    }

    /** `setSettings`: `getSettings` now returns `settings`; the other records stay as they were. */
    method SetSettings(settings: Settings)
      requires Valid()
      modifies this
      ensures Valid() && items == old(items)[SettingsKey := SettingsEntry(settings)]
      ensures GetSettings() == settings
      ensures GetUser() == old(GetUser()) && GetSchedule() == old(GetSchedule())
      ensures GetCompletedTasks() == old(GetCompletedTasks())
    {
      items := items[SettingsKey := SettingsEntry(settings)];
    }

    /** `setCompletedTasks`: `getCompletedTasks` now returns `taskIds`; the
        other records stay as they were. */
    method SetCompletedTasks(taskIds: seq<string>)
      requires Valid()
      modifies this
      ensures Valid() && items == old(items)[CompletedTasksKey := CompletedEntry(taskIds)]
      ensures GetCompletedTasks() == taskIds
      ensures GetUser() == old(GetUser()) && GetSchedule() == old(GetSchedule())
      ensures GetSettings() == old(GetSettings())
    {
      items := items[CompletedTasksKey := CompletedEntry(taskIds)];
    }

    /** `clearAll`: removes the four keys one by one, and nothing else; every
        getter then returns its default. */
    method ClearAll()
      requires Valid()
      modifies this
      ensures Valid() && items == old(items) - {UserKey, ScheduleKey, SettingsKey, CompletedTasksKey}
      ensures GetUser() == None && GetSchedule() == None
      ensures GetSettings() == DefaultSettings && GetCompletedTasks() == []
    {
      for i := 0 to |StorageKeys|
        invariant items == old(items) - set k | k in StorageKeys[..i]
      {
        items := items - {StorageKeys[i]};
        assert StorageKeys[..i + 1] == StorageKeys[..i] + [StorageKeys[i]];
      }
      assert StorageKeys[..|StorageKeys|] == StorageKeys;
    }
  }
}
