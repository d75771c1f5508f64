/** The records the application passes around and stores. */
module Types {

  datatype Option<T> = None | Some(value: T)

  datatype Priority = High | Medium | Low

  datatype FocusMode = Normal | Pomodoro

  datatype User = User(firstName: string, surname: string, email: string)

  /** One time block; `timeStart` and `timeEnd` are "HH:MM" strings. */
  datatype Task = Task(id: string, title: string, timeStart: string, timeEnd: string,
                       priority: Priority, completed: bool)

  /** `date` is the ISO "yyyy-mm-dd" day the schedule was generated for. */
  datatype Schedule = Schedule(date: string, tasks: seq<Task>, quote: string)

  datatype Settings = Settings(emailReminders: bool, preferredStartTime: string, focusMode: FocusMode)
}
