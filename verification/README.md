# Daily Task Scheduler — a Dafny model of its scheduling core

The Daily Task Scheduler is a small browser application. A user signs in with a
name and an email, types the day's tasks one per line, and receives a
time-blocked schedule. The schedule comes from a simulated "AI service": each
line becomes a task whose priority depends on keywords and whose duration
depends on priority and length; tasks are packed one after another from a
preferred start time, with breaks between them (pomodoro mode has fixed
25-minute tasks and a long break after every fourth one). A motivational quote
comes with each schedule. Everything is kept in the browser's `localStorage`
under four fixed keys.

The model has one module per part of the application:

- `Types` (`types.dfy`): the records the application passes around — `User`,
  `Task`, `Schedule`, `Settings`, `Priority`, `FocusMode`.
- `Text` (`text.dfy`): the JavaScript string built-ins the rest relies on
  (`trim`, `split`, `toLowerCase`, `includes`, `length`, `Number`,
  `toString`, `padStart`). Each is written out as a recursive definition,
  and lemmas pin down what it returns: exactly what `trim` strips, the code
  units `length` counts, the parts `split` yields, the value of a digit
  string.
- `AiService` (`ai_service.dfy`): time parsing and formatting, keyword
  priority, length-based duration, the quote pool, and the packing loop of
  `generateSchedule`. The loop is an imperative method proved equal to
  `Plan`, a specification function that gives each task directly. The
  schedule's promises are proved as lemmas about `Plan`: one task per
  non-blank line, in order; each task ends its duration after it starts; the
  next task starts exactly one break later; tasks never overlap; ids are
  distinct.
- `Storage` (`storage.dfy`): the `storage` object as a class `Store` over a
  map field standing for `localStorage`. Its getters return stored records or
  defaults. Its setters update one key. `ClearAll` loops over the four keys.
- `Dashboard` (`dashboard.dfy`): the state logic of the `Dashboard`
  component as a class `DashboardState`. Its fields are the component's
  state, and it holds the store it writes through to. The new values are
  computed by pure functions (`Toggled`, `Merge`, `WithQuote`) with their own
  lemmas.
- `SignIn` (`sign_in.dfy`): the sign-in form as a class `SignInForm`. It covers
  required-field validation and the email-shape check, which is proved
  equivalent to the regular expression `/^[^\s@]+@[^\s@]+\.[^\s@]+$/`. It also
  covers clearing an edited field's error, and the user stored on submit.

Clock readings (`Date.now()`, today's date) and random choices
(`Math.random()`) are parameters: `now: nat -> nat` gives the timestamp read
while building the task at each index, `today` is the ISO date string, and
`quoteIndex < 10` is the quote drawn.

## Model

| member | source | states |
|---|---|---|
| Text.TrimSpec | src/utils/aiService.ts:13 | `trim` returns a contiguous piece of the string with no whitespace at either end, and is empty exactly when the string is all whitespace (the blank-line filter and every "required" check rely on this) |
| Text.Trim | src/utils/aiService.ts:13 | `trim`: its meaning is given by TrimStrips and TrimSpec |
| Text.TrimStrips | src/utils/aiService.ts:13 | `trim` removes exactly the leading and trailing whitespace: its result is a slice of the string, and everything before and after that slice is whitespace |
| Text.TrimIdempotent | src/components/SignInPage.tsx:50-52 | trimming an already trimmed field changes nothing |
| Text.ToLower | src/utils/aiService.ts:69 | `toLowerCase` keeps the length; each character's image is given by ToLowerAt and the result on a concatenation by ToLowerConcat |
| Text.ToLowerAt | src/utils/aiService.ts:69 | `toLowerCase` maps every character independently, ASCII capitals to small letters |
| Text.ToLowerConcat | src/utils/aiService.ts:69 | lower-casing distributes over concatenation |
| Text.Contains | src/utils/aiService.ts:71 | `includes`: its meaning is given by ContainsOccurs and ContainsInContext |
| Text.ContainsOccurs | src/utils/aiService.ts:71 | `includes` holds exactly when the word occurs at some position of the text |
| Text.ContainsInContext | src/utils/aiService.ts:71 | a word contained in a text is contained in any text around it |
| Text.Utf16Length | src/utils/aiService.ts:82 | `length` counts UTF-16 code units: at least one and at most two per character |
| Text.Utf16LengthConcat | src/utils/aiService.ts:82 | code-unit counts add up over concatenation, and one character counts 2 exactly when it lies outside the Basic Multilingual Plane, 1 otherwise |
| Text.Utf16LengthBmp | src/utils/aiService.ts:82 | text inside the Basic Multilingual Plane (ASCII included) has `length` equal to its number of characters |
| Text.Split | src/utils/aiService.ts:13 | `split` always yields at least one part and no part contains the separator |
| Text.JoinSplit | src/utils/aiService.ts:13 | joining the parts of a split with the separator gives back the original string |
| Text.SplitJoin | src/utils/aiService.ts:55 | splitting a join of separator-free parts gives back the parts |
| Text.SplitKeeps | src/utils/aiService.ts:13 | every character other than the separator lands in some part |
| Text.NatStr | src/utils/aiService.ts:62 | `toString` of a natural number is a non-empty digit string with no leading zero |
| Text.DigitsValue | src/utils/aiService.ts:55 | `Number` of a digit string: its meaning is given by DigitsValueOfNatStr, PadStartValue and ParseTimeOf |
| Text.DigitsValueOfNatStr | src/utils/aiService.ts:55 | `Number` of `toString(n)` is `n` |
| Text.NatStrInjective | src/utils/aiService.ts:27 | distinct numbers print differently |
| Text.PadStart | src/utils/aiService.ts:62 | `padStart(2, '0')`: its meaning is given by PadStartValue and CanonicalTimeRoundTrip |
| Text.PadStartValue | src/utils/aiService.ts:62 | zero-padding a digit string keeps it a digit string of the same value |
| Text.IndexOf | src/components/SignInPage.tsx:31 | the index found holds the character and no earlier position does |
| AiService.ParseTime | src/utils/aiService.ts:54-57 | `parseTime`: its meaning is given by ParseTimeOf and FormatTimeRoundTrip |
| AiService.FormatTime | src/utils/aiService.ts:59-63 | `formatTime`: its meaning is given by FormatTimeRoundTrip and CanonicalTimeRoundTrip |
| AiService.ParseTimeOf | src/utils/aiService.ts:54-57 | "h:m" with digit fields parses to `h * 60 + m` |
| AiService.FormatTimeRoundTrip | src/utils/aiService.ts:54-63 | `parseTime(formatTime(m)) == m` for every natural `m`, and the hour field reads `m / 60` with no wrap at 24 |
| AiService.CanonicalTimeRoundTrip | src/utils/aiService.ts:54-63 | a two-digit "HH:MM" with minutes below 60 survives `parseTime` then `formatTime` unchanged |
| AiService.MentionsAny | src/utils/aiService.ts:71-74 | `keywords.some(k => text.includes(k))`: its meaning is given by MentionsAnyIff |
| AiService.MentionsAnyIff | src/utils/aiService.ts:71-74 | `keywords.some(k => text.includes(k))` holds exactly when some keyword occurs in the text |
| AiService.DeterminePriority | src/utils/aiService.ts:65-78 | high exactly when a high keyword occurs in the lowercased title (even with a low one present); low exactly when only a low keyword occurs; medium exactly when neither does |
| AiService.HighPriorityInContext | src/utils/aiService.ts:65-78 | surrounding a high-priority title with more text keeps it high |
| AiService.GetDuration | src/utils/aiService.ts:80-87 | the duration lies in [45, 120] and in [base, base + 30]; it is the base exactly when the length is at most 30, base + 15 when the length is over 30 and at most 50, and base + 30 exactly when the length is over 50 |
| AiService.DurationFollowsPriority | src/utils/aiService.ts:81 | for the same title, low < medium < high |
| AiService.DurationGrowsWithLength | src/utils/aiService.ts:82-86 | a longer title never gets a shorter duration at the same priority |
| AiService.GenerateMotivationalQuote | src/utils/aiService.ts:89-104 | the quote is one of the ten fixed quotes, and is non-empty |
| AiService.NonBlankLines | src/utils/aiService.ts:13 | `split('\n').filter(task => task.trim())`: its meaning is given by JoinSplit, SplitKeeps, NonBlankMembers, NonBlankConcat and NonBlankTextHasLines |
| AiService.NonBlank | src/utils/aiService.ts:13 | filtering never yields more lines than it was given |
| AiService.NonBlankConcat | src/utils/aiService.ts:13 | the filter distributes over concatenation, so kept lines stay in input order |
| AiService.NonBlankMembers | src/utils/aiService.ts:13 | a line is kept exactly when it is an input line whose trim is non-empty |
| AiService.NonBlankTextHasLines | src/components/Dashboard.tsx:32-36 | text that is not blank after trimming has at least one non-blank line, so the service returns at least one task |
| AiService.TaskDuration | src/utils/aiService.ts:20 | every duration lies in [25, 120]; it is exactly 25 in pomodoro mode, and in normal mode `getDuration` of the untrimmed line at that line's priority |
| AiService.BreakAfter | src/utils/aiService.ts:36-40 | the break is 15 in normal mode; in pomodoro mode 30 exactly after every fourth task and 5 otherwise |
| AiService.TaskId | src/utils/aiService.ts:27 | the id template `task-<ts>-<index>`: its meaning is given by TaskIdInjective and PlanIdsDistinct |
| AiService.TaskIdInjective | src/utils/aiService.ts:27 | `task-<ts>-<index>` determines both the timestamp and the index |
| AiService.StartMinute | src/utils/aiService.ts:16-24 | the cursor when task `k` starts: its meaning is given by PlanTimingAt, PlanBreakAt and MinutesOrdered |
| AiService.EndMinute | src/utils/aiService.ts:22-24 | the cursor when task `k` ends: its meaning is given by PlanTimingAt, PlanBreakAt and MinutesOrdered |
| AiService.BuildTask | src/utils/aiService.ts:26-33 | the task literal pushed for one line: its meaning is given by PlanTaskAt and PlanTimingAt |
| AiService.Plan | src/utils/aiService.ts:13-41 | exactly one task per non-blank line |
| AiService.PlanTaskAt | src/utils/aiService.ts:26-33 | the task at position `k` comes from line `k`: trimmed title, that line's priority, id `task-<ts>-<k>`, not completed |
| AiService.PlanTimingAt | src/utils/aiService.ts:16-24 | each task's start and end parse back, the end is the start plus the duration, and the first task starts at `parseTime(startTime)` |
| AiService.PlanBreakAt | src/utils/aiService.ts:35-40 | the next task starts exactly one break after the previous one ends |
| AiService.MinutesOrdered | src/utils/aiService.ts:18-41 | on the minute cursor, every task ends after it starts and before any later task starts |
| AiService.PlanOrdered | src/utils/aiService.ts:18-41 | tasks do not overlap and their start times strictly increase |
| AiService.PlanIdsDistinct | src/utils/aiService.ts:27 | ids within one run are pairwise distinct, whatever the clock reads |
| AiService.GenerateSchedule | src/utils/aiService.ts:5-46 | the loop's tasks are exactly `Plan` of the non-blank lines from `parseTime(startTime)`, and the quote is the one drawn |
| Storage.KeysDistinct | src/utils/storage.ts:3-8 | the four storage keys are pairwise distinct |
| Storage.DefaultStartTime | src/utils/storage.ts:38-42 | the default start time "08:00" is readable by `parseTime` and means minute 480 |
| Storage.Store.constructor | src/utils/storage.ts:10 | the store starts over whatever `localStorage` already holds |
| Storage.Store.GetUser | src/utils/storage.ts:16-19 | the stored user, or none exactly when the key is absent |
| Storage.Store.GetSchedule | src/utils/storage.ts:26-29 | the stored schedule, or none exactly when the key is absent |
| Storage.Store.GetSettings | src/utils/storage.ts:36-43 | the stored settings, or no reminders, "08:00" and normal focus when absent |
| Storage.Store.GetCompletedTasks | src/utils/storage.ts:50-53 | the stored ids, or the empty list when absent |
| Storage.Store.SetUser | src/utils/storage.ts:12-14 | only the user key changes; `getUser` then returns the user and the other three getters are unchanged |
| Storage.Store.SetSchedule | src/utils/storage.ts:22-24 | only the schedule key changes; `getSchedule` returns it and the other getters are unchanged |
| Storage.Store.SetSettings | src/utils/storage.ts:32-34 | only the settings key changes; `getSettings` returns them and the other getters are unchanged |
| Storage.Store.SetCompletedTasks | src/utils/storage.ts:46-48 | only the completed-tasks key changes; `getCompletedTasks` returns the ids and the other getters are unchanged |
| Storage.Store.ClearAll | src/utils/storage.ts:56-60 | exactly the four keys are removed, other keys are kept, and every getter returns its default |
| Dashboard.Without | src/components/Dashboard.tsx:74 | `filter(id => id !== taskId)` never yields more ids than it was given; its meaning is given by WithoutMembers, WithoutConcat and WithoutAbsent |
| Dashboard.WithoutMembers | src/components/Dashboard.tsx:74 | the filter removes every occurrence of the id and keeps every other id |
| Dashboard.WithoutConcat | src/components/Dashboard.tsx:74 | the filter keeps the remaining ids in their relative order |
| Dashboard.WithoutAbsent | src/components/Dashboard.tsx:74 | filtering an absent id changes nothing |
| Dashboard.Toggled | src/components/Dashboard.tsx:73-75 | the new completed list: its meaning is given by ToggledMembers, ToggleTwiceAbsent and ToggleTwicePresent |
| Dashboard.ToggledMembers | src/components/Dashboard.tsx:73-75 | after a toggle the id is listed exactly when it was not listed before, and every other id exactly as before |
| Dashboard.ToggleTwiceAbsent | src/components/Dashboard.tsx:73-75 | ticking a task and unticking it restores the list |
| Dashboard.ToggleTwicePresent | src/components/Dashboard.tsx:73-75 | unticking a task and ticking it again moves it to the end |
| Dashboard.Merge | src/components/Dashboard.tsx:88 | the spread of a partial update over the settings: its meaning is given by MergeFields, MergeIdentityIdempotent and MergeThen |
| Dashboard.MergeFields | src/components/Dashboard.tsx:88 | every supplied field overrides, every omitted field keeps its value |
| Dashboard.MergeIdentityIdempotent | src/components/Dashboard.tsx:88 | an empty update changes nothing; the same update applied twice equals applying it once |
| Dashboard.MergeThen | src/components/Dashboard.tsx:88 | two updates in a row equal one update with their fields combined, the later winning |
| Dashboard.WithQuote | src/components/Dashboard.tsx:61 | only the quote changes; date and tasks are kept |
| Dashboard.DashboardState.constructor | src/components/Dashboard.tsx:14-29 | state is read from storage; the stored quote is shown only when the stored schedule is for today |
| Dashboard.DashboardState.SetTasks | src/components/Dashboard.tsx:141 | typing sets the task text |
| Dashboard.DashboardState.GenerateSchedule | src/components/Dashboard.tsx:31-52 | blank text changes neither the state nor storage; otherwise the state and stored schedule are both today's schedule of the service's tasks and quote, it has at least one task, the quote is shown, and nothing else changes; the stored map changes at that record's key only, so keys of other applications are kept |
| Dashboard.DashboardState.GenerateNewQuote | src/components/Dashboard.tsx:54-70 | the new quote is shown; an existing schedule gets only its quote replaced, in state and storage; with no schedule nothing is written; the stored map changes at that record's key only, so keys of other applications are kept |
| Dashboard.DashboardState.ToggleTaskCompletion | src/components/Dashboard.tsx:72-79 | the completed list is toggled at the id and the stored list equals the new state; the stored map changes at that record's key only, so keys of other applications are kept |
| Dashboard.DashboardState.UpdateSettings | src/components/Dashboard.tsx:87-91 | the settings become the merge of the old ones with the update, and the stored settings equal them; the stored map changes at that record's key only, so keys of other applications are kept |
| SignIn.WithField | src/components/SignInPage.tsx:61 | the edited field takes the value and the other fields are kept |
| SignIn.IsValidEmail | src/components/SignInPage.tsx:31 | the email-shape test read left to right: its meaning is given by EmailShapeIff |
| SignIn.EmailShapeIff | src/components/SignInPage.tsx:31 | the left-to-right email check accepts exactly the strings the regular expression matches |
| SignIn.ValidEmailIsTrimmed | src/components/SignInPage.tsx:29-33 | a well-shaped email has no whitespace at either end, so trimming it changes nothing |
| SignIn.FormErrors | src/components/SignInPage.tsx:19-33 | the errors `validateForm` collects: its meaning is given by FormErrorsFields and FormAccepted |
| SignIn.FormErrorsFields | src/components/SignInPage.tsx:18-33 | a blank name gets its "required" error; a blank email gets "Email is required", and a non-blank ill-shaped one "Please enter a valid email address", never both |
| SignIn.FormAccepted | src/components/SignInPage.tsx:36 | no errors exactly when both names are non-blank and the email matches the pattern |
| SignIn.TrimmedUser | src/components/SignInPage.tsx:49-53 | the user built from the trimmed fields: its meaning is given by AcceptedUser and HandleSubmit |
| SignIn.AcceptedUser | src/components/SignInPage.tsx:49-53 | an accepted form gives a user with non-empty names and the email exactly as typed |
| SignIn.ClearedError | src/components/SignInPage.tsx:62-64 | the edited field's error, if set, becomes empty; other errors are unchanged |
| SignIn.SignInForm.constructor | src/components/SignInPage.tsx:10-15 | the form starts empty, with no errors |
| SignIn.SignInForm.ValidateForm | src/components/SignInPage.tsx:18-37 | the errors become those of the current form, and the result is true exactly when there are none |
| SignIn.SignInForm.HandleInputChange | src/components/SignInPage.tsx:60-65 | the field takes the value and its error is cleared as `ClearedError` says |
| SignIn.SignInForm.HandleSubmit | src/components/SignInPage.tsx:39-58 | an invalid form writes nothing and signs nobody in; a valid one stores and returns the trimmed user, leaving the other records unchanged; the stored map changes at that record's key only, so keys of other applications are kept |

## Left out

- Each handler is modelled as one atomic step. The simulated delays (`setTimeout`) and the awaits around them are left out, and with them any interleaving of handlers during an await. For example, `generateQuote` waits one second and `generateSchedule` two. A new-quote click in the last second of a schedule generation still holds the old `schedule`, so it writes `{ ...oldSchedule, quote }` over the schedule just generated, in the state and in storage. A click in the first second instead loses its quote to the new schedule. Neither outcome is modelled.
- `Math.random()`, `Date.now()` and `new Date()` are parameters: a quote index below 10, a function from task index to timestamp, and the ISO date string.
- `localStorage` and `JSON.stringify`/`JSON.parse` are a map from key to a typed entry; encoding is the identity, and malformed or foreign JSON under one of the four keys is not modelled.
- Rendering, `getPriorityColor`, icons and the navigation callbacks are not modelled: they choose presentation only.
- `exportToPDF` is not part of this model, and neither are the try/catch logging paths. The service never throws once the delay is gone.
- `src/App.tsx` and `src/components/SettingsPage.tsx` are not part of this model: they navigate between pages and delegate to the storage calls modelled here.
- The loading flags `isGenerating`, `isGeneratingQuote` and `isLoading` are not modelled.
- SignIn.SignInForm.HandleSubmit: the `onSignIn(user)` callback is the method's return value.
- Text.ToLower, Text.ToLowerAt: only ASCII capitals are lowered. `toLowerCase` on other scripts is not modelled; the priority keywords are ASCII.
- AiService.ParseTime: requires a time whose first two `:`-separated fields are non-empty digit strings. Fields of any other form are not modelled.
- JavaScript numbers are doubles, while the model's minutes are unbounded naturals. The two agree while values stay below 2^53, and `toString` prints plain digits below 10^21. Every cursor reachable from a two-digit "HH:MM" start and a realistic number of tasks stays far below both, but FormatTimeRoundTrip is stated for every natural number.
- Dashboard.DashboardState.GenerateSchedule: requires a readable start time. The settings come from the time input or the "08:00" default, so the emptied time input is not modelled.
- Dashboard.MergeFields: a patch field explicitly set to `undefined` is treated as omitted, whereas the object spread would copy it.
- The Dashboard's `user` prop is not modelled: it is used only for display and the PDF export.
