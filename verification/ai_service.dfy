/** The simulated AI service: it turns free task text into a time-blocked
    schedule by keyword priority, length-based duration and break insertion,
    and picks a motivational quote. */
module AiService {
  import opened Types
  import opened Text

  // ---------------------------------------------------------------------------
  // "HH:MM" times

  /** A time string `parseTime` can read: split at ':', its first two fields
      are non-empty runs of digits (any further fields are ignored). */
  predicate IsTimeString(s: string) {
    var fields := Split(s, ':');
    |fields| >= 2 && fields[0] != [] && fields[1] != [] && AllDigits(fields[0]) && AllDigits(fields[1])
  }

  /** `parseTime`: minutes since midnight, hours * 60 + minutes. */
  function ParseTime(s: string): nat
    requires IsTimeString(s)
  {
    var fields := Split(s, ':');
    DigitsValue(fields[0]) * 60 + DigitsValue(fields[1])
  }

  lemma ParseTimeOf(h: string, m: string)
    requires h != [] && m != [] && AllDigits(h) && AllDigits(m)
    ensures Split(h + ":" + m, ':') == [h, m]
    ensures IsTimeString(h + ":" + m)
    ensures ParseTime(h + ":" + m) == DigitsValue(h) * 60 + DigitsValue(m)
  {
    assert ':' !in h && ':' !in m;
    assert Join([h, m], ':') == h + ":" + m;
    SplitJoin([h, m], ':');
  }

  /** `formatTime`: zero-padded hours and minutes, hours being `minutes / 60`
      with no wrap at 24. */
  function FormatTime(minutes: nat): string {
    PadStart(NatStr(minutes / 60), 2, '0') + ":" + PadStart(NatStr(minutes % 60), 2, '0')
  }

  /** Reading a formatted time back with `parseTime` gives the minutes again,
      and the hour field holds `minutes / 60`, so a schedule running past
      midnight shows hours of 24 and more rather than wrapping. */
  lemma FormatTimeRoundTrip(minutes: nat)
    ensures IsTimeString(FormatTime(minutes)) && ParseTime(FormatTime(minutes)) == minutes
    ensures var h := Split(FormatTime(minutes), ':')[0];
      AllDigits(h) && DigitsValue(h) == minutes / 60
  {
    var h := PadStart(NatStr(minutes / 60), 2, '0');
    var m := PadStart(NatStr(minutes % 60), 2, '0');
    PadStartValue(NatStr(minutes / 60), 2);
    PadStartValue(NatStr(minutes % 60), 2);
    DigitsValueOfNatStr(minutes / 60);
    DigitsValueOfNatStr(minutes % 60);
    ParseTimeOf(h, m);
  }

  /** A canonical "HH:MM" (two-digit fields, minutes below 60) survives
      `parseTime` followed by `formatTime` unchanged. */
  lemma CanonicalTimeRoundTrip(s: string)
    requires |s| == 5 && s[2] == ':' && AllDigits(s[..2]) && AllDigits(s[3..])
    requires DigitsValue(s[3..]) < 60
    ensures IsTimeString(s) && FormatTime(ParseTime(s)) == s
  {
    ParseTimeOf(s[..2], s[3..]);
    assert s == s[..2] + ":" + s[3..];
    var t := ParseTime(s);
    assert t / 60 == DigitsValue(s[..2]) && t % 60 == DigitsValue(s[3..]);
    TwoDigitsCanonical(s[..2]);
    TwoDigitsCanonical(s[3..]);
  }

  lemma TwoDigitsCanonical(d: string)
    requires |d| == 2 && AllDigits(d)
    ensures PadStart(NatStr(DigitsValue(d)), 2, '0') == d
  {
    var v := DigitsValue(d);
    var hi, lo := d[0] as int - '0' as int, d[1] as int - '0' as int;
    assert d[..1][..0] == [] && d[..|d| - 1] == d[..1];
    assert DigitsValue(d[..1]) == hi;
    assert v == hi * 10 + lo;
    if hi == 0 {
      assert NatStr(v) == [DigitChar(lo)];
    } else {
      assert v / 10 == hi && v % 10 == lo;
      assert NatStr(v) == NatStr(hi) + [DigitChar(lo)];
      assert NatStr(v) == [d[0], d[1]];
    }
  }

  // ---------------------------------------------------------------------------
  // Priority and duration

  const HighPriorityKeywords: seq<string> := ["urgent", "important", "deadline", "meeting", "call"]
  const LowPriorityKeywords: seq<string> := ["organize", "clean", "read", "research"]

  /** `keywords.some(keyword => text.includes(keyword))`, tried in list order. */
  predicate MentionsAny(text: string, keywords: seq<string>) {
    keywords != [] && (Contains(text, keywords[0]) || MentionsAny(text, keywords[1..]))
  }

  /** The search succeeds exactly when some keyword of the list occurs. */
  lemma {:induction false} MentionsAnyIff(text: string, keywords: seq<string>)
    ensures MentionsAny(text, keywords) <==> exists k :: 0 <= k < |keywords| && Contains(text, keywords[k])
  {
    if keywords != [] {
      MentionsAnyIff(text, keywords[1..]);
      if exists k :: 0 <= k < |keywords| && Contains(text, keywords[k]) {
        var k :| 0 <= k < |keywords| && Contains(text, keywords[k]);
        if k > 0 {
          assert keywords[1..][k - 1] == keywords[k];
        }
      }
    }
  }

  /** `determinePriority`: a case-insensitive keyword match where the high
      keywords take precedence over the low ones and "medium" is the default. */
  function DeterminePriority(task: string): (p: Priority)
    ensures p == High <==> MentionsAny(ToLower(task), HighPriorityKeywords)
    ensures p == Low <==> !MentionsAny(ToLower(task), HighPriorityKeywords)
                          && MentionsAny(ToLower(task), LowPriorityKeywords)
    ensures p == Medium <==> !MentionsAny(ToLower(task), HighPriorityKeywords)
                             && !MentionsAny(ToLower(task), LowPriorityKeywords)
  {
    var taskLower := ToLower(task);
    if MentionsAny(taskLower, HighPriorityKeywords) then High
    else if MentionsAny(taskLower, LowPriorityKeywords) then Low
    else Medium
  }

  /** Text around a high-priority title never lowers its priority. */
  lemma HighPriorityInContext(a: string, task: string, b: string)
    requires DeterminePriority(task) == High
    ensures DeterminePriority(a + task + b) == High
  {
    MentionsAnyIff(ToLower(task), HighPriorityKeywords);
    var k :| 0 <= k < |HighPriorityKeywords| && Contains(ToLower(task), HighPriorityKeywords[k]);
    ToLowerConcat(a + task, b);
    ToLowerConcat(a, task);
    ContainsInContext(ToLower(a), ToLower(task), ToLower(b), HighPriorityKeywords[k]);
    MentionsAnyIff(ToLower(a + task + b), HighPriorityKeywords);
  }

  function BaseTime(p: Priority): nat {
    match p
    case High => 90
    case Medium => 60
    case Low => 45
  }

  /** `getDuration`: the priority's base time plus a bonus of 30 minutes for a
      task longer than 50 UTF-16 units, or 15 for one longer than 30. */
  function GetDuration(task: string, priority: Priority): (d: nat)
    ensures 45 <= d <= 120
    ensures BaseTime(priority) <= d <= BaseTime(priority) + 30
    ensures d == BaseTime(priority) <==> Utf16Length(task) <= 30
    ensures d == BaseTime(priority) + 30 <==> Utf16Length(task) > 50
    ensures 30 < Utf16Length(task) <= 50 ==> d == BaseTime(priority) + 15
  {
    var baseTime := BaseTime(priority);
    var taskLength := Utf16Length(task);
    if taskLength > 50 then baseTime + 30
    else if taskLength > 30 then baseTime + 15
    else baseTime
  }

  lemma DurationFollowsPriority(task: string)
    ensures GetDuration(task, Low) < GetDuration(task, Medium) < GetDuration(task, High)
  {
  }

  lemma DurationGrowsWithLength(short: string, long: string, p: Priority)
    requires Utf16Length(short) <= Utf16Length(long)
    ensures GetDuration(short, p) <= GetDuration(long, p)
  {
  }

  // ---------------------------------------------------------------------------
  // Quotes

  const Quotes: seq<string> := [
    "Success is built one focused hour at a time.",
    "Turn your dreams into scheduled reality today.",
    "Every completed task brings you closer to greatness.",
    "Productivity is the bridge between dreams and achievements.",
    "Focus transforms ordinary moments into extraordinary results.",
    "Your future self will thank you for today's dedication.",
    "Small consistent actions create massive life changes.",
    "Time blocked wisely becomes unstoppable momentum forward.",
    "Excellence emerges from intentional daily choices made.",
    "Today's schedule shapes tomorrow's success story completely."
  ]

  /** `generateMotivationalQuote`, with `Math.floor(Math.random() * 10)`
      supplied as `index`: always one of the ten fixed, non-empty quotes. */
  function GenerateMotivationalQuote(index: nat): (q: string)
    requires index < 10
    ensures q in Quotes && q != []
  {
    Quotes[index]
  }

  // ---------------------------------------------------------------------------
  // The schedule

  /** `tasks.split('\n').filter(task => task.trim())`. */
  function NonBlankLines(text: string): seq<string> {
    NonBlank(Split(text, '\n'))
  }

  /** The lines whose trim is non-empty, in their original order. */
  function NonBlank(lines: seq<string>): (r: seq<string>)
    ensures |r| <= |lines|
  {
    if lines == [] then []
    else (if Trim(lines[0]) != [] then [lines[0]] else []) + NonBlank(lines[1..])
  }

  /** Filtering keeps the relative order: it distributes over concatenation. */
  lemma {:induction false} NonBlankConcat(a: seq<string>, b: seq<string>)
    ensures NonBlank(a + b) == NonBlank(a) + NonBlank(b)
  {
    if a != [] {
      assert (a + b)[1..] == a[1..] + b;
      NonBlankConcat(a[1..], b);
    } else {
      assert a + b == b;
    }
  }

  /** A line is kept exactly when it is one of the input lines and not blank. */
  lemma {:induction false} NonBlankMembers(lines: seq<string>, x: string)
    ensures x in NonBlank(lines) <==> x in lines && Trim(x) != []
  {
    if lines != [] {
      NonBlankMembers(lines[1..], x);
      assert lines == [lines[0]] + lines[1..];
    }
  }

  /** Text that is not blank yields at least one task. */
  lemma NonBlankTextHasLines(text: string)
    requires Trim(text) != []
    ensures NonBlankLines(text) != []
  {
    TrimSpec(text);
    var i :| 0 <= i < |text| && !IsWhitespace(text[i]);
    SplitKeeps(text, '\n', i);
    var parts := Split(text, '\n');
    var k, j :| 0 <= k < |parts| && 0 <= j < |parts[k]| && parts[k][j] == text[i];
    TrimSpec(parts[k]);
    assert Trim(parts[k]) != [];
    NonBlankMembers(parts, parts[k]);
  }

  /** Every task lasts 25 minutes in pomodoro mode, `getDuration` otherwise. */
  function TaskDuration(mode: FocusMode, line: string): (d: nat)
    ensures 25 <= d <= 120
    ensures mode == Pomodoro ==> d == 25
    ensures mode == Normal ==> d == GetDuration(line, DeterminePriority(line))
  {
    if mode == Pomodoro then 25 else GetDuration(line, DeterminePriority(line))
  }

  /** The break after the task at `index`: in pomodoro mode a long break of 30
      after every fourth task and 5 otherwise; 15 in normal mode. */
  function BreakAfter(mode: FocusMode, index: nat): (b: nat)
    ensures mode == Normal ==> b == 15
    ensures mode == Pomodoro ==> (b == 30 <==> index % 4 == 3) && (b == 5 <==> index % 4 != 3)
  {
    match mode
    case Pomodoro => if index % 4 == 3 then 30 else 5
    case Normal => 15
  }

  /** The template literal `task-${Date.now()}-${index}`. */
  function TaskId(stamp: nat, index: nat): string {
    "task-" + NatStr(stamp) + "-" + NatStr(index)
  }

  lemma TaskIdInjective(a: nat, i: nat, b: nat, j: nat)
    requires TaskId(a, i) == TaskId(b, j)
    ensures a == b && i == j
  {
    var u, v := NatStr(a) + "-" + NatStr(i), NatStr(b) + "-" + NatStr(j);
    assert TaskId(a, i) == "task-" + u && TaskId(b, j) == "task-" + v;
    assert u == TaskId(a, i)[5..] == v;
    DigitsBeforeDash(NatStr(a), NatStr(i), NatStr(b), NatStr(j));
    NatStrInjective(a, b);
    NatStrInjective(i, j);
  }

  lemma DigitsBeforeDash(x: string, y: string, z: string, w: string)
    requires AllDigits(x) && AllDigits(z)
    requires x + "-" + y == z + "-" + w
    ensures x == z && y == w
  {
    var s := x + "-" + y;
    FirstDash(x, y);
    FirstDash(z, w);
    assert x == s[..|x|] == z;
    assert y == s[|x| + 1..] == w;
  }

  lemma FirstDash(x: string, y: string)
    requires AllDigits(x)
    ensures '-' in x + "-" + y && IndexOf(x + "-" + y, '-') == |x|
  {
    assert x + "-" + y == x + ("-" + y);
    assert forall j :: 0 <= j < |x| ==> x[j] != '-';
    IndexOfAfter(x, "-" + y, '-');
  }

  /** The minute at which the task at position `k` starts when the tasks for
      `lines` are packed from minute `start`: the cursor of the packing loop
      after the previous task and the break after it. */
  function StartMinute(lines: seq<string>, start: nat, mode: FocusMode, k: nat): nat
    requires k <= |lines|
    decreases k, 0
  {
    if k == 0 then start else EndMinute(lines, start, mode, k - 1) + BreakAfter(mode, k - 1)
  }

  /** The minute at which the task at position `k` ends: its start plus its duration. */
  function EndMinute(lines: seq<string>, start: nat, mode: FocusMode, k: nat): nat
    requires k < |lines|
    decreases k, 1
  {
    StartMinute(lines, start, mode, k) + TaskDuration(mode, lines[k])
  }

  /** The task built for `line` at position `index`, running from minute
      `startMinute` to minute `endMinute`; `stamp` is the reading of
      `Date.now()` taken for it. */
  function BuildTask(line: string, index: nat, startMinute: nat, endMinute: nat, stamp: nat): Task {
    Task(TaskId(stamp, index), Trim(line), FormatTime(startMinute), FormatTime(endMinute),
         DeterminePriority(line), false)
  }

  /** All the tasks the packing loop produces for `lines` from minute `start`,
      one per line and in line order; `now(k)` is the clock reading
      `Date.now()` returns while the task at position `k` is built. */
  function Plan(lines: seq<string>, start: nat, mode: FocusMode, now: nat -> nat): (r: seq<Task>)
    ensures |r| == |lines|
  {
    seq(|lines|, k requires 0 <= k < |lines| =>
      BuildTask(lines[k], k, StartMinute(lines, start, mode, k), EndMinute(lines, start, mode, k), now(k)))
  }

  lemma PlanAt(lines: seq<string>, start: nat, mode: FocusMode, now: nat -> nat, k: nat)
    requires k < |lines|
    ensures Plan(lines, start, mode, now)[k]
         == BuildTask(lines[k], k, StartMinute(lines, start, mode, k), EndMinute(lines, start, mode, k), now(k))
  {
  }

  /** The task at position `k`, in terms of the strings the loop formats for
      its start and end. */
  lemma PlanTaskFrom(lines: seq<string>, start: nat, mode: FocusMode, now: nat -> nat, k: nat,
                     startStr: string, endStr: string)
    requires k < |lines|
    requires startStr == FormatTime(StartMinute(lines, start, mode, k))
    requires endStr == FormatTime(EndMinute(lines, start, mode, k))
    ensures Plan(lines, start, mode, now)[k]
         == Task(TaskId(now(k), k), Trim(lines[k]), startStr, endStr, DeterminePriority(lines[k]), false)
  {
    PlanAt(lines, start, mode, now, k);
  }

  lemma PrefixStep<T>(s: seq<T>, n: nat)
    requires n < |s|
    ensures s[..n + 1] == s[..n] + [s[n]]
  {
  }

  /** The task at position `k` comes from the `k`-th line: its title is the
      trimmed line, its priority that of the line, it is not completed and its
      id is `task-<clock>-<k>`. */
  lemma PlanTaskAt(lines: seq<string>, start: nat, mode: FocusMode, now: nat -> nat, k: nat)
    requires k < |lines|
    ensures var t := Plan(lines, start, mode, now)[k];
      && t.title == Trim(lines[k])
      && t.priority == DeterminePriority(lines[k])
      && t.id == TaskId(now(k), k)
      && !t.completed
  {
    PlanAt(lines, start, mode, now, k);
  }

  lemma PlanStartAt(lines: seq<string>, start: nat, mode: FocusMode, now: nat -> nat, k: nat)
    requires k < |lines|
    ensures IsTimeString(Plan(lines, start, mode, now)[k].timeStart)
    ensures ParseTime(Plan(lines, start, mode, now)[k].timeStart) == StartMinute(lines, start, mode, k)
  {
    PlanAt(lines, start, mode, now, k);
    FormatTimeRoundTrip(StartMinute(lines, start, mode, k));
  }

  lemma PlanEndAt(lines: seq<string>, start: nat, mode: FocusMode, now: nat -> nat, k: nat)
    requires k < |lines|
    ensures IsTimeString(Plan(lines, start, mode, now)[k].timeEnd)
    ensures ParseTime(Plan(lines, start, mode, now)[k].timeEnd) == EndMinute(lines, start, mode, k)
  {
    PlanAt(lines, start, mode, now, k);
    FormatTimeRoundTrip(EndMinute(lines, start, mode, k));
  }

  /** Each task's start and end read back as minutes, and it ends its duration
      after it starts; the first task starts at `start`. */
  lemma PlanTimingAt(lines: seq<string>, start: nat, mode: FocusMode, now: nat -> nat, k: nat)
    requires k < |lines|
    ensures var t := Plan(lines, start, mode, now)[k];
      && IsTimeString(t.timeStart) && IsTimeString(t.timeEnd)
      && ParseTime(t.timeEnd) == ParseTime(t.timeStart) + TaskDuration(mode, lines[k])
      && (k == 0 ==> ParseTime(t.timeStart) == start)
  {
    PlanStartAt(lines, start, mode, now, k);
    PlanEndAt(lines, start, mode, now, k);
  }

  /** The task after position `k` starts exactly one break after it ends. */
  lemma PlanBreakAt(lines: seq<string>, start: nat, mode: FocusMode, now: nat -> nat, k: nat)
    requires k + 1 < |lines|
    ensures var r := Plan(lines, start, mode, now);
      && IsTimeString(r[k].timeEnd) && IsTimeString(r[k + 1].timeStart)
      && ParseTime(r[k + 1].timeStart) == ParseTime(r[k].timeEnd) + BreakAfter(mode, k)
  {
    PlanEndAt(lines, start, mode, now, k);
    PlanStartAt(lines, start, mode, now, k + 1);
  }

  /** On the minute cursor: every task ends before any later task starts. */
  lemma {:induction false} MinutesOrdered(lines: seq<string>, start: nat, mode: FocusMode, i: nat, j: nat)
    requires i < j < |lines|
    ensures StartMinute(lines, start, mode, i) < EndMinute(lines, start, mode, i) < StartMinute(lines, start, mode, j)
    decreases j
  {
    if i < j - 1 {
      MinutesOrdered(lines, start, mode, i, j - 1);
    }
  }

  /** Any earlier task ends before any later one starts, so the tasks do not
      overlap and their start times strictly increase. */
  lemma PlanOrdered(lines: seq<string>, start: nat, mode: FocusMode, now: nat -> nat, i: nat, j: nat)
    requires i < j < |lines|
    ensures var r := Plan(lines, start, mode, now);
      && IsTimeString(r[i].timeStart) && IsTimeString(r[i].timeEnd) && IsTimeString(r[j].timeStart)
      && ParseTime(r[i].timeStart) < ParseTime(r[i].timeEnd) < ParseTime(r[j].timeStart)
  {
    PlanStartAt(lines, start, mode, now, i);
    PlanEndAt(lines, start, mode, now, i);
    PlanStartAt(lines, start, mode, now, j);
    MinutesOrdered(lines, start, mode, i, j);
  }

  /** Within one run the task ids are pairwise distinct, whatever the clock reads. */
  lemma PlanIdsDistinct(lines: seq<string>, start: nat, mode: FocusMode, now: nat -> nat, i: nat, j: nat)
    requires i < j < |lines|
    ensures Plan(lines, start, mode, now)[i].id != Plan(lines, start, mode, now)[j].id
  {
    PlanTaskAt(lines, start, mode, now, i);
    PlanTaskAt(lines, start, mode, now, j);
    if Plan(lines, start, mode, now)[i].id == Plan(lines, start, mode, now)[j].id {
      TaskIdInjective(now(i), i, now(j), j);
    }
  }

  /** `aiService.generateSchedule` without its simulated delay: one task per
      non-blank line, packed from `startTime` by the forEach loop, and a quote
      chosen by `quoteIndex`. */
  method GenerateSchedule(tasks: string, startTime: string, focusMode: FocusMode, now: nat -> nat, quoteIndex: nat)
    returns (generatedTasks: seq<Task>, quote: string)
    requires IsTimeString(startTime)
    requires quoteIndex < 10
    ensures generatedTasks == Plan(NonBlankLines(tasks), ParseTime(startTime), focusMode, now)
    ensures quote == Quotes[quoteIndex]
  {
    var taskList := NonBlankLines(tasks);
    var start := ParseTime(startTime);
    generatedTasks := [];
    var currentTime := start;
    for index := 0 to |taskList|
      invariant generatedTasks == Plan(taskList, start, focusMode, now)[..index]
      invariant currentTime == StartMinute(taskList, start, focusMode, index)
    {
      var task := taskList[index];
      var priority := DeterminePriority(task);
      var duration := if focusMode == Pomodoro then 25 else GetDuration(task, priority);
      var startTimeStr := FormatTime(currentTime);
      currentTime := currentTime + duration;
      assert currentTime == EndMinute(taskList, start, focusMode, index);
      var endTimeStr := FormatTime(currentTime);
      PlanTaskFrom(taskList, start, focusMode, now, index, startTimeStr, endTimeStr);
      PrefixStep(Plan(taskList, start, focusMode, now), index);
      generatedTasks := generatedTasks + [Task(TaskId(now(index), index), Trim(task), startTimeStr,
                                                endTimeStr, priority, false)];
      if focusMode == Pomodoro {
        currentTime := currentTime + if index % 4 == 3 then 30 else 5;
      } else {
        currentTime := currentTime + 15;
      }
    }
    assert Plan(taskList, start, focusMode, now)[..|taskList|] == Plan(taskList, start, focusMode, now);
    quote := GenerateMotivationalQuote(quoteIndex);
  }
}
