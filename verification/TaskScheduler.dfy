/**
 The task scheduler: when a task is due next, and how ticks, forced runs and the running goroutines
 interleave. Times are nanoseconds since a Sunday's midnight, in a zone without clock changes.
 */
module TaskScheduler {
  const SECOND := 1_000_000_000
  const HOUR := 3600 * SECOND
  const DAY := 24 * HOUR
  const WEEK := 7 * DAY

  const DAILY := "0 30 3 * * *"
  const HOURLY := "0 0 * * * *"
  const WEEKLY := "0 0 2 * * 0"

  // --------------------------------------------------------------- next run

  function Midnight(t: int): int {
    t - t % DAY
  }

  function TimeOfDay(t: int): int {
    t % DAY
  }

  function Weekday(t: int): int {
    (t / DAY) % 7
  }

  /** When a task is due at all, by its cron expression. */
  predicate IsDue(cron: string, t: int) {
    if cron == DAILY then TimeOfDay(t) == 3 * HOUR + 30 * 60 * SECOND
    else if cron == HOURLY then t % HOUR == 0
    else if cron == WEEKLY then Weekday(t) == 0 && TimeOfDay(t) == 2 * HOUR
    else true
  }

  /** The midnight before, the time of day of a moment after it, and the next day. */
  lemma DayParts(now: int, offset: int)
    requires 0 <= offset < DAY
    ensures Midnight(now) <= now < Midnight(now) + DAY
    ensures TimeOfDay(Midnight(now) + offset) == offset
  {
  }

  lemma NextDay(t: int)
    ensures TimeOfDay(t + DAY) == TimeOfDay(t) && Weekday(t + DAY) == (Weekday(t) + 1) % 7
  {
    var d, r := t / DAY, t % DAY;
    assert t + DAY == DAY * (d + 1) + r;
    DaysPart(t + DAY, d + 1, r);
  }

  lemma DaysPart(t: int, d: int, r: int)
    requires t == DAY * d + r && 0 <= r < DAY
    ensures t / DAY == d && t % DAY == r
  {
  }

  /** A moment of the day comes once in every half-open day. */
  lemma OncePerDay(now: int, next: int, t: int)
    requires now <= next < now + DAY && TimeOfDay(t) == TimeOfDay(next) && now <= t
    ensures next <= t
  {
  }

  lemma OncePerHour(now: int, next: int, t: int)
    requires now < next <= now + HOUR && t % HOUR == 0 && next % HOUR == 0 && now < t
    ensures next <= t
  {
  }

  /** A moment of the week comes once in every half-open week. */
  lemma OncePerWeek(now: int, next: int, t: int)
    requires now <= next < now + WEEK && TimeOfDay(t) == TimeOfDay(next) && Weekday(t) == Weekday(next) && now <= t
    ensures next <= t
  {
    var d, e, r := next / DAY, t / DAY, t % DAY;
    assert next == DAY * d + r && t == DAY * e + r;
    assert d % 7 == e % 7;
    assert d - e == 7 * (d / 7 - e / 7);
  }

  lemma HourAhead(now: int)
    ensures var next := Midnight(now) + ((now - Midnight(now)) / HOUR + 1) * HOUR;
            now < next <= now + HOUR && next % HOUR == 0
  {
    var past := now - Midnight(now);
    var hour := past / HOUR;
    assert past == HOUR * hour + past % HOUR;
    var next := Midnight(now) + (hour + 1) * HOUR;
    assert next == HOUR * (24 * (now / DAY) + hour + 1);
  }

  /** Today's 03:30, or tomorrow's once that has passed. */
  method NextMorning(now: int) returns (next: int)
    ensures now <= next < now + DAY && IsDue(DAILY, next)
    ensures forall t :: now <= t && IsDue(DAILY, t) ==> next <= t
  {
    hide TimeOfDay, Midnight;
    var offset := 3 * HOUR + 30 * 60 * SECOND;
    DayParts(now, offset);
    next := Midnight(now) + offset;
    if now > next {
      NextDay(next);
      next := next + DAY;
    }
    forall t | now <= t && IsDue(DAILY, t) ensures next <= t {
      OncePerDay(now, next, t);
    }
  }

  /** The loop of the weekly case: from today's 02:00, a day at a time, to the first Sunday not yet past. */
  method NextSunday(now: int) returns (next: int, steps: nat)
    ensures now <= next < now + WEEK && steps <= 7 && IsDue(WEEKLY, next)
    ensures forall t :: now <= t && IsDue(WEEKLY, t) ==> next <= t
  {
    hide TimeOfDay, Midnight, Weekday;
    DayParts(now, 2 * HOUR);
    next, steps := Midnight(now) + 2 * HOUR, 0;
    ghost var start := next;
    ghost var today := Weekday(start);
    assert 0 <= today < 7 by {
      WeekdayRange(start);
    }
    ghost var target := if today == 0 && now <= start then 0 else 7 - today;
    while Weekday(next) != 0 || now > next
      invariant next == start + steps * DAY && TimeOfDay(next) == 2 * HOUR
      invariant Weekday(next) == (today + steps) % 7 && steps <= target
      decreases target - steps
    {
      NextDay(next);
      next := next + DAY;
      steps := steps + 1;
    }
    forall t | now <= t && IsDue(WEEKLY, t) ensures next <= t {
      OncePerWeek(now, next, t);
    }
  }

  lemma WeekdayRange(t: int)
    ensures 0 <= Weekday(t) < 7
  {
  }

  lemma DaysAhead(t: int, k: nat)
    ensures TimeOfDay(t + k * DAY) == TimeOfDay(t) && Weekday(t + k * DAY) == (Weekday(t) + k) % 7
  {
    var d, r := t / DAY, t % DAY;
    assert t + k * DAY == DAY * (d + k) + r;
    DaysPart(t + k * DAY, d + k, r);
  }

  /** The next run by closed form; the weekly one lies at most seven days ahead. */
  function NextRunOf(cron: string, now: int): int {
    var morning, night := Midnight(now) + (3 * HOUR + 30 * 60 * SECOND), Midnight(now) + 2 * HOUR;
    if cron == DAILY then if now > morning then morning + DAY else morning
    else if cron == HOURLY then Midnight(now) + ((now - Midnight(now)) / HOUR + 1) * HOUR
    else if cron == WEEKLY then
      if Weekday(night) == 0 && now <= night then night else night + (7 - Weekday(night)) * DAY
    else now + HOUR
  }

  /** It is the first moment that the expression allows. */
  lemma NextRunIsFirst(cron: string, now: int)
    ensures var next := NextRunOf(cron, now);
            && now <= next && IsDue(cron, next)
            && (cron == DAILY || cron == WEEKLY ==> forall t :: now <= t && IsDue(cron, t) ==> next <= t)
            && (cron == HOURLY ==> now < next && forall t :: now < t && IsDue(cron, t) ==> next <= t)
  {
    if cron == DAILY {
      MorningIsFirst(now);
    } else if cron == HOURLY {
      HourAhead(now);
      forall t | now < t && IsDue(cron, t) ensures NextRunOf(cron, now) <= t {
        OncePerHour(now, NextRunOf(cron, now), t);
      }
    } else if cron == WEEKLY {
      SundayIsFirst(now);
    }
    hide Midnight, TimeOfDay, Weekday;
  }

  lemma MorningIsFirst(now: int)
    ensures var next := NextRunOf(DAILY, now);
            now <= next && IsDue(DAILY, next) && forall t :: now <= t && IsDue(DAILY, t) ==> next <= t
  {
    hide TimeOfDay, Midnight;
    var next := NextRunOf(DAILY, now);
    DayParts(now, 3 * HOUR + 30 * 60 * SECOND);
    NextDay(Midnight(now) + (3 * HOUR + 30 * 60 * SECOND));
    forall t | now <= t && IsDue(DAILY, t) ensures next <= t {
      OncePerDay(now, next, t);
    }
  }

  lemma SundayIsFirst(now: int)
    ensures var next := NextRunOf(WEEKLY, now);
            now <= next && IsDue(WEEKLY, next) && forall t :: now <= t && IsDue(WEEKLY, t) ==> next <= t
  {
    hide TimeOfDay, Midnight, Weekday;
    var night, next := Midnight(now) + 2 * HOUR, NextRunOf(WEEKLY, now);
    DayParts(now, 2 * HOUR);
    WeekdayRange(night);
    DaysAhead(night, 7 - Weekday(night));
    forall t | now <= t && IsDue(WEEKLY, t) ensures next <= t {
      OncePerWeek(now, next, t);
    }
  }

  /**
   `calculateNextRun`. The daily time is today's or tomorrow's, the hourly one is strictly ahead, and
   the weekly search takes at most seven steps; each is the first moment its expression allows.
   */
  method CalculateNextRun(cron: string, now: int) returns (next: int, steps: nat)
    ensures cron == DAILY ==> now <= next < now + DAY
    ensures cron == HOURLY ==> now < next <= now + HOUR
    ensures cron == WEEKLY ==> now <= next < now + WEEK && steps <= 7
    ensures cron != DAILY && cron != HOURLY && cron != WEEKLY ==> next == now + HOUR
    ensures IsDue(cron, next)
    ensures cron == DAILY || cron == WEEKLY ==> forall t :: now <= t && IsDue(cron, t) ==> next <= t
    ensures cron == HOURLY ==> forall t :: now < t && IsDue(cron, t) ==> next <= t
    ensures next == NextRunOf(cron, now)
  {
    NextRunIsFirst(cron, now);
    hide TimeOfDay, Midnight, Weekday;
    steps := 0;
    if cron == DAILY {
      next := NextMorning(now);
    } else if cron == HOURLY {
      var today := Midnight(now);
      var hour := (now - today) / HOUR;
      next := today + (hour + 1) * HOUR;
      HourAhead(now);
      forall t | now < t && IsDue(cron, t) ensures next <= t {
        OncePerHour(now, next, t);
      }
    } else if cron == WEEKLY {
      next, steps := NextSunday(now);
    } else {
      next := now + HOUR;
    }
  }

  // ---------------------------------------------------------- runs of a task

  datatype Task = Task(running: bool, runs: nat, errors: nat, cron: string, nextRun: int)

  /** A run is working until it has reported to the statistics, and over once its task is released. */
  datatype Phase = Working | Reported | Over

  /** What started a run: a caller, or the tick at `at` that found the moment `due` past. */
  datatype Cause = Forced | Ticked(due: int, at: int)

  /** One goroutine of `executeTask`; `failed` is known from its report on. */
  datatype Run = Run(task: string, phase: Phase, failed: bool, cause: Cause)

  datatype Stats = Stats(total: nat, successful: nat, failed: nat)

  /** A task that a tick has collected; `seen` is the number of runs there were. */
  datatype Pick = Pick(task: string, due: int, at: int, seen: nat)

  /** `pending` is what the current tick has collected and not yet started; the clock does not run backwards. */
  datatype State = State(tasks: map<string, Task>, runs: seq<Run>, stats: Stats, pending: seq<Pick>, clock: int)

  /**
   `Execute` is a forced run and `Next` the tick's start of its next task, both guarded alike; `Report`
   and `Release` are the goroutine's.
   */
  datatype Event =
    | Execute(task: string)
    | Tick(now: int, order: seq<string>)
    | Next
    | Report(run: nat, failed: bool)
    | Release(run: nat, now: int)

  predicate Ripe(t: Task, now: int) {
    now > t.nextRun && !t.running
  }

  /** The tasks that are due and idle, each once, in any order. */
  predicate IsPicked(order: seq<string>, tasks: map<string, Task>, now: int) {
    && (forall name :: name in order ==> name in tasks && Ripe(tasks[name], now))
    && (forall name :: name in tasks && Ripe(tasks[name], now) ==> name in order)
    && (forall i, j :: 0 <= i < j < |order| ==> order[i] != order[j])
  }

  function Picks(s: State, now: int, order: seq<string>): seq<Pick>
    requires forall name :: name in order ==> name in s.tasks
  {
    seq(|order|, i requires 0 <= i < |order| =>
          assert order[i] in order; Pick(order[i], s.tasks[order[i]].nextRun, now, |s.runs|))
  }

  function Start(s: State, name: string, cause: Cause): State {
    if name !in s.tasks || s.tasks[name].running then s
    else s.(tasks := s.tasks[name := s.tasks[name].(running := true)],
            runs := s.runs + [Run(name, Working, false, cause)])
  }

  function ReportRun(s: State, i: nat, failed: bool): State
    requires i < |s.runs| && s.runs[i].task in s.tasks
  {
    var name := s.runs[i].task;
    var stats := s.stats.(total := s.stats.total + 1);
    var runs := s.runs[i := s.runs[i].(phase := Reported, failed := failed)];
    if failed then
      s.(runs := runs, stats := stats.(failed := stats.failed + 1),
         tasks := s.tasks[name := s.tasks[name].(errors := s.tasks[name].errors + 1)])
    else s.(runs := runs, stats := stats.(successful := stats.successful + 1))
  }

  function ReleaseRun(s: State, i: nat, now: int): State
    requires i < |s.runs| && s.runs[i].task in s.tasks
  {
    var name, task := s.runs[i].task, s.tasks[s.runs[i].task];
    s.(runs := s.runs[i := s.runs[i].(phase := Over)], clock := now,
       tasks := s.tasks[name := task.(running := false, runs := task.runs + 1, nextRun := NextRunOf(task.cron, now))])
  }

  predicate In(s: State, i: nat, phase: Phase) {
    i < |s.runs| && s.runs[i].phase == phase && s.runs[i].task in s.tasks
  }

  function Step(s: State, e: Event): State {
    match e
    case Execute(name) => Start(s, name, Forced)
    case Tick(now, order) =>
      if s.pending == [] && s.clock <= now && IsPicked(order, s.tasks, now) then
        s.(pending := Picks(s, now, order), clock := now)
      else s
    case Next =>
      if s.pending == [] then s
      else Start(s.(pending := s.pending[1..]), s.pending[0].task, Ticked(s.pending[0].due, s.pending[0].at))
    case Report(i, failed) => if In(s, i, Working) then ReportRun(s, i, failed) else s
    case Release(i, now) => if In(s, i, Reported) && s.clock <= now then ReleaseRun(s, i, now) else s
  }

  function Exec(s: State, es: seq<Event>): State {
    if es == [] then s else Step(Exec(s, es[..|es| - 1]), es[|es| - 1])
  }

  /** What to count runs by. */
  datatype Mark = All | Failures | OverOf(task: string) | FailuresOf(task: string)

  function Weight(r: Run, m: Mark): nat {
    match m
    case All => if r.phase == Working then 0 else 1
    case Failures => if r.phase != Working && r.failed then 1 else 0
    case OverOf(task) => if r.phase == Over && r.task == task then 1 else 0
    case FailuresOf(task) => if r.phase != Working && r.failed && r.task == task then 1 else 0
  }

  function Count(runs: seq<Run>, m: Mark): nat {
    if runs == [] then 0 else Count(runs[..|runs| - 1], m) + Weight(runs[|runs| - 1], m)
  }

  lemma {:induction false} CountUpdate(runs: seq<Run>, i: nat, r: Run, m: Mark)
    requires i < |runs|
    ensures Count(runs[i := r], m) + Weight(runs[i], m) == Count(runs, m) + Weight(r, m)
  {
    hide Weight;
    var n, after := |runs| - 1, runs[i := r];
    if i == n {
      assert after[..n] == runs[..n];
    } else {
      CountUpdate(runs[..n], i, r, m);
      assert after[..n] == runs[..n][i := r];
    }
  }

  lemma {:induction false} CountSnoc(runs: seq<Run>, r: Run, m: Mark)
    ensures Count(runs + [r], m) == Count(runs, m) + Weight(r, m)
  {
    assert (runs + [r])[..|runs|] == runs;
  }

  predicate Active(r: Run, name: string) {
    r.task == name && r.phase != Over
  }

  predicate SomeActive(runs: seq<Run>, name: string) {
    exists i :: 0 <= i < |runs| && Active(runs[i], name)
  }

  /** A task is marked as running exactly while a run of it is active, and there is never a second one. */
  ghost predicate OneActive(s: State) {
    && (forall i :: 0 <= i < |s.runs| && s.runs[i].phase != Over ==>
        s.runs[i].task in s.tasks && s.tasks[s.runs[i].task].running)
    && (forall i, j :: 0 <= i < j < |s.runs| && s.runs[i].task == s.runs[j].task ==>
        s.runs[i].phase == Over || s.runs[j].phase == Over)
    && (forall name :: name in s.tasks && s.tasks[name].running ==> SomeActive(s.runs, name))
  }

  predicate StatsCounted(s: State) {
    s.stats.total == Count(s.runs, All) && s.stats.failed == Count(s.runs, Failures) &&
      s.stats.total == s.stats.successful + s.stats.failed
  }

  predicate TaskCounted(s: State, name: string) {
    name in s.tasks ==>
      s.tasks[name].runs == Count(s.runs, OverOf(name)) && s.tasks[name].errors == Count(s.runs, FailuresOf(name))
  }

  /** The statistics count the reported runs, and every task's counters count its own. */
  ghost predicate Counted(s: State) {
    StatsCounted(s) && forall name :: TaskCounted(s, name)
  }

  lemma ActiveKept(runs: seq<Run>, after: seq<Run>, name: string)
    requires SomeActive(runs, name) && |runs| <= |after|
    requires forall i :: 0 <= i < |runs| && Active(runs[i], name) ==> Active(after[i], name)
    ensures SomeActive(after, name)
  {
    var i :| 0 <= i < |runs| && Active(runs[i], name);
    assert Active(after[i], name);
  }

  lemma StartOneActive(s: State, name: string, cause: Cause)
    requires OneActive(s)
    ensures OneActive(Start(s, name, cause))
  {
    hide SomeActive;
    var t := Start(s, name, cause);
    if t != s {
      forall n | n in t.tasks && t.tasks[n].running ensures SomeActive(t.runs, n) {
        if n == name {
          assert Active(t.runs[|s.runs|], n);
          ActiveHere(t.runs, |s.runs|, n);
        } else {
          ActiveKept(s.runs, t.runs, n);
        }
      }
    }
  }

  lemma ActiveHere(runs: seq<Run>, i: nat, name: string)
    requires i < |runs| && Active(runs[i], name)
    ensures SomeActive(runs, name)
  {
  }

  lemma ReportOneActive(s: State, i: nat, failed: bool)
    requires OneActive(s) && In(s, i, Working)
    ensures OneActive(ReportRun(s, i, failed))
  {
    hide SomeActive;
    var t := ReportRun(s, i, failed);
    forall n | n in t.tasks && t.tasks[n].running ensures SomeActive(t.runs, n) {
      ActiveKept(s.runs, t.runs, n);
    }
  }

  lemma ReleaseOneActive(s: State, i: nat, now: int)
    requires OneActive(s) && In(s, i, Reported)
    ensures OneActive(ReleaseRun(s, i, now))
  {
    hide SomeActive, NextRunOf;
    var t := ReleaseRun(s, i, now);
    forall n | n in t.tasks && t.tasks[n].running ensures SomeActive(t.runs, n) {
      ActiveKept(s.runs, t.runs, n);
    }
  }

  lemma StepOneActive(s: State, e: Event)
    requires OneActive(s)
    ensures OneActive(Step(s, e))
  {
    hide SomeActive, Start, ReportRun, ReleaseRun, Picks, IsPicked;
    match e
    case Execute(name) => StartOneActive(s, name, Forced);
    case Tick(_, _) =>
    case Next =>
      if s.pending != [] {
        StartOneActive(s.(pending := s.pending[1..]), s.pending[0].task, Ticked(s.pending[0].due, s.pending[0].at));
      }
    case Report(i, failed) =>
      if In(s, i, Working) {
        ReportOneActive(s, i, failed);
      }
    case Release(i, now) =>
      if In(s, i, Reported) {
        ReleaseOneActive(s, i, now);
      }
  }

  lemma StartCounted(s: State, name: string, cause: Cause)
    requires Counted(s)
    ensures Counted(Start(s, name, cause))
  {
    hide Count;
    var t := Start(s, name, cause);
    if t != s {
      CountSnoc(s.runs, Run(name, Working, false, cause), All);
      CountSnoc(s.runs, Run(name, Working, false, cause), Failures);
      forall n ensures TaskCounted(t, n) {
        assert TaskCounted(s, n);
        CountSnoc(s.runs, Run(name, Working, false, cause), OverOf(n));
        CountSnoc(s.runs, Run(name, Working, false, cause), FailuresOf(n));
      }
    }
  }

  lemma ReportCounted(s: State, i: nat, failed: bool)
    requires Counted(s) && In(s, i, Working)
    ensures Counted(ReportRun(s, i, failed))
  {
    hide Count;
    var t := ReportRun(s, i, failed);
    CountUpdate(s.runs, i, t.runs[i], All);
    CountUpdate(s.runs, i, t.runs[i], Failures);
    forall n ensures TaskCounted(t, n) {
      assert TaskCounted(s, n);
      CountUpdate(s.runs, i, t.runs[i], OverOf(n));
      CountUpdate(s.runs, i, t.runs[i], FailuresOf(n));
    }
  }

  lemma ReleaseCounted(s: State, i: nat, now: int)
    requires Counted(s) && In(s, i, Reported)
    ensures Counted(ReleaseRun(s, i, now))
  {
    hide Count, NextRunOf;
    var t := ReleaseRun(s, i, now);
    CountUpdate(s.runs, i, t.runs[i], All);
    CountUpdate(s.runs, i, t.runs[i], Failures);
    forall n ensures TaskCounted(t, n) {
      assert TaskCounted(s, n);
      CountUpdate(s.runs, i, t.runs[i], OverOf(n));
      CountUpdate(s.runs, i, t.runs[i], FailuresOf(n));
    }
  }

  lemma SameCounts(s: State, t: State)
    requires Counted(s) && t.tasks == s.tasks && t.runs == s.runs && t.stats == s.stats
    ensures Counted(t)
  {
    forall n ensures TaskCounted(t, n) {
      assert TaskCounted(s, n);
    }
  }

  lemma StepCounted(s: State, e: Event)
    requires Counted(s)
    ensures Counted(Step(s, e))
  {
    hide Counted, Start, ReportRun, ReleaseRun, Picks, IsPicked;
    match e
    case Execute(name) => StartCounted(s, name, Forced);
    case Tick(_, _) => SameCounts(s, Step(s, e));
    case Next =>
      if s.pending != [] {
        var t := s.(pending := s.pending[1..]);
        SameCounts(s, t);
        StartCounted(t, s.pending[0].task, Ticked(s.pending[0].due, s.pending[0].at));
      }
    case Report(i, failed) =>
      if In(s, i, Working) {
        ReportCounted(s, i, failed);
      }
    case Release(i, now) =>
      if In(s, i, Reported) {
        ReleaseCounted(s, i, now);
      }
  }

  /**
   In every interleaving of ticks and forced runs a task has at most one active run, and
   TotalTaskRuns = SuccessfulRuns + FailedRuns, each counting exactly the reported runs.
   */
  lemma {:induction false} RunsAreSingle(s: State, es: seq<Event>)
    requires OneActive(s) && Counted(s)
    ensures OneActive(Exec(s, es)) && Counted(Exec(s, es))
  {
    if es != [] {
      hide Step, OneActive, Counted;
      RunsAreSingle(s, es[..|es| - 1]);
      StepOneActive(Exec(s, es[..|es| - 1]), es[|es| - 1]);
      StepCounted(Exec(s, es[..|es| - 1]), es[|es| - 1]);
    }
  }

  /** In every run, a forced run starts a task exactly when none of its runs is active. */
  lemma {:induction false} StartsExactly(s: State, es: seq<Event>, name: string)
    requires OneActive(s) && Counted(s) && name in Exec(s, es).tasks
    ensures var t := Exec(s, es);
            |Step(t, Execute(name)).runs| == |t.runs| + 1 <==> !SomeActive(t.runs, name)
  {
    hide Exec;
    RunsAreSingle(s, es);
  }

  /** The tasks as registered, before any run. */
  function Registered(crons: map<string, string>, now: int): State {
    State(map name | name in crons :: Task(false, 0, 0, crons[name], NextRunOf(crons[name], now)), [], Stats(0, 0, 0),
          [], now)
  }

  /** From registration on. */
  lemma {:induction false} RegisteredRuns(crons: map<string, string>, now: int, es: seq<Event>)
    ensures OneActive(Exec(Registered(crons, now), es)) && Counted(Exec(Registered(crons, now), es))
  {
    hide Exec;
    RegisteredIsRight(crons, now);
    hide OneActive, Counted, Registered;
    RunsAreSingle(Registered(crons, now), es);
  }

  lemma RegisteredIsRight(crons: map<string, string>, now: int)
    ensures OneActive(Registered(crons, now)) && Counted(Registered(crons, now)) && OnTime(Registered(crons, now))
  {
    hide IsDue, Midnight, Weekday;
    forall name | name in crons ensures IsDue(crons[name], NextRunOf(crons[name], now)) {
      NextRunIsFirst(crons[name], now);
    }
    hide NextRunOf;
  }

  // ------------------------------------------------------ one run for each due moment

  predicate TickedFor(r: Run, name: string) {
    r.task == name && r.cause.Ticked?
  }

  /**
   A run that a tick started belongs to a due moment before that tick, and the task is due next only after the
   tick.
   */
  predicate RunOnTime(s: State, i: nat)
    requires i < |s.runs|
  {
    var r := s.runs[i];
    r.cause.Ticked? ==>
      && r.task in s.tasks && r.cause.due < r.cause.at <= s.clock && IsDue(s.tasks[r.task].cron, r.cause.due)
      && (r.phase == Over ==> r.cause.at <= s.tasks[r.task].nextRun)
  }

  predicate RunsApart(s: State, i: nat, j: nat)
    requires i < j < |s.runs|
  {
    s.runs[i].cause.Ticked? && TickedFor(s.runs[j], s.runs[i].task) ==> s.runs[i].cause.at <= s.runs[j].cause.due
  }

  /**
   A collected task had been due before the tick and idle, so its earlier runs are over. It is still due
   unless a forced run of it has ended since.
   */
  predicate PickOnTime(s: State, d: Pick) {
    && d.task in s.tasks && d.due < d.at <= s.clock && d.seen <= |s.runs| && IsDue(s.tasks[d.task].cron, d.due)
    && (forall i :: 0 <= i < d.seen && s.runs[i].task == d.task ==> s.runs[i].phase == Over)
    && (forall i :: d.seen <= i < |s.runs| && s.runs[i].task == d.task ==> s.runs[i].cause == Forced)
    && (forall i :: 0 <= i < |s.runs| && TickedFor(s.runs[i], d.task) ==> s.runs[i].cause.at <= d.due)
    && (if EndedSince(s, d) then s.tasks[d.task].nextRun >= d.at else s.tasks[d.task].nextRun == d.due)
  }

  /** A run that began after the task was collected is over. */
  predicate EndedSince(s: State, d: Pick) {
    exists i :: d.seen <= i < |s.runs| && s.runs[i].task == d.task && s.runs[i].phase == Over
  }

  ghost predicate OnTime(s: State) {
    && (forall name :: name in s.tasks ==> IsDue(s.tasks[name].cron, s.tasks[name].nextRun))
    && (forall i :: 0 <= i < |s.runs| ==> RunOnTime(s, i))
    && (forall i, j :: 0 <= i < j < |s.runs| ==> RunsApart(s, i, j))
    && (forall d :: d in s.pending ==> PickOnTime(s, d))
    && (forall i, j :: 0 <= i < j < |s.pending| ==> s.pending[i].task != s.pending[j].task)
  }

  lemma StartOnTime(s: State, name: string, cause: Cause)
    requires OnTime(s)
    requires cause.Ticked? && name in s.tasks ==>
             && cause.due < cause.at <= s.clock && IsDue(s.tasks[name].cron, cause.due)
             && (forall i :: 0 <= i < |s.runs| && TickedFor(s.runs[i], name) ==> s.runs[i].cause.at <= cause.due)
             && forall d :: d in s.pending ==> d.task != name
    ensures OnTime(Start(s, name, cause))
  {
    hide IsDue, PickOnTime, RunOnTime, RunsApart;
    var t := Start(s, name, cause);
    if t != s {
      forall i | 0 <= i < |t.runs| ensures RunOnTime(t, i) {
        RunOnTimeAfter(s, t, i);
      }
      forall i, j | 0 <= i < j < |t.runs| ensures RunsApart(t, i, j) {
        RunsApartAfter(s, t, i, j);
      }
      forall d | d in t.pending ensures PickOnTime(t, d) {
        PickAfterStart(s, name, cause, d);
      }
    }
  }

  lemma RunOnTimeAfter(s: State, t: State, i: nat)
    requires OnTime(s) && i < |t.runs| == |s.runs| + 1 && t.runs[..|s.runs|] == s.runs && t.clock == s.clock
    requires t.tasks.Keys == s.tasks.Keys
    requires forall n :: n in s.tasks ==> t.tasks[n].cron == s.tasks[n].cron && t.tasks[n].nextRun == s.tasks[n].nextRun
    requires t.runs[|s.runs|].phase == Working
    requires var r := t.runs[|s.runs|];
             r.cause.Ticked? ==>
             r.task in s.tasks && r.cause.due < r.cause.at <= s.clock && IsDue(s.tasks[r.task].cron, r.cause.due)
    ensures RunOnTime(t, i)
  {
    hide IsDue, PickOnTime, RunsApart;
    assert i < |s.runs| ==> t.runs[i] == s.runs[i] && RunOnTime(s, i);
  }

  lemma RunsApartAfter(s: State, t: State, i: nat, j: nat)
    requires OnTime(s) && i < j < |t.runs| == |s.runs| + 1 && t.runs[..|s.runs|] == s.runs
    requires var r := t.runs[|s.runs|];
             r.cause.Ticked? ==>
             forall i :: 0 <= i < |s.runs| && TickedFor(s.runs[i], r.task) ==> s.runs[i].cause.at <= r.cause.due
    ensures RunsApart(t, i, j)
  {
    hide IsDue, PickOnTime, RunOnTime;
    assert t.runs[i] == s.runs[i];
    assert j < |s.runs| ==> t.runs[j] == s.runs[j] && RunsApart(s, i, j);
    assert TickedFor(s.runs[i], s.runs[i].task) <==> s.runs[i].cause.Ticked?;
  }

  lemma PickAfterStart(s: State, name: string, cause: Cause, d: Pick)
    requires PickOnTime(s, d) && (d.task == name ==> cause == Forced)
    ensures PickOnTime(Start(s, name, cause), d)
  {
    hide IsDue;
    var t := Start(s, name, cause);
    assert EndedSince(t, d) <==> EndedSince(s, d) by {
      if EndedSince(s, d) {
        var i :| d.seen <= i < |s.runs| && s.runs[i].task == d.task && s.runs[i].phase == Over;
        assert t.runs[i] == s.runs[i];
      }
    }
    hide EndedSince;
  }

  lemma TickOnTime(s: State, now: int, order: seq<string>)
    requires OnTime(s) && OneActive(s) && s.clock <= now && s.pending == [] && IsPicked(order, s.tasks, now)
    ensures OnTime(s.(pending := Picks(s, now, order), clock := now))
  {
    hide IsDue;
    var t := s.(pending := Picks(s, now, order), clock := now);
    forall i | 0 <= i < |t.runs| ensures RunOnTime(t, i) {
      assert RunOnTime(s, i);
    }
    forall i, j | 0 <= i < j < |t.runs| ensures RunsApart(t, i, j) {
      assert RunsApart(s, i, j);
    }
    forall d | d in t.pending ensures PickOnTime(t, d) {
      var k :| 0 <= k < |order| && d == t.pending[k];
      assert order[k] in order;
      forall i | 0 <= i < |s.runs| && s.runs[i].task == d.task
        ensures s.runs[i].phase == Over && (TickedFor(s.runs[i], d.task) ==> s.runs[i].cause.at <= d.due)
      {
        assert RunOnTime(s, i);
      }
      assert !EndedSince(t, d);
    }
  }

  lemma ReportOnTime(s: State, i: nat, failed: bool)
    requires OnTime(s) && In(s, i, Working)
    ensures OnTime(ReportRun(s, i, failed))
  {
    hide IsDue;
    var t := ReportRun(s, i, failed);
    forall j | 0 <= j < |t.runs| ensures RunOnTime(t, j) {
      assert RunOnTime(s, j);
    }
    forall j, k | 0 <= j < k < |t.runs| ensures RunsApart(t, j, k) {
      assert RunsApart(s, j, k);
    }
    forall d | d in t.pending ensures PickOnTime(t, d) {
      assert PickOnTime(s, d);
      PickAfterReport(s, i, failed, d);
    }
  }

  lemma PickAfterReport(s: State, i: nat, failed: bool, d: Pick)
    requires PickOnTime(s, d) && In(s, i, Working)
    ensures PickOnTime(ReportRun(s, i, failed), d)
  {
    hide IsDue;
    var t := ReportRun(s, i, failed);
    assert EndedSince(t, d) <==> EndedSince(s, d) by {
      if EndedSince(s, d) {
        var j :| d.seen <= j < |s.runs| && s.runs[j].task == d.task && s.runs[j].phase == Over;
        assert t.runs[j] == s.runs[j];
      }
      if EndedSince(t, d) {
        var j :| d.seen <= j < |t.runs| && t.runs[j].task == d.task && t.runs[j].phase == Over;
        assert t.runs[j] == s.runs[j];
      }
    }
    hide EndedSince;
    assert forall j :: 0 <= j < |t.runs| ==> t.runs[j].task == s.runs[j].task && t.runs[j].cause == s.runs[j].cause;
  }

  lemma ReleaseOnTime(s: State, i: nat, now: int)
    requires OnTime(s) && In(s, i, Reported) && s.clock <= now
    ensures OnTime(ReleaseRun(s, i, now))
  {
    hide IsDue, NextRunOf;
    var t := ReleaseRun(s, i, now);
    NextRunIsFirst(s.tasks[s.runs[i].task].cron, now);
    forall j | 0 <= j < |t.runs| ensures RunOnTime(t, j) {
      assert RunOnTime(s, j);
    }
    forall j, k | 0 <= j < k < |t.runs| ensures RunsApart(t, j, k) {
      assert RunsApart(s, j, k);
    }
    forall d | d in t.pending ensures PickOnTime(t, d) {
      assert PickOnTime(s, d);
      PickAfterRelease(s, i, now, d);
    }
  }

  lemma PickAfterRelease(s: State, i: nat, now: int, d: Pick)
    requires PickOnTime(s, d) && In(s, i, Reported) && s.clock <= now
    ensures PickOnTime(ReleaseRun(s, i, now), d)
  {
    hide IsDue, NextRunOf;
    var t := ReleaseRun(s, i, now);
    NextRunIsFirst(s.tasks[s.runs[i].task].cron, now);
    assert EndedSince(t, d) <==> EndedSince(s, d) || s.runs[i].task == d.task by {
      if EndedSince(s, d) {
        var j :| d.seen <= j < |s.runs| && s.runs[j].task == d.task && s.runs[j].phase == Over;
        assert t.runs[j] == s.runs[j];
      }
      if EndedSince(t, d) {
        var j :| d.seen <= j < |t.runs| && t.runs[j].task == d.task && t.runs[j].phase == Over;
        assert j != i ==> t.runs[j] == s.runs[j];
      }
      if s.runs[i].task == d.task {
        assert t.runs[i].phase == Over;
      }
    }
    hide EndedSince;
    assert forall j :: 0 <= j < |t.runs| ==> t.runs[j].task == s.runs[j].task && t.runs[j].cause == s.runs[j].cause;
  }

  lemma NextOnTime(s: State)
    requires OnTime(s) && s.pending != []
    ensures var d := s.pending[0];
            OnTime(Start(s.(pending := s.pending[1..]), d.task, Ticked(d.due, d.at)))
  {
    hide IsDue;
    var t, d := s.(pending := s.pending[1..]), s.pending[0];
    assert d in s.pending && PickOnTime(s, d);
    assert OnTime(t) by {
      forall i | 0 <= i < |t.runs| ensures RunOnTime(t, i) {
        assert RunOnTime(s, i);
      }
      forall i, j | 0 <= i < j < |t.runs| ensures RunsApart(t, i, j) {
        assert RunsApart(s, i, j);
      }
      forall e | e in t.pending ensures PickOnTime(t, e) {
        assert e in s.pending && PickOnTime(s, e) && (EndedSince(t, e) <==> EndedSince(s, e));
      }
    }
    assert forall e :: e in t.pending ==> e.task != d.task;
    hide OnTime, EndedSince;
    StartOnTime(t, d.task, Ticked(d.due, d.at));
  }

  lemma StepOnTime(s: State, e: Event)
    requires OnTime(s) && OneActive(s)
    ensures OnTime(Step(s, e))
  {
    hide OnTime, OneActive, Start, ReportRun, ReleaseRun, Picks, IsPicked;
    match e
    case Execute(name) => StartOnTime(s, name, Forced);
    case Tick(now, order) =>
      if s.pending == [] && s.clock <= now && IsPicked(order, s.tasks, now) {
        TickOnTime(s, now, order);
      }
    case Next =>
      if s.pending != [] {
        NextOnTime(s);
      }
    case Report(i, failed) =>
      if In(s, i, Working) {
        ReportOnTime(s, i, failed);
      }
    case Release(i, now) =>
      if In(s, i, Reported) && s.clock <= now {
        ReleaseOnTime(s, i, now);
      }
  }

  lemma {:induction false} RunsAreOnTime(s: State, es: seq<Event>)
    requires OneActive(s) && Counted(s) && OnTime(s)
    ensures OnTime(Exec(s, es))
  {
    if es != [] {
      hide Step, OneActive, Counted, OnTime;
      RunsAreOnTime(s, es[..|es| - 1]);
      RunsAreSingle(s, es[..|es| - 1]);
      StepOnTime(Exec(s, es[..|es| - 1]), es[|es| - 1]);
    }
  }

  /**
   In every interleaving of ticks, forced runs and running tasks, each run that a tick starts belongs to
   a moment its expression allows, which lies behind the tick of the task's ticked run before: no moment
   is served twice, and no two ticks start the task in one period.
   */
  lemma {:induction false} OneRunForEachMoment(crons: map<string, string>, now: int, es: seq<Event>, i: nat, j: nat)
    requires var s := Exec(Registered(crons, now), es);
             i < j < |s.runs| && s.runs[i].cause.Ticked? && TickedFor(s.runs[j], s.runs[i].task)
    ensures var s := Exec(Registered(crons, now), es);
            var a, b, name := s.runs[i].cause, s.runs[j].cause, s.runs[i].task;
            && a.due < a.at <= b.due < b.at && name in s.tasks
            && IsDue(s.tasks[name].cron, a.due) && IsDue(s.tasks[name].cron, b.due)
  {
    hide Exec, IsDue;
    RegisteredIsRight(crons, now);
    RunsAreOnTime(Registered(crons, now), es);
    hide Registered;
    var s := Exec(Registered(crons, now), es);
    assert RunOnTime(s, i) && RunOnTime(s, j) && RunsApart(s, i, j);
  }

  /**
   In every run, the task that the tick is about to start is still due exactly when no forced run of it
   has ended since it was collected.
   */
  lemma {:induction false} StillDueExactly(crons: map<string, string>, now: int, es: seq<Event>)
    requires Exec(Registered(crons, now), es).pending != []
    ensures var s := Exec(Registered(crons, now), es);
            var d := s.pending[0];
            && d.task in s.tasks && (s.tasks[d.task].nextRun < d.at <==> !EndedSince(s, d))
            && forall i :: d.seen <= i < |s.runs| && s.runs[i].task == d.task ==> s.runs[i].cause == Forced
  {
    hide Exec, IsDue, EndedSince;
    RegisteredIsRight(crons, now);
    RunsAreOnTime(Registered(crons, now), es);
    hide Registered;
    var s := Exec(Registered(crons, now), es);
    assert PickOnTime(s, s.pending[0]);
  }

  // ------------------------------------------------------- no moment is left out

  /** The first moment from `since` on that the expression allows; the hourly one lies after it. */
  ghost predicate IsFirst(cron: string, since: int, next: int) {
    if cron == DAILY || cron == WEEKLY then
      since <= next && IsDue(cron, next) && forall t :: since <= t < next ==> !IsDue(cron, t)
    else if cron == HOURLY then
      since < next && IsDue(cron, next) && forall t :: since < t < next ==> !IsDue(cron, t)
    else next == since + HOUR
  }

  lemma NextRunIs(cron: string, now: int)
    ensures IsFirst(cron, now, NextRunOf(cron, now))
  {
    hide IsDue, Midnight, TimeOfDay, Weekday;
    NextRunIsFirst(cron, now);
    assert cron != DAILY && cron != WEEKLY && cron != HOURLY ==> NextRunOf(cron, now) == now + HOUR;
    hide NextRunOf;
  }

  /** The event ends a run of the task. */
  predicate Ends(s: State, e: Event, name: string) {
    e.Release? && In(s, e.run, Reported) && s.clock <= e.now && s.runs[e.run].task == name
  }

  /** When the task was last free to be planned: at its registration or at the end of its latest run. */
  function Freed(crons: map<string, string>, start: int, es: seq<Event>, name: string): int {
    if es == [] then start
    else
      var front, last := es[..|es| - 1], es[|es| - 1];
      if Ends(Exec(Registered(crons, start), front), last, name) then last.now else Freed(crons, start, front, name)
  }

  /** Only the end of a run plans a task anew; that run is then over and the task idle. */
  lemma StepPlans(s: State, e: Event, name: string)
    requires name in s.tasks
    ensures var t := Step(s, e);
            && name in t.tasks && t.tasks[name].cron == s.tasks[name].cron
            && (Ends(s, e, name) ==>
                  IsFirst(s.tasks[name].cron, e.now, t.tasks[name].nextRun) && !t.tasks[name].running &&
                  t.runs[e.run].phase == Over && t.clock == e.now)
            && (!Ends(s, e, name) ==> t.tasks[name].nextRun == s.tasks[name].nextRun)
  {
    NextRunIs(s.tasks[name].cron, if e.Release? then e.now else 0);
    hide NextRunOf, IsFirst, IsPicked, Picks;
  }

  /**
   In every interleaving a task is planned for the first moment that its expression allows after its
   registration or the end of its latest run: none is passed over.
   */
  lemma {:induction false} NoMomentSkipped(crons: map<string, string>, start: int, es: seq<Event>, name: string)
    requires name in crons
    ensures var s := Exec(Registered(crons, start), es);
            && name in s.tasks && s.tasks[name].cron == crons[name]
            && IsFirst(crons[name], Freed(crons, start, es, name), s.tasks[name].nextRun)
  {
    hide Step, IsFirst, NextRunOf, Ends;
    if es == [] {
      NextRunIs(crons[name], start);
    } else {
      hide Registered;
      var front := es[..|es| - 1];
      NoMomentSkipped(crons, start, front, name);
      StepPlans(Exec(Registered(crons, start), front), es[|es| - 1], name);
    }
  }

  /** A tick collects a task, and a caller runs it to its end before the tick starts it. */
  function TwiceRun(name: string, now: int): seq<Event> {
    [Tick(now, [name])] + [Execute(name)] + [Report(0, false)] + [Release(0, now)] + [Next]
  }

  lemma {:induction false} ExecSnoc(s: State, es: seq<Event>, e: Event)
    ensures Exec(s, es + [e]) == Step(Exec(s, es), e)
  {
    assert (es + [e])[..|es|] == es;
  }

  /**
   So a forced run and a tick can run a task twice for one moment: the tick starts it although it is not due
   any more.
   */
  lemma ForcedRunCanRepeat(name: string, cron: string, now: int)
    ensures var start := Registered(map[name := cron], now);
            var due := NextRunOf(cron, now);
            var s := Exec(start, TwiceRun(name, due + 1));
            && s.runs == [Run(name, Over, false, Forced), Run(name, Working, false, Ticked(due, due + 1))]
            && name in s.tasks && s.tasks[name].nextRun >= due + 1
  {
    hide NextRunOf, Step;
    var due := NextRunOf(cron, now);
    var start, run := Registered(map[name := cron], now), TwiceRun(name, due + 1);
    NextRunIsFirst(cron, now);
    NextRunIsFirst(cron, due + 1);
    for i := 0 to |run|
      invariant Exec(start, run[..i]) == Twice(name, cron, now, i)
    {
      ExecSnoc(start, run[..i], run[i]);
      assert run[..i + 1] == run[..i] + [run[i]];
      TwiceStep(name, cron, now, i);
    }
    assert run[..|run|] == run;
  }

  /** The states of that run. */
  function Twice(name: string, cron: string, now: int, n: nat): State {
    var due := NextRunOf(cron, now);
    var idle, busy := Task(false, 0, 0, cron, due), Task(true, 0, 0, cron, due);
    var again := Task(false, 1, 0, cron, NextRunOf(cron, due + 1));
    var forced, pick := Run(name, Working, false, Forced), Pick(name, due, due + 1, 0);
    if n == 0 then Registered(map[name := cron], now)
    else if n == 1 then State(map[name := idle], [], Stats(0, 0, 0), [pick], due + 1)
    else if n == 2 then State(map[name := busy], [forced], Stats(0, 0, 0), [pick], due + 1)
    else if n == 3 then State(map[name := busy], [forced.(phase := Reported)], Stats(1, 1, 0), [pick], due + 1)
    else if n == 4 then State(map[name := again], [forced.(phase := Over)], Stats(1, 1, 0), [pick], due + 1)
    else State(map[name := again.(running := true)],
               [forced.(phase := Over), Run(name, Working, false, Ticked(due, due + 1))], Stats(1, 1, 0), [], due + 1)
  }

  lemma TwiceStep(name: string, cron: string, now: int, n: nat)
    requires n < 5
    ensures Step(Twice(name, cron, now, n), TwiceRun(name, NextRunOf(cron, now) + 1)[n]) ==
            Twice(name, cron, now, n + 1)
  {
    hide NextRunOf;
    NextRunIsFirst(cron, now);
    if n == 0 {
      TwiceTick(name, cron, now);
    }
    hide IsPicked, Picks, Registered;
  }

  lemma TwiceTick(name: string, cron: string, now: int)
    ensures var due := NextRunOf(cron, now);
            Step(Twice(name, cron, now, 0), Tick(due + 1, [name])) == Twice(name, cron, now, 1)
  {
    hide NextRunOf;
    NextRunIsFirst(cron, now);
    var s, due := Twice(name, cron, now, 0), NextRunOf(cron, now);
    assert s.tasks == map[name := Task(false, 0, 0, cron, due)];
    assert IsPicked([name], s.tasks, due + 1);
    assert Picks(s, due + 1, [name]) == [Pick(name, due, due + 1, 0)];
  }

  // ------------------------------------------------------------- one whole tick

  function StartAll(s: State, n: nat): State
    decreases n
  {
    if n == 0 then s else StartAll(Step(s, Next), n - 1)
  }

  lemma {:induction false} StartAllUnfolds(s: State, n: nat)
    ensures StartAll(s, 0) == s && StartAll(s, n + 1) == StartAll(Step(s, Next), n)
  {
  }

  function RunFor(d: Pick): Run {
    Run(d.task, Working, false, Ticked(d.due, d.at))
  }

  predicate Startable(s: State) {
    && (forall d :: d in s.pending ==> d.task in s.tasks && !s.tasks[d.task].running)
    && (forall i, j :: 0 <= i < j < |s.pending| ==> s.pending[i].task != s.pending[j].task)
  }

  predicate Picked(picks: seq<Pick>, name: string) {
    exists i :: 0 <= i < |picks| && picks[i].task == name
  }

  lemma PickedHead(picks: seq<Pick>, name: string)
    requires picks != []
    ensures Picked(picks, name) <==> picks[0].task == name || Picked(picks[1..], name)
  {
    var rest := picks[1..];
    if Picked(picks, name) && picks[0].task != name {
      var i :| 0 <= i < |picks| && picks[i].task == name;
      assert rest[i - 1].task == name;
    }
    if Picked(rest, name) {
      var i :| 0 <= i < |rest| && rest[i].task == name;
      assert picks[i + 1].task == name;
    }
  }

  lemma NextStarts(s: State)
    requires Startable(s) && s.pending != []
    ensures var d, u := s.pending[0], Step(s, Next);
            && Startable(u) && u.pending == s.pending[1..] && u.runs == s.runs + [RunFor(d)]
            && d.task in s.tasks && u.tasks == s.tasks[d.task := s.tasks[d.task].(running := true)]
  {
    var d, u := s.pending[0], Step(s, Next);
    assert d in s.pending;
    forall e | e in u.pending ensures e.task in u.tasks && !u.tasks[e.task].running {
      assert e in s.pending;
    }
  }

  /** The loop over the collected tasks, with nothing in between: every one of them starts. */
  lemma {:induction false} StartAllRuns(s: State)
    requires Startable(s)
    ensures var t := StartAll(s, |s.pending|);
            && t.pending == [] && |t.runs| == |s.runs| + |s.pending| && t.runs[..|s.runs|] == s.runs
            && forall k :: 0 <= k < |s.pending| ==> t.runs[|s.runs| + k] == RunFor(s.pending[k])
    decreases |s.pending|
  {
    hide Step, Startable, RunFor, StartAll;
    if s.pending == [] {
      StartAllUnfolds(s, 0);
    } else {
      var u := Step(s, Next);
      NextStarts(s);
      StartAllUnfolds(s, |u.pending|);
      StartAllRuns(u);
      var t := StartAll(u, |u.pending|);
      assert t.runs[..|s.runs|] == t.runs[..|u.runs|][..|s.runs|];
      assert t.runs[|s.runs|] == t.runs[..|u.runs|][|s.runs|];
      forall k | 0 <= k < |s.pending| ensures t.runs[|s.runs| + k] == RunFor(s.pending[k]) {
        assert k > 0 ==> s.pending[k] == u.pending[k - 1] && |s.runs| + k == |u.runs| + (k - 1);
      }
    }
  }

  lemma {:induction false} StartAllMarks(s: State, name: string)
    requires Startable(s) && name in s.tasks
    ensures var t := StartAll(s, |s.pending|);
            name in t.tasks && (t.tasks[name].running <==> s.tasks[name].running || Picked(s.pending, name))
    decreases |s.pending|
  {
    hide Step, Startable, StartAll;
    if s.pending == [] {
      StartAllUnfolds(s, 0);
    } else {
      hide Picked;
      var u := Step(s, Next);
      NextStarts(s);
      StartAllUnfolds(s, |u.pending|);
      StartAllMarks(u, name);
      PickedHead(s.pending, name);
    }
  }

  lemma TickCollects(s: State, now: int, order: seq<string>, name: string)
    requires s.pending == [] && s.clock <= now && IsPicked(order, s.tasks, now) && name in s.tasks
    ensures var u := Step(s, Tick(now, order));
            && Startable(u) && u.tasks == s.tasks && u.runs == s.runs && |u.pending| == |order|
            && (forall k :: 0 <= k < |order| ==>
                order[k] in s.tasks && u.pending[k] == Pick(order[k], s.tasks[order[k]].nextRun, now, |s.runs|))
            && (Picked(u.pending, name) <==> Ripe(s.tasks[name], now))
  {
    var u := Step(s, Tick(now, order));
    forall k | 0 <= k < |order| ensures order[k] in s.tasks && Ripe(s.tasks[order[k]], now) {
      assert order[k] in order;
    }
    if Ripe(s.tasks[name], now) {
      var k :| 0 <= k < |order| && order[k] == name;
      assert u.pending[k].task == name;
    }
  }

  /** A tick with nothing in between starts exactly the tasks that are due and idle. */
  lemma {:induction false} TickStartsDue(s: State, now: int, order: seq<string>, name: string)
    requires s.pending == [] && s.clock <= now && IsPicked(order, s.tasks, now) && name in s.tasks
    ensures var t := StartAll(Step(s, Tick(now, order)), |order|);
            && t.pending == [] && |t.runs| == |s.runs| + |order| && t.runs[..|s.runs|] == s.runs
            && (forall k :: 0 <= k < |order| ==>
                order[k] in s.tasks &&
                t.runs[|s.runs| + k] == Run(order[k], Working, false, Ticked(s.tasks[order[k]].nextRun, now)))
            && name in t.tasks
            && (t.tasks[name].running <==> s.tasks[name].running || now > s.tasks[name].nextRun)
  {
    hide StartAll, Step, Startable, Picked, IsPicked;
    TickCollects(s, now, order, name);
    var u := Step(s, Tick(now, order));
    StartAllRuns(u);
    StartAllMarks(u, name);
    var t := StartAll(u, |order|);
    forall k | 0 <= k < |order|
      ensures order[k] in s.tasks &&
              t.runs[|s.runs| + k] == Run(order[k], Working, false, Ticked(s.tasks[order[k]].nextRun, now))
    {
      assert t.runs[|s.runs| + k] == RunFor(u.pending[k]);
    }
  }

  // ------------------------------------------------------------------ the code

  lemma PickedAreKnown(tasks: map<string, Task>, now: int, order: seq<string>)
    requires IsPicked(order, tasks, now)
    ensures forall i :: 0 <= i < |order| ==> order[i] in tasks
    ensures forall name :: name in order ==> name in tasks
  {
    assert forall i :: 0 <= i < |order| ==> order[i] in order;
  }

  class Scheduler {
    var tasks: map<string, Task>
    /** Every goroutine ever started. */
    var runs: seq<Run>
    var stats: Stats

    /** The model's state, given what the current tick has still to start and the latest time read. */
    function Model(pending: seq<Pick>, clock: int): State
      reads this
    {
      State(tasks, runs, stats, pending, clock)
    }

    /** The guarded start, for whatever cause. */
    method ExecuteTask(name: string, cause: Cause)
      requires name in tasks
      modifies this`tasks, this`runs
      ensures forall pending, clock :: Model(pending, clock) == Start(old(Model(pending, clock)), name, cause)
      ensures tasks.Keys == old(tasks.Keys)
      ensures forall n :: n in tasks ==> tasks[n].nextRun == old(tasks)[n].nextRun
    {
      if tasks[name].running {
        return;
      }
      tasks := tasks[name := tasks[name].(running := true)];
      runs := runs + [Run(name, Working, false, cause)];
    }

    method ForceExecuteTask(name: string) returns (found: bool)
      modifies this`tasks, this`runs
      ensures found == (name in old(tasks))
      ensures forall pending, clock :: Model(pending, clock) == Step(old(Model(pending, clock)), Execute(name))
    {
      found := name in tasks;
      if found {
        ExecuteTask(name, Forced);
      }
    }

    /** The first half of `checkAndExecuteTasks`: collects the tasks that are due and idle. */
    method Collect(now: int) returns (order: seq<string>)
      ensures IsPicked(order, tasks, now)
    {
      order := [];
      var pending := tasks.Keys;
      while pending != {}
        invariant pending <= tasks.Keys
        invariant forall name :: name in order ==> name in tasks && name !in pending && Ripe(tasks[name], now)
        invariant forall name :: name in tasks && name !in pending && Ripe(tasks[name], now) ==> name in order
        invariant forall i, j :: 0 <= i < j < |order| ==> order[i] != order[j]
        decreases pending
      {
        var name :| name in pending;
        pending := pending - {name};
        if now > tasks[name].nextRun && !tasks[name].running {
          order := order + [name];
        }
      }
    }

    /** A tick with nothing in between: collects, then starts one task after the other. */
    method CheckAndExecuteTasks(now: int) returns (order: seq<string>)
      modifies this`tasks, this`runs
      ensures IsPicked(order, old(tasks), now)
      ensures forall clock :: clock <= now ==>
                Model([], now) == StartAll(Step(old(Model([], clock)), Tick(now, order)), |order|)
    {
      hide StartAll, IsPicked, Start;
      order := Collect(now);
      PickedAreKnown(tasks, now, order);
      ghost var picks := Picks(Model([], now), now, order);
      ghost var before := Model(picks, now);
      assert forall clock :: clock <= now ==> Step(Model([], clock), Tick(now, order)) == before;
      assert picks[0..] == picks;
      for i := 0 to |order|
        invariant tasks.Keys == old(tasks.Keys)
        invariant forall name :: name in tasks ==> tasks[name].nextRun == old(tasks)[name].nextRun
        invariant StartAll(before, |order|) == StartAll(Model(picks[i..], now), |order| - i)
      {
        ghost var between := Model(picks[i..], now);
        ExecuteTask(order[i], Ticked(tasks[order[i]].nextRun, now));
        assert Model(picks[i + 1..], now) == Step(between, Next);
        StartAllUnfolds(between, |order| - i - 1);
      }
      assert picks[|order|..] == [];
      StartAllUnfolds(Model([], now), 0);
    }

    /** The statistics update at the end of a run. */
    method FinishRun(i: nat, failed: bool)
      requires i < |runs| && runs[i].phase == Working && runs[i].task in tasks
      modifies this
      ensures forall pending, clock :: Model(pending, clock) == Step(old(Model(pending, clock)), Report(i, failed))
    {
      var name := runs[i].task;
      stats := stats.(total := stats.total + 1);
      if failed {
        stats := stats.(failed := stats.failed + 1);
        tasks := tasks[name := tasks[name].(errors := tasks[name].errors + 1)];
      } else {
        stats := stats.(successful := stats.successful + 1);
      }
      runs := runs[i := runs[i].(phase := Reported, failed := failed)];
    }

    /** The deferred release of the task, with its next run. */
    method ReleaseTask(i: nat, now: int)
      requires i < |runs| && runs[i].phase == Reported && runs[i].task in tasks
      modifies this
      ensures forall pending, clock :: clock <= now ==>
                Model(pending, now) == Step(old(Model(pending, clock)), Release(i, now))
      ensures var name := old(runs)[i].task;
              && runs == old(runs)[i := old(runs)[i].(phase := Over)] && tasks.Keys == old(tasks.Keys)
              && !tasks[name].running && tasks[name].runs == old(tasks)[name].runs + 1
              && IsFirst(old(tasks)[name].cron, now, tasks[name].nextRun)
              && forall n :: n in tasks && n != name ==> tasks[n] == old(tasks)[n]
    {
      NextRunIs(tasks[runs[i].task].cron, now);
      hide NextRunOf, IsFirst, IsDue;
      var name := runs[i].task;
      var next, _ := CalculateNextRun(tasks[name].cron, now);
      tasks := tasks[name := tasks[name].(running := false, runs := tasks[name].runs + 1, nextRun := next)];
      runs := runs[i := runs[i].(phase := Over)];
    }
  }
}
