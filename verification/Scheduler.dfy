/**
 The scheduler service: its rows, the handling of one due schedule, the loop's pass over all due
 schedules, edits and runs triggered by hand. Every row carries a ghost history, so that whatever
 the methods do to it is a run of the machine of `SchedulerRuns`.
 */
module Scheduler {
  import opened Wrappers
  import opened NextRun
  import opened SchedulerRuns
  import opened Guards
  import opened Sealing

  datatype ScheduleRow = ScheduleRow(
    scheduleId: string,
    profileId: string,
    schedule: Schedule,
    enabled: bool,
    nextRunAt: Option<int>,
    lastRunAt: Option<int>,
    lastStatus: Option<string>,
    lastErrorCode: Option<string>)

  /** One line of the execution history. */
  datatype HistoryRecord = HistoryRecord(scheduleId: string, profileId: string, startedAt: int, completedAt: int, status: string)

  /** One backup the engine was asked to run, and whether it succeeded. */
  datatype BackupRun = BackupRun(profileId: string, ok: bool)

  datatype Outcome =
    | ProfileNotFound
    | SkippedDisabled
    | SkippedBusy
    | Completed
    | BackupFailed
    | NoNextRun
    | DbFailed

  /** A clock that never goes back; time may pass before each reading. */
  class Clock {
    var now: int

    constructor (start: int)
      ensures now == start
    {
      now := start;
    }

    method Read() returns (t: int)
      modifies this
      ensures t == now && old(now) <= now
    {
      var later: int := *;
      if later > now {
        now := later;
      }
      t := now;
    }
  }

  // ----- rows and their histories --------------------------------------------------------------

  /** The row after a status update: its configuration is kept. */
  function Updated(row: ScheduleRow, next: Option<int>, last: Option<int>, status: string, code: Option<string>): ScheduleRow {
    row.(nextRunAt := next, lastRunAt := last, lastStatus := Some(status), lastErrorCode := code)
  }

  /** What one handling used: the reading its next run comes from, the recorded last run, whether its row was written. */
  datatype Handled = Handled(id: string, reading: int, last: Option<int>, wrote: bool)

  /** The row after a handling: nothing is scheduled any more without a profile. */
  ghost function AfterHandling(row: ScheduleRow, s: ScheduleRow, r: Outcome, h: Handled): ScheduleRow {
    Updated(row, if r == ProfileNotFound then None else NextRunOf(s.schedule, h.reading), h.last, StatusText(r), ErrorCode(r))
  }

  function StatusText(r: Outcome): string {
    match r
    case ProfileNotFound => "invalid_profile"
    case SkippedDisabled => "skipped_profile_disabled"
    case SkippedBusy => "skipped_busy"
    case Completed => "completed"
    case _ => "failed"
  }

  function ErrorCode(r: Outcome): Option<string> {
    match r
    case ProfileNotFound => Some("PROFILE_NOT_FOUND")
    case BackupFailed => Some("BACKUP_FAILED")
    case _ => None
  }

  predicate Due(row: ScheduleRow, now: int) {
    row.enabled && row.nextRunAt.Some? && row.nextRunAt.value <= now
  }

  function Edited(row: ScheduleRow, schedule: Option<Schedule>, enabled: Option<bool>): ScheduleRow {
    row.(schedule := if schedule.Some? then schedule.value else row.schedule,
         enabled := if enabled.Some? then enabled.value else row.enabled)
  }

  /** An edit is accepted: the schedule is one the validator takes, and has a next run if one is needed. */
  ghost predicate MayBecome(row: ScheduleRow, edited: ScheduleRow, timing: bool, now: int) {
    && Accepted(edited.schedule)
    && (edited.enabled && (timing || !row.enabled) ==> NextRunOf(edited.schedule, now).Some?)
  }

  /** How a row came about: a freshly created world, what happened to it since, and where that led. */
  datatype History = History(start: World, events: seq<Event>, world: World)

  /** The history of a row that was just created. */
  ghost function FirstHistory(row: ScheduleRow, armed: Option<Armed>, now: int): History {
    var w := World(now, row.schedule, row.enabled, armed, Waiting, []);
    History(w, [], w)
  }

  function NextOf(armed: Option<Armed>): Option<int> {
    if armed.Some? then Some(armed.value.next) else None
  }

  /** A row is what its history leads to, between two handlings. */
  ghost predicate LeadsTo(h: History, row: ScheduleRow) {
    && Fresh(h.start) && Play(h.start, h.events) == Some(h.world)
    && var w := h.world;
       && w.phase == Waiting && w.schedule == row.schedule && w.enabled == row.enabled && NextOf(w.armed) == row.nextRunAt
       && ValidSchedule(w.schedule) && (w.armed.Some? ==> Genuine(w.armed.value) && w.armed.value.from <= w.clock)
  }

  ghost predicate Leads(x: (History, ScheduleRow)) { LeadsTo(x.0, x.1) }

  ghost predicate Mirrors(row: ScheduleRow, h: History) {
    Sealed(Leads, (h, row), SealDepth(|row.scheduleId|))
  }

  lemma MirrorsIs(row: ScheduleRow, h: History)
    ensures Mirrors(row, h) <==> LeadsTo(h, row)
  {
    SealedIs(Leads, (h, row), SealDepth(|row.scheduleId|));
  }

  function Elapsed(from: int, to: int): nat { if from <= to then to - from else 0 }

  /** The loop's handling of a schedule listed at a time, as events of its history. */
  ghost function HandlingEvents(w: World, at: int, r: Outcome, h: Handled): seq<Event> {
    [Pass(Elapsed(w.clock, at)), ListDue, Pass(Elapsed(at, h.reading)), ReadClock] +
    [if h.wrote then WriteNext(r != ProfileNotFound) else Abandon]
  }

  /** Listing a due schedule and reading the clock for it. */
  lemma ListingSteps(w: World, at: int, reading: int)
    requires w.phase == Waiting && w.enabled && w.armed.Some? && w.armed.value.next <= at && w.clock <= at <= reading
    ensures var p, q := Pass(at - w.clock), Pass(reading - at);
            && Enabled(w, p) && Enabled(Step(w, p), ListDue)
            && var u := Step(Step(w, p), ListDue);
               && Enabled(u, q) && Enabled(Step(u, q), ReadClock)
               && Step(Step(u, q), ReadClock) ==
                  w.(clock := reading, phase := Handling(w.schedule, reading), log := w.log + [Fired(w.armed.value, at, reading)])
  {
  }

  lemma ListingPlays(s: ScheduleRow, hist: History, at: int, reading: int)
    requires LeadsTo(hist, s) && Due(s, at) && hist.world.clock <= at <= reading
    ensures var w := hist.world;
            Play(hist.start, hist.events + [Pass(at - w.clock), ListDue, Pass(reading - at), ReadClock]) ==
            Some(w.(clock := reading, phase := Handling(s.schedule, reading), log := w.log + [Fired(w.armed.value, at, reading)]))
  {
    var w := hist.world;
    var p, q := Pass(at - w.clock), Pass(reading - at);
    ListingSteps(w, at, reading);
    PlayTwo(hist.start, hist.events, p, ListDue);
    PlayTwo(hist.start, hist.events + [p, ListDue], q, ReadClock);
    assert hist.events + [p, ListDue] + [q, ReadClock] == hist.events + [p, ListDue, q, ReadClock];
  }

  /** What a handling leaves in the next-run column, and what that was computed from. */
  ghost predicate ArmedBy(s: ScheduleRow, r: Outcome, h: Handled, before: Option<Armed>, after: Option<Armed>) {
    if !h.wrote then after == before
    else if r == ProfileNotFound then after == None
    else after.Some? && Genuine(after.value) && after.value.basis == s.schedule && after.value.from == h.reading
  }

  /** The history after a handling of a schedule listed at a time. */
  ghost predicate GrewByHandling(before: History, after: History, s: ScheduleRow, at: int, r: Outcome, h: Handled) {
    && before.world.clock <= at <= h.reading && before.world.armed.Some?
    && after.start == before.start && after.events == before.events + HandlingEvents(before.world, at, r, h)
    && ArmedBy(s, r, h, before.world.armed, after.world.armed)
    && after.world == before.world.(clock := h.reading, armed := after.world.armed,
                                    log := before.world.log + [Fired(before.world.armed.value, at, h.reading)])
  }

  /** The history grew by exactly one handling of the loop, due for what the row said. */
  ghost predicate OneHandling(before: History, after: History) {
    && after.start == before.start && before.events <= after.events && before.world.armed.Some?
    && |after.world.log| == |before.world.log| + 1 && before.world.log <= after.world.log
    && after.world.log[|before.world.log|].armed == before.world.armed.value
  }

  /** A handling of a mirrored due row is a run of five events that ends in a mirrored row. */
  lemma HandlingPlays(s: ScheduleRow, hist: History, at: int, r: Outcome, h: Handled) returns (next: History)
    requires Mirrors(s, hist) && Due(s, at) && hist.world.clock <= at <= h.reading
    requires h.wrote && r != ProfileNotFound ==> NextRunOf(s.schedule, h.reading).Some?
    ensures Mirrors(if h.wrote then AfterHandling(s, s, r, h) else s, next)
    ensures GrewByHandling(hist, next, s, at, r, h)
  {
    MirrorsIs(s, hist);
    ListingPlays(s, hist, at, h.reading);
    var w := hist.world;
    var four := hist.events + [Pass(at - w.clock), ListDue, Pass(h.reading - at), ReadClock];
    var last := if h.wrote then WriteNext(r != ProfileNotFound) else Abandon;
    PlayNext(hist.start, four, last);
    assert four + [last] == hist.events + HandlingEvents(w, at, r, h);
    next := History(hist.start, four + [last], Play(hist.start, four + [last]).value);
    MirrorsIs(if h.wrote then AfterHandling(s, s, r, h) else s, next);
  }

  /** The next run a handling wrote was computed at its reading. */
  lemma HandledIsComputed(s: ScheduleRow, r: Outcome, h: Handled, now: int) returns (armed: Option<Armed>)
    requires ValidSchedule(s.schedule) && h.reading <= now
    requires r != ProfileNotFound ==> NextRunOf(s.schedule, h.reading).Some?
    ensures Computed(AfterHandling(s, s, r, h).nextRunAt, armed, now)
  {
    armed := if r == ProfileNotFound then None else Some(ArmedFrom(s.schedule, h.reading));
  }

  /** The history after a write by anybody else. */
  ghost function WithEdit(hist: History, edited: ScheduleRow, armed: Option<Armed>, now: int): History
  {
    History(hist.start, hist.events + [Pass(Elapsed(hist.world.clock, now)), Edit(edited.schedule, edited.enabled, armed)],
            hist.world.(clock := now, schedule := edited.schedule, enabled := edited.enabled, armed := armed))
  }

  /** A next run and what it was computed from, at some time up to now. */
  ghost predicate Computed(next: Option<int>, armed: Option<Armed>, now: int) {
    NextOf(armed) == next && (armed.Some? ==> Genuine(armed.value) && armed.value.from <= now)
  }

  /** A write by anybody else, of a next run computed at an earlier time, is an edit of the history. */
  lemma EditPlays(row: ScheduleRow, hist: History, edited: ScheduleRow, armed: Option<Armed>, now: int)
    requires Mirrors(row, hist) && ValidSchedule(edited.schedule) && Computed(edited.nextRunAt, armed, now)
    requires hist.world.clock <= now
    ensures Mirrors(edited, WithEdit(hist, edited, armed, now))
  {
    MirrorsIs(row, hist);
    PlayTwo(hist.start, hist.events, Pass(now - hist.world.clock), Edit(edited.schedule, edited.enabled, armed));
    MirrorsIs(edited, WithEdit(hist, edited, armed, now));
  }

  /** A mirrored row's own next run was computed at some time up to now. */
  lemma MirroredIsComputed(row: ScheduleRow, hist: History, now: int)
    requires Mirrors(row, hist) && hist.world.clock <= now
    ensures Computed(row.nextRunAt, hist.world.armed, now) && ValidSchedule(row.schedule)
  {
    MirrorsIs(row, hist);
  }

  lemma CreatedMirrors(row: ScheduleRow, armed: Option<Armed>, now: int)
    requires ValidSchedule(row.schedule) && Computed(row.nextRunAt, armed, now)
    ensures var h := FirstHistory(row, armed, now);
            Mirrors(row, h)
  {
    MirrorsIs(row, FirstHistory(row, armed, now));
  }

  /** Every row is stored under its identifier and mirrored by a history that does not run ahead. */
  ghost predicate AllMirrored(rows: map<string, ScheduleRow>, past: map<string, History>, now: int) {
    && past.Keys == rows.Keys
    && forall k :: k in rows ==> rows[k].scheduleId == k && Mirrors(rows[k], past[k]) && past[k].world.clock <= now
  }

  ghost predicate MirrorsAll(x: (map<string, ScheduleRow>, map<string, History>, int)) { AllMirrored(x.0, x.1, x.2) }

  ghost predicate Consistent(rows: map<string, ScheduleRow>, past: map<string, History>, now: int) {
    past.Keys == rows.Keys && Sealed(MirrorsAll, (rows, past, now), SealDepth(|rows|))
  }

  lemma ConsistentIs(rows: map<string, ScheduleRow>, past: map<string, History>, now: int)
    ensures Consistent(rows, past, now) <==> AllMirrored(rows, past, now)
  {
    SealedIs(MirrorsAll, (rows, past, now), SealDepth(|rows|));
  }

  lemma ConsistentAt(rows: map<string, ScheduleRow>, past: map<string, History>, now: int, k: string)
    requires Consistent(rows, past, now) && k in rows
    ensures rows[k].scheduleId == k && Mirrors(rows[k], past[k]) && past[k].world.clock <= now
    ensures ValidSchedule(rows[k].schedule) && Computed(rows[k].nextRunAt, past[k].world.armed, now)
  {
    ConsistentIs(rows, past, now);
    MirroredIsComputed(rows[k], past[k], now);
  }

  lemma ConsistentLater(rows: map<string, ScheduleRow>, past: map<string, History>, now: int, later: int)
    requires Consistent(rows, past, now) && now <= later
    ensures Consistent(rows, past, later)
  {
    ConsistentIs(rows, past, now);
    ConsistentIs(rows, past, later);
  }

  lemma ConsistentPut(rows: map<string, ScheduleRow>, past: map<string, History>, now: int, row: ScheduleRow, h: History)
    requires Consistent(rows, past, now) && Mirrors(row, h) && h.world.clock <= now
    ensures Consistent(rows[row.scheduleId := row], past[row.scheduleId := h], now)
  {
    ConsistentIs(rows, past, now);
    ConsistentIs(rows[row.scheduleId := row], past[row.scheduleId := h], now);
  }

  lemma ConsistentEdit(rows: map<string, ScheduleRow>, past: map<string, History>, now: int, edited: ScheduleRow, armed: Option<Armed>)
    requires Consistent(rows, past, now) && edited.scheduleId in rows
    requires ValidSchedule(edited.schedule) && Computed(edited.nextRunAt, armed, now)
    ensures var id := edited.scheduleId;
            Consistent(rows[id := edited], past[id := WithEdit(past[id], edited, armed, now)], now)
  {
    var id := edited.scheduleId;
    ConsistentAt(rows, past, now, id);
    EditPlays(rows[id], past[id], edited, armed, now);
    ConsistentPut(rows, past, now, edited, WithEdit(past[id], edited, armed, now));
  }

  lemma ConsistentKeys(rows: map<string, ScheduleRow>, past: map<string, History>, clock: int, now: int, rest: set<string>)
    requires Consistent(rows, past, clock) && forall k :: k in rest ==> k in rows && Due(rows[k], now)
    ensures DueKeys(rows, rest, now)
  {
    ConsistentIs(rows, past, clock);
  }

  // ----- the service ---------------------------------------------------------------------------

  class SchedulerService {
    const clock: Clock
    const guard: ExecutionGuard
    /** Known profiles, and whether they are enabled. */
    var profiles: map<string, bool>
    var rows: map<string, ScheduleRow>
    var history: seq<HistoryRecord>
    ghost var past: map<string, History>
    /** The backups run so far. */
    ghost var backups: seq<BackupRun>
    /** How often the database failed so far. */
    ghost var failures: nat

    constructor (c: Clock, g: ExecutionGuard)
      ensures clock == c && guard == g && rows == map[] && profiles == map[] && history == [] && Valid()
      ensures backups == [] && failures == 0
    {
      clock, guard, rows, profiles, history, past := c, g, map[], map[], [], map[];
      backups, failures := [], 0;
      new;
      ConsistentIs(rows, past, clock.now);
    }

    /** Rows are stored under their identifiers, and each is where its history leads. */
    ghost predicate Valid()
      reads this, clock
    {
      Consistent(rows, past, clock.now)
    }

    /**
     Whatever the methods of the service did to a schedule, in whatever order, two consecutive handlings
     by the loop have a scheduled instant between them unless an event of its history disturbed it.
     */
    lemma HandlingsSpaced(k: string, i: nat)
      requires Valid() && k in rows && Clean(past[k].start, past[k].events) && 0 < i < |past[k].world.log|
      ensures var log := past[k].world.log;
              && log[i - 1].reading < log[i].armed.next <= log[i].listedAt <= log[i].reading
              && (IsCalendar(log[i].armed.basis) ==> Occurs(log[i].armed.basis, log[i].armed.next))
    {
      ConsistentAt(rows, past, clock.now, k);
      MirrorsIs(rows[k], past[k]);
      OccurrenceBetweenHandlings(past[k].start, past[k].events, i);
    }

    /** The statement may fail; then nothing changes. */
    method UpdateStatus(id: string, next: Option<int>, last: Option<int>, status: string, code: Option<string>)
      returns (ok: bool)
      modifies this`rows, this`failures
      ensures ok ==> id in old(rows) && rows == old(rows)[id := Updated(old(rows)[id], next, last, status, code)]
      ensures !ok ==> rows == old(rows)
      ensures failures >= old(failures) && (ok <==> id in old(rows) && failures == old(failures))
    {
      if id !in rows {
        return false;
      }
      if * {
        failures := failures + 1;
        return false;
      }
      rows := rows[id := Updated(rows[id], next, last, status, code)];
      return true;
    }

    /** Appends to the execution history; a failure to do so is ignored. */
    method RecordHistory(h: HistoryRecord)
      modifies this`history, this`failures
      ensures failures >= old(failures)
      ensures history == if failures == old(failures) then old(history) + [h] else old(history)
    {
      if * {
        failures := failures + 1;
        return;
      }
      history := history + [h];
    }

    /** Plans and executes a backup: any result, after any time. */
    method RunBackup(profileId: string) returns (ok: bool)
      modifies clock, this`backups
      ensures old(clock.now) <= clock.now
      ensures backups == old(backups) + [BackupRun(profileId, ok)]
    {
      var _ := clock.Read();
      ok := *;
      backups := backups + [BackupRun(profileId, ok)];
    }

    /** A handling that runs no backup: the next run is computed from the start of the handling. */
    method Skip(s: ScheduleRow, now: int, last: Option<int>, status: string, skipped: Outcome) returns (r: Outcome, ghost h: Handled)
      requires ValidSchedule(s.schedule) && (skipped == SkippedDisabled || skipped == SkippedBusy) && status == StatusText(skipped)
      modifies this`rows, this`failures
      ensures r == (if NextRunOf(s.schedule, now).None? then NoNextRun else skipped)
      ensures h.id == s.scheduleId && h.reading == now && (r == skipped ==> h.last == last) && failures >= old(failures)
      ensures h.wrote ==> h.id in old(rows) && rows == old(rows)[h.id := AfterHandling(old(rows)[h.id], s, r, h)]
      ensures !h.wrote ==> rows == old(rows)
      ensures r == NoNextRun ==> !h.wrote
      ensures h.wrote ==> StatusColumns(rows[h.id], r) && rows[h.id].lastRunAt == h.last
      ensures failures == old(failures) && r != NoNextRun ==> (h.wrote <==> h.id in old(rows))
    {
      var next := CalculateNextRun(s.schedule, now);
      if next.None? {
        return NoNextRun, Handled(s.scheduleId, now, None, false);
      }
      var wrote := UpdateStatus(s.scheduleId, next, last, status, None);
      return skipped, Handled(s.scheduleId, now, last, wrote);
    }

    /**
     Handles one schedule. Its next run is computed from a clock reading: the start of the handling if
     it is skipped, its end if a backup ran. Only the timing and status columns of its row change.
     The guard is held only during the handling.
     */
    method ExecuteSingle(s: ScheduleRow, ghost worker: nat) returns (r: Outcome, ghost h: Handled)
      requires ValidSchedule(s.schedule) && worker !in guard.holds
      modifies this`rows, this`history, this`backups, this`failures, clock, guard
      ensures guard.View() == old(guard.View()) && failures >= old(failures)
      ensures h.id == s.scheduleId && old(clock.now) <= h.reading <= clock.now
      ensures h.wrote ==> h.id in old(rows) && rows == old(rows)[h.id := AfterHandling(old(rows)[h.id], s, r, h)]
      ensures !h.wrote ==> rows == old(rows)
      ensures r == ProfileNotFound ==> s.profileId !in profiles && h.last == Some(h.reading)
      ensures r == SkippedDisabled ==> s.profileId in profiles && !profiles[s.profileId] && h.last == Some(h.reading)
      ensures r == SkippedBusy ==> (s.profileId in old(guard.active) || old(guard.poisoned)) && h.last == s.lastRunAt
      ensures r == Completed || r == BackupFailed ==>
                && s.profileId in profiles && profiles[s.profileId] && s.profileId !in old(guard.active)
                && h.last.Some? && old(clock.now) <= h.last.value <= h.reading
      ensures r != ProfileNotFound && r != DbFailed ==> (r == NoNextRun <==> NextRunOf(s.schedule, h.reading).None?)
      ensures r == NoNextRun || r == DbFailed ==> !h.wrote
      ensures r != Completed && r != BackupFailed ==> history == old(history)
      ensures Recorded(s, r, h, old(clock.now), old(history), history)
      ensures MayRun(s, profiles, old(guard.View())) && r != DbFailed ==>
                RanOnce(s, r, h.reading, old(backups), backups)
      ensures !MayRun(s, profiles, old(guard.View())) || r == DbFailed ==>
                backups == old(backups) && r != Completed && r != BackupFailed
      ensures h.wrote ==> StatusColumns(rows[h.id], r) && rows[h.id].lastRunAt == h.last
      ensures failures == old(failures) ==>
                && r != DbFailed && (h.wrote <==> r != NoNextRun && h.id in old(rows))
                && (r == Completed || r == BackupFailed ==> |history| == |old(history)| + 1)
    {
      var now := clock.Read();
      if * {
        failures := failures + 1;
        return DbFailed, Handled(s.scheduleId, now, None, false);
      }
      if s.profileId !in profiles {
        var wrote := UpdateStatus(s.scheduleId, None, Some(now), "invalid_profile", Some("PROFILE_NOT_FOUND"));
        return ProfileNotFound, Handled(s.scheduleId, now, Some(now), wrote);
      }
      if !profiles[s.profileId] {
        r, h := Skip(s, now, Some(now), "skipped_profile_disabled", SkippedDisabled);
        return;
      }
      r, h := RunUnlessBusy(s, now, worker);
    }

    /** The handling for an enabled profile: skipped while somebody runs it, with the guard held otherwise. */
    method RunUnlessBusy(s: ScheduleRow, now: int, ghost worker: nat) returns (r: Outcome, ghost h: Handled)
      requires ValidSchedule(s.schedule) && worker !in guard.holds && now <= clock.now
      requires s.profileId in profiles && profiles[s.profileId]
      modifies this`rows, this`history, this`backups, this`failures, clock, guard
      ensures guard.View() == old(guard.View()) && failures >= old(failures)
      ensures h.id == s.scheduleId && now <= h.reading <= clock.now
      ensures h.wrote ==> h.id in old(rows) && rows == old(rows)[h.id := AfterHandling(old(rows)[h.id], s, r, h)]
      ensures !h.wrote ==> rows == old(rows)
      ensures r in {SkippedBusy, Completed, BackupFailed, NoNextRun} && (r == NoNextRun <==> NextRunOf(s.schedule, h.reading).None?)
      ensures r == NoNextRun ==> !h.wrote
      ensures r == SkippedBusy ==> h.last == s.lastRunAt
      ensures r == Completed || r == BackupFailed ==> h.last.Some? && now <= h.last.value <= h.reading
      ensures r == SkippedBusy || r == NoNextRun ==> history == old(history)
      ensures Recorded(s, r, h, now, old(history), history)
      ensures if MayRun(s, profiles, old(guard.View())) then RanOnce(s, r, h.reading, old(backups), backups)
              else backups == old(backups) && (r == SkippedBusy || r == NoNextRun)
      ensures h.wrote ==> StatusColumns(rows[h.id], r) && rows[h.id].lastRunAt == h.last
      ensures failures == old(failures) ==>
                && (h.wrote <==> r != NoNextRun && h.id in old(rows))
                && (r == Completed || r == BackupFailed ==> |history| == |old(history)| + 1)
    {
      var acquired := guard.TryAcquire(s.profileId, worker);
      if !acquired {
        r, h := Skip(s, now, s.lastRunAt, "skipped_busy", SkippedBusy);
        return;
      }
      AcquireThenDrop(old(guard.View()), worker, s.profileId);
      r, h := RunGuarded(s, now);
      guard.Release(s.profileId, worker);
    }

    /** The part of the handling that runs a backup, with the guard held. */
    method RunGuarded(s: ScheduleRow, startedAt: int) returns (r: Outcome, ghost h: Handled)
      requires ValidSchedule(s.schedule) && startedAt <= clock.now
      modifies this`rows, this`history, this`backups, this`failures, clock
      ensures h.id == s.scheduleId && old(clock.now) <= h.reading <= clock.now && failures >= old(failures)
      ensures RanOnce(s, r, h.reading, old(backups), backups)
      ensures r == Completed || r == BackupFailed || r == NoNextRun
      ensures r == NoNextRun <==> NextRunOf(s.schedule, h.reading).None?
      ensures r == NoNextRun ==> !h.wrote && history == old(history)
      ensures h.wrote ==> h.id in old(rows) && rows == old(rows)[h.id := AfterHandling(old(rows)[h.id], s, r, h)]
      ensures !h.wrote ==> rows == old(rows)
      ensures r != NoNextRun ==> h.last.Some? && old(clock.now) <= h.last.value <= h.reading
      ensures r != NoNextRun ==>
                || history == old(history)
                || history == old(history) + [HistoryRecord(s.scheduleId, s.profileId, startedAt, h.last.value, StatusText(r))]
      ensures h.wrote ==> StatusColumns(rows[h.id], r) && rows[h.id].lastRunAt == h.last
      ensures failures == old(failures) && r != NoNextRun ==>
                (h.wrote <==> h.id in old(rows)) && |history| == |old(history)| + 1
    {
      var ok := RunBackup(s.profileId);
      var completedAt := clock.Read();
      var from := clock.Read();
      var next := CalculateNextRun(s.schedule, from);
      if next.None? {
        return NoNextRun, Handled(s.scheduleId, from, None, false);
      }
      var wrote;
      if ok {
        RecordHistory(HistoryRecord(s.scheduleId, s.profileId, startedAt, completedAt, "completed"));
        wrote := UpdateStatus(s.scheduleId, next, Some(completedAt), "completed", None);
        return Completed, Handled(s.scheduleId, from, Some(completedAt), wrote);
      }
      RecordHistory(HistoryRecord(s.scheduleId, s.profileId, startedAt, completedAt, "failed"));
      wrote := UpdateStatus(s.scheduleId, next, Some(completedAt), "failed", Some("BACKUP_FAILED"));
      return BackupFailed, Handled(s.scheduleId, from, Some(completedAt), wrote);
    }

    // ----- creating and editing ------------------------------------------------------------------

    /** The next run of an enabled schedule, none for a disabled one; fails if the search does. */
    method NextIfEnabled(schedule: Schedule, enabled: bool, now: int)
      returns (ok: bool, next: Option<int>, ghost armed: Option<Armed>)
      requires ValidSchedule(schedule)
      ensures ok <==> !enabled || NextRunOf(schedule, now).Some?
      ensures ok ==> next == if enabled then NextRunOf(schedule, now) else None
      ensures ok ==> Computed(next, armed, now)
      ensures ok && enabled ==> armed.Some? && armed.value.basis == schedule && armed.value.from == now
    {
      if !enabled {
        return true, None, None;
      }
      next := CalculateNextRun(schedule, now);
      if next.None? {
        return false, None, None;
      }
      return true, next, Some(ArmedFrom(schedule, now));
    }

    /** Creates a schedule for a known profile; its history starts here. */
    method CreateSchedule(id: string, profileId: string, schedule: Schedule, enabled: bool) returns (ok: bool)
      requires Valid()
      modifies this, clock
      ensures Valid() && profiles == old(profiles) && history == old(history)
      ensures ok ==>
                && Accepted(schedule) && profileId in profiles && id !in old(rows) && id in rows && id in past
                && rows == old(rows)[id := rows[id]] && past == old(past)[id := past[id]] && past[id].events == []
                && rows[id] == ScheduleRow(id, profileId, schedule, enabled, rows[id].nextRunAt, None, Some("idle"), None)
                && rows[id].nextRunAt == if enabled then NextRunOf(schedule, clock.now) else None
      ensures !ok ==> rows == old(rows) && past == old(past)
      ensures schedule.Interval? && schedule.seconds < 60 ==> !ok
      ensures old(clock.now) <= clock.now && failures >= old(failures) && backups == old(backups)
      ensures failures == old(failures) ==>
                (ok <==> Accepted(schedule) && profileId in profiles && id !in old(rows) &&
                         (enabled ==> NextRunOf(schedule, clock.now).Some?))
    {
      if !Accepted(schedule) || profileId !in profiles {
        return false;
      }
      var now := clock.Read();
      ConsistentLater(rows, past, old(clock.now), now);
      ghost var armed;
      var scheduled, next;
      scheduled, next, armed := NextIfEnabled(schedule, enabled, now);
      if !scheduled || id in rows {
        return false;
      }
      ok := InsertRow(ScheduleRow(id, profileId, schedule, enabled, next, None, Some("idle"), None), armed);
    }

    method InsertRow(row: ScheduleRow, ghost armed: Option<Armed>) returns (ok: bool)
      requires Valid() && row.scheduleId !in rows && ValidSchedule(row.schedule)
      requires Computed(row.nextRunAt, armed, clock.now)
      modifies this`rows, this`past, this`failures
      ensures Valid() && failures >= old(failures) && (failures == old(failures) <==> ok)
      ensures !ok ==> rows == old(rows) && past == old(past)
      ensures ok ==>
                && rows == old(rows)[row.scheduleId := row]
                && past == old(past)[row.scheduleId := FirstHistory(row, armed, clock.now)]
    {
      if * {
        failures := failures + 1;
        return false;
      }
      CreatedMirrors(row, armed, clock.now);
      ConsistentPut(rows, past, clock.now, row, FirstHistory(row, armed, clock.now));
      rows := rows[row.scheduleId := row];
      past := past[row.scheduleId := FirstHistory(row, armed, clock.now)];
      return true;
    }

    /**
     First half of an edit: reads the row, validates it and computes its next run if the timing changed.
     Nothing is written yet; `armed` tells what the next run in the result was computed from.
     */
    method PrepareUpdate(id: string, schedule: Option<Schedule>, enabled: Option<bool>)
      returns (r: Option<ScheduleRow>, ghost armed: Option<Armed>)
      requires Valid()
      modifies clock
      ensures Valid() && old(clock.now) <= clock.now
      ensures r.Some? <==> id in rows && MayBecome(rows[id], Edited(rows[id], schedule, enabled), schedule.Some?, clock.now)
      ensures r.Some? ==>
                && id in rows && r.value.scheduleId == id && Accepted(r.value.schedule) && Computed(r.value.nextRunAt, armed, clock.now)
                && r.value == Edited(rows[id], schedule, enabled).(nextRunAt := r.value.nextRunAt)
                && (schedule.Some? || r.value.enabled != rows[id].enabled ==>
                      (r.value.enabled <==> armed.Some?) &&
                      (armed.Some? ==> armed.value.basis == r.value.schedule && armed.value.from == clock.now))
                && (schedule.None? && r.value.enabled == rows[id].enabled ==> r.value.nextRunAt == rows[id].nextRunAt)
    {
      if id !in rows {
        return None, None;
      }
      ConsistentAt(rows, past, clock.now, id);
      var edited := Edited(rows[id], schedule, enabled);
      if !Accepted(edited.schedule) {
        return None, None;
      }
      var now := clock.Read();
      ConsistentLater(rows, past, old(clock.now), now);
      if schedule.None? && edited.enabled == rows[id].enabled {
        ConsistentAt(rows, past, now, id);
        return Some(edited), past[id].world.armed;
      }
      var ok, next;
      ok, next, armed := NextIfEnabled(edited.schedule, edited.enabled, now);
      r := if ok then Some(edited.(nextRunAt := next)) else None;
    }

    /**
     Second half: writes the prepared row, whatever happened to the schedule in the meantime. It is an
     edit of the history, with the next run that was prepared.
     */
    method CommitUpdate(edited: ScheduleRow, ghost armed: Option<Armed>) returns (ok: bool)
      requires Valid() && ValidSchedule(edited.schedule) && Computed(edited.nextRunAt, armed, clock.now)
      modifies this`rows, this`past, this`failures
      ensures Valid() && failures >= old(failures)
      ensures ok <==> edited.scheduleId in old(rows) && failures == old(failures)
      ensures !ok ==> rows == old(rows) && past == old(past)
      ensures ok ==>
                var id := edited.scheduleId;
                && id in old(rows) && rows == old(rows)[id := edited]
                && past == old(past)[id := WithEdit(old(past)[id], edited, armed, clock.now)]
    {
      var id := edited.scheduleId;
      if id !in rows {
        return false;
      }
      if * {
        failures := failures + 1;
        return false;
      }
      ConsistentEdit(rows, past, clock.now, edited, armed);
      past := past[id := WithEdit(past[id], edited, armed, clock.now)];
      rows := rows[id := edited];
      return true;
    }

    /** Both halves without interruption: the edited row, scheduled from now on if its timing changed. */
    method UpdateSchedule(id: string, schedule: Option<Schedule>, enabled: Option<bool>) returns (ok: bool)
      requires Valid()
      modifies this`rows, this`past, this`failures, clock
      ensures Valid() && failures >= old(failures)
      ensures !ok ==> rows == old(rows) && past == old(past)
      ensures ok ==>
                && id in old(rows) && id in rows && Accepted(rows[id].schedule) && rows == old(rows)[id := rows[id]]
                && rows[id].schedule == (if schedule.Some? then schedule.value else old(rows)[id].schedule)
                && rows[id].enabled == (if enabled.Some? then enabled.value else old(rows)[id].enabled)
                && rows[id] == old(rows)[id].(schedule := rows[id].schedule, enabled := rows[id].enabled, nextRunAt := rows[id].nextRunAt)
                && (schedule.None? && rows[id].enabled == old(rows)[id].enabled ==> rows[id] == old(rows)[id])
                && (schedule.Some? || rows[id].enabled != old(rows)[id].enabled ==>
                      && (rows[id].enabled <==> rows[id].nextRunAt.Some?)
                      && (rows[id].enabled ==> rows[id].nextRunAt.value > old(clock.now)))
      ensures schedule.Some? && schedule.value.Interval? && schedule.value.seconds < 60 ==> !ok
      ensures failures == old(failures) ==>
                (ok <==> id in old(rows) &&
                         MayBecome(old(rows)[id], Edited(old(rows)[id], schedule, enabled), schedule.Some?, clock.now))
    {
      ghost var armed;
      var edited;
      edited, armed := PrepareUpdate(id, schedule, enabled);
      if edited.None? {
        return false;
      }
      if armed.Some? {
        NextRunLater(armed.value.basis, armed.value.from);
      }
      ok := CommitUpdate(edited.value, armed);
    }

    /** Runs a schedule by hand: for its history the write at the end is one of anybody else. */
    method TriggerNow(id: string, ghost worker: nat) returns (r: Option<Outcome>)
      requires Valid() && worker !in guard.holds
      modifies this`rows, this`history, this`past, this`backups, this`failures, clock, guard
      ensures Valid() && guard.View() == old(guard.View()) && rows.Keys == old(rows).Keys
      ensures r.Some? <==> id in old(rows)
      ensures r.Some? && r.value in {Completed, BackupFailed} ==>
                && |backups| == |old(backups)| + 1
                && backups[|old(backups)|] == BackupRun(old(rows)[id].profileId, r.value == Completed)
      ensures forall k :: k in rows && k != id ==> rows[k] == old(rows)[k] && past[k] == old(past)[k]
      ensures id in rows ==> past[id].world.log == old(past)[id].world.log
    {
      if id !in rows {
        return None;
      }
      var s := rows[id];
      ConsistentAt(rows, past, clock.now, id);
      ghost var h;
      var outcome;
      outcome, h := ExecuteSingle(s, worker);
      ConsistentLater(old(rows), past, old(clock.now), clock.now);
      if h.wrote {
        ghost var armed := HandledIsComputed(s, outcome, h, clock.now);
        ConsistentEdit(old(rows), past, clock.now, AfterHandling(s, s, outcome, h), armed);
        past := past[id := WithEdit(past[id], rows[id], armed, clock.now)];
      }
      return Some(outcome);
    }

    // ----- the loop ------------------------------------------------------------------------------

    /** The due rows, earliest first; none if the query fails. */
    method ListDueRows(now: int) returns (due: seq<ScheduleRow>)
      requires Valid()
      modifies this`failures
      ensures IsDueListing(rows, now, due) && failures >= old(failures)
      ensures failures == old(failures) ==>
                forall k :: k in rows ==>
                  (rows[k] in due <==> rows[k].enabled && rows[k].nextRunAt.Some? && rows[k].nextRunAt.value <= now)
    {
      due := [];
      if * {
        failures := failures + 1;
        return;
      }
      var rest := set k | k in rows && Due(rows[k], now);
      ConsistentKeys(rows, past, clock.now, now, rest);
      while rest != {}
        invariant DueKeys(rows, rest, now) && failures == old(failures)
        invariant IsDueListing(rows, now, due) && NoneBefore(rows, now, rest, due)
        invariant forall k :: k in rows && Due(rows[k], now) ==> k in rest || rows[k] in due
        decreases rest
      {
        var k := Earliest(rest, now);
        ListingGrows(rows, now, rest, due, k);
        due, rest := due + [rows[k]], rest - {k};
      }
    }

    /** The query's order: an earliest row of those still to list. */
    method Earliest(rest: set<string>, now: int) returns (k: string)
      requires rest != {} && DueKeys(rows, rest, now)
      ensures k in rest && forall j :: j in rest ==> NextAt(rows, k, now) <= NextAt(rows, j, now)
    {
      k :| k in rest;
      var others := rest - {k};
      while others != {}
        invariant k in rest && others <= rest
        invariant forall j :: j in rest - others ==> NextAt(rows, k, now) <= NextAt(rows, j, now)
        decreases others
      {
        var j :| j in others;
        others := others - {j};
        if NextAt(rows, j, now) < NextAt(rows, k, now) {
          k := j;
        }
      }
    }

    /**
     Handles a schedule that the loop listed at a time and that nobody changed since: its history grows
     by exactly that handling.
     */
    method HandleDue(s: ScheduleRow, at: int, ghost worker: nat) returns (r: Outcome, ghost h: Handled)
      requires Valid() && s.scheduleId in rows && rows[s.scheduleId] == s && Due(s, at)
      requires past[s.scheduleId].world.clock <= at <= clock.now && worker !in guard.holds
      modifies this`rows, this`history, this`past, this`backups, this`failures, clock, guard
      ensures Valid() && guard.View() == old(guard.View()) && failures >= old(failures)
      ensures h.id == s.scheduleId && old(clock.now) <= h.reading <= clock.now
      ensures rows == old(rows)[h.id := if h.wrote then AfterHandling(s, s, r, h) else s]
      ensures h.id in past && past == old(past)[h.id := past[h.id]]
      ensures GrewByHandling(old(past)[h.id], past[h.id], s, at, r, h)
    {
      ConsistentAt(rows, past, clock.now, s.scheduleId);
      r, h := ExecuteSingle(s, worker);
      ghost var next := HandlingPlays(s, past[h.id], at, r, h);
      ConsistentLater(old(rows), past, old(clock.now), clock.now);
      ghost var row := if h.wrote then AfterHandling(s, s, r, h) else s;
      ConsistentPut(old(rows), past, clock.now, row, next);
      PutSame(old(rows), h.id);
      past := past[h.id := next];
    }

    /**
     One pass: reads the clock, lists the due schedules and handles each of them at most once, in order
     and until cancelled. The others are left alone, with their histories.
     */
    method DuePass(ghost worker: nat) returns (now: int, due: seq<ScheduleRow>, ghost handled: nat, ghost stopped: bool)
      requires Valid() && worker !in guard.holds
      modifies this`rows, this`history, this`past, this`backups, this`failures, clock, guard
      ensures Valid() && guard.View() == old(guard.View())
      ensures old(clock.now) <= now <= clock.now && IsDueListing(old(rows), now, due)
      ensures handled <= |due| && PassedTo(old(rows), rows, old(past), past, due, handled)
      ensures failures >= old(failures)
      ensures !stopped && failures == old(failures) ==>
                && handled == |due|
                && forall k :: k in old(rows) && Due(old(rows)[k], now) ==> old(rows)[k] in due
    {
      now := clock.Read();
      ConsistentLater(rows, past, old(clock.now), now);
      due := ListDueRows(now);
      handled, stopped := 0, false;
      ghost var listed := failures;
      for i := 0 to |due|
        invariant Valid() && guard.View() == old(guard.View()) && now <= clock.now && handled == i && !stopped
        invariant failures >= listed
        invariant PassedTo(old(rows), rows, old(past), past, due, i) && Consistent(old(rows), old(past), now)
      {
        if * {
          stopped := true;
          return;
        }
        ghost var rowsBefore, pastBefore := rows, past;
        NextListed(old(rows), rows, old(past), past, now, due, i);
        HandleListed(due[i], now, worker);
        PassNext(old(rows), rowsBefore, rows, old(past), pastBefore, past, now, due, i);
        handled := i + 1;
      }
    }

    method HandleListed(s: ScheduleRow, at: int, ghost worker: nat)
      requires Valid() && s.scheduleId in rows && rows[s.scheduleId] == s && Due(s, at)
      requires past[s.scheduleId].world.clock <= at <= clock.now && worker !in guard.holds
      modifies this`rows, this`history, this`past, this`backups, this`failures, clock, guard
      ensures Valid() && guard.View() == old(guard.View()) && old(clock.now) <= clock.now && failures >= old(failures)
      ensures Untouched(old(rows), rows, old(past), past, {s.scheduleId})
      ensures HandledOnce(old(past), past, s.scheduleId)
    {
      var r;
      ghost var h;
      r, h := HandleDue(s, at, worker);
    }
  }

  lemma PutSame(rows: map<string, ScheduleRow>, id: string)
    requires id in rows
    ensures rows[id := rows[id]] == rows
  {
  }

  ghost predicate HandledOnce(past0: map<string, History>, past: map<string, History>, id: string) {
    id in past0 && id in past && OneHandling(past0[id], past[id])
  }

  /** A backup may run: the profile is known and enabled, nobody runs it, and the lock is sound. */
  ghost predicate MayRun(s: ScheduleRow, profiles: map<string, bool>, workers: Workers) {
    s.profileId in profiles && profiles[s.profileId] && s.profileId !in workers.active && !workers.poisoned
  }

  /** One backup of the profile ran, and the outcome tells whether it succeeded, if a next run exists. */
  ghost predicate RanOnce(s: ScheduleRow, r: Outcome, reading: int, before: seq<BackupRun>, after: seq<BackupRun>)
    requires ValidSchedule(s.schedule)
  {
    && |after| == |before| + 1 && after[..|before|] == before && after[|before|].profileId == s.profileId
    && var scheduled := NextRunOf(s.schedule, reading).Some?;
       && (r == Completed <==> after[|before|].ok && scheduled)
       && (r == BackupFailed <==> !after[|before|].ok && scheduled)
       && (r == NoNextRun <==> !scheduled)
  }

  /** The columns that tell a row's outcome. */
  ghost predicate StatusColumns(row: ScheduleRow, r: Outcome) {
    match r
    case ProfileNotFound => row.lastStatus == Some("invalid_profile") && row.lastErrorCode == Some("PROFILE_NOT_FOUND")
    case SkippedDisabled => row.lastStatus == Some("skipped_profile_disabled") && row.lastErrorCode == None
    case SkippedBusy => row.lastStatus == Some("skipped_busy") && row.lastErrorCode == None
    case Completed => row.lastStatus == Some("completed") && row.lastErrorCode == None
    case BackupFailed => row.lastStatus == Some("failed") && row.lastErrorCode == Some("BACKUP_FAILED")
    case _ => true
  }

  /** The history record of a handling: only for a backup that ran, and at most one. */
  ghost predicate Recorded(s: ScheduleRow, r: Outcome, h: Handled, began: int, before: seq<HistoryRecord>, after: seq<HistoryRecord>) {
    || after == before
    || ((r == Completed || r == BackupFailed) && h.last.Some? && |after| == |before| + 1 && after[..|before|] == before
        && var rec := after[|before|];
           rec == HistoryRecord(s.scheduleId, s.profileId, rec.startedAt, h.last.value, StatusText(r)) && began <= rec.startedAt <= h.last.value)
  }

  /** A due listing: due rows, each once, earliest first. */
  ghost predicate IsDueListing(rows: map<string, ScheduleRow>, now: int, due: seq<ScheduleRow>) {
    && (forall i :: 0 <= i < |due| ==> due[i].scheduleId in rows && rows[due[i].scheduleId] == due[i] && Due(due[i], now))
    && (forall i, j :: 0 <= i < j < |due| ==> due[i].scheduleId != due[j].scheduleId)
    && (forall i, j :: 0 <= i < j < |due| ==> due[i].nextRunAt.value <= due[j].nextRunAt.value)
  }

  ghost predicate DueKeys(rows: map<string, ScheduleRow>, rest: set<string>, now: int) {
    forall k :: k in rest ==> k in rows && rows[k].scheduleId == k && Due(rows[k], now)
  }

  function NextAt(rows: map<string, ScheduleRow>, k: string, now: int): int {
    if k in rows && Due(rows[k], now) then rows[k].nextRunAt.value else now
  }

  /** What is listed is none of the rest and not later than any of them. */
  ghost predicate NoneBefore(rows: map<string, ScheduleRow>, now: int, rest: set<string>, due: seq<ScheduleRow>) {
    forall i, k :: 0 <= i < |due| && k in rest ==>
      due[i].scheduleId != k && due[i].nextRunAt.Some? && due[i].nextRunAt.value <= NextAt(rows, k, now)
  }

  lemma ListingGrows(rows: map<string, ScheduleRow>, now: int, rest: set<string>, due: seq<ScheduleRow>, k: string)
    requires DueKeys(rows, rest, now) && IsDueListing(rows, now, due) && NoneBefore(rows, now, rest, due)
    requires k in rest && forall j :: j in rest ==> NextAt(rows, k, now) <= NextAt(rows, j, now)
    ensures IsDueListing(rows, now, due + [rows[k]]) && NoneBefore(rows, now, rest - {k}, due + [rows[k]])
  {
  }

  /** Rows and histories of all schedules but some are as before. */
  ghost predicate Untouched(rows0: map<string, ScheduleRow>, rows: map<string, ScheduleRow>,
                            past0: map<string, History>, past: map<string, History>, done: set<string>)
  {
    && past0.Keys == rows0.Keys == rows.Keys == past.Keys
    && forall k :: k in rows && k !in done ==> rows[k] == rows0[k] && past[k] == past0[k]
  }

  /** The identifiers of the first n listed rows. */
  ghost function Ids(due: seq<ScheduleRow>, n: nat): set<string>
    requires n <= |due|
  {
    set i | 0 <= i < n :: due[i].scheduleId
  }

  /** The first n listed schedules were handled once each, and nothing else happened. */
  ghost predicate PassedTo(rows0: map<string, ScheduleRow>, rows: map<string, ScheduleRow>,
                           past0: map<string, History>, past: map<string, History>, due: seq<ScheduleRow>, n: nat)
  {
    && n <= |due| && Untouched(rows0, rows, past0, past, Ids(due, n))
    && forall j :: 0 <= j < n ==> HandledOnce(past0, past, due[j].scheduleId)
  }

  lemma NextListed(rows0: map<string, ScheduleRow>, rows: map<string, ScheduleRow>,
                   past0: map<string, History>, past: map<string, History>, now: int, due: seq<ScheduleRow>, n: nat)
    requires PassedTo(rows0, rows, past0, past, due, n) && IsDueListing(rows0, now, due) && n < |due|
    requires Consistent(rows0, past0, now)
    ensures var id := due[n].scheduleId;
            id in rows && rows[id] == due[n] && Due(due[n], now) && past[id] == past0[id] && past[id].world.clock <= now
  {
    ConsistentAt(rows0, past0, now, due[n].scheduleId);
  }

  lemma PassNext(rows0: map<string, ScheduleRow>, rows: map<string, ScheduleRow>, rows': map<string, ScheduleRow>,
                 past0: map<string, History>, past: map<string, History>, past': map<string, History>,
                 now: int, due: seq<ScheduleRow>, n: nat)
    requires PassedTo(rows0, rows, past0, past, due, n) && IsDueListing(rows0, now, due) && n < |due|
    requires Untouched(rows, rows', past, past', {due[n].scheduleId}) && HandledOnce(past, past', due[n].scheduleId)
    ensures PassedTo(rows0, rows', past0, past', due, n + 1)
  {
    UntouchedBoth(rows0, rows, rows', past0, past, past', Ids(due, n), due[n].scheduleId);
    assert Ids(due, n + 1) == Ids(due, n) + {due[n].scheduleId};
    forall j | 0 <= j < n ensures HandledOnce(past0, past', due[j].scheduleId) {
      StillHandled(past0, past, past', due[j].scheduleId);
    }
    FirstHandled(past0, past, past', due[n].scheduleId);
  }

  lemma UntouchedBoth(rows0: map<string, ScheduleRow>, rows: map<string, ScheduleRow>, rows': map<string, ScheduleRow>,
                      past0: map<string, History>, past: map<string, History>, past': map<string, History>,
                      done: set<string>, id: string)
    requires Untouched(rows0, rows, past0, past, done) && Untouched(rows, rows', past, past', {id})
    ensures Untouched(rows0, rows', past0, past', done + {id})
  {
  }

  lemma StillHandled(past0: map<string, History>, past: map<string, History>, past': map<string, History>, id: string)
    requires HandledOnce(past0, past, id) && id in past' && past'[id] == past[id]
    ensures HandledOnce(past0, past', id)
  {
  }

  lemma FirstHandled(past0: map<string, History>, past: map<string, History>, past': map<string, History>, id: string)
    requires HandledOnce(past, past', id) && id in past0 && past0[id] == past[id]
    ensures HandledOnce(past0, past', id)
  {
  }
}
