/**
 One schedule over a whole run of the scheduler: the loop lists it when due, reads the clock while
 handling it and writes its next run, in steps between which time passes and other writers act.
 Writes may fail, and another writer may write a next run that it computed long before.
 */
module SchedulerRuns {
  import opened Wrappers
  import opened CronSearch
  import opened CronCycle
  import opened NextRun

  /** A next-run value together with the schedule and clock reading it was computed from. */
  datatype Armed = Armed(next: int, basis: Schedule, from: int)

  /** Where the loop is with this schedule. */
  datatype Phase =
    | Waiting
    | Listed(schedule: Schedule, armed: Armed, at: int)
    | Handling(schedule: Schedule, reading: int)

  /** One handling by the loop: what it was due for, when it was listed, the clock reading it used. */
  datatype Fired = Fired(armed: Armed, listedAt: int, reading: int)

  datatype World = World(
    clock: int,
    schedule: Schedule,
    enabled: bool,
    armed: Option<Armed>,
    phase: Phase,
    log: seq<Fired>)

  /**
   `WriteNext` is the loop's own write, `Abandon` a handling that ends without one. `Edit` is the
   write of anybody else: an edit, with a next run computed at some earlier time or merely written
   back as it was read, or a run triggered by hand.
   */
  datatype Event =
    | Pass(time: nat)
    | ListDue
    | ReadClock
    | WriteNext(profileKnown: bool)
    | Abandon
    | Edit(schedule: Schedule, enabled: bool, armed: Option<Armed>)

  /** The value was computed as the next run of its schedule. */
  ghost predicate Genuine(a: Armed) {
    ValidSchedule(a.basis) && NextRunOf(a.basis, a.from) == Some(a.next)
  }

  ghost function ArmedFrom(s: Schedule, from: int): (a: Armed)
    requires ValidSchedule(s) && NextRunOf(s, from).Some?
    ensures Genuine(a) && from < a.next
  {
    NextRunLater(s, from);
    Armed(NextRunOf(s, from).value, s, from)
  }

  ghost predicate Enabled(w: World, e: Event) {
    match e
    case Pass(_) => true
    case ListDue => w.phase.Waiting? && w.enabled && w.armed.Some? && w.armed.value.next <= w.clock
    case ReadClock => w.phase.Listed?
    case WriteNext(known) =>
      w.phase.Handling? && ValidSchedule(w.phase.schedule) &&
      (known ==> NextRunOf(w.phase.schedule, w.phase.reading).Some?)
    case Abandon => w.phase.Handling?
    case Edit(s, _, a) => ValidSchedule(s) && (a.Some? ==> Genuine(a.value) && a.value.from <= w.clock)
  }

  ghost function Step(w: World, e: Event): World
    requires Enabled(w, e)
  {
    match e
    case Pass(time) => w.(clock := w.clock + time)
    case ListDue => w.(phase := Listed(w.schedule, w.armed.value, w.clock))
    case ReadClock =>
      w.(phase := Handling(w.phase.schedule, w.clock), log := w.log + [Fired(w.phase.armed, w.phase.at, w.clock)])
    case WriteNext(known) =>
      w.(phase := Waiting, armed := if known then Some(ArmedFrom(w.phase.schedule, w.phase.reading)) else None)
    case Abandon => w.(phase := Waiting)
    case Edit(s, on, a) => w.(schedule := s, enabled := on, armed := a)
  }

  /** Where a sequence of events leads; nowhere if one of them cannot happen. */
  ghost function Play(w: World, es: seq<Event>): Option<World> {
    if es == [] then Some(w)
    else
      var u := Play(w, es[..|es| - 1]);
      if u.Some? && Enabled(u.value, es[|es| - 1]) then Some(Step(u.value, es[|es| - 1])) else None
  }

  lemma PlayNext(w: World, es: seq<Event>, e: Event)
    requires Play(w, es).Some? && Enabled(Play(w, es).value, e)
    ensures Play(w, es + [e]) == Some(Step(Play(w, es).value, e))
  {
    assert (es + [e])[..|es|] == es;
  }

  lemma PlayTwo(w: World, es: seq<Event>, a: Event, b: Event)
    requires Play(w, es).Some? && Enabled(Play(w, es).value, a) && Enabled(Step(Play(w, es).value, a), b)
    ensures Play(w, es + [a, b]) == Some(Step(Step(Play(w, es).value, a), b))
  {
    PlayNext(w, es, a);
    PlayNext(w, es + [a], b);
    assert es + [a] + [b] == es + [a, b];
  }

  /** A schedule that was just created. */
  ghost predicate Fresh(w: World) {
    w.phase == Waiting && w.log == [] && ValidSchedule(w.schedule) && (w.armed.Some? ==> Genuine(w.armed.value))
  }

  // ----- what a run keeps ----------------------------------------------------------------------

  /** A handling was really scheduled, due when listed, and listed before it read the clock. */
  ghost predicate Sound(f: Fired) {
    Genuine(f.armed) && f.armed.next <= f.listedAt <= f.reading
  }

  /** Every handling is due for an instant after the clock reading of the one before. */
  ghost predicate Spaced(log: seq<Fired>) {
    && (forall i :: 0 <= i < |log| ==> Sound(log[i]))
    && (forall i :: 0 < i < |log| ==> log[i - 1].reading < log[i].armed.next)
  }

  /** A moment lies after the latest clock reading of the loop, if any. */
  predicate AfterLast(log: seq<Fired>, moment: int) {
    log == [] || log[|log| - 1].reading < moment
  }

  /** The loop would list the schedule for an instant it has already dealt with. */
  predicate Stale(w: World) {
    w.phase.Waiting? && w.enabled && w.armed.Some? && !AfterLast(w.log, w.armed.value.next)
  }

  ghost predicate Good(w: World) {
    && ValidSchedule(w.schedule) && Spaced(w.log) && AfterLast(w.log, w.clock + 1)
    && (w.armed.Some? ==> Genuine(w.armed.value))
    && (w.phase.Listed? ==>
          && ValidSchedule(w.phase.schedule) && Genuine(w.phase.armed) && AfterLast(w.log, w.phase.armed.next)
          && w.phase.armed.next <= w.phase.at <= w.clock)
    && (w.phase.Handling? ==>
          ValidSchedule(w.phase.schedule) && w.log != [] && w.phase.reading == w.log[|w.log| - 1].reading)
  }

  lemma StepKeepsGood(w: World, e: Event)
    requires Good(w) && !Stale(w) && Enabled(w, e)
    ensures Good(Step(w, e))
  {
    match e {
      case ReadClock => SpacedNext(w.log, Fired(w.phase.armed, w.phase.at, w.clock));
      case _ =>
    }
  }

  lemma SpacedNext(log: seq<Fired>, f: Fired)
    requires Spaced(log) && Sound(f) && AfterLast(log, f.armed.next)
    ensures Spaced(log + [f])
  {
    var more := log + [f];
    forall i | 0 <= i < |more| ensures Sound(more[i]) {
      assert more[i] == if i < |log| then log[i] else f;
    }
  }

  // ----- what disturbs a run -------------------------------------------------------------------

  /** The schedule has an occurrence after `from`, up to and including a later moment. */
  ghost predicate Missed(s: Schedule, from: int, moment: int) {
    match s
    case Interval(secs) => from + Seconds(secs) <= moment
    case _ => exists t :: from < t <= moment && Occurs(s, t)
  }

  /** A computed next run has passed exactly when an occurrence was missed. */
  lemma PassedIffMissed(a: Armed, moment: int)
    requires Genuine(a)
    ensures a.next <= moment <==> Missed(a.basis, a.from, moment)
  {
    if IsCalendar(a.basis) {
      NextRunIsNext(a.basis, a.from);
      if a.next <= moment {
        assert a.from < a.next <= moment && Occurs(a.basis, a.next);
      }
    }
  }

  /**
   Events that make the loop handle an instant twice: a write, while the schedule waits, of a next run
   computed before the latest handling although an occurrence lay in between; and a handling that
   ends without a write although what it leaves in the row has passed.
   */
  ghost predicate Disturbs(w: World, e: Event) {
    match e
    case Edit(_, on, a) =>
      on && a.Some? && w.phase.Waiting? && w.log != [] &&
      Missed(a.value.basis, a.value.from, w.log[|w.log| - 1].reading)
    case Abandon =>
      w.enabled && w.armed.Some? && w.log != [] &&
      Missed(w.armed.value.basis, w.armed.value.from, w.log[|w.log| - 1].reading)
    case _ => false
  }

  lemma StaleIffDisturbed(w: World, e: Event)
    requires Good(w) && !Stale(w) && Enabled(w, e)
    ensures Stale(Step(w, e)) <==> Disturbs(w, e)
  {
    match e {
      case Edit(_, _, a) =>
        if a.Some? && w.log != [] {
          PassedIffMissed(a.value, w.log[|w.log| - 1].reading);
        }
      case Abandon =>
        if w.armed.Some? && w.log != [] {
          PassedIffMissed(w.armed.value, w.log[|w.log| - 1].reading);
        }
      case _ =>
    }
  }

  /** No event of the sequence disturbs. */
  ghost predicate Clean(w: World, es: seq<Event>) {
    es == [] ||
    (var u := Play(w, es[..|es| - 1]);
     Clean(w, es[..|es| - 1]) && u.Some? && !Disturbs(u.value, es[|es| - 1]))
  }

  lemma CleanNext(w: World, es: seq<Event>, e: Event)
    requires Clean(w, es) && Play(w, es).Some? && !Disturbs(Play(w, es).value, e)
    ensures Clean(w, es + [e])
  {
    assert (es + [e])[..|es|] == es;
  }

  lemma {:induction false} CleanStaysGood(w: World, es: seq<Event>)
    requires Good(w) && !Stale(w) && Play(w, es).Some? && Clean(w, es)
    ensures Good(Play(w, es).value) && !Stale(Play(w, es).value)
  {
    if es != [] {
      var init := es[..|es| - 1];
      CleanStaysGood(w, init);
      StepKeepsGood(Play(w, init).value, es[|es| - 1]);
      StaleIffDisturbed(Play(w, init).value, es[|es| - 1]);
    }
  }

  /**
   In every run without a disturbing event, between the readings of two consecutive handlings lies an
   instant that was scheduled: strictly after the earlier reading, not after the later listing. For a
   calendar schedule it is an occurrence. However long the loop was away, everything missed is
   coalesced into one handling.
   */
  lemma OccurrenceBetweenHandlings(start: World, es: seq<Event>, i: nat)
    requires Fresh(start) && Play(start, es).Some? && Clean(start, es)
    requires 0 < i < |Play(start, es).value.log|
    ensures var log := Play(start, es).value.log;
            && log[i - 1].reading < log[i].armed.next <= log[i].listedAt <= log[i].reading
            && (IsCalendar(log[i].armed.basis) ==> Occurs(log[i].armed.basis, log[i].armed.next))
  {
    CleanStaysGood(start, es);
    var log := Play(start, es).value.log;
    assert Sound(log[i]);
    if IsCalendar(log[i].armed.basis) {
      NextRunIsNext(log[i].armed.basis, log[i].armed.from);
    }
  }

  /** So no instant is handled twice: the instants handled strictly increase. */
  lemma {:induction false} DueInstantsIncrease(start: World, es: seq<Event>, i: nat, j: nat)
    requires Fresh(start) && Play(start, es).Some? && Clean(start, es) && i < j < |Play(start, es).value.log|
    ensures Play(start, es).value.log[i].armed.next < Play(start, es).value.log[j].armed.next
    decreases j
  {
    CleanStaysGood(start, es);
    OccurrenceBetweenHandlings(start, es, j);
    assert Sound(Play(start, es).value.log[j - 1]);
    if i < j - 1 {
      DueInstantsIncrease(start, es, i, j - 1);
    }
  }

  // ----- and only that -------------------------------------------------------------------------

  /** Whatever follows without further disturbance, the log stays spaced. */
  ghost predicate StaysSpaced(w: World) {
    forall more :: Play(w, more).Some? && Clean(w, more) ==> Spaced(Play(w, more).value.log)
  }

  /** From a stale world the loop's very next handling is for an instant already dealt with. */
  lemma StaleFiresAgain(w: World)
    requires Good(w) && Stale(w)
    ensures var again := [ListDue, ReadClock];
            && Play(w, again).Some? && Clean(w, again)
            && !Spaced(Play(w, again).value.log)
  {
    assert [] + [ListDue] == [ListDue] && [ListDue] + [ReadClock] == [ListDue, ReadClock];
    PlayNext(w, [], ListDue);
    CleanNext(w, [], ListDue);
    PlayNext(w, [ListDue], ReadClock);
    CleanNext(w, [ListDue], ReadClock);
    var n := |w.log|;
    var log := Play(w, [ListDue, ReadClock]).value.log;
    assert log[n - 1] == w.log[n - 1] && log[n].armed == w.armed.value;
  }

  /**
   In any state that a run without disturbance reaches, an event that can happen lets every further
   undisturbed run stay spaced if and only if it does not disturb. For a late write this says: if and
   only if the schedule has no occurrence between the reading it was computed from and the latest
   handling.
   */
  lemma SpacedIffUndisturbed(start: World, es: seq<Event>, e: Event)
    requires Fresh(start) && Play(start, es).Some? && Clean(start, es) && Enabled(Play(start, es).value, e)
    ensures var w := Play(start, es).value; StaysSpaced(Step(w, e)) <==> !Disturbs(w, e)
  {
    var w := Play(start, es).value;
    CleanStaysGood(start, es);
    StepKeepsGood(w, e);
    StaleIffDisturbed(w, e);
    var u := Step(w, e);
    if Disturbs(w, e) {
      StaleFiresAgain(u);
    } else {
      forall more | Play(u, more).Some? && Clean(u, more) ensures Spaced(Play(u, more).value.log) {
        CleanStaysGood(u, more);
      }
    }
  }

  /** Noon every day, created a moment before noon. */
  ghost function BeforeNoon(): World {
    var s, noon := Daily(12, 0), At(0, 12, 0);
    World(noon - 1, s, true, Some(Armed(noon, s, noon - 1)), Waiting, [])
  }

  /** The instant comes and the loop begins to handle it. */
  ghost function InstantComes(w: World): seq<Event>
    requires w.armed.Some? && w.clock <= w.armed.value.next
  {
    [Pass(w.armed.value.next - w.clock)] + [ListDue, ReadClock]
  }

  /** Then the next run computed before is written back after the loop's own, and the instant is handled again. */
  ghost function HandledTwice(w: World): seq<Event>
    requires w.armed.Some? && w.clock <= w.armed.value.next
  {
    InstantComes(w) + [WriteNext(true), Edit(w.schedule, true, w.armed)] + [ListDue, ReadClock]
  }

  /** Whatever the schedule, a next run that is written late lets the loop handle the same instant twice. */
  lemma LateWriteHandlesTwice(w: World)
    requires Fresh(w) && w.enabled && w.armed.Some? && w.clock <= w.armed.value.next
    requires NextRunOf(w.schedule, w.armed.value.next).Some?
    ensures var a := w.armed.value;
            var u := Play(w, HandledTwice(w));
            u.Some? && u.value.log == [Fired(a, a.next, a.next), Fired(a, a.next, a.next)]
  {
    var a := w.armed.value;
    var u := w.(clock := a.next, log := [Fired(a, a.next, a.next)]);
    FirstHandling(w);
    LateWrite(w, InstantComes(w), u);
    PlayTwo(w, InstantComes(w) + [WriteNext(true), Edit(w.schedule, true, w.armed)], ListDue, ReadClock);
  }

  lemma FirstHandling(w: World)
    requires Fresh(w) && w.enabled && w.armed.Some? && w.clock <= w.armed.value.next
    ensures var n := w.armed.value.next;
            Play(w, InstantComes(w)) ==
            Some(w.(clock := n, phase := Handling(w.schedule, n), log := [Fired(w.armed.value, n, n)]))
  {
    var n := w.armed.value.next;
    var e := Pass(n - w.clock);
    PlayNext(w, [], e);
    assert [] + [e] == [e];
    PlayTwo(w, [e], ListDue, ReadClock);
    assert w.log + [Fired(w.armed.value, n, n)] == [Fired(w.armed.value, n, n)];
  }

  /** The loop's own write, and after it the late one. */
  lemma LateWrite(w: World, es: seq<Event>, u: World)
    requires ValidSchedule(u.schedule) && NextRunOf(u.schedule, u.clock).Some? && u.enabled
    requires u.armed.Some? && Genuine(u.armed.value) && u.armed.value.next == u.clock && u.phase == Waiting
    requires Play(w, es) == Some(u.(phase := Handling(u.schedule, u.clock)))
    ensures Play(w, es + [WriteNext(true), Edit(u.schedule, true, u.armed)]) == Some(u)
  {
    NextRunLater(u.armed.value.basis, u.armed.value.from);
    PlayTwo(w, es, WriteNext(true), Edit(u.schedule, true, u.armed));
  }

  /** Noon of a daily schedule, for one. */
  lemma LateWriteFiresTwice()
    ensures Fresh(BeforeNoon())
    ensures var w := BeforeNoon();
            && w.armed.Some? && w.armed.value.next == At(0, 12, 0) && w.clock <= w.armed.value.next
            && var u := Play(w, HandledTwice(w));
               && u.Some? && |u.value.log| == 2
               && u.value.log[0].armed == u.value.log[1].armed && u.value.log[0].armed.next == At(0, 12, 0)
  {
    assert NextRunOf(Daily(12, 0), At(0, 12, 0) - 1) == Some(At(0, 12, 0));
    LateWriteHandlesTwice(BeforeNoon());
  }

  // ----- a handling that finds no next run -----------------------------------------------------

  lemma StartOfMinute(start: int)
    ensures StartMinute(Minutes(start - 1)) == start
  {
  }

  /**
   A handling that finds no next run leaves the row as it was and is repeated at the next pass. For a
   cron schedule this never happens if and only if, from every day of one 400-year cycle, some
   selected day is less than 1830 days away.
   */
  lemma AlwaysRearmedIffNoLongGap(m: CronMatcher)
    requires TimeFieldsUsable(m)
    ensures (forall from :: NextRunOf(Cron(m), from).Some?) <==>
            (forall day :: 0 <= day < CYCLE ==> Reachable(DayHits(m), day))
  {
    NeverErrsIffNoLongGap(m);
    if forall from :: NextRunOf(Cron(m), from).Some? {
      forall start ensures FirstMatch(Hits(m), start, Limit(start)).Some? {
        assert NextRunOf(Cron(m), Minutes(start - 1)).Some?;
        StartOfMinute(start);
      }
    }
  }
}
