/**
 The cron scheduler. The cron library is described by what its `Next` promises:
 the least whole-second fire time after an instant, within a search horizon, or
 the zero time when there is none.
 */
module Scheduler {
  import opened Prelude
  import opened Clock

  type Cron = Instant -> Instant
  type Parser = string -> Option<Cron>

  datatype ScheduleError = InvalidSchedule(schedule: string)

  // ---------- the cron library ----------

  ghost predicate FireTimes(fires: iset<Instant>) {
    forall f :: f in fires ==> f > ZERO_TIME && f % SECOND == 0
  }

  /** How far the search goes: never backwards, and blind to fractions of a second. */
  ghost predicate Horizon(horizon: Instant -> Instant) {
    && (forall t, u :: t <= u ==> horizon(t) <= horizon(u))
    && (forall t :: horizon(t) == horizon(Truncate(t)))
  }

  ghost predicate IsNext(n: Instant, from: Instant, fires: iset<Instant>, horizon: Instant -> Instant) {
    if n == ZERO_TIME then forall f :: f in fires && from < f ==> horizon(from) < f
    else n in fires && from < n <= horizon(from) && forall f :: f in fires && from < f ==> n <= f
  }

  ghost predicate Describes(next: Cron, fires: iset<Instant>, horizon: Instant -> Instant) {
    FireTimes(fires) && Horizon(horizon) && forall t :: IsNext(next(t), t, fires, horizon)
  }

  ghost predicate Lawful(next: Cron) {
    exists fires, horizon :: Describes(next, fires, horizon)
  }

  ghost predicate LawfulParser(parse: Parser) {
    forall s :: parse(s).Some? ==> Lawful(parse(s).value)
  }

  /** A schedule that fires at the start of every minute. */
  function EveryMinute(t: Instant): Instant {
    if t < ZERO_TIME then MINUTE else t - t % MINUTE + MINUTE
  }

  lemma StartOfMinute(t: Instant)
    requires t >= ZERO_TIME
    ensures t < EveryMinute(t) <= t + MINUTE && EveryMinute(t) % MINUTE == 0
    ensures forall f: Instant :: f % MINUTE == 0 && t < f ==> EveryMinute(t) <= f
  {
    forall f: Instant | f % MINUTE == 0 && t < f ensures EveryMinute(t) <= f {
      assert f / MINUTE >= t / MINUTE + 1;
    }
  }

  lemma MinutesAreSeconds(f: Instant)
    requires f % MINUTE == 0
    ensures f % SECOND == 0
  {
    assert f == SECOND * (60 * (f / MINUTE));
  }

  function TwoMinutes(t: Instant): Instant {
    if t < ZERO_TIME then 2 * MINUTE else Truncate(t) + 2 * MINUTE
  }

  lemma TwoMinutesIsHorizon()
    ensures Horizon(TwoMinutes)
  {
    forall t ensures TwoMinutes(t) == TwoMinutes(Truncate(t)) {
      TruncateWhole(t, ZERO_TIME);
      TruncateWhole(t, Truncate(t));
    }
    forall t, u | t <= u ensures TwoMinutes(t) <= TwoMinutes(u) {
      TruncateWhole(u, Truncate(t));
      TruncateWhole(u, ZERO_TIME);
    }
  }

  lemma MinuteIsNext(t: Instant, fires: iset<Instant>)
    requires forall f :: f in fires <==> f > ZERO_TIME && f % MINUTE == 0
    ensures IsNext(EveryMinute(t), t, fires, TwoMinutes)
  {
    if t >= ZERO_TIME { StartOfMinute(t); } else { StartOfMinute(ZERO_TIME); }
  }

  /** The description of a schedule is not vacuous. */
  lemma EveryMinuteIsLawful()
    ensures Lawful(EveryMinute)
  {
    var fires := iset f: Instant | f > ZERO_TIME && f % MINUTE == 0;
    forall f | f in fires ensures f % SECOND == 0 {
      MinutesAreSeconds(f);
    }
    forall t ensures IsNext(EveryMinute(t), t, fires, TwoMinutes) {
      MinuteIsNext(t, fires);
    }
    TwoMinutesIsHorizon();
    assert Describes(EveryMinute, fires, TwoMinutes);
  }

  lemma NextIsLater(next: Cron, from: Instant)
    requires Lawful(next) && next(from) != ZERO_TIME
    ensures from < next(from) && next(from) % SECOND == 0 && next(from) > ZERO_TIME
  {
    var fires, horizon :| Describes(next, fires, horizon);
    assert IsNext(next(from), from, fires, horizon);
  }

  /** Every instant of a slot has the same next fire time: the slot's end. */
  lemma SlotHasOneEnd(next: Cron, from: Instant, t: Instant)
    requires Lawful(next) && next(from) != ZERO_TIME
    requires from <= t < next(from)
    ensures next(t) == next(from)
  {
    var fires, horizon :| Describes(next, fires, horizon);
    assert IsNext(next(from), from, fires, horizon);
    assert IsNext(next(t), t, fires, horizon);
    assert horizon(from) <= horizon(t);
  }

  /** Dropping the fraction of a second, as storing a time does, moves no instant to another slot. */
  lemma TruncationKeepsNext(next: Cron, t: Instant)
    requires Lawful(next)
    ensures next(Truncate(t)) == next(t)
  {
    var fires, horizon :| Describes(next, fires, horizon);
    var u := Truncate(t);
    assert IsNext(next(t), t, fires, horizon) && IsNext(next(u), u, fires, horizon);
    forall f | f in fires ensures t < f <==> u < f {
      TruncateWhole(t, f);
    }
  }

  // ---------- the scheduler's three functions ----------

  function NextScheduled(parse: Parser, schedule: string, from: Instant): Result<Instant, ScheduleError> {
    match parse(schedule)
    case None => Err(InvalidSchedule(schedule))
    case Some(next) => Ok(next(from))
  }

  function IsDue(parse: Parser, schedule: string, last: Option<Instant>, window: Duration, now: Instant)
    : Result<bool, ScheduleError>
  {
    if last.None? then Ok(true)
    else
      match NextScheduled(parse, schedule, last.value)
      case Err(e) => Err(e)
      case Ok(next) => Ok(!(now < next + Negate(window)))
  }

  /** `now` is the caller's clock reading, `clock` the one the function takes itself. */
  function RequeueDelay(parse: Parser, schedule: string, last: Option<Instant>, window: Duration,
                        now: Instant, minDelay: Duration, clock: Instant): Result<Duration, ScheduleError>
  {
    var from := if last.Some? then last.value else now;
    match NextScheduled(parse, schedule, from)
    case Err(e) => Err(e)
    case Ok(next) =>
      var wait := Until(next + Negate(window), clock);
      Ok(if wait >= minDelay then wait else minDelay)
  }

  // ---------- what they promise ----------

  /** A rotation that is due stays due: waiting, or failing, never loses it. */
  lemma DueIsForever(parse: Parser, schedule: string, last: Option<Instant>, window: Duration, t: Instant, u: Instant)
    requires t <= u && IsDue(parse, schedule, last, window, t) == Ok(true)
    ensures IsDue(parse, schedule, last, window, u) == Ok(true)
  {
  }

  /**
   A rotation found due at `now` and stamped at `stamp` or later, with no early
   window, lies in a later slot than the previous one.
   */
  lemma DueEntersLaterSlot(parse: Parser, schedule: string, last: Instant, window: Duration, now: Instant,
                           stamp: Instant)
    requires LawfulParser(parse) && parse(schedule).Some?
    requires IsDue(parse, schedule, Some(last), window, now) == Ok(true)
    requires MIN_DURATION < window <= 0 && now <= stamp
    ensures parse(schedule).value(last) <= Truncate(stamp)
  {
    var next := parse(schedule).value(last);
    if next == ZERO_TIME {
      TruncateWhole(stamp, ZERO_TIME);
    } else {
      NextIsLater(parse(schedule).value, last);
      TruncateWhole(stamp, next);
    }
  }

  /**
   A rotation stamped at `c` is due again at once exactly when the window reaches
   back over the rest of its slot. The least duration counts as a window of 2^63
   nanoseconds, because negating it leaves it as it is.
   */
  lemma DueAgainAtOnceIff(parse: Parser, schedule: string, window: Duration, c: Instant)
    requires LawfulParser(parse) && parse(schedule).Some?
    ensures IsDue(parse, schedule, Some(Truncate(c)), window, c) == Ok(true)
       <==> parse(schedule).value(c) - c <= if window == MIN_DURATION then -MIN_DURATION else window
  {
    TruncationKeepsNext(parse(schedule).value, c);
  }

  /** With a window as long as its slots a schedule is due again at every instant: one rotation follows another. */
  lemma LongWindowRepeats(schedule: string, c: Instant)
    requires c >= ZERO_TIME
    ensures IsDue(_ => Some(EveryMinute), schedule, Some(Truncate(c)), MINUTE, c) == Ok(true)
  {
    EveryMinuteIsLawful();
    var parse: Parser := _ => Some(EveryMinute);
    assert LawfulParser(parse);
    StartOfMinute(c);
    DueAgainAtOnceIff(parse, schedule, MINUTE, c);
  }

  /** The schedule that never fires again is always due, whatever the window. */
  lemma ExhaustedScheduleIsAlwaysDue(parse: Parser, schedule: string, last: Instant, window: Duration, now: Instant)
    requires parse(schedule).Some? && parse(schedule).value(last) == ZERO_TIME
    requires now >= UNIX_EPOCH
    ensures IsDue(parse, schedule, Some(last), window, now) == Ok(true)
  {
    assert Negate(window) <= MAX_DURATION < UNIX_EPOCH;
  }

  /**
   The wake-up of a policy found not due at `now`, computed from a clock reading
   `clock` no earlier. Unless the wait overflows a duration it ends exactly at
   the later of the effective next time and the minimum delay.
   */
  lemma WakeUpIsExact(parse: Parser, schedule: string, last: Instant, window: Duration,
                      now: Instant, minDelay: Duration, clock: Instant)
    requires IsDue(parse, schedule, Some(last), window, now) == Ok(false)
    requires now <= clock && minDelay >= 0
    ensures RequeueDelay(parse, schedule, Some(last), window, now, minDelay, clock).Ok?
    ensures var effective := parse(schedule).value(last) + Negate(window);
            var wake := clock + RequeueDelay(parse, schedule, Some(last), window, now, minDelay, clock).value;
            && (wake == (if effective >= clock + minDelay then effective else clock + minDelay)
                <==> effective - clock <= MAX_DURATION)
            && (IsDue(parse, schedule, Some(last), window, wake) == Ok(true)
                <==> effective - clock <= MAX_DURATION)
  {
    assert clock - now >= 0;
  }

  /** A wait too long for a duration is cut short: the wake-up finds nothing due and waits anew. */
  lemma WakeUpCanBeEarly(schedule: string)
    ensures var parse: Parser, window: Duration := _ => Some(EveryMinute), -MAX_DURATION;
            && RequeueDelay(parse, schedule, Some(UNIX_EPOCH), window, UNIX_EPOCH, 30 * SECOND, UNIX_EPOCH)
                 == Ok(MAX_DURATION)
            && IsDue(parse, schedule, Some(UNIX_EPOCH), window, UNIX_EPOCH + MAX_DURATION) == Ok(false)
  {
    StartOfMinute(UNIX_EPOCH);
  }
}
