/**
 The limits on requests to the geocoder: per day, counted by the usage table, and per
 minute, counted in memory (admit, its release and takeMinuteSlot in
 backend/internal/geocoding/service.go, and the counter of
 backend/internal/storage/postgres/usage.go). Times are seconds.
 */
module RateLimiter {
  import opened Common

  type Time = nat

  const MINUTE: Time := 60
  const HOUR: Time := 3600
  const DAY: Time := 86400

  function HourOf(at: Time): Time {
    at / HOUR * HOUR
  }

  /** Whether the usage table still counts a request: it compares whole hours. */
  predicate InDay(at: Time, now: Time) {
    HourOf(at) > HourOf(now) - DAY
  }

  function DayWeight(now: Time): Time -> int {
    (at: Time) => if InDay(at, now) then 1 else 0
  }

  /** The requests of the last day, as the usage table counts them. */
  function Used(recorded: seq<Time>, now: Time): int {
    SumBy(recorded, DayWeight(now))
  }

  /** The moments after a cut, in order. */
  function After(times: seq<Time>, cut: int): seq<Time> {
    if times == [] then []
    else After(times[..|times| - 1], cut) + if times[|times| - 1] > cut then [times[|times| - 1]] else []
  }

  datatype Answer = Admitted | RateLimited | Unreadable

  // ------------------------------------------------------------- the invariant

  /** What is known of a limiter: `first` is what the table held when it started,
      `admitted` every request it let through, `held` the reservations not given back. */
  datatype History = History(first: seq<Time>, admitted: seq<Time>, held: seq<Time>, cut: int, clock: Time)

  ghost predicate Ordered(times: seq<Time>, clock: Time) {
    && (forall i, j :: 0 <= i < j < |times| ==> times[i] <= times[j])
    && (forall i :: 0 <= i < |times| ==> times[i] <= clock)
  }

  /** No request was let through as one too many in its minute. */
  ghost predicate MinutesKept(admitted: seq<Time>, perMinute: int) {
    perMinute > 0 ==>
      forall j :: 0 <= j < |admitted| ==> |After(admitted[..j + 1], admitted[j] - MINUTE)| <= perMinute
  }

  ghost predicate Sound(daily: int, perMinute: int, recent: seq<Time>, inflight: int, recorded: seq<Time>, h: History) {
    && inflight == |h.held|
    && multiset(recorded + h.held) == multiset(h.first + h.admitted)
    && (daily > 0 ==> Used(recorded, h.clock) + inflight <= daily)
    && Ordered(h.admitted, h.clock) && h.cut <= h.clock - MINUTE
    && recent == After(h.admitted, h.cut)
    && MinutesKept(h.admitted, perMinute)
  }

  // ------------------------------------------------------------- small facts

  lemma {:induction false} UsedFalls(recorded: seq<Time>, now: Time, later: Time)
    requires now <= later
    ensures 0 <= Used(recorded, later) <= Used(recorded, now) <= |recorded|
  {
    if recorded != [] {
      UsedFalls(recorded[..|recorded| - 1], now, later);
    }
  }

  lemma {:induction false} AfterAgain(times: seq<Time>, cut: int, later: int)
    requires cut <= later
    ensures After(After(times, cut), later) == After(times, later)
  {
    if times != [] {
      var front, last := times[..|times| - 1], times[|times| - 1];
      AfterAgain(front, cut, later);
      if last > cut {
        assert (After(front, cut) + [last])[..|After(front, cut)|] == After(front, cut);
      } else {
        assert After(front, cut) + [] == After(front, cut);
      }
    }
  }

  lemma {:induction false} AfterLast(times: seq<Time>, last: Time, cut: int)
    requires last > cut
    ensures After(times + [last], cut) == After(times, cut) + [last]
  {
    assert (times + [last])[..|times|] == times;
  }

  lemma {:induction false} OneMinuteMore(admitted: seq<Time>, now: Time, perMinute: int)
    requires MinutesKept(admitted, perMinute)
    requires perMinute > 0 ==> |After(admitted, now - MINUTE)| < perMinute
    ensures MinutesKept(admitted + [now], perMinute)
  {
    hide After;
    if perMinute > 0 {
      var grown := admitted + [now];
      AfterLast(admitted, now, now - MINUTE);
      forall j | 0 <= j < |grown| ensures |After(grown[..j + 1], grown[j] - MINUTE)| <= perMinute {
        if j < |admitted| {
          assert grown[..j + 1] == admitted[..j + 1];
        } else {
          assert grown[..j + 1] == grown;
        }
      }
    }
  }

  lemma GivenBack(daily: int, perMinute: int, recent: seq<Time>, inflight: int, recorded: seq<Time>, h: History, k: nat)
    requires Sound(daily, perMinute, recent, inflight, recorded, h) && k < |h.held|
    ensures Sound(daily, perMinute, recent, inflight - 1, recorded + [h.held[k]], h.(held := Without(h.held, k)))
  {
    hide After;
    hide Ordered;
    hide MinutesKept;
    var at, rest := h.held[k], Without(h.held, k);
    assert Used(recorded + [at], h.clock) <= Used(recorded, h.clock) + 1 by {
      assert (recorded + [at])[..|recorded|] == recorded;
    }
    MultisetWithout(h.held, k);
    assert at in multiset(h.held);
    assert multiset(recorded + [at] + rest) == multiset(recorded) + multiset{at} + multiset(rest);
    assert multiset(recorded + h.held) == multiset(recorded) + multiset(h.held);
    assert |rest| == |h.held| - 1;
  }

  // ------------------------------------------------------------- the limiter

  class Service {
    const daily: int
    const perMinute: int
    var recent: seq<Time>
    var inflight: int
    /** The requests the usage table holds. */
    var recorded: seq<Time>
    ghost var history: History

    ghost predicate Valid()
      reads this
    {
      Sound(daily, perMinute, recent, inflight, recorded, history)
    }

    /** Starts within the limit, with what earlier processes recorded. */
    constructor (daily: int, perMinute: int, recorded: seq<Time>, now: Time)
      requires daily > 0 ==> Used(recorded, now) <= daily
      ensures Valid() && history == History(recorded, [], [], now - MINUTE, now)
      ensures this.daily == daily && this.perMinute == perMinute && this.recorded == recorded && inflight == 0
    {
      this.daily, this.perMinute, this.recorded := daily, perMinute, recorded;
      recent, inflight := [], 0;
      history := History(recorded, [], [], now - MINUTE, now);
    }

    /** Reserves a request within the limit per minute. */
    method TakeMinuteSlot(now: Time) returns (ok: bool)
      modifies this`recent
      ensures ok <==> perMinute <= 0 || |After(old(recent), now - MINUTE)| < perMinute
      ensures recent == After(old(recent), now - MINUTE) + if ok then [now] else []
    {
      var cutoff := now - MINUTE;
      var kept := [];
      for index := 0 to |recent|
        invariant recent == old(recent) && kept == After(recent[..index], cutoff)
      {
        assert recent[..index + 1][..index] == recent[..index];
        if recent[index] > cutoff {
          kept := kept + [recent[index]];
        }
      }
      assert recent[..|recent|] == recent;
      recent := kept;
      if perMinute > 0 && |recent| >= perMinute {
        return false;
      }
      recent := recent + [now];
      return true;
    }

    /** Reserves an allowance before the provider is asked. It is granted exactly when
        the day, reservations included, and the minute have room. */
    method Admit(now: Time, readable: bool) returns (answer: Answer)
      requires Valid() && history.clock <= now
      modifies this`recent, this`inflight, this`history
      ensures Valid() && history.clock == now && history.first == old(history.first)
      ensures answer == Admitted <==>
              && readable && (daily > 0 ==> Used(recorded, now) + old(inflight) < daily)
              && (perMinute > 0 ==> |After(old(history.admitted), now - MINUTE)| < perMinute)
      ensures answer == Admitted ==>
                history.admitted == old(history.admitted) + [now] && history.held == old(history.held) + [now]
      ensures answer != Admitted ==> history.admitted == old(history.admitted) && history.held == old(history.held)
      ensures inflight == old(inflight) + if answer == Admitted then 1 else 0
      ensures answer == Unreadable <==> !readable
    {
      hide After;
      hide Used;
      UsedFalls(recorded, history.clock, now);
      AfterAgain(history.admitted, history.cut, now - MINUTE);
      ghost var before := history;
      history := history.(clock := now);
      if !readable {
        return Unreadable;
      }
      if daily > 0 && Used(recorded, now) + inflight >= daily {
        return RateLimited;
      }
      var slot := TakeMinuteSlot(now);
      history := history.(cut := now - MINUTE);
      if !slot {
        return RateLimited;
      }
      inflight := inflight + 1;
      history := history.(admitted := before.admitted + [now], held := before.held + [now]);
      AfterLast(before.admitted, now, now - MINUTE);
      OneMinuteMore(before.admitted, now, perMinute);
      assert recorded + (before.held + [now]) == (recorded + before.held) + [now];
      assert before.first + (before.admitted + [now]) == (before.first + before.admitted) + [now];
      return Admitted;
    }

    /** Records the attempt of a reservation and gives it back. When the attempt cannot be
        recorded the reservation is kept, so that it still counts. */
    method Release(at: Time, ghost k: nat, writable: bool)
      requires Valid() && k < |history.held| && history.held[k] == at
      modifies this`inflight, this`recorded, this`history
      ensures Valid() && history.admitted == old(history.admitted) && history.clock == old(history.clock)
      ensures writable ==> recorded == old(recorded) + [at] && inflight == old(inflight) - 1
      ensures history == old(history).(held := if writable then Without(old(history.held), k) else old(history.held))
      ensures !writable ==> recorded == old(recorded) && inflight == old(inflight)
    {
      hide Sound;
      if !writable {
        return;
      }
      GivenBack(daily, perMinute, recent, inflight, recorded, history, k);
      ghost var h := history;
      recorded := recorded + [at];
      inflight := inflight - 1;
      history := history.(held := Without(h.held, k));
    }
  }

  // ------------------------------------------------------------- what the limits promise

  lemma {:induction false} AtMostEach(times: seq<Time>, now: Time)
    ensures 0 <= Used(times, now) <= |times|
  {
    if times != [] {
      AtMostEach(times[..|times| - 1], now);
    }
  }

  /** From now on the table and the reservations never hold more than the day allows, and
      neither do the requests let through, with those of earlier processes: none is
      missing from the count, recorded or not. */
  lemma DailyLimitKept(daily: int, perMinute: int, recent: seq<Time>, inflight: int, recorded: seq<Time>, h: History,
                       later: Time)
    requires Sound(daily, perMinute, recent, inflight, recorded, h) && daily > 0 && h.clock <= later
    ensures Used(recorded, later) + inflight <= daily
    ensures Used(h.first + h.admitted, later) <= daily
  {
    UsedFalls(recorded, h.clock, later);
    SumByPermuted(recorded + h.held, h.first + h.admitted, DayWeight(later));
    SumByAppend(recorded, h.held, DayWeight(later));
    AtMostEach(h.held, later);
  }

  /** The requests of a stretch of time. */
  function Within(times: seq<Time>, from: int, to: int): nat {
    if times == [] then 0
    else
      Within(times[..|times| - 1], from, to) + if from < times[|times| - 1] <= to then 1 else 0
  }

  lemma {:induction false} WithinAfter(times: seq<Time>, from: int, to: int)
    requires forall i :: 0 <= i < |times| ==> times[i] <= to
    ensures Within(times, from, to) == |After(times, from)|
  {
    if times != [] {
      WithinAfter(times[..|times| - 1], from, to);
    }
  }

  lemma {:induction false} AfterFalls(times: seq<Time>, cut: int, later: int)
    requires cut <= later
    ensures |After(times, later)| <= |After(times, cut)|
  {
    if times != [] {
      AfterFalls(times[..|times| - 1], cut, later);
    }
  }

  lemma {:induction false} MinuteWindow(admitted: seq<Time>, clock: Time, perMinute: int, to: int)
    requires perMinute > 0 && Ordered(admitted, clock) && MinutesKept(admitted, perMinute)
    ensures Within(admitted, to - MINUTE, to) <= perMinute
  {
    if admitted != [] {
      var front, last := admitted[..|admitted| - 1], admitted[|admitted| - 1];
      if last > to {
        assert MinutesKept(front, perMinute) by {
          forall j | 0 <= j < |front| ensures |After(front[..j + 1], front[j] - MINUTE)| <= perMinute {
            assert front[..j + 1] == admitted[..j + 1];
          }
        }
        MinuteWindow(front, clock, perMinute, to);
      } else {
        assert admitted[..|admitted|] == admitted;
        WithinAfter(admitted, to - MINUTE, to);
        AfterFalls(admitted, last - MINUTE, to - MINUTE);
      }
    }
  }

  /** No minute, wherever it begins, sees more requests than allowed; the slice kept in
      memory decides it although it has forgotten what is older. */
  lemma MinuteLimitKept(daily: int, perMinute: int, recent: seq<Time>, inflight: int, recorded: seq<Time>, h: History,
                        to: int)
    requires Sound(daily, perMinute, recent, inflight, recorded, h) && perMinute > 0
    ensures Within(h.admitted, to - MINUTE, to) <= perMinute
  {
    MinuteWindow(h.admitted, h.clock, perMinute, to);
  }

  // ------------------------------------------------------------- what a day is

  /** A request of the last 24 hours that the table does not count any more: it was made
      in the same hour of the day before, later in that hour. */
  predicate Missed(at: Time, now: Time) {
    HourOf(now) - HourOf(at) == DAY && at - HourOf(at) > now - HourOf(now)
  }

  /** The table counts only requests of the last 24 hours, and all of them but those of
      the hour that is passing out of the day. */
  lemma HourlyDay(at: Time, now: Time)
    requires at <= now
    ensures now - at < DAY <==> InDay(at, now) || Missed(at, now)
    ensures !(InDay(at, now) && Missed(at, now))
    ensures now - at <= DAY - HOUR ==> InDay(at, now)
  {
    assert at == HourOf(at) + at % HOUR && now == HourOf(now) + now % HOUR;
    assert HourOf(at) % HOUR == 0 && HourOf(now) % HOUR == 0;
    var hours := (now / HOUR) - (at / HOUR);
    assert HourOf(now) - HourOf(at) == hours * HOUR;
    assert DAY == 24 * HOUR;
  }

  function MissedWeight(now: Time): Time -> int {
    (at: Time) => if Missed(at, now) then 1 else 0
  }

  lemma {:induction false} DayIsCounted(times: seq<Time>, now: Time)
    requires forall i :: 0 <= i < |times| ==> times[i] <= now
    ensures Within(times, now - DAY, now) == Used(times, now) + SumBy(times, MissedWeight(now))
  {
    if times != [] {
      DayIsCounted(times[..|times| - 1], now);
      HourlyDay(times[|times| - 1], now);
    }
  }

  /** Over a true day of 24 hours exactly the requests the table counts and those it misses
      were let through, so the limit holds over it exactly when the room the table and the
      reservations leave is enough for the missed ones. */
  lemma {:induction false} TrueDay(daily: int, perMinute: int, recent: seq<Time>, inflight: int,
                                   recorded: seq<Time>, h: History, later: Time)
    requires Sound(daily, perMinute, recent, inflight, recorded, h) && daily > 0 && h.clock <= later
    requires forall i :: 0 <= i < |h.first| ==> h.first[i] <= h.clock
    ensures var day, missed := Within(h.first + h.admitted, later - DAY, later),
                               SumBy(recorded + h.held, MissedWeight(later));
            && day == Used(recorded, later) + Used(h.held, later) + missed
            && day <= daily + missed
            && (day <= daily <==> missed <= daily - Used(recorded, later) - Used(h.held, later))
  {
    DailyLimitKept(daily, perMinute, recent, inflight, recorded, h, later);
    DayIsCounted(h.first + h.admitted, later);
    SumByPermuted(recorded + h.held, h.first + h.admitted, MissedWeight(later));
    SumByPermuted(recorded + h.held, h.first + h.admitted, DayWeight(later));
    SumByAppend(recorded, h.held, DayWeight(later));
  }

  lemma NothingUsed(now: Time)
    ensures Used([], now) == 0
  {
  }

  lemma OneForgotten()
    ensures Used([3540], 86400) == 0
  {
    NothingUsed(86400);
    assert [3540][..0] == [];
  }

  /** Two requests 23 hours and 1 minute apart pass a limit of one a day: the first at
      00:59 is forgotten at midnight. */
  method TwoInADay() returns (one: Answer, other: Answer)
    ensures one == other == Admitted && 86400 - 3540 < DAY
  {
    hide Sound;
    hide Used;
    hide After;
    NothingUsed(3540);
    var service := new Service(1, 0, [], 3540);
    one := service.Admit(3540, true);
    service.Release(3540, 0, true);
    assert service.recorded == [] + [3540];
    OneForgotten();
    other := service.Admit(86400, true);
  }
}
