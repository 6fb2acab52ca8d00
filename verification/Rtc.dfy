/** The wall clock: Unix seconds to calendar dates, stepping by seconds, and catching up with a 100 Hz tick counter. */
module Rtc {
  import opened Bytes

  const TICK_HZ: nat := 100
  const WRAP: nat := 0x1_0000_0000
  const MAX_STEP: nat := 3600
  const DAY: nat := 86400

  /** The first second the calendar conversion gets wrong: the start of 2101. */
  const LIMIT: nat := 4133980800

  datatype Date = Date(y: int, mo: int, d: int, h: int, mi: int, s: int)

  predicate Leap(year: int) { (year % 4 == 0 && year % 100 != 0) || year % 400 == 0 }

  function Dim(year: int, month: int): (n: int)
    ensures 28 <= n <= 31
  {
    if month == 2 && Leap(year) then 29
    else if month < 1 || month > 12 then 30
    else [31, 28, 31, 30, 31, 30, 31, 31, 30, 31, 30, 31][month - 1]
  }

  function YearLen(year: int): (n: nat)
    ensures n == if Leap(year) then 366 else 365
  {
    if Leap(year) then 366 else 365
  }

  /** Days from the start of 1970 to the start of a year. */
  function YearDays(year: int): (n: nat)
    requires year >= 1970
    decreases year
  {
    if year == 1970 then 0 else YearDays(year - 1) + YearLen(year - 1)
  }

  /** Days from the start of a year to the start of a month. */
  function MonthDays(year: int, month: int): (n: nat)
    requires 1 <= month <= 13
    decreases month
  {
    if month == 1 then 0 else MonthDays(year, month - 1) + Dim(year, month - 1)
  }

  predicate IsDate(t: Date) {
    t.y >= 1970 && 1 <= t.mo <= 12 && 1 <= t.d <= Dim(t.y, t.mo) && 0 <= t.h < 24 && 0 <= t.mi < 60 && 0 <= t.s < 60
  }

  /**
   * Seconds since the Epoch as IEEE Std 1003.1-2017 defines them, Base Definitions section 4.16, with `y` counted from
   * 1900.
   */
  function Posix(t: Date): int
    requires 1 <= t.mo <= 12
  {
    var year, yday := t.y - 1900, MonthDays(t.y, t.mo) + t.d - 1;
    t.s + t.mi * 60 + t.h * 3600 + yday * 86400 + (year - 70) * 31536000 + (year - 69) / 4 * 86400
    - (year - 1) / 100 * 86400 + (year + 299) / 400 * 86400
  }

  /** The day of a date, counted from the start of 1970. */
  function DayNo(t: Date): nat
    requires IsDate(t)
  {
    YearDays(t.y) + MonthDays(t.y, t.mo) + t.d - 1
  }

  lemma {:induction false} YearDaysFormula(year: int)
    requires year >= 1970
    ensures YearDays(year) == (year - 1970) * 365 + (year - 1969) / 4 - (year - 1901) / 100 + (year - 1601) / 400
    decreases year
  {
    if year > 1970 {
      YearDaysFormula(year - 1);
      LeapFormula(year - 1);
    }
  }

  lemma LeapFormula(y: int)
    requires y >= 1970
    ensures (y - 1968) / 4 - (y - 1969) / 4 == if y % 4 == 0 then 1 else 0
    ensures (y - 1900) / 100 - (y - 1901) / 100 == if y % 100 == 0 then 1 else 0
    ensures (y - 1600) / 400 - (y - 1601) / 400 == if y % 400 == 0 then 1 else 0
    ensures y % 100 == 0 ==> y % 4 == 0
    ensures y % 400 == 0 ==> y % 100 == 0
  {
    StepDiv(y, 1968, 492, 4);
    StepDiv(y, 1900, 19, 100);
    StepDiv(y, 1600, 4, 400);
    Multiples(y);
  }

  lemma Multiples(y: int)
    ensures y % 100 == 0 ==> y % 4 == 0
    ensures y % 400 == 0 ==> y % 100 == 0
  {
    assert y % 100 == 0 ==> y == 4 * (y / 100 * 25);
    assert y % 400 == 0 ==> y == 100 * (y / 400 * 4);
  }

  /** Counting multiples of `k` from an offset that is one. */
  lemma StepDiv(y: int, off: int, m: int, k: int)
    requires k > 1 && off == m * k && y > off
    ensures (y - off) / k - (y - off - 1) / k == if y % k == 0 then 1 else 0
  {
    var n := y - off;
    var q, r := n / k, n % k;
    assert y == (q + m) * k + r;
    DivModUnique(y, k, q + m, r);
    if r == 0 {
      assert n - 1 == (q - 1) * k + (k - 1);
      DivModUnique(n - 1, k, q - 1, k - 1);
    } else {
      DivModUnique(n - 1, k, q, r - 1);
    }
  }

  lemma PosixDays(t: Date)
    requires IsDate(t)
    ensures Posix(t) == DayNo(t) * DAY + t.h * 3600 + t.mi * 60 + t.s
  {
    YearDaysFormula(t.y);
  }

  lemma YearMonths(year: int)
    ensures MonthDays(year, 13) == YearLen(year)
  {
    assert MonthDays(year, 2) == 31 && MonthDays(year, 3) == 31 + Dim(year, 2);
    assert MonthDays(year, 6) == MonthDays(year, 3) + 92;
    assert MonthDays(year, 9) == MonthDays(year, 6) + 92;
    assert MonthDays(year, 12) == MonthDays(year, 9) + 91;
  }

  lemma MonthOn(year: int, month: int)
    requires 1 <= month <= 12
    ensures MonthDays(year, month) == if month == 1 then 0 else MonthDays(year, month - 1) + Dim(year, month - 1)
  {
    hide Dim;
  }

  /** The days before a month, by the closed formula for years that begin in March. */
  lemma {:induction false} MonthDaysFormula(year: int, month: int)
    requires 1 <= month <= 12
    ensures MonthDays(year, month) ==
      if month <= 2 then 31 * (month - 1) else (153 * (month - 3) + 2) / 5 + (if Leap(year) then 60 else 59)
    decreases month
  {
    hide MonthDays;
    MonthOn(year, month);
    if month > 1 {
      MonthDaysFormula(year, month - 1);
    }
  }

  lemma {:induction false} YearsGrow(a: int, b: int)
    requires 1970 <= a < b
    ensures YearDays(a) + YearLen(a) <= YearDays(b)
    decreases b
  {
    if a < b - 1 {
      YearsGrow(a, b - 1);
    }
  }

  lemma {:induction false} MonthsGrow(year: int, a: int, b: int)
    requires 1 <= a < b <= 13
    ensures MonthDays(year, a) + Dim(year, a) <= MonthDays(year, b)
    decreases b
  {
    if a < b - 1 {
      MonthsGrow(year, a, b - 1);
    }
  }

  /** A date lies inside its month, and its month inside its year. */
  lemma InYear(t: Date)
    requires IsDate(t)
    ensures YearDays(t.y) <= DayNo(t) < YearDays(t.y) + YearLen(t.y)
  {
    YearMonths(t.y);
    MonthsGrow(t.y, t.mo, 13);
  }

  /** Different dates have different seconds. */
  lemma PosixInjective(a: Date, b: Date)
    requires IsDate(a) && IsDate(b) && Posix(a) == Posix(b)
    ensures a == b
  {
    PosixDays(a);
    PosixDays(b);
    var u, v := a.h * 3600 + a.mi * 60 + a.s, b.h * 3600 + b.mi * 60 + b.s;
    assert DayNo(a) == DayNo(b) && u == v;
    SameDay(a, b);
  }

  lemma SameDay(a: Date, b: Date)
    requires IsDate(a) && IsDate(b) && DayNo(a) == DayNo(b)
    ensures a.y == b.y && a.mo == b.mo && a.d == b.d
  {
    InYear(a);
    InYear(b);
    if a.y < b.y {
      YearsGrow(a.y, b.y);
    } else if b.y < a.y {
      YearsGrow(b.y, a.y);
    } else if a.mo < b.mo {
      MonthsGrow(a.y, a.mo, b.mo);
    } else if b.mo < a.mo {
      MonthsGrow(a.y, b.mo, a.mo);
    }
  }

  class Clock {
    var ready: bool
    var y: int
    var mo: int
    var d: int
    var h: int
    var mi: int
    var s: int
    var ticks0: nat

    function Now(): Date
      reads this
    {
      Date(y, mo, d, h, mi, s)
    }

    constructor ()
      ensures !ready
    {
      ready, y, mo, d, h, mi, s, ticks0 := false, 0, 0, 0, 0, 0, 0, 0;
    }

    /** Sets the date to a Unix time: the right one exactly up to the end of 2100. */
    method FromUnix32(epoch: nat)
      requires epoch < WRAP
      modifies this`y, this`mo, this`d, this`h, this`mi, this`s
      ensures IsDate(Now()) && Posix(Now()) == Start(epoch)
      ensures Posix(Now()) == epoch <==> epoch < LIMIT
    {
      hide YearDays, Posix, Dim, Leap, MonthDays, YearLen;
      var days := epoch / DAY;
      var rem := epoch - days * DAY;
      h := rem / 3600;
      rem := rem - h * 3600;
      mi := rem / 60;
      s := rem - mi * 60;
      ghost var day := days;
      var year;
      year, days := FindYear(days);
      y := year;
      FindMonth(year, days);
      PosixDays(Now());
      YearLimit();
    }

    /** The year a day lies in and its number there; behind 2100 the first day of that year. */
    method FindYear(day: nat) returns (year: int, days: nat)
      ensures 1970 <= year <= 2100 && days < YearLen(year)
      ensures if day < YearDays(2101) then YearDays(year) + days == day else year == 2100 && days == 0
    {
      hide YearDays;
      year, days := 1970, day;
      YearStart();
      while true
        invariant 1970 <= year <= 2100 && YearDays(year) + days == day
        decreases 2101 - year
      {
        var yl: nat := if Leap(year) then 366 else 365;
        YearNext(year);
        if days < yl {
          YearsUpTo(year);
          return;
        }
        days := days - yl;
        year := year + 1;
        if year > 2100 {
          return 2100, 0;
        }
      }
    }

    /** The next second, carried through minutes, hours, days, months and years. */
    method AddOneSecond()
      requires IsDate(Now())
      modifies this`y, this`mo, this`d, this`h, this`mi, this`s
      ensures IsDate(Now()) && Posix(Now()) == Posix(old(Now())) + 1
    {
      ghost var was := Now();
      PosixDays(was);
      s := s + 1;
      if s < 60 {
        PosixDays(Now());
        return;
      }
      s := 0;
      mi := mi + 1;
      if mi < 60 {
        PosixDays(Now());
        return;
      }
      mi := 0;
      h := h + 1;
      if h < 24 {
        PosixDays(Now());
        return;
      }
      h := 0;
      AddOneDay();
      PosixDays(Now());
    }

    method AddOneDay()
      requires IsDate(Now())
      modifies this`y, this`mo, this`d
      ensures IsDate(Now()) && DayNo(Now()) == DayNo(old(Now())) + 1
    {
      hide Leap, Dim;
      d := d + 1;
      if d <= Dim(y, mo) {
        return;
      }
      d := 1;
      mo := mo + 1;
      if mo <= 12 {
        return;
      }
      YearMonths(y);
      YearNext(y);
      mo := 1;
      y := y + 1;
    }

    /** Catches up with the tick counter, by at most an hour at a time. */
    method AdvanceByPit(now: nat)
      requires IsDate(Now()) && now < WRAP && ticks0 < WRAP
      modifies this`y, this`mo, this`d, this`h, this`mi, this`s, this`ticks0
      ensures IsDate(Now()) && ticks0 < WRAP
      ensures var n := Step(old(ticks0), now); Posix(Now()) == Posix(old(Now())) + n && ticks0 == Later(old(ticks0), n)
    {
      hide Posix, Elapsed, Later, Dim, Leap;
      var elapsed := Elapsed(ticks0, now);
      ghost var was := Now();
      LaterNothing(ticks0);
      if elapsed == 0 {
        return;
      }
      if elapsed > MAX_STEP {
        elapsed := MAX_STEP;
      }
      ticks0 := Later(ticks0, elapsed);
      assert Now() == was;
      var left := elapsed;
      while left > 0
        invariant IsDate(Now()) && 0 <= left <= elapsed && Posix(Now()) == Posix(was) + (elapsed - left)
        invariant ticks0 == Later(old(ticks0), elapsed)
      {
        left := left - 1;
        AddOneSecond();
      }
    }

    /** Reads the clock; the first read sets it to `seed`. */
    method Read(now: nat, seed: nat) returns (t: Date)
      requires now < WRAP && ticks0 < WRAP && seed < WRAP && (ready ==> IsDate(Now()))
      modifies this
      ensures ready && IsDate(Now()) && t == Now() && ticks0 < WRAP
      ensures !old(ready) ==> Posix(t) == Start(seed) && ticks0 == now
      ensures old(ready) ==>
        var n := Step(old(ticks0), now); Posix(t) == Posix(old(Now())) + n && ticks0 == Later(old(ticks0), n)
    {
      hide Posix, Elapsed, Later, Dim, Leap;
      ElapsedNothing(now);
      LaterNothing(now);
      if !ready {
        FromUnix32(seed);
        ticks0 := now;
        ready := true;
      }
      AdvanceByPit(now);
      t := Now();
    }

    /** The month and day of a day of the year. */
    method FindMonth(year: int, yday: nat)
      requires yday < YearLen(year)
      modifies this`mo, this`d
      ensures 1 <= mo <= 12 && 1 <= d <= Dim(year, mo) && MonthDays(year, mo) + d - 1 == yday
    {
      mo := 1;
      var days := yday;
      var i := 1;
      while i <= 12
        invariant 1 <= i <= 13 && days == yday - MonthDays(year, i) >= 0
      {
        var md := Dim(year, i);
        if days < md {
          mo, d := i, days + 1;
          return;
        }
        days := days - md;
        i := i + 1;
      }
      YearMonths(year);
      mo, d := 12, 31;
    }
  }

  lemma YearStart()
    ensures YearDays(1970) == 0
  {
  }

  lemma YearNext(year: int)
    requires year >= 1970
    ensures YearDays(year + 1) == YearDays(year) + YearLen(year)
  {
  }

  lemma YearsUpTo(year: int)
    requires 1970 <= year <= 2100
    ensures YearDays(year) + YearLen(year) <= YearDays(2101)
  {
    YearsGrow(year, 2101);
  }

  lemma YearLimit()
    ensures YearDays(2101) * DAY == LIMIT && YearDays(2100) < YearDays(2101)
  {
    hide YearDays;
    YearDaysFormula(2101);
    YearNext(2100);
  }

  /** The Unix time the clock is set to: from 2101 on, that time of day on the first day of 2100. */
  function Start(seed: nat): (t: nat) { if seed < LIMIT then seed else YearDays(2100) * DAY + seed % DAY }

  /** The seconds one read catches up by. */
  function Step(from: nat, now: nat): (n: nat)
    requires from < WRAP && now < WRAP
    ensures n <= MAX_STEP
  {
    var e := Elapsed(from, now);
    if e > MAX_STEP then MAX_STEP else e
  }

  /** Whole seconds between two values of the 32-bit tick counter, subtracted with wrap-around. */
  function Elapsed(from: nat, now: nat): (n: nat) { (now - from) % WRAP / TICK_HZ }

  /** The counter value `n` seconds later. */
  function Later(from: nat, n: nat): (t: nat)
    ensures t < WRAP
  {
    (from + n * TICK_HZ) % WRAP
  }

  lemma LaterNothing(from: nat)
    requires from < WRAP
    ensures Later(from, 0) == from
  {
  }

  lemma ElapsedNothing(now: nat)
    ensures Elapsed(now, now) == 0
  {
  }

  // ---- no drift ----

  /** Ticks accounted for after reads at the true times `at[..]`, from a first one at `at[0]`. */
  function Consumed(at: seq<nat>): (a: nat)
    requires |at| > 0
    decreases |at|
  {
    if |at| == 1 then at[0]
    else
      var a := Consumed(at[..|at| - 1]);
      a + Step(a % WRAP, at[|at| - 1] % WRAP) * TICK_HZ
  }

  /** Seconds accounted for. */
  function Seconds(at: seq<nat>): int
    requires |at| > 0
  {
    (Consumed(at) - at[0]) / TICK_HZ
  }

  /** Over any reads the clock is where it started plus a hundredth of the ticks accounted for. */
  method ReadAll(c: Clock, at: seq<nat>, seed: nat) returns (t: Date)
    requires |at| > 0 && seed < WRAP && !c.ready && c.ticks0 < WRAP
    modifies c
    ensures c.ready && IsDate(t) && t == c.Now()
    ensures (Consumed(at) - at[0]) % TICK_HZ == 0 && Posix(t) == Start(seed) + (Consumed(at) - at[0]) / TICK_HZ
    ensures c.ticks0 == Consumed(at) % WRAP
  {
    hide Posix, Step, Later, Consumed, Dim, Leap, Start;
    t := c.Read(at[0] % WRAP, seed);
    FirstRead(at);
    var i := 1;
    while i < |at|
      invariant 1 <= i <= |at| && c.ready && IsDate(c.Now()) && t == c.Now() && at[..i][0] == at[0]
      invariant Posix(t) == Start(seed) + Seconds(at[..i]) && c.ticks0 == Consumed(at[..i]) % WRAP
    {
      OneMoreRead(at, i);
      t := c.Read(at[i] % WRAP, seed);
      i := i + 1;
    }
    assert at[..i] == at;
    WholeSeconds(at);
  }

  lemma FirstRead(at: seq<nat>)
    requires |at| > 0
    ensures Consumed(at[..1]) == at[0] && Seconds(at[..1]) == 0
  {
  }

  lemma OneMoreRead(at: seq<nat>, i: nat)
    requires 1 <= i < |at|
    ensures var n := Step(Consumed(at[..i]) % WRAP, at[i] % WRAP);
      && Consumed(at[..i + 1]) % WRAP == Later(Consumed(at[..i]) % WRAP, n)
      && Seconds(at[..i + 1]) == Seconds(at[..i]) + n
  {
    hide Step, Later;
    var a := Consumed(at[..i]);
    WholeSeconds(at[..i]);
    var n := Step(a % WRAP, at[i] % WRAP);
    TrueLater(a, n);
    Whole(a - at[0], n);
    assert at[..i + 1][..i] == at[..i];
  }

  lemma {:induction false} WholeSeconds(at: seq<nat>)
    requires |at| > 0
    ensures (Consumed(at) - at[0]) % TICK_HZ == 0 && at[0] <= Consumed(at)
    decreases |at|
  {
    hide Step;
    if |at| > 1 {
      var front := at[..|at| - 1];
      WholeSeconds(front);
      Whole(Consumed(front) - at[0], Step(Consumed(front) % WRAP, at[|at| - 1] % WRAP));
    }
  }

  lemma Whole(a: nat, n: nat)
    requires a % TICK_HZ == 0
    ensures (a + n * TICK_HZ) % TICK_HZ == 0 && (a + n * TICK_HZ) / TICK_HZ == a / TICK_HZ + n
  {
    DivModUnique(a + n * TICK_HZ, TICK_HZ, a / TICK_HZ + n, 0);
  }

  lemma TrueLater(a: nat, n: nat)
    ensures Later(a % WRAP, n) == (a + n * TICK_HZ) % WRAP
  {
    var b := n * TICK_HZ;
    assert a == a / WRAP * WRAP + a % WRAP && a + b == (a + b) / WRAP * WRAP + (a + b) % WRAP;
    DivModUnique(a % WRAP + b, WRAP, (a + b) / WRAP - a / WRAP, (a + b) % WRAP);
  }

  // ---- how far behind ----

  /** Time goes forward. */
  ghost predicate Forward(at: seq<nat>) { forall i :: 0 < i < |at| ==> at[i - 1] <= at[i] }

  /** The clock is never read so late that the 32-bit counter has passed it by a whole turn. */
  ghost predicate InTime(at: seq<nat>) { forall i :: 0 < i < |at| ==> at[i] < Consumed(at[..i]) + WRAP }

  /** Whole turns of the counter by which the clock is behind after the last read. */
  function Lost(at: seq<nat>): (n: int)
    requires |at| > 0
  {
    (at[|at| - 1] - Consumed(at)) / WRAP
  }

  /** A step through the wrapped counter is a step through true time, less whole turns. */
  lemma TrueStep(a: nat, t: nat)
    requires a <= t
    ensures Step(a % WRAP, t % WRAP) == Min((t - a) % WRAP / TICK_HZ, MAX_STEP)
  {
    var qa, qt, q := a / WRAP, t / WRAP, (t - a) / WRAP;
    var m := t % WRAP - a % WRAP;
    assert m == (qa - qt + q) * WRAP + (t - a) % WRAP;
    DivModUnique(m, WRAP, qa - qt + q, (t - a) % WRAP);
  }

  function Min(a: nat, b: nat): nat { if a < b then a else b }

  /**
   * What one read leaves of what was to catch up with: all whole turns, and of the rest less than a second unless
   * clamped.
   */
  lemma Left(left: nat)
    ensures var n := Min(left % WRAP / TICK_HZ, MAX_STEP) * TICK_HZ;
      && n <= left && (left - n) / WRAP == left / WRAP
      && (left % WRAP / TICK_HZ <= MAX_STEP ==> 0 <= left - n - left / WRAP * WRAP < TICK_HZ)
  {
    var n := Min(left % WRAP / TICK_HZ, MAX_STEP) * TICK_HZ;
    DivModUnique(left - n, WRAP, left / WRAP, left % WRAP - n);
  }

  /**
   * The clock is never ahead. It is behind by whole turns if and only if some read came a whole turn late, and besides
   * them by less than a second unless the last read was clamped.
   */
  lemma {:induction false} NotAhead(at: seq<nat>)
    requires |at| > 0 && Forward(at)
    ensures Consumed(at) <= at[|at| - 1] && (Lost(at) == 0 <==> InTime(at))
    ensures |at| > 1 ==>
      var a, t := Consumed(at[..|at| - 1]), at[|at| - 1];
      && a <= t && Lost(at) >= Lost(at[..|at| - 1])
      && ((t - a) % WRAP / TICK_HZ <= MAX_STEP ==> 0 <= t - Consumed(at) - Lost(at) * WRAP < TICK_HZ)
    decreases |at|
  {
    hide InTime, Min, Step;
    if |at| > 1 {
      var front, t := at[..|at| - 1], at[|at| - 1];
      ForwardFront(at);
      NotAhead(front);
      InTimeLast(at);
      TrueStep(Consumed(front), t);
      Left(t - Consumed(front));
      Turns(at[|at| - 2] - Consumed(front), t - Consumed(front));
    } else {
      InTimeOne(at);
    }
  }

  lemma ForwardFront(at: seq<nat>)
    requires Forward(at) && |at| > 1
    ensures Forward(at[..|at| - 1]) && at[|at| - 2] <= at[|at| - 1]
  {
    assert at[|at| - 1 - 1] <= at[|at| - 1];
  }

  lemma Turns(a: nat, b: nat)
    requires a <= b
    ensures 0 <= a / WRAP <= b / WRAP && (b / WRAP == 0 <==> b < WRAP)
  {
  }

  lemma InTimeOne(at: seq<nat>)
    requires |at| == 1
    ensures InTime(at)
  {
  }

  lemma InTimeLast(at: seq<nat>)
    requires |at| > 1
    ensures InTime(at) <==> InTime(at[..|at| - 1]) && at[|at| - 1] < Consumed(at[..|at| - 1]) + WRAP
  {
    hide Consumed;
    var front := at[..|at| - 1];
    assert forall j :: 0 < j < |front| ==> front[..j] == at[..j] && front[j] == at[j];
  }
}
