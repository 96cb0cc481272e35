/**
 The next run of a cron schedule: a search that skips months, days, hours and minutes, proved equal
 to a scan of every minute of the next 366 days.
 */
module CronNextRun {
  import opened Arithmetic
  import opened Text
  import opened Decimal
  import opened CronFields
  import opened Calendar

  const MS_PER_MINUTE := 60000
  const LOOKAHEAD_MS := 366 * 24 * 60 * 60 * 1000

  /** Months count from 1 here; in `dows`, 7 has become 0. The flags say that a day field is a lone star. */
  datatype Spec = Spec(minutes: set<int>, hours: set<int>, doms: set<int>, months: set<int>, dows: set<int>,
                       anyDom: bool, anyDow: bool)

  function SpecOf(expr: string): Spec
    requires ValidateCron(expr).Valid?
  {
    var f := Words(expr);
    var dows := FieldCandidates(Split(f[4], ','), FIELD_RULES[4]);
    Spec(
      FieldCandidates(Split(f[0], ','), FIELD_RULES[0]),
      FieldCandidates(Split(f[1], ','), FIELD_RULES[1]),
      FieldCandidates(Split(f[2], ','), FIELD_RULES[2]),
      FieldCandidates(Split(f[3], ','), FIELD_RULES[3]),
      set d | d in dows :: if d == 7 then 0 else d,
      f[2] == "*",
      f[4] == "*")
  }

  /** A day matches if its unrestricted fields are ignored and, when both are restricted, either one fits. */
  predicate DayMatches(spec: Spec, t: int) {
    var domFits, dowFits := Date(t) in spec.doms, WeekDay(Day(t)) in spec.dows;
    if spec.anyDom || spec.anyDow then (spec.anyDom || domFits) && (spec.anyDow || dowFits)
    else domFits || dowFits
  }

  predicate DateMatches(spec: Spec, t: int) {
    Month(t) + 1 in spec.months && DayMatches(spec, t)
  }

  predicate Matches(spec: Spec, t: int) {
    DateMatches(spec, t) && Hour(t) in spec.hours && Minute(t) in spec.minutes
  }

  /** The reference search: every minute from `t` to `last` in turn. */
  function FirstMatch(spec: Spec, t: int, last: int): Option<int>
    decreases last - t
  {
    if t > last then None
    else if Matches(spec, t) then Some(t)
    else FirstMatch(spec, t + 1, last)
  }

  /** The reference search finds the least match in its window, and nothing exactly when there is none. */
  lemma {:induction false} FirstMatchIsLeast(spec: Spec, t: int, last: int)
    ensures match FirstMatch(spec, t, last)
            case Some(m) => t <= m <= last && Matches(spec, m) && forall u :: t <= u < m ==> !Matches(spec, u)
            case None => forall u :: t <= u <= last ==> !Matches(spec, u)
    decreases last - t
  {
    hide Matches;
    if t > last || Matches(spec, t) {
    } else {
      FirstMatchIsLeast(spec, t + 1, last);
    }
  }

  lemma {:induction false} FirstMatchFrom(spec: Spec, t: int, m: int, last: int)
    requires t <= m
    requires forall u :: t <= u < m ==> !Matches(spec, u)
    ensures m <= last && Matches(spec, m) ==> FirstMatch(spec, t, last) == Some(m)
    ensures m > last ==> FirstMatch(spec, t, last) == None
    decreases m - t
  {
    hide Matches;
    if t == m || t > last {
    } else {
      FirstMatchFrom(spec, t + 1, m, last);
    }
  }

  // The search, in terms of the fields of an expression.

  /** The last whole minute up to a time in milliseconds, and back. */
  function MinuteOf(ms: int): int {
    ms / MS_PER_MINUTE
  }

  function MsOf(minute: int): int {
    minute * MS_PER_MINUTE
  }

  lemma MinuteUpTo(m: int, ms: int)
    ensures MsOf(m) <= ms <==> m <= MinuteOf(ms)
  {
    var q, r := ms / MS_PER_MINUTE, ms % MS_PER_MINUTE;
    assert ms == MS_PER_MINUTE * q + r;
  }

  lemma MinuteBack(m: int)
    ensures MinuteOf(MsOf(m)) == m
  {
    DivModUnique(MsOf(m), MS_PER_MINUTE, m, 0);
  }

  /** getNextCronRun as a function of the expression and a time in milliseconds. */
  function NextRun(expr: string, fromMs: int): Option<int> {
    if !ValidateCron(expr).Valid? then None
    else match FirstMatch(SpecOf(expr), MinuteOf(fromMs) + 1, MinuteOf(fromMs + LOOKAHEAD_MS))
      case Some(m) => Some(MsOf(m))
      case None => None
  }

  lemma InvalidRun(expr: string, fromMs: int)
    requires !ValidateCron(expr).Valid?
    ensures NextRun(expr, fromMs) == None
  {
  }

  lemma ValidRun(expr: string, fromMs: int)
    requires ValidateCron(expr).Valid?
    ensures NextRun(expr, fromMs) ==
            match FirstMatch(SpecOf(expr), MinuteOf(fromMs) + 1, MinuteOf(fromMs + LOOKAHEAD_MS))
            case Some(m) => Some(MsOf(m))
            case None => None
  {
  }

  lemma SpecMeans(expr: string)
    requires ValidateCron(expr).Valid?
    ensures var f, spec := Words(expr), SpecOf(expr);
            var dows := FieldCandidates(Split(f[4], ','), FIELD_RULES[4]);
            && spec.minutes == FieldCandidates(Split(f[0], ','), FIELD_RULES[0])
            && spec.hours == FieldCandidates(Split(f[1], ','), FIELD_RULES[1])
            && spec.doms == FieldCandidates(Split(f[2], ','), FIELD_RULES[2])
            && spec.months == FieldCandidates(Split(f[3], ','), FIELD_RULES[3])
            && spec.dows == (set d | d in dows :: if d == 7 then 0 else d)
            && (spec.anyDom <==> f[2] == "*") && (spec.anyDow <==> f[4] == "*")
  {
  }

  /** The numbers read out of field `i` of a valid expression. */
  function Candidates(expr: string, i: nat): set<int>
    requires ValidateCron(expr).Valid? && i < 5
  {
    FieldCandidates(Split(Words(expr)[i], ','), FIELD_RULES[i])
  }

  /** The weekday field names Sunday 0 or 7. */
  predicate WeekDayFits(expr: string, t: int)
    requires ValidateCron(expr).Valid?
  {
    var weekDay := WeekDay(Day(t));
    weekDay in Candidates(expr, 4) || (weekDay == 0 && 7 in Candidates(expr, 4))
  }

  /**
   The expression admits the minute: minute, hour and month are among the candidates, and the day fits. A day
   field that is a lone star restricts nothing; if both day fields are restricted, it is enough that one fits.
   */
  predicate Admits(expr: string, t: int)
    requires ValidateCron(expr).Valid?
  {
    var dateStar, weekDayStar := Words(expr)[2] == "*", Words(expr)[4] == "*";
    && Minute(t) in Candidates(expr, 0) && Hour(t) in Candidates(expr, 1) && Month(t) + 1 in Candidates(expr, 3)
    && (dateStar && !weekDayStar ==> WeekDayFits(expr, t))
    && (weekDayStar && !dateStar ==> Date(t) in Candidates(expr, 2))
    && (!dateStar && !weekDayStar ==> Date(t) in Candidates(expr, 2) || WeekDayFits(expr, t))
  }

  lemma AdmitsMatches(expr: string, t: int)
    requires ValidateCron(expr).Valid?
    ensures Matches(SpecOf(expr), t) <==> Admits(expr, t)
  {
    hide FieldCandidates, Split, Words, ValidateCron, Day, Date, Month, Hour, Minute;
    var dows, weekDay := Candidates(expr, 4), WeekDay(Day(t));
    assert weekDay in SpecOf(expr).dows <==> WeekDayFits(expr, t) by {
      if weekDay in dows {
        assert weekDay != 7;
      }
    }
  }

  /**
   The next run is the least whole minute after the given time, and no more than 366 days after it, that the
   expression admits; there is none exactly when it admits no such minute.
   */
  lemma NextRunIsLeast(expr: string, fromMs: int)
    requires ValidateCron(expr).Valid?
    ensures match NextRun(expr, fromMs)
            case Some(next) =>
              && next == MsOf(MinuteOf(next)) && fromMs < next <= fromMs + LOOKAHEAD_MS
              && Admits(expr, MinuteOf(next))
              && forall m: int :: fromMs < MsOf(m) < next ==> !Admits(expr, m)
            case None =>
              forall m: int :: fromMs < MsOf(m) <= fromMs + LOOKAHEAD_MS ==> !Admits(expr, m)
  {
    hide FirstMatch, SpecOf, Matches, Admits, ValidateCron, MinuteOf, MsOf;
    var first, last := MinuteOf(fromMs) + 1, MinuteOf(fromMs + LOOKAHEAD_MS);
    FirstMatchIsLeast(SpecOf(expr), first, last);
    forall m: int
      ensures Matches(SpecOf(expr), m) <==> Admits(expr, m)
      ensures fromMs < MsOf(m) <==> first <= m
      ensures MsOf(m) <= fromMs + LOOKAHEAD_MS <==> m <= last
    {
      AdmitsMatches(expr, m);
      MinuteUpTo(m, fromMs);
      MinuteUpTo(m, fromMs + LOOKAHEAD_MS);
    }
    match FirstMatch(SpecOf(expr), first, last)
    case Some(next) =>
      forall m: int | MsOf(m) < MsOf(next) ensures m < next {
        MinuteUpTo(next, MsOf(m));
        MinuteBack(m);
      }
      MinuteBack(next);
    case None =>
  }

  /** The earlier of two results. */
  function Earlier(a: Option<int>, b: Option<int>): Option<int> {
    if a.None? then b
    else if b.None? then a
    else if a.value <= b.value then a else b
  }

  lemma StarAccepts(rule: Rule)
    ensures ValidateField("*", rule)
  {
    assert Split("*", ',') == ["*"];
    StarAccepted(rule);
    hide ValidateSubPart;
  }

  lemma EitherAdmits(expr: string, byDate: string, byWeekDay: string, t: int)
    requires ValidateCron(expr).Valid? && Words(expr)[2] != "*" && Words(expr)[4] != "*"
    requires ValidateCron(byDate).Valid? && ValidateCron(byWeekDay).Valid?
    requires Words(byDate) == Words(expr)[4 := "*"] && Words(byWeekDay) == Words(expr)[2 := "*"]
    ensures Admits(expr, t) <==> Admits(byDate, t) || Admits(byWeekDay, t)
  {
    hide ValidateCron, Words, FieldCandidates, Split, Day, Date, Month, Hour, Minute;
  }

  lemma RunAdmitted(expr: string, fromMs: int)
    requires ValidateCron(expr).Valid? && NextRun(expr, fromMs).Some?
    ensures var next := NextRun(expr, fromMs).value;
            next == MsOf(MinuteOf(next)) && fromMs < next <= fromMs + LOOKAHEAD_MS && Admits(expr, MinuteOf(next))
  {
    hide NextRun, Admits, ValidateCron, MinuteOf, MsOf;
    NextRunIsLeast(expr, fromMs);
  }

  /** An admitted minute of the window is not before the next run. */
  lemma NotBefore(expr: string, at: int, next: Option<int>, fromMs: int)
    requires ValidateCron(expr).Valid? && next == NextRun(expr, fromMs)
    requires at == MsOf(MinuteOf(at)) && fromMs < at <= fromMs + LOOKAHEAD_MS
    ensures Admits(expr, MinuteOf(at)) ==> next.Some? && next.value <= at
  {
    hide NextRun, Admits, ValidateCron, MinuteOf, MsOf;
    NextRunIsLeast(expr, fromMs);
  }

  /** Of minutes that are multiples in the same window, the least admitted by either is the earlier of the two. */
  lemma LeastOfEither(expr: string, byDate: string, byWeekDay: string, fromMs: int)
    requires ValidateCron(expr).Valid? && ValidateCron(byDate).Valid? && ValidateCron(byWeekDay).Valid?
    requires forall m: int :: Admits(expr, m) <==> Admits(byDate, m) || Admits(byWeekDay, m)
    ensures NextRun(expr, fromMs) == Earlier(NextRun(byDate, fromMs), NextRun(byWeekDay, fromMs))
  {
    hide NextRun, Admits, ValidateCron, MinuteOf, MsOf;
    var x, a, b := NextRun(expr, fromMs), NextRun(byDate, fromMs), NextRun(byWeekDay, fromMs);
    if x.Some? {
      RunAdmitted(expr, fromMs);
      NotBefore(byDate, x.value, a, fromMs);
      NotBefore(byWeekDay, x.value, b, fromMs);
    }
    if a.Some? {
      RunAdmitted(byDate, fromMs);
      NotBefore(expr, a.value, x, fromMs);
    }
    if b.Some? {
      RunAdmitted(byWeekDay, fromMs);
      NotBefore(expr, b.value, x, fromMs);
    }
  }

  /**
   When both day fields are restricted, the next run is the earlier of the next runs of the two expressions that
   have a star for one of them.
   */
  lemma EarlierOfTwo(expr: string, byDate: string, byWeekDay: string, fromMs: int)
    requires ValidateCron(expr).Valid? && Words(expr)[2] != "*" && Words(expr)[4] != "*"
    requires Words(byDate) == Words(expr)[4 := "*"] && Words(byWeekDay) == Words(expr)[2 := "*"]
    ensures ValidateCron(byDate).Valid? && ValidateCron(byWeekDay).Valid?
    ensures NextRun(expr, fromMs) == Earlier(NextRun(byDate, fromMs), NextRun(byWeekDay, fromMs))
  {
    hide ValidateField, Words, FieldCandidates, Split;
    StarAccepts(FIELD_RULES[4]);
    StarAccepts(FIELD_RULES[2]);
    forall i | 0 <= i < 5
      ensures ValidateField(Words(byDate)[i], FIELD_RULES[i]) && ValidateField(Words(byWeekDay)[i], FIELD_RULES[i])
    {
    }
    forall m: int ensures Admits(expr, m) <==> Admits(byDate, m) || Admits(byWeekDay, m) {
      EitherAdmits(expr, byDate, byWeekDay, m);
    }
    hide NextRun, Admits, ValidateCron, MinuteOf, MsOf;
    LeastOfEither(expr, byDate, byWeekDay, fromMs);
  }

  lemma StarsValid(expr: string)
    requires Words(expr) == ["*", "*", "*", "*", "*"]
    ensures ValidateCron(expr).Valid?
  {
    hide Words, ValidateField;
    forall i | 0 <= i < 5 ensures ValidateField("*", FIELD_RULES[i]) {
      StarAccepts(FIELD_RULES[i]);
    }
  }

  lemma MsStep(m: int)
    ensures MsOf(m + 1) == MsOf(m) + MS_PER_MINUTE
  {
  }

  lemma NextMinuteAdmitted(expr: string, fromMs: int)
    requires ValidateCron(expr).Valid? && Admits(expr, MinuteOf(fromMs) + 1)
    ensures NextRun(expr, fromMs) == Some(MsOf(MinuteOf(fromMs) + 1))
  {
    hide Words, ValidateCron, Admits, NextRun, MinuteOf, MsOf;
    var t := MinuteOf(fromMs) + 1;
    MinuteBack(t);
    MinuteUpTo(t, fromMs);
    MinuteUpTo(t - 1, fromMs);
    MsStep(t - 1);
    NotBefore(expr, MsOf(t), NextRun(expr, fromMs), fromMs);
    RunAdmitted(expr, fromMs);
    var next := NextRun(expr, fromMs).value;
    MinuteUpTo(MinuteOf(next), fromMs);
    MinuteUpTo(t, next);
  }

  lemma StarCandidates(rule: Rule)
    ensures ValidateSubPart("*", rule) && FieldCandidates(["*"], rule) == Interval(rule.min, rule.max)
  {
    StarAccepted(rule);
    assert ["*"][1..] == [];
    hide ValidateSubPart;
  }

  lemma StarsAdmit(expr: string, t: int)
    requires ValidateCron(expr).Valid? && Words(expr) == ["*", "*", "*", "*", "*"]
    ensures Admits(expr, t)
  {
    hide Words, ValidateCron, Day, Date, Month, Hour, Minute;
    assert Split("*", ',') == ["*"];
    forall i | 0 <= i < 5 ensures Candidates(expr, i) == Interval(FIELD_RULES[i].min, FIELD_RULES[i].max) {
      StarCandidates(FIELD_RULES[i]);
    }
  }

  /** Five stars admit every minute: the next run is the next whole minute. */
  lemma EveryMinute(expr: string, fromMs: int)
    requires Words(expr) == ["*", "*", "*", "*", "*"]
    ensures NextRun(expr, fromMs) == Some(MsOf(MinuteOf(fromMs) + 1))
  {
    StarsValid(expr);
    hide Words, ValidateCron, Admits, NextRun, MinuteOf, MsOf;
    StarsAdmit(expr, MinuteOf(fromMs) + 1);
    NextMinuteAdmitted(expr, fromMs);
  }

  // Each kind of jump passes over minutes that do not match.

  lemma MonthJump(spec: Spec, t: int)
    requires Month(t) + 1 !in spec.months
    ensures var next := SetHours(SetMonth(t, Month(t) + 1, 1), 0, 0);
            t < next && forall u :: t <= u < next ==> !Matches(spec, u)
  {
    NextMonth(t);
    hide DayMatches, SetMonth, SetHours, Month;
  }

  lemma SameDate(spec: Spec, t: int)
    ensures forall u :: t <= u < (Day(t) + 1) * MINUTES_PER_DAY ==>
              && (DateMatches(spec, u) <==> DateMatches(spec, t))
              && (DayMatches(spec, u) <==> DayMatches(spec, t))
  {
    SameDay(t);
    hide YearOfDay, MonthOfDay, DateOfDay, WeekDay, Day;
  }

  lemma DayJump(spec: Spec, t: int)
    requires !DayMatches(spec, t)
    ensures var next := SetHours(SetDate(t, Date(t) + 1), 0, 0);
            t < next && forall u :: t <= u < next ==> !Matches(spec, u)
  {
    NextDay(t);
    SameDate(spec, t);
  }

  lemma HourJump(spec: Spec, t: int)
    requires Hour(t) !in spec.hours
    ensures var next := SetHours(t, Hour(t) + 1, 0);
            t < next && forall u :: t <= u < next ==> !Matches(spec, u)
  {
    hide DateMatches, SetHours, Hour, Minute;
    NextHour(t);
  }

  // How many rounds the search takes.

  datatype Jumps = Jumps(months: nat, days: nat, hours: nat, minutes: nat) {
    function Total(): nat {
      months + days + hours + minutes
    }
  }

  /** Some candidate hour and some candidate minute occur on a clock. */
  ghost predicate Reachable(spec: Spec) {
    && (exists h :: h in spec.hours && Between(0, h, 23))
    && (exists m :: m in spec.minutes && Between(0, m, 59))
  }

  /** For a valid expression, that is so as soon as there are candidates at all. */
  lemma CandidatesReachable(expr: string)
    requires ValidateCron(expr).Valid?
    ensures SpecOf(expr).hours != {} && SpecOf(expr).minutes != {} <==> Reachable(SpecOf(expr))
  {
    hide ValidateField, FieldCandidates, Split, Words;
    FieldReachesBounds(Words(expr)[0], FIELD_RULES[0]);
    FieldReachesBounds(Words(expr)[1], FIELD_RULES[1]);
  }

  ghost predicate NoneBelow(candidates: set<int>, x: int) {
    forall y :: y in candidates && 0 <= y ==> x <= y
  }

  /**
   Where the search can stand after the given jumps from `first`. Off the first day it only walks
   through hours of a matching day, upwards from midnight and never past a candidate hour; off the
   first hour, likewise for the minutes of a matching hour.
   */
  ghost predicate Walked(spec: Spec, first: int, t: int, j: Jumps) {
    && first <= t
    && j.months <= MonthIndex(t) - MonthIndex(first)
    && j.months + j.days <= Day(t) - Day(first)
    && (if Day(t) == Day(first) then j.hours <= Hour(t) - Hour(first)
        else j.hours <= 24 + Hour(t) && NoneBelow(spec.hours, Hour(t)) && (Hour(t) > 0 ==> DateMatches(spec, t)))
    && (if t / 60 == first / 60 then j.minutes <= t - first
        else && j.minutes <= 60 + Minute(t)
             && NoneBelow(spec.minutes, Minute(t))
             && (Minute(t) > 0 ==> DateMatches(spec, t) && Hour(t) in spec.hours))
  }

  ghost predicate WithinLimits(first: int, last: int, j: Jumps) {
    && j.months <= MonthIndex(last) - MonthIndex(first) + 1
    && j.months + j.days <= Day(last) - Day(first) + 1
    && j.hours <= 48
    && j.minutes <= 120
  }

  lemma WalkedWithin(spec: Spec, first: int, t: int, last: int, j: Jumps)
    requires Walked(spec, first, t, j) && t <= last
    ensures WithinLimits(first, last, j.(months := j.months + 1))
    ensures WithinLimits(first, last, j.(days := j.days + 1))
    ensures WithinLimits(first, last, j.(hours := j.hours + 1))
    ensures WithinLimits(first, last, j.(minutes := j.minutes + 1))
  {
    hide DateMatches, MonthIndex, NoneBelow;
    MonthIndexMonotone(t, last);
  }

  /** After a month jump or a day jump the search stands at the start of a later day. */
  lemma WalkedToMidnight(spec: Spec, first: int, t: int, next: int, j: Jumps)
    requires Walked(spec, first, t, j) && !DateMatches(spec, t)
    requires Day(t) < Day(next) && next % MINUTES_PER_DAY == 0
    ensures MonthIndex(t) <= MonthIndex(next)
    ensures Walked(spec, first, next, j.(days := j.days + 1))
    ensures MonthIndex(t) < MonthIndex(next) ==> Walked(spec, first, next, j.(months := j.months + 1))
  {
    hide DateMatches, MonthIndex;
    assert t < next;
    MonthIndexMonotone(t, next);
    Clock(next);
    Clock(first);
    ClockUnique(next, Day(next), 0, 0);
    hide Day, Hour, Minute;
  }

  lemma WalkedHour(spec: Spec, first: int, t: int, j: Jumps)
    requires Walked(spec, first, t, j) && Reachable(spec)
    requires DateMatches(spec, t) && Hour(t) !in spec.hours
    ensures Walked(spec, first, SetHours(t, Hour(t) + 1, 0), j.(hours := j.hours + 1))
  {
    hide DateMatches, MonthIndex, Day, Hour, Minute, SetHours;
    var next := SetHours(t, Hour(t) + 1, 0);
    NextHour(t);
    MonthIndexMonotone(t, next);
    HourStep(t);
    HourStep(first);
    assert Day(next) == Day(t) ==> DateMatches(spec, next) by {
      SameDay(next);
      SameDate(spec, t);
    }
  }

  lemma WalkedMinute(spec: Spec, first: int, t: int, j: Jumps)
    requires Walked(spec, first, t, j) && Reachable(spec)
    requires DateMatches(spec, t) && Hour(t) in spec.hours && Minute(t) !in spec.minutes
    ensures Walked(spec, first, t + 1, j.(minutes := j.minutes + 1))
  {
    hide DateMatches, MonthIndex, Day, Hour, Minute;
    MonthIndexMonotone(t, t + 1);
    MinuteStep(t);
    MinuteStep(first);
    if first / 60 == t / 60 {
      SameHour(first, t);
    }
    assert Day(t + 1) == Day(t) ==> DateMatches(spec, t + 1) by {
      SameDay(t + 1);
      SameDate(spec, t);
    }
  }

  // One round of the loop.

  /** What holds whenever the loop's guard is tested. */
  ghost predicate Searching(spec: Spec, first: int, t: int, last: int, j: Jumps) {
    && first <= t
    && (forall u :: first <= u < t ==> !Matches(spec, u))
    && (Reachable(spec) ==> Walked(spec, first, t, j) && WithinLimits(first, last, j))
  }

  lemma MonthRound(spec: Spec, first: int, t: int, last: int, j: Jumps)
    requires Searching(spec, first, t, last, j) && t <= last
    requires Month(t) + 1 !in spec.months
    ensures var next := SetHours(SetMonth(t, Month(t) + 1, 1), 0, 0);
            t < next && Searching(spec, first, next, last, j.(months := j.months + 1))
  {
    hide Matches, Walked, WithinLimits, SetMonth, SetHours, Month, Reachable, MonthIndex;
    var next := SetHours(SetMonth(t, Month(t) + 1, 1), 0, 0);
    MonthJump(spec, t);
    NextMonth(t);
    if Reachable(spec) {
      WalkedWithin(spec, first, t, last, j);
      WalkedToMidnight(spec, first, t, next, j);
    }
  }

  lemma DayRound(spec: Spec, first: int, t: int, last: int, j: Jumps)
    requires Searching(spec, first, t, last, j) && t <= last
    requires !DayMatches(spec, t)
    ensures var next := SetHours(SetDate(t, Date(t) + 1), 0, 0);
            t < next && Searching(spec, first, next, last, j.(days := j.days + 1))
  {
    hide Matches, Walked, WithinLimits, SetDate, SetHours, DayMatches, Date, Reachable;
    var next := SetHours(SetDate(t, Date(t) + 1), 0, 0);
    DayJump(spec, t);
    NextDay(t);
    if Reachable(spec) {
      WalkedWithin(spec, first, t, last, j);
      WalkedToMidnight(spec, first, t, next, j);
    }
  }

  lemma HourRound(spec: Spec, first: int, t: int, last: int, j: Jumps)
    requires Searching(spec, first, t, last, j) && t <= last
    requires DateMatches(spec, t) && Hour(t) !in spec.hours
    ensures var next := SetHours(t, Hour(t) + 1, 0);
            t < next && Searching(spec, first, next, last, j.(hours := j.hours + 1))
  {
    hide Matches, Walked, WithinLimits, SetHours, DateMatches, Hour, Reachable;
    HourJump(spec, t);
    if Reachable(spec) {
      WalkedWithin(spec, first, t, last, j);
      WalkedHour(spec, first, t, j);
    }
  }

  lemma MinuteRound(spec: Spec, first: int, t: int, last: int, j: Jumps)
    requires Searching(spec, first, t, last, j) && t <= last
    requires DateMatches(spec, t) && Hour(t) in spec.hours && Minute(t) !in spec.minutes
    ensures var next := SetMinutes(t, Minute(t) + 1);
            t < next && Searching(spec, first, next, last, j.(minutes := j.minutes + 1))
  {
    MinuteStep(t);
    hide Walked, WithinLimits, DateMatches, Reachable, SetMinutes, Hour, Minute;
    if Reachable(spec) {
      WalkedWithin(spec, first, t, last, j);
      WalkedMinute(spec, first, t, j);
    }
  }

  lemma Start(spec: Spec, fromMs: int)
    ensures var first, last := MinuteOf(fromMs) + 1, MinuteOf(fromMs + LOOKAHEAD_MS);
            && SetMinutes(first - 1, Minute(first - 1) + 1) == first <= last
            && Searching(spec, first, first, last, Jumps(0, 0, 0, 0))
            && Day(last) - Day(first) <= 366
  {
    hide MonthIndex, Matches, DateMatches;
    var first, last := fromMs / MS_PER_MINUTE + 1, (fromMs + LOOKAHEAD_MS) / MS_PER_MINUTE;
    MonthIndexMonotone(first, last);
    assert last == first - 1 + 366 * MINUTES_PER_DAY;
    DivModUnique(last, MINUTES_PER_DAY, Day(first - 1) + 366, (first - 1) % MINUTES_PER_DAY);
    MinuteStep(first - 1);
  }

  /** Where the loop stops is where the reference search stops. */
  lemma Stopped(spec: Spec, first: int, t: int, last: int, j: Jumps)
    requires Searching(spec, first, t, last, j) && (t > last || Matches(spec, t))
    requires Day(last) - Day(first) <= 366
    ensures FirstMatch(spec, first, last) == if t <= last then Some(t) else None
    ensures Reachable(spec) ==> WithinLimits(first, last, j) && j.Total() <= 535
  {
    hide Matches, MonthIndex, Reachable, Walked;
    FirstMatchFrom(spec, first, t, last);
  }

  /**
   getNextCronRun. The result is a time in milliseconds: the one the minute-by-minute scan finds, so that
   NextRunIsLeast, EarlierOfTwo and EveryMinute speak about it.
   The ghost result counts the rounds of the loop: when there are candidate hours and minutes, there
   are at most 535, for a window of 527040 minutes.
   */
  method GetNextCronRun(expr: string, fromMs: int) returns (next: Option<int>, ghost jumps: Jumps)
    ensures next == NextRun(expr, fromMs)
    ensures ValidateCron(expr).Valid? ==>
              var first, last := MinuteOf(fromMs) + 1, MinuteOf(fromMs + LOOKAHEAD_MS);
              SpecOf(expr).hours != {} && SpecOf(expr).minutes != {} ==>
                WithinLimits(first, last, jumps) && jumps.Total() <= 535
  {
    hide FieldCandidates, Split, NatOf, ValidateField, ValidateCron, Words, FirstMatch;
    hide NextRun, Searching, Reachable, SetMonth, SetDate, SetHours, SetMinutes;
    hide Month, Date, Day, WeekDay, Hour, Minute;
    jumps := Jumps(0, 0, 0, 0);
    if !ValidateCron(expr).Valid? {
      InvalidRun(expr, fromMs);
      return None, jumps;
    }
    var fields := Words(expr);
    var domStr, dowStr := fields[2], fields[4];
    var validMinutes := ParseFieldCandidates(fields[0], FIELD_RULES[0]);
    var validHours := ParseFieldCandidates(fields[1], FIELD_RULES[1]);
    var validDoms := ParseFieldCandidates(domStr, FIELD_RULES[2]);
    var validMonths := ParseFieldCandidates(fields[3], FIELD_RULES[3]);
    var validDows := ParseFieldCandidates(dowStr, FIELD_RULES[4]);
    var normalizedDows := set d | d in validDows :: if d == 7 then 0 else d;
    ghost var spec := SpecOf(expr);
    CandidatesReachable(expr);
    SpecMeans(expr);
    hide SpecOf;
    assert normalizedDows == spec.dows;

    var cursor := fromMs / MS_PER_MINUTE;
    cursor := SetMinutes(cursor, Minute(cursor) + 1);
    var endMs := fromMs + LOOKAHEAD_MS;
    ghost var first, last := cursor, endMs / MS_PER_MINUTE;
    Start(spec, fromMs);
    while cursor * MS_PER_MINUTE <= endMs
      invariant Searching(spec, first, cursor, last, jumps)
      decreases last - cursor
    {
      assert cursor <= last;
      var month := Month(cursor) + 1;
      if month !in validMonths {
        MonthRound(spec, first, cursor, last, jumps);
        cursor := SetMonth(cursor, Month(cursor) + 1, 1);
        cursor := SetHours(cursor, 0, 0);
        jumps := jumps.(months := jumps.months + 1);
        continue;
      }
      var dom := Date(cursor);
      var dow := WeekDay(Day(cursor));
      var domMatches := domStr == "*" || dom in validDoms;
      var dowMatches := dowStr == "*" || dow in normalizedDows;
      var dayMatches :=
        if domStr == "*" && dowStr == "*" then true
        else if domStr == "*" then dowMatches
        else if dowStr == "*" then domMatches
        else domMatches || dowMatches;
      assert dayMatches == DayMatches(spec, cursor);
      if !dayMatches {
        DayRound(spec, first, cursor, last, jumps);
        cursor := SetDate(cursor, Date(cursor) + 1);
        cursor := SetHours(cursor, 0, 0);
        jumps := jumps.(days := jumps.days + 1);
        continue;
      }
      var hour := Hour(cursor);
      if hour !in validHours {
        HourRound(spec, first, cursor, last, jumps);
        cursor := SetHours(cursor, Hour(cursor) + 1, 0);
        jumps := jumps.(hours := jumps.hours + 1);
        continue;
      }
      var minute := Minute(cursor);
      if minute !in validMinutes {
        MinuteRound(spec, first, cursor, last, jumps);
        cursor := SetMinutes(cursor, Minute(cursor) + 1);
        jumps := jumps.(minutes := jumps.minutes + 1);
        continue;
      }
      Stopped(spec, first, cursor, last, jumps);
      ValidRun(expr, fromMs);
      return Some(cursor * MS_PER_MINUTE), jumps;
    }
    Stopped(spec, first, cursor, last, jumps);
    ValidRun(expr, fromMs);
    return None, jumps;
  }

  /**
   The validator accepts minutes such as 5/15, but the candidate parser reads nothing out of them: for a
   valid expression whose minute field consists of stepped numbers, no window has a next run.
   */
  lemma AcceptedWithoutNextRun(fields: seq<seq<Part>>, t: int, last: int)
    requires IsExpression(fields)
    requires forall i :: 0 <= i < 5 ==> forall p :: p in fields[i] ==> p.InBounds(FIELD_RULES[i])
    requires forall p :: p in fields[0] ==> p.SteppedNumber?
    ensures var expr := ExpressionText(fields);
            ValidateCron(expr).Valid? && FirstMatch(SpecOf(expr), t, last) == None
  {
    hide Words, ValidateField, FirstMatch, FieldCandidates, Split, Part.InBounds;
    var expr := ExpressionText(fields);
    ExpressionAccepted(fields);
    NothingRead(fields[0], FIELD_RULES[0]);
    assert SpecOf(expr).minutes == {};
    FirstMatchIsLeast(SpecOf(expr), t, last);
  }

  /** One such expression. */
  lemma FiveByFifteen(t: int, last: int)
    ensures var expr := "5/15 * * * *";
            ValidateCron(expr).Valid? && FirstMatch(SpecOf(expr), t, last) == None
  {
    var minutes, star := [Part.SteppedNumber("5", "15")], [Part.Star];
    var fields := [minutes, star, star, star, star];
    assert minutes[0].Text() == "5/15";
    assert Texts(minutes) == ["5/15"];
    assert star[0].Text() == "*";
    assert Texts(star) == ["*"];
    assert FieldTexts(fields) == ["5/15", "*", "*", "*", "*"];
    assert ExpressionText(fields) == "5/15 * * * *" by {
      var j4 := Join(["*", "*", "*", "*"], " ");
      assert ["5/15", "*", "*", "*", "*"][1..] == ["*", "*", "*", "*"];
      assert j4 == "* * * *";
    }
    assert NatOf("5") == 5 && NatOf("15") == 15 by {
      assert "15"[..1] == "1";
    }
    AcceptedWithoutNextRun(fields, t, last);
  }
}
