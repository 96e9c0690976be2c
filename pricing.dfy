/**
  Tariff selection and fare calculation: which catalog rule applies at a
  given moment, and what a ride of a given distance and duration costs
  under it.
 */
module Pricing {
  import opened Wrappers
  import opened Tariffs

  // ---------------------------------------------------------------------
  // Time of day

  type DayOfWeek = d: int | 0 <= d < 7
  type HourOfDay = h: int | 0 <= h < 24
  type MinuteOfHour = m: int | 0 <= m < 60

  /**
    A moment of a ride as the host's Date reports it in local time:
    `day` as getDay() (0 is Sunday, 6 is Saturday), `hours` and `minutes`.
   */
  datatype Timestamp = Timestamp(day: DayOfWeek, hours: HourOfDay, minutes: MinuteOfHour)

  /** Minutes since midnight. */
  function MinuteOfDay(t: Timestamp): (m: nat)
    ensures m < 1440
  {
    t.hours * 60 + t.minutes
  }

  predicate AllDigits(s: string) {
    forall i | 0 <= i < |s| :: IsDigit(s[i])
  }

  /** The number a string of decimal digits denotes, read left to right. */
  function DecimalValue(s: string): (n: nat)
    requires AllDigits(s)
    decreases |s|
  {
    if s == [] then 0 else 10 * DecimalValue(s[..|s| - 1]) + Digit(s[|s| - 1])
  }

  /**
    Minutes since midnight of an "HH:MM" string: the string is split at the
    colon and both halves are read as decimal numbers.
   */
  function ParseTime(timeStr: string): (r: nat)
    requires IsClock(timeStr)
    ensures r == 60 * ClockHours(timeStr) + ClockMinutes(timeStr)
    ensures ValidClock(timeStr) ==> r < 1440
  {
    var hours, minutes := timeStr[..2], timeStr[3..];
    TwoDigitValue(hours);
    TwoDigitValue(minutes);
    60 * DecimalValue(hours) + DecimalValue(minutes)
  }

  lemma TwoDigitValue(s: string)
    requires |s| == 2 && AllDigits(s)
    ensures DecimalValue(s) == 10 * Digit(s[0]) + Digit(s[1])
  {
    var head := s[..1];
    assert head[..0] == [] && head[0] == s[0] && s[..|s| - 1] == head;
    assert DecimalValue(head) == Digit(s[0]);
  }

  function DigitChar(d: nat): (c: char)
    requires d < 10
    ensures IsDigit(c) && Digit(c) == d
  {
    ('0' as int + d) as char
  }

  /** The zero-padded "HH:MM" spelling of a minute of the day. */
  function FormatTime(m: nat): (s: string)
    requires m < 1440
    ensures ValidClock(s)
  {
    var h, mm := m / 60, m % 60;
    [DigitChar(h / 10), DigitChar(h % 10), ':', DigitChar(mm / 10), DigitChar(mm % 10)]
  }

  /** Reading back the spelling of a minute gives that minute. */
  lemma ParseFormat(m: nat)
    requires m < 1440
    ensures ParseTime(FormatTime(m)) == m
  {
    var s := FormatTime(m);
    assert ClockHours(s) == m / 60;
    assert ClockMinutes(s) == m % 60;
  }

  /** Every valid clock string is the spelling of the minute it denotes. */
  lemma FormatParse(s: string)
    requires ValidClock(s)
    ensures FormatTime(ParseTime(s)) == s
  {
    var m := ParseTime(s);
    var h, mm := ClockHours(s), ClockMinutes(s);
    assert m / 60 == h && m % 60 == mm;
    assert h / 10 == Digit(s[0]) && h % 10 == Digit(s[1]);
    assert mm / 10 == Digit(s[3]) && mm % 10 == Digit(s[4]);
    var t := FormatTime(m);
    forall i | 0 <= i < 5
      ensures t[i] == s[i]
    {
      DigitRoundTrip(s[i]);
    }
  }

  lemma DigitRoundTrip(c: char)
    ensures IsDigit(c) ==> DigitChar(Digit(c)) == c
  {
  }

  /** Two valid clock strings denoting the same minute are the same string. */
  lemma ParseTimeInjective(a: string, b: string)
    requires ValidClock(a) && ValidClock(b)
    ensures ParseTime(a) == ParseTime(b) <==> a == b
  {
    if ParseTime(a) == ParseTime(b) {
      FormatParse(a);
      FormatParse(b);
    }
  }

  // ---------------------------------------------------------------------
  // Time windows

  /**
    Whether `minutes` lies in the window from `from` to `to`: lower bound
    included, upper bound excluded; a window whose start is not before its
    end runs past midnight.
   */
  function IsInRange(minutes: int, from: string, to: string): (r: bool)
    requires IsClock(from) && IsClock(to)
    // the start of a window is always inside it
    ensures minutes == ParseTime(from) ==> r
    // the end is outside it, unless start and end coincide
    ensures minutes == ParseTime(to) && ParseTime(from) != ParseTime(to) ==> !r
    // a window whose start equals its end holds every minute
    ensures ParseTime(from) == ParseTime(to) ==> r
  {
    var fromMinutes := ParseTime(from);
    var toMinutes := ParseTime(to);
    if fromMinutes < toMinutes then
      minutes >= fromMinutes && minutes < toMinutes
    else
      minutes >= fromMinutes || minutes < toMinutes
  }

  /** A same-day window is exactly the half-open interval [from, to). */
  lemma InRangeSameDay(minutes: int, from: string, to: string)
    requires IsClock(from) && IsClock(to) && ParseTime(from) < ParseTime(to)
    ensures IsInRange(minutes, from, to) <==> ParseTime(from) <= minutes < ParseTime(to)
  {
  }

  /** A window that does not start before it ends wraps past midnight. */
  lemma InRangeWrapping(minutes: int, from: string, to: string)
    requires IsClock(from) && IsClock(to) && ParseTime(from) >= ParseTime(to)
    ensures IsInRange(minutes, from, to) <==> minutes >= ParseTime(from) || minutes < ParseTime(to)
    ensures from == to ==> IsInRange(minutes, from, to)
  {
  }

  /**
    Independent reading of a window on the 24-hour clock: a minute is in it
    when its distance after `from`, counted forward around the clock, is
    less than the window's length; a window of length zero is the whole day.
   */
  lemma InRangeCircular(minutes: int, from: string, to: string)
    requires 0 <= minutes < 1440 && ValidClock(from) && ValidClock(to)
    ensures var f, t := ParseTime(from), ParseTime(to);
      IsInRange(minutes, from, to) <==> f == t || (minutes - f) % 1440 < (t - f) % 1440
  {
    var f: int, t: int := ParseTime(from), ParseTime(to);
    if minutes >= f {
      assert (minutes - f) % 1440 == minutes - f;
    } else {
      assert (minutes - f) % 1440 == minutes - f + 1440;
    }
    if f <= t {
      assert (t - f) % 1440 == t - f;
    } else {
      assert (t - f) % 1440 == t - f + 1440;
    }
  }

  /**
    Swapping the ends of a window with distinct ends gives its complement:
    every minute of the day lies in exactly one of the two.
   */
  lemma InRangeComplement(minutes: int, from: string, to: string)
    requires IsClock(from) && IsClock(to) && ParseTime(from) != ParseTime(to)
    ensures IsInRange(minutes, from, to) <==> !IsInRange(minutes, to, from)
  {
  }

  // ---------------------------------------------------------------------
  // Day of week

  /** Friday (5) and Saturday (6) are the weekend. */
  function IsWeekend(date: Timestamp): (r: bool)
    ensures r <==> 5 <= date.day
    ensures r ==> date.day != 0
  {
    date.day == 5 || date.day == 6
  }

  /** Monday to Thursday (1 to 4), at a time inside the window. */
  function IsWeekdayDay(date: Timestamp, from: string, to: string): (r: bool)
    requires IsClock(from) && IsClock(to)
    ensures r ==> !IsWeekend(date) && date.day != 0
    ensures r <==> date.day != 0 && !IsWeekend(date) && IsInRange(MinuteOfDay(date), from, to)
  {
    var isWeekday := 1 <= date.day <= 4;
    if !isWeekday then
      false
    else
      IsInRange(MinuteOfDay(date), from, to)
  }

  /**
    Sunday, Friday and Saturday are never weekday daytime; on Monday to
    Thursday only the window decides. In particular no weekend moment is
    weekday daytime.
   */
  lemma WeekdayDayByDay(date: Timestamp, from: string, to: string)
    requires IsClock(from) && IsClock(to)
    ensures date.day in {0, 5, 6} ==> !IsWeekdayDay(date, from, to)
    ensures 1 <= date.day <= 4 ==>
      (IsWeekdayDay(date, from, to) <==> IsInRange(date.hours * 60 + date.minutes, from, to))
    ensures IsWeekend(date) ==> !IsWeekdayDay(date, from, to)
  {
  }

  // ---------------------------------------------------------------------
  // Tariff selection

  /** The test of the general scan: an `all` rule, or a rule with both bounds whose window holds the time. */
  function Qualifies(t: Tariff, minutes: int): (r: bool)
    requires WellFormedRule(t)
    ensures t.ruleType == All ==> r
    ensures r ==> t.ruleType == All || (t.from.Some? && t.to.Some?)
    ensures t.from.None? || t.to.None? ==> (r <==> t.ruleType == All)
  {
    t.ruleType == All || (t.from.Some? && t.to.Some? && IsInRange(minutes, t.from.value, t.to.value))
  }

  /** Index of the first rule at or after `start` that qualifies at `minutes`. */
  function FirstMatch(rules: seq<Tariff>, minutes: int, start: nat): (k: Option<nat>)
    requires WellFormedRules(rules) && start <= |rules|
    ensures k.Some? ==>
      && start <= k.value < |rules|
      && Qualifies(rules[k.value], minutes)
      && forall j | start <= j < k.value :: !Qualifies(rules[j], minutes)
    ensures k.None? ==> forall j | start <= j < |rules| :: !Qualifies(rules[j], minutes)
    decreases |rules| - start
  {
    if start == |rules| then None
    else if Qualifies(rules[start], minutes) then Some(start)
    else FirstMatch(rules, minutes, start + 1)
  }

  /** Index of the first rule at or after `start` of type `ty`. */
  function FindType(rules: seq<Tariff>, ty: RuleType, start: nat): (k: Option<nat>)
    requires start <= |rules|
    ensures k.Some? ==>
      && start <= k.value < |rules|
      && rules[k.value].ruleType == ty
      && forall j | start <= j < k.value :: rules[j].ruleType != ty
    ensures k.None? ==> forall j | start <= j < |rules| :: rules[j].ruleType != ty
    decreases |rules| - start
  {
    if start == |rules| then None
    else if rules[start].ruleType == ty then Some(start)
    else FindType(rules, ty, start + 1)
  }

  predicate SingleAll(rules: seq<Tariff>) {
    |rules| == 1 && rules[0].ruleType == All
  }

  /** Whether the kurir branch picks its first `weekday-day` rule at `datetime`. */
  predicate KurirWeekdayApplies(rules: seq<Tariff>, datetime: Timestamp)
    requires WellFormedRules(rules)
  {
    match FindType(rules, WeekdayDay, 0)
    case Some(i) => IsWeekdayDay(datetime, rules[i].from.value, rules[i].to.value)
    case None => false
  }

  /**
    The rule chosen from the candidate list `rules` for company `companyId`
    at `datetime`, or None where the source yields null or undefined.
   */
  function SelectFrom(companyId: string, rules: seq<Tariff>, datetime: Timestamp): (r: Option<Tariff>)
    requires WellFormedRules(rules)
    ensures r.Some? ==> r.value in rules
    ensures r.None? <==>
      || rules == []
      || (&& companyId == Kurir && !SingleAll(rules) && !KurirWeekdayApplies(rules, datetime)
          && forall j | 0 <= j < |rules| :: rules[j].ruleType != NightWeekend)
  {
    if rules == [] then
      None
    else if SingleAll(rules) then
      Some(rules[0])
    else if companyId == Kurir then
      var weekdayTariff := FindType(rules, WeekdayDay, 0);
      var nightWeekendTariff := FindType(rules, NightWeekend, 0);
      if && weekdayTariff.Some?
         && IsWeekdayDay(datetime, rules[weekdayTariff.value].from.value, rules[weekdayTariff.value].to.value)
      then
        Some(rules[weekdayTariff.value])
      else if nightWeekendTariff.Some? then
        Some(rules[nightWeekendTariff.value])
      else
        None
    else
      match FirstMatch(rules, MinuteOfDay(datetime), 0)
      case Some(i) => Some(rules[i])
      case None => Some(rules[0])
  }

  /** The rule that applies to a ride of `carType` with `companyId` at `datetime`. */
  function SelectTariff(companyId: string, carType: string, datetime: Timestamp): (r: Option<Tariff>)
    ensures r.None? <==> !Configured(companyId, carType) || SelectFrom(companyId, GetTariffs(companyId, carType), datetime).None?
    ensures r.Some? ==> r.value in Catalog[companyId][carType]
  {
    SelectFrom(companyId, GetTariffs(companyId, carType), datetime)
  }

  /** A list made of one `all` rule yields that rule at every moment. */
  lemma SelectSingleAll(companyId: string, rules: seq<Tariff>, datetime: Timestamp)
    requires WellFormedRules(rules) && SingleAll(rules)
    ensures SelectFrom(companyId, rules, datetime) == Some(rules[0])
  {
  }

  /**
    For kurir, the first `weekday-day` rule is chosen exactly when the moment
    is weekday daytime for that rule's window.
   */
  lemma SelectKurirWeekday(rules: seq<Tariff>, datetime: Timestamp, i: nat)
    requires WellFormedRules(rules) && !SingleAll(rules)
    requires i < |rules| && rules[i].ruleType == WeekdayDay
    requires forall j | 0 <= j < i :: rules[j].ruleType != WeekdayDay
    ensures SelectFrom(Kurir, rules, datetime) == Some(rules[i]) <==>
      IsWeekdayDay(datetime, rules[i].from.value, rules[i].to.value)
  {
    var k := FindType(rules, WeekdayDay, 0);
    assert k == Some(i);
  }

  /**
    Otherwise kurir gets its first `night-weekend` rule, or nothing when it has
    none; that rule's own window is not looked at.
   */
  lemma SelectKurirOtherwise(rules: seq<Tariff>, datetime: Timestamp)
    requires WellFormedRules(rules) && rules != [] && !SingleAll(rules)
    requires !KurirWeekdayApplies(rules, datetime)
    ensures var n := FindType(rules, NightWeekend, 0);
      SelectFrom(Kurir, rules, datetime) == if n.Some? then Some(rules[n.value]) else None
  {
  }

  /** Any other company gets the first qualifying rule in list order. */
  lemma SelectFirstQualifying(companyId: string, rules: seq<Tariff>, datetime: Timestamp, i: nat)
    requires WellFormedRules(rules) && companyId != Kurir
    requires i < |rules| && Qualifies(rules[i], MinuteOfDay(datetime))
    requires forall j | 0 <= j < i :: !Qualifies(rules[j], MinuteOfDay(datetime))
    ensures SelectFrom(companyId, rules, datetime) == Some(rules[i])
  {
    var k := FirstMatch(rules, MinuteOfDay(datetime), 0);
    assert k == Some(i);
  }

  /** When no rule qualifies, any other company falls back to the first rule. */
  lemma SelectFallback(companyId: string, rules: seq<Tariff>, datetime: Timestamp)
    requires WellFormedRules(rules) && companyId != Kurir && rules != []
    requires forall j | 0 <= j < |rules| :: !Qualifies(rules[j], MinuteOfDay(datetime))
    ensures SelectFrom(companyId, rules, datetime) == Some(rules[0])
  {
  }

  /**
    Two rules whose windows are each other's complement: whatever the time,
    exactly one of them qualifies.
   */
  lemma ComplementaryPairPartition(a: Tariff, b: Tariff, minutes: int)
    requires WellFormedRule(a) && WellFormedRule(b) && a.ruleType != All && b.ruleType != All
    requires a.from.Some? && a.to.Some? && b.from == a.to && b.to == a.from
    requires ParseTime(a.from.value) != ParseTime(a.to.value)
    ensures Qualifies(a, minutes) <==> !Qualifies(b, minutes)
  {
    InRangeComplement(minutes, a.from.value, a.to.value);
  }

  // ---------------------------------------------------------------------
  // Price

  /** The host's Math.round: the nearest integer, halves rounded up. */
  function Round(x: real): (r: int)
    ensures r as real - 0.5 <= x < r as real + 0.5
  {
    (x + 0.5).Floor
  }

  /** Rounding to whole öre (hundredths): Math.round(x * 100) / 100. */
  function RoundCents(x: real): (r: real)
    ensures r - 0.005 <= x < r + 0.005
    ensures (r * 100.0).Floor as real == r * 100.0
  {
    (Round(x * 100.0) as real) / 100.0
  }

  /** The time part of a fare before rounding: the hourly rate times the hours. */
  function TimePart(rule: Tariff, durationMinutes: real): (p: real) {
    rule.hour * (durationMinutes / 60.0)
  }

  /** The distance part of a fare before rounding. */
  function DistancePart(rule: Tariff, distanceKm: real): (p: real) {
    rule.km * distanceKm
  }

  function RawTotal(rule: Tariff, distanceKm: real, durationMinutes: real): (total: real) {
    rule.base + TimePart(rule, durationMinutes) + DistancePart(rule, distanceKm)
  }

  /** The three parts of a fare, each rounded to hundredths for display. */
  datatype Breakdown = Breakdown(basePart: real, timePart: real, distancePart: real)

  /** The outcome of a calculation: no rule found, or the rule with the fare. */
  datatype PriceResult =
    | NoTariff(error: string, totalRounded: int)
    | Priced(rule: Tariff, breakdown: Breakdown, totalRounded: int)

  const NoTariffMessage: string := "No tariff found for the specified parameters"

  /**
    The fare of a ride: base price plus hourly rate times hours plus rate per
    kilometre times kilometres under the selected rule. The total is rounded
    to a whole krona from the unrounded sum; each displayed part is rounded
    to hundredths on its own.
   */
  function CalculatePrice(companyId: string, carType: string, datetime: Timestamp,
                          distanceKm: real, durationMinutes: real): (res: PriceResult)
    requires distanceKm > 0.0 && durationMinutes > 0.0
    ensures res.NoTariff? <==> SelectTariff(companyId, carType, datetime).None?
    ensures res.NoTariff? ==> res.error == NoTariffMessage && res.totalRounded == 0
    ensures res.Priced? ==>
      && SelectTariff(companyId, carType, datetime) == Some(res.rule)
      && res.totalRounded == Round(RawTotal(res.rule, distanceKm, durationMinutes))
      && res.breakdown == Breakdown(RoundCents(res.rule.base),
                                    RoundCents(TimePart(res.rule, durationMinutes)),
                                    RoundCents(DistancePart(res.rule, distanceKm)))
  {
    match SelectTariff(companyId, carType, datetime)
    case None =>
      NoTariff(NoTariffMessage, 0)
    case Some(tariff) =>
      var basePart := tariff.base;
      var hourPart := TimePart(tariff, durationMinutes);
      var kmPart := DistancePart(tariff, distanceKm);
      var total := basePart + hourPart + kmPart;
      Priced(tariff,
             Breakdown(RoundCents(basePart), RoundCents(hourPart), RoundCents(kmPart)),
             Round(total))
  }

  /**
    The displayed parts need not add up to the total, but their sum is never
    more than half a krona and three half-hundredths away from it.
   */
  lemma DisplayedPartsNearTotal(companyId: string, carType: string, datetime: Timestamp,
                                distanceKm: real, durationMinutes: real)
    requires distanceKm > 0.0 && durationMinutes > 0.0
    ensures var res := CalculatePrice(companyId, carType, datetime, distanceKm, durationMinutes);
      res.Priced? ==>
        var b := res.breakdown;
        var shown := b.basePart + b.timePart + b.distancePart;
        res.totalRounded as real - 0.515 <= shown <= res.totalRounded as real + 0.515
  {
  }

  /** Each unrounded part is linear in its own input. */
  lemma PartsAreLinear(rule: Tariff, factor: real, distanceKm: real, durationMinutes: real)
    ensures TimePart(rule, factor * durationMinutes) == factor * TimePart(rule, durationMinutes)
    ensures DistancePart(rule, factor * distanceKm) == factor * DistancePart(rule, distanceKm)
  {
    calc {
      TimePart(rule, factor * durationMinutes);
      rule.hour * (factor * durationMinutes / 60.0);
      { assert factor * durationMinutes / 60.0 == factor * (durationMinutes / 60.0); }
      rule.hour * (factor * (durationMinutes / 60.0));
      factor * (rule.hour * (durationMinutes / 60.0));
    }
  }

  /** With non-negative rates and inputs, the rounded total is not negative. */
  lemma TotalNonNegative(rule: Tariff, distanceKm: real, durationMinutes: real)
    requires rule.base >= 0.0 && rule.hour >= 0.0 && rule.km >= 0.0
    requires distanceKm >= 0.0 && durationMinutes >= 0.0
    ensures Round(RawTotal(rule, distanceKm, durationMinutes)) >= 0
  {
    assert TimePart(rule, durationMinutes) >= 0.0 by {
      assert durationMinutes / 60.0 >= 0.0;
    }
  }

  /** Rounding never reverses order. */
  lemma RoundMonotone(x: real, y: real)
    requires x <= y
    ensures Round(x) <= Round(y)
  {
  }

  /** With non-negative rates, a longer or slower ride never costs less. */
  lemma TotalMonotone(rule: Tariff, d1: real, d2: real, t1: real, t2: real)
    requires rule.hour >= 0.0 && rule.km >= 0.0
    requires 0.0 <= d1 <= d2 && 0.0 <= t1 <= t2
    ensures Round(RawTotal(rule, d1, t1)) <= Round(RawTotal(rule, d2, t2))
  {
    assert DistancePart(rule, d1) <= DistancePart(rule, d2) by {
      assert rule.km * (d2 - d1) >= 0.0;
    }
    assert TimePart(rule, t1) <= TimePart(rule, t2) by {
      assert rule.hour * ((t2 - t1) / 60.0) >= 0.0;
    }
    RoundMonotone(RawTotal(rule, d1, t1), RawTotal(rule, d2, t2));
  }
}
