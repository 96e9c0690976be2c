/**
  The tariff catalog: for every company and car class, an ordered list of
  pricing rules. All amounts are in Swedish krona.
 */
module Tariffs {
  import opened Wrappers

  /** The `type` tag of a rule. */
  datatype RuleType = Day | Night | All | WeekdayDay | NightWeekend

  /**
    One pricing rule: an optional "HH:MM" window `from`/`to`, a fixed start
    price `base`, a price per hour and a price per kilometre.
   */
  datatype Tariff = Tariff(
    ruleType: RuleType,
    from: Option<string>,
    to: Option<string>,
    base: real,
    hour: real,
    km: real,
    description: string)

  predicate IsDigit(c: char) {
    '0' <= c <= '9'
  }

  function Digit(c: char): (d: nat)
    requires IsDigit(c)
    ensures d < 10
  {
    (c as int) - ('0' as int)
  }

  /** `s` is written "HH:MM": two digits, a colon, two digits. */
  predicate IsClock(s: string) {
    && |s| == 5
    && IsDigit(s[0]) && IsDigit(s[1])
    && s[2] == ':'
    && IsDigit(s[3]) && IsDigit(s[4])
  }

  function ClockHours(s: string): (h: nat)
    requires IsClock(s)
  {
    10 * Digit(s[0]) + Digit(s[1])
  }

  function ClockMinutes(s: string): (m: nat)
    requires IsClock(s)
  {
    10 * Digit(s[3]) + Digit(s[4])
  }

  /** A clock string naming a real time of day. */
  predicate ValidClock(s: string) {
    IsClock(s) && ClockHours(s) < 24 && ClockMinutes(s) < 60
  }

  /**
    What the selector needs of a rule: every bound it carries is "HH:MM", and
    a `weekday-day` rule carries both bounds (the selector reads them without
    checking that they are there).
   */
  predicate WellFormedRule(t: Tariff) {
    && (t.from.Some? ==> IsClock(t.from.value))
    && (t.to.Some? ==> IsClock(t.to.value))
    && (t.ruleType == WeekdayDay ==> t.from.Some? && t.to.Some?)
  }

  predicate WellFormedRules(rules: seq<Tariff>) {
    forall i | 0 <= i < |rules| :: WellFormedRule(rules[i])
  }

  /** The company whose rules are chosen by day of week as well as by time. */
  const Kurir: string := "kurir"

  const VibSmall: seq<Tariff> := [
    Tariff(Day, Some("09:00"), Some("15:00"), 61.0, 590.0, 16.82, "Day tariff (09:00–15:00)"),
    Tariff(Night, Some("15:00"), Some("09:00"), 61.0, 597.67, 19.66, "Night tariff (15:00–09:00)")
  ]

  const VibBig: seq<Tariff> := [
    Tariff(Day, Some("09:00"), Some("15:00"), 89.0, 885.0, 25.23, "Day tariff (09:00–15:00)"),
    Tariff(Night, Some("15:00"), Some("09:00"), 84.0, 895.0, 29.49, "Night tariff (15:00–09:00)")
  ]

  const TorSmall: seq<Tariff> := [
    Tariff(Day, Some("07:00"), Some("15:00"), 39.0, 720.0, 18.0, "Day tariff (07:00–15:00)"),
    Tariff(Night, Some("15:00"), Some("07:00"), 75.0, 1136.0, 14.0, "Night tariff (15:00–07:00)")
  ]

  const TorBig: seq<Tariff> := [
    Tariff(All, None, None, 95.0, 1600.0, 32.0, "24h tariff")
  ]

  const GttSmall: seq<Tariff> := [
    Tariff(All, None, None, 75.0, 760.0, 20.0, "24h tariff")
  ]

  const GttBig: seq<Tariff> := [
    Tariff(All, None, None, 97.0, 1400.0, 34.3, "24h tariff")
  ]

  const KurirSmall: seq<Tariff> := [
    Tariff(WeekdayDay, Some("09:00"), Some("15:00"), 54.0, 590.0, 19.7, "Workday tariff (09:00–15:00)"),
    Tariff(NightWeekend, Some("15:00"), Some("09:00"), 54.0, 655.0, 20.65, "Night & weekend tariff (15:00–09:00 + Fri + Sat)")
  ]

  const KurirBig: seq<Tariff> := [
    Tariff(WeekdayDay, Some("09:00"), Some("15:00"), 82.0, 885.0, 27.2, "Workday tariff (09:00–15:00)"),
    Tariff(NightWeekend, Some("15:00"), Some("09:00"), 82.0, 1085.0, 27.2, "Night & weekend tariff (15:00–09:00 + Fri + Sat)")
  ]

  const ClickSmall: seq<Tariff> := [
    Tariff(Day, Some("07:00"), Some("15:00"), 75.0, 836.0, 18.0, "Day tariff (07:00–15:00)"),
    Tariff(Night, Some("15:00"), Some("07:00"), 75.0, 1136.0, 14.0, "Night tariff (15:00–07:00)")
  ]

  /** The catalog, keyed by company id and then by car class. */
  const Catalog: map<string, map<string, seq<Tariff>>> := map[
    "vib" := map["small" := VibSmall, "big" := VibBig],
    "tor" := map["small" := TorSmall, "big" := TorBig],
    "gtt" := map["small" := GttSmall, "big" := GttBig],
    Kurir := map["small" := KurirSmall, "big" := KurirBig],
    "click" := map["small" := ClickSmall]
  ]

  predicate Configured(companyId: string, carType: string) {
    companyId in Catalog && carType in Catalog[companyId]
  }

  /**
    The rules for a company and car class, in catalog order; the empty list
    when either key is missing.
   */
  function GetTariffs(companyId: string, carType: string): (rules: seq<Tariff>)
    ensures rules != [] <==> Configured(companyId, carType)
    ensures Configured(companyId, carType) ==> rules == Catalog[companyId][carType]
    ensures WellFormedRules(rules)
  {
    if Configured(companyId, carType) then
      CatalogShape(companyId, carType);
      Catalog[companyId][carType]
    else
      []
  }

  /** The shape every configured list has. */
  ghost predicate CatalogListShape(companyId: string, rules: seq<Tariff>) {
    // one or two rules, each well formed with valid clock bounds and non-negative rates
    && 1 <= |rules| <= 2
    && WellFormedRules(rules)
    && (forall i | 0 <= i < |rules| ::
          && (rules[i].from.Some? ==> ValidClock(rules[i].from.value))
          && (rules[i].to.Some? ==> ValidClock(rules[i].to.value))
          && rules[i].base >= 0.0 && rules[i].hour >= 0.0 && rules[i].km >= 0.0)
    // an `all` rule is alone in its list and has no window; a single rule is an `all` rule
    && (forall i | 0 <= i < |rules| :: rules[i].ruleType == All ==> |rules| == 1)
    && (|rules| == 1 ==> rules[0].ruleType == All && rules[0].from.None? && rules[0].to.None?)
    // two rules have complementary windows with distinct ends
    && (|rules| == 2 ==>
          && rules[0].from.Some? && rules[0].to.Some?
          && rules[1].from == rules[0].to && rules[1].to == rules[0].from
          && rules[0].from != rules[0].to)
    // kurir lists hold one weekday-day rule followed by one night-weekend rule
    && (companyId == Kurir ==>
          |rules| == 2 && rules[0].ruleType == WeekdayDay && rules[1].ruleType == NightWeekend)
    && (companyId != Kurir ==>
          forall i | 0 <= i < |rules| :: rules[i].ruleType != WeekdayDay && rules[i].ruleType != NightWeekend)
  }

  lemma CatalogShape(companyId: string, carType: string)
    requires Configured(companyId, carType)
    ensures CatalogListShape(companyId, Catalog[companyId][carType])
  {
    if companyId == "vib" {
      VibShape(companyId, carType);
    } else if companyId == "tor" {
      TorShape(companyId, carType);
    } else if companyId == "gtt" {
      GttShape(companyId, carType);
    } else if companyId == Kurir {
      KurirShape(companyId, carType);
    } else {
      ClickShape(companyId, carType);
    }
  }

  lemma VibShape(companyId: string, carType: string)
    requires companyId == "vib" && Configured(companyId, carType)
    ensures CatalogListShape(companyId, Catalog[companyId][carType])
  {
    if carType == "small" {
      assert CatalogListShape(companyId, VibSmall);
    } else {
      assert CatalogListShape(companyId, VibBig);
    }
  }

  lemma TorShape(companyId: string, carType: string)
    requires companyId == "tor" && Configured(companyId, carType)
    ensures CatalogListShape(companyId, Catalog[companyId][carType])
  {
    if carType == "small" {
      assert CatalogListShape(companyId, TorSmall);
    } else {
      assert CatalogListShape(companyId, TorBig);
    }
  }

  lemma GttShape(companyId: string, carType: string)
    requires companyId == "gtt" && Configured(companyId, carType)
    ensures CatalogListShape(companyId, Catalog[companyId][carType])
  {
    if carType == "small" {
      assert CatalogListShape(companyId, GttSmall);
    } else {
      assert CatalogListShape(companyId, GttBig);
    }
  }

  lemma KurirShape(companyId: string, carType: string)
    requires companyId == Kurir && Configured(companyId, carType)
    ensures CatalogListShape(companyId, Catalog[companyId][carType])
  {
    if carType == "small" {
      assert CatalogListShape(companyId, KurirSmall);
    } else {
      assert CatalogListShape(companyId, KurirBig);
    }
  }

  lemma ClickShape(companyId: string, carType: string)
    requires companyId == "click" && Configured(companyId, carType)
    ensures CatalogListShape(companyId, Catalog[companyId][carType])
  {
    assert CatalogListShape(companyId, ClickSmall);
  }
}
