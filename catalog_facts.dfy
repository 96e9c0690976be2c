/**
  What the selector and the fare formula do with the shipped catalog: every
  configured company and car class is always priced, the general scan never
  needs its fallback, and kurir's choice follows the weekday rule.
 */
module CatalogFacts {
  import opened Wrappers
  import opened Tariffs
  import opened Pricing

  /**
    For every company other than kurir, each moment of the day is matched by
    exactly one rule of its list, so the scan always finds a rule and the
    fallback to the first rule never fires.
   */
  lemma ExactlyOneRuleMatches(companyId: string, carType: string, minutes: int)
    requires Configured(companyId, carType) && companyId != Kurir
    ensures var rules := Catalog[companyId][carType];
      && FirstMatch(rules, minutes, 0).Some?
      && forall i, j | 0 <= i < |rules| && 0 <= j < |rules| ::
           Qualifies(rules[i], minutes) && Qualifies(rules[j], minutes) ==> i == j
  {
    var rules := Catalog[companyId][carType];
    CatalogShape(companyId, carType);
    if |rules| == 2 {
      var a, b := rules[0], rules[1];
      ParseTimeInjective(a.from.value, a.to.value);
      assert a.ruleType != All && b.ruleType != All;
      ComplementaryPairPartition(a, b, minutes);
      assert Qualifies(a, minutes) || Qualifies(b, minutes);
    } else {
      assert Qualifies(rules[0], minutes);
    }
  }

  /**
    Outside kurir, the rule chosen for a configured list is the one whose
    window holds the moment (or the list's `all` rule).
   */
  lemma SelectedRuleHoldsMoment(companyId: string, carType: string, datetime: Timestamp)
    requires Configured(companyId, carType) && companyId != Kurir
    ensures var r := SelectTariff(companyId, carType, datetime);
      && r.Some?
      && r.value in Catalog[companyId][carType]
      && Qualifies(r.value, MinuteOfDay(datetime))
  {
    var rules := Catalog[companyId][carType];
    var m := MinuteOfDay(datetime);
    ExactlyOneRuleMatches(companyId, carType, m);
    CatalogShape(companyId, carType);
    var i := FirstMatch(rules, m, 0).value;
    SelectFirstQualifying(companyId, rules, datetime, i);
  }

  /**
    Kurir's catalog: the `weekday-day` rule (listed first) is chosen exactly
    Monday to Thursday from 09:00 up to but excluding 15:00; at every other
    moment the `night-weekend` rule (listed second) is chosen.
   */
  lemma KurirSelection(carType: string, datetime: Timestamp)
    requires Configured(Kurir, carType)
    ensures var rules := Catalog[Kurir][carType];
      var weekdayDaytime := 1 <= datetime.day <= 4 && 9 * 60 <= MinuteOfDay(datetime) < 15 * 60;
      SelectTariff(Kurir, carType, datetime) == Some(if weekdayDaytime then rules[0] else rules[1])
  {
    var rules := Catalog[Kurir][carType];
    CatalogShape(Kurir, carType);
    assert rules[0].from == Some("09:00") && rules[0].to == Some("15:00") by {
      if carType == "small" {
        assert rules == KurirSmall;
      } else {
        assert rules == KurirBig;
      }
    }
    assert ParseTime("09:00") == 540 && ParseTime("15:00") == 900;
    SelectKurirWeekday(rules, datetime, 0);
    if !KurirWeekdayApplies(rules, datetime) {
      SelectKurirOtherwise(rules, datetime);
    }
  }

  /**
    A ride is priced exactly when its company and car class are in the
    catalog; the error result otherwise carries the message and a zero total.
   */
  lemma PricedIffConfigured(companyId: string, carType: string, datetime: Timestamp,
                            distanceKm: real, durationMinutes: real)
    requires distanceKm > 0.0 && durationMinutes > 0.0
    ensures var res := CalculatePrice(companyId, carType, datetime, distanceKm, durationMinutes);
      && (res.Priced? <==> Configured(companyId, carType))
      && (res.Priced? ==> res.rule in Catalog[companyId][carType])
      && (res.NoTariff? ==> res == NoTariff(NoTariffMessage, 0))
  {
    if Configured(companyId, carType) {
      if companyId == Kurir {
        KurirSelection(carType, datetime);
      } else {
        SelectedRuleHoldsMoment(companyId, carType, datetime);
      }
    }
  }

  /** The fare of every catalog rule is non-negative. */
  lemma CatalogFaresNonNegative(companyId: string, carType: string, datetime: Timestamp,
                                distanceKm: real, durationMinutes: real)
    requires distanceKm > 0.0 && durationMinutes > 0.0
    ensures CalculatePrice(companyId, carType, datetime, distanceKm, durationMinutes).totalRounded >= 0
  {
    var res := CalculatePrice(companyId, carType, datetime, distanceKm, durationMinutes);
    if res.Priced? {
      PricedIffConfigured(companyId, carType, datetime, distanceKm, durationMinutes);
      var rules := Catalog[companyId][carType];
      CatalogShape(companyId, carType);
      var i :| 0 <= i < |rules| && rules[i] == res.rule;
      assert rules[i].hour >= 0.0 && rules[i].km >= 0.0 && rules[i].base >= 0.0;
      TotalNonNegative(res.rule, distanceKm, durationMinutes);
    }
  }

  /** `click` lists only small cars, so a big car from `click` is not priced. */
  lemma ClickHasNoBigCars(datetime: Timestamp, distanceKm: real, durationMinutes: real)
    requires distanceKm > 0.0 && durationMinutes > 0.0
    ensures GetTariffs("click", "big") == []
    ensures CalculatePrice("click", "big", datetime, distanceKm, durationMinutes) == NoTariff(NoTariffMessage, 0)
  {
    assert !Configured("click", "big") by {
      assert Catalog["click"].Keys == {"small"};
    }
  }

  /**
    Worked fares for `tor` small cars, 10 km in 20 minutes: at 10:00 the day
    rule gives 39 + 240 + 180 = 459; at 20:00 the night rule gives 75 +
    378.67 + 140. There the total 594 is rounded from the unrounded sum
    593.666..., and it differs from the sum of the displayed parts, 593.67.
   */
  lemma TorSmallWorkedFares()
    ensures CalculatePrice("tor", "small", Timestamp(3, 10, 0), 10.0, 20.0)
      == Priced(TorSmall[0], Breakdown(39.0, 240.0, 180.0), 459)
    ensures CalculatePrice("tor", "small", Timestamp(3, 20, 0), 10.0, 20.0)
      == Priced(TorSmall[1], Breakdown(75.0, 378.67, 140.0), 594)
  {
    var rules := TorSmall;
    assert Configured("tor", "small") && Catalog["tor"]["small"] == rules;
    assert ParseTime("07:00") == 420 && ParseTime("15:00") == 900;
    var day, night := Timestamp(3, 10, 0), Timestamp(3, 20, 0);
    assert Qualifies(rules[0], MinuteOfDay(day));
    SelectFirstQualifying("tor", rules, day, 0);
    assert !Qualifies(rules[0], MinuteOfDay(night)) && Qualifies(rules[1], MinuteOfDay(night));
    SelectFirstQualifying("tor", rules, night, 1);
    assert RoundCents(39.0) == 39.0 && RoundCents(240.0) == 240.0 && RoundCents(180.0) == 180.0;
    assert TimePart(rules[1], 20.0) == 1136.0 / 3.0;
    assert RoundCents(1136.0 / 3.0) == 378.67;
    assert Round(75.0 + 1136.0 / 3.0 + 140.0) == 594;
  }

  /**
    Kurir on a Wednesday at 10:00 pays the workday rule; on a Friday at the
    same time the night and weekend rule, though 10:00 lies in the workday
    window.
   */
  lemma KurirWeekdayVersusFriday()
    ensures SelectTariff(Kurir, "small", Timestamp(3, 10, 0)) == Some(KurirSmall[0])
    ensures SelectTariff(Kurir, "small", Timestamp(5, 10, 0)) == Some(KurirSmall[1])
  {
    assert Configured(Kurir, "small") && Catalog[Kurir]["small"] == KurirSmall;
    KurirSelection("small", Timestamp(3, 10, 0));
    KurirSelection("small", Timestamp(5, 10, 0));
  }
}
