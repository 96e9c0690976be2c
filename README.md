# Taxi tariff selection and fare calculation, in Dafny

This project models the pricing engine of a taxi fare calculator for the
companies of a Swedish taxi group (`vib`, `tor`, `gtt`, `kurir`, `click`).
The engine has two parts:

- The **tariff catalog** (`src/features/pricing/tariffs.js`). It is a constant
  table from company and car class (`small`, `big`) to an ordered list of one
  or two pricing rules. Each rule has a type (`day`, `night`, `all`,
  `weekday-day`, `night-weekend`), an optional `"HH:MM"` window, a start price,
  an hourly rate and a rate per kilometre. The lookup `getTariffs` returns the
  empty list for an unknown company or car class.
- The **selector and calculator** (`src/features/pricing/calculatePrice.js`).
  `selectTariff` chooses one rule for a moment in time:
  - a lone `all` rule wins at once;
  - `kurir` chooses by weekday (Monday to Thursday) and time of day;
  - every other company takes the first rule whose window holds the time,
    and falls back to the first rule.

  `calculatePrice` charges base + hourly rate × hours + rate per km × km.
  It rounds the total to whole krona and each displayed part to hundredths.

Everything in the core is pure, so the model is functions and lemmas in four
modules. `Tariffs` (tariffs.dfy) holds the rule datatype, the catalog constant,
the lookup and the catalog's shape. `Pricing` (pricing.dfy) holds time parsing,
windows, day-of-week tests, selection and the fare. `CatalogFacts`
(catalog_facts.dfy) proves what selection and pricing do with the shipped
catalog. `Wrappers` (wrappers.dfy) holds an `Option` type, which stands for the
source's `null`/`undefined` results.

Encodings:
- A moment is `Timestamp(day, hours, minutes)`. `day` follows the host's
  `getDay()` numbering, where 0 is Sunday.
- Times of day are minutes since midnight.
- Money is `real`.
- `Math.round(x)` is `(x + 0.5).Floor`, which rounds halves up, as the host
  does.
- Company ids and car classes stay strings, as in the source. Selection keys
  on the literal company id `"kurir"`, and any string may be looked up.

Behaviours of the code worth noting:
- A window whose start equals its end counts as wrapping past midnight, so it
  holds every minute (`IsInRange`, `InRangeWrapping`).
- Rules carry one of five type tags. Only a `weekday-day` rule must carry both
  bounds; in the catalog an `all` rule has none. A rule of another type without
  both bounds never qualifies in the general scan.
- `isWeekend` (Friday or Saturday) is part of the module, but selection never
  calls it. For `kurir`, any moment that is not weekday daytime gets the
  `night-weekend` rule, whatever that rule's window says.
- `Math.round` sends halves toward +∞.

## Model

| member | source | states |
|---|---|---|
| Tariffs.GetTariffs | src/features/pricing/tariffs.js:177-179 | The lookup is empty exactly when the company or the car class is missing. Otherwise it is the catalog's list, and every rule in it is well formed for the selector. |
| Tariffs.CatalogShape | src/features/pricing/tariffs.js:13-175 | Every configured list has one or two rules. Every bound is a valid "HH:MM" and every rate is non-negative. An `all` rule is alone in its list. The two rules of a pair have swapped, distinct windows. Each kurir list is one `weekday-day` rule followed by one `night-weekend` rule. No other company uses those two types. |
| Pricing.ParseTime | src/features/pricing/calculatePrice.js:13-16 | "HH:MM" parses to 60·HH + MM. For HH < 24 and MM < 60 the result lies in [0, 1440). |
| Pricing.ParseFormat | src/features/pricing/calculatePrice.js:13-16 | Parsing the zero-padded spelling of any minute of the day gives back that minute. |
| Pricing.FormatParse | src/features/pricing/calculatePrice.js:13-16 | Every valid "HH:MM" string is the spelling of the minute it parses to, so parsing loses nothing. |
| Pricing.ParseTimeInjective | src/features/pricing/calculatePrice.js:13-16 | Two valid clock strings parse to the same minute iff they are equal. |
| Pricing.MinuteOfDay | src/features/pricing/calculatePrice.js:87 | hours·60 + minutes of a moment lies in [0, 1440). |
| Pricing.IsInRange | src/features/pricing/calculatePrice.js:26-37 | The window's start is always inside it. Its end is outside it unless start and end coincide, and a window whose start equals its end holds every minute. |
| Pricing.InRangeSameDay | src/features/pricing/calculatePrice.js:30-32 | When from < to, the window is exactly [from, to): it includes from and excludes to. |
| Pricing.InRangeWrapping | src/features/pricing/calculatePrice.js:33-36 | When from ≥ to, the window holds m iff m ≥ from or m < to. When from equals to, it holds every minute. |
| Pricing.InRangeCircular | src/features/pricing/calculatePrice.js:26-37 | For minutes of the day, the window agrees with a reading on the 24-hour clock. m is inside when its forward distance from `from` is less than the window's length. A zero-length window is the whole day. |
| Pricing.InRangeComplement | src/features/pricing/calculatePrice.js:26-37 | When the ends are distinct, swapping them gives the complement window, so every minute is in exactly one of the two. |
| Pricing.IsWeekend | src/features/pricing/calculatePrice.js:44-47 | True exactly on days 5 and 6 (Friday and Saturday), never on Sunday (0). Selection never calls it. |
| Pricing.IsWeekdayDay | src/features/pricing/calculatePrice.js:56-66 | True exactly when the day is neither Sunday nor a weekend day (so Monday to Thursday) and the minute of the day lies in the window. |
| Pricing.WeekdayDayByDay | src/features/pricing/calculatePrice.js:44-66 | Weekday daytime is false on Sunday, Friday and Saturday at any time. On Monday to Thursday it equals the window test at hours·60 + minutes. It never holds on a weekend day. |
| Pricing.Qualifies | src/features/pricing/calculatePrice.js:106-116 | An `all` rule always qualifies. Any other rule qualifies only when it has both bounds, and a rule missing a bound qualifies exactly when it is an `all` rule. |
| Pricing.FirstMatch | src/features/pricing/calculatePrice.js:105-117 | Returns the index of the first rule in list order that is `all`, or that has both bounds and whose window holds the time. When there is none it returns None, and then no rule qualifies. |
| Pricing.FindType | src/features/pricing/calculatePrice.js:91-92 | Returns the index of the first rule of the given type, or None when no rule has that type. |
| Pricing.SelectFrom | src/features/pricing/calculatePrice.js:75-121 | A chosen rule is always a member of the candidate list. There is no rule exactly when the list is empty, or when kurir's weekday rule does not apply and the list has no `night-weekend` rule. |
| Pricing.SelectTariff | src/features/pricing/calculatePrice.js:75-80 | There is no rule when the company or the car class is unconfigured, or when selection from the configured list yields none. A chosen rule belongs to that company's list for that class. |
| Pricing.SelectSingleAll | src/features/pricing/calculatePrice.js:82-85 | A list made of one `all` rule yields that rule at every moment, for every company. |
| Pricing.SelectKurirWeekday | src/features/pricing/calculatePrice.js:90-99 | For kurir, the first `weekday-day` rule is chosen iff the moment is weekday daytime for that rule's window. |
| Pricing.SelectKurirOtherwise | src/features/pricing/calculatePrice.js:100-102 | When the weekday rule does not apply, kurir gets its first `night-weekend` rule, or nothing when it has none. That rule's window is never consulted. |
| Pricing.SelectFirstQualifying | src/features/pricing/calculatePrice.js:104-117 | For any other company, the first qualifying rule in list order is the result. |
| Pricing.SelectFallback | src/features/pricing/calculatePrice.js:119-120 | For any other company, when no rule qualifies the result is the first rule of the non-empty list. |
| Pricing.ComplementaryPairPartition | src/features/pricing/calculatePrice.js:110-116 | Two windowed rules whose windows are swapped, with distinct ends, never both qualify and never both fail. |
| Pricing.Round | src/features/pricing/calculatePrice.js:161 | Math.round gives the integer r with r − ½ ≤ x < r + ½, which rounds halves up. |
| Pricing.RoundCents | src/features/pricing/calculatePrice.js:166-168 | A displayed part is a whole number of hundredths and lies within half a hundredth of the unrounded part. |
| Pricing.CalculatePrice | src/features/pricing/calculatePrice.js:133-172 | It is an error iff no rule is selected, and the error carries the message and a zero total. Otherwise the result's rule is the selected rule and the total is Math.round of the unrounded base + time + distance sum. The displayed parts are each rounded to hundredths on their own. |
| Pricing.DisplayedPartsNearTotal | src/features/pricing/calculatePrice.js:160-169 | The three displayed parts need not add up to the rounded total. Their sum is always within 0.515 of it: half a krona from the total's rounding plus half a hundredth for each part. |
| Pricing.PartsAreLinear | src/features/pricing/calculatePrice.js:152-157 | Scaling the duration scales the time part by the same factor. Scaling the distance scales the distance part. Doubling either input doubles its part. |
| Pricing.TotalNonNegative | src/features/pricing/calculatePrice.js:155-161 | With non-negative rates and inputs, the rounded total is not negative. |
| Pricing.RoundMonotone | src/features/pricing/calculatePrice.js:161 | Math.round preserves order. |
| Pricing.TotalMonotone | src/features/pricing/calculatePrice.js:152-161 | With non-negative rates, a longer or slower ride never has a smaller rounded total. |
| CatalogFacts.ExactlyOneRuleMatches | src/features/pricing/calculatePrice.js:105-120 | For every configured company other than kurir, exactly one rule of the list qualifies at any time. So the scan always finds a rule and the fallback never fires on the shipped catalog. |
| CatalogFacts.SelectedRuleHoldsMoment | src/features/pricing/calculatePrice.js:104-117 | For a configured company other than kurir, selection always yields a rule from the list, and that rule's window holds the moment. |
| CatalogFacts.KurirSelection | src/features/pricing/tariffs.js:110-151 | For kurir's catalog, the workday rule is chosen exactly Monday to Thursday from 09:00 up to but excluding 15:00. At every other moment the night and weekend rule is chosen. |
| CatalogFacts.PricedIffConfigured | src/features/pricing/calculatePrice.js:140-149 | A ride is priced iff its company and car class are in the catalog. The priced rule comes from that list. Otherwise the result is the no-tariff error with total 0. |
| CatalogFacts.CatalogFaresNonNegative | src/features/pricing/tariffs.js:13-175 | Every fare computed from the catalog has a non-negative rounded total. |
| CatalogFacts.ClickHasNoBigCars | src/features/pricing/tariffs.js:153-174 | `click` defines only small cars. The lookup for `click`/`big` is empty and its price is the no-tariff error. |
| CatalogFacts.TorSmallWorkedFares | src/features/pricing/tariffs.js:58-77 | For `tor` small cars, 10 km and 20 min, on a Wednesday: at 10:00 the day rule gives 39 / 240 / 180 and a total of 459. At 20:00 the night rule gives 75 / 378.67 / 140 and a total of 594, rounded from the unrounded sum 593.67 (exactly 593⅔). |
| CatalogFacts.KurirWeekdayVersusFriday | src/features/pricing/calculatePrice.js:90-102 | Kurir on Wednesday at 10:00 gets the workday rule. On Friday at 10:00 it gets the night and weekend rule, although 10:00 lies in the workday window. |

## Left out

- The UI components, map display, address search and the routing service are not modelled. The core only consumes the distance and duration they supply.
- CalculatePrice requires a positive distance and duration. Its live caller (src/components/pricing/PriceCalculatorModal.jsx:184-190) passes the routing service's distance and duration only after rejecting zero or missing values (src/components/pricing/PriceCalculatorModal.jsx:158-163), and the service's values are never negative. The form's own checks (src/components/pricing/PriceForm.jsx:42-50) demand the same.
- Dates are not parsed and time zones are not handled. A moment is given directly as weekday, hour and minute, as the host's Date reports them in local time.
- ParseTime accepts only the "HH:MM" form that every catalog bound uses. Other strings, and the host's NaN results for malformed input, are not modelled.
- Bounds are modelled as present or absent. The host treats an empty-string bound as absent, but the catalog has none, so this truthiness rule is left out.
- Tariffs.WellFormedRule requires every `weekday-day` rule to carry both bounds. The source needs this only for the first such rule of kurir, which it reads unguarded and which would throw without them. The catalog meets the stronger rule.
- GetTariffs is modelled as a lookup in the catalog's own keys. Keys that the host would inherit from every object, such as `constructor`, are left out.
- Floating-point arithmetic is not modelled. Rates such as 16.82 are exact reals, and display formatting through `toFixed` is not modelled.
- A rule's `description` is carried as data but never inspected.
- Branding data and the company list shown by the UI (src/features/pricing/companiesConfig.js) are not modelled. That list omits `click`, so the UI never offers that company even though the catalog prices it.
- The result card reads `hourPart`/`kmPart` keys that the breakdown does not have (src/components/pricing/ResultCard.jsx:37-44). This is a display matter outside the core.
