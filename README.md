# Save Your Phone — verified model of the calendar, scanner, translations and free-trial store

"Save Your Phone" (احفظ هاتفك) is a web dashboard that scans the visitor's
phone or browser, lists security threats and scores them, shows dates in both
the Gregorian and the Hijri calendars in Arabic, English or French, and gates
scans behind a free trial (two scans) or a subscription. This Dafny project
models the parts of the program that compute something and proves what they
promise:

- `dates.dfy` (module `Dates`) — the Gregorian → Julian Day → Hijri
  conversion of `client/src/lib/dates.ts`, with its month-walking loop as a
  `method` proved against a specification function, the leap-year rule, the
  three month-name tables and the `formatDate` / `formatDateTimeWithBoth`
  strings. The floating-point constants (354.36708 days per lunar year, epoch
  1948439.5) are kept exact as integer fractions. The as-written conversion
  has a defect (see Findings); a corrected conversion is defined next to it
  and proved to be a bijection on valid Hijri dates.
- `security_scanner.dfy` (module `SecurityScanner`) — the two scores of
  `client/src/lib/security-scanner.ts` (threat score, device score) as
  imperative methods proved against specification functions, the release-year
  tables, the device-age buckets, the operating-system text, the browser
  classification, and the deterministic threat checks (device conditions,
  suspicious plugins, malware patterns in the user agent), which push into the
  threat list.
- `i18n.dfy` (module `I18n`) — `getTranslation`'s fallback chain (chosen
  language, then English, then the key) and the table of languages.
- `storage.dfy` (module `Storage`) — `DatabaseStorage` as a class whose
  fields are the tables (users, scans, threats, settings) and their id
  counters; every write is a method with a `modifies` clause and every read a
  function with a `reads` clause. The class invariant keeps ids positive,
  distinct and below their counter.
- `routes.dfy` (module `Routes`) — the decision logic of the request
  handlers in `server/routes.ts`: the free-trial scan gate, the eligibility
  report, the subscription status, the demo subscription and the two 404
  lookups, answering with a `Reply` datatype that carries the HTTP status.
- `js_text.dfy` (module `JsText`) and `base.dfy` (module `Base`) — the
  JavaScript string behaviour the code relies on (`toLowerCase`, `includes`,
  number-to-text, `parseInt`, the number-shaped regular expressions) and the
  shared `Option`, `Result` and `Language` types.

Inputs the program reads from the browser or the clock (the user agent,
navigator fields, the battery level, the current year and time, `Intl`
date/time texts, random demo ids) are parameters.

Where the code's own tables and comments and its behaviour disagree, the
model follows the behaviour:

- The three month-name tables of `dates.ts` (lines 8-23) have twelve entries
  each and `formatDate` indexes them with `month - 1` (line 102), so the code
  assumes Hijri months 1..12; its month walk nevertheless reaches 13 (see
  Findings), and the model of the code as written shows that.
- The header comment of `dates.ts` says Umm al-Qura; the code is a plain
  arithmetic (mean lunar year) approximation, and that is what is modelled.

## Model

| member | source | states |
|---|---|---|
| Dates.GregorianToHijri | client/src/lib/dates.ts:26-64 | the loop computes the specification conversion `HijriOf` of the date's Julian Day; the result converts back to the same Julian Day; month is in 1..13 and day in 1..30 |
| Dates.HijriOfProperties | client/src/lib/dates.ts:26-64 | for every Julian Day the conversion gives month 1..13, day 1..30, the estimated year, and round-trips through `HijriToJulianDay` |
| Dates.NextDayIsNextJulianDay | client/src/lib/dates.ts:66-76 | the Julian Day formula counts days: the next valid calendar date has exactly the next Julian Day number |
| Dates.JulianDayOfJanuary2000 | client/src/lib/dates.ts:66-76 | 1 January 2000 is Julian Day 2451545 |
| Dates.HijriYearOneStarts | client/src/lib/dates.ts:78-80 | year 1 AH starts on Julian Day 1948439 (floor of the epoch 1948439.5) |
| Dates.HijriYearStartsIncrease | client/src/lib/dates.ts:78-80 | year starts strictly increase with the year |
| Dates.YearLengthBounds | client/src/lib/dates.ts:78-80 | consecutive year starts are 354 or 355 days apart |
| Dates.JsRem | client/src/lib/dates.ts:82-84 | JavaScript's truncating `%`: strictly between -n and n, and equal to the mathematical remainder on non-negative numbers |
| Dates.ElevenLeapYearsPerCycle | client/src/lib/dates.ts:82-84 | every 30 consecutive years from year 1 on contain exactly 11 leap years |
| Dates.LeapRuleRepeats | client/src/lib/dates.ts:82-84 | the leap-year rule repeats every 30 years |
| Dates.YearTwoIsLeap | client/src/lib/dates.ts:82-84 | year 2 AH is a leap year ((2*11+14) % 30 = 6 < 11) |
| Dates.MonthLength | client/src/lib/dates.ts:53-58 | every month the walk uses has 29 or 30 days |
| Dates.DaysBeforeMonthClosedForm | client/src/lib/dates.ts:50-58 | the days before month m are 29(m-1) + m/2: odd months 30, even months 29 |
| Dates.MonthsFillYear | client/src/lib/dates.ts:50-58 | the first eleven months hold 325 days; the twelve months hold 355 days in a leap year and 354 otherwise |
| Dates.MonthWalkAccounts | client/src/lib/dates.ts:50-61 | the walk loses no day: the month it stops in plus the day within it account exactly for the days into the year, and the day fits the month |
| Dates.MonthWalkReaches | client/src/lib/dates.ts:50-59 | the walk reaches month k exactly when the days into the year cover all months before k |
| Dates.FullYearWalk | client/src/lib/dates.ts:50-59 | walking exactly as many days as the twelve months hold (354, or 355 in a leap year) from month 1 ends on day 1 of month 13 |
| Dates.WalkIntoLastMonth | client/src/lib/dates.ts:50-59 | a day count past the first eleven months (325 days) but short of the twelve months' total lands in month 12, on day count - 324 |
| Dates.EstimateBrackets | client/src/lib/dates.ts:32-38 | the estimated year starts on or before the Julian Day and the next year starts on or after it |
| Dates.DaysIntoYearBounds | client/src/lib/dates.ts:38-44 | the days into the estimated year are never negative, so the year-decrement branch never runs, and never exceed that year's length |
| Dates.MonthThirteenExactly | client/src/lib/dates.ts:50-59 | the walk ends in month 13 exactly when the days into the year reach the twelve months' total by the leap rule (354 or 355), which need not be the year's length between year starts |
| Dates.YearStartAssignedToPreviousYear | client/src/lib/dates.ts:35-44 | the first day of year y+1 is reported as year y, with the full length of year y still to walk (unless the start of year y+1 is an exact integer) |
| Dates.MonthThirteenMidYear | client/src/lib/dates.ts:35-59 | AH 15 has 355 days between its start and the next but is not a leap year, so its last day (JDN 1953754) converts to 15/13/1 |
| Dates.YearStartOutsideMonthThirteen | client/src/lib/dates.ts:35-59 | AH 16 is a leap year with only 354 days between its start and the next, so the first day of AH 17 (JDN 1954109) converts to 16/12/30, not into month 13 |
| Dates.MonthThirteenExample | client/src/lib/dates.ts:26-64 | 7 July 623 is Julian Day 1948793 and converts to day 1 of month 13 of year 1 |
| Dates.CorrectedNonLeapYearEndsOnThirty | client/src/lib/dates.ts:53-58 | in the corrected conversion, month 12 of AH 15 (not a leap year, month length 29 by the rule) runs to day 30 |
| Dates.CorrectedLeapYearEndsOnTwentyNine | client/src/lib/dates.ts:53-58 | in the corrected conversion, month 12 of AH 16 (a leap year, month length 30 by the rule) ends on day 29 |
| Dates.CorrectedYearContains | client/src/lib/dates.ts:35-44 | the corrected year is the one whose half-open span [start, next start) contains the day |
| Dates.YearContainingIsUnique | client/src/lib/dates.ts:35-44 | at most one year's half-open span contains a day |
| Dates.CorrectedIsValid | client/src/lib/dates.ts:26-64 | the corrected conversion always gives a valid Hijri date (month 1..12, day within the month) that converts back to the same Julian Day |
| Dates.CappedMonthWalkInverse | client/src/lib/dates.ts:47-61 | the capped walk, given the days before a day of a month, lands on exactly that month and day |
| Dates.CorrectedRoundTrip | client/src/lib/dates.ts:26-64 | the corrected conversion inverts `HijriToJulianDay` on every valid Hijri date, so the two are a bijection |
| Dates.CorrectedAgreesElsewhere | client/src/lib/dates.ts:26-64 | the corrected and the as-written conversions agree on every day that is not the first day of a year and does not fall into month 13 |
| Dates.MonthNames | client/src/lib/dates.ts:8-23 | each language has twelve non-empty month names |
| Dates.MonthNamesAreReal | client/src/lib/dates.ts:8-23 | no month name contains a line break or reads "undefined" |
| Dates.FormatHijriShape | client/src/lib/dates.ts:101-103 | the Hijri text starts with the day, a space and the month name, ends in "هـ" for Arabic and " AH" otherwise, holds no line break, and names a real month exactly when the month is 1..12 |
| Dates.FormatDateParts | client/src/lib/dates.ts:86-133 | `formatDate` returns the locale's date text for the language's locale and a Hijri text that starts with the converted day and ends in the language's suffix |
| Dates.FormatDateMonthThirteen | client/src/lib/dates.ts:86-103 | in English, 7 July 623 is printed "1 undefined 1 AH" |
| Dates.FormatHijriMonthThirteen | client/src/lib/dates.ts:101-103 | month 13 prints as "undefined" between the day and the year |
| Dates.FormatDateTimeWithBothLines | client/src/lib/dates.ts:135-154 | the combined text splits into exactly three lines: the Gregorian label and date, the Hijri label and date, the time label and time |
| Dates.LabelsAreLines | client/src/lib/dates.ts:146-153 | none of the three labels of any language contains a line break |
| JsText.NatToStringRoundTrip | client/src/lib/security-scanner.ts:125 | a number's decimal text is a non-empty run of digits that `parseInt` reads back as the number |
| JsText.Match | client/src/lib/security-scanner.ts:123-136 | a pattern match is absent exactly when the pattern matches nowhere; otherwise it returns the groups of the leftmost match, which are non-empty runs of digits |
| JsText.FirstMatchFrom | client/src/lib/security-scanner.ts:123-136 | the position found is a match and no earlier position from the start is one; no result means no match at or after the start |
| JsText.ToLower | client/src/lib/security-scanner.ts:196 | lower-casing keeps the length and maps each character on its own |
| SecurityScanner.CalculateSecurityScore | client/src/lib/security-scanner.ts:420-441 | the loop computes 100 minus the summed deductions, floored at 0; the score is in 0..100 and is 100 exactly when nothing is deducted |
| SecurityScanner.TotalDeductionBySeverity | client/src/lib/security-scanner.ts:423-438 | the deduction is 30 per critical, 20 per high, 10 per medium and 5 per low threat |
| SecurityScanner.TotalDeductionConcat | client/src/lib/security-scanner.ts:423-438 | deductions of two threat lists add up |
| SecurityScanner.ScoreOfMoreThreats | client/src/lib/security-scanner.ts:420-441 | no threats score 100; more threats never raise the score and lower any positive score |
| SecurityScanner.ScoreIgnoresOrder | client/src/lib/security-scanner.ts:420-441 | the order in which threats are found does not change the score |
| SecurityScanner.CalculateDeviceSecurityScore | client/src/lib/security-scanner.ts:171-187 | the sequential updates compute 100 minus the penalties (old 20, middle-aged 10, 2G 15, low battery 5) plus the bonuses (memory 5, cores 5), clamped to 0..100 |
| SecurityScanner.Clamp | client/src/lib/security-scanner.ts:186 | the clamped value lies in 0..100 and equals the input when the input does |
| SecurityScanner.SystemCheckNeverFires | client/src/lib/security-scanner.ts:546 | the device score is never below 40, so the system (rootkit) check cannot fire |
| SecurityScanner.DeviceScoreRange | client/src/lib/security-scanner.ts:171-187 | the device score is between 60 and 100, is 100 for a device with no penalty whatever its bonuses, and at most 110 minus the penalties |
| SecurityScanner.EmptyBatteryIsNotLow | client/src/lib/security-scanner.ts:181 | a battery level of 0 scores as no reading (it is falsy), while 1..19 never score higher than no reading |
| SecurityScanner.OlderDeviceScoresNoHigher | client/src/lib/security-scanner.ts:174-175 | an older age bucket never gives a higher device score |
| SecurityScanner.AndroidReleaseYear | client/src/lib/security-scanner.ts:155-161 | Android 5..14 were released in version + 2009 (2014..2023); any other version reads as 2020 |
| SecurityScanner.IOSReleaseYear | client/src/lib/security-scanner.ts:163-169 | iOS 8..17 were released in version + 2006 (2014..2023); any other version reads as 2020 |
| SecurityScanner.OSVersionFromAndroid | client/src/lib/security-scanner.ts:143-144 | whenever an "Android a.b" version occurs, the first one is reported, whatever else the user agent holds |
| SecurityScanner.OSVersionFromIOS | client/src/lib/security-scanner.ts:146-147 | without an Android version, the first "OS a_b" is reported as "iOS a.b" |
| SecurityScanner.OSVersionFromWindows | client/src/lib/security-scanner.ts:149-150 | only without Android and iOS versions, the first "Windows NT a.b" is reported as "Windows a.b" |
| SecurityScanner.OSVersionUndetermined | client/src/lib/security-scanner.ts:142-153 | the version is "غير محدد" exactly when none of the three version patterns occurs |
| SecurityScanner.DeviceAgeCases | client/src/lib/security-scanner.ts:120-140 | the age is undetermined exactly when neither "Android n" nor "OS n_" occurs anywhere; when "Android n" occurs, the first such version decides the age |
| SecurityScanner.DeviceAgeFromIOS | client/src/lib/security-scanner.ts:131-137 | without an Android match, the first "OS n_" decides the age from the iOS release year |
| SecurityScanner.DeviceAgeGrows | client/src/lib/security-scanner.ts:120-140 | as the current year grows, the age bucket of a user agent never gets younger |
| SecurityScanner.AndroidWithoutMinorVersion | client/src/lib/security-scanner.ts:120-153 | "Android 13" (no minor version) in 2025 is middle-aged, yet its operating-system version is undetermined, because the two Android patterns differ |
| SecurityScanner.BrowserFirstMatchWins | client/src/lib/security-scanner.ts:193-218 | the first of chrome, firefox, safari, edge found in the lower-cased user agent names the browser, each name in both directions, and none found gives "Unknown" |
| SecurityScanner.ClassifyBrowserIgnoresCase | client/src/lib/security-scanner.ts:196-218 | the classification of a user agent and of its lower-cased form are the same |
| SecurityScanner.CheckDeviceConditions | client/src/lib/security-scanner.ts:254-306 | the old-device, battery-below-15, memory-below-2 and 2G checks push their threats, in that order, after the existing ones |
| SecurityScanner.DeviceConditionsAgreeWithDeviceScore | client/src/lib/security-scanner.ts:254-306 | each device-condition threat goes with the matching device-score penalty (or missing memory bonus); the 2G threat occurs exactly when the 2G penalty applies |
| SecurityScanner.DeviceConditionsDeduction | client/src/lib/security-scanner.ts:254-306 | the device-condition threats cost the threat score at most 80 points |
| SecurityScanner.CheckPlugins | client/src/lib/security-scanner.ts:308-322 | the loop pushes, in plugin order, one critical "extension" threat for each suspicious plugin after the existing threats |
| SecurityScanner.PluginThreatsExactly | client/src/lib/security-scanner.ts:308-322 | every pushed threat belongs to a suspicious plugin, every suspicious plugin gets its threat, and each threat costs 30 points |
| SecurityScanner.SuspiciousOf | client/src/lib/security-scanner.ts:309-311 | the in-order list of suspicious plugins holds exactly the listed plugins that contain a suspicious name, never more entries than the plugin list |
| SecurityScanner.PluginThreatsInOrder | client/src/lib/security-scanner.ts:308-322 | the check pushes exactly as many threats as there are suspicious plugins, the i-th being the threat of the i-th suspicious plugin |
| SecurityScanner.CheckMalwarePatterns | client/src/lib/security-scanner.ts:376-389 | one critical "malware" threat (risk 95) is pushed exactly when hack, crack, patch, mod or fake occurs in the lower-cased user agent |
| I18n.TranslateIn | client/src/lib/i18n.ts:592-593 | the result is the language's text, the English text or the key, and is never empty for a non-empty key |
| I18n.GetTranslation | client/src/lib/i18n.ts:592-593 | a non-empty key never translates to the empty text |
| I18n.FallbackOrder | client/src/lib/i18n.ts:592-593 | the chosen language wins when it has a non-empty text, English is used only when it has none, and the key comes back only when neither has one |
| I18n.EnglishFallsBackToKey | client/src/lib/i18n.ts:592-593 | asking for English gives the English text or else the key |
| I18n.TranslationExamples | client/src/lib/i18n.ts:4-578 | the Arabic title is "احفظ هاتفك"; French falls back to English for "advancedProtection"; the Arabic-only key "dashboardSecurityScore" comes back as itself in English |
| I18n.LanguagesTable | client/src/lib/i18n.ts:586-590 | each of Arabic, English and French is listed exactly once, and only Arabic is right to left |
| Storage.Repeat | server/storage.ts:186-196 | k increments raise the counter by exactly k and change no other field |
| Storage.FreeScansRunOut | server/storage.ts:198-209 | after k more scans a user may scan exactly when subscribed or when used + k is below the effective limit |
| Storage.FindUser | server/storage.ts:34-37 | a found row is in the table with that id; nothing is found exactly when no row has the id |
| Storage.UpdateUsers | server/storage.ts:59-63 | an update by id keeps the table's length, changes the rows with the id and no other |
| Storage.ResolveRows | server/storage.ts:110-114 | resolving marks the rows with the id resolved and leaves every other row as it was |
| Storage.FindResolvedThreat | server/storage.ts:109-116 | after resolving, the row found for the id is the resolved first row, and nothing is found for an unknown id |
| Storage.ResolveIsIdempotent | server/storage.ts:109-116 | resolving twice is resolving once, and no unresolved row with the id remains |
| Storage.Unresolved | server/storage.ts:101-105 | exactly the unresolved rows are kept |
| Storage.SortByDate | server/storage.ts:106 | the rows come out newest first and are a permutation of the input |
| Storage.LatestActive | server/storage.ts:75-83 | nothing is returned exactly when no scan is active; otherwise an active scan that no active scan is newer than |
| Storage.DatabaseStorage.constructor | server/storage.ts:33 | the store starts with empty tables and satisfies its id invariant |
| Storage.DatabaseStorage.GetUser | server/storage.ts:34-37 | the row with the id, or nothing exactly when there is none |
| Storage.DatabaseStorage.CreateUser | server/storage.ts:44-50 | the new user is appended with the next id and the schema defaults (type free, status inactive, 0 of 2 scans used) |
| Storage.DatabaseStorage.UpdateUserSubscription | server/storage.ts:52-65 | the rows with the id get the subscription fields (absent optional fields untouched); the updated row is returned, or nothing for an unknown id |
| Storage.DatabaseStorage.IncrementFreeScansUsed | server/storage.ts:186-196 | an unknown id fails with "User not found" and changes nothing; otherwise that user's counter rises by exactly one and nothing else changes |
| Storage.DatabaseStorage.CanPerformFreeScan | server/storage.ts:198-209 | false for an unknown id; otherwise true for an active, unexpired subscription and else exactly when used is below the effective limit |
| Storage.DatabaseStorage.CreateSecurityScan | server/storage.ts:67-73 | the scan is appended with the next id, the current time and active by default |
| Storage.DatabaseStorage.GetLatestSecurityScan | server/storage.ts:75-83 | an active scan with the greatest scan date, or nothing exactly when no scan is active |
| Storage.DatabaseStorage.GetSecurityScan | server/storage.ts:85-91 | the scan with the id, or nothing exactly when there is none |
| Storage.DatabaseStorage.PerformSecurityScan | server/storage.ts:147-177 | stores the demonstration scan: no user, score 85, active, no threats |
| Storage.DatabaseStorage.CreateThreat | server/storage.ts:93-99 | the threat is appended with the next id, the current time and unresolved by default |
| Storage.DatabaseStorage.GetActiveThreats | server/storage.ts:101-107 | exactly the unresolved threats, as a permutation of them, newest first |
| Storage.DatabaseStorage.ResolveThreat | server/storage.ts:109-116 | the rows with the id are marked resolved and nothing else changes; the resolved row is returned, or nothing for an unknown id; afterwards no unresolved threat has the id |
| Storage.DatabaseStorage.GetSecuritySettings | server/storage.ts:118-124 | the first settings row, or nothing exactly when there is none |
| Storage.DatabaseStorage.UpdateSecuritySettings | server/storage.ts:126-145 | an existing first row is updated in place and no row is added; with no row, one is inserted with the defaults; never a second row from nothing |
| Routes.SecurityScanAction | server/routes.ts:119-141 | with a user id, a user who may not scan gets 403 and nothing changes; otherwise the counter rises by exactly one and then the demonstration scan is stored; without a user id only the scan is stored; the error reply never happens |
| Routes.CheckFreeScan | server/routes.ts:101-116 | the verdict of the free-scan rule with the user's used count, effective limit and status, or not allowed, 0, 2 and no status for a missing user |
| Routes.EligibilityIsConsistent | server/routes.ts:101-116 | without a subscription the verdict is exactly "reported used below reported limit"; a missing user is refused although 0 is below 2 |
| Routes.IsActive | server/routes.ts:317-319 | truthy exactly for an active status with an expiry after now; null exactly when the status is active but no expiry is set |
| Routes.SubscriptionStatus | server/routes.ts:304-325 | 404 exactly for an unknown user; otherwise the user's stored type, status and expiry, and `isActive` computed as above (truthy exactly for an active, unexpired subscription) |
| Routes.ActiveStatusPassesGate | server/routes.ts:304-325 | a user reported active also passes the free-scan gate |
| Routes.DemoUpdate | server/routes.ts:281-287 | the demo sets status active, expiry now + 30 days (2592000000 ms) type "premium" when none or an empty one is given and the given type otherwise, and the customer and subscription ids "demo_cus_" and "demo_sub_" followed by their suffixes |
| Routes.Subscribe | server/routes.ts:269-302 | with a payment provider configured only a redirect reply and no change; otherwise the given user (or user 1) gets the demo subscription and the updated row is returned |
| Routes.DemoSubscriptionLastsThirtyDays | server/routes.ts:281-290 | a demo subscriber passes the free-scan gate at every moment of the next thirty days and is no longer subscribed from then on |
| Routes.GetScanById | server/routes.ts:34-45 | 404 "Scan not found" exactly when no scan has the id; otherwise the scan with that id |
| Routes.ResolveThreatRoute | server/routes.ts:67-78 | 404 "Threat not found" exactly when no threat has the id; otherwise the resolved threat with that id |

## Left out

- Dates: JavaScript floating point is replaced by exact rational arithmetic (354.36708 = 35436708/100000, 1948439.5 = 3896879/2); rounding differences of doubles are not modelled.
- Dates: `toLocaleDateString` / `toLocaleTimeString` (`Intl`) are parameters from locale tag to text; their output is not modelled.
- Dates: dates are year/month/day triples; the time of day and time zone of a `Date` are not modelled.
- Dates.HijriOfCorrected: the corrected conversion keeps the source's mean-year year starts and lets month 12 take every day up to the next year start, so month 12 has YearLength(y) - 325 days instead of the 30 (leap year) or 29 days of the leap rule at dates.ts:53-58; in years where the two disagree (AH 15 and AH 16 among them, see Dates.CorrectedNonLeapYearEndsOnThirty and Dates.CorrectedLeapYearEndsOnTwentyNine) the corrected month 12 is one day longer or shorter than the rule says. Taking the year starts from the 30-year cycle instead would change every year boundary of the source and is not modelled.
- Dates.JsRem: the truncating remainder is modelled, but the conversion is only analysed for the Julian Days the formulas give; negative Hijri years are not studied further.
- Dates: the constant `TROPICAL_YEAR` (line 28) is unused by the code and has no counterpart.
- JsText.ToLower: lower-cases ASCII letters only; JavaScript's `toLowerCase` applies the full Unicode case mapping, under which non-ASCII characters can lower-case to ASCII (U+212A KELVIN SIGN becomes "k", so a plugin named "FA\u212AE" matches "fake" in the source but not in the model) and U+0130 becomes two code units (so the length is not kept). The model does not capture these cases.
- JsText.Match: only the number-shaped regular expressions the scanner uses are modelled, not regular expressions in general.
- SecurityScanner: reading `navigator`, the battery, the network connection, geolocation, media devices and `window.location` is left out; their values are parameters.
- SecurityScanner: the helper checks `detectMalwareThreats`, `detectPrivacyThreats` and `detectSystemThreats` (client/src/lib/security-scanner.ts:444-557) are not modelled: the adware check (more than 15 plugins, line 446), the spyware check (a plugin containing "tracking", line 459) and the Do-Not-Track check (a falsy `doNotTrack`, line 531) are deterministic but outside the modelled core; the rootkit check (device score below 40, line 546) can never fire, which SecurityScanner.SystemCheckNeverFires states. Only the suspicious-app, malicious-file and network checks (lines 476, 492, 516) draw on `Math.random()` and have nothing deterministic to state. The Do-Not-Track check of `detectThreats` itself (a `doNotTrack` other than "1", line 405) and the storage check (local or session storage reported unavailable, line 324) are deterministic checks on browser-provided flags and are not modelled either; the location, camera/microphone and HTTPS checks (lines 337-402) read browser APIs and are left out too.
- SecurityScanner.DeviceInfo: holds only the fields the scores and checks read; platform, language, screen, time zone and the rest are not modelled.
- I18n.Translations: only an excerpt of the three translation tables (191, 172 and 106 keys) is written out; the lookup is defined and proved over any tables.
- I18n: the saved → browser → Arabic language choice of the language context is React state and is not part of this model.
- Storage: the database (drizzle/PostgreSQL) is replaced by in-memory sequences; concurrency between requests and database failures are not modelled.
- Storage: unique constraints of the schema (username, email, payment ids) are not enforced.
- Storage: the JSON columns of a scan are opaque JSON text.
- Storage: `getUserByUsername`, `fixSecuritySettings` and the user-suggestion operations are not part of this model.
- Storage.DatabaseStorage.UpdateSecuritySettings: the `notifications` column is required on insert (not null, no default, in shared/schema.ts:46, and the route's schema at server/routes.ts:92 asks for it), while the model, which takes every field as optional, inserts "" when it is absent instead of failing.
- Storage.DatabaseStorage.UpdateSecuritySettings: an absent field and an explicit `null` are not told apart (both leave a field unchanged on update and give null/default on insert).
- Routes: Express, request parsing (zod validation, `parseInt` of path parameters, non-numeric ids) and the Stripe payment routes are foreign calls and are left out; the random suffixes of the demo ids are parameters.
- Routes.SecurityScanAction: the user id is taken as a number or absent; other JSON values that JavaScript treats as truthy are not modelled.

## Findings

| source | as written | input that shows it | evidently intended | confidence | as-written member | corrected member |
|---|---|---|---|---|---|---|
| client/src/lib/dates.ts:35-59 | the month walk runs past month 12 whenever the days into the year reach the twelve months' total by the 30-year leap rule (354 or 355), while the year boundaries come from the mean-year length (354 or 355 between floored starts); two mechanisms lead there: (1) the year estimate floors the epoch-shifted ratio, so the day on which year y+1 starts is still given year y with the whole of year y left to walk; (2) the leap rule and the mean-year length disagree, so a non-leap year with 355 days between its starts puts its last day into month 13, while a leap year with only 354 days keeps the next year's first day in month 12; month 13 is printed as "undefined" by `formatDate` | 7 July 623 (Julian Day 1948793, the start of 2 AH) converts to 1/13/1 and is formatted "1 undefined 1 AH" in English; Julian Day 1953754, the last day of AH 15, converts to 15/13/1; Julian Day 1954109, the first day of AH 17, converts to 16/12/30 | the day a year starts belongs to that year, and the month stays within 1..12 with month 12 absorbing the days up to the next year start (so month 12 follows the year length, not the leap rule) | not executed | Dates.MonthThirteenExample, Dates.MonthThirteenMidYear, Dates.YearStartOutsideMonthThirteen, Dates.YearStartAssignedToPreviousYear, Dates.FormatDateMonthThirteen | Dates.HijriOfCorrected, Dates.CorrectedIsValid, Dates.CorrectedRoundTrip, Dates.CorrectedNonLeapYearEndsOnThirty, Dates.CorrectedLeapYearEndsOnTwentyNine |
