# SubscriptionSage billing core in Dafny

SubscriptionSage is a personal subscription tracker: users record their
subscriptions (amount, currency, billing cycle, start date), get reminder
emails before payments, and see their spending converted into a preferred
currency. This project models its billing core and proves properties of it:

- **The billing-cycle calculator** (`Models`): `Subscription.calculate_next_payment_date`
  over a proleptic Gregorian calendar (`Calendar`), with Python's
  `timedelta.days` flooring.
- **The background jobs** (`Utils`):
  - the exchange-rate refresh with its upserts, failure handling and the
    12-row default table;
  - the server converter `convert_currency` and the symbol placement of
    `format_currency`;
  - the hourly reminder sweep and the daily re-arm of reminders.
- **The request handlers' table logic** (`Routes`):
  - default reminders and reminder replacement;
  - the rates API;
  - dashboard and report spending totals and counts;
  - the order of the registration checks.
- **The logo fixer** (`FixLogos`): first-match, case-insensitive lookup and the
  update loop over subscriptions.
- **The browser scripts**:
  - `MainJs`: the client converter and currency formatter;
  - `I18n`: language selection, dotted-path translations and applying them to
    elements;
  - `ChartConfig`: the recursive option merge and the tooltip label.
  - `JsValues` is the JavaScript value type and truthiness they share.

Tables are sequences held by a `Database` object whose methods reassign
them. Subscriptions are objects updated in place. The clock is the parameter
`now`. The responses of the exchange-rate service are the parameter
`fetched`. The reminder sweep returns the emails it sends, in order; the
source logs and ignores mail errors, so every email counts as sent.
Amounts and rates are `real`.

Three behaviours of the code are easy to misread:

- **Month-based dates need not be in the future.** One might expect every
  recomputed date to lie strictly after `now`. The code guarantees that only
  for weekly cycles.
  - The monthly, quarterly, bi-annual and yearly branches build day
    `min(start.day, 28)` at midnight.
  - Example: a monthly subscription started on 31 January and recomputed at
    noon on 28 February gets 28 February 00:00 (`Models.MonthlyDateMayPrecedeNow`).
  - The weekly guarantee is `Models.WeeklyDateIsAfterNow`.
- **A stored date equal to `now` is kept.** The calculator keeps any stored
  date that is not before `now`, not only dates strictly in the future.
- **The two USD bridges disagree.** The server bridge divides by the from→USD
  rate (utils.py:126). The browser bridge multiplies by it
  (static/js/main.js:66-69).
  - With rates read as "one unit of base is worth `rate` units of target",
    the browser's bridge is the composition of its two legs
    (`MainJs.BridgeIsComposition`).
  - The server's bridge is that composition only in degenerate cases
    (`Utils.BridgeIsNotComposition`).
  - Both are modelled as written; `MainJs.ServerAndBrowserBridgesDisagree`
    shows a concrete input on which they differ.

## Model

| member | source | states |
|---|---|---|
| Calendar.DaysInMonth | models.py:69 | a month has 28 to 31 days, and 29 exactly in February of a leap year |
| Calendar.DaysBetween | models.py:59 | `(later - earlier).days`: the largest whole number of days not exceeding the elapsed time (floor, also when negative) |
| Calendar.YearLength | models.py:63 | a year has 366 days exactly when it is a leap year, 365 otherwise |
| Calendar.NextDayStep | models.py:63 | stepping one calendar day forward gives a valid date, one day number later, same time of day |
| Calendar.PrevDayStep | models.py:63 | stepping one calendar day back gives a valid date, one day number earlier, same time of day |
| Calendar.AddDaysShifts | models.py:63 | `start + timedelta(days=n)` is a valid date exactly `n` day numbers later, with the same time of day |
| Models.CycleNameRoundTrip | models.py:39 | storing a known cycle's name and parsing it back gives the cycle; any stored string reads back as itself |
| Models.NextPaymentDate | models.py:50-84 | the stored date after the calculator runs is always a valid date-time |
| Models.WeeklyDateIsAfterNow | models.py:59-63 | weekly: the date is `start + 7·(days_passed // 7 + 1)` days, keeps `start`'s time of day and lies strictly after `now` |
| Models.MonthBasedDate | models.py:64-82 | month-based cycles: the month index is `start`'s advanced by `(days_passed // period + 1)·{1,3,6,12}` months, the month lies in 1..12, the day is `min(start.day, 28)` and the time is midnight |
| Models.YearlyDate | models.py:80-82 | yearly: year `start.year + days_passed // 365 + 1`, month of `start` |
| Models.MonthlyDateMayPrecedeNow | models.py:64-69 | a monthly date recomputed on 28 February at noon for a 31 January start is 28 February 00:00, before `now` |
| Models.LifetimeYieldsNone | models.py:51-52 | lifetime: the stored date is untouched and the calculator returns `None` |
| Models.FutureDateKept | models.py:54 | a stored date not before `now` is kept and returned |
| Models.UnrecognizedCycleKeepsDate | models.py:61-82 | a cycle string matching no branch leaves the stored date as it was |
| Models.CalculationIdempotent | models.py:54-84 | a second call at the same `now` stores and returns what the first did |
| Models.Subscription.constructor | routes.py:190-199 | a new subscription is active, with no logo and no next date, holding the submitted fields |
| Models.Subscription.CalculateNextPaymentDate | models.py:50-84 | the method sets `next_payment_date` to the calculator's value and returns `None` for lifetime, the new stored date otherwise |
| Models.RecomputeDate | models.py:58-82 | the recompute branch stores exactly the date the calculator's specification gives for the cycle, and nothing for a cycle matching no branch |
| Models.FindSubscription | utils.py:160 | `Subscription.query.get(id)`: a subscription with that key, or none exactly when no row has it |
| Models.FindUser | utils.py:161 | `User.query.get(id)`: a user with that key, or none exactly when no row has it |
| Models.Database.constructor | app.py:20 | the tables start empty and valid |
| Utils.FindRow | utils.py:36-39 | `filter_by(base, target).first()`: the first row of the pair, or none exactly when no row has the pair |
| Utils.ConvertCurrency | utils.py:99-131 | the result is the amount times one factor fixed by the table and the two currencies: 1 for equal currencies, the first direct row's rate, `r2 / r1` over the USD bridge, 1 with no path; only the bridge needs a non-zero from→USD rate |
| Utils.ConvertCurrencyIsLinear | utils.py:99-131 | converting a sum is the sum of the conversions, and converting `c · a` is `c` times converting `a` |
| Utils.NoZeroRateToUsdCanConvert | utils.py:126 | a table without zero rates into USD makes every conversion defined |
| Utils.ConvertDirect | utils.py:104-110 | a stored direct rate wins, whatever the USD legs hold: the result is the amount times the first row's rate |
| Utils.ConvertBridge | utils.py:112-127 | with no direct rate and both legs stored, the result is `amount · r2 / r1` and `r1` is not zero |
| Utils.ConvertWithoutPath | utils.py:101-131 | equal currencies, or no direct rate and a missing leg, return the amount unchanged, whatever the legs hold |
| Utils.BridgeIsNotComposition | utils.py:124-127 | the bridge equals converting to USD and then from USD exactly when `amount·r2 = 0` or `r1·r1 = 1` |
| Utils.BridgeAgainstLegs | utils.py:124-127 | scaling by `r2 / r1` equals scaling by `r1` and then by `r2` exactly when `amount·r2 = 0` or `r1·r1 = 1` |
| Utils.ScaledByInverse | utils.py:124-127 | `x / r` equals `x · r` exactly when `x = 0` or `r·r = 1` |
| Utils.ScaledEqual | utils.py:124-127 | scaling two rates by the same amount keeps them apart unless the amount is zero |
| Utils.InverseIsSelf | utils.py:126 | dividing by a rate equals multiplying by it exactly when the rate squared is 1 |
| Utils.DefaultRatesCoverTrackedPairs | utils.py:66-86 | the defaults are 12 rows, one for each ordered pair of distinct tracked currencies, with no duplicates and no zero rate into USD |
| Utils.DefaultRowFor | utils.py:66-86 | the row for base `x` and target `y` sits at `3·x` plus `y`'s place among the other three tracked currencies |
| Utils.DefaultPairsAreTrackedPairs | utils.py:66-86 | the pairs of the default rows are exactly the ordered pairs of distinct tracked currencies |
| Utils.DefaultRoundTripDrifts | utils.py:68-73 | with the defaults 100 USD converts to 92 EUR, and 92 EUR back to 100.28 USD |
| Utils.MissingLegKeepsAmount | utils.py:117-131 | with no EUR→USD row, EUR to CZK returns the amount unchanged |
| Utils.FindRowAfterUpsert | utils.py:36-50 | after an upsert the pair's first row holds the new rate, and every other pair's first row is unchanged |
| Utils.UpsertPairs | utils.py:36-50 | an upsert adds only its own pair and never duplicates a pair |
| Utils.StoreRatesPairs | utils.py:33-50 | storing one response writes only pairs of the base with tracked targets other than itself, never removes rows and never duplicates a pair |
| Utils.StoreRatesKeepsOtherPairs | utils.py:33-50 | storing one response leaves the rates of all other pairs unchanged |
| Utils.StoreRatesStoresFetched | utils.py:33-42 | after a 200 response every tracked target other than the base that the response holds has the fetched rate |
| Utils.RefreshStoresFetched | utils.py:24-50 | when every base up to one got a response and that one got a 200, each tracked rate in it is stored for that base, whatever later bases bring |
| Utils.RefreshKeepsOtherBases | utils.py:24-50 | the refresh leaves the rates of a base it does not fetch unchanged |
| Utils.AfterFetchStoresFetched | utils.py:11-62 | the job's table holds every tracked rate of a 200 response that no earlier exception cut off |
| Utils.RefreshPairs | utils.py:16-58 | the refresh only adds tracked pairs, never removes rows and never duplicates a pair |
| Utils.RefreshStopsAtException | utils.py:16-58 | an exception for one base ends the refresh: the responses of later bases do not matter |
| Utils.AfterFetchKeepsNonEmptyTable | utils.py:60-62 | a table holding rows before the refresh is never replaced by the defaults |
| Utils.AfterFetchFallsBackWhenEmpty | utils.py:60-62 | an empty table whose fetches all fail receives exactly the 12 defaults |
| Utils.EmptyRefreshStaysEmpty | utils.py:28-55 | failed or non-200 fetches write nothing |
| Utils.UpsertRate | utils.py:36-50 | the table afterwards is the upsert of the fetched rate into the old table |
| Utils.AddDefaultExchangeRates | utils.py:64-96 | the 12 default rows are appended in order |
| Utils.FetchExchangeRates | utils.py:11-62 | the table afterwards is the refresh of the old table, or the defaults when that is empty |
| Utils.FormatCurrency | utils.py:133-147 | CZK and PLN put the symbol after the amount and a space, every other code in front; stripping the symbol from its place gives back the amount text |
| Utils.FormatCurrencyInjective | utils.py:133-147 | two amounts formatted in the same currency give the same text only when they are the same amount text |
| Utils.SweepReminder | utils.py:159-178 | one pass of the loop body: the reminder is marked sent exactly when it fires, and one email goes out exactly when it fires with email on and the user has an address |
| Utils.SweptAll | utils.py:159-178 | the swept list has the same length and every reminder is swept independently |
| Utils.SweepAll | utils.py:159-178 | the loop's reminders are the swept list and its emails are those of the firing reminders, in list order |
| Utils.CheckUpcomingReminders | utils.py:149-181 | the table becomes the swept list of the old table and the emails sent are those of the old table's firing reminders, in order; an already sent reminder is never touched (the source's `is_sent=False` filter) |
| Utils.SweptOnlySets | utils.py:157-178 | the sweep never clears a flag, and only a firing reminder changes, by setting `is_sent` |
| Utils.SecondSweepSendsNothing | utils.py:157-175 | when no reminder fires no email is sent |
| Utils.SweptDoesNotFire | utils.py:157-178 | a swept reminder does not fire again at the same time |
| Utils.RearmedReminderCases | utils.py:211-224 | a reminder of a re-armed subscription ends unsent, and one of an inactive, lifetime or dateless subscription is unchanged |
| Utils.RearmedIdsMembers | utils.py:211-218 | a key is re-armed exactly when some active, non-lifetime subscription with that key has a next date |
| Utils.RearmedAll | utils.py:219-222 | re-arming changes no field but `is_sent`, and a reminder ends sent exactly when it was sent and its subscription was not re-armed |
| Utils.RearmedAllTwice | utils.py:213-224 | clearing one subscription's reminders after another's equals clearing both at once |
| Utils.ClearSentFlags | utils.py:219-222 | exactly the reminders of the subscription get `is_sent = False`; all others and the order are unchanged |
| Utils.RearmedIdsSnoc | utils.py:211-224 | the re-armed keys of a longer list are those of the prefix plus the last subscription's key if it re-arms |
| Utils.RearmNext | utils.py:213-224 | one iteration: the subscription's date is recomputed if it is active, its reminders are cleared if the calculator returns a date, and the pass then covers one more subscription |
| Utils.ResetRemindersForNextPeriod | utils.py:206-224 | every active subscription's date is recomputed and nothing else of it changes; every reminder of a re-armed subscription is cleared, all others are unchanged |
| Routes.DefaultRemindersShape | routes.py:537-555 | none for lifetime; otherwise exactly three reminders, 1, 7 and 14 days ahead, email on, push off, unsent, for the same user and subscription |
| Routes.CreateSubscriptionReminders | routes.py:537-555 | the default reminders are appended to the table |
| Routes.Without | routes.py:272-274 | removing a subscription's reminders never lengthens the table |
| Routes.Of | routes.py:269 | a subscription's reminders are no more than the table holds |
| Routes.ManageReminders | routes.py:265-296 | a subscription the user does not own (404) changes nothing; otherwise its reminders are deleted and the form's are appended |
| Routes.OfConcat | routes.py:269 | selecting a subscription's reminders distributes over concatenation |
| Routes.WithoutConcat | routes.py:272-274 | removing a subscription's reminders distributes over concatenation |
| Routes.OfWithout | routes.py:272-274 | after deletion the subscription has no reminders, and deleting again changes nothing |
| Routes.OfAllSame | routes.py:284-292 | a list of one subscription's reminders is all of its reminders |
| Routes.FormRemindersBelong | routes.py:277-292 | the form creates `min(count, 3)` reminders, all for this user and subscription |
| Routes.ManagedReminders | routes.py:272-292 | afterwards the subscription's reminders are exactly the form's: at most 3, none for a count of 0 or less |
| Routes.ManagedKeepsOthers | routes.py:272-292 | every other subscription's reminders are unchanged |
| Routes.OfOtherId | routes.py:272-274 | deleting one subscription's reminders keeps every other subscription's |
| Routes.OfNone | routes.py:269 | a table with no reminder of the subscription selects none |
| Routes.GetExchangeRates | routes.py:509-530 | the keys are exactly USD, EUR, CZK and PLN, each with the reported rate |
| Routes.RateEntryCases | routes.py:516-528 | the base's own rate is 1.0, a missing pair gives 1.0, and a stored pair gives its first row's rate |
| Routes.MonthlyShareScales | routes.py:140-149 | weekly amounts count 4.33 times; monthly, quarterly, bi-annual and yearly shares times 1, 3, 6, 12 give the amount; other cycles add nothing |
| Routes.SumOverReportCycles | routes.py:341 | the monthly total is the sum of the five per-cycle figures |
| Routes.ExcludedAddNothing | routes.py:131-149 | inactive and lifetime subscriptions add nothing |
| Routes.MonthlySpending | routes.py:131-149 | the dashboard's figure is the sum of every subscription's converted, normalised share |
| Routes.CycleSpendingStep | routes.py:310-327 | one more subscription adds its converted, normalised share to the figure of its own cycle and to no other |
| Routes.AddToCycle | routes.py:318-327 | one branch of the `elif` chain: the cycle's figure grows by the monthly share of the amount, the other figures are unchanged, and a cycle outside the chain adds nothing |
| Routes.Reports | routes.py:307-342 | one figure per report cycle, the monthly total is their sum, and the yearly total is 12 times the monthly |
| Routes.ReportsTotalEqualsDashboard | routes.py:131-341 | the reports page's monthly total equals the dashboard's monthly spending |
| Routes.SumCountsKnownCycles | routes.py:156-159 | the per-cycle counts add up over the six known cycles |
| Routes.CountActiveWithCycle | routes.py:159 | the count of active subscriptions with that cycle |
| Routes.CountSubscriptions | routes.py:151-159 | total, active, and one count per known cycle |
| Routes.CountsBounded | routes.py:152-159 | active ≤ total; the cycle counts sum to at most the active count, with equality exactly when every active subscription has a known cycle |
| Routes.Register | routes.py:68-99 | a refused form changes nothing; an accepted one appends exactly one user with the form's fields and no reminders (`create_default_reminders` does nothing) |
| Routes.RegistrationOrder | routes.py:80-94 | mismatched passwords are reported first, then a taken username, then a taken email; an accepted registration keeps usernames and emails unique |
| FixLogos.ToLower | fix_logos.py:63 | lower-casing keeps the length and lower-cases each letter |
| FixLogos.FirstCharAbsent | fix_logos.py:65 | a key whose first letter is absent from the name does not occur in it |
| FixLogos.FirstMatch | fix_logos.py:64-66 | the index of the first key occurring in the name, or none exactly when no key occurs |
| FixLogos.LogoUrlForService | fix_logos.py:29-68 | the logo is the default or one of the table's logos |
| FixLogos.LogoUrlIsFirstMatch | fix_logos.py:63-66 | the first key in table order occurring in the lower-cased name decides the logo |
| FixLogos.LogoUrlWithoutMatch | fix_logos.py:68 | with no key occurring in the name the default logo is returned |
| FixLogos.LogoUrlIgnoresCase | fix_logos.py:63 | the lookup does not depend on the letter case of the name |
| FixLogos.EmptyNameGetsDefault | fix_logos.py:68 | the empty name gets the default logo |
| FixLogos.KeysNonEmpty | fix_logos.py:29-54 | every key of the table is non-empty |
| FixLogos.NoKeyInEmptyName | fix_logos.py:64-66 | no non-empty key occurs in the empty name |
| FixLogos.SubstringAt | fix_logos.py:65 | a key occurring in a name occurs at some position of it |
| FixLogos.SubstringFrom | fix_logos.py:65 | a key occurring at some position of a name is found by `in` |
| FixLogos.SubstringTransitive | fix_logos.py:65 | a key inside another key occurs in every name that one occurs in |
| FixLogos.ShadowedKeyNeverMatches | fix_logos.py:64-66 | a key containing an earlier key of the table is never the first match, for any name |
| FixLogos.AppleTvKeyNeverMatches | fix_logos.py:32-66 | the key "apple tv" never matches, because "apple" precedes it: "Apple TV" gets the Apple logo |
| FixLogos.Names | fix_logos.py:76-79 | the names of the subscriptions, position by position |
| FixLogos.Logos | fix_logos.py:76-79 | the logos of the subscriptions, position by position |
| FixLogos.IdealLogos | fix_logos.py:76-79 | every subscription is assigned a logo, the default or one from the table, and names equal up to letter case get the same logo |
| FixLogos.ChangedCountBounds | fix_logos.py:78-84 | the count is at most the number of subscriptions, and 0 exactly when every logo already is its name's |
| FixLogos.UpdateSubscriptionLogos | fix_logos.py:70-84 | afterwards every logo is the one its name calls for, no name changes, and the count is the number of logos that changed |
| FixLogos.UpdateSubscriptionLogosTwice | fix_logos.py:70-84 | running the fixer twice in a row: the first run fixes every logo and the second reports 0 |
| FixLogos.FixEach | fix_logos.py:76-81 | the loop sets every logo to the lookup's logo for its name (`get_logo_url_for_service`, position by position), keeps the names, and counts the positions that changed |
| FixLogos.FixLogo | fix_logos.py:78-81 | one subscription gets its name's logo, and the result says exactly whether that changed the stored logo |
| MainJs.ConvertSameCurrency | static/js/main.js:56-58 | equal currencies return the amount |
| MainJs.ConvertDirectRate | static/js/main.js:61-63 | a usable direct rate gives `amount · rate` |
| MainJs.ZeroRateIsAbsent | static/js/main.js:61-66 | a rate is used only when present and non-zero (the `&&` guards), so a stored zero rate converts exactly as if it were missing |
| MainJs.BridgeIsComposition | static/js/main.js:66-69 | the bridge multiplies by both legs and equals converting to USD and then from USD |
| MainJs.ConvertWithoutPath | static/js/main.js:71-73 | with no usable path the amount is returned unchanged |
| MainJs.ServerAndBrowserBridgesDisagree | static/js/main.js:66-69 | on the same two legs the browser converts 10 EUR to 60 CZK where the server gives 15 CZK |
| MainJs.CurrencySymbol | static/js/main.js:78-85 | the symbol is non-empty for a non-empty code |
| MainJs.FormatCurrencyAgreesWithServer | static/js/main.js:77-92 | for the same amount text, the browser places and spells the symbol exactly as `format_currency` does |
| I18n.LanguageState.constructor | static/js/i18n.js:4-16 | at load the page's user language wins, then the stored one, then 'en'; the language is never empty and storage is as read |
| I18n.LanguageState.ChangeLanguage | static/js/i18n.js:25-47 | 'en', 'pl' and 'cs' become current and are stored; any other value changes nothing |
| I18n.ChoiceSurvivesReload | static/js/i18n.js:4-28 | a stored supported choice is the next load's language unless the page names one |
| I18n.LanguageName | static/js/i18n.js:50-60 | the label is one of the three names, 'English' for any unknown code |
| I18n.Split | static/js/i18n.js:104 | `split('.')` gives at least one segment and no segment contains a dot |
| I18n.JoinSplit | static/js/i18n.js:104 | joining the segments of a path with dots gives the path back |
| I18n.SplitJoin | static/js/i18n.js:104 | splitting a join of dot-free segments gives the segments back |
| I18n.WalkFromNull | static/js/i18n.js:104 | once the reduce yields null it stays null |
| I18n.WalkIsLookup | static/js/i18n.js:103-105 | the reduce yields the value at the path when every segment reads an own property (object key, array or string index, `length`) that is truthy, and null as soon as one is missing or falsy |
| I18n.NestedTranslationAtPath | static/js/i18n.js:103-105 | `getNestedTranslation(obj, path)` is the value at the dotted path, or null |
| I18n.NestedTranslationThroughArray | static/js/i18n.js:104 | `key.i` reads element `i` of an array stored under `key` (null if that element is falsy) |
| I18n.NestedTranslationThroughString | static/js/i18n.js:104 | `key.length` reads the length of a non-empty string stored under `key`, counted in Unicode characters, and null for the empty string |
| I18n.WalkPair | static/js/i18n.js:104 | two steps of the reduce go through `p[a]` to `p[a][b]`, or give null as soon as one of them is falsy |
| I18n.SplitPair | static/js/i18n.js:104 | a path of two dot-free segments splits into exactly those two |
| I18n.ApplyTranslationTouchesOneField | static/js/i18n.js:85-98 | translating an element keeps its key and kind and changes at most one field: the placeholder of an input that has one, else the text, and only to a truthy translation |
| I18n.ApplyTranslationsIdempotent | static/js/i18n.js:81-100 | applying the same translations to every element twice equals applying them once |
| ChartConfig.ShallowCopy | static/js/chart-config.js:115 | `Object.assign({}, v)` is an object, and a plain object is copied as is |
| JsValues.NatToStringIsInjective | static/js/chart-config.js:115 | distinct indices give distinct property names |
| ChartConfig.Merged | static/js/chart-config.js:114-132 | the merge always yields an object |
| ChartConfig.DeepMerge | static/js/chart-config.js:114-132 | the loop over the source's keys yields the merged object |
| ChartConfig.PartlyMergedStep | static/js/chart-config.js:118-128 | merging one more source key writes its merged value over the partial output and leaves the other keys |
| ChartConfig.MergedKeys | static/js/chart-config.js:115-128 | for two objects the output has exactly the keys of both |
| ChartConfig.MergedValues | static/js/chart-config.js:115-128 | target-only keys keep their value; a non-object source value overrides; an object source value is copied when the target lacks the key and merged recursively otherwise |
| ChartConfig.MergedNonObject | static/js/chart-config.js:117-136 | if either argument is not a plain object (arrays and null included) the output is a shallow copy of the target |
| ChartConfig.MergeWithItself | static/js/chart-config.js:114-132 | merging an object into itself gives it back |
| ChartConfig.MergeIdempotent | static/js/chart-config.js:114-132 | merging the same source twice equals merging it once, when the target has an object wherever the source has one |
| ChartConfig.ObjectOverNumberIsDropped | static/js/chart-config.js:119-124 | an object option over a numeric default yields an empty object, dropping both |
| ChartConfig.CallerOptionsWin | static/js/chart-config.js:103 | a caller's non-object option overrides the default; without options the defaults stand |
| ChartConfig.CurrencyTooltip | static/js/chart-config.js:55-66 | the label is exactly: the dataset label and ": " when that label is non-empty, then the value, a space and the currency when the value is not null (fixed by a prefix, a suffix and the exact length) |
| ChartConfig.TooltipCurrency | static/js/chart-config.js:62 | never empty, and the page's currency whenever it names a non-empty one |
| ChartConfig.TooltipExamples | static/js/chart-config.js:55-66 | a labelled value reads "label: value currency", with USD when the page names no currency or an empty one; an empty label drops ": "; a null value leaves only the label |
| JsValues.NatToString | static/js/chart-config.js:115 | an index is rendered in decimal digits only, at least one, and with one exactly below 10 |
| JsValues.IndexKey | static/js/i18n.js:104 | a property name reads an element exactly when it is the decimal rendering of an index below the length |
| JsValues.Get | static/js/i18n.js:104 | `v[key]`: an object's property, an array's element, a string's character or the length of either (strings counted in Unicode characters), and `undefined` for any other name or value |
| JsValues.LengthIsNoIndex | static/js/i18n.js:104 | `"length"` never names an index |
| JsValues.NatToStringInjective | static/js/chart-config.js:115 | distinct indices have distinct decimal renderings |

## Left out

- HTTP: the exchange-rate service is replaced by one `FetchResult` per base (status and rates, or an exception).
- Mail: SMTP, the subject line and the email template are left out; the sweep returns each email's recipient, subscription name, days until payment and amount. Sending cannot fail, because the source logs and ignores mail errors.
- Flask plumbing is left out: routing, flash messages, sessions, login, password hashing and the next-page check. `Register` takes the new key `newId` and does not store a password.
- The scheduler and app configuration are left out; each job is a plain method call.
- CSV import and export, the favicon updater and the schema migrations are not part of this model.
- Number and date rendering are left out: `.2f`, `toFixed`, `Intl.NumberFormat` and `toLocaleDateString`. Formatters take the amount as text that is already rendered.
- Floating point: amounts and rates are exact `real`s, so the model has no rounding.
- Utils.ConvertCurrency: only the USD bridge divides, unguarded, so only there would a zero from→USD rate raise `ZeroDivisionError`; the function requires that rate to be non-zero only when the bridge is taken (`Utils.CanConvert`), and the exception is not modelled.
- Python's datetime range (years 1 to 9999) and its `OverflowError` are left out: the calendar is unbounded. Sub-second precision is left out too.
- `int()` of a malformed form field (which raises `ValueError`) is left out: `Routes.ReminderForm` carries integers.
- The database session is left out: rows are updated in the tables directly, and commits and rollbacks have no counterpart.
- The dashboard's call of the calculator for each subscription, and the "upcoming payments" queries of the dashboard and reports pages, are not part of this model.
- DOM, Chart.js, Bootstrap, `fetch` and `localStorage` calls are left out. The translation file and the meta-tag values are parameters.
- JavaScript numbers in `JsValues.Json` are integers. They are only tested for truthiness and used as property names.
- `in` and property reads on the prototype chain (`'toString' in {}`, `[].push`, `(5).toFixed`) are left out: reads see own properties only, which are an object's keys and an array's or a string's indices and `length`.
- JsValues.Get: a string is a sequence of Unicode scalar values, so string indices and `length` count characters where JavaScript counts UTF-16 code units. They differ on characters outside the Basic Multilingual Plane: `"😀".length` is 2 in the browser and 1 in the model, and `"😀"[1]` is a lone surrogate there and `undefined` here. The same holds for `ChartConfig.ShallowCopy`, which gives such a string one index key instead of two.
- I18n.NestedTranslationThroughString: the length it states is the number of Unicode characters, which is below the browser's `length` for a string holding characters outside the Basic Multilingual Plane (see `JsValues.Get` above).
- Object key order is left out. The merge treats each key independently, so the order does not change the result.
- Lower-casing covers ASCII letters only.
- FixLogos.UpdateSubscriptionLogos: its frame only lets it write `logoUrl`, so every other field is unchanged; its postcondition restates that only for the names.
- The calculator reads the clock twice (models.py:54 and models.py:59); the model takes one `now` for both reads, so a call straddling a day boundary is not modelled.
- Utils.CheckUpcomingReminders: the source reads the clock once per reminder (utils.py:170); the model gives the whole sweep one `now`, so a sweep straddling midnight is not modelled.
- Utils.ResetRemindersForNextPeriod: the source runs the calculator, and so reads the clock, once per subscription (utils.py:215); the model gives the whole pass one `now`.
- MainJs.FormatCurrencyAgreesWithServer: both formatters take the amount as rendered text, so the lemma says nothing about rendering: `toFixed(2)` (static/js/main.js:88-90) and `.2f` (utils.py:133-147) differ on ties such as 0.125 and on -0.0.
