/**
  The request handlers' own logic in routes.py, with the request form and the
  current user as parameters: default reminders for a new subscription, the
  replacement of a subscription's reminders, the exchange-rate table served to
  the browser, the spending and count figures of the dashboard and the
  reports page, and the validation order of registration.
*/
module Routes {
  import opened Optional
  import opened Calendar
  import opened Models
  import opened Utils

  // ---------------------------------------------------------------------------
  // create_subscription_reminders
  // ---------------------------------------------------------------------------

  /** Days ahead of a payment the default reminders fire. */
  const DefaultReminderDays: seq<int> := [1, 7, 14]

  /** The reminders a new subscription gets: none for lifetime, otherwise one per default day, email on, push off. */
  function DefaultReminders(userId: int, subscriptionId: int, cycle: Cycle): seq<Reminder> {
    if cycle == Lifetime then []
    else
      seq(|DefaultReminderDays|, k requires 0 <= k < |DefaultReminderDays| =>
        Reminder(userId, subscriptionId, DefaultReminderDays[k], true, false, false))
  }

  /** No reminders for lifetime; otherwise exactly three, 1, 7 and 14 days ahead, by email only and unsent. */
  lemma DefaultRemindersShape(userId: int, subscriptionId: int, cycle: Cycle)
    ensures var rs := DefaultReminders(userId, subscriptionId, cycle);
      && (cycle == Lifetime <==> |rs| == 0)
      && (cycle != Lifetime ==> |rs| == 3 && rs[0].daysBefore == 1 && rs[1].daysBefore == 7 && rs[2].daysBefore == 14)
      && forall r | r in rs ::
           && r.userId == userId && r.subscriptionId == subscriptionId
           && r.emailNotification && !r.pushNotification && !r.isSent
  {
  }

  /** `create_subscription_reminders(subscription)`. */
  method CreateSubscriptionReminders(db: Database, s: Subscription)
    modifies db`reminders
    ensures db.reminders == old(db.reminders) + DefaultReminders(s.userId, s.id, s.billingCycle)
  {
    if s.billingCycle == Lifetime {
      return;
    }
    var defaults := DefaultReminderDays;
    var k := 0;
    while k < |defaults|
      invariant 0 <= k <= |defaults|
      invariant db.reminders == old(db.reminders) + DefaultReminders(s.userId, s.id, s.billingCycle)[..k]
    {
      db.reminders := db.reminders + [Reminder(s.userId, s.id, defaults[k], true, false, false)];
      assert DefaultReminders(s.userId, s.id, s.billingCycle)[..k + 1]
        == DefaultReminders(s.userId, s.id, s.billingCycle)[..k] + [Reminder(s.userId, s.id, defaults[k], true, false, false)];
      k := k + 1;
    }
  }

  // ---------------------------------------------------------------------------
  // manage_reminders
  // ---------------------------------------------------------------------------

  /**
    The submitted reminder form: `reminderCount` when given, the
    `days_before_<i>` fields given, and the numbers `i` whose email and push
    check-boxes are ticked.
  */
  datatype ReminderForm = ReminderForm(
    reminderCount: Option<int>,
    daysBefore: map<int, int>,
    email: set<int>,
    push: set<int>)

  /** How many reminders the form creates: the count, at most 3, none if it is not positive. */
  function FormCount(form: ReminderForm): nat {
    var c := Min(form.reminderCount.GetOr(0), 3);
    if c < 0 then 0 else c
  }

  /** The `i`-th reminder (from 1) the form creates; `days_before` defaults to 7. */
  function FormReminder(userId: int, subscriptionId: int, form: ReminderForm, i: int): Reminder {
    var days := if i in form.daysBefore then form.daysBefore[i] else 7;
    Reminder(userId, subscriptionId, days, i in form.email, i in form.push, false)
  }

  /** The reminders the form creates, in order. */
  function FormReminders(userId: int, subscriptionId: int, form: ReminderForm): seq<Reminder> {
    seq(FormCount(form), k requires 0 <= k < FormCount(form) => FormReminder(userId, subscriptionId, form, k + 1))
  }

  /** The reminders that do not belong to subscription `id`, in order. */
  function Without(rs: seq<Reminder>, id: int): (r: seq<Reminder>)
    ensures |r| <= |rs|
  {
    if |rs| == 0 then []
    else Without(rs[..|rs| - 1], id) + (if rs[|rs| - 1].subscriptionId == id then [] else [rs[|rs| - 1]])
  }

  /** The reminders of subscription `id`, in order. */
  function Of(rs: seq<Reminder>, id: int): (r: seq<Reminder>)
    ensures |r| <= |rs|
  {
    if |rs| == 0 then []
    else Of(rs[..|rs| - 1], id) + (if rs[|rs| - 1].subscriptionId == id then [rs[|rs| - 1]] else [])
  }

  /** The signed-in user owns a subscription with this primary key (the `first_or_404` query). */
  predicate Owns(subs: seq<Subscription>, id: int, userId: int)
    reads subs
  {
    exists k :: 0 <= k < |subs| && subs[k].id == id && subs[k].userId == userId
  }

  /**
    A POST to `manage_reminders(subscriptionId)` by `userId`: unless the
    subscription is not the user's (404, nothing changes), every reminder of
    the subscription is deleted and the form's reminders are added.
  */
  method ManageReminders(db: Database, userId: int, subscriptionId: int, form: ReminderForm) returns (found: bool)
    requires db.Valid()
    modifies db`reminders
    ensures found <==> Owns(db.subscriptions, subscriptionId, userId)
    ensures db.reminders == if found
      then Without(old(db.reminders), subscriptionId) + FormReminders(userId, subscriptionId, form)
      else old(db.reminders)
  {
    var subscription := FindSubscription(db.subscriptions, subscriptionId);
    found := subscription.Some? && subscription.value.userId == userId;
    if !found {
      return;
    }
    var kept: seq<Reminder> := [];
    var i := 0;
    while i < |db.reminders|
      invariant 0 <= i <= |db.reminders|
      invariant kept == Without(db.reminders[..i], subscriptionId)
    {
      assert db.reminders[..i + 1][..i] == db.reminders[..i];
      if db.reminders[i].subscriptionId != subscriptionId {
        kept := kept + [db.reminders[i]];
      }
      i := i + 1;
    }
    assert db.reminders[..i] == db.reminders;
    db.reminders := kept;
    var count := Min(form.reminderCount.GetOr(0), 3);
    var n := 1;
    while n <= count
      invariant 1 <= n <= FormCount(form) + 1
      invariant db.reminders == kept + FormReminders(userId, subscriptionId, form)[..n - 1]
    {
      var days := if n in form.daysBefore then form.daysBefore[n] else 7;
      db.reminders := db.reminders + [Reminder(userId, subscriptionId, days, n in form.email, n in form.push, false)];
      assert FormReminders(userId, subscriptionId, form)[..n]
        == FormReminders(userId, subscriptionId, form)[..n - 1] + [FormReminder(userId, subscriptionId, form, n)];
      n := n + 1;
    }
    assert FormReminders(userId, subscriptionId, form)[..n - 1] == FormReminders(userId, subscriptionId, form);
  }

  lemma {:induction false} OfConcat(a: seq<Reminder>, b: seq<Reminder>, id: int)
    ensures Of(a + b, id) == Of(a, id) + Of(b, id)
    decreases |b|
  {
    if |b| == 0 {
      assert a + b == a;
    } else {
      var ab := a + b;
      assert ab[..|ab| - 1] == a + b[..|b| - 1];
      assert ab[|ab| - 1] == b[|b| - 1];
      OfConcat(a, b[..|b| - 1], id);
    }
  }

  lemma {:induction false} WithoutConcat(a: seq<Reminder>, b: seq<Reminder>, id: int)
    ensures Without(a + b, id) == Without(a, id) + Without(b, id)
    decreases |b|
  {
    if |b| == 0 {
      assert a + b == a;
    } else {
      var ab := a + b;
      assert ab[..|ab| - 1] == a + b[..|b| - 1];
      assert ab[|ab| - 1] == b[|b| - 1];
      WithoutConcat(a, b[..|b| - 1], id);
    }
  }

  lemma {:induction false} OfWithout(rs: seq<Reminder>, id: int)
    ensures Of(Without(rs, id), id) == []
    ensures Without(Without(rs, id), id) == Without(rs, id)
  {
    if |rs| > 0 {
      var last := rs[|rs| - 1];
      OfWithout(rs[..|rs| - 1], id);
      OfConcat(Without(rs[..|rs| - 1], id), if last.subscriptionId == id then [] else [last], id);
      WithoutConcat(Without(rs[..|rs| - 1], id), if last.subscriptionId == id then [] else [last], id);
      assert Of([last], id) == (if last.subscriptionId == id then [last] else []) by {
        assert [last][..0] == [];
      }
      assert Without([last], id) == (if last.subscriptionId == id then [] else [last]) by {
        assert [last][..0] == [];
      }
    }
  }

  lemma {:induction false} OfAllSame(rs: seq<Reminder>, id: int)
    requires forall x | x in rs :: x.subscriptionId == id
    ensures Of(rs, id) == rs && Without(rs, id) == []
  {
    if |rs| > 0 {
      OfAllSame(rs[..|rs| - 1], id);
      assert rs[..|rs| - 1] + [rs[|rs| - 1]] == rs;
    }
  }

  /** Every reminder the form creates belongs to the managed subscription. */
  lemma FormRemindersBelong(userId: int, subscriptionId: int, form: ReminderForm)
    ensures |FormReminders(userId, subscriptionId, form)| == FormCount(form) <= 3
    ensures forall x | x in FormReminders(userId, subscriptionId, form) :: x.subscriptionId == subscriptionId && x.userId == userId
  {
  }

  /**
    After managing, the subscription's reminders are exactly the form's:
    `min(count, 3)` of them, and none for a count of zero or less.
  */
  lemma ManagedReminders(rs: seq<Reminder>, userId: int, subscriptionId: int, form: ReminderForm)
    ensures var after := Without(rs, subscriptionId) + FormReminders(userId, subscriptionId, form);
      && Of(after, subscriptionId) == FormReminders(userId, subscriptionId, form)
      && |Of(after, subscriptionId)| == FormCount(form) <= 3
      && (form.reminderCount.GetOr(0) <= 0 ==> FormCount(form) == 0)
  {
    var f := FormReminders(userId, subscriptionId, form);
    FormRemindersBelong(userId, subscriptionId, form);
    OfConcat(Without(rs, subscriptionId), f, subscriptionId);
    OfWithout(rs, subscriptionId);
    OfAllSame(f, subscriptionId);
  }

  /** Managing one subscription's reminders leaves every other subscription's reminders as they were. */
  lemma ManagedKeepsOthers(rs: seq<Reminder>, userId: int, subscriptionId: int, form: ReminderForm, id: int)
    requires id != subscriptionId
    ensures Of(Without(rs, subscriptionId) + FormReminders(userId, subscriptionId, form), id) == Of(rs, id)
  {
    var f := FormReminders(userId, subscriptionId, form);
    FormRemindersBelong(userId, subscriptionId, form);
    OfConcat(Without(rs, subscriptionId), f, id);
    OfOtherId(rs, subscriptionId, id);
    OfNone(f, id);
  }

  lemma {:induction false} OfOtherId(rs: seq<Reminder>, removed: int, id: int)
    requires removed != id
    ensures Of(Without(rs, removed), id) == Of(rs, id)
  {
    if |rs| > 0 {
      var last := rs[|rs| - 1];
      OfOtherId(rs[..|rs| - 1], removed, id);
      OfConcat(Without(rs[..|rs| - 1], removed), if last.subscriptionId == removed then [] else [last], id);
      assert [last][..0] == [];
    }
  }

  lemma {:induction false} OfNone(rs: seq<Reminder>, id: int)
    requires forall x | x in rs :: x.subscriptionId != id
    ensures Of(rs, id) == []
  {
    if |rs| > 0 {
      OfNone(rs[..|rs| - 1], id);
    }
  }

  // ---------------------------------------------------------------------------
  // get_exchange_rates
  // ---------------------------------------------------------------------------

  /** The rate the API reports from `base` to `target`: 1.0 for the base itself and for a pair with no row. */
  function RateEntry(table: seq<ExchangeRate>, base: string, target: string): real {
    if target == base then 1.0 else FindRate(table, base, target).GetOr(1.0)
  }

  /** `GET /api/exchange_rates?base=<base>`: a rate for each tracked currency. */
  method GetExchangeRates(table: seq<ExchangeRate>, base: string) returns (rates: map<string, real>)
    ensures rates.Keys == set t | t in Tracked
    ensures forall t | t in Tracked :: rates[t] == RateEntry(table, base, t)
  {
    rates := map[];
    var i := 0;
    while i < |Tracked|
      invariant 0 <= i <= |Tracked|
      invariant rates.Keys == set t | t in Tracked[..i]
      invariant forall t | t in Tracked[..i] :: rates[t] == RateEntry(table, base, t)
    {
      var target := Tracked[i];
      if target == base {
        rates := rates[target := 1.0];
      } else {
        var stored := FindRate(table, base, target);
        if stored.Some? {
          rates := rates[target := stored.value];
        } else {
          rates := rates[target := 1.0];
        }
      }
      assert Tracked[..i + 1] == Tracked[..i] + [target];
      i := i + 1;
    }
    assert Tracked[..i] == Tracked;
  }

  /** Each reported rate is the stored one when a row exists, 1.0 otherwise, and 1.0 for the base. */
  lemma RateEntryCases(table: seq<ExchangeRate>, base: string, target: string)
    ensures target == base ==> RateEntry(table, base, target) == 1.0
    ensures target != base && FindRow(table, base, target).None? ==> RateEntry(table, base, target) == 1.0
    ensures target != base && FindRow(table, base, target).Some? ==>
      RateEntry(table, base, target) == table[FindRow(table, base, target).value].rate
  {
  }

  // ---------------------------------------------------------------------------
  // Spending figures of dashboard and reports
  // ---------------------------------------------------------------------------

  /** The cycles the reports page breaks spending down by. */
  const ReportCycles: seq<Cycle> := [Weekly, Monthly, Quarterly, BiAnnually, Yearly]

  /** The monthly equivalent of one payment of `amount` per period of `c` (4.33 weeks a month); nothing for other cycles. */
  function MonthlyShare(c: Cycle, amount: real): real {
    match c
    case Weekly => amount * 4.33
    case Monthly => amount
    case Quarterly => amount / 3.0
    case BiAnnually => amount / 6.0
    case Yearly => amount / 12.0
    case _ => 0.0
  }

  /** A month-based cycle's share times its months is the payment; weekly is 4.33 payments; other cycles add nothing. */
  lemma MonthlyShareScales(c: Cycle, amount: real)
    ensures c == Monthly || c == Quarterly || c == BiAnnually || c == Yearly ==>
      MonthlyShare(c, amount) * (PeriodMonths(c) as real) == amount
    ensures c == Weekly ==> MonthlyShare(c, amount) == 4.33 * amount
    ensures c !in ReportCycles ==> MonthlyShare(c, amount) == 0.0
  {
  }

  /** The conversion of every counted subscription's amount is defined. */
  predicate Convertible(table: seq<ExchangeRate>, subs: seq<Subscription>, preferred: string)
    reads subs
  {
    forall k :: 0 <= k < |subs| && subs[k].isActive && subs[k].billingCycle != Lifetime ==> CanConvert(table, subs[k].currency, preferred)
  }

  /** What one subscription adds to the monthly figure, in the `preferred` currency. */
  function Contribution(table: seq<ExchangeRate>, s: Subscription, preferred: string): real
    requires s.isActive && s.billingCycle != Lifetime ==> CanConvert(table, s.currency, preferred)
    reads s
  {
    if s.isActive && s.billingCycle != Lifetime
    then MonthlyShare(s.billingCycle, ConvertCurrency(table, s.amount, s.currency, preferred))
    else 0.0
  }

  /** The dashboard's monthly spending over `subs`. */
  function SpendingTotal(table: seq<ExchangeRate>, subs: seq<Subscription>, preferred: string): real
    requires Convertible(table, subs, preferred)
    reads subs
  {
    if |subs| == 0 then 0.0
    else SpendingTotal(table, subs[..|subs| - 1], preferred) + Contribution(table, subs[|subs| - 1], preferred)
  }

  /** The reports page's monthly spending on subscriptions of cycle `c`. */
  function CycleSpending(table: seq<ExchangeRate>, subs: seq<Subscription>, c: Cycle, preferred: string): real
    requires Convertible(table, subs, preferred)
    reads subs
  {
    if |subs| == 0 then 0.0
    else
      var s := subs[|subs| - 1];
      CycleSpending(table, subs[..|subs| - 1], c, preferred) + (if s.billingCycle == c then Contribution(table, s, preferred) else 0.0)
  }

  /** The sum of the per-cycle figures over `cycles`. */
  function SumOverCycles(table: seq<ExchangeRate>, subs: seq<Subscription>, cycles: seq<Cycle>, preferred: string): real
    requires Convertible(table, subs, preferred)
    reads subs
  {
    if |cycles| == 0 then 0.0
    else SumOverCycles(table, subs, cycles[..|cycles| - 1], preferred) + CycleSpending(table, subs, cycles[|cycles| - 1], preferred)
  }

  lemma SumOverReportCycles(table: seq<ExchangeRate>, subs: seq<Subscription>, preferred: string)
    requires Convertible(table, subs, preferred)
    ensures SumOverCycles(table, subs, ReportCycles, preferred)
      == CycleSpending(table, subs, Weekly, preferred) + CycleSpending(table, subs, Monthly, preferred)
         + CycleSpending(table, subs, Quarterly, preferred) + CycleSpending(table, subs, BiAnnually, preferred)
         + CycleSpending(table, subs, Yearly, preferred)
  {
    var rc, t, p := ReportCycles, table, preferred;
    assert rc[..1][..0] == [] && rc[..2][..1] == rc[..1] && rc[..3][..2] == rc[..2];
    assert rc[..4][..3] == rc[..3] && rc[..5][..4] == rc[..4] && rc[..5] == rc;
    assert SumOverCycles(t, subs, rc[..1], p) == CycleSpending(t, subs, Weekly, p);
    assert SumOverCycles(t, subs, rc[..2], p) == SumOverCycles(t, subs, rc[..1], p) + CycleSpending(t, subs, Monthly, p);
    assert SumOverCycles(t, subs, rc[..3], p) == SumOverCycles(t, subs, rc[..2], p) + CycleSpending(t, subs, Quarterly, p);
    assert SumOverCycles(t, subs, rc[..4], p) == SumOverCycles(t, subs, rc[..3], p) + CycleSpending(t, subs, BiAnnually, p);
    assert SumOverCycles(t, subs, rc[..5], p) == SumOverCycles(t, subs, rc[..4], p) + CycleSpending(t, subs, Yearly, p);
  }

  /** Inactive and lifetime subscriptions add nothing to either figure. */
  lemma ExcludedAddNothing(table: seq<ExchangeRate>, s: Subscription, preferred: string)
    requires !s.isActive || s.billingCycle == Lifetime
    ensures Contribution(table, s, preferred) == 0.0
  {
  }

  /** The dashboard's monthly spending (routes.py:131-149). */
  method MonthlySpending(table: seq<ExchangeRate>, subs: seq<Subscription>, preferred: string) returns (total: real)
    requires Convertible(table, subs, preferred)
    ensures total == SpendingTotal(table, subs, preferred)
  {
    total := 0.0;
    var i := 0;
    while i < |subs|
      invariant 0 <= i <= |subs|
      invariant total == SpendingTotal(table, subs[..i], preferred)
    {
      var s := subs[i];
      assert subs[..i + 1][..i] == subs[..i];
      if s.isActive && s.billingCycle != Lifetime {
        var amount := ConvertCurrency(table, s.amount, s.currency, preferred);
        match s.billingCycle {
          case Weekly => total := total + amount * 4.33;
          case Monthly => total := total + amount;
          case Quarterly => total := total + amount / 3.0;
          case BiAnnually => total := total + amount / 6.0;
          case Yearly => total := total + amount / 12.0;
          case _ =>
        }
      }
      i := i + 1;
    }
    assert subs[..i] == subs;
  }

  /** One more subscription adds its contribution to the figure of its own cycle only. */
  lemma CycleSpendingStep(table: seq<ExchangeRate>, subs: seq<Subscription>, i: int, preferred: string)
    requires Convertible(table, subs, preferred) && 0 <= i < |subs|
    ensures Convertible(table, subs[..i], preferred) && Convertible(table, subs[..i + 1], preferred)
    ensures forall c :: (CycleSpending(table, subs[..i + 1], c, preferred)
      == CycleSpending(table, subs[..i], c, preferred) + (if subs[i].billingCycle == c then Contribution(table, subs[i], preferred) else 0.0))
  {
    assert subs[..i + 1][..i] == subs[..i];
  }

  /** One `spending_by_cycle[...] +=` of the reports loop: the monthly share of `amount` goes to `cycle`'s figure. */
  function AddToCycle(byCycle: map<Cycle, real>, cycle: Cycle, amount: real): (r: map<Cycle, real>)
    requires forall c | c in ReportCycles :: c in byCycle
    ensures r.Keys == byCycle.Keys
    ensures forall c | c in ReportCycles :: r[c] == byCycle[c] + (if cycle == c then MonthlyShare(cycle, amount) else 0.0)
  {
    match cycle
    case Weekly => byCycle[Weekly := byCycle[Weekly] + amount * 4.33]
    case Monthly => byCycle[Monthly := byCycle[Monthly] + amount]
    case Quarterly => byCycle[Quarterly := byCycle[Quarterly] + amount / 3.0]
    case BiAnnually => byCycle[BiAnnually := byCycle[BiAnnually] + amount / 6.0]
    case Yearly => byCycle[Yearly := byCycle[Yearly] + amount / 12.0]
    case _ => byCycle
  }

  /** The reports page's figures: spending per cycle, the monthly total and the yearly total (routes.py:307-342). */
  method Reports(table: seq<ExchangeRate>, subs: seq<Subscription>, preferred: string)
    returns (byCycle: map<Cycle, real>, totalMonthly: real, totalYearly: real)
    requires Convertible(table, subs, preferred)
    ensures byCycle.Keys == set c | c in ReportCycles
    ensures forall c | c in ReportCycles :: byCycle[c] == CycleSpending(table, subs, c, preferred)
    ensures totalMonthly == SumOverCycles(table, subs, ReportCycles, preferred)
    ensures totalYearly == totalMonthly * 12.0
  {
    byCycle := map[Weekly := 0.0, Monthly := 0.0, Quarterly := 0.0, BiAnnually := 0.0, Yearly := 0.0];
    var i := 0;
    while i < |subs|
      invariant 0 <= i <= |subs|
      invariant byCycle.Keys == set c | c in ReportCycles
      invariant forall c | c in ReportCycles :: byCycle[c] == CycleSpending(table, subs[..i], c, preferred)
    {
      CycleSpendingStep(table, subs, i, preferred);
      var s := subs[i];
      if s.isActive && s.billingCycle != Lifetime {
        var amount := ConvertCurrency(table, s.amount, s.currency, preferred);
        byCycle := AddToCycle(byCycle, s.billingCycle, amount);
      }
      i := i + 1;
    }
    assert subs[..i] == subs;
    totalMonthly := 0.0;
    var j := 0;
    while j < |ReportCycles|
      invariant 0 <= j <= |ReportCycles|
      invariant totalMonthly == SumOverCycles(table, subs, ReportCycles[..j], preferred)
    {
      assert ReportCycles[..j + 1][..j] == ReportCycles[..j];
      totalMonthly := totalMonthly + byCycle[ReportCycles[j]];
      j := j + 1;
    }
    assert ReportCycles[..j] == ReportCycles;
    totalYearly := totalMonthly * 12.0;
  }

  /** The reports page's monthly total equals the dashboard's monthly spending. */
  lemma {:induction false} ReportsTotalEqualsDashboard(table: seq<ExchangeRate>, subs: seq<Subscription>, preferred: string)
    requires Convertible(table, subs, preferred)
    ensures SumOverCycles(table, subs, ReportCycles, preferred) == SpendingTotal(table, subs, preferred)
  {
    SumOverReportCycles(table, subs, preferred);
    if |subs| > 0 {
      var prefix, s := subs[..|subs| - 1], subs[|subs| - 1];
      ReportsTotalEqualsDashboard(table, prefix, preferred);
      SumOverReportCycles(table, prefix, preferred);
      assert s.billingCycle !in ReportCycles ==> Contribution(table, s, preferred) == 0.0;
    }
  }

  // ---------------------------------------------------------------------------
  // Subscription counts of the dashboard
  // ---------------------------------------------------------------------------

  /** The number of active subscriptions. */
  function ActiveCount(subs: seq<Subscription>): nat
    reads subs
  {
    if |subs| == 0 then 0
    else ActiveCount(subs[..|subs| - 1]) + (if subs[|subs| - 1].isActive then 1 else 0)
  }

  /** The number of active subscriptions with cycle `c`. */
  function CycleCount(subs: seq<Subscription>, c: Cycle): nat
    reads subs
  {
    if |subs| == 0 then 0
    else
      var s := subs[|subs| - 1];
      CycleCount(subs[..|subs| - 1], c) + (if s.isActive && s.billingCycle == c then 1 else 0)
  }

  /** The sum of the per-cycle counts over `cycles`. */
  function SumCounts(subs: seq<Subscription>, cycles: seq<Cycle>): nat
    reads subs
  {
    if |cycles| == 0 then 0 else SumCounts(subs, cycles[..|cycles| - 1]) + CycleCount(subs, cycles[|cycles| - 1])
  }

  lemma SumCountsKnownCycles(subs: seq<Subscription>)
    ensures SumCounts(subs, KnownCycles)
      == CycleCount(subs, Weekly) + CycleCount(subs, Monthly) + CycleCount(subs, Quarterly)
         + CycleCount(subs, BiAnnually) + CycleCount(subs, Yearly) + CycleCount(subs, Lifetime)
  {
    var kc := KnownCycles;
    assert kc[..1][..0] == [] && kc[..2][..1] == kc[..1] && kc[..3][..2] == kc[..2];
    assert kc[..4][..3] == kc[..3] && kc[..5][..4] == kc[..4] && kc[..6][..5] == kc[..5] && kc[..6] == kc;
    assert SumCounts(subs, kc[..1]) == CycleCount(subs, Weekly);
    assert SumCounts(subs, kc[..2]) == SumCounts(subs, kc[..1]) + CycleCount(subs, Monthly);
    assert SumCounts(subs, kc[..3]) == SumCounts(subs, kc[..2]) + CycleCount(subs, Quarterly);
    assert SumCounts(subs, kc[..4]) == SumCounts(subs, kc[..3]) + CycleCount(subs, BiAnnually);
    assert SumCounts(subs, kc[..5]) == SumCounts(subs, kc[..4]) + CycleCount(subs, Yearly);
    assert SumCounts(subs, kc[..6]) == SumCounts(subs, kc[..5]) + CycleCount(subs, Lifetime);
  }

  /** `sum(1 for sub in subscriptions if sub.billing_cycle == c and sub.is_active)`. */
  method CountActiveWithCycle(subs: seq<Subscription>, c: Cycle) returns (n: nat)
    ensures n == CycleCount(subs, c)
  {
    n := 0;
    var i := 0;
    while i < |subs|
      invariant 0 <= i <= |subs|
      invariant n == CycleCount(subs[..i], c)
    {
      assert subs[..i + 1][..i] == subs[..i];
      if subs[i].billingCycle == c && subs[i].isActive {
        n := n + 1;
      }
      i := i + 1;
    }
    assert subs[..i] == subs;
  }

  /** The dashboard's counts: all subscriptions, active ones, and active ones per cycle (routes.py:151-159). */
  method CountSubscriptions(subs: seq<Subscription>) returns (total: nat, active: nat, cycleCounts: map<Cycle, nat>)
    ensures total == |subs| && active == ActiveCount(subs)
    ensures cycleCounts.Keys == set c | c in KnownCycles
    ensures forall c | c in KnownCycles :: cycleCounts[c] == CycleCount(subs, c)
  {
    total := |subs|;
    active := 0;
    var i := 0;
    while i < |subs|
      invariant 0 <= i <= |subs|
      invariant active == ActiveCount(subs[..i])
    {
      assert subs[..i + 1][..i] == subs[..i];
      if subs[i].isActive {
        active := active + 1;
      }
      i := i + 1;
    }
    assert subs[..i] == subs;
    cycleCounts := map[];
    var j := 0;
    while j < |KnownCycles|
      invariant 0 <= j <= |KnownCycles|
      invariant cycleCounts.Keys == set c | c in KnownCycles[..j]
      invariant forall c | c in KnownCycles[..j] :: cycleCounts[c] == CycleCount(subs, c)
    {
      var cycle := KnownCycles[j];
      var n := CountActiveWithCycle(subs, cycle);
      cycleCounts := cycleCounts[cycle := n];
      assert KnownCycles[..j + 1] == KnownCycles[..j] + [cycle];
      j := j + 1;
    }
    assert KnownCycles[..j] == KnownCycles;
  }

  /**
    Active subscriptions are at most all of them, and the per-cycle counts add
    up to at most the active ones, exactly when no active subscription has an
    unrecognised cycle.
  */
  lemma {:induction false} CountsBounded(subs: seq<Subscription>)
    ensures ActiveCount(subs) <= |subs|
    ensures SumCounts(subs, KnownCycles) <= ActiveCount(subs)
    ensures SumCounts(subs, KnownCycles) == ActiveCount(subs)
      <==> forall k :: 0 <= k < |subs| && subs[k].isActive ==> subs[k].billingCycle in KnownCycles
  {
    SumCountsKnownCycles(subs);
    if |subs| > 0 {
      var prefix, s := subs[..|subs| - 1], subs[|subs| - 1];
      CountsBounded(prefix);
      SumCountsKnownCycles(prefix);
      assert forall k :: 0 <= k < |prefix| ==> prefix[k] == subs[k];
    }
  }

  // ---------------------------------------------------------------------------
  // register
  // ---------------------------------------------------------------------------

  /** The submitted registration form; a missing language or currency field is `None`. */
  datatype RegistrationForm = RegistrationForm(
    username: string,
    email: string,
    password: string,
    confirmPassword: string,
    language: Option<string>,
    preferredCurrency: Option<string>)

  /** Why a registration is refused. */
  datatype RegistrationError = PasswordsDiffer | UsernameTaken | EmailTaken

  predicate HasUsername(users: seq<User>, username: string) {
    exists k :: 0 <= k < |users| && users[k].username == username
  }

  predicate HasEmail(users: seq<User>, email: string) {
    exists k :: 0 <= k < |users| && users[k].email == email
  }

  /** The first check that refuses the form, in the order the handler makes them. */
  function RegistrationCheck(users: seq<User>, form: RegistrationForm): Option<RegistrationError> {
    if form.password != form.confirmPassword then Some(PasswordsDiffer)
    else if HasUsername(users, form.username) then Some(UsernameTaken)
    else if HasEmail(users, form.email) then Some(EmailTaken)
    else None
  }

  /** Usernames and emails are each held by at most one user, and ids are distinct. */
  predicate UniqueAccounts(users: seq<User>) {
    forall i, j :: 0 <= i < j < |users| ==>
      users[i].id != users[j].id && users[i].username != users[j].username && users[i].email != users[j].email
  }

  /**
    A POST to `register`, with `newId` the key the database assigns: a refused
    form changes nothing; an accepted one appends the user with language
    defaulting to `en` and currency to `USD`.
  */
  method Register(db: Database, form: RegistrationForm, newId: int) returns (error: Option<RegistrationError>)
    requires forall k :: 0 <= k < |db.users| ==> db.users[k].id != newId
    modifies db`users
    ensures error == RegistrationCheck(old(db.users), form)
    ensures error.Some? ==> db.users == old(db.users)
    ensures error.None? ==> db.users == old(db.users) + [User(newId, form.username, form.email,
      form.language.GetOr("en"), form.preferredCurrency.GetOr("USD"))]
  {
    error := RegistrationCheck(db.users, form);
    if error.None? {
      var user := User(newId, form.username, form.email, form.language.GetOr("en"), form.preferredCurrency.GetOr("USD"));
      db.users := db.users + [user];
    }
  }

  /**
    The checks are ordered: mismatched passwords are reported whatever the
    accounts, a taken username before a taken email, and a form passing all
    three keeps usernames and emails unique.
  */
  lemma RegistrationOrder(users: seq<User>, form: RegistrationForm, newId: int)
    ensures form.password != form.confirmPassword ==> RegistrationCheck(users, form) == Some(PasswordsDiffer)
    ensures form.password == form.confirmPassword && HasUsername(users, form.username) ==>
      RegistrationCheck(users, form) == Some(UsernameTaken)
    ensures RegistrationCheck(users, form) == Some(EmailTaken) ==>
      form.password == form.confirmPassword && !HasUsername(users, form.username) && HasEmail(users, form.email)
    ensures UniqueAccounts(users) && RegistrationCheck(users, form).None? && (forall k :: 0 <= k < |users| ==> users[k].id != newId) ==>
      UniqueAccounts(users + [User(newId, form.username, form.email, form.language.GetOr("en"), form.preferredCurrency.GetOr("USD"))])
  {
  }
}
