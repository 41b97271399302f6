/**
  The stored entities (models.py): users, subscriptions with their billing
  cycle, reminders and directed exchange rates, the persistence layer as one
  object holding the tables, and the billing-cycle calculator
  `Subscription.calculate_next_payment_date`.
*/
module Models {
  import opened Optional
  import opened Calendar

  /** The `billing_cycle` column; any other string the column may hold is `Unrecognized`. */
  datatype Cycle = Weekly | Monthly | Quarterly | BiAnnually | Yearly | Lifetime | Unrecognized(name: string)

  /** The string stored in the column for a cycle. */
  function CycleName(c: Cycle): string {
    match c
    case Weekly => "weekly"
    case Monthly => "monthly"
    case Quarterly => "quarterly"
    case BiAnnually => "bi-annually"
    case Yearly => "yearly"
    case Lifetime => "lifetime"
    case Unrecognized(name) => name
  }

  /** Reading the column back into a cycle. */
  function ParseCycle(s: string): Cycle {
    if s == "weekly" then Weekly
    else if s == "monthly" then Monthly
    else if s == "quarterly" then Quarterly
    else if s == "bi-annually" then BiAnnually
    else if s == "yearly" then Yearly
    else if s == "lifetime" then Lifetime
    else Unrecognized(s)
  }

  /** The cycles the application offers. */
  const KnownCycles: seq<Cycle> := [Weekly, Monthly, Quarterly, BiAnnually, Yearly, Lifetime]

  /** Storing a cycle's name and reading it back gives the cycle, and every string reads back as itself. */
  lemma CycleNameRoundTrip(c: Cycle, s: string)
    ensures c in KnownCycles ==> ParseCycle(CycleName(c)) == c
    ensures CycleName(ParseCycle(s)) == s
  {
  }

  /** A registered account (`User`); the password hash is not part of this model. */
  datatype User = User(id: int, username: string, email: string, language: string, preferredCurrency: string)

  /** A `Reminder` row: notify `daysBefore` days ahead of the subscription's next payment. */
  datatype Reminder = Reminder(
    userId: int,
    subscriptionId: int,
    daysBefore: int,
    emailNotification: bool,
    pushNotification: bool,
    isSent: bool)

  /** An `ExchangeRate` row: one unit of `base` is worth `rate` units of `target`. */
  datatype ExchangeRate = ExchangeRate(base: string, target: string, rate: real, updatedAt: DateTime)

  function Min(a: int, b: int): int {
    if a <= b then a else b
  }

  /** Nominal length in days of one period of a recurring cycle. */
  function PeriodDays(c: Cycle): int
    requires c in KnownCycles && c != Lifetime
  {
    match c
    case Weekly => 7
    case Monthly => 30
    case Quarterly => 90
    case BiAnnually => 182
    case Yearly => 365
  }

  /** Months one period of a month-based cycle advances the calendar by. */
  function PeriodMonths(c: Cycle): int
    requires c == Monthly || c == Quarterly || c == BiAnnually || c == Yearly
  {
    match c
    case Monthly => 1
    case Quarterly => 3
    case BiAnnually => 6
    case Yearly => 12
  }

  /** Months since January of year 0: consecutive months have consecutive indices. */
  function MonthIndex(d: DateTime): int {
    d.year * 12 + d.month - 1
  }

  /**
    The date the calculator computes from `start` when it does not keep the
    stored one: weekly dates add whole weeks to `start`, the month-based
    cycles build a midnight date on day `min(start.day, 28)`. `None` when no
    branch matches the cycle (lifetime and unrecognised strings).
  */
  function RecomputedDate(start: DateTime, cycle: Cycle, now: DateTime): Option<DateTime>
    requires Valid(start) && Valid(now)
  {
    var daysPassed := DaysBetween(now, start);
    match cycle
    case Weekly =>
      Some(AddDays(start, (daysPassed / 7 + 1) * 7))
    case Monthly =>
      var monthsPassed := daysPassed / 30;
      var index := start.month - 1 + monthsPassed + 1;
      Some(DateTime(start.year + index / 12, index % 12 + 1, Min(start.day, 28), 0))
    case Quarterly =>
      var quartersPassed := daysPassed / 90;
      var index := start.month - 1 + (quartersPassed + 1) * 3;
      Some(DateTime(start.year + index / 12, index % 12 + 1, Min(start.day, 28), 0))
    case BiAnnually =>
      var halfYearsPassed := daysPassed / 182;
      var index := start.month - 1 + (halfYearsPassed + 1) * 6;
      Some(DateTime(start.year + index / 12, index % 12 + 1, Min(start.day, 28), 0))
    case Yearly =>
      var yearsPassed := daysPassed / 365;
      Some(DateTime(start.year + yearsPassed + 1, start.month, Min(start.day, 28), 0))
    case Lifetime => None
    case Unrecognized(_) => None
  }

  /** Whether the stored date is missing or already in the past, so the calculator recomputes. */
  predicate NeedsRecompute(stored: Option<DateTime>, now: DateTime)
    requires stored.Some? ==> Valid(stored.value)
    requires Valid(now)
  {
    stored.None? || Before(stored.value, now)
  }

  /** The value of `next_payment_date` after `calculate_next_payment_date` runs at `now`. */
  function NextPaymentDate(stored: Option<DateTime>, start: DateTime, cycle: Cycle, now: DateTime): (r: Option<DateTime>)
    requires stored.Some? ==> Valid(stored.value)
    requires Valid(start) && Valid(now)
    ensures r.Some? ==> Valid(r.value)
  {
    if cycle == Lifetime || !NeedsRecompute(stored, now) then stored
    else match RecomputedDate(start, cycle, now)
      case Some(d) =>
        if cycle == Weekly then WeeklyDateIsAfterNow(start, now); Some(d)
        else MonthBasedDate(start, cycle, now); Some(d)
      case None => stored
  }

  /** What `calculate_next_payment_date` returns: `None` for lifetime, the (new) stored date otherwise. */
  function CalculatedDate(stored: Option<DateTime>, start: DateTime, cycle: Cycle, now: DateTime): Option<DateTime>
    requires stored.Some? ==> Valid(stored.value)
    requires Valid(start) && Valid(now)
  {
    if cycle == Lifetime then None else NextPaymentDate(stored, start, cycle, now)
  }

  /**
    Weekly: the recomputed date is `start` plus `7·(daysPassed / 7 + 1)` days,
    keeps `start`'s time of day, and lies strictly after `now`.
  */
  lemma WeeklyDateIsAfterNow(start: DateTime, now: DateTime)
    requires Valid(start) && Valid(now)
    ensures var r := RecomputedDate(start, Weekly, now);
      && r.Some? && Valid(r.value)
      && DayNumber(r.value) == DayNumber(start) + 7 * (DaysBetween(now, start) / 7 + 1)
      && r.value.second == start.second
      && Before(now, r.value)
  {
    var daysPassed := DaysBetween(now, start);
    var n := (daysPassed / 7 + 1) * 7;
    AddDaysShifts(start, n);
    var r := AddDays(start, n);
    assert n >= daysPassed + 1;
    assert Instant(r) == Instant(start) + n * SecondsPerDay;
    assert Instant(now) - Instant(start) < (daysPassed + 1) * SecondsPerDay;
    assert (daysPassed + 1) * SecondsPerDay <= n * SecondsPerDay;
  }

  /**
    Month-based cycles: the result's month index is `start`'s advanced by
    `(daysPassed / PeriodDays + 1) · PeriodMonths` months, its month lies in
    1..12, its day is `min(start.day, 28)` and its time is midnight; so the
    29th to the 31st never appear.
  */
  lemma MonthBasedDate(start: DateTime, cycle: Cycle, now: DateTime)
    requires Valid(start) && Valid(now)
    requires cycle == Monthly || cycle == Quarterly || cycle == BiAnnually || cycle == Yearly
    ensures var r := RecomputedDate(start, cycle, now);
      && r.Some? && Valid(r.value)
      && MonthIndex(r.value) == MonthIndex(start) + (DaysBetween(now, start) / PeriodDays(cycle) + 1) * PeriodMonths(cycle)
      && 1 <= r.value.month <= 12
      && r.value.day == Min(start.day, 28) <= 28
      && r.value.second == 0
  {
  }

  /** Yearly: the year is `start.year + daysPassed / 365 + 1` and the month is `start`'s. */
  lemma YearlyDate(start: DateTime, now: DateTime)
    requires Valid(start) && Valid(now)
    ensures var r := RecomputedDate(start, Yearly, now);
      && r.Some?
      && r.value.year == start.year + DaysBetween(now, start) / 365 + 1
      && r.value.month == start.month
  {
  }

  /**
    Month-based dates need not lie after `now`: a monthly subscription started
    on 31 January, recomputed at noon on 28 February, gets 28 February at midnight.
  */
  lemma MonthlyDateMayPrecedeNow()
    ensures var start, now := DateTime(2024, 1, 31, 0), DateTime(2024, 2, 28, 12 * 3600);
      && Valid(start) && Valid(now)
      && RecomputedDate(start, Monthly, now) == Some(DateTime(2024, 2, 28, 0))
      && Before(DateTime(2024, 2, 28, 0), now)
  {
    var start, now := DateTime(2024, 1, 31, 0), DateTime(2024, 2, 28, 12 * 3600);
    assert DaysBetween(now, start) == 28;
  }

  /** A lifetime subscription keeps its stored date and the calculator returns `None`. */
  lemma LifetimeYieldsNone(stored: Option<DateTime>, start: DateTime, now: DateTime)
    requires stored.Some? ==> Valid(stored.value)
    requires Valid(start) && Valid(now)
    ensures NextPaymentDate(stored, start, Lifetime, now) == stored
    ensures CalculatedDate(stored, start, Lifetime, now) == None
  {
  }

  /** A stored date that is not before `now` is kept and returned unchanged. */
  lemma FutureDateKept(stored: DateTime, start: DateTime, cycle: Cycle, now: DateTime)
    requires Valid(stored) && Valid(start) && Valid(now)
    requires !Before(stored, now)
    ensures NextPaymentDate(Some(stored), start, cycle, now) == Some(stored)
    ensures cycle != Lifetime ==> CalculatedDate(Some(stored), start, cycle, now) == Some(stored)
  {
  }

  /** An unrecognised cycle string leaves the stored date as it was. */
  lemma UnrecognizedCycleKeepsDate(stored: Option<DateTime>, start: DateTime, name: string, now: DateTime)
    requires stored.Some? ==> Valid(stored.value)
    requires Valid(start) && Valid(now)
    ensures NextPaymentDate(stored, start, Unrecognized(name), now) == stored
  {
  }

  /** Calling the calculator twice at the same `now` stores and returns what the first call did. */
  lemma {:induction false} CalculationIdempotent(stored: Option<DateTime>, start: DateTime, cycle: Cycle, now: DateTime)
    requires stored.Some? ==> Valid(stored.value)
    requires Valid(start) && Valid(now)
    ensures var once := NextPaymentDate(stored, start, cycle, now);
      && NextPaymentDate(once, start, cycle, now) == once
      && CalculatedDate(once, start, cycle, now) == CalculatedDate(stored, start, cycle, now)
  {
  }

  /** A `Subscription` row, updated in place by the calculator and the logo fixer. */
  class Subscription {
    const id: int
    const userId: int
    var name: string
    var logoUrl: Option<string>
    var amount: real
    var currency: string
    var billingCycle: Cycle
    var startDate: DateTime
    var nextPaymentDate: Option<DateTime>
    var isActive: bool

    ghost predicate Valid()
      reads this
    {
      Calendar.Valid(startDate) && (nextPaymentDate.Some? ==> Calendar.Valid(nextPaymentDate.value))
    }

    /** A new row as the add form creates it: active, no logo and no computed date yet. */
    constructor (id: int, userId: int, name: string, amount: real, currency: string, cycle: Cycle, start: DateTime)
      requires Calendar.Valid(start)
      ensures Valid()
      ensures this.id == id && this.userId == userId && this.name == name
      ensures this.amount == amount && this.currency == currency
      ensures billingCycle == cycle && startDate == start
      ensures logoUrl == None && nextPaymentDate == None && isActive
    {
      this.id := id;
      this.userId := userId;
      this.name := name;
      this.logoUrl := None;
      this.amount := amount;
      this.currency := currency;
      this.billingCycle := cycle;
      this.startDate := start;
      this.nextPaymentDate := None;
      this.isActive := true;
    }

    /** `calculate_next_payment_date` at time `now`. */
    method CalculateNextPaymentDate(now: DateTime) returns (r: Option<DateTime>)
      requires Valid() && Calendar.Valid(now)
      modifies this`nextPaymentDate
      ensures Valid()
      ensures nextPaymentDate == NextPaymentDate(old(nextPaymentDate), startDate, billingCycle, now)
      ensures r == CalculatedDate(old(nextPaymentDate), startDate, billingCycle, now)
    {
      if billingCycle == Lifetime {
        return None;
      }
      ghost var expected := NextPaymentDate(nextPaymentDate, startDate, billingCycle, now);
      if nextPaymentDate.None? || Before(nextPaymentDate.value, now) {
        var next := RecomputeDate(startDate, billingCycle, now);
        if next.Some? {
          nextPaymentDate := next;
        }
      }
      assert nextPaymentDate == expected;
      r := nextPaymentDate;
    }
  }

  /**
    The branch of `calculate_next_payment_date` that recomputes the date from
    the start date: whole weeks, 30-day months, 90-day quarters, 182-day half
    years or 365-day years since the start, then one period more.
  */
  method RecomputeDate(start: DateTime, cycle: Cycle, now: DateTime) returns (next: Option<DateTime>)
    requires Valid(start) && Valid(now)
    ensures next == RecomputedDate(start, cycle, now)
  {
    var daysPassed := DaysBetween(now, start);
    match cycle {
      case Weekly =>
        var weeksPassed := daysPassed / 7;
        next := Some(AddDays(start, (weeksPassed + 1) * 7));
      case Monthly =>
        var monthsPassed := daysPassed / 30;
        var newMonth := (start.month - 1 + monthsPassed + 1) % 12 + 1;
        var newYear := start.year + (start.month - 1 + monthsPassed + 1) / 12;
        next := Some(DateTime(newYear, newMonth, Min(start.day, 28), 0));
      case Quarterly =>
        var quartersPassed := daysPassed / 90;
        var newMonth := (start.month - 1 + (quartersPassed + 1) * 3) % 12 + 1;
        var newYear := start.year + (start.month - 1 + (quartersPassed + 1) * 3) / 12;
        next := Some(DateTime(newYear, newMonth, Min(start.day, 28), 0));
      case BiAnnually =>
        var halfYearsPassed := daysPassed / 182;
        var newMonth := (start.month - 1 + (halfYearsPassed + 1) * 6) % 12 + 1;
        var newYear := start.year + (start.month - 1 + (halfYearsPassed + 1) * 6) / 12;
        next := Some(DateTime(newYear, newMonth, Min(start.day, 28), 0));
      case Yearly =>
        var yearsPassed := daysPassed / 365;
        next := Some(DateTime(start.year + yearsPassed + 1, start.month, Min(start.day, 28), 0));
      case _ =>
        next := None;
    }
  }

  /** The first subscription with primary key `id` (`Subscription.query.get(id)`). */
  function FindSubscription(subs: seq<Subscription>, id: int): (r: Option<Subscription>)
    ensures r.Some? ==> r.value in subs && r.value.id == id
    ensures r.None? <==> forall i :: 0 <= i < |subs| ==> subs[i].id != id
  {
    if |subs| == 0 then None
    else if subs[0].id == id then Some(subs[0])
    else FindSubscription(subs[1..], id)
  }

  /** The first user with primary key `id` (`User.query.get(id)`). */
  function FindUser(users: seq<User>, id: int): (r: Option<User>)
    ensures r.Some? ==> r.value in users && r.value.id == id
    ensures r.None? <==> forall i :: 0 <= i < |users| ==> users[i].id != id
  {
    if |users| == 0 then None
    else if users[0].id == id then Some(users[0])
    else FindUser(users[1..], id)
  }

  /** The persisted tables the core reads and writes. */
  class Database {
    var users: seq<User>
    var subscriptions: seq<Subscription>
    var reminders: seq<Reminder>
    var exchangeRates: seq<ExchangeRate>

    /** Primary keys of subscriptions are distinct, and every stored date is a valid date-time. */
    ghost predicate Valid()
      reads `subscriptions, subscriptions
    {
      && (forall i, j :: 0 <= i < j < |subscriptions| ==> subscriptions[i].id != subscriptions[j].id)
      && (forall i :: 0 <= i < |subscriptions| ==> subscriptions[i].Valid())
    }

    constructor ()
      ensures Valid()
      ensures users == [] && subscriptions == [] && reminders == [] && exchangeRates == []
    {
      users := [];
      subscriptions := [];
      reminders := [];
      exchangeRates := [];
    }
  }
}
