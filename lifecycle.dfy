/** The per-user date logic of `daily_check` in routes.py: for one day and
    one user's birth month/day and signup date, whether the voucher is
    regenerated (8 days after the last birthday), whether the two-week
    reminder is due and with which template, and whether the one-month
    reminder is due. The date constructions follow the source exactly: the
    one for this year's birthday is guarded (the user is skipped), the others
    are not (the run fails). */
module Lifecycle {
  import opened Common
  import opened Dates

  /** The template keys of routes.py: "1ST_2WEEKS", "2ND_2WEEKS", "1MONTH". */
  datatype TemplateKey = FirstTwoWeeks | SecondTwoWeeks | OneMonth

  function KeyName(k: TemplateKey): string {
    match k
    case FirstTwoWeeks => "1ST_2WEEKS"
    case SecondTwoWeeks => "2ND_2WEEKS"
    case OneMonth => "1MONTH"
  }

  datatype Decision = Decision(
    firstBirthday: Date,
    firstBirthdayPassed: bool,
    lastBirthday: Date,
    voucherDue: bool,
    upcomingBirthday: Date,
    twoWeeks: Option<TemplateKey>,
    oneMonth: bool)

  datatype Evaluation =
    /** This year's birthday cannot be constructed: the user is skipped. */
    | Skipped
    /** An unguarded date construction raised ValueError; `voucherDue` says
        whether the voucher had already been regenerated when it did. */
    | Raised(voucherDue: bool)
    | Evaluated(decision: Decision)

  /** The first birthday on or after the signup date (routes.py:182-184):
      the signup year's, rolled to the next year only when strictly earlier. */
  function FirstBirthday(signup: Date, bm: int, bd: int): DateResult {
    match MakeDate(signup.year, bm, bd)
    case Ok(first) =>
      if Before(first, signup) then MakeDate(signup.year + 1, bm, bd) else Ok(first)
    case InvalidDate => InvalidDate
  }

  /** routes.py:188-191. */
  function LastBirthday(today: Date, birthday: Date, bm: int, bd: int): DateResult {
    if !Before(today, birthday) then Ok(birthday) else MakeDate(today.year - 1, bm, bd)
  }

  /** routes.py:204-207. */
  function UpcomingBirthday(today: Date, birthday: Date, bm: int, bd: int): DateResult {
    if !Before(today, birthday) then MakeDate(today.year + 1, bm, bd) else Ok(birthday)
  }

  /** routes.py:192-194: the voucher is regenerated 8 days after the last birthday. */
  predicate VoucherDue(today: Date, last: Date)
    requires Valid(last)
  {
    today == AddDays(last, 8) && Before(last, today)
  }

  /** The whole per-user evaluation, in the source's order of construction. */
  function Evaluate(today: Date, bm: int, bd: int, signup: Date): Evaluation
    requires Valid(today) && Valid(signup)
  {
    match MakeDate(today.year, bm, bd)
    case InvalidDate => Skipped
    case Ok(birthday) =>
      match FirstBirthday(signup, bm, bd)
      case InvalidDate => Raised(false)
      case Ok(first) =>
        var passed := !Before(today, first);
        match LastBirthday(today, birthday, bm, bd)
        case InvalidDate => Raised(false)
        case Ok(last) =>
          var due := VoucherDue(today, last);
          match UpcomingBirthday(today, birthday, bm, bd)
          case InvalidDate => Raised(due)
          case Ok(upcoming) =>
            var twoWeeks :=
              if today == AddDays(upcoming, -14)
              then Some(if !passed then FirstTwoWeeks else SecondTwoWeeks)
              else None;
            var oneMonth := today == AddDays(upcoming, -30) && passed;
            Evaluated(Decision(first, passed, last, due, upcoming, twoWeeks, oneMonth))
  }

  // ------------------------------------------------------------------ lemmas

  /** What an evaluated user's decision is made of, in one place, so that the
      lemmas below need not unfold Evaluate again. */
  lemma {:induction false} EvaluatedParts(today: Date, bm: int, bd: int, signup: Date)
    requires Valid(today) && Valid(signup)
    requires Evaluate(today, bm, bd, signup).Evaluated?
    ensures var d := Evaluate(today, bm, bd, signup).decision;
      var birthday := Date(today.year, bm, bd);
      && Valid(birthday)
      && FirstBirthday(signup, bm, bd) == Ok(d.firstBirthday)
      && d.firstBirthdayPassed == !Before(today, d.firstBirthday)
      && LastBirthday(today, birthday, bm, bd) == Ok(d.lastBirthday)
      && Valid(d.lastBirthday)
      && d.voucherDue == VoucherDue(today, d.lastBirthday)
      && UpcomingBirthday(today, birthday, bm, bd) == Ok(d.upcomingBirthday)
      && Valid(d.upcomingBirthday)
      && d.twoWeeks == (if today == AddDays(d.upcomingBirthday, -14)
                        then Some(if !d.firstBirthdayPassed then FirstTwoWeeks else SecondTwoWeeks)
                        else None)
      && d.oneMonth == (today == AddDays(d.upcomingBirthday, -30) && d.firstBirthdayPassed)
  {
    var birthday := Date(today.year, bm, bd);
    assert MakeDate(today.year, bm, bd) == Ok(birthday);
    var first := FirstBirthday(signup, bm, bd).date;
    var last := LastBirthday(today, birthday, bm, bd).date;
    var upcoming := UpcomingBirthday(today, birthday, bm, bd).date;
    assert FirstBirthday(signup, bm, bd) == Ok(first);
    assert LastBirthday(today, birthday, bm, bd) == Ok(last);
    assert UpcomingBirthday(today, birthday, bm, bd) == Ok(upcoming);
    assert Valid(last) && Valid(upcoming);
  }

  /** A leap year's neighbours are not leap years. */
  lemma LeapNeighbours(y: int)
    requires IsLeap(y)
    ensures !IsLeap(y - 1) && !IsLeap(y + 1)
  {
  }

  /** A February 29 birthday evaluated in a leap year raises: whichever
      branch routes.py:188 takes, it then constructs February 29 of the year
      before or after, which is not a leap year. */
  lemma {:induction false} LeapDayRaises(today: Date, signup: Date)
    requires Valid(today) && Valid(signup) && IsLeap(today.year)
    ensures Evaluate(today, 2, 29, signup).Raised?
  {
    LeapNeighbours(today.year);
    var birthday := Date(today.year, 2, 29);
    assert MakeDate(today.year, 2, 29) == Ok(birthday);
    assert LastBirthday(today, birthday, 2, 29).InvalidDate?
        || UpcomingBirthday(today, birthday, 2, 29).InvalidDate?;
  }

  /** Any birthday other than February 29 that exists this year exists in
      every year, so every construction succeeds. */
  lemma {:induction false} OrdinaryBirthdayEvaluates(today: Date, bm: int, bd: int, signup: Date)
    requires Valid(today) && Valid(signup) && Valid(Date(today.year, bm, bd))
    requires !(bm == 2 && bd == 29)
    ensures Evaluate(today, bm, bd, signup).Evaluated?
  {
    MakeDateFailsOnlyOnLeapDay(signup.year, today.year, bm, bd);
    MakeDateFailsOnlyOnLeapDay(signup.year + 1, today.year, bm, bd);
    MakeDateFailsOnlyOnLeapDay(today.year - 1, today.year, bm, bd);
    MakeDateFailsOnlyOnLeapDay(today.year + 1, today.year, bm, bd);
    var birthday := Date(today.year, bm, bd);
    assert FirstBirthday(signup, bm, bd).Ok?;
    assert LastBirthday(today, birthday, bm, bd).Ok?;
    assert UpcomingBirthday(today, birthday, bm, bd).Ok?;
  }

  /** A user is skipped exactly when this year's birthday does not exist; the
      evaluation raises exactly for a February 29 birthday in a leap year;
      every other user is evaluated. */
  lemma {:induction false} EvaluationOutcome(today: Date, bm: int, bd: int, signup: Date)
    requires Valid(today) && Valid(signup)
    ensures Evaluate(today, bm, bd, signup).Skipped? <==> !Valid(Date(today.year, bm, bd))
    ensures Evaluate(today, bm, bd, signup).Raised? <==> bm == 2 && bd == 29 && IsLeap(today.year)
  {
    if !Valid(Date(today.year, bm, bd)) {
      assert Evaluate(today, bm, bd, signup) == Skipped;
    } else if bm == 2 && bd == 29 {
      LeapDayRaises(today, signup);
    } else {
      OrdinaryBirthdayEvaluates(today, bm, bd, signup);
    }
  }

  /** routes.py:188-191 and 204-207 pick the occurrences of the birth
      month/day just before (or on) and just after today. */
  lemma {:induction false} BracketCore(today: Date, bm: int, bd: int, last: Date, upcoming: Date)
    requires Valid(today) && Valid(Date(today.year, bm, bd))
    requires LastBirthday(today, Date(today.year, bm, bd), bm, bd) == Ok(last)
    requires UpcomingBirthday(today, Date(today.year, bm, bd), bm, bd) == Ok(upcoming)
    ensures AtOrBefore(last, today) && Before(today, upcoming)
    ensures OnMonthDay(last, bm, bd) && OnMonthDay(upcoming, bm, bd)
    ensures upcoming.year == last.year + 1
  {
  }

  /** The last birthday is on or before today, the upcoming one strictly
      after, both fall on the birth month/day, and they are one year apart. */
  lemma {:induction false} BirthdaysBracketToday(today: Date, bm: int, bd: int, signup: Date)
    requires Valid(today) && Valid(signup)
    requires Evaluate(today, bm, bd, signup).Evaluated?
    ensures var d := Evaluate(today, bm, bd, signup).decision;
      && Valid(d.lastBirthday) && Valid(d.upcomingBirthday)
      && AtOrBefore(d.lastBirthday, today) && Before(today, d.upcomingBirthday)
      && OnMonthDay(d.lastBirthday, bm, bd) && OnMonthDay(d.upcomingBirthday, bm, bd)
      && d.upcomingBirthday.year == d.lastBirthday.year + 1
  {
    var d := Evaluate(today, bm, bd, signup).decision;
    EvaluatedParts(today, bm, bd, signup);
    BracketCore(today, bm, bd, d.lastBirthday, d.upcomingBirthday);
  }

  /** routes.py:182-184 give the earliest occurrence of the birth month/day on
      or after the signup date. */
  lemma {:induction false} FirstBirthdayCore(signup: Date, bm: int, bd: int, first: Date)
    requires Valid(signup) && FirstBirthday(signup, bm, bd) == Ok(first)
    ensures Valid(first) && OnMonthDay(first, bm, bd) && AtOrBefore(signup, first)
    ensures forall x :: Valid(x) && OnMonthDay(x, bm, bd) && AtOrBefore(signup, x) ==> AtOrBefore(first, x)
  {
  }

  /** The first birthday is the earliest occurrence of the birth month/day on
      or after the signup date (a birthday on the signup day itself counts),
      and it has passed exactly when today is on or after it. */
  lemma {:induction false} FirstBirthdayIsEarliest(today: Date, bm: int, bd: int, signup: Date)
    requires Valid(today) && Valid(signup)
    requires Evaluate(today, bm, bd, signup).Evaluated?
    ensures var d := Evaluate(today, bm, bd, signup).decision;
      && Valid(d.firstBirthday) && OnMonthDay(d.firstBirthday, bm, bd)
      && AtOrBefore(signup, d.firstBirthday)
      && (forall x :: Valid(x) && OnMonthDay(x, bm, bd) && AtOrBefore(signup, x) ==> AtOrBefore(d.firstBirthday, x))
      && (d.firstBirthdayPassed <==> AtOrBefore(d.firstBirthday, today))
  {
    var d := Evaluate(today, bm, bd, signup).decision;
    EvaluatedParts(today, bm, bd, signup);
    FirstBirthdayCore(signup, bm, bd, d.firstBirthday);
  }

  /** If the birth month/day falls k days ahead of today (0 < k <= 31), that
      day is the upcoming birthday. */
  lemma {:induction false} UpcomingWhenNear(today: Date, bm: int, bd: int, k: int)
    requires Valid(today) && Valid(Date(today.year, bm, bd)) && 0 < k <= 31
    requires OnMonthDay(AddDays(today, k), bm, bd)
    ensures var birthday := Date(today.year, bm, bd);
      UpcomingBirthday(today, birthday, bm, bd) == Ok(AddDays(today, k))
  {
    var q := AddDays(today, k);
    var birthday := Date(today.year, bm, bd);
    NearbyDates(today, q);
    AddDaysOrder(today, k);
    if q.year == today.year {
      assert q == birthday;
      assert Before(today, birthday);
    } else {
      assert bm == 1 && today.month == 12;
      assert !Before(today, birthday);
      assert MakeDate(today.year + 1, bm, bd) == Ok(q);
    }
  }

  /** If the birth month/day fell k days before today (0 <= k <= 31), that
      day is the last birthday. */
  lemma {:induction false} LastWhenNear(today: Date, bm: int, bd: int, k: int)
    requires Valid(today) && Valid(Date(today.year, bm, bd)) && 0 <= k <= 31
    requires OnMonthDay(AddDays(today, -k), bm, bd)
    ensures var birthday := Date(today.year, bm, bd);
      LastBirthday(today, birthday, bm, bd) == Ok(AddDays(today, -k))
  {
    var p := AddDays(today, -k);
    var birthday := Date(today.year, bm, bd);
    NearbyDates(p, today);
    AddDaysOrder(today, -k);
    if p.year == today.year {
      assert p == birthday;
      assert !Before(today, birthday);
    } else {
      assert bm == 12 && today.month == 1;
      assert Before(today, birthday);
      assert MakeDate(today.year - 1, bm, bd) == Ok(p);
    }
  }

  lemma {:induction false} VoucherCore(today: Date, bm: int, bd: int, last: Date)
    requires Valid(today) && Valid(Date(today.year, bm, bd))
    requires LastBirthday(today, Date(today.year, bm, bd), bm, bd) == Ok(last)
    ensures Valid(last)
    ensures VoucherDue(today, last) <==> OnMonthDay(AddDays(today, -8), bm, bd)
  {
    LastBirthdayShape(today, bm, bd, last);
    if VoucherDue(today, last) {
      AddDaysRoundTrip(last, 8);
      assert AddDays(today, -8) == last;
    } else if OnMonthDay(AddDays(today, -8), bm, bd) {
      LastWhenNear(today, bm, bd, 8);
      assert last == AddDays(today, -8);
      AddDaysRoundTrip(today, -8);
      AddDaysOrder(today, -8);
      assert false;
    }
  }

  lemma {:induction false} LastBirthdayShape(today: Date, bm: int, bd: int, last: Date)
    requires Valid(today) && Valid(Date(today.year, bm, bd))
    requires LastBirthday(today, Date(today.year, bm, bd), bm, bd) == Ok(last)
    ensures Valid(last) && OnMonthDay(last, bm, bd)
  {
  }

  /** The voucher is regenerated exactly when the day 8 days ago was the
      birthday. */
  lemma {:induction false} VoucherDueIff(today: Date, bm: int, bd: int, signup: Date)
    requires Valid(today) && Valid(signup)
    requires Evaluate(today, bm, bd, signup).Evaluated?
    ensures Evaluate(today, bm, bd, signup).decision.voucherDue
        <==> OnMonthDay(AddDays(today, -8), bm, bd)
  {
    EvaluatedParts(today, bm, bd, signup);
    VoucherCore(today, bm, bd, Evaluate(today, bm, bd, signup).decision.lastBirthday);
  }

  /** The `today > last_birthday` conjunct of the voucher guard is implied by
      `today == last_birthday + 8 days`. */
  lemma {:induction false} VoucherGuardRedundant(today: Date, last: Date)
    requires Valid(last) && today == AddDays(last, 8)
    ensures VoucherDue(today, last)
  {
    AddDaysOrder(last, 8);
  }

  /** The upcoming birthday is k days ahead (0 < k <= 31) exactly when the
      birth month/day falls k days from today. */
  lemma {:induction false} ReminderCore(today: Date, bm: int, bd: int, upcoming: Date, k: int)
    requires Valid(today) && Valid(Date(today.year, bm, bd)) && 0 < k <= 31
    requires UpcomingBirthday(today, Date(today.year, bm, bd), bm, bd) == Ok(upcoming)
    ensures Valid(upcoming)
    ensures today == AddDays(upcoming, -k) <==> OnMonthDay(AddDays(today, k), bm, bd)
  {
    assert Valid(upcoming) && OnMonthDay(upcoming, bm, bd);
    if today == AddDays(upcoming, -k) {
      AddDaysRoundTrip(upcoming, -k);
      assert AddDays(today, k) == upcoming;
    }
    if OnMonthDay(AddDays(today, k), bm, bd) {
      UpcomingWhenNear(today, bm, bd, k);
      assert upcoming == AddDays(today, k);
      AddDaysRoundTrip(today, k);
    }
  }

  /** The two-week reminder is due exactly when the birthday is 14 days
      ahead; it uses 1ST_2WEEKS before the first birthday has passed and
      2ND_2WEEKS after. */
  lemma {:induction false} TwoWeekReminderIff(today: Date, bm: int, bd: int, signup: Date)
    requires Valid(today) && Valid(signup)
    requires Evaluate(today, bm, bd, signup).Evaluated?
    ensures var d := Evaluate(today, bm, bd, signup).decision;
      && (d.twoWeeks.Some? <==> OnMonthDay(AddDays(today, 14), bm, bd))
      && (d.twoWeeks.Some? ==> d.twoWeeks.value == if d.firstBirthdayPassed then SecondTwoWeeks else FirstTwoWeeks)
  {
    EvaluatedParts(today, bm, bd, signup);
    ReminderCore(today, bm, bd, Evaluate(today, bm, bd, signup).decision.upcomingBirthday, 14);
  }

  /** The one-month reminder is due exactly when the birthday is 30 days
      ahead and the first birthday has passed. */
  lemma {:induction false} OneMonthReminderIff(today: Date, bm: int, bd: int, signup: Date)
    requires Valid(today) && Valid(signup)
    requires Evaluate(today, bm, bd, signup).Evaluated?
    ensures var d := Evaluate(today, bm, bd, signup).decision;
      d.oneMonth <==> OnMonthDay(AddDays(today, 30), bm, bd) && d.firstBirthdayPassed
  {
    EvaluatedParts(today, bm, bd, signup);
    ReminderCore(today, bm, bd, Evaluate(today, bm, bd, signup).decision.upcomingBirthday, 30);
  }

  /** Distances between today and the birthdays around it rule out two due
      actions on one day. */
  lemma {:induction false} ExclusiveCore(today: Date, last: Date, upcoming: Date)
    requires Valid(today) && Valid(last) && Valid(upcoming)
    requires upcoming.year == last.year + 1 && last.month == upcoming.month && last.day == upcoming.day
    ensures !(today == AddDays(upcoming, -14) && today == AddDays(upcoming, -30))
    ensures today == AddDays(last, 8) ==> today != AddDays(upcoming, -14) && today != AddDays(upcoming, -30)
  {
    AnniversaryGap(last, upcoming);
  }

  /** For one user on one day at most one reminder is due, and a voucher
      regeneration never falls on a reminder day (the upcoming birthday is
      357 or 358 days away then). */
  lemma {:induction false} DueActionsExclusive(today: Date, bm: int, bd: int, signup: Date)
    requires Valid(today) && Valid(signup)
    requires Evaluate(today, bm, bd, signup).Evaluated?
    ensures var d := Evaluate(today, bm, bd, signup).decision;
      && !(d.twoWeeks.Some? && d.oneMonth)
      && (d.voucherDue ==> d.twoWeeks.None? && !d.oneMonth)
  {
    var d := Evaluate(today, bm, bd, signup).decision;
    EvaluatedParts(today, bm, bd, signup);
    BracketCore(today, bm, bd, d.lastBirthday, d.upcomingBirthday);
    ExclusiveCore(today, d.lastBirthday, d.upcomingBirthday);
  }

  /** Signup on 2023-01-10 with a January 15 birthday: the first birthday is
      2023-01-15 (on or after the signup date), so on 2024-01-01 the
      two-week reminder uses 2ND_2WEEKS. */
  lemma {:induction false} SignupExampleReminder(signup: Date, today: Date)
    requires signup == Date(2023, 1, 10) && today == Date(2024, 1, 1)
    ensures Evaluate(today, 1, 15, signup).Evaluated?
    ensures Evaluate(today, 1, 15, signup).decision.firstBirthday == Date(2023, 1, 15)
    ensures Evaluate(today, 1, 15, signup).decision.twoWeeks == Some(SecondTwoWeeks)
  {
    OrdinaryBirthdayEvaluates(today, 1, 15, signup);
    TwoWeekReminderIff(today, 1, 15, signup);
    var d := Evaluate(today, 1, 15, signup).decision;
    EvaluatedParts(today, 1, 15, signup);
    assert FirstBirthday(signup, 1, 15) == Ok(Date(2023, 1, 15));
    assert d.firstBirthdayPassed;
    AddDaysCharacterized(today, 14, Date(2024, 1, 15));
  }

  /** The same customer's voucher is regenerated on 2024-01-23. */
  lemma {:induction false} SignupExampleVoucher(signup: Date, today: Date)
    requires signup == Date(2023, 1, 10) && today == Date(2024, 1, 23)
    ensures Evaluate(today, 1, 15, signup).Evaluated?
    ensures Evaluate(today, 1, 15, signup).decision.voucherDue
  {
    OrdinaryBirthdayEvaluates(today, 1, 15, signup);
    VoucherDueIff(today, 1, 15, signup);
    AddDaysCharacterized(today, -8, Date(2024, 1, 15));
  }

  /** ... and receives the one-month reminder on 2024-12-16, since the first
      birthday has passed. */
  lemma {:induction false} SignupExampleOneMonth(signup: Date, today: Date)
    requires signup == Date(2023, 1, 10) && today == Date(2024, 12, 16)
    ensures Evaluate(today, 1, 15, signup).Evaluated?
    ensures Evaluate(today, 1, 15, signup).decision.oneMonth
  {
    OrdinaryBirthdayEvaluates(today, 1, 15, signup);
    OneMonthReminderIff(today, 1, 15, signup);
    var d := Evaluate(today, 1, 15, signup).decision;
    EvaluatedParts(today, 1, 15, signup);
    assert FirstBirthday(signup, 1, 15) == Ok(Date(2023, 1, 15));
    assert d.firstBirthdayPassed;
    AddDaysCharacterized(today, 30, Date(2025, 1, 15));
  }
}
